/** Sharing a character budget among texts: _truncate and serialize_attachment_chunks in
    app/attachment_context.py, _truncate_text and _serialize_steps in app/rag.py. */
module Budget {
  import opened Wrappers

  const TRUNCATION_MARKER := "… [truncated]"

  function Truncate(text: string, limit: nat): string {
    if |text| <= limit then text
    else if limit <= |TRUNCATION_MARKER| then text[..limit]
    else text[..limit - |TRUNCATION_MARKER|] + TRUNCATION_MARKER
  }

  function Min(a: nat, b: nat): nat {
    if a < b then a else b
  }

  // As long as allowed, unchanged exactly when it fits.
  lemma TruncateMeans(text: string, limit: nat)
    ensures |Truncate(text, limit)| == Min(|text|, limit)
    ensures Truncate(text, limit) == text <==> |text| <= limit
  {
  }

  // A cut text keeps its beginning, with a mark at the end where there is room for one.
  lemma TruncateKeeps(text: string, limit: nat)
    requires |text| > limit
    ensures limit <= 13 ==> Truncate(text, limit) == text[..limit]
    ensures limit > 13 ==> Truncate(text, limit)[..limit - 13] == text[..limit - 13]
    ensures limit > 13 ==> Truncate(text, limit)[limit - 13..] == "… [truncated]"
  {
  }

  function Total(texts: seq<string>): nat {
    if texts == [] then 0 else |texts[0]| + Total(texts[1..])
  }

  // What each text is allowed: its share of what the texts before it left over.
  function Allowances(texts: seq<string>, remaining: nat): seq<nat>
    decreases |texts|
  {
    if texts == [] then []
    else
      var share := remaining / |texts|;
      ShareFits(remaining, |texts|);
      TruncateMeans(texts[0], share);
      [share] + Allowances(texts[1..], remaining - |Truncate(texts[0], share)|)
  }

  function Split(texts: seq<string>, remaining: nat): seq<string>
    decreases |texts|
  {
    if texts == [] then []
    else
      var share := remaining / |texts|;
      ShareFits(remaining, |texts|);
      TruncateMeans(texts[0], share);
      [Truncate(texts[0], share)] + Split(texts[1..], remaining - |Truncate(texts[0], share)|)
  }

  // A share of the budget, and what the others are left with.
  lemma ShareFits(remaining: nat, n: nat)
    requires n > 0
    ensures remaining / n <= remaining && (remaining / n) * n <= remaining < (remaining / n + 1) * n
  {
    var q := remaining / n;
    Distributes(q, n);
    assert remaining == q * n + remaining % n;
  }

  lemma Distributes(q: nat, n: nat)
    requires n > 0
    ensures (q + 1) * n == q * n + n && q <= q * n
  {
  }

  lemma ShareGrows(remaining: nat, n: nat, used: nat)
    requires n > 1 && used <= remaining / n
    ensures used <= remaining && (remaining - used) / (n - 1) >= remaining / n
  {
    var q := remaining / n;
    ShareFits(remaining, n);
    assert q * n == q * (n - 1) + q;
    Divides(remaining - used, n - 1, q);
  }

  lemma Divides(a: nat, n: nat, q: nat)
    requires n > 0 && q * n <= a
    ensures a / n >= q
  {
    ShareFits(a, n);
    var d := a / n;
    if d < q {
      Grows(d + 1, q, n);
    }
  }

  lemma Grows(a: nat, b: nat, c: nat)
    requires a <= b
    ensures a * c <= b * c
  {
  }

  // The first text takes its share, the others split what is left.
  lemma SplitFirst(texts: seq<string>, limit: nat) returns (rest: nat)
    requires texts != []
    ensures var share := limit / |texts|;
      && share <= limit && rest == limit - |Truncate(texts[0], share)|
      && Split(texts, limit) == [Truncate(texts[0], share)] + Split(texts[1..], rest)
      && Total(Split(texts, limit)) == Min(|texts[0]|, share) + Total(Split(texts[1..], rest))
      && rest == limit - Min(|texts[0]|, share)
  {
    var share := limit / |texts|;
    ShareFits(limit, |texts|);
    TruncateMeans(texts[0], share);
    rest := limit - |Truncate(texts[0], share)|;
    assert Split(texts, limit)[1..] == Split(texts[1..], rest);
  }

  method NextText(texts: seq<string>, remaining: nat, remainingItems: nat) returns (rendered: string)
    requires texts != [] && remainingItems == |texts|
    ensures |rendered| <= remaining && Split(texts, remaining) == [rendered] + Split(texts[1..], remaining - |rendered|)
  {
    var allowance := remaining / remainingItems;
    ghost var rest := SplitFirst(texts, remaining);
    rendered := Truncate(texts[0], allowance);
  }

  // The loop both functions run.
  method SplitBudget(texts: seq<string>, limit: nat) returns (bounded: seq<string>)
    ensures bounded == Split(texts, limit)
  {
    bounded := [];
    var remaining: nat, remainingItems: nat, i := limit, |texts|, 0;
    while i < |texts|
      invariant 0 <= i <= |texts| && remainingItems == |texts| - i
      invariant bounded + Split(texts[i..], remaining) == Split(texts, limit)
    {
      var rendered := NextText(texts[i..], remaining, remainingItems);
      assert texts[i..][1..] == texts[i + 1..];
      bounded := bounded + [rendered];
      remaining := remaining - |rendered|;
      remainingItems := remainingItems - 1;
      i := i + 1;
    }
  }

  /* ---- Safe and fair ---- */

  // Each text is cut to its allowance.
  lemma {:induction false} SplitTruncates(texts: seq<string>, limit: nat)
    ensures |Split(texts, limit)| == |texts| == |Allowances(texts, limit)|
    ensures forall i :: 0 <= i < |texts| ==> Split(texts, limit)[i] == Truncate(texts[i], Allowances(texts, limit)[i])
    decreases |texts|
  {
    if texts != [] {
      var share := limit / |texts|;
      ShareFits(limit, |texts|);
      TruncateMeans(texts[0], share);
      SplitTruncates(texts[1..], limit - |Truncate(texts[0], share)|);
    }
  }

  // An allowance is what the texts before have left over, divided by how many are left.
  lemma {:induction false} AllowanceIs(texts: seq<string>, limit: nat, i: nat)
    requires i < |texts|
    ensures |Split(texts, limit)| == |texts| == |Allowances(texts, limit)| && Total(Split(texts, limit)[..i]) <= limit
    ensures Allowances(texts, limit)[i] == (limit - Total(Split(texts, limit)[..i])) / (|texts| - i)
    decreases |texts|
  {
    SplitTruncates(texts, limit);
    if i > 0 {
      var rest := SplitFirst(texts, limit);
      AllowanceIs(texts[1..], rest, i - 1);
      assert Split(texts, limit)[..i][1..] == Split(texts[1..], rest)[..i - 1];
      TruncateMeans(texts[0], limit / |texts|);
    }
  }

  // The texts together never exceed the budget.
  lemma {:induction false} SplitIsSafe(texts: seq<string>, limit: nat)
    ensures Total(Split(texts, limit)) <= limit
    decreases |texts|
  {
    if texts != [] {
      var rest := SplitFirst(texts, limit);
      SplitIsSafe(texts[1..], rest);
    }
  }

  // No text is allowed less than an equal share, nor less than a text before it.
  lemma {:induction false} AllowancesGrow(texts: seq<string>, limit: nat)
    requires texts != []
    ensures forall i :: 0 <= i < |Allowances(texts, limit)| ==> Allowances(texts, limit)[i] >= limit / |texts|
    ensures forall i, j :: 0 <= i < j < |Allowances(texts, limit)| ==> Allowances(texts, limit)[i] <= Allowances(texts, limit)[j]
    decreases |texts|
  {
    var share := limit / |texts|;
    ShareFits(limit, |texts|);
    TruncateMeans(texts[0], share);
    var used := |Truncate(texts[0], share)|;
    if |texts| > 1 {
      AllowancesGrow(texts[1..], limit - used);
      ShareGrows(limit, |texts|, used);
    }
  }

  // A text within an equal share is never cut.
  lemma SmallTextsSurvive(texts: seq<string>, limit: nat, i: nat)
    requires i < |texts| && |texts[i]| <= limit / |texts|
    ensures |Split(texts, limit)| == |texts| && Split(texts, limit)[i] == texts[i]
  {
    SplitTruncates(texts, limit);
    AllowancesGrow(texts, limit);
    TruncateMeans(texts[i], Allowances(texts, limit)[i]);
  }

  ghost predicate Ascending(texts: seq<string>) {
    forall i, j :: 0 <= i < j < |texts| ==> |texts[i]| <= |texts[j]|
  }

  lemma {:induction false} TotalAtLeast(texts: seq<string>, each: nat)
    requires forall i :: 0 <= i < |texts| ==> |texts[i]| >= each
    ensures Total(texts) >= |texts| * each
  {
    if texts != [] {
      TotalAtLeast(texts[1..], each);
      assert |texts| * each == each + (|texts| - 1) * each;
    }
  }

  // Once a text is cut, longer ones after it can use all that is left.
  lemma DemandLasts(texts: seq<string>, limit: nat)
    requires |texts| > 1 && Ascending(texts) && |texts[0]| > limit / |texts|
    ensures Total(texts[1..]) >= limit - limit / |texts|
  {
    var n, q := |texts|, limit / |texts|;
    TotalAtLeast(texts[1..], q + 1);
    ShareFits(limit, n);
    assert (q + 1) * n == (n - 1) * (q + 1) + (q + 1);
  }

  // With the shorter texts first nothing of the budget is wasted.
  lemma {:induction false} AscendingUsesAll(texts: seq<string>, limit: nat)
    requires Ascending(texts)
    ensures Total(Split(texts, limit)) == Min(Total(texts), limit)
    decreases |texts|
  {
    if texts != [] {
      var rest := SplitFirst(texts, limit);
      AscendingUsesAll(texts[1..], rest);
      if |texts[0]| > limit / |texts| && |texts| > 1 {
        DemandLasts(texts, limit);
      }
      OneTextTakesAll(texts, limit);
    }
  }

  lemma OneTextTakesAll(texts: seq<string>, limit: nat)
    requires |texts| >= 1
    ensures |texts| == 1 ==> limit / |texts| == limit && Total(texts[1..]) == 0
  {
  }

  // Each text in turn is within its share of what the texts before it left over.
  predicate Fits(texts: seq<string>, limit: nat)
    decreases |texts|
  {
    texts == [] ||
    (ShareFits(limit, |texts|); |texts[0]| <= limit / |texts| && Fits(texts[1..], limit - |texts[0]|))
  }

  // Exactly then nothing is cut.
  lemma {:induction false} WholeExactly(texts: seq<string>, limit: nat)
    ensures Split(texts, limit) == texts <==> Fits(texts, limit)
    decreases |texts|
  {
    if texts != [] {
      var share := limit / |texts|;
      var rest := SplitFirst(texts, limit);
      TruncateMeans(texts[0], share);
      assert texts == [texts[0]] + texts[1..];
      if |texts[0]| <= share {
        WholeExactly(texts[1..], rest);
      }
    }
  }

  // With the shorter texts first that is to fit together.
  lemma {:induction false} AscendingIsWhole(texts: seq<string>, limit: nat)
    requires Ascending(texts)
    ensures Fits(texts, limit) <==> Total(texts) <= limit
    decreases |texts|
  {
    if texts != [] {
      var n, q := |texts|, limit / |texts|;
      ShareFits(limit, n);
      if |texts[0]| <= q {
        AscendingIsWhole(texts[1..], limit - |texts[0]|);
      } else {
        TotalAtLeast(texts, q + 1);
      }
    }
  }

  // In another order texts may be cut although all of them would have fitted.
  lemma LongTextFirst(long: string)
    requires |long| == 10
    ensures Total([long, ""]) <= 10 && !Fits([long, ""], 10) && Split([long, ""], 10) != [long, ""] && Total(Split([long, ""], 10)) == 5
  {
    TruncateMeans(long, 5);
    var rest := Split([""], 5);
    assert [long, ""][1..] == [""];
    assert Split([long, ""], 10) == [Truncate(long, 5)] + rest;
    assert rest == [""];
    assert Split([long, ""], 10)[1..] == [""];
  }

  /* ---- serialize_attachment_chunks and _serialize_steps ---- */

  method SerializeAttachmentTexts(texts: seq<string>, limit: int) returns (r: Result<seq<string>>)
    ensures r.Err? <==> limit <= 0
    ensures r.Ok? ==> r.value == Split(texts, limit) && (r.value == texts <==> Fits(texts, limit))
  {
    if limit <= 0 {
      return Err("total_text_limit must be greater than zero");
    }
    var bounded := SplitBudget(texts, limit);
    WholeExactly(texts, limit);
    return Ok(bounded);
  }

  function Capped(texts: seq<string>, cap: nat): seq<string> {
    seq(|texts|, i requires 0 <= i < |texts| => Truncate(texts[i], cap))
  }

  // Beyond the cap of each step nothing changes exactly when the capped texts fit together.
  method SerializeStepTexts(texts: seq<string>, stepMax: nat, totalMax: nat) returns (bounded: seq<string>)
    ensures bounded == Capped(texts, stepMax) <==> Total(Capped(texts, stepMax)) <= totalMax
    ensures Total(Capped(texts, stepMax)) > totalMax ==> bounded == Split(Capped(texts, stepMax), totalMax)
    ensures |bounded| == |texts| && Total(bounded) <= totalMax
  {
    bounded := [];
    var i := 0;
    while i < |texts|
      invariant 0 <= i <= |texts|
      invariant bounded == Capped(texts[..i], stepMax)
    {
      bounded := bounded + [Truncate(texts[i], stepMax)];
      i := i + 1;
    }
    assert texts[..i] == texts;
    var total := Sum(bounded);
    if total > totalMax {
      SplitIsSafe(bounded, totalMax);
      SplitTruncates(bounded, totalMax);
      bounded := SplitBudget(bounded, totalMax);
    }
  }

  method Sum(texts: seq<string>) returns (total: nat)
    ensures total == Total(texts)
  {
    total := 0;
    var i := 0;
    while i < |texts|
      invariant 0 <= i <= |texts|
      invariant total + Total(texts[i..]) == Total(texts)
    {
      assert texts[i..][1..] == texts[i + 1..];
      total := total + |texts[i]|;
      i := i + 1;
    }
  }
}
