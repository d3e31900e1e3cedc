/** The heading checks of app/validation.py.

    `norm` is _normalize_party_name: any function that tells the ten titles apart.  `asks` is the
    pattern of the attention heading: any predicate that picks that title alone out of the ten. */
module HeadingChecks {
  import opened Wrappers
  import opened Text
  import opened SummaryOutput
  import opened SummaryRender

  const ALLOWED_HEADINGS: seq<string> := [TITLE] + CORE_SECTION_ORDER + CONDITIONAL_SECTION_ORDER

  ghost predicate TellsApart(titles: seq<string>, norm: string -> string) {
    forall i, j :: 0 <= i < j < |titles| ==> norm(titles[i]) != norm(titles[j])
  }

  ghost predicate PicksAttention(asks: string -> bool) {
    forall i :: 0 <= i < |ALLOWED_HEADINGS| ==> (asks(ALLOWED_HEADINGS[i]) <==> i == |CORE_SECTION_ORDER|)
  }

  /* ---- _document_title_errors ---- */

  // The line boundaries of str.splitlines().
  predicate IsBreak(c: char) {
    var n := c as int;
    10 <= n <= 13 || 28 <= n <= 30 || n == 0x85 || n == 0x2028 || n == 0x2029
  }

  lemma BreaksAre(c: char)
    ensures IsBreak(c) == (c in "\n\U{b}\U{c}\r\U{1c}\U{1d}\U{1e}\U{85}\U{2028}\U{2029}")
  {
  }

  function Unbroken(text: string): string {
    seq(|text|, i requires 0 <= i < |text| => if IsBreak(text[i]) then '\n' else text[i])
  }

  // [line.strip() for line in lines if line.strip()]
  function Stripped(lines: seq<string>): seq<string> {
    if lines == [] then []
    else (if Strip(lines[0]) == [] then [] else [Strip(lines[0])]) + Stripped(lines[1..])
  }

  function TextLines(text: string): seq<string> {
    Stripped(Split(Unbroken(text)))
  }

  // The titles that ^#{1,6}\s+(.+?)\s*$ matches on single lines.
  function LineTitles(lines: seq<string>): seq<string> {
    if lines == [] then []
    else (if IsMarked(lines[0]) && TitleOf(lines[0]) != [] then [TitleOf(lines[0])] else []) + LineTitles(lines[1..])
  }

  predicate StartsWithTitle(lines: seq<string>) {
    lines != [] && lines[0] == "# " + TITLE
  }

  predicate AtMostOneTitle(titles: seq<string>, norm: string -> string) {
    forall i, j :: 0 <= i < j < |titles| ==> norm(titles[i]) != norm(TITLE) || norm(titles[j]) != norm(TITLE)
  }

  const WRONG_START := "summary must start with exact " + "document title"
  const TITLE_TWICE := "duplicate document title"

  lemma {:induction false} LineTitlesSplit(lines: seq<string>, line: string)
    ensures LineTitles(lines + [line]) == LineTitles(lines) + LineTitles([line])
  {
    if lines == [] {
      assert lines + [line] == [line];
    } else {
      LineTitlesSplit(lines[1..], line);
      assert (lines + [line])[1..] == lines[1..] + [line];
    }
  }

  function Times(titles: seq<string>, norm: string -> string): nat {
    if titles == [] then 0
    else Times(titles[..|titles| - 1], norm) + (if norm(titles[|titles| - 1]) == norm(TITLE) then 1 else 0)
  }

  lemma {:induction false} TimesMeans(titles: seq<string>, norm: string -> string)
    ensures Times(titles, norm) == 0 <==> forall i :: 0 <= i < |titles| ==> norm(titles[i]) != norm(TITLE)
    ensures Times(titles, norm) <= 1 <==> AtMostOneTitle(titles, norm)
  {
    if titles != [] {
      var front, n := titles[..|titles| - 1], |titles| - 1;
      TimesMeans(front, norm);
      assert forall i :: 0 <= i < n ==> titles[i] == front[i];
      assert AtMostOneTitle(titles, norm) <==>
        (AtMostOneTitle(front, norm)
         && (norm(titles[n]) == norm(TITLE) ==> forall i :: 0 <= i < n ==> norm(titles[i]) != norm(TITLE)));
    }
  }

  lemma TimesStep(lines: seq<string>, line: string, norm: string -> string)
    ensures Times(LineTitles(lines + [line]), norm) == Times(LineTitles(lines), norm) +
      if IsMarked(line) && TitleOf(line) != [] && norm(TitleOf(line)) == norm(TITLE) then 1 else 0
  {
    LineTitlesSplit(lines, line);
    var found := LineTitles(lines);
    if IsMarked(line) && TitleOf(line) != [] {
      assert LineTitles([line]) == [TitleOf(line)];
      assert (found + [TitleOf(line)])[..|found|] == found;
    } else {
      assert LineTitles([line]) == [];
      assert found + [] == found;
    }
  }

  lemma TimesUpTo(lines: seq<string>, i: nat, norm: string -> string)
    requires i < |lines|
    ensures Times(LineTitles(lines[..i + 1]), norm) == Times(LineTitles(lines[..i]), norm) +
      if IsMarked(lines[i]) && TitleOf(lines[i]) != [] && norm(TitleOf(lines[i])) == norm(TITLE) then 1 else 0
  {
    TimesStep(lines[..i], lines[i], norm);
    assert lines[..i + 1] == lines[..i] + [lines[i]];
  }

  method DocumentTitleErrors(text: string, norm: string -> string) returns (errors: seq<string>)
    ensures errors ==
      (if StartsWithTitle(TextLines(text)) then [] else ["summary must start with exact " + "document title"]) +
      (if AtMostOneTitle(LineTitles(TextLines(text)), norm) then [] else ["duplicate document title"])
  {
    var lines := TextLines(text);
    errors := [];
    if lines == [] || lines[0] != "# " + TITLE {
      errors := errors + [WRONG_START];
    }
    var occurrences, i := 0, 0;
    while i < |lines|
      invariant 0 <= i <= |lines|
      invariant occurrences == Times(LineTitles(lines[..i]), norm)
    {
      TimesUpTo(lines, i, norm);
      if IsMarked(lines[i]) && TitleOf(lines[i]) != [] && norm(TitleOf(lines[i])) == norm(TITLE) {
        occurrences := occurrences + 1;
      }
      i := i + 1;
    }
    assert lines[..i] == lines;
    TimesMeans(LineTitles(lines), norm);
    if occurrences > 1 {
      errors := errors + [TITLE_TWICE];
    }
  }

  /* ---- The order of the sections and the headings allowed ---- */

  // {norm(title): index}: of two titles with one key the later one wins.
  function IndexIn(order: seq<string>, title: string, norm: string -> string): Option<nat> {
    if order == [] then None
    else if norm(title) == norm(order[|order| - 1]) then Some(|order| - 1)
    else IndexIn(order[..|order| - 1], title, norm)
  }

  lemma {:induction false} IndexMeans(order: seq<string>, title: string, norm: string -> string)
    ensures IndexIn(order, title, norm).Some? ==>
      var k := IndexIn(order, title, norm).value; k < |order| && norm(title) == norm(order[k])
    ensures IndexIn(order, title, norm).None? ==> forall k :: 0 <= k < |order| ==> norm(title) != norm(order[k])
  {
    if order != [] {
      IndexMeans(order[..|order| - 1], title, norm);
    }
  }

  // Every heading that means a section is spelled exactly like it, and the sections come strictly
  // in order.
  predicate AllInOrder(order: seq<string>, headings: seq<string>, norm: string -> string) {
    && (forall i :: 0 <= i < |headings| ==> IsExact(order, headings[i], norm))
    && forall i, j :: 0 <= i < j < |headings| ==> Before(order, headings[i], headings[j], norm, true)
  }

  predicate CoreInOrder(headings: seq<string>, norm: string -> string) {
    AllInOrder(CORE_SECTION_ORDER, headings, norm)
  }

  predicate IsExact(order: seq<string>, title: string, norm: string -> string) {
    IndexMeans(order, title, norm);
    var k := IndexIn(order, title, norm);
    k.Some? ==> title == order[k.value]
  }

  // One section does not come after the other, or strictly before it; headings of neither are free.
  predicate Before(order: seq<string>, a: string, b: string, norm: string -> string, strictly: bool) {
    var i, j := IndexIn(order, a, norm), IndexIn(order, b, norm);
    i.Some? && j.Some? ==> i.value < j.value || (!strictly && i.value == j.value)
  }

  predicate ConditionalInOrder(headings: seq<string>, norm: string -> string) {
    forall i, j :: 0 <= i < j < |headings| ==> Before(CONDITIONAL_SECTION_ORDER, headings[i], headings[j], norm, false)
  }

  predicate IsAllowed(title: string, norm: string -> string) {
    exists i :: 0 <= i < |ALLOWED_HEADINGS| && norm(title) == norm(ALLOWED_HEADINGS[i])
  }

  // The indices of the sections that headings mean, in order.
  function Observed(order: seq<string>, headings: seq<string>, norm: string -> string): seq<nat> {
    if headings == [] then []
    else
      var k := IndexIn(order, headings[|headings| - 1], norm);
      Observed(order, headings[..|headings| - 1], norm) + if k.Some? then [k.value] else []
  }

  lemma {:induction false} ObservedMeans(order: seq<string>, headings: seq<string>, norm: string -> string)
    ensures forall n :: n in Observed(order, headings, norm) <==>
      exists i :: 0 <= i < |headings| && IndexIn(order, headings[i], norm) == Some(n)
  {
    if headings != [] {
      var front := headings[..|headings| - 1];
      ObservedMeans(order, front, norm);
      forall n | n in Observed(order, headings, norm)
        ensures exists i :: 0 <= i < |headings| && IndexIn(order, headings[i], norm) == Some(n)
      {
        if n in Observed(order, front, norm) {
          var i :| 0 <= i < |front| && IndexIn(order, front[i], norm) == Some(n);
          assert headings[i] == front[i];
        } else {
          assert IndexIn(order, headings[|headings| - 1], norm) == Some(n);
        }
      }
      forall i | 0 <= i < |headings| && IndexIn(order, headings[i], norm).Some?
        ensures IndexIn(order, headings[i], norm).value in Observed(order, headings, norm)
      {
        if i < |front| {
          assert front[i] == headings[i];
        }
      }
    }
  }

  predicate Ascending(ns: seq<nat>, strictly: bool) {
    forall i, j :: 0 <= i < j < |ns| ==> Follows(ns[i], ns[j], strictly)
  }

  // The observed indices ascend exactly when the headings are pairwise in order.
  lemma {:induction false} ObservedAscend(order: seq<string>, headings: seq<string>, norm: string -> string, strictly: bool)
    ensures Ascending(Observed(order, headings, norm), strictly) <==> AllBefore(order, headings, norm, strictly)
  {
    if headings != [] {
      var n := |headings| - 1;
      var front, last := headings[..n], headings[n];
      var seen := Observed(order, front, norm);
      var k := IndexIn(order, last, norm);
      ObservedAscend(order, front, norm, strictly);
      AllBeforeSnoc(order, front, last, norm, strictly);
      assert headings == front + [last];
      if k.Some? {
        assert Observed(order, headings, norm) == seen + [k.value];
        AscendingSnoc(seen, k.value, strictly);
        SeenFollow(order, front, last, norm, strictly);
      } else {
        assert Observed(order, headings, norm) == seen;
        assert forall i :: 0 <= i < |front| ==> Before(order, front[i], last, norm, strictly);
      }
    }
  }

  lemma SeenFollow(order: seq<string>, front: seq<string>, last: string, norm: string -> string, strictly: bool)
    requires IndexIn(order, last, norm).Some?
    ensures (forall m :: m in Observed(order, front, norm) ==> Follows(m, IndexIn(order, last, norm).value, strictly)) <==>
      forall i :: 0 <= i < |front| ==> Before(order, front[i], last, norm, strictly)
  {
    var seen, k := Observed(order, front, norm), IndexIn(order, last, norm).value;
    ObservedMeans(order, front, norm);
    forall i | 0 <= i < |front| && IndexIn(order, front[i], norm).Some?
      ensures IndexIn(order, front[i], norm).value in seen
      ensures Before(order, front[i], last, norm, strictly) <==> Follows(IndexIn(order, front[i], norm).value, k, strictly)
    {
    }
    forall m | m in seen ensures exists i :: 0 <= i < |front| && IndexIn(order, front[i], norm) == Some(m) {
    }
  }

  predicate Follows(a: nat, b: nat, strictly: bool) {
    a < b || (!strictly && a == b)
  }

  lemma AscendingSnoc(ns: seq<nat>, n: nat, strictly: bool)
    ensures Ascending(ns + [n], strictly) <==> Ascending(ns, strictly) && forall m :: m in ns ==> Follows(m, n, strictly)
  {
    var all := ns + [n];
    assert all[|ns|] == n && forall i :: 0 <= i < |ns| ==> all[i] == ns[i];
    if Ascending(ns, strictly) && forall m :: m in ns ==> Follows(m, n, strictly) {
      forall i, j | 0 <= i < j < |all| ensures Follows(all[i], all[j], strictly) {
        if j == |ns| {
          assert ns[i] in ns;
        }
      }
    }
    if Ascending(all, strictly) {
      forall m | m in ns ensures Follows(m, n, strictly) {
        var i :| 0 <= i < |ns| && ns[i] == m;
        assert all[i] == m;
      }
    }
  }

  ghost predicate AllBefore(order: seq<string>, headings: seq<string>, norm: string -> string, strictly: bool) {
    forall i, j :: 0 <= i < j < |headings| ==> Before(order, headings[i], headings[j], norm, strictly)
  }

  lemma AllBeforeSnoc(order: seq<string>, front: seq<string>, last: string, norm: string -> string, strictly: bool)
    ensures AllBefore(order, front + [last], norm, strictly) <==>
      AllBefore(order, front, norm, strictly) && forall i :: 0 <= i < |front| ==> Before(order, front[i], last, norm, strictly)
  {
    var all := front + [last];
    assert all[|front|] == last && forall i :: 0 <= i < |front| ==> all[i] == front[i];
    if AllBefore(order, all, norm, strictly) {
      forall i | 0 <= i < |front| ensures Before(order, front[i], last, norm, strictly) {
        assert Before(order, all[i], all[|front|], norm, strictly);
      }
      forall i, j | 0 <= i < j < |front| ensures Before(order, front[i], front[j], norm, strictly) {
        assert Before(order, all[i], all[j], norm, strictly);
      }
    }
  }

  lemma {:induction false} SameIndex(order: seq<string>, a: string, b: string, norm: string -> string)
    requires norm(a) == norm(b)
    ensures IndexIn(order, a, norm) == IndexIn(order, b, norm)
  {
    if order != [] {
      SameIndex(order[..|order| - 1], a, b, norm);
    }
  }

  // Headings that are out of order already stay so when more follow.
  lemma OutOfOrder(order: seq<string>, headings: seq<string>, n: nat, norm: string -> string, strictly: bool)
    requires n <= |headings| && !Ascending(Observed(order, headings[..n], norm), strictly)
    ensures exists i, j :: 0 <= i < j < |headings| && !Before(order, headings[i], headings[j], norm, strictly)
  {
    var front := headings[..n];
    ObservedAscend(order, front, norm, strictly);
    var i, j :| 0 <= i < j < |front| && !Before(order, front[i], front[j], norm, strictly);
    assert headings[i] == front[i] && headings[j] == front[j];
  }

  lemma ObservedStep(order: seq<string>, headings: seq<string>, i: nat, norm: string -> string)
    requires i < |headings|
    ensures Observed(order, headings[..i + 1], norm) ==
      Observed(order, headings[..i], norm) + var k := IndexIn(order, headings[i], norm); if k.Some? then [k.value] else []
  {
    assert headings[..i + 1][..i] == headings[..i];
  }

  // The second loop of both order checks.
  method NeverDrops(observed: seq<nat>) returns (ok: bool)
    ensures ok <==> Ascending(observed, false)
  {
    var previous: int, i := -1, 0;
    while i < |observed|
      invariant 0 <= i <= |observed|
      invariant previous == if i == 0 then -1 else observed[i - 1]
      invariant Ascending(observed[..i], false)
    {
      if observed[i] < previous {
        return false;
      }
      previous := observed[i];
      i := i + 1;
    }
    assert observed[..i] == observed;
    return true;
  }

  // The sections the first n headings mean are spelled out and different.
  ghost predicate CleanSoFar(order: seq<string>, headings: seq<string>, n: nat, norm: string -> string)
    requires n <= |headings|
  {
    && (forall j :: 0 <= j < n ==> IsExact(order, headings[j], norm))
    && forall a, b :: 0 <= a < b < |Observed(order, headings[..n], norm)| ==>
         Observed(order, headings[..n], norm)[a] != Observed(order, headings[..n], norm)[b]
  }

  function Meant(order: seq<string>, headings: seq<string>, n: nat, norm: string -> string): set<string>
    requires n <= |headings|
  {
    set j | 0 <= j < n && IndexIn(order, headings[j], norm).Some? :: norm(headings[j])
  }

  lemma MeansMore(order: seq<string>, headings: seq<string>, n: nat, norm: string -> string)
    requires n < |headings| && CleanSoFar(order, headings, n, norm) && IsExact(order, headings[n], norm)
    requires IndexIn(order, headings[n], norm).Some? ==> norm(headings[n]) !in Meant(order, headings, n, norm)
    ensures CleanSoFar(order, headings, n + 1, norm)
    ensures Meant(order, headings, n + 1, norm) ==
      Meant(order, headings, n, norm) + if IndexIn(order, headings[n], norm).Some? then {norm(headings[n])} else {}
  {
    ObservedStep(order, headings, n, norm);
    if IndexIn(order, headings[n], norm).Some? {
      FirstOfItsKind(order, headings, n, norm);
    }
  }

  // The first loop: the sections the headings mean, unless one is misspelled or comes twice.
  method ObservedSections(order: seq<string>, headings: seq<string>, norm: string -> string)
    returns (observed: seq<nat>, error: Option<string>)
    ensures error.None? ==> observed == Observed(order, headings, norm) && CleanSoFar(order, headings, |headings|, norm)
    ensures error.Some? ==> !AllInOrder(order, headings, norm)
  {
    observed := [];
    var seen: set<string>, i := {}, 0;
    while i < |headings|
      invariant 0 <= i <= |headings|
      invariant observed == Observed(order, headings[..i], norm)
      invariant CleanSoFar(order, headings, i, norm)
      invariant seen == Meant(order, headings, i, norm)
    {
      var title := headings[i];
      var k := IndexIn(order, title, norm);
      IndexMeans(order, title, norm);
      ObservedStep(order, headings, i, norm);
      if k.Some? {
        if title != order[k.value] {
          assert !IsExact(order, headings[i], norm);
          return observed, Some(order[k.value]);
        }
        if norm(title) in seen {
          Repeated(order, headings, i, norm);
          OutOfOrder(order, headings, i + 1, norm, true);
          return observed, Some(order[k.value]);
        }
      }
      MeansMore(order, headings, i, norm);
      if k.Some? {
        seen := seen + {norm(title)};
        observed := observed + [k.value];
      }
      i := i + 1;
    }
    assert headings[..i] == headings;
    return observed, None;
  }

  // _core_section_order_errors, on the titles the heading pattern finds.
  method CoreSectionOrderError(headings: seq<string>, norm: string -> string) returns (error: Option<string>)
    ensures error.None? <==> CoreInOrder(headings, norm)
  {
    var order := CORE_SECTION_ORDER;
    var observed, wrong := ObservedSections(order, headings, norm);
    if wrong.Some? {
      return wrong;
    }
    assert headings[..|headings|] == headings;
    ObservedAscend(order, headings, norm, true);
    DistinctAscend(observed);
    var ok := NeverDrops(observed);
    error := if ok then None else Some("core sections must follow order");
  }

  lemma DistinctAscend(ns: seq<nat>)
    requires forall a, b :: 0 <= a < b < |ns| ==> ns[a] != ns[b]
    ensures Ascending(ns, true) <==> Ascending(ns, false)
  {
  }

  // A heading that means the same as an earlier one repeats an observed index.
  lemma Repeated(order: seq<string>, headings: seq<string>, i: nat, norm: string -> string)
    requires i < |headings| && IndexIn(order, headings[i], norm).Some?
    requires exists j :: 0 <= j < i && IndexIn(order, headings[j], norm).Some? && norm(headings[j]) == norm(headings[i])
    ensures !Ascending(Observed(order, headings[..i + 1], norm), true)
  {
    var j :| 0 <= j < i && IndexIn(order, headings[j], norm).Some? && norm(headings[j]) == norm(headings[i]);
    var front := headings[..i + 1];
    SameIndex(order, headings[i], headings[j], norm);
    ObservedAscend(order, front, norm, true);
    assert front[j] == headings[j] && front[i] == headings[i];
    assert !Before(order, front[j], front[i], norm, true);
  }

  lemma FirstOfItsKind(order: seq<string>, headings: seq<string>, i: nat, norm: string -> string)
    requires i < |headings| && IndexIn(order, headings[i], norm).Some?
    requires forall j :: 0 <= j < i && IndexIn(order, headings[j], norm).Some? ==> norm(headings[j]) != norm(headings[i])
    ensures IndexIn(order, headings[i], norm).value !in Observed(order, headings[..i], norm)
  {
    var front, k := headings[..i], IndexIn(order, headings[i], norm).value;
    ObservedMeans(order, front, norm);
    IndexMeans(order, headings[i], norm);
    forall j | 0 <= j < |front| ensures IndexIn(order, front[j], norm) != Some(k) {
      IndexMeans(order, front[j], norm);
      assert headings[j] == front[j];
    }
  }

  // _conditional_section_order_errors: a section may come twice, but never after a later one.
  method ConditionalSectionOrderError(headings: seq<string>, norm: string -> string) returns (error: Option<string>)
    ensures error.None? <==> ConditionalInOrder(headings, norm)
  {
    var order := CONDITIONAL_SECTION_ORDER;
    var observed: seq<nat>, i := [], 0;
    while i < |headings|
      invariant 0 <= i <= |headings|
      invariant observed == Observed(order, headings[..i], norm)
    {
      var k := IndexIn(order, headings[i], norm);
      ObservedStep(order, headings, i, norm);
      if k.Some? {
        observed := observed + [k.value];
      }
      i := i + 1;
    }
    assert headings[..i] == headings;
    ObservedAscend(order, headings, norm, false);
    var ok := NeverDrops(observed);
    error := if ok then None else Some("conditional sections must follow order");
  }

  function Disallowed(headings: seq<string>, norm: string -> string): seq<string> {
    if headings == [] then []
    else
      var last := headings[|headings| - 1];
      Disallowed(headings[..|headings| - 1], norm) + if IsAllowed(last, norm) then [] else [last]
  }

  // _unexpected_heading_errors
  method UnexpectedHeadings(headings: seq<string>, norm: string -> string) returns (errors: seq<string>)
    ensures errors == Disallowed(headings, norm)
    ensures errors == [] <==> forall i :: 0 <= i < |headings| ==> IsAllowed(headings[i], norm)
  {
    errors := [];
    var i := 0;
    while i < |headings|
      invariant 0 <= i <= |headings|
      invariant errors == Disallowed(headings[..i], norm)
      invariant errors == [] <==> forall j :: 0 <= j < i ==> IsAllowed(headings[j], norm)
    {
      assert headings[..i + 1][..i] == headings[..i];
      if !IsAllowed(headings[i], norm) {
        errors := errors + [headings[i]];
      }
      i := i + 1;
    }
    assert headings[..i] == headings;
  }

  /* ---- _attention_body ---- */

  predicate IsAttention(line: string, asks: string -> bool) {
    IsMarked(line) && TitleOf(line) != [] && asks(TitleOf(line))
  }

  // ^#{1,6}\s+\S matches at line i: the marks are followed by something, on this line or below.
  predicate Opens(lines: seq<string>, i: nat)
    requires i < |lines|
  {
    IsMarked(lines[i]) && (TitleOf(lines[i]) != [] || exists j :: i < j < |lines| && !IsBlank(lines[j]))
  }

  // Lines i + 1 to j - 1 are the body of the first attention heading.
  predicate IsBody(lines: seq<string>, asks: string -> bool, i: nat, j: nat) {
    && i < j <= |lines| && IsAttention(lines[i], asks)
    && (forall k :: 0 <= k < i ==> !IsAttention(lines[k], asks))
    && (j < |lines| ==> Opens(lines, j))
    && (forall k :: i < k < j ==> !Opens(lines, k))
  }

  method AttentionBody(lines: seq<string>, asks: string -> bool) returns (body: Option<string>)
    ensures body.None? <==> forall k :: 0 <= k < |lines| ==> !IsAttention(lines[k], asks)
    ensures body.Some? ==> exists i: nat, j: nat :: IsBody(lines, asks, i, j) && body.value == Strip(Join(lines[i + 1..j]))
  {
    var i := 0;
    while i < |lines| && !IsAttention(lines[i], asks)
      invariant 0 <= i <= |lines|
      invariant forall k :: 0 <= k < i ==> !IsAttention(lines[k], asks)
    {
      i := i + 1;
    }
    if i == |lines| {
      return None;
    }
    var j := i + 1;
    while j < |lines| && !Opens(lines, j)
      invariant i < j <= |lines|
      invariant forall k :: i < k < j ==> !Opens(lines, k)
    {
      j := j + 1;
    }
    assert IsBody(lines, asks, i, j);
    body := Some(Strip(Join(lines[i + 1..j])));
  }

  /* ---- validar: its document title, attention section and heading checks ---- */

  ghost predicate HasAttention(lines: seq<string>, asks: string -> bool) {
    exists i: nat, j: nat :: IsBody(lines, asks, i, j) && Strip(Join(lines[i + 1..j])) != []
  }

  ghost predicate Passes(text: string, norm: string -> string, asks: string -> bool) {
    && StartsWithTitle(TextLines(text)) && AtMostOneTitle(LineTitles(TextLines(text)), norm)
    && HasAttention(Split(text), asks)
    && var headings := Headings(Split(text));
       CoreInOrder(headings, norm) && ConditionalInOrder(headings, norm)
       && forall i :: 0 <= i < |headings| ==> IsAllowed(headings[i], norm)
  }

  lemma BodyIsUnique(lines: seq<string>, asks: string -> bool, i: nat, j: nat, i': nat, j': nat)
    requires IsBody(lines, asks, i, j) && IsBody(lines, asks, i', j')
    ensures i == i' && j == j'
  {
  }

  method Validate(text: string, norm: string -> string, asks: string -> bool) returns (errors: seq<string>)
    ensures errors == [] <==> Passes(text, norm, asks)
  {
    errors := DocumentTitleErrors(text, norm);
    var body := AttentionBody(Split(text), asks);
    BodyDecides(Split(text), asks, body);
    if body.None? {
      errors := errors + ["Pontos de atenção section is required"];
    } else if body.value == [] {
      errors := errors + ["Pontos de atenção section must not be empty"];
    }
    var headings := Headings(Split(text));
    var core := CoreSectionOrderError(headings, norm);
    if core.Some? {
      errors := errors + [core.value];
    }
    var conditional := ConditionalSectionOrderError(headings, norm);
    if conditional.Some? {
      errors := errors + [conditional.value];
    }
    var unexpected := UnexpectedHeadings(headings, norm);
    errors := errors + unexpected;
  }

  lemma BodyDecides(lines: seq<string>, asks: string -> bool, body: Option<string>)
    requires body.None? <==> forall k :: 0 <= k < |lines| ==> !IsAttention(lines[k], asks)
    requires body.Some? ==> exists i: nat, j: nat :: IsBody(lines, asks, i, j) && body.value == Strip(Join(lines[i + 1..j]))
    ensures HasAttention(lines, asks) <==> body.Some? && body.value != []
  {
    if body.Some? {
      var i: nat, j: nat :| IsBody(lines, asks, i, j) && body.value == Strip(Join(lines[i + 1..j]));
      OnlyBody(lines, asks, i, j);
    }
  }

  lemma OnlyBody(lines: seq<string>, asks: string -> bool, i: nat, j: nat)
    requires IsBody(lines, asks, i, j)
    ensures HasAttention(lines, asks) <==> Strip(Join(lines[i + 1..j])) != []
  {
    if HasAttention(lines, asks) {
      var i': nat, j': nat :| IsBody(lines, asks, i', j') && Strip(Join(lines[i' + 1..j'])) != [];
      BodyIsUnique(lines, asks, i, j, i', j');
    }
  }
}
