/** The lexical score of process movements (bm25_scores and _normalize in app/retrieval.py), over
    reals and with the logarithm as a parameter. */
module Bm25 {
  const K1 := 1.5
  const B := 0.75

  // A movement: whether its text names a milestone, and the tokens of its title and text.
  datatype Step = Step(id: int, number: int, milestone: bool, tokens: seq<string>)

  // All that is needed of the logarithm.
  ghost predicate IsLog(log: real -> real) {
    forall x: real :: x > 1.0 ==> log(x) > 0.0
  }

  function Count(doc: seq<string>, term: string): nat {
    if doc == [] then 0 else Count(doc[..|doc| - 1], term) + if doc[|doc| - 1] == term then 1 else 0
  }

  // The number of documents that hold the term.
  function DocFreq(steps: seq<Step>, term: string): nat {
    if steps == [] then 0
    else DocFreq(steps[..|steps| - 1], term) + if term in steps[|steps| - 1].tokens then 1 else 0
  }

  function TotalLength(steps: seq<Step>): nat {
    if steps == [] then 0 else TotalLength(steps[..|steps| - 1]) + |steps[|steps| - 1].tokens|
  }

  function AverageLength(steps: seq<Step>): real
    requires steps != []
  {
    if TotalLength(steps) == 0 then 1.0 else TotalLength(steps) as real / |steps| as real
  }

  function Idf(n: nat, df: nat, log: real -> real): real {
    log(1.0 + ((n - df) as real + 0.5) / (df as real + 0.5))
  }

  function Denominator(tf: nat, length: nat, average: real): real
    requires average > 0.0
  {
    tf as real + K1 * (1.0 - B + B * (length as real / average))
  }

  lemma Quotient(a: real, b: real)
    requires b > 0.0
    ensures a > 0.0 ==> a / b > 0.0
    ensures a >= 0.0 ==> a / b >= 0.0
    ensures a <= b ==> a / b <= 1.0
  {
  }

  lemma DenominatorIsPositive(tf: nat, length: nat, average: real)
    requires average > 0.0
    ensures Denominator(tf, length, average) > 0.0
  {
    Quotient(length as real, average);
  }

  function Weight(tf: nat, length: nat, average: real): real
    requires average > 0.0
  {
    DenominatorIsPositive(tf, length, average);
    (tf as real * (K1 + 1.0)) / Denominator(tf, length, average)
  }

  // The terms of the query in turn, each as often as it is asked for.
  function Score(query: seq<string>, step: Step, steps: seq<Step>, average: real, log: real -> real): real
    requires average > 0.0
  {
    if query == [] then 0.0
    else
      var term := query[|query| - 1];
      var before := Score(query[..|query| - 1], step, steps, average, log);
      var tf := Count(step.tokens, term);
      if tf == 0 then before
      else before + Idf(|steps|, DocFreq(steps, term), log) * Weight(tf, |step.tokens|, average)
  }

  lemma AverageIsPositive(steps: seq<Step>)
    requires steps != []
    ensures AverageLength(steps) > 0.0
  {
    if TotalLength(steps) != 0 {
      Quotient(TotalLength(steps) as real, |steps| as real);
    }
  }

  // Scores by identifier; of two steps with one identifier the later one counts.
  function Scores(query: seq<string>, part: seq<Step>, steps: seq<Step>, log: real -> real): map<int, real>
    requires steps != []
  {
    if part == [] then map[]
    else
      var last := part[|part| - 1];
      AverageIsPositive(steps);
      Scores(query, part[..|part| - 1], steps, log)[last.id := Score(query, last, steps, AverageLength(steps), log)]
  }

  /* ---- The loops ---- */

  method Frequencies(doc: seq<string>) returns (frequencies: map<string, nat>)
    ensures forall term :: term in frequencies <==> term in doc
    ensures forall term :: term in doc ==> frequencies[term] == Count(doc, term)
    ensures forall term :: term !in doc ==> Count(doc, term) == 0
  {
    frequencies := map[];
    var i := 0;
    while i < |doc|
      invariant 0 <= i <= |doc|
      invariant forall term :: term in frequencies <==> term in doc[..i]
      invariant forall term :: term in doc[..i] ==> frequencies[term] == Count(doc[..i], term)
      invariant forall term :: term !in doc[..i] ==> Count(doc[..i], term) == 0
    {
      assert doc[..i + 1] == doc[..i] + [doc[i]];
      frequencies := frequencies[doc[i] := (if doc[i] in frequencies then frequencies[doc[i]] else 0) + 1];
      i := i + 1;
    }
    assert doc[..i] == doc;
  }

  method DocumentFrequency(steps: seq<Step>, term: string) returns (df: nat)
    ensures df == DocFreq(steps, term)
  {
    df := 0;
    var i := 0;
    while i < |steps|
      invariant 0 <= i <= |steps|
      invariant df == DocFreq(steps[..i], term)
    {
      assert steps[..i + 1][..i] == steps[..i];
      if term in steps[i].tokens {
        df := df + 1;
      }
      i := i + 1;
    }
    assert steps[..i] == steps;
  }

  method ScoreStep(query: seq<string>, step: Step, steps: seq<Step>, average: real, log: real -> real) returns (score: real)
    requires average > 0.0
    ensures score == Score(query, step, steps, average, log)
  {
    var frequencies := Frequencies(step.tokens);
    score := 0.0;
    var i := 0;
    while i < |query|
      invariant 0 <= i <= |query|
      invariant score == Score(query[..i], step, steps, average, log)
    {
      assert query[..i + 1][..i] == query[..i];
      var tf := if query[i] in frequencies then frequencies[query[i]] else 0;
      if tf != 0 {
        var df := DocumentFrequency(steps, query[i]);
        score := score + Idf(|steps|, df, log) * Weight(tf, |step.tokens|, average);
      }
      i := i + 1;
    }
    assert query[..i] == query;
  }

  method Bm25Scores(query: seq<string>, steps: seq<Step>, log: real -> real) returns (scores: map<int, real>)
    ensures scores == if steps == [] then map[] else Scores(query, steps, steps, log)
  {
    scores := map[];
    if steps == [] {
      return;
    }
    AverageIsPositive(steps);
    var average := AverageLength(steps);
    var i := 0;
    while i < |steps|
      invariant 0 <= i <= |steps|
      invariant scores == Scores(query, steps[..i], steps, log)
    {
      assert steps[..i + 1][..i] == steps[..i];
      var score := ScoreStep(query, steps[i], steps, average, log);
      scores := scores[steps[i].id := score];
      i := i + 1;
    }
    assert steps[..i] == steps;
  }

  /* ---- What a score says ---- */

  lemma {:induction false} DocFreqBounds(steps: seq<Step>, term: string)
    ensures DocFreq(steps, term) <= |steps|
  {
    if steps != [] {
      DocFreqBounds(steps[..|steps| - 1], term);
    }
  }

  lemma {:induction false} CountMeans(doc: seq<string>, term: string)
    ensures Count(doc, term) > 0 <==> term in doc
  {
    if doc != [] {
      CountMeans(doc[..|doc| - 1], term);
      assert doc == doc[..|doc| - 1] + [doc[|doc| - 1]];
    }
  }

  lemma TermAdds(tf: nat, n: nat, df: nat, length: nat, average: real, log: real -> real)
    requires IsLog(log) && average > 0.0 && df <= n && tf > 0
    ensures Idf(n, df, log) * Weight(tf, length, average) > 0.0
  {
    Quotient((n - df) as real + 0.5, df as real + 0.5);
    DenominatorIsPositive(tf, length, average);
    Quotient(tf as real * (K1 + 1.0), Denominator(tf, length, average));
  }

  // A score is never negative, and positive exactly when the movement holds a term of the query.
  lemma {:induction false} ScoreMeans(query: seq<string>, step: Step, steps: seq<Step>, average: real, log: real -> real)
    requires IsLog(log) && average > 0.0
    ensures Score(query, step, steps, average, log) >= 0.0
    ensures Score(query, step, steps, average, log) > 0.0 <==> exists term :: term in query && term in step.tokens
  {
    if query != [] {
      var front, term := query[..|query| - 1], query[|query| - 1];
      ScoreMeans(front, step, steps, average, log);
      CountMeans(step.tokens, term);
      DocFreqBounds(steps, term);
      if Count(step.tokens, term) > 0 {
        TermAdds(Count(step.tokens, term), |steps|, DocFreq(steps, term), |step.tokens|, average, log);
      }
      TermsOf(query, step);
    }
  }

  lemma TermsOf(query: seq<string>, step: Step)
    requires query != []
    ensures (exists term :: term in query && term in step.tokens) <==>
      query[|query| - 1] in step.tokens || exists term :: term in query[..|query| - 1] && term in step.tokens
  {
    assert query == query[..|query| - 1] + [query[|query| - 1]];
  }

  /* ---- What a term weighs ---- */

  ghost predicate IsIncreasing(log: real -> real) {
    forall x: real, y: real :: 0.0 < x < y ==> log(x) < log(y)
  }

  // The rarity of a term is the logarithm of one plus the number of movements, over half more than
  // the number of those that hold it; so a rarer term weighs more.
  lemma IdfIs(n: nat, df: nat, log: real -> real)
    requires df <= n
    ensures Idf(n, df, log) == log((n as real + 1.0) / (df as real + 0.5))
  {
    OneMore((n - df) as real + 0.5, df as real + 0.5);
  }

  lemma OneMore(a: real, b: real)
    requires b > 0.0
    ensures 1.0 + a / b == (a + b) / b
  {
    var x := a / b;
    var y := (a + b) / b;
    assert a == x * b && a + b == y * b;
    var gap := y - (x + 1.0);
    assert gap * b == 0.0;
    assert (gap > 0.0 ==> gap * b > 0.0) && (gap < 0.0 ==> gap * b < 0.0);
  }

  lemma RarerWeighsMore(n: nat, rare: nat, common: nat, log: real -> real)
    requires IsIncreasing(log) && rare < common <= n
    ensures Idf(n, rare, log) > Idf(n, common, log)
  {
    IdfIs(n, rare, log);
    IdfIs(n, common, log);
    LargerQuotient(n as real + 1.0, rare as real + 0.5, common as real + 0.5);
  }

  lemma LargerQuotient(a: real, b: real, c: real)
    requires a > 0.0 && 0.0 < b < c
    ensures 0.0 < a / c < a / b
  {
    var x, y := a / c, a / b;
    Quotient(a, c);
    assert a == x * c && a == y * b;
    assert (y - x) * b == x * (c - b);
    PositiveProduct(x, c - b);
    PositiveFactor(y - x, b);
  }

  lemma PositiveProduct(a: real, b: real)
    requires a > 0.0 && b > 0.0
    ensures a * b > 0.0
  {
  }

  lemma PositiveFactor(a: real, b: real)
    requires b > 0.0 && a * b > 0.0
    ensures a > 0.0
  {
  }

  // One occurrence in a movement of average length weighs one; more occurrences weigh more, though
  // never two and a half, and in a longer movement an occurrence weighs less.
  lemma WeightIs(tf: nat, length: nat, average: real)
    requires average > 0.0 && tf > 0
    ensures Weight(tf, length, average) * (8.0 * tf as real + 3.0 + 9.0 * (length as real / average)) == 20.0 * tf as real
    ensures 0.0 < Weight(tf, length, average) < 2.5
    ensures tf == 1 && length as real == average ==> Weight(tf, length, average) == 1.0
  {
    var t, r := tf as real, length as real / average;
    DenominatorIsPositive(tf, length, average);
    Quotient(length as real, average);
    var w, d := Weight(tf, length, average), Denominator(tf, length, average);
    assert d == t + 0.375 + 1.125 * r;
    assert w * d == t * 2.5;
    Quotient(t * 2.5, d);
    assert (2.5 - w) * d == 2.5 * d - t * 2.5;
    PositiveFactor(2.5 - w, d);
  }

  lemma LongerWeighsLess(tf: nat, short: nat, long: nat, average: real)
    requires average > 0.0 && tf > 0 && short < long
    ensures Weight(tf, long, average) < Weight(tf, short, average)
  {
    DenominatorIsPositive(tf, short, average);
    Ordered(short as real, long as real, average);
    Ordered(long as real, short as real, average);
    assert Denominator(tf, short, average) < Denominator(tf, long, average);
    LargerQuotient(tf as real * (K1 + 1.0), Denominator(tf, short, average), Denominator(tf, long, average));
  }

  lemma MoreWeighsMore(few: nat, many: nat, length: nat, average: real)
    requires average > 0.0 && 0 < few < many
    ensures Weight(few, length, average) < Weight(many, length, average)
  {
    Quotient(length as real, average);
    var c := K1 * (1.0 - B + B * (length as real / average));
    assert c > 0.0;
    MoreOfMore(few as real, many as real, c);
  }

  lemma MoreOfMore(a: real, b: real, c: real)
    requires 0.0 < a < b && c > 0.0
    ensures (a * (K1 + 1.0)) / (a + c) < (b * (K1 + 1.0)) / (b + c)
  {
    var x, y := (a * 2.5) / (a + c), (b * 2.5) / (b + c);
    assert x * (a + c) == a * 2.5 && y * (b + c) == b * 2.5;
    assert (y - x) * ((a + c) * (b + c)) == y * (b + c) * (a + c) - x * (a + c) * (b + c);
    assert b * 2.5 * (a + c) - a * 2.5 * (b + c) == 2.5 * c * (b - a);
    PositiveFactor(y - x, (a + c) * (b + c));
  }

  // The counts are numbers of places, and the average is the total over the number of movements.
  lemma {:induction false} CountIs(doc: seq<string>, term: string)
    ensures Count(doc, term) == |PlacesOf(doc, term)|
  {
    if doc != [] {
      CountIs(doc[..|doc| - 1], term);
      LastPlace(doc, term);
    }
  }

  function PlacesOf(doc: seq<string>, term: string): set<nat> {
    set i | 0 <= i < |doc| && doc[i] == term
  }

  lemma LastPlace(doc: seq<string>, term: string)
    requires doc != []
    ensures var n := |doc| - 1;
      PlacesOf(doc, term) == PlacesOf(doc[..n], term) + if doc[n] == term then {n as nat} else {}
  {
  }

  lemma {:induction false} DocFreqIs(steps: seq<Step>, term: string)
    ensures DocFreq(steps, term) == |Holding(steps, term)|
  {
    if steps != [] {
      var n := |steps| - 1;
      DocFreqIs(steps[..n], term);
      assert Holding(steps, term) == Holding(steps[..n], term) + if term in steps[n].tokens then {n} else {};
    }
  }

  function Holding(steps: seq<Step>, term: string): set<nat> {
    set i | 0 <= i < |steps| && term in steps[i].tokens
  }

  lemma {:induction false} TotalIs(steps: seq<Step>)
    ensures TotalLength(steps) == |Places(steps)|
  {
    if steps != [] {
      var n := |steps| - 1;
      TotalIs(steps[..n]);
      LastPlaces(n, |steps[n].tokens|);
      assert Places(steps) == Places(steps[..n]) + set j | 0 <= j < |steps[n].tokens| :: (n, j);
    }
  }

  function Places(steps: seq<Step>): set<(nat, nat)> {
    set i: nat, j: nat | i < |steps| && j < |steps[i].tokens| :: (i, j)
  }

  lemma {:induction false} LastPlaces(n: nat, length: nat)
    ensures |set j: nat | j < length :: (n, j)| == length
  {
    if length > 0 {
      LastPlaces(n, length - 1);
      assert (set j: nat | j < length :: (n, j)) == (set j: nat | j < length - 1 :: (n, j)) + {(n, length - 1)};
    }
  }

  lemma AverageIs(steps: seq<Step>)
    requires steps != []
    ensures if |Places(steps)| == 0 then AverageLength(steps) == 1.0 else IsAverage(|Places(steps)|, |steps|, AverageLength(steps))
  {
    TotalIs(steps);
    if TotalLength(steps) != 0 {
      AverageOf(TotalLength(steps), |steps|, AverageLength(steps));
    }
  }

  predicate IsAverage(total: nat, count: nat, average: real) {
    average * count as real == total as real
  }

  lemma AverageOf(total: nat, count: nat, average: real)
    requires count > 0 && average == total as real / count as real
    ensures IsAverage(total, count, average)
  {
    Whole(total as real, count as real);
  }

  lemma Whole(a: real, b: real)
    requires b > 0.0
    ensures (a / b) * b == a
    ensures a == b ==> a / b == 1.0
  {
  }

  // A score is the sum over the terms of the query, each as often as it is asked for.
  lemma {:induction false} ScoreAdds(query: seq<string>, more: seq<string>, step: Step, steps: seq<Step>, average: real, log: real -> real)
    requires average > 0.0
    ensures Score(query + more, step, steps, average, log) == Score(query, step, steps, average, log) + Score(more, step, steps, average, log)
  {
    if more == [] {
      assert query + more == query;
    } else {
      ScoreAdds(query, more[..|more| - 1], step, steps, average, log);
      assert (query + more)[..|query + more| - 1] == query + more[..|more| - 1];
    }
  }

  // And of one term it is its rarity among the movements times the weight of its frequency here.
  lemma ScoreOfTerm(term: string, step: Step, steps: seq<Step>, average: real, log: real -> real)
    requires average > 0.0
    ensures var tf := |PlacesOf(step.tokens, term)|;
      Score([term], step, steps, average, log) ==
        if tf == 0 then 0.0 else Idf(|steps|, |Holding(steps, term)|, log) * Weight(tf, |step.tokens|, average)
  {
    CountIs(step.tokens, term);
    DocFreqIs(steps, term);
    assert [term][..0] == [] && Score([], step, steps, average, log) == 0.0;
  }

  // Every movement has its score against all of them.
  lemma {:induction false} ScoresAre(query: seq<string>, part: seq<Step>, steps: seq<Step>, log: real -> real, i: nat)
    requires steps != [] && i < |part| && forall j, k :: 0 <= j < k < |part| ==> part[j].id != part[k].id
    ensures part[i].id in Scores(query, part, steps, log) && AverageLength(steps) > 0.0
    ensures Scores(query, part, steps, log)[part[i].id] == Score(query, part[i], steps, AverageLength(steps), log)
  {
    AverageIsPositive(steps);
    if i < |part| - 1 {
      ScoresAre(query, part[..|part| - 1], steps, log, i);
    }
  }

  /* ---- _normalize ---- */

  predicate IsMaximum(values: map<int, real>, maximum: real) {
    (exists k :: k in values && values[k] == maximum) && forall k :: k in values ==> values[k] <= maximum
  }

  function Normalized(values: map<int, real>, maximum: real): map<int, real> {
    map k | k in values :: if maximum <= 0.0 then 0.0 else values[k] / maximum
  }

  // Of values that are not negative the result lies between 0 and 1, keeps their order and loses no
  // positive one.
  lemma NormalizedMeans(values: map<int, real>, maximum: real, a: int, b: int)
    requires IsMaximum(values, maximum) && (forall k :: k in values ==> values[k] >= 0.0) && a in values && b in values
    ensures var n := Normalized(values, maximum);
      && 0.0 <= n[a] <= 1.0 && (n[a] > 0.0 <==> values[a] > 0.0)
      && (values[a] <= values[b] <==> n[a] <= n[b])
  {
    if maximum > 0.0 {
      Quotient(values[a], maximum);
      Quotient(values[b], maximum);
      Ordered(values[a], values[b], maximum);
    }
  }

  // It is the share of the largest, which gets 1.
  lemma SharesOfMaximum(values: map<int, real>, maximum: real, a: int)
    requires IsMaximum(values, maximum) && maximum > 0.0 && a in values
    ensures var n := Normalized(values, maximum);
      n.Keys == values.Keys && n[a] * maximum == values[a] && (values[a] == maximum ==> n[a] == 1.0)
  {
    Whole(values[a], maximum);
  }

  lemma Ordered(a: real, b: real, c: real)
    requires c > 0.0
    ensures a <= b <==> a / c <= b / c
  {
    var x, y := a / c, b / c;
    assert a == x * c && b == y * c;
    if x <= y {
      assert (y - x) * c >= 0.0;
    } else {
      assert (x - y) * c > 0.0;
    }
  }
}
