/** Which movements are shown to the model: rank_steps and rerank_steps (app/retrieval.py) and
    select_context_steps (app/reranking.py).

    Vector and reranker scores are arbitrary numbers; a failing scorer is not modelled. */
module Retrieval {
  import opened Wrappers
  import opened Sorting
  import opened Selection
  import opened Bm25

  const SHORT_PROCESS_ALL_STEPS_MAX := 40
  const LEXICAL_WEIGHT := 0.5
  const VECTOR_WEIGHT := 0.5
  const RECENCY_BOOST_MAX := 0.3
  const MANDATORY_RECENT_STEPS := 5
  const RERANK_CANDIDATE_LIMIT := 50
  const RERANK_OUTPUT_LIMIT := 15
  const LEGACY_OUTPUT_LIMIT := 20

  datatype Ranked = Ranked(step: Step, lexical: real, vector: real, score: real, forced: bool)

  function StepId(s: Step): int { s.id }
  function StepNumber(s: Step): int { s.number }
  function RankedId(r: Ranked): int { r.step.id }

  function ByNumber(): Order<Step> {
    Order((s: Step) => s.number as real, (s: Step) => 0.0)
  }

  function RankedByNumber(): Order<Ranked> {
    Order((r: Ranked) => r.step.number as real, (r: Ranked) => 0.0)
  }

  // sorted(..., key=score, reverse=True) keeps the order of equal scores.
  function ByScore(): Order<Ranked> {
    Order((r: Ranked) => -r.score, (r: Ranked) => 0.0)
  }

  function ByRerankScore(scores: map<int, real>): Order<Step> {
    Order((s: Step) => if s.id in scores then -scores[s.id] else 0.0, (s: Step) => s.number as real)
  }

  // What the database guarantees of the movements of a version.
  ghost predicate IsProcess(steps: seq<Step>) {
    Distinct(steps, StepId) && Distinct(steps, StepNumber)
  }

  /* ---- Mandatory movements ---- */

  // The numbers that come after n.
  function Later(steps: seq<Step>, n: int): set<int> {
    set s | s in steps && s.number > n :: s.number
  }

  // A milestone, the first movement or one of the last five.
  ghost predicate IsMandatory(s: Step, steps: seq<Step>) {
    || s.milestone
    || (forall t :: t in steps ==> s.number <= t.number)
    || |Later(steps, s.number)| < 5
  }

  // As both functions collect them, from the movements sorted by number.
  function MandatoryIds(line: seq<Step>): set<int>
    requires line != []
  {
    {line[0].id, line[|line| - 1].id}
    + Ids(line[if |line| <= MANDATORY_RECENT_STEPS then 0 else |line| - MANDATORY_RECENT_STEPS..], StepId)
    + set s | s in line && s.milestone :: s.id
  }

  lemma StrictlyByNumber(steps: seq<Step>)
    requires IsProcess(steps)
    ensures var line := Sort(ByNumber(), steps);
      |line| == |steps| && IsProcess(line) && forall i, j :: 0 <= i < j < |line| ==> line[i].number < line[j].number
    ensures forall s :: s in Sort(ByNumber(), steps) <==> s in steps
  {
    SortSorts(ByNumber(), steps);
    SortKeepsIds(ByNumber(), steps, StepId);
    SortKeepsIds(ByNumber(), steps, StepNumber);
    var line := Sort(ByNumber(), steps);
    forall i, j | 0 <= i < j < |line| ensures line[i].number < line[j].number {
      assert !ByNumber().Less(line[j], line[i]);
      assert StepNumber(line[i]) != StepNumber(line[j]);
    }
    forall s ensures s in line <==> s in steps {
      SortMember(ByNumber(), steps, s);
    }
  }

  // After position i of the sorted movements come exactly the others up to the end.
  lemma LaterCount(line: seq<Step>, i: nat)
    requires i < |line| && forall i, j :: 0 <= i < j < |line| ==> line[i].number < line[j].number
    ensures Later(line, line[i].number) == Ids(line[i + 1..], StepNumber) && |Later(line, line[i].number)| == |line| - 1 - i
  {
    var tail := line[i + 1..];
    forall n | n in Later(line, line[i].number) ensures n in Ids(tail, StepNumber) {
      var s :| s in line && s.number > line[i].number && s.number == n;
      var k :| 0 <= k < |line| && line[k] == s;
      IdIn(tail, StepNumber, k - i - 1);
      assert StepNumber(tail[k - i - 1]) == n;
    }
    forall n | n in Ids(tail, StepNumber) ensures n in Later(line, line[i].number) {
      var k := IdAt(tail, StepNumber, n);
      assert line[i + 1 + k].number == n;
    }
    DistinctCount(tail, StepNumber);
  }

  lemma SameLater(a: seq<Step>, b: seq<Step>, n: int)
    requires forall s :: s in a <==> s in b
    ensures Later(a, n) == Later(b, n)
  {
  }

  // The collected identifiers are those of the mandatory movements.
  lemma MandatoryMeans(steps: seq<Step>)
    requires IsProcess(steps) && steps != []
    ensures var line := Sort(ByNumber(), steps);
      line != [] && MandatoryIds(line) <= Ids(steps, StepId)
      && forall s :: s in steps ==> (s.id in MandatoryIds(line) <==> IsMandatory(s, steps))
  {
    var line := Sort(ByNumber(), steps);
    StrictlyByNumber(steps);
    forall s | s in steps ensures s.id in MandatoryIds(line) <==> IsMandatory(s, steps) {
      var i :| 0 <= i < |line| && line[i] == s;
      OneIsMandatory(steps, line, i);
    }
    MandatoryAreSteps(steps, line);
  }

  lemma OneIsMandatory(steps: seq<Step>, line: seq<Step>, i: nat)
    requires IsProcess(line) && i < |line| && (forall s :: s in line <==> s in steps)
    requires forall i, j :: 0 <= i < j < |line| ==> line[i].number < line[j].number
    ensures line[i].id in MandatoryIds(line) <==> IsMandatory(line[i], steps)
  {
    SameLater(steps, line, line[i].number);
    LaterCount(line, i);
    MandatoryAt(line, i);
    FirstIsLeast(steps, line, i);
  }

  ghost function MandatorySteps(steps: seq<Step>): set<Step> {
    set s | s in steps && IsMandatory(s, steps)
  }

  lemma MandatoryCount(steps: seq<Step>)
    requires IsProcess(steps) && steps != []
    ensures |Mandatory(steps)| == |MandatorySteps(steps)|
  {
    var m := MandatorySteps(steps);
    forall s, t | s in m && t in m && s.id == t.id ensures s == t {
      SameItem(steps, StepId, s, t);
    }
    CountByIds(m);
    MandatoryByIds(steps);
  }

  lemma MandatoryByIds(steps: seq<Step>)
    requires IsProcess(steps) && steps != []
    ensures Mandatory(steps) == set s | s in MandatorySteps(steps) :: s.id
  {
    MandatoryMeans(steps);
    forall n | n in Mandatory(steps) ensures n in (set s | s in MandatorySteps(steps) :: s.id) {
      var k := IdAt(steps, StepId, n);
      assert steps[k] in MandatorySteps(steps);
    }
  }

  lemma {:induction false} CountByIds(m: set<Step>)
    requires forall s, t :: s in m && t in m && s.id == t.id ==> s == t
    ensures |set s | s in m :: s.id| == |m|
  {
    if m != {} {
      var x :| x in m;
      CountByIds(m - {x});
      assert (set s | s in m :: s.id) == (set s | s in m - {x} :: s.id) + {x.id};
    }
  }

  lemma FirstIsLeast(steps: seq<Step>, line: seq<Step>, i: nat)
    requires i < |line| && (forall s :: s in line <==> s in steps)
    requires forall i, j :: 0 <= i < j < |line| ==> line[i].number < line[j].number
    ensures (forall t :: t in steps ==> line[i].number <= t.number) <==> i == 0
  {
    assert line[0] in steps;
    forall t | t in steps ensures line[0].number <= t.number {
      var k :| 0 <= k < |line| && line[k] == t;
    }
  }

  lemma MandatoryAreSteps(steps: seq<Step>, line: seq<Step>)
    requires line != [] && forall s :: s in line <==> s in steps
    ensures MandatoryIds(line) <= Ids(steps, StepId)
  {
    forall id | id in MandatoryIds(line) ensures id in Ids(steps, StepId) {
      assert exists s :: s in line && s.id == id;
      var s :| s in line && s.id == id;
      var k :| 0 <= k < |steps| && steps[k] == s;
      IdIn(steps, StepId, k);
      assert StepId(s) == id;
    }
  }

  lemma MandatoryAt(line: seq<Step>, i: nat)
    requires IsProcess(line) && i < |line|
    ensures line[i].id in MandatoryIds(line) <==> i == 0 || |line| - 1 - i < MANDATORY_RECENT_STEPS || line[i].milestone
  {
    var from := if |line| <= MANDATORY_RECENT_STEPS then 0 else |line| - MANDATORY_RECENT_STEPS;
    var recent := line[from..];
    if i >= from {
      IdIn(recent, StepId, i - from);
      assert StepId(recent[i - from]) == line[i].id;
    } else {
      forall s | s in recent ensures StepId(s) != line[i].id {
        var k :| 0 <= k < |recent| && recent[k] == s;
        assert line[from + k] == s && StepId(line[from + k]) != StepId(line[i]);
      }
    }
    assert line[i].id in Ids(recent, StepId) <==> i >= from;
    assert line[i].id in (set s | s in line && s.milestone :: s.id) <==> line[i].milestone by {
      if line[i].id in (set s | s in line && s.milestone :: s.id) {
        var s :| s in line && s.milestone && s.id == line[i].id;
        SameItem(line, StepId, s, line[i]);
      }
    }
    assert StepId(line[0]) == line[0].id && StepId(line[|line| - 1]) == line[|line| - 1].id;
  }

  /* ---- The candidate window ---- */

  // In a window that keeps the mandatory movements exactly they are mandatory again.
  lemma WindowKeepsMandatory(steps: seq<Step>, window: seq<Step>)
    requires IsProcess(steps) && forall s :: s in window ==> s in steps
    requires forall s :: s in steps && IsMandatory(s, steps) ==> s in window
    ensures forall s :: s in window ==> (IsMandatory(s, window) <==> IsMandatory(s, steps))
  {
    forall s | s in window ensures IsMandatory(s, window) <==> IsMandatory(s, steps) {
      FirstOfWindow(steps, window, s);
      RecentOfWindow(steps, window, s);
    }
  }

  lemma RecentOfWindow(steps: seq<Step>, window: seq<Step>, s: Step)
    requires IsProcess(steps) && (forall t :: t in window ==> t in steps) && s in window
    requires forall t :: t in steps && IsMandatory(t, steps) ==> t in window
    ensures |Later(window, s.number)| < MANDATORY_RECENT_STEPS <==> |Later(steps, s.number)| < MANDATORY_RECENT_STEPS
  {
    Subset(Later(window, s.number), Later(steps, s.number));
    if |Later(steps, s.number)| >= MANDATORY_RECENT_STEPS {
      RecentAreLater(steps, window, s);
    }
  }

  lemma FirstOfWindow(steps: seq<Step>, window: seq<Step>, s: Step)
    requires IsProcess(steps) && (forall t :: t in window ==> t in steps) && s in window
    requires forall t :: t in steps && IsMandatory(t, steps) ==> t in window
    ensures (forall t :: t in window ==> s.number <= t.number) <==> forall t :: t in steps ==> s.number <= t.number
  {
    var line := Sort(ByNumber(), steps);
    StrictlyByNumber(steps);
    assert line[0] in steps;
    forall t | t in steps ensures line[0].number <= t.number {
      var k :| 0 <= k < |line| && line[k] == t;
    }
    assert IsMandatory(line[0], steps);
  }

  lemma RecentIsMandatory(steps: seq<Step>, line: seq<Step>, at: nat)
    requires at < |line| && (forall s :: s in line <==> s in steps) && |line| - MANDATORY_RECENT_STEPS <= at
    requires forall i, j :: 0 <= i < j < |line| ==> line[i].number < line[j].number
    ensures IsMandatory(line[at], steps)
  {
    SameLater(steps, line, line[at].number);
    LaterCount(line, at);
  }

  // One of the last five, when it comes after s, is in the window too.
  lemma RecentIsLater(steps: seq<Step>, window: seq<Step>, line: seq<Step>, i: nat, at: nat)
    requires i < at < |line| && (forall s :: s in line <==> s in steps) && |line| - MANDATORY_RECENT_STEPS <= at
    requires forall j, k :: 0 <= j < k < |line| ==> line[j].number < line[k].number
    requires forall t :: t in steps && IsMandatory(t, steps) ==> t in window
    ensures line[at].number in Later(window, line[i].number)
  {
    RecentIsMandatory(steps, line, at);
  }

  // With five later movements in the process, the last five are later and in the window.
  lemma RecentAreLater(steps: seq<Step>, window: seq<Step>, s: Step)
    requires IsProcess(steps) && (forall t :: t in window ==> t in steps) && s in window
    requires forall t :: t in steps && IsMandatory(t, steps) ==> t in window
    requires |Later(steps, s.number)| >= MANDATORY_RECENT_STEPS
    ensures |Later(window, s.number)| >= MANDATORY_RECENT_STEPS
  {
    var line := Sort(ByNumber(), steps);
    StrictlyByNumber(steps);
    assert s in line;
    var i :| 0 <= i < |line| && line[i] == s;
    SameLater(steps, line, s.number);
    LaterCount(line, i);
    var from := |line| - MANDATORY_RECENT_STEPS;
    forall n | n in Ids(line[from..], StepNumber) ensures n in Later(window, s.number) {
      var k :| 0 <= k < |line[from..]| && line[from..][k].number == n;
      RecentIsLater(steps, window, line, i, from + k);
    }
    DistinctCount(line[from..], StepNumber);
    Subset(Ids(line[from..], StepNumber), Later(window, s.number));
  }

  /* ---- _normalize and rank_steps ---- */

  ghost predicate IsNormalized(values: map<int, real>, n: map<int, real>) {
    if values == map[] then n == map[] else exists maximum :: IsMaximum(values, maximum) && n == Normalized(values, maximum)
  }

  // Every value becomes its share of the largest, or zero if none is positive.
  lemma NormalizedIs(values: map<int, real>, n: map<int, real>, k: int)
    requires IsNormalized(values, n) && k in values
    ensures n.Keys == values.Keys
    ensures exists top :: IsTop(values, top) && if values[top] > 0.0 then IsShare(values, n, values[top]) && n[top] == 1.0 else n[k] == 0.0
  {
    var maximum :| IsMaximum(values, maximum) && n == Normalized(values, maximum);
    var top :| top in values && values[top] == maximum;
    assert IsTop(values, top);
    if maximum > 0.0 {
      SharesAre(values, top);
    }
  }

  ghost predicate IsTop(values: map<int, real>, top: int) {
    top in values && forall k :: k in values ==> values[k] <= values[top]
  }

  lemma SharesAre(values: map<int, real>, top: int)
    requires IsTop(values, top) && values[top] > 0.0
    ensures var n := Normalized(values, values[top]); n.Keys == values.Keys && IsShare(values, n, values[top]) && n[top] == 1.0
  {
    SharesOfMaximum(values, values[top], top);
    forall k | k in values ensures Normalized(values, values[top])[k] * values[top] == values[k] {
      SharesOfMaximum(values, values[top], k);
    }
  }

  ghost predicate IsShare(values: map<int, real>, n: map<int, real>, whole: real)
    requires n.Keys == values.Keys
  {
    forall k :: k in values ==> n[k] * whole == values[k]
  }

  method Normalize(values: map<int, real>) returns (n: map<int, real>)
    ensures IsNormalized(values, n)
  {
    if values == map[] {
      return map[];
    }
    var rest := values.Items;
    var first :| first in rest;
    var maximum := first.1;
    ghost var at := first.0;
    rest := rest - {first};
    while rest != {}
      invariant rest <= values.Items
      invariant at in values && values[at] == maximum
      invariant forall item :: item in values.Items && item !in rest ==> item.1 <= maximum
      decreases |rest|
    {
      var item :| item in rest;
      if item.1 > maximum {
        maximum, at := item.1, item.0;
      }
      rest := rest - {item};
    }
    forall k | k in values ensures values[k] <= maximum {
      assert (k, values[k]) in values.Items;
    }
    n := Normalized(values, maximum);
  }

  function MaxNumber(steps: seq<Step>): int
    requires steps != []
  {
    if |steps| == 1 then steps[0].number
    else
      var before := MaxNumber(steps[..|steps| - 1]);
      var last := steps[|steps| - 1].number;
      if last > before then last else before
  }

  ghost predicate IsLargest(steps: seq<Step>, n: int) {
    (exists s :: s in steps && s.number == n) && forall s :: s in steps ==> s.number <= n
  }

  lemma {:induction false} MaxNumberMeans(steps: seq<Step>)
    requires steps != []
    ensures IsLargest(steps, MaxNumber(steps))
  {
    if |steps| > 1 {
      var front, last := steps[..|steps| - 1], steps[|steps| - 1];
      MaxNumberMeans(front);
      assert steps == front + [last];
      assert last in steps;
    } else {
      assert steps[0] in steps;
    }
  }

  function MaxStep(steps: seq<Step>): int
    requires steps != []
  {
    if MaxNumber(steps) == 0 then 1 else MaxNumber(steps)
  }

  function RankOne(step: Step, lexical: map<int, real>, vector: map<int, real>, maxStep: int): Ranked
    requires maxStep != 0
  {
    var l := if step.id in lexical then lexical[step.id] else 0.0;
    var v := if step.id in vector then vector[step.id] else 0.0;
    var recency := 1.0 + RECENCY_BOOST_MAX * (step.number as real / maxStep as real);
    Ranked(step, l, v, (LEXICAL_WEIGHT * l + VECTOR_WEIGHT * v) * recency, step.milestone)
  }

  // With normalised scores and numbers up to the last one, a score lies between 0 and 1.3.
  lemma ScoreIsBounded(step: Step, lexical: map<int, real>, vector: map<int, real>, maxStep: int)
    requires (forall k :: k in lexical ==> 0.0 <= lexical[k] <= 1.0) && forall k :: k in vector ==> 0.0 <= vector[k] <= 1.0
    requires 0 <= step.number <= maxStep && maxStep > 0
    ensures 0.0 <= RankOne(step, lexical, vector, maxStep).score <= 1.0 + RECENCY_BOOST_MAX
    ensures step.id in lexical && lexical[step.id] > 0.0 ==> RankOne(step, lexical, vector, maxStep).score > 0.0
  {
    var share := step.number as real / maxStep as real;
    Quotient(step.number as real, maxStep as real);
    var r := RankOne(step, lexical, vector, maxStep);
    var base, recency := LEXICAL_WEIGHT * r.lexical + VECTOR_WEIGHT * r.vector, 1.0 + RECENCY_BOOST_MAX * share;
    assert 0.0 <= base <= 1.0 && 1.0 <= recency <= 1.0 + RECENCY_BOOST_MAX;
    assert step.id in lexical && lexical[step.id] > 0.0 ==> base > 0.0;
    Product(base, recency, 1.0 + RECENCY_BOOST_MAX);
    assert r.score == base * recency;
  }

  // The lexical score, the vector score or what the reranker says of a movement; zero if nothing.
  function Given(scores: map<int, real>, s: Step): real {
    if s.id in scores then scores[s.id] else 0.0
  }

  // Half of each score, raised in proportion to the number, by three tenths for the last one.
  lemma ScoreIs(step: Step, lexical: map<int, real>, vector: map<int, real>, maxStep: int)
    requires maxStep != 0
    ensures var r := RankOne(step, lexical, vector, maxStep);
      && r.step == step && r.lexical == Given(lexical, step) && r.vector == Given(vector, step) && r.forced == step.milestone
      && r.score == (r.lexical + r.vector) * (0.5 + 0.15 * (step.number as real / maxStep as real))
      && (step.number == maxStep ==> r.score == (r.lexical + r.vector) * 0.65)
  {
    var l, v, share := Given(lexical, step), Given(vector, step), step.number as real / maxStep as real;
    assert (0.5 * l + 0.5 * v) * (1.0 + 0.3 * share) == (l + v) * (0.5 + 0.15 * share);
  }

  lemma Product(a: real, b: real, y: real)
    requires 0.0 <= a <= 1.0 && 0.0 < b <= y
    ensures 0.0 <= a * b <= y
    ensures a > 0.0 ==> a * b > 0.0
  {
    Smaller(a, b);
  }

  lemma Smaller(a: real, b: real)
    requires 0.0 <= a <= 1.0 && 0.0 < b
    ensures 0.0 <= a * b <= b
  {
  }

  function RankAll(steps: seq<Step>, lexical: map<int, real>, vector: map<int, real>, maxStep: int): seq<Ranked>
    requires maxStep != 0
  {
    seq(|steps|, i requires 0 <= i < |steps| => RankOne(steps[i], lexical, vector, maxStep))
  }

  function AllForced(steps: seq<Step>): seq<Ranked> {
    seq(|steps|, i requires 0 <= i < |steps| => Ranked(steps[i], 0.0, 0.0, 1.0, true))
  }

  function Mandatory(steps: seq<Step>): set<int>
    requires steps != []
  {
    SortSorts(ByNumber(), steps);
    MandatoryIds(Sort(ByNumber(), steps))
  }

  // The ranking of a long process: the selection by the hybrid score, shown in the order of the
  // movements.
  ghost predicate IsRanking(query: seq<string>, steps: seq<Step>, vectorScores: map<int, real>, limit: nat, log: real -> real,
                            ranked: seq<Ranked>)
    requires steps != []
  {
    exists lexical, vector ::
      IsNormalized(Scores(query, steps, steps, log), lexical) && IsNormalized(vectorScores, vector)
      && IsSelection(RankAll(steps, lexical, vector, MaxStep(steps)), Mandatory(steps), RankedId, ByScore(), limit, ranked)
      && IsSorted(RankedByNumber(), ranked)
  }

  lemma RankedIds(steps: seq<Step>, lexical: map<int, real>, vector: map<int, real>, maxStep: int)
    requires IsProcess(steps) && maxStep != 0
    ensures var all := RankAll(steps, lexical, vector, maxStep);
      Distinct(all, RankedId) && Ids(all, RankedId) == Ids(steps, StepId)
  {
    var all := RankAll(steps, lexical, vector, maxStep);
    forall i, j | 0 <= i < j < |all| ensures RankedId(all[i]) != RankedId(all[j]) {
      assert StepId(steps[i]) != StepId(steps[j]);
    }
    forall n | n in Ids(steps, StepId) ensures n in Ids(all, RankedId) {
      var k := IdAt(steps, StepId, n);
      IdIn(all, RankedId, k);
      assert RankedId(all[k]) == n;
    }
    forall n | n in Ids(all, RankedId) ensures n in Ids(steps, StepId) {
      var k := IdAt(all, RankedId, n);
      IdIn(steps, StepId, k);
      assert StepId(steps[k]) == n;
    }
  }

  method RankSteps(query: seq<string>, steps: seq<Step>, vectorScores: map<int, real>, limit: nat, log: real -> real)
    returns (ranked: seq<Ranked>)
    requires IsProcess(steps)
    ensures |steps| <= SHORT_PROCESS_ALL_STEPS_MAX ==> ranked == AllForced(Sort(ByNumber(), steps))
    ensures |steps| > SHORT_PROCESS_ALL_STEPS_MAX ==> IsRanking(query, steps, vectorScores, limit, log, ranked)
  {
    if |steps| <= SHORT_PROCESS_ALL_STEPS_MAX {
      return AllForced(Sort(ByNumber(), steps));
    }
    var scores := Bm25Scores(query, steps, log);
    var lexical := Normalize(scores);
    var vector := Normalize(vectorScores);
    var maxStep := MaxStep(steps);
    var all: seq<Ranked>, i := [], 0;
    while i < |steps|
      invariant 0 <= i <= |steps|
      invariant all == RankAll(steps[..i], lexical, vector, maxStep)
    {
      all := all + [RankOne(steps[i], lexical, vector, maxStep)];
      i := i + 1;
    }
    assert steps[..i] == steps;
    RankedIds(steps, lexical, vector, maxStep);
    MandatoryMeans(steps);
    var chosen := FillUp(all, Mandatory(steps), RankedId, ByScore(), limit);
    SortedSelection(all, Mandatory(steps), RankedId, ByScore(), limit, chosen, RankedByNumber());
    ranked := Sort(RankedByNumber(), chosen);
  }

  ghost predicate HasScores(query: seq<string>, steps: seq<Step>, vectorScores: map<int, real>, log: real -> real,
                            lexical: map<int, real>, vector: map<int, real>)
    requires steps != []
  {
    IsNormalized(Scores(query, steps, steps, log), lexical) && IsNormalized(vectorScores, vector)
  }

  // By what the movements are ranked.
  function HybridScores(steps: seq<Step>, lexical: map<int, real>, vector: map<int, real>, newest: int): seq<real>
    requires newest != 0
  {
    seq(|steps|, k requires 0 <= k < |steps| =>
      (Given(lexical, steps[k]) + Given(vector, steps[k])) * (0.5 + 0.15 * (steps[k].number as real / newest as real)))
  }

  ghost predicate IsEntry(s: Step, score: real, lexical: map<int, real>, vector: map<int, real>, r: Ranked) {
    r == Ranked(s, Given(lexical, s), Given(vector, s), score, s.milestone)
  }

  // The movement of each entry with its scores, and nothing left out scores above an entry that is
  // not mandatory, nor as high if it was given before.
  ghost predicate IsBestOf(steps: seq<Step>, lexical: map<int, real>, vector: map<int, real>, scores: seq<real>, ranked: seq<Ranked>)
    requires |scores| == |steps|
  {
    && (forall r :: r in ranked ==> exists i :: 0 <= i < |steps| && IsEntry(steps[i], scores[i], lexical, vector, r))
    && NoneAbove(steps, scores, ranked)
  }

  ghost predicate NoneAbove(steps: seq<Step>, scores: seq<real>, ranked: seq<Ranked>)
    requires |scores| == |steps|
  {
    forall r, k :: r in ranked && !IsMandatory(r.step, steps) && 0 <= k < |steps| && (forall q :: q in ranked ==> q.step != steps[k]) ==>
      scores[k] < r.score || (scores[k] == r.score && exists i :: 0 <= i < k && steps[i] == r.step)
  }

  lemma RankingMeans(query: seq<string>, steps: seq<Step>, vectorScores: map<int, real>, limit: nat, log: real -> real,
                     ranked: seq<Ranked>)
    requires IsProcess(steps) && steps != [] && IsRanking(query, steps, vectorScores, limit, log, ranked)
    ensures exists lexical, vector, newest ::
      && HasScores(query, steps, vectorScores, log, lexical, vector)
      && IsLargest(steps, newest) && IsBestOf(steps, lexical, vector, HybridScores(steps, lexical, vector, if newest == 0 then 1 else newest), ranked)
  {
    var lexical, vector :| HasScores(query, steps, vectorScores, log, lexical, vector)
      && IsSelection(RankAll(steps, lexical, vector, MaxStep(steps)), Mandatory(steps), RankedId, ByScore(), limit, ranked);
    MaxNumberMeans(steps);
    assert IsLargest(steps, MaxNumber(steps));
    AllEntries(steps, lexical, vector, MaxStep(steps));
    BestIs(steps, lexical, vector, HybridScores(steps, lexical, vector, MaxStep(steps)),
           RankAll(steps, lexical, vector, MaxStep(steps)), limit, ranked);
  }

  lemma AllEntries(steps: seq<Step>, lexical: map<int, real>, vector: map<int, real>, newest: int)
    requires newest != 0
    ensures var all, scores := RankAll(steps, lexical, vector, newest), HybridScores(steps, lexical, vector, newest);
      |all| == |steps| && forall k :: 0 <= k < |steps| ==> IsEntry(steps[k], scores[k], lexical, vector, all[k])
  {
    forall k | 0 <= k < |steps|
      ensures IsEntry(steps[k], HybridScores(steps, lexical, vector, newest)[k], lexical, vector, RankAll(steps, lexical, vector, newest)[k])
    {
      ScoreIs(steps[k], lexical, vector, newest);
    }
  }

  lemma BestIs(steps: seq<Step>, lexical: map<int, real>, vector: map<int, real>, scores: seq<real>, all: seq<Ranked>, limit: nat,
               ranked: seq<Ranked>)
    requires IsProcess(steps) && steps != [] && |all| == |steps| == |scores|
    requires forall k :: 0 <= k < |steps| ==> IsEntry(steps[k], scores[k], lexical, vector, all[k])
    requires IsSelection(all, Mandatory(steps), RankedId, ByScore(), limit, ranked)
    ensures IsBestOf(steps, lexical, vector, scores, ranked)
  {
    EntriesAre(steps, lexical, vector, scores, all, ranked);
    NoneBetter(steps, scores, all, limit, ranked);
  }

  lemma NoneBetter(steps: seq<Step>, scores: seq<real>, all: seq<Ranked>, limit: nat, ranked: seq<Ranked>)
    requires IsProcess(steps) && steps != [] && |all| == |steps| == |scores|
    requires forall k :: 0 <= k < |steps| ==> all[k].step == steps[k] && all[k].score == scores[k]
    requires IsSelection(all, Mandatory(steps), RankedId, ByScore(), limit, ranked)
    ensures NoneAbove(steps, scores, ranked)
  {
    forall r, k | r in ranked && !IsMandatory(r.step, steps) && 0 <= k < |steps| && (forall q :: q in ranked ==> q.step != steps[k])
      ensures scores[k] < r.score || (scores[k] == r.score && exists i :: 0 <= i < k && steps[i] == r.step)
    {
      LeftOut(steps, all, limit, ranked, r, k);
    }
  }

  lemma EntriesAre(steps: seq<Step>, lexical: map<int, real>, vector: map<int, real>, scores: seq<real>, all: seq<Ranked>,
                   ranked: seq<Ranked>)
    requires |all| == |steps| == |scores| && forall r :: r in ranked ==> r in all
    requires forall k :: 0 <= k < |steps| ==> IsEntry(steps[k], scores[k], lexical, vector, all[k])
    ensures forall r :: r in ranked ==> exists i :: 0 <= i < |steps| && IsEntry(steps[i], scores[i], lexical, vector, r)
  {
    forall r | r in ranked ensures exists i :: 0 <= i < |steps| && IsEntry(steps[i], scores[i], lexical, vector, r) {
      var i :| 0 <= i < |all| && all[i] == r;
    }
  }

  lemma LeftOut(steps: seq<Step>, all: seq<Ranked>, limit: nat, ranked: seq<Ranked>, r: Ranked, k: nat)
    requires IsProcess(steps) && steps != [] && |all| == |steps| && forall i :: 0 <= i < |all| ==> all[i].step == steps[i]
    requires IsSelection(all, Mandatory(steps), RankedId, ByScore(), limit, ranked)
    requires r in ranked && !IsMandatory(r.step, steps) && k < |steps| && forall q :: q in ranked ==> q.step != steps[k]
    ensures all[k].score < r.score || (all[k].score == r.score && exists i :: 0 <= i < k && steps[i] == r.step)
  {
    assert r in all;
    var i :| 0 <= i < |all| && all[i] == r;
    assert r.step == steps[i];
    FreeChoice(steps, r);
    HigherScore(all, Mandatory(steps), limit, ranked, i, k);
  }

  lemma FreeChoice(steps: seq<Step>, r: Ranked)
    requires IsProcess(steps) && steps != [] && r.step in steps && !IsMandatory(r.step, steps)
    ensures RankedId(r) !in Mandatory(steps)
  {
    MandatoryMeans(steps);
  }

  lemma HigherScore(all: seq<Ranked>, must: set<int>, limit: nat, ranked: seq<Ranked>, i: nat, k: nat)
    requires IsSelection(all, must, RankedId, ByScore(), limit, ranked) && i < |all| && k < |all|
    requires all[i] in ranked && RankedId(all[i]) !in must && all[k] !in ranked
    ensures all[k].score < all[i].score || (all[k].score == all[i].score && i < k)
  {
    assert Precedes(ByScore(), all, i, k);
  }

  /* ---- rerank_steps ---- */

  ghost predicate IsReranking(steps: seq<Step>, scores: map<int, real>, limit: nat, chosen: seq<Step>)
    requires steps != []
  {
    && IsSelection(Sort(ByNumber(), steps), Mandatory(steps), StepId, ByRerankScore(scores), limit, chosen)
    && IsSorted(ByNumber(), chosen)
  }

  method RerankSteps(steps: seq<Step>, scores: map<int, real>, limit: int) returns (r: Result<seq<Step>>)
    requires IsProcess(steps)
    ensures r.Err? <==> limit <= 0
    ensures limit > 0 && steps == [] ==> r == Ok([])
    ensures limit > 0 && steps != [] ==> IsReranking(steps, scores, limit, r.value)
  {
    if limit <= 0 {
      return Err("reranker limit must be positive");
    }
    if steps == [] {
      return Ok([]);
    }
    var line := Sort(ByNumber(), steps);
    StrictlyByNumber(steps);
    SortKeepsIds(ByNumber(), steps, StepId);
    MandatoryMeans(steps);
    var chosen := FillUp(line, Mandatory(steps), StepId, ByRerankScore(scores), limit);
    SortedSelection(line, Mandatory(steps), StepId, ByRerankScore(scores), limit, chosen, ByNumber());
    return Ok(Sort(ByNumber(), chosen));
  }
}
