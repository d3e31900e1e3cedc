/** select_context_steps in app/reranking.py: retrieval and reranking composed. */
module Reranking {
  import opened Wrappers
  import opened Sorting
  import opened Selection
  import opened Bm25
  import opened Retrieval

  function StepsOf(ranked: seq<Ranked>): seq<Step> {
    seq(|ranked|, i requires 0 <= i < |ranked| => ranked[i].step)
  }

  // The steps of a selection among the ranked steps of a process.
  lemma SelectedSteps(steps: seq<Step>, lexical: map<int, real>, vector: map<int, real>, maxStep: int, must: set<int>,
                      limit: nat, ranked: seq<Ranked>)
    requires IsProcess(steps) && maxStep != 0
    requires IsSelection(RankAll(steps, lexical, vector, maxStep), must, RankedId, ByScore(), limit, ranked)
    ensures |ranked| == Min(|steps|, Max(limit, |must|))
    ensures forall s :: s in StepsOf(ranked) ==> s in steps
    ensures forall s :: s in steps && s.id in must ==> s in StepsOf(ranked)
    ensures IsProcess(StepsOf(ranked))
  {
    var all, window := RankAll(steps, lexical, vector, maxStep), StepsOf(ranked);
    forall i | 0 <= i < |ranked| ensures window[i] in steps {
      assert ranked[i] in all;
      var k :| 0 <= k < |all| && all[k] == ranked[i];
      assert window[i] == steps[k];
    }
    forall s | s in steps && s.id in must ensures s in window {
      var k :| 0 <= k < |steps| && steps[k] == s;
      assert all[k] in all && RankedId(all[k]) == s.id;
      var i :| 0 <= i < |ranked| && ranked[i] == all[k];
      assert window[i] == s;
    }
    forall i, j | 0 <= i < j < |window|
      ensures StepId(window[i]) != StepId(window[j]) && StepNumber(window[i]) != StepNumber(window[j])
    {
      assert RankedId(ranked[i]) != RankedId(ranked[j]);
      SameNumberSameStep(steps, window[i], window[j]);
    }
  }

  lemma SameNumberSameStep(steps: seq<Step>, s: Step, t: Step)
    requires IsProcess(steps) && s in steps && t in steps
    ensures s.number == t.number || s.id == t.id ==> s == t
  {
    if s.number == t.number {
      SameItem(steps, StepNumber, s, t);
    } else if s.id == t.id {
      SameItem(steps, StepId, s, t);
    }
  }

  // The mandatory movements of the candidate window are exactly those of the whole process.
  lemma WindowMandatory(steps: seq<Step>, window: seq<Step>)
    requires IsProcess(steps) && IsProcess(window) && steps != []
    requires forall s :: s in window ==> s in steps
    requires forall s :: s in steps && s.id in Mandatory(steps) ==> s in window
    ensures window != [] && Mandatory(window) == Mandatory(steps)
  {
    MandatoryMeans(steps);
    var first := Sort(ByNumber(), steps)[0];
    SortMember(ByNumber(), steps, first);
    assert first.id in Mandatory(steps) && first in window;
    WindowKeepsMandatory(steps, window);
    MandatoryMeans(window);
    forall id | id in Mandatory(steps) ensures id in Mandatory(window) {
      var k := IdAt(steps, StepId, id);
      assert steps[k] in steps && steps[k].id == id && steps[k] in window;
    }
    forall id | id in Mandatory(window) ensures id in Mandatory(steps) {
      var k := IdAt(window, StepId, id);
      assert window[k] in window && window[k].id == id;
    }
  }

  ghost predicate Ascending(ranked: seq<Ranked>) {
    forall i, j :: 0 <= i < j < |ranked| ==> ranked[i].step.number < ranked[j].step.number
  }

  lemma SortedIsAscending(ranked: seq<Ranked>)
    requires IsSorted(RankedByNumber(), ranked) && IsProcess(StepsOf(ranked))
    ensures Ascending(ranked)
  {
    forall i, j | 0 <= i < j < |ranked| ensures ranked[i].step.number < ranked[j].step.number {
      assert !RankedByNumber().Less(ranked[j], ranked[i]);
      assert StepNumber(StepsOf(ranked)[i]) != StepNumber(StepsOf(ranked)[j]);
    }
  }

  // A candidate window that keeps the mandatory movements of the process.
  ghost predicate IsWindow(steps: seq<Step>, window: seq<Step>)
    requires steps != []
  {
    && IsProcess(window) && window != [] && Mandatory(window) == Mandatory(steps)
    && (forall s :: s in window ==> s in steps)
    && forall s :: s in steps && s.id in Mandatory(steps) ==> s in window
  }

  lemma RankingWindow(query: seq<string>, steps: seq<Step>, vectorScores: map<int, real>, limit: nat, log: real -> real, ranked: seq<Ranked>)
    requires IsProcess(steps) && steps != [] && IsRanking(query, steps, vectorScores, limit, log, ranked)
    ensures IsWindow(steps, StepsOf(ranked))
    ensures |ranked| == Min(|steps|, Max(limit, |Mandatory(steps)|)) && Ascending(ranked)
  {
    var lexical, vector :|
      IsNormalized(Scores(query, steps, steps, log), lexical) && IsNormalized(vectorScores, vector)
      && IsSelection(RankAll(steps, lexical, vector, MaxStep(steps)), Mandatory(steps), RankedId, ByScore(), limit, ranked)
      && IsSorted(RankedByNumber(), ranked);
    SelectedSteps(steps, lexical, vector, MaxStep(steps), Mandatory(steps), limit, ranked);
    WindowMandatory(steps, StepsOf(ranked));
    SortedIsAscending(ranked);
  }

  // {candidate.step.id: candidate}
  method ById(candidates: seq<Ranked>) returns (byId: map<int, Ranked>)
    requires IsProcess(StepsOf(candidates))
    ensures forall r :: r in candidates ==> r.step.id in byId && byId[r.step.id] == r
  {
    byId := map[];
    var i := 0;
    while i < |candidates|
      invariant 0 <= i <= |candidates|
      invariant forall k :: 0 <= k < i ==> candidates[k].step.id in byId && byId[candidates[k].step.id] == candidates[k]
    {
      forall k | 0 <= k < i ensures candidates[k].step.id != candidates[i].step.id {
        assert StepId(StepsOf(candidates)[k]) != StepId(StepsOf(candidates)[i]);
      }
      byId := byId[candidates[i].step.id := candidates[i]];
      i := i + 1;
    }
  }

  lemma CandidateOf(candidates: seq<Ranked>, s: Step) returns (r: Ranked)
    requires s in StepsOf(candidates)
    ensures r in candidates && r.step == s
  {
    var k :| 0 <= k < |candidates| && StepsOf(candidates)[k] == s;
    r := candidates[k];
  }

  method Lookup(candidates: seq<Ranked>, chosen: seq<Step>) returns (result: seq<Ranked>)
    requires IsProcess(StepsOf(candidates)) && forall s :: s in chosen ==> s in StepsOf(candidates)
    ensures StepsOf(result) == chosen && forall r :: r in result ==> r in candidates
  {
    var byId := ById(candidates);
    result := [];
    var i := 0;
    while i < |chosen|
      invariant 0 <= i <= |chosen|
      invariant StepsOf(result) == chosen[..i] && forall r :: r in result ==> r in candidates
    {
      ghost var r := CandidateOf(candidates, chosen[i]);
      result := result + [byId[chosen[i].id]];
      i := i + 1;
    }
  }

  // What select_context_steps promises of a long process.
  ghost predicate IsContext(steps: seq<Step>, limit: nat, result: seq<Ranked>)
    requires steps != []
  {
    && Ascending(result)
    && (forall r :: r in result ==> r.step in steps)
    && (forall s :: s in steps && IsMandatory(s, steps) ==> s in StepsOf(result))
    && |result| == Max(limit, |MandatorySteps(steps)|)
  }

  // What the reranker left out of the candidates does not go before anything it chose freely.
  ghost predicate RespectsScores(candidates: seq<Ranked>, scores: map<int, real>, must: set<int>, result: seq<Ranked>) {
    && (forall r :: r in result ==> r in candidates)
    && forall x, y :: x in StepsOf(result) && x.id !in must && y in StepsOf(candidates) && y !in StepsOf(result)
         ==> Given(scores, x) > Given(scores, y) || (Given(scores, x) == Given(scores, y) && x.number < y.number)
  }

  lemma ShortProcess(steps: seq<Step>)
    requires IsProcess(steps)
    ensures var result := AllForced(Sort(ByNumber(), steps));
      && |result| == |steps| && Ascending(result) && (forall s :: s in StepsOf(result) <==> s in steps)
      && forall r :: r in result ==> r.forced && r.score == 1.0 && r.lexical == 0.0 && r.vector == 0.0
  {
    StrictlyByNumber(steps);
    assert StepsOf(AllForced(Sort(ByNumber(), steps))) == Sort(ByNumber(), steps);
  }

  lemma {:induction false} MandatoryFit(steps: seq<Step>)
    requires IsProcess(steps) && steps != []
    ensures |Mandatory(steps)| <= |steps|
  {
    MandatoryMeans(steps);
    DistinctCount(steps, StepId);
    Subset(Mandatory(steps), Ids(steps, StepId));
  }

  lemma MandatoryStay(steps: seq<Step>, chosen: seq<Step>)
    requires IsProcess(steps) && steps != [] && forall s :: s in steps && s.id in Mandatory(steps) ==> s in chosen
    ensures forall s :: s in steps && IsMandatory(s, steps) ==> s in chosen
  {
    MandatoryMeans(steps);
  }

  lemma RankingIsContext(query: seq<string>, steps: seq<Step>, vectorScores: map<int, real>, limit: nat, log: real -> real, ranked: seq<Ranked>)
    requires IsProcess(steps) && steps != [] && IsRanking(query, steps, vectorScores, limit, log, ranked) && limit <= |steps|
    ensures IsContext(steps, limit, ranked)
  {
    RankingWindow(query, steps, vectorScores, limit, log, ranked);
    MandatoryFit(steps);
    MandatoryCount(steps);
    MandatoryStay(steps, StepsOf(ranked));
    forall r | r in ranked ensures r.step in steps {
      var k :| 0 <= k < |ranked| && ranked[k] == r;
      assert StepsOf(ranked)[k] in StepsOf(ranked);
    }
  }

  lemma ChosenAscend(window: seq<Step>, scores: map<int, real>, limit: nat, chosen: seq<Step>, result: seq<Ranked>)
    requires IsProcess(window) && window != [] && IsReranking(window, scores, limit, chosen) && StepsOf(result) == chosen
    ensures Ascending(result)
  {
    ChosenAreCandidates(window, scores, limit, chosen);
    forall i, j | 0 <= i < j < |result| ensures result[i].step.number < result[j].step.number {
      assert chosen[i] == result[i].step && chosen[j] == result[j].step && chosen[i] in chosen && chosen[j] in chosen;
      assert !ByNumber().Less(chosen[j], chosen[i]) && StepId(chosen[i]) != StepId(chosen[j]);
      SameNumberSameStep(window, chosen[i], chosen[j]);
    }
  }

  lemma ChosenMeans(window: seq<Step>, scores: map<int, real>, limit: nat, chosen: seq<Step>)
    requires IsProcess(window) && window != [] && IsReranking(window, scores, limit, chosen)
    ensures |chosen| == Min(|window|, Max(limit, |Mandatory(window)|))
    ensures forall s :: s in window && s.id in Mandatory(window) ==> s in chosen
    ensures forall x, y :: x in chosen && x.id !in Mandatory(window) && y in window && y !in chosen ==>
      Given(scores, x) > Given(scores, y) || (Given(scores, x) == Given(scores, y) && x.number < y.number)
  {
    StrictlyByNumber(window);
    forall s | s in window && s.id in Mandatory(window) ensures s in chosen {
      assert s in Sort(ByNumber(), window) && StepId(s) == s.id;
    }
    forall x, y | x in chosen && x.id !in Mandatory(window) && y in window && y !in chosen
      ensures Given(scores, x) > Given(scores, y) || (Given(scores, x) == Given(scores, y) && x.number < y.number)
    {
      assert y in Sort(ByNumber(), window) && StepId(x) == x.id;
      FreelyChosen(Sort(ByNumber(), window), Mandatory(window), StepId, ByRerankScore(scores), limit, chosen, x, y);
      SortMember(ByNumber(), window, x);
      SameNumberSameStep(window, x, y);
    }
  }

  lemma RerankingIsContext(steps: seq<Step>, window: seq<Step>, scores: map<int, real>, limit: nat, chosen: seq<Step>,
                           result: seq<Ranked>)
    requires IsProcess(steps) && steps != [] && IsWindow(steps, window) && limit <= |window|
    requires IsReranking(window, scores, limit, chosen) && StepsOf(result) == chosen
    ensures IsContext(steps, limit, result)
  {
    MandatoryFit(window);
    MandatoryCount(steps);
    ChosenMeans(window, scores, limit, chosen);
    MandatoryStay(steps, chosen);
    ChosenAscend(window, scores, limit, chosen, result);
    ChosenAreCandidates(window, scores, limit, chosen);
    forall r | r in result ensures r.step in steps {
      var k :| 0 <= k < |result| && result[k] == r;
      assert chosen[k] == r.step && chosen[k] in chosen;
    }
  }

  lemma RerankingRespects(steps: seq<Step>, candidates: seq<Ranked>, scores: map<int, real>, limit: nat, chosen: seq<Step>,
                          result: seq<Ranked>)
    requires steps != [] && IsWindow(steps, StepsOf(candidates))
    requires IsReranking(StepsOf(candidates), scores, limit, chosen)
    requires StepsOf(result) == chosen && forall r :: r in result ==> r in candidates
    ensures RespectsScores(candidates, scores, Mandatory(steps), result)
  {
    ChosenMeans(StepsOf(candidates), scores, limit, chosen);
  }

  // The second half: the candidates scored, reranked and looked up.
  method RerankCandidates(steps: seq<Step>, candidates: seq<Ranked>, scorer: seq<Step> -> map<int, real>)
    returns (result: seq<Ranked>)
    requires IsProcess(steps) && steps != [] && IsWindow(steps, StepsOf(candidates)) && RERANK_OUTPUT_LIMIT <= |candidates|
    ensures IsContext(steps, RERANK_OUTPUT_LIMIT, result)
    ensures RespectsScores(candidates, scorer(StepsOf(candidates)), Mandatory(steps), result)
  {
    var window := StepsOf(candidates);
    var scores := scorer(window);
    var reranked := RerankSteps(window, scores, RERANK_OUTPUT_LIMIT);
    ChosenAreCandidates(window, scores, RERANK_OUTPUT_LIMIT, reranked.value);
    result := Lookup(candidates, reranked.value);
    RerankingIsContext(steps, window, scores, RERANK_OUTPUT_LIMIT, reranked.value, result);
    RerankingRespects(steps, candidates, scores, RERANK_OUTPUT_LIMIT, reranked.value, result);
  }

  method SelectContextSteps(query: seq<string>, steps: seq<Step>, vectorScores: map<int, real>,
                            scorer: Option<seq<Step> -> map<int, real>>, log: real -> real)
    returns (result: seq<Ranked>)
    requires IsProcess(steps)
    ensures |steps| <= 40 ==>
      && |result| == |steps| && Ascending(result) && (forall s :: s in StepsOf(result) <==> s in steps)
      && forall r :: r in result ==> r.forced && r.score == 1.0 && r.lexical == 0.0 && r.vector == 0.0
    ensures |steps| > 40 && scorer.None? ==>
      IsRanking(query, steps, vectorScores, 20, log, result) && IsContext(steps, 20, result)
    ensures |steps| > 40 && scorer.Some? ==>
      IsContext(steps, 15, result)
      && (exists candidates ::
            IsRanking(query, steps, vectorScores, 50, log, candidates)
            && RespectsScores(candidates, scorer.value(StepsOf(candidates)), Mandatory(steps), result))
  {
    var limit := if scorer.Some? then RERANK_CANDIDATE_LIMIT else LEGACY_OUTPUT_LIMIT;
    var candidates := RankSteps(query, steps, vectorScores, limit, log);
    if scorer.None? || |steps| <= SHORT_PROCESS_ALL_STEPS_MAX {
      ShortProcess(steps);
      if |steps| > SHORT_PROCESS_ALL_STEPS_MAX {
        RankingIsContext(query, steps, vectorScores, limit, log, candidates);
      }
      return candidates;
    }
    RankingWindow(query, steps, vectorScores, limit, log, candidates);
    result := RerankCandidates(steps, candidates, scorer.value);
  }

  lemma ChosenAreCandidates(window: seq<Step>, scores: map<int, real>, limit: nat, chosen: seq<Step>)
    requires IsProcess(window) && window != [] && IsReranking(window, scores, limit, chosen)
    ensures forall s :: s in chosen ==> s in window
  {
    StrictlyByNumber(window);
  }
}
