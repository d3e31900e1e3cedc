/** The deterministic verifier of material claims (app/claim_verification.py).

    Fact extraction is an arbitrary function from a text to sets of facts; `sha` is the digest of an
    excerpt. */
module ClaimVerification {
  import opened Wrappers
  import opened MaterialClaims

  datatype Status = Supported | Contradicted | Insufficient | NotEvaluated

  datatype Facts = Facts(
    text: string, cnjs: set<string>, dates: set<string>, amounts: set<real>, labeled: set<real>,
    parties: set<string>, counts: set<nat>)
  {
    function Count(): nat {
      |cnjs| + |dates| + |amounts| + |parties| + |counts|
    }

    // What the amount patterns guarantee: a labelled amount is an amount.
    predicate Valid() {
      labeled <= amounts
    }
  }

  datatype Evidence = Evidence(
    kind: Kind, text: string, cnjs: set<string>, dates: set<string>, amounts: set<real>,
    parties: set<string>, counts: set<nat>, exact: set<string>, span: Span)

  // The pages and characters an attachment chunk comes from.
  datatype Span = Span(pageStart: Option<int>, pageEnd: Option<int>, charStart: Option<int>, charEnd: Option<int>)

  const NoSpan := Span(None, None, None, None)

  datatype Verdict = Verdict(status: Status, reason: string)

  const MAX_EXCERPT_CHARS := 4000

  predicate IsExact(f: Facts, e: Evidence) {
    f.text != "" && f.text in e.exact
  }

  /* ---- _relation_status ---- */

  function RelationVerdict(f: Facts, e: Evidence): Verdict {
    if IsExact(f, e) then Verdict(Supported, "exact_text_present")
    else if f.Count() == 0 then Verdict(NotEvaluated, "no_deterministic_fact_anchor")
    else if f.cnjs != {} && !(f.cnjs <= e.cnjs) then Verdict(Insufficient, "cited_source_missing_cnj")
    else if f.amounts != {} && !(f.amounts <= e.amounts) then
      if e.kind == Process && e.amounts != {} && f.labeled != {} && !(f.labeled <= e.amounts) then
        Verdict(Contradicted, "process_amount_mismatch")
      else Verdict(Insufficient, "cited_source_missing_amount")
    else if f.dates != {} && !(f.dates <= e.dates) then Verdict(Insufficient, "cited_source_missing_date")
    else if f.parties != {} && !(f.parties <= e.parties) then Verdict(Insufficient, "cited_source_missing_party")
    else if f.counts != {} && !(f.counts <= e.counts) then
      if e.kind == Process && e.counts != {} then Verdict(Contradicted, "process_step_count_mismatch")
      else Verdict(Insufficient, "cited_source_missing_step_count")
    else Verdict(Supported, "deterministic_facts_present")
  }

  predicate FactsIn(f: Facts, cnjs: set<string>, dates: set<string>, amounts: set<real>, parties: set<string>, counts: set<nat>) {
    f.cnjs <= cnjs && f.dates <= dates && f.amounts <= amounts && f.parties <= parties && f.counts <= counts
  }

  // A source of the process itself that states other amounts, or another number of movements, than
  // the claim does while everything checked before agrees.
  predicate Contradicts(f: Facts, e: Evidence) {
    && e.kind == Process && !IsExact(f, e) && f.cnjs <= e.cnjs
    && ((e.amounts != {} && !(f.labeled <= e.amounts))
        || (f.amounts <= e.amounts && f.dates <= e.dates && f.parties <= e.parties && e.counts != {} && !(f.counts <= e.counts)))
  }

  // Each verdict on a single source, by what the source holds rather than by the order of the checks.
  lemma RelationMeans(f: Facts, e: Evidence)
    requires f.Valid()
    ensures var status := RelationVerdict(f, e).status;
      && (status == Supported <==> IsExact(f, e) || (f.Count() > 0 && FactsIn(f, e.cnjs, e.dates, e.amounts, e.parties, e.counts)))
      && (status == NotEvaluated <==> !IsExact(f, e) && f.Count() == 0)
      && (status == Contradicted <==> Contradicts(f, e))
  {
    if f.Count() == 0 {
      assert f.cnjs == {} && f.dates == {} && f.amounts == {} && f.parties == {} && f.counts == {};
    }
  }

  /* ---- verify_material_claims ---- */

  datatype Relation = Relation(
    ref: string, status: Status, reason: string, excerpt: Option<string>, digest: Option<string>, span: Span)

  datatype Verification = Verification(
    id: string, cls: Option<Class>, status: Status, reason: string, count: nat, relations: seq<Relation>)

  function Excerpt(text: string): Option<string> {
    if text == "" then None else Some(if |text| <= MAX_EXCERPT_CHARS then text else text[..MAX_EXCERPT_CHARS])
  }

  function Digest(text: string, sha: string -> string): Option<string> {
    if Excerpt(text).None? then None else Some(sha(Excerpt(text).value))
  }

  function Unavailable(ref: string): Relation {
    Relation(ref, Insufficient, "verification_source_unavailable", None, None, NoSpan)
  }

  function Relate(f: Facts, ref: string, evidence: map<string, Evidence>, sha: string -> string): Relation {
    if ref !in evidence then Unavailable(ref)
    else
      var e := evidence[ref];
      var v := RelationVerdict(f, e);
      Relation(ref, v.status, v.reason, Excerpt(e.text), Digest(e.text, sha), e.span)
  }

  function Relations(f: Facts, refs: seq<string>, evidence: map<string, Evidence>, sha: string -> string): seq<Relation> {
    seq(|refs|, i requires 0 <= i < |refs| => Relate(f, refs[i], evidence, sha))
  }

  // The evidence behind the references that have any.
  function CitedEvidence(refs: seq<string>, evidence: map<string, Evidence>): set<Evidence> {
    set ref | ref in refs && ref in evidence :: evidence[ref]
  }

  function AllCnjs(cited: set<Evidence>): set<string> { set e, x | e in cited && x in e.cnjs :: x }
  function AllDates(cited: set<Evidence>): set<string> { set e, x | e in cited && x in e.dates :: x }
  function AllAmounts(cited: set<Evidence>): set<real> { set e, x | e in cited && x in e.amounts :: x }
  function AllParties(cited: set<Evidence>): set<string> { set e, x | e in cited && x in e.parties :: x }
  function AllCounts(cited: set<Evidence>): set<nat> { set e, x | e in cited && x in e.counts :: x }
  function OfProcess(cited: set<Evidence>): set<Evidence> { set e | e in cited && e.kind == Process }

  predicate Together(f: Facts, cited: set<Evidence>) {
    FactsIn(f, AllCnjs(cited), AllDates(cited), AllAmounts(cited), AllParties(cited), AllCounts(cited))
  }

  predicate ExactIn(f: Facts, cited: set<Evidence>) {
    exists e :: e in cited && IsExact(f, e)
  }

  // The longest reasons are written in two parts: proofs unfold a literal character by character.
  function ClaimVerdict(f: Facts, contradicted: bool, cited: set<Evidence>): Verdict {
    if contradicted then Verdict(Contradicted, "at_least_one_cited_source_" + "contradicts_deterministic_fact")
    else if ExactIn(f, cited) then Verdict(Supported, "exact_text_present_in_cited_source")
    else if f.Count() == 0 then Verdict(NotEvaluated, "no_deterministic_fact_anchor")
    else if f.labeled != {} && !(f.labeled <= AllAmounts(cited)) && AllAmounts(OfProcess(cited)) != {} then
      Verdict(Contradicted, "process_amount_mismatch")
    else if f.counts != {} && !(f.counts <= AllCounts(cited)) && AllCounts(OfProcess(cited)) != {} then
      Verdict(Contradicted, "process_step_count_mismatch")
    else if Together(f, cited) then Verdict(Supported, "deterministic_facts_present_" + "across_cited_sources")
    else Verdict(Insufficient, "cited_sources_do_not_support_" + "all_deterministic_facts")
  }

  predicate AnyContradicted(relations: seq<Relation>) {
    exists i :: 0 <= i < |relations| && relations[i].status == Contradicted
  }

  function Verify(claim: MaterialClaim, evidence: map<string, Evidence>, factsOf: string -> Facts, sha: string -> string): Verification {
    var f := factsOf(claim.text);
    var relations := Relations(f, claim.refs, evidence, sha);
    var v := ClaimVerdict(f, AnyContradicted(relations), CitedEvidence(claim.refs, evidence));
    Verification(claim.id, claim.cls, v.status, v.reason, f.Count(), relations)
  }

  method VerifyClaim(claim: MaterialClaim, evidence: map<string, Evidence>, factsOf: string -> Facts, sha: string -> string)
    returns (v: Verification)
    ensures v == Verify(claim, evidence, factsOf, sha)
  {
    var f := factsOf(claim.text);
    var relations: seq<Relation>, cited: set<Evidence>, i := [], {}, 0;
    while i < |claim.refs|
      invariant 0 <= i <= |claim.refs|
      invariant relations == Relations(f, claim.refs[..i], evidence, sha)
      invariant cited == CitedEvidence(claim.refs[..i], evidence)
    {
      var ref := claim.refs[i];
      assert claim.refs[..i + 1] == claim.refs[..i] + [ref];
      if ref !in evidence {
        relations := relations + [Unavailable(ref)];
      } else {
        cited := cited + {evidence[ref]};
        var e, verdict := evidence[ref], RelationVerdict(f, evidence[ref]);
        relations := relations + [Relation(ref, verdict.status, verdict.reason, Excerpt(e.text), Digest(e.text, sha), e.span)];
      }
      i := i + 1;
    }
    assert claim.refs[..i] == claim.refs;
    var verdict := ClaimVerdict(f, AnyContradicted(relations), cited);
    v := Verification(claim.id, claim.cls, verdict.status, verdict.reason, f.Count(), relations);
  }

  // Results by identifier; of two claims with one identifier the later one counts.
  function VerifyAll(claims: seq<MaterialClaim>, evidence: map<string, Evidence>, factsOf: string -> Facts, sha: string -> string)
    : map<string, Verification>
  {
    if claims == [] then map[]
    else
      var last := claims[|claims| - 1];
      VerifyAll(claims[..|claims| - 1], evidence, factsOf, sha)[last.id := Verify(last, evidence, factsOf, sha)]
  }

  method VerifyMaterialClaims(claims: seq<MaterialClaim>, evidence: map<string, Evidence>, factsOf: string -> Facts, sha: string -> string)
    returns (results: map<string, Verification>)
    ensures results == VerifyAll(claims, evidence, factsOf, sha)
  {
    results := map[];
    var i := 0;
    while i < |claims|
      invariant 0 <= i <= |claims|
      invariant results == VerifyAll(claims[..i], evidence, factsOf, sha)
    {
      var v := VerifyClaim(claims[i], evidence, factsOf, sha);
      assert claims[..i + 1][..i] == claims[..i];
      results := results[claims[i].id := v];
      i := i + 1;
    }
    assert claims[..i] == claims;
  }

  ghost predicate DistinctClaims(claims: seq<MaterialClaim>) {
    forall i, j :: 0 <= i < j < |claims| ==> claims[i].id != claims[j].id
  }

  lemma {:induction false} VerifyAllMeans(claims: seq<MaterialClaim>, evidence: map<string, Evidence>, factsOf: string -> Facts, sha: string -> string)
    requires DistinctClaims(claims)
    ensures var results := VerifyAll(claims, evidence, factsOf, sha);
      forall i :: 0 <= i < |claims| ==> claims[i].id in results && results[claims[i].id] == Verify(claims[i], evidence, factsOf, sha)
  {
    if claims != [] {
      var n := |claims| - 1;
      VerifyAllMeans(claims[..n], evidence, factsOf, sha);
      forall i | 0 <= i < n ensures claims[i].id != claims[n].id && claims[..n][i] == claims[i] {
      }
    }
  }

  /* ---- verification_errors ---- */

  // The classes that need an evaluated claim.
  predicate IsIntrinsicallyMaterial(cls: Option<Class>) {
    cls == Some(EventClass) || cls == Some(DecisionClass) || cls == Some(DeadlineClass)
    || cls == Some(RelatedClass) || cls == Some(AttachmentClass)
  }

  predicate IsRefused(v: Verification) {
    || v.status == Contradicted
    || (v.status == Insufficient && v.count > 0)
    || (v.status == NotEvaluated && IsIntrinsicallyMaterial(v.cls))
  }

  method VerificationErrors(claims: seq<MaterialClaim>, results: map<string, Verification>) returns (errors: seq<string>)
    requires forall c :: c in claims ==> c.id in results
    ensures errors == [] <==> forall c :: c in claims ==> !IsRefused(results[c.id])
  {
    errors := [];
    var i := 0;
    while i < |claims|
      invariant 0 <= i <= |claims|
      invariant errors == [] <==> forall k :: 0 <= k < i ==> !IsRefused(results[claims[k].id])
    {
      var v := results[claims[i].id];
      if v.status == Contradicted {
        errors := errors + ["claim contradicted by cited evidence: " + v.id];
      } else if v.status == Insufficient && v.count > 0 {
        errors := errors + ["claim has insufficient cited evidence: " + v.id];
      } else if v.status == NotEvaluated && IsIntrinsicallyMaterial(v.cls) {
        errors := errors + ["material claim was not evaluated: " + v.id];
      }
      i := i + 1;
    }
  }

  /* ---- What is accepted ---- */

  // A claim is accepted exactly when no cited source contradicts it and it is quoted by one of them,
  // or all its facts appear among them, or it holds no fact and need not be evaluated.
  lemma AcceptedExactly(claim: MaterialClaim, evidence: map<string, Evidence>, factsOf: string -> Facts, sha: string -> string)
    requires factsOf(claim.text).Valid()
    ensures var f := factsOf(claim.text);
      var cited := CitedEvidence(claim.refs, evidence);
      !IsRefused(Verify(claim, evidence, factsOf, sha)) <==>
        (forall e :: e in cited ==> !Contradicts(f, e))
        && (ExactIn(f, cited) || (if f.Count() > 0 then Together(f, cited) else !IsIntrinsicallyMaterial(claim.cls)))
  {
    ContradictedRelations(claim.refs, evidence, factsOf(claim.text), sha);
  }

  lemma ContradictedRelations(refs: seq<string>, evidence: map<string, Evidence>, f: Facts, sha: string -> string)
    requires f.Valid()
    ensures AnyContradicted(Relations(f, refs, evidence, sha)) <==>
      exists e :: e in CitedEvidence(refs, evidence) && Contradicts(f, e)
  {
    var relations := Relations(f, refs, evidence, sha);
    forall i | 0 <= i < |refs|
      ensures relations[i].status == Contradicted <==> refs[i] in evidence && Contradicts(f, evidence[refs[i]])
    {
      if refs[i] in evidence {
        RelationMeans(f, evidence[refs[i]]);
      }
    }
    forall e | e in CitedEvidence(refs, evidence) && Contradicts(f, e) ensures AnyContradicted(relations) {
      var ref :| ref in refs && ref in evidence && evidence[ref] == e;
      var i :| 0 <= i < |refs| && refs[i] == ref;
      assert relations[i].status == Contradicted;
    }
    if AnyContradicted(relations) {
      var i :| 0 <= i < |refs| && relations[i].status == Contradicted;
      assert refs[i] in refs && evidence[refs[i]] in CitedEvidence(refs, evidence);
    }
  }

  // A text that a source holds as it is is supported by it; a blank text is never a quotation.
  lemma QuotedIsSupported(f: Facts, e: Evidence)
    ensures f.text != "" && f.text in e.exact ==> RelationVerdict(f, e) == Verdict(Supported, "exact_text_present")
    ensures (f.text == "" || f.text !in e.exact) && f.Count() == 0 ==> RelationVerdict(f, e).status == NotEvaluated
  {
  }

  // A reason names what is there or what is missing, the first of several: numbers, amounts, dates,
  // parties, counts.
  ghost predicate NamesMissing(reason: string, f: Facts, e: Evidence) {
    if !(f.cnjs <= e.cnjs) then reason == "cited_source_missing_cnj"
    else if !(f.amounts <= e.amounts) then reason == "cited_source_missing_amount"
    else if !(f.dates <= e.dates) then reason == "cited_source_missing_date"
    else if !(f.parties <= e.parties) then reason == "cited_source_missing_party"
    else !(f.counts <= e.counts) && reason == "cited_source_missing_step_count"
  }

  lemma RelationReasons(f: Facts, e: Evidence)
    ensures var v := RelationVerdict(f, e);
      && (v.status == Supported ==>
            v.reason == if f.text != "" && f.text in e.exact then "exact_text_present" else "deterministic_facts_present")
      && (v.status == NotEvaluated ==> v.reason == "no_deterministic_fact_anchor")
      && (v.status == Insufficient ==> NamesMissing(v.reason, f, e))
      && (v.status == Contradicted ==>
            || (v.reason == "process_amount_mismatch" && !(f.labeled <= e.amounts))
            || (v.reason == "process_step_count_mismatch" && !(f.counts <= e.counts)))
  {
  }

  lemma ClaimReasons(f: Facts, contradicted: bool, cited: set<Evidence>)
    ensures var v := ClaimVerdict(f, contradicted, cited);
      && (v.status == NotEvaluated ==> v.reason == "no_deterministic_fact_anchor")
      && (v.status == Insufficient ==> v.reason == "cited_sources_do_not_support_" + "all_deterministic_facts")
      && (v.status == Contradicted ==>
            if contradicted then v.reason == "at_least_one_cited_source_" + "contradicts_deterministic_fact"
            else || (v.reason == "process_amount_mismatch" && !(f.labeled <= AllAmounts(cited)))
                 || (v.reason == "process_step_count_mismatch" && !(f.counts <= AllCounts(cited))))
      && (v.status == Supported ==>
            v.reason == if ExactIn(f, cited) then "exact_text_present_in_cited_source"
                        else "deterministic_facts_present_" + "across_cited_sources")
  {
  }

  // Where no source contradicts, a claim is supported if it is quoted or all its facts are found, and
  // not evaluated if it has none.
  lemma StatusExactly(claim: MaterialClaim, evidence: map<string, Evidence>, factsOf: string -> Facts, sha: string -> string)
    requires factsOf(claim.text).Valid()
    ensures var f := factsOf(claim.text);
      var cited := CitedEvidence(claim.refs, evidence);
      var status := Verify(claim, evidence, factsOf, sha).status;
      var quiet := forall e :: e in cited ==> !Contradicts(f, e);
      && (status == Supported <==> quiet && (ExactIn(f, cited) || (f.Count() > 0 && Together(f, cited))))
      && (status == NotEvaluated <==> quiet && !ExactIn(f, cited) && f.Count() == 0)
  {
    ContradictedRelations(claim.refs, evidence, factsOf(claim.text), sha);
  }

  // A claim contradicts the process if one of its sources does, or if it names amounts or counts that
  // no cited source has while the process among them has others.
  lemma ContradictedExactly(claim: MaterialClaim, evidence: map<string, Evidence>, factsOf: string -> Facts, sha: string -> string)
    requires factsOf(claim.text).Valid()
    ensures var f := factsOf(claim.text);
      var cited := CitedEvidence(claim.refs, evidence);
      Verify(claim, evidence, factsOf, sha).status == Contradicted <==>
        || (exists e :: e in cited && Contradicts(f, e))
        || (&& !ExactIn(f, cited)
            && (|| (HasOther(f.labeled, set e, x | e in cited && x in e.amounts :: x) && exists e :: e in cited && e.kind == Process && e.amounts != {})
                || (HasOther(f.counts, set e, x | e in cited && x in e.counts :: x) && exists e :: e in cited && e.kind == Process && e.counts != {})))
  {
    var f, cited := factsOf(claim.text), CitedEvidence(claim.refs, evidence);
    ContradictedRelations(claim.refs, evidence, f, sha);
    ProcessHas(cited);
    if f.labeled != {} {
      var x := Any(f.labeled);
      assert x in f.amounts;
      assert |f.amounts| > 0;
    }
  }

  lemma Any<T>(s: set<T>) returns (x: T)
    requires s != {}
    ensures x in s
  {
    x :| x in s;
  }

  predicate HasOther<T(==)>(named: set<T>, found: set<T>) {
    exists x :: x in named && x !in found
  }

  lemma ProcessHas(cited: set<Evidence>)
    ensures AllAmounts(OfProcess(cited)) != {} <==> exists e :: e in cited && e.kind == Process && e.amounts != {}
    ensures AllCounts(OfProcess(cited)) != {} <==> exists e :: e in cited && e.kind == Process && e.counts != {}
  {
    forall e | e in cited && e.kind == Process ensures e in OfProcess(cited) {
    }
    if e :| e in cited && e.kind == Process && e.amounts != {} {
      var x := Any(e.amounts);
      assert x in AllAmounts(OfProcess(cited));
    }
    if e :| e in cited && e.kind == Process && e.counts != {} {
      var x := Any(e.counts);
      assert x in AllCounts(OfProcess(cited));
    }
    if x :| x in AllAmounts(OfProcess(cited)) {
      var e :| e in OfProcess(cited) && x in e.amounts;
      assert e in cited && e.amounts != {};
    }
    if x :| x in AllCounts(OfProcess(cited)) {
      var e :| e in OfProcess(cited) && x in e.counts;
      assert e in cited && e.counts != {};
    }
  }

  // The digest of a relation is that of its excerpt, the first four thousand characters of the
  // source; a source that is not there, or has no text, has neither.
  lemma RelationQuotes(f: Facts, ref: string, evidence: map<string, Evidence>, sha: string -> string)
    ensures var r := Relate(f, ref, evidence, sha);
      && r.ref == ref
      && (r.excerpt.Some? <==> ref in evidence && evidence[ref].text != "")
      && (r.excerpt.Some? ==>
            && r.excerpt.value <= evidence[ref].text && r.digest == Some(sha(r.excerpt.value))
            && |r.excerpt.value| == if |evidence[ref].text| < 4000 then |evidence[ref].text| else 4000)
      && (r.excerpt == None ==> r.digest == None)
      && r.span == (if ref in evidence then evidence[ref].span else NoSpan)
      && Verdict(r.status, r.reason) == if ref in evidence then RelationVerdict(f, evidence[ref])
                                        else Verdict(Insufficient, "verification_source_" + "unavailable")
  {
  }

  // Only which sources are cited matters, not their order or how often.
  lemma OrderDoesNotMatter(claim: MaterialClaim, refs: seq<string>, evidence: map<string, Evidence>, factsOf: string -> Facts, sha: string -> string)
    requires factsOf(claim.text).Valid()
    requires forall ref :: ref in refs <==> ref in claim.refs
    ensures var a, b := Verify(claim, evidence, factsOf, sha), Verify(claim.(refs := refs), evidence, factsOf, sha);
      a.status == b.status && a.reason == b.reason && IsRefused(a) == IsRefused(b)
  {
    ContradictedRelations(claim.refs, evidence, factsOf(claim.text), sha);
    ContradictedRelations(refs, evidence, factsOf(claim.text), sha);
    assert CitedEvidence(refs, evidence) == CitedEvidence(claim.refs, evidence);
  }

  lemma UnionOfOne(e: Evidence)
    ensures AllCnjs({e}) == e.cnjs && AllDates({e}) == e.dates && AllAmounts({e}) == e.amounts
    ensures AllParties({e}) == e.parties && AllCounts({e}) == e.counts
  {
    forall x | x in e.amounts ensures x in AllAmounts({e}) {
      assert e in {e} && x in e.amounts;
    }
    assert AllAmounts({e}) <= e.amounts;
  }

  // With a single source the claim ladder and the relation ladder agree, except that the claim
  // ladder may find a contradiction where the relation stopped at a missing fact.
  lemma SingleSource(claim: MaterialClaim, evidence: map<string, Evidence>, factsOf: string -> Facts, sha: string -> string)
    requires factsOf(claim.text).Valid() && |claim.refs| == 1 && claim.refs[0] in evidence
    ensures var v := Verify(claim, evidence, factsOf, sha);
      v.status == v.relations[0].status || (v.status == Contradicted && v.relations[0].status == Insufficient)
  {
    var f, e := factsOf(claim.text), evidence[claim.refs[0]];
    var cited := CitedEvidence(claim.refs, evidence);
    assert cited == {e} by {
      assert claim.refs[0] in claim.refs;
    }
    UnionOfOne(e);
    RelationMeans(f, e);
    ContradictedRelations(claim.refs, evidence, f, sha);
  }
}
