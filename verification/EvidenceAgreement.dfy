/** Validator, verifier, store, reload and publication gate, which the program writes as separate
    loops, agree (generate_summary and _persist_summary in app/rag.py). */
module EvidenceAgreement {
  import opened Wrappers
  import opened Text
  import opened SummaryOutput
  import opened SummaryDocument
  import opened MaterialClaims
  import opened ClaimVerification
  import opened PublicationGate
  import opened ClaimEvidence

  // A parsed summary with everything it was generated and checked with.
  datatype Run = Run(
    p: Summary, sel: Selection, summary: nat, version: string, evidence: map<string, Evidence>,
    factsOf: string -> Facts, sha: string -> string)
  {
    function Claims(): seq<MaterialClaim> { Rendered(p.claims) }

    function Verified(m: MaterialClaim): Verification { Verify(m, evidence, factsOf, sha) }

    function ToStore(): Batch {
      Batch(summary, version, Catalog(sel), VerifyAll(Claims(), evidence, factsOf, sha), UsedBy(sel))
    }

    // The extraction and the digest behave.
    ghost predicate Sound() {
      (forall text: string :: factsOf(text).Valid()) && (forall text: string :: IsDigest(sha(text)))
    }

    // Parsed, and neither validate_claim_evidence nor verification_errors reports anything.
    ghost predicate Validated() {
      && IsNormal(p) && IsBuilt(sel, version) && IsCovered(p, p.claims, Catalog(sel))
      && forall m :: m in Claims() ==> !IsRefused(Verified(m))
    }
  }

  /* ---- Parsed claims are already stripped ---- */

  lemma NormalClaim(c: Claim)
    requires IsClaim(c)
    ensures Strip(c.id) == c.id && Strip(c.text) == c.text && Stripped(c.refs) == c.refs
  {
    StripOfTrimmed(c.id);
    StripOfTrimmed(c.text);
    forall i | 0 <= i < |c.refs| ensures Strip(c.refs[i]) == c.refs[i] {
      StripOfTrimmed(c.refs[i]);
    }
    assert Stripped(c.refs) == c.refs;
  }

  lemma ClaimOf(r: Run, i: nat)
    requires r.Validated() && i < |r.p.claims|
    ensures var c := r.p.claims[i]; var m := r.Claims()[i];
      && IsClaim(c) && m == MaterialClaim(c.id, ClassOf(c.id), c.text, c.refs)
      && c.id in Expected(r.p) && c.text == Expected(r.p)[c.id] && c.refs != [] && Distinct(c.refs)
      && (forall k :: 0 <= k < |c.refs| ==> IsRef(c.refs[k]) && c.refs[k] in Catalog(r.sel))
  {
    var c := r.p.claims[i];
    assert c in r.p.claims;
    NormalClaim(c);
    assert ClaimFits(c, Expected(r.p), Catalog(r.sel));
    forall k | 0 <= k < |c.refs| ensures Strip(c.refs[k]) == c.refs[k] {
      assert Stripped(c.refs)[k] == Strip(c.refs[k]);
    }
  }

  lemma ClaimsAreDistinct(r: Run)
    requires r.Validated()
    ensures DistinctClaims(r.Claims())
    ensures forall i, j :: 0 <= i < j < |r.p.claims| ==> r.p.claims[i].id != r.p.claims[j].id
  {
    forall i, j | 0 <= i < j < |r.p.claims| ensures r.Claims()[i].id != r.Claims()[j].id && r.p.claims[i].id != r.p.claims[j].id {
      ClaimOf(r, i);
      ClaimOf(r, j);
      assert Strip(r.p.claims[i].id) != Strip(r.p.claims[j].id);
    }
  }

  lemma ResultOf(r: Run, i: nat)
    requires r.Validated() && i < |r.p.claims|
    ensures var m := r.Claims()[i]; m.id in r.ToStore().results && r.ToStore().results[m.id] == r.Verified(m)
    ensures !IsRefused(r.Verified(r.Claims()[i]))
  {
    ClaimsAreDistinct(r);
    VerifyAllMeans(r.Claims(), r.evidence, r.factsOf, r.sha);
    assert r.Claims()[i] in r.Claims();
  }

  /* ---- Everything validated can be stored ---- */

  lemma {:induction false} PrefixOfKey(field: string, rest: string)
    requires !HasColon(field)
    ensures Prefix(field + ":" + rest) == field
  {
    var key := field + ":" + rest;
    if field != [] {
      PrefixOfKey(field[1..], rest);
      assert key[1..] == field[1..] + ":" + rest;
      assert field[0] in field;
    }
  }

  lemma FieldHasClass(f: nat, i: nat)
    requires f < |MATERIAL_FIELDS|
    ensures ClassOf(Key(MATERIAL_FIELDS[f], i)).Some?
  {
    assert !HasColon(MATERIAL_FIELDS[f]);
    PrefixOfKey(MATERIAL_FIELDS[f], Decimal(i));
  }

  lemma ProseHasClass(id: string)
    requires id == "synthesis" || id == "current_status"
    ensures ClassOf(id).Some?
  {
    PrefixOfAll(id);
  }

  lemma {:induction false} PrefixOfAll(id: string)
    requires !HasColon(id)
    ensures Prefix(id) == id
  {
    if id != [] {
      assert id[0] in id;
      PrefixOfAll(id[1..]);
    }
  }

  // The class of each of the six lists, and whether a claim of it must be evaluated.
  const CLASSES: seq<(string, Class, bool)> :=
    [("timeline", EventClass, true), ("attention", AttentionClass, false), ("decisions", DecisionClass, true),
     ("deadlines", DeadlineClass, true), ("related_processes", RelatedClass, true), ("attachments", AttachmentClass, true)]

  lemma ClassByPrefix(id: string, f: nat)
    requires f < |CLASSES| && Prefix(id) == CLASSES[f].0
    ensures ClassOf(id) == Some(CLASSES[f].1)
  {
  }

  lemma ClassOfItem(id: string, f: nat, n: nat)
    requires f < |CLASSES| && id == CLASSES[f].0 + ":" + Decimal(n)
    ensures ClassOf(id) == Some(CLASSES[f].1) && (IsIntrinsicallyMaterial(ClassOf(id)) <==> CLASSES[f].2)
  {
    assert !HasColon(CLASSES[f].0);
    PrefixOfKey(CLASSES[f].0, Decimal(n));
    ClassByPrefix(id, f);
  }

  // Neither the synthesis nor the status must be evaluated.
  lemma ClassOfProse(id: string)
    requires id == "synthesis" || id == "current_status"
    ensures ClassOf(id) == Some(if id == "synthesis" then SynthesisClass else StatusClass)
    ensures !IsIntrinsicallyMaterial(ClassOf(id))
  {
    PrefixOfAll(id);
  }

  lemma SlotHasClass(p: Summary, k: nat)
    requires k < |Slots(p)|
    ensures ClassOf(Slots(p)[k].0).Some?
  {
    if k < 2 {
      ProseHasClass(Slots(p)[k].0);
    } else {
      var f, i := SlotShape(Fields(p), k - 2);
      FieldHasClass(f, i);
    }
  }

  lemma ExpectedHasClass(p: Summary, id: string)
    requires id in Expected(p)
    ensures ClassOf(id).Some?
  {
    ExpectedIsSlots(p);
    var k :| 0 <= k < |Slots(p)| && Slots(p)[k].0 == id;
    SlotHasClass(p, k);
  }

  lemma SourceInScope(r: Run, ref: string, relations: seq<Relation>)
    requires IsBuilt(r.sel, r.version) && ref in Catalog(r.sel)
    ensures InScope(StoreSource(ref, Catalog(r.sel)[ref], relations), r.version, UsedBy(r.sel))
    ensures StoreSource(ref, Catalog(r.sel)[ref], relations).ref == ref
  {
    CatalogMeans(r.sel, r.version);
    var source := Catalog(r.sel)[ref];
    assert Stands(r.sel, r.version, ref, source);
  }

  // A source is in scope exactly if it is what its reference stands for in the catalogue.
  lemma ScopeIsCatalog(sel: Selection, version: string, s: StoredSource)
    requires IsBuilt(sel, version)
    ensures InScope(s, version, UsedBy(sel)) <==>
      s.ref in Catalog(sel) && Catalog(sel)[s.ref] == Source(s.kind, s.step, s.chunk)
  {
    CatalogMeans(sel, version);
    if s.ref in Catalog(sel) {
      assert Stands(sel, version, s.ref, Catalog(sel)[s.ref]);
    }
    if InScope(s, version, UsedBy(sel)) {
      ScopeIsCatalogued(sel, version, s);
    }
  }

  lemma ScopeIsCatalogued(sel: Selection, version: string, s: StoredSource)
    requires IsBuilt(sel, version) && InScope(s, version, UsedBy(sel))
    ensures s.ref in Catalog(sel) && Catalog(sel)[s.ref] == Source(s.kind, s.step, s.chunk)
  {
    CatalogMeans(sel, version);
    match s.kind {
      case Process =>
      case Movement =>
        var c :| c in sel.steps && c.uuid == s.step.value;
        assert c in sel.steps + sel.chunks;
      case Attachment =>
        var c :| c in sel.chunks && c.uuid == s.chunk.value;
        assert c in sel.steps + sel.chunks;
    }
    assert Stands(sel, version, s.ref, Catalog(sel)[s.ref]);
    SameKind(sel, version, s.ref, Catalog(sel)[s.ref], s);
  }

  lemma SameKind(sel: Selection, version: string, ref: string, source: Source, s: StoredSource)
    requires IsBuilt(sel, version) && InScope(s, version, UsedBy(sel)) && s.ref == ref && Stands(sel, version, ref, source)
    ensures source == Source(s.kind, s.step, s.chunk)
  {
    assert ref[2..] == match s.kind { case Process => version case Movement => s.step.value case Attachment => s.chunk.value };
    match source.kind {
      case Process => assert ref[0] == 'p';
      case Movement =>
        var c :| c in sel.steps && source == MovementSource(c.uuid) && ref == MovementRef(c.uuid);
        assert ref[0] == 'm' && ref[2..] == c.uuid;
      case Attachment =>
        var c :| c in sel.chunks && source == AttachmentSource(c.uuid) && ref == AttachmentRef(c.uuid);
        assert ref[0] == 'a' && ref[2..] == c.uuid;
    }
    assert ref[0] == match s.kind { case Process => 'p' case Movement => 'm' case Attachment => 'a' };
  }

  /* ---- What is loaded ---- */

  lemma {:induction false} KeptIsAll(sources: seq<StoredSource>, version: string, used: Used)
    requires forall i :: 0 <= i < |sources| ==> InScope(sources[i], version, used)
    ensures Kept(sources, version, used) == sources
  {
    if sources != [] {
      KeptIsAll(sources[..|sources| - 1], version, used);
    }
  }

  lemma {:induction false} RelationIsFound(relations: seq<Relation>, k: nat)
    requires k < |relations| && forall i, j :: 0 <= i < j < |relations| ==> relations[i].ref != relations[j].ref
    ensures RelationFor(relations, relations[k].ref) == Some(relations[k])
  {
    var n := |relations| - 1;
    if k < n {
      RelationIsFound(relations[..n], k);
    }
  }

  // The sources as they come back: the relations of the verifier, in the order of the references.
  function ItemSources(relations: seq<Relation>): seq<ItemSource> {
    seq(|relations|, i requires 0 <= i < |relations| =>
      ItemSource(relations[i].ref, relations[i].status, Some(relations[i].reason), relations[i].digest, relations[i].span))
  }

  function ItemOf(m: MaterialClaim, v: Verification): Item {
    Item(m.id, m.cls, m.text, m.refs, v.status, Some(v.reason), ItemSources(v.relations))
  }

  // The verification is about the references of the claim, all of them storable.
  ghost predicate IsAbout(m: MaterialClaim, v: Verification, b: Batch) {
    && Catalogued(m, b.catalog) && m.id in b.results && b.results[m.id] == v
    && |v.relations| == |m.refs| && Distinct(m.refs)
    && forall k :: 0 <= k < |m.refs| ==>
      v.relations[k].ref == m.refs[k] && InScope(StoreSource(m.refs[k], b.catalog[m.refs[k]], v.relations), b.version, b.used)
  }

  lemma StoredSource(m: MaterialClaim, v: Verification, b: Batch, k: nat)
    requires IsAbout(m, v, b) && k < |m.refs|
    ensures var s := StoreSource(m.refs[k], b.catalog[m.refs[k]], v.relations);
      var rel := v.relations[k];
      && s.ref == rel.ref && s.status == rel.status && s.reason == rel.reason && s.digest == rel.digest && s.span == rel.span
      && s.excerpt == if rel.excerpt == Some("") then None else rel.excerpt
  {
    RelationIsFound(v.relations, k);
  }

  lemma LoadOfStored(m: MaterialClaim, v: Verification, b: Batch)
    requires IsAbout(m, v, b)
    ensures LoadItem(StoreClaim(b.summary, b.version, m, b.catalog, b.results), b.used) == ItemOf(m, v)
  {
    var row := StoreClaim(b.summary, b.version, m, b.catalog, b.results);
    forall k | 0 <= k < |m.refs|
      ensures var rel := v.relations[k];
        row.sources[k].ref == rel.ref && row.sources[k].status == rel.status && row.sources[k].reason == rel.reason
        && row.sources[k].digest == rel.digest && row.sources[k].span == rel.span
    {
      StoredSource(m, v, b, k);
    }
    KeptIsAll(row.sources, b.version, b.used);
    var item := LoadItem(row, b.used);
    assert item.refs == m.refs;
    assert item.sources == ItemSources(v.relations);
  }

  lemma ClaimIsAbout(r: Run, i: nat)
    requires r.Validated() && i < |r.p.claims|
    ensures IsAbout(r.Claims()[i], r.Verified(r.Claims()[i]), r.ToStore())
  {
    var m, b := r.Claims()[i], r.ToStore();
    ClaimOf(r, i);
    ResultOf(r, i);
    var v := r.Verified(m);
    forall k | 0 <= k < |m.refs|
      ensures v.relations[k].ref == m.refs[k] && InScope(StoreSource(m.refs[k], b.catalog[m.refs[k]], v.relations), b.version, b.used)
    {
      SourceInScope(r, m.refs[k], v.relations);
    }
  }

  lemma LoadedItem(r: Run, i: nat)
    requires r.Validated() && i < |r.p.claims|
    ensures var m := r.Claims()[i]; var b := r.ToStore();
      Catalogued(m, b.catalog)
      && LoadItem(StoreClaim(b.summary, b.version, m, b.catalog, b.results), b.used) == ItemOf(m, r.Verified(m))
  {
    ClaimIsAbout(r, i);
    LoadOfStored(r.Claims()[i], r.Verified(r.Claims()[i]), r.ToStore());
  }

  /* ---- What can be stored ---- */

  // The spans of the cited sources are ranges of pages and characters.
  predicate HasSpan(ref: string, evidence: map<string, Evidence>) {
    ref in evidence ==> IsSpan(evidence[ref].span)
  }

  predicate HasSpans(m: MaterialClaim, evidence: map<string, Evidence>) {
    forall k :: 0 <= k < |m.refs| ==> HasSpan(m.refs[k], evidence)
  }

  ghost predicate AllSpans(r: Run) {
    forall i :: 0 <= i < |r.Claims()| ==> HasSpans(r.Claims()[i], r.evidence)
  }

  lemma SourceIsStorable(m: MaterialClaim, r: Run, k: nat)
    requires r.Sound() && IsAbout(m, r.Verified(m), r.ToStore()) && k < |m.refs| && IsRef(m.refs[k])
    ensures var b := r.ToStore();
      IsInsertableSource(StoreSource(m.refs[k], b.catalog[m.refs[k]], r.Verified(m).relations), b.version, b.used) <==>
        HasSpan(m.refs[k], r.evidence)
  {
    StoredSource(m, r.Verified(m), r.ToStore(), k);
    assert r.Verified(m).relations[k] == Relate(r.factsOf(m.text), m.refs[k], r.evidence, r.sha);
  }

  lemma ClaimHasColumns(r: Run, i: nat)
    requires r.Validated() && i < |r.p.claims|
    ensures var m := r.Claims()[i];
      HasText(m.id) && m.cls.Some? && HasText(m.text) && Distinct(m.refs) && forall k :: 0 <= k < |m.refs| ==> IsRef(m.refs[k])
  {
    var m := r.Claims()[i];
    ClaimOf(r, i);
    ExpectedHasClass(r.p, m.id);
    assert m.id[0] != ' ' && m.text[0] != ' ';
  }

  lemma ClaimIsStorable(r: Run, i: nat)
    requires r.Sound() && r.Validated() && i < |r.p.claims|
    ensures CanStore(r.Claims()[i], r.ToStore()) <==> HasSpans(r.Claims()[i], r.evidence)
  {
    ClaimIsAbout(r, i);
    ClaimHasColumns(r, i);
    SourcesAreStorable(r.Claims()[i], r);
  }

  lemma SourcesAreStorable(m: MaterialClaim, r: Run)
    requires r.Sound() && IsAbout(m, r.Verified(m), r.ToStore())
    requires HasText(m.id) && m.cls.Some? && HasText(m.text) && forall k :: 0 <= k < |m.refs| ==> IsRef(m.refs[k])
    ensures CanStore(m, r.ToStore()) <==> HasSpans(m, r.evidence)
  {
    var b := r.ToStore();
    var row := StoreClaim(b.summary, b.version, m, b.catalog, b.results);
    forall k | 0 <= k < |row.sources|
      ensures row.sources[k].ref == m.refs[k]
      ensures IsInsertableSource(row.sources[k], row.version, b.used) <==> HasSpan(m.refs[k], r.evidence)
    {
      StoredSource(m, r.Verified(m), b, k);
      SourceIsStorable(m, r, k);
    }
  }

  // No constraint and no trigger of the database refuses the evidence of a validated summary, as
  // long as the spans of its sources are ranges; those read from the chunk table are.
  lemma ValidatedIsStorable(r: Run)
    requires r.Sound() && r.Validated()
    ensures Storable(r.Claims(), r.ToStore()) <==> AllSpans(r)
  {
    ClaimsAreDistinct(r);
    forall i | 0 <= i < |r.Claims()| ensures CanStore(r.Claims()[i], r.ToStore()) <==> HasSpans(r.Claims()[i], r.evidence) {
      ClaimIsStorable(r, i);
    }
  }

  /* ---- The gate on what is loaded ---- */

  // The source is in the verifier's catalogue, with a text unless no fact of the claim anchors it.
  predicate HasExcerpt(f: Facts, ref: string, evidence: map<string, Evidence>) {
    ref in evidence && (evidence[ref].text != "" || (f.Count() == 0 && !IsExact(f, evidence[ref])))
  }

  predicate HasExcerpts(m: MaterialClaim, evidence: map<string, Evidence>, factsOf: string -> Facts) {
    forall k :: 0 <= k < |m.refs| ==> HasExcerpt(factsOf(m.text), m.refs[k], evidence)
  }

  lemma VerdictReason(f: Facts, e: Evidence)
    ensures !IsBlank(RelationVerdict(f, e).reason)
  {
    var initial := RelationVerdict(f, e).reason[0];
    assert initial == 'e' || initial == 'n' || initial == 'c' || initial == 'p' || initial == 'd';
  }

  lemma RelationReason(f: Facts, ref: string, evidence: map<string, Evidence>, sha: string -> string)
    ensures !IsBlank(Relate(f, ref, evidence, sha).reason)
  {
    if ref !in evidence {
      assert Relate(f, ref, evidence, sha).reason[0] == 'v';
    } else {
      VerdictReason(f, evidence[ref]);
    }
  }

  lemma ClaimReason(f: Facts, contradicted: bool, cited: set<Evidence>)
    ensures !IsBlank(ClaimVerdict(f, contradicted, cited).reason)
  {
    var reason := ClaimVerdict(f, contradicted, cited).reason;
    if contradicted {
      assert reason[0] == 'a';
    } else if ExactIn(f, cited) {
      assert reason[0] == 'e';
    } else if f.Count() == 0 {
      assert reason[0] == 'n';
    } else {
      assert reason[0] == 'p' || reason[0] == 'd' || reason[0] == 'c';
    }
  }

  // A source that does not contradict passes exactly when it is unevaluated or has an excerpt.
  lemma RelationPasses(f: Facts, ref: string, evidence: map<string, Evidence>, sha: string -> string)
    requires f.Valid() && forall text: string :: IsDigest(sha(text))
    requires Relate(f, ref, evidence, sha).status != Contradicted
    ensures var rel := Relate(f, ref, evidence, sha);
      ValidSource(ItemSource(rel.ref, rel.status, Some(rel.reason), rel.digest, rel.span)) <==> HasExcerpt(f, ref, evidence)
    ensures f.Count() > 0 ==> IsEvaluated(Relate(f, ref, evidence, sha).status)
    ensures ref in evidence && IsExact(f, evidence[ref]) ==> IsEvaluated(Relate(f, ref, evidence, sha).status)
  {
    RelationReason(f, ref, evidence, sha);
    if ref in evidence {
      RelationMeans(f, evidence[ref]);
    }
  }

  // A relation that contradicts makes the claim contradicted, and hence refused.
  lemma AcceptedRelations(m: MaterialClaim, evidence: map<string, Evidence>, factsOf: string -> Facts, sha: string -> string, k: nat)
    requires k < |m.refs| && !IsRefused(Verify(m, evidence, factsOf, sha))
    ensures Relate(factsOf(m.text), m.refs[k], evidence, sha).status != Contradicted
  {
    var relations := Relations(factsOf(m.text), m.refs, evidence, sha);
    assert relations[k] == Relate(factsOf(m.text), m.refs[k], evidence, sha);
  }

  // An evaluated claim has an evaluated source.
  lemma EvaluatedHasSource(m: MaterialClaim, evidence: map<string, Evidence>, factsOf: string -> Facts, sha: string -> string) returns (k: nat)
    requires factsOf(m.text).Valid() && (forall text: string :: IsDigest(sha(text))) && m.refs != []
    requires !IsRefused(Verify(m, evidence, factsOf, sha)) && IsEvaluated(Verify(m, evidence, factsOf, sha).status)
    ensures k < |m.refs| && IsEvaluated(Relate(factsOf(m.text), m.refs[k], evidence, sha).status)
  {
    var f := factsOf(m.text);
    k := 0;
    if ExactIn(f, CitedEvidence(m.refs, evidence)) {
      var e :| e in CitedEvidence(m.refs, evidence) && IsExact(f, e);
      var ref :| ref in m.refs && ref in evidence && evidence[ref] == e;
      k :| 0 <= k < |m.refs| && m.refs[k] == ref;
    }
    AcceptedRelations(m, evidence, factsOf, sha, k);
    RelationPasses(f, m.refs[k], evidence, sha);
  }

  lemma ItemPasses(m: MaterialClaim, evidence: map<string, Evidence>, factsOf: string -> Facts, sha: string -> string)
    requires factsOf(m.text).Valid() && (forall text: string :: IsDigest(sha(text))) && m.refs != []
    requires !IsRefused(Verify(m, evidence, factsOf, sha))
    ensures ValidItem(ItemOf(m, Verify(m, evidence, factsOf, sha))) <==> HasExcerpts(m, evidence, factsOf)
  {
    var f, v := factsOf(m.text), Verify(m, evidence, factsOf, sha);
    var item := ItemOf(m, v);
    ClaimReason(f, AnyContradicted(v.relations), CitedEvidence(m.refs, evidence));
    forall k | 0 <= k < |m.refs|
      ensures item.sources[k] in item.sources
      ensures ValidSource(item.sources[k]) <==> HasExcerpt(f, m.refs[k], evidence)
    {
      AcceptedRelations(m, evidence, factsOf, sha, k);
      RelationPasses(f, m.refs[k], evidence, sha);
    }
    SourcesPass(item.sources, m.refs, f, evidence);
    if IsEvaluated(item.status) {
      var k := EvaluatedHasSource(m, evidence, factsOf, sha);
      assert item.sources[k] in item.sources && IsEvaluated(item.sources[k].status);
    }
  }

  lemma SourcesPass(sources: seq<ItemSource>, refs: seq<string>, f: Facts, evidence: map<string, Evidence>)
    requires |sources| == |refs|
    requires forall k :: 0 <= k < |refs| ==> (ValidSource(sources[k]) <==> HasExcerpt(f, refs[k], evidence))
    ensures (forall s :: s in sources ==> ValidSource(s)) <==> forall k :: 0 <= k < |refs| ==> HasExcerpt(f, refs[k], evidence)
  {
    forall k | 0 <= k < |refs| ensures sources[k] in sources {
    }
  }

  /* ---- The order of the items does not matter ---- */

  lemma {:induction false} TwiceIn(s: seq<Item>, x: Item) returns (a: nat, b: nat)
    requires multiset(s)[x] >= 2
    ensures a < b < |s| && s[a] == x == s[b]
  {
    var n := |s| - 1;
    assert s == s[..n] + [s[n]];
    if s[n] == x {
      assert multiset(s[..n])[x] >= 1;
      assert x in s[..n];
      a :| 0 <= a < n && s[..n][a] == x;
      b := n;
    } else {
      a, b := TwiceIn(s[..n], x);
    }
  }

  lemma SplitTwice(items: seq<Item>, i: nat, j: nat)
    requires i < j < |items| && items[i] == items[j]
    ensures multiset(items)[items[i]] >= 2
  {
    assert items == items[..j] + [items[j]] + items[j + 1..];
    assert items[..j][i] == items[i];
    assert items[i] in multiset(items[..j]);
  }

  lemma PermutedIds(loaded: seq<Item>, items: seq<Item>, i: nat, j: nat)
    requires multiset(loaded) == multiset(items) && i < j < |items|
    requires forall k, l :: 0 <= k < l < |loaded| ==> Strip(loaded[k].id) != Strip(loaded[l].id)
    ensures Strip(items[i].id) != Strip(items[j].id)
  {
    if items[i] == items[j] {
      SplitTwice(items, i, j);
      var a, b := TwiceIn(loaded, items[i]);
    } else {
      assert items[i] in multiset(loaded) && items[j] in multiset(loaded);
      var a :| 0 <= a < |loaded| && loaded[a] == items[i];
      var b :| 0 <= b < |loaded| && loaded[b] == items[j];
    }
  }

  lemma PermutedAgrees(claims: seq<Claim>, loaded: seq<Item>, items: seq<Item>, expected: map<string, string>)
    requires multiset(loaded) == multiset(items) && Agrees(claims, loaded, expected)
    ensures Agrees(claims, items, expected)
  {
    forall i, j | 0 <= i < j < |items| ensures Strip(items[i].id) != Strip(items[j].id) {
      PermutedIds(loaded, items, i, j);
    }
    forall i | 0 <= i < |items| ensures IsItemOf(items[i], expected) && Matches(claims, items[i]) {
      assert items[i] in multiset(loaded);
      var a :| 0 <= a < |loaded| && loaded[a] == items[i];
    }
    forall id | id in expected ensures exists k :: 0 <= k < |items| && Strip(items[k].id) == id {
      var a :| 0 <= a < |loaded| && Strip(loaded[a].id) == id;
      assert loaded[a] in multiset(items);
      var k :| 0 <= k < |items| && items[k] == loaded[a];
    }
  }

  /* ---- Agreement ---- */

  // The items the reload makes of what the store wrote.
  function Reloaded(r: Run): seq<Item>
    requires forall i :: 0 <= i < |r.Claims()| ==> Catalogued(r.Claims()[i], Catalog(r.sel))
  {
    LoadAll(Store(r.Claims(), |r.Claims()|, r.ToStore()), UsedBy(r.sel))
  }

  lemma AllCatalogued(r: Run)
    requires r.Validated()
    ensures forall i :: 0 <= i < |r.Claims()| ==> Catalogued(r.Claims()[i], Catalog(r.sel))
  {
    forall i | 0 <= i < |r.Claims()| ensures Catalogued(r.Claims()[i], Catalog(r.sel)) {
      LoadedItem(r, i);
    }
  }

  lemma ReloadedItem(r: Run, i: nat)
    requires r.Validated() && i < |r.p.claims|
    requires forall i :: 0 <= i < |r.Claims()| ==> Catalogued(r.Claims()[i], Catalog(r.sel))
    ensures Reloaded(r)[i] == ItemOf(r.Claims()[i], r.Verified(r.Claims()[i]))
  {
    LoadedItem(r, i);
  }

  lemma ClaimsAreDeclared(r: Run)
    requires r.Validated()
    ensures IsDeclared(r.p.claims, Expected(r.p))
  {
    forall i | 0 <= i < |r.p.claims| ensures IsDeclaration(r.p.claims[i], Expected(r.p)) {
      ClaimOf(r, i);
      NormalClaim(r.p.claims[i]);
    }
  }

  lemma ItemAgrees(r: Run, i: nat)
    requires r.Validated() && i < |r.p.claims|
    ensures var item := ItemOf(r.Claims()[i], r.Verified(r.Claims()[i]));
      IsItemOf(item, Expected(r.p)) && Matches(r.p.claims, item) && Strip(item.id) == Strip(r.p.claims[i].id)
  {
    ClaimOf(r, i);
    NormalClaim(r.p.claims[i]);
  }

  lemma ReloadedAgrees(r: Run)
    requires r.Validated()
    requires forall i :: 0 <= i < |r.Claims()| ==> Catalogued(r.Claims()[i], Catalog(r.sel))
    ensures Agrees(r.p.claims, Reloaded(r), Expected(r.p))
  {
    var items := Reloaded(r);
    forall i | 0 <= i < |items|
      ensures IsItemOf(items[i], Expected(r.p)) && Matches(r.p.claims, items[i]) && Strip(items[i].id) == Strip(r.p.claims[i].id)
    {
      ReloadedItem(r, i);
      ItemAgrees(r, i);
    }
    IdsCarryOver(r.p.claims, items, Expected(r.p));
  }

  lemma IdsCarryOver(claims: seq<Claim>, items: seq<Item>, expected: map<string, string>)
    requires |items| == |claims| && forall i :: 0 <= i < |items| ==> Strip(items[i].id) == Strip(claims[i].id)
    requires forall i :: 0 <= i < |items| ==> IsItemOf(items[i], expected) && Matches(claims, items[i])
    requires forall i, j :: 0 <= i < j < |claims| ==> Strip(claims[i].id) != Strip(claims[j].id)
    requires forall id :: id in expected ==> exists i :: 0 <= i < |claims| && Strip(claims[i].id) == id
    ensures Agrees(claims, items, expected)
  {
    forall id | id in expected ensures exists k :: 0 <= k < |items| && Strip(items[k].id) == id {
      var i :| 0 <= i < |claims| && Strip(claims[i].id) == id;
      assert Strip(items[i].id) == id;
    }
  }

  ghost predicate AllExcerpts(r: Run) {
    forall m :: m in r.Claims() ==> HasExcerpts(m, r.evidence, r.factsOf)
  }

  lemma ItemPassesAt(r: Run, i: nat)
    requires r.Sound() && r.Validated() && i < |r.p.claims|
    requires forall i :: 0 <= i < |r.Claims()| ==> Catalogued(r.Claims()[i], Catalog(r.sel))
    ensures ValidItem(Reloaded(r)[i]) <==> HasExcerpts(r.Claims()[i], r.evidence, r.factsOf)
  {
    ReloadedItem(r, i);
    ClaimOf(r, i);
    ResultOf(r, i);
    ItemPasses(r.Claims()[i], r.evidence, r.factsOf, r.sha);
  }

  lemma PermutedValid(loaded: seq<Item>, items: seq<Item>)
    requires multiset(items) == multiset(loaded)
    ensures (forall item :: item in items ==> ValidItem(item)) <==> forall i :: 0 <= i < |loaded| ==> ValidItem(loaded[i])
  {
    forall i | 0 <= i < |loaded| ensures loaded[i] in items {
      assert loaded[i] in multiset(items);
    }
    forall item | item in items ensures exists i :: 0 <= i < |loaded| && loaded[i] == item {
      assert item in multiset(loaded);
    }
  }

  lemma ItemsPass(r: Run, items: seq<Item>)
    requires r.Sound() && r.Validated()
    requires forall i :: 0 <= i < |r.Claims()| ==> Catalogued(r.Claims()[i], Catalog(r.sel))
    requires multiset(items) == multiset(Reloaded(r))
    ensures (forall item :: item in items ==> ValidItem(item)) <==> AllExcerpts(r)
  {
    PermutedValid(Reloaded(r), items);
    ReloadedPass(r);
    ExcerptsByIndex(r);
  }

  lemma ReloadedPass(r: Run)
    requires r.Sound() && r.Validated()
    requires forall i :: 0 <= i < |r.Claims()| ==> Catalogued(r.Claims()[i], Catalog(r.sel))
    ensures (forall i :: 0 <= i < |Reloaded(r)| ==> ValidItem(Reloaded(r)[i])) <==>
      forall i :: 0 <= i < |r.Claims()| ==> HasExcerpts(r.Claims()[i], r.evidence, r.factsOf)
  {
    forall i | 0 <= i < |r.Claims()| ensures ValidItem(Reloaded(r)[i]) <==> HasExcerpts(r.Claims()[i], r.evidence, r.factsOf) {
      ItemPassesAt(r, i);
    }
  }

  lemma ExcerptsByIndex(r: Run)
    ensures AllExcerpts(r) <==> forall i :: 0 <= i < |r.Claims()| ==> HasExcerpts(r.Claims()[i], r.evidence, r.factsOf)
  {
    var claims := r.Claims();
    forall i | 0 <= i < |claims| ensures claims[i] in claims {
    }
    forall m | m in claims ensures exists i :: 0 <= i < |claims| && claims[i] == m {
    }
  }

  // The document of a validated summary is publishable exactly when its texts fit their caps, it
  // still reads like the process, and every cited source that bears on its claim is in the
  // verifier's catalogue with a text to quote.
  lemma ValidatedIsPublishable(r: Run, row: ProcessRow, later: ProcessRow, items: seq<Item>, render: Json -> string)
    requires r.Sound() && r.Validated()
    requires forall i :: 0 <= i < |r.Claims()| ==> Catalogued(r.Claims()[i], Catalog(r.sel))
    requires multiset(items) == multiset(Reloaded(r))
    ensures IsPublishable(Document(r.p, row, render), later, items, render) <==>
      Fits(r.p) && StillReads(row, later, render) && AllExcerpts(r)
  {
    DocumentIsComplete(r, row, items, render);
    DocumentStillReads(r.p, row, later, render);
    ItemsPass(r, items);
  }

  lemma DocumentIsComplete(r: Run, row: ProcessRow, items: seq<Item>, render: Json -> string)
    requires r.Sound() && r.Validated()
    requires forall i :: 0 <= i < |r.Claims()| ==> Catalogued(r.Claims()[i], Catalog(r.sel))
    requires multiset(items) == multiset(Reloaded(r))
    ensures IsComplete(Document(r.p, row, render), items, render) <==> IsDocument(Document(r.p, row, render), render)
  {
    DocumentIsCanonical(r.p, row, render);
    ReadBackAgrees(r, items);
  }

  lemma DocumentStillReads(p: Summary, row: ProcessRow, later: ProcessRow, render: Json -> string)
    requires IsNormal(p)
    ensures Decodes(later) && IsOfProcess(Document(p, row, render), later, render) <==> Fits(p) && StillReads(row, later, render)
    ensures IsOfProcess(Document(p, row, render), later, render) ==> IsDocument(Document(p, row, render), render)
  {
    DocumentIsCanonical(p, row, render);
    DocumentIsOfProcess(p, row, later, render);
  }

  lemma ReadBackAgrees(r: Run, items: seq<Item>)
    requires r.Validated()
    requires forall i :: 0 <= i < |r.Claims()| ==> Catalogued(r.Claims()[i], Catalog(r.sel))
    requires multiset(items) == multiset(Reloaded(r))
    ensures IsDeclared(r.p.claims, Expected(r.p)) && Agrees(r.p.claims, items, Expected(r.p))
  {
    ClaimsAreDeclared(r);
    ReloadedAgrees(r);
    PermutedAgrees(r.p.claims, Reloaded(r), items, Expected(r.p));
  }

  // What the table holds after the rows of one summary were replaced.
  lemma OnlyOneReplaced(before: seq<StoredClaim>, r: Run)
    requires Storable(r.Claims(), r.ToStore())
    ensures var inserted := Store(r.Claims(), |r.Claims()|, r.ToStore());
      forall other :: Of(Others(before, r.summary) + inserted, other) == if other == r.summary then inserted else Of(before, other)
  {
    var inserted := Store(r.Claims(), |r.Claims()|, r.ToStore());
    forall other ensures Of(Others(before, r.summary) + inserted, other) == if other == r.summary then inserted else Of(before, other) {
      LoadedIsStored(before, inserted, r.summary, other);
    }
  }

  // The same, from the table: what Replace stored for the summary and Load returned.
  method Persist(r: Run, table: ClaimTable, row: ProcessRow, later: ProcessRow, render: Json -> string) returns (ok: bool)
    requires r.Sound() && r.Validated()
    modifies table
    ensures ok <==> AllSpans(r) && Fits(r.p) && StillReads(row, later, render) && AllExcerpts(r)
    ensures forall other :: other != r.summary ==> Of(table.rows, other) == Of(old(table.rows), other)
  {
    AllCatalogued(r);
    ValidatedIsStorable(r);
    var stored := table.Replace(r.Claims(), r.ToStore());
    if !stored {
      return false;
    }
    OnlyOneReplaced(old(table.rows), r);
    var items := table.Load(r.summary, UsedBy(r.sel));
    ValidatedIsPublishable(r, row, later, items, render);
    ok := ClaimEvidenceIsPublishable(Document(r.p, row, render), later, items, render);
  }
}
