/** Storing claim evidence and loading it again (replace_summary_claim_evidence and
    load_summary_claim_evidence in app/claim_evidence.py, with the constraints and triggers of
    sql/032_summary_claim_evidence.sql and sql/033_claim_semantic_verification.sql), and the agreement of validator, verifier, store and gate. */
module ClaimEvidence {
  import opened Wrappers
  import opened Text
  import opened SummaryOutput
  import opened MaterialClaims
  import opened ClaimVerification
  import opened PublicationGate

  // A source row with its excerpt row, if there is one.
  datatype StoredSource = StoredSource(
    ref: string, kind: Kind, step: Option<string>, chunk: Option<string>, status: Status, reason: string,
    digest: Option<string>, span: Span, excerpt: Option<string>)

  datatype StoredClaim = StoredClaim(
    summary: nat, version: string, id: string, cls: Option<Class>, text: string, status: Status, reason: string,
    sources: seq<StoredSource>)

  // The steps and chunks recorded as the sources of the summary.
  datatype Used = Used(steps: set<string>, chunks: set<string>)

  function UsedBy(sel: Selection): Used {
    Used(set c | c in sel.steps :: c.uuid, set c | c in sel.chunks :: c.uuid)
  }

  // What the insert trigger demands and the reload filter demands again.
  predicate InScope(s: StoredSource, version: string, used: Used) {
    match s.kind
    case Process => s.step == None && s.chunk == None && s.ref == ProcessRef(version)
    case Movement => s.step.Some? && s.chunk == None && s.ref == MovementRef(s.step.value) && s.step.value in used.steps
    case Attachment => s.step == None && s.chunk.Some? && s.ref == AttachmentRef(s.chunk.value) && s.chunk.value in used.chunks
  }

  // {relation.evidence_ref: relation}
  function RelationFor(relations: seq<Relation>, ref: string): Option<Relation> {
    if relations == [] then None
    else if relations[|relations| - 1].ref == ref then Some(relations[|relations| - 1])
    else RelationFor(relations[..|relations| - 1], ref)
  }

  const NOT_RUN := "semantic_verifier_not_run"

  function StoreSource(ref: string, source: Source, relations: seq<Relation>): StoredSource {
    match RelationFor(relations, ref)
    case None => StoredSource(ref, source.kind, source.step, source.chunk, NotEvaluated, NOT_RUN, None, NoSpan, None)
    case Some(r) => StoredSource(ref, source.kind, source.step, source.chunk, r.status, r.reason, r.digest, r.span,
                                 if r.excerpt == Some("") then None else r.excerpt)
  }

  predicate Catalogued(claim: MaterialClaim, catalog: map<string, Source>) {
    forall i :: 0 <= i < |claim.refs| ==> claim.refs[i] in catalog
  }

  function StoreClaim(summary: nat, version: string, claim: MaterialClaim, catalog: map<string, Source>,
                      results: map<string, Verification>): StoredClaim
    requires Catalogued(claim, catalog)
  {
    var found := claim.id in results;
    var relations := if found then results[claim.id].relations else [];
    StoredClaim(summary, version, claim.id, claim.cls, claim.text,
                if found then results[claim.id].status else NotEvaluated, if found then results[claim.id].reason else NOT_RUN,
                seq(|claim.refs|, i requires 0 <= i < |claim.refs| => StoreSource(claim.refs[i], catalog[claim.refs[i]], relations)))
  }

  // A claim that nobody verified is stored as such, with all its sources.
  lemma UnverifiedIsStored(summary: nat, version: string, claim: MaterialClaim, catalog: map<string, Source>,
                           results: map<string, Verification>)
    requires Catalogued(claim, catalog) && claim.id !in results
    ensures var row := StoreClaim(summary, version, claim, catalog, results);
      && row.status == NotEvaluated && row.reason == "semantic_verifier_not_run" && |row.sources| == |claim.refs|
      && forall s :: s in row.sources ==>
           s.status == NotEvaluated && s.reason == "semantic_verifier_not_run" && s.excerpt == None && s.digest == None
  {
  }

  // trim() of SQL takes away spaces only.
  predicate HasText(s: string) {
    exists i :: 0 <= i < |s| && s[i] != ' '
  }

  predicate IsRange(low: int, start: Option<int>, end: Option<int>) {
    (start == None && end == None) || (start.Some? && end.Some? && low <= start.value <= end.value)
  }

  predicate IsSpan(s: Span) {
    IsRange(1, s.pageStart, s.pageEnd) && IsRange(0, s.charStart, s.charEnd)
  }

  // The column constraints of a source row and of its excerpt row, and the trigger.
  predicate IsInsertableSource(s: StoredSource, version: string, used: Used) {
    && IsRef(s.ref) && InScope(s, version, used) && IsSpan(s.span)
    && (s.digest.Some? ==> IsDigest(s.digest.value)) && s.excerpt != Some("")
  }

  // The row satisfies the column constraints, the primary key and the triggers.
  predicate IsInsertable(row: StoredClaim, used: Used) {
    && HasText(row.id) && row.cls.Some? && HasText(row.text)
    && (forall i, j :: 0 <= i < j < |row.sources| ==> row.sources[i].ref != row.sources[j].ref)
    && forall i :: 0 <= i < |row.sources| ==> IsInsertableSource(row.sources[i], row.version, used)
  }

  // What the constraints and triggers object to in a source.
  predicate IsObjectionable(s: StoredSource, version: string, used: Used) {
    || !IsRef(s.ref) || !InScope(s, version, used)
    || (s.digest.Some? && !IsHex(s.digest.value, 64)) || s.excerpt == Some("")
    || IsBadRange(1, s.span.pageStart, s.span.pageEnd) || IsBadRange(0, s.span.charStart, s.span.charEnd)
  }

  // A claim is refused for a blank identifier or text, for a missing class, for a reference given
  // twice or for one of its sources, and for nothing else.
  lemma RefusedExactly(row: StoredClaim, used: Used)
    ensures !IsInsertable(row, used) <==>
      || row.cls == None
      || (forall k :: 0 <= k < |row.id| ==> row.id[k] == ' ') || (forall k :: 0 <= k < |row.text| ==> row.text[k] == ' ')
      || (exists i, j :: 0 <= i < j < |row.sources| && row.sources[i].ref == row.sources[j].ref)
      || (exists i :: 0 <= i < |row.sources| && IsObjectionable(row.sources[i], row.version, used))
  {
    forall i | 0 <= i < |row.sources|
      ensures IsInsertableSource(row.sources[i], row.version, used) <==> !IsObjectionable(row.sources[i], row.version, used)
    {
    }
  }

  // One end without the other, a start below the least value, or an end before the start.
  predicate IsBadRange(low: int, start: Option<int>, end: Option<int>) {
    match (start, end)
    case (None, None) => false
    case (Some(a), Some(b)) => a < low || b < a
    case _ => true
  }

  // What the rows of a summary are made from.
  datatype Batch = Batch(
    summary: nat, version: string, catalog: map<string, Source>, results: map<string, Verification>, used: Used)

  predicate CanStore(claim: MaterialClaim, b: Batch) {
    Catalogued(claim, b.catalog) && IsInsertable(StoreClaim(b.summary, b.version, claim, b.catalog, b.results), b.used)
  }

  // The first n claims have different identifiers and can all be stored.
  predicate StorableSoFar(claims: seq<MaterialClaim>, n: nat, b: Batch)
    requires n <= |claims|
  {
    && (forall i, j :: 0 <= i < j < n ==> claims[i].id != claims[j].id)
    && forall i :: 0 <= i < n ==> CanStore(claims[i], b)
  }

  predicate Storable(claims: seq<MaterialClaim>, b: Batch) {
    StorableSoFar(claims, |claims|, b)
  }

  function Store(claims: seq<MaterialClaim>, n: nat, b: Batch): seq<StoredClaim>
    requires n <= |claims| && forall i :: 0 <= i < n ==> Catalogued(claims[i], b.catalog)
  {
    seq(n, i requires 0 <= i < n => StoreClaim(b.summary, b.version, claims[i], b.catalog, b.results))
  }

  lemma StorableStep(claims: seq<MaterialClaim>, n: nat, b: Batch)
    requires n < |claims| && StorableSoFar(claims, n, b)
    ensures StorableSoFar(claims, n + 1, b) <==> CanStore(claims[n], b) && forall k :: 0 <= k < n ==> claims[k].id != claims[n].id
    ensures Storable(claims, b) ==> StorableSoFar(claims, n + 1, b)
  {
  }

  lemma StoreStep(claims: seq<MaterialClaim>, n: nat, b: Batch)
    requires n < |claims| && forall i :: 0 <= i <= n ==> Catalogued(claims[i], b.catalog)
    ensures Store(claims, n + 1, b) == Store(claims, n, b) + [StoreClaim(b.summary, b.version, claims[n], b.catalog, b.results)]
  {
  }

  function Others(rows: seq<StoredClaim>, summary: nat): seq<StoredClaim> {
    if rows == [] then []
    else
      var last := rows[|rows| - 1];
      Others(rows[..|rows| - 1], summary) + if last.summary == summary then [] else [last]
  }

  function Of(rows: seq<StoredClaim>, summary: nat): seq<StoredClaim> {
    if rows == [] then []
    else
      var last := rows[|rows| - 1];
      Of(rows[..|rows| - 1], summary) + if last.summary == summary then [last] else []
  }

  /* ---- Loading ---- */

  function Kept(sources: seq<StoredSource>, version: string, used: Used): seq<StoredSource> {
    if sources == [] then []
    else
      var last := sources[|sources| - 1];
      Kept(sources[..|sources| - 1], version, used) + if InScope(last, version, used) then [last] else []
  }

  function LoadItem(row: StoredClaim, used: Used): Item {
    var kept := Kept(row.sources, row.version, used);
    Item(row.id, row.cls, row.text, seq(|kept|, i requires 0 <= i < |kept| => kept[i].ref), row.status, Some(row.reason),
         seq(|kept|, i requires 0 <= i < |kept| => ItemSource(kept[i].ref, kept[i].status, Some(kept[i].reason), kept[i].digest, kept[i].span)))
  }

  function LoadAll(rows: seq<StoredClaim>, used: Used): seq<Item> {
    seq(|rows|, i requires 0 <= i < |rows| => LoadItem(rows[i], used))
  }

  // The rows inserted one by one, unless one of them breaks a constraint.
  method InsertableRows(claims: seq<MaterialClaim>, b: Batch) returns (rows: Option<seq<StoredClaim>>)
    ensures rows.Some? <==> Storable(claims, b)
    ensures rows.Some? ==> rows.value == Store(claims, |claims|, b)
  {
    var stored: seq<StoredClaim>, i := [], 0;
    while i < |claims|
      invariant 0 <= i <= |claims|
      invariant StorableSoFar(claims, i, b)
      invariant stored == Store(claims, i, b)
    {
      StorableStep(claims, i, b);
      if !CanStore(claims[i], b) || (exists k :: 0 <= k < i && claims[k].id == claims[i].id) {
        return None;
      }
      StoreStep(claims, i, b);
      stored := stored + [StoreClaim(b.summary, b.version, claims[i], b.catalog, b.results)];
      i := i + 1;
    }
    return Some(stored);
  }

  class ClaimTable {
    var rows: seq<StoredClaim>

    // The old rows of the summary are deleted and the new ones inserted; an exception on the way
    // takes the whole transaction back.
    method Replace(claims: seq<MaterialClaim>, b: Batch) returns (ok: bool)
      modifies this
      ensures ok <==> Storable(claims, b)
      ensures ok ==> rows == Others(old(rows), b.summary) + Store(claims, |claims|, b)
      ensures !ok ==> rows == old(rows)
    {
      var before := rows;
      rows := Others(before, b.summary);
      var stored := InsertableRows(claims, b);
      if stored.None? {
        rows := before;
        return false;
      }
      rows := rows + stored.value;
      return true;
    }

    // The database returns the items ordered by claim identifier; nothing here depends on it.
    method Load(summary: nat, used: Used) returns (items: seq<Item>)
      ensures multiset(items) == multiset(LoadAll(Of(rows, summary), used))
    {
      items := [];
      var i := 0;
      while i < |rows|
        invariant 0 <= i <= |rows|
        invariant items == LoadAll(Of(rows[..i], summary), used)
      {
        assert rows[..i + 1][..i] == rows[..i];
        if rows[i].summary == summary {
          items := items + [LoadItem(rows[i], used)];
        }
        i := i + 1;
      }
      assert rows[..i] == rows;
    }
  }

  lemma OfSnoc(rows: seq<StoredClaim>, last: StoredClaim, summary: nat)
    ensures Of(rows + [last], summary) == Of(rows, summary) + if last.summary == summary then [last] else []
  {
    assert (rows + [last])[..|rows|] == rows;
  }

  lemma {:induction false} OfOthers(rows: seq<StoredClaim>, summary: nat, other: nat)
    ensures Of(Others(rows, summary), other) == if other == summary then [] else Of(rows, other)
  {
    if rows != [] {
      var front, last := rows[..|rows| - 1], rows[|rows| - 1];
      OfOthers(front, summary, other);
      OfSnoc(Others(front, summary), last, other);
      assert Others(front, summary) + [] == Others(front, summary);
      assert Of(front, other) + [] == Of(front, other);
    }
  }

  lemma {:induction false} OfTogether(a: seq<StoredClaim>, b: seq<StoredClaim>, summary: nat)
    ensures Of(a + b, summary) == Of(a, summary) + Of(b, summary)
  {
    if b == [] {
      assert a + b == a;
    } else {
      var front, last := b[..|b| - 1], b[|b| - 1];
      OfTogether(a, front, summary);
      OfSnoc(a + front, last, summary);
      assert a + b == a + front + [last];
    }
  }

  lemma {:induction false} OfStored(stored: seq<StoredClaim>, summary: nat, other: nat)
    requires forall r :: r in stored ==> r.summary == summary
    ensures Of(stored, other) == if other == summary then stored else []
  {
    if stored != [] {
      OfStored(stored[..|stored| - 1], summary, other);
      assert stored[|stored| - 1] in stored;
    }
  }

  // What was stored is what is loaded, and other summaries keep their rows.
  lemma LoadedIsStored(rows: seq<StoredClaim>, stored: seq<StoredClaim>, summary: nat, other: nat)
    requires forall r :: r in stored ==> r.summary == summary
    ensures Of(Others(rows, summary) + stored, other) == if other == summary then stored else Of(rows, other)
  {
    OfOthers(rows, summary, other);
    OfTogether(Others(rows, summary), stored, other);
    OfStored(stored, summary, other);
  }
}
