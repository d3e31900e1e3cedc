/** app/processes.py and app/process_semantics.py: staged versions, finalization and promotion.

    The fingerprint is a hash of the semantic document and is taken to be injective, so documents
    are compared instead.  Values that only travel (header, parties and so on) are strings. */
module VersionStore {
  import opened Wrappers

  type VersionId = nat

  // A movement or an attachment: its number or identifier, the part that enters the semantic
  // document and the part that does not.
  datatype Item = Item(key: int, semantics: string, extra: string)

  datatype Fields = Fields(
    court: string, className: string, subjects: string, parties: string,
    representatives: string, secrecy: int, header: string)

  // The arguments finalize_version receives.
  datatype Content = Content(fields: Fields, steps: seq<Item>, attachments: seq<Item>)

  // semantic_document
  datatype Document = Document(fields: Fields, steps: seq<(int, string)>, attachments: seq<(int, string)>)

  function Semantics(items: seq<Item>): seq<(int, string)> {
    seq(|items|, i requires 0 <= i < |items| => (items[i].key, items[i].semantics))
  }

  function SemanticDocument(c: Content): Document {
    Document(c.fields, Semantics(c.steps), Semantics(c.attachments))
  }

  /* ---- Item tables ---- */

  // The rows after inserting items in order; an item whose key was seen is skipped.
  function Table(items: seq<Item>): map<int, Item> {
    if items == [] then map[]
    else
      var front, last := Table(items[..|items| - 1]), items[|items| - 1];
      if last.key in front then front else front[last.key := last]
  }

  // Of several items with one key the first is kept.
  lemma {:induction false} TableKeepsFirst(items: seq<Item>, i: nat)
    requires i < |items|
    ensures items[i].key in Table(items)
    ensures (forall j :: 0 <= j < i ==> items[j].key != items[i].key) ==> Table(items)[items[i].key] == items[i]
  {
    var n := |items| - 1;
    if i < n {
      TableKeepsFirst(items[..n], i);
    } else if items[n].key in Table(items[..n]) {
      TableHasKeys(items[..n], items[n].key);
    }
  }

  lemma {:induction false} TableHasKeys(items: seq<Item>, k: int)
    requires k in Table(items)
    ensures exists i :: 0 <= i < |items| && items[i].key == k
  {
    var n := |items| - 1;
    if k in Table(items[..n]) {
      TableHasKeys(items[..n], k);
      var i :| 0 <= i < n && items[..n][i].key == k;
      assert items[i].key == k;
    } else {
      assert items[n].key == k;
    }
  }

  ghost predicate Keyed(m: map<int, Item>) {
    forall k :: k in m ==> m[k].key == k
  }

  predicate Increasing(items: seq<Item>) {
    forall i, j :: 0 <= i < j < |items| ==> items[i].key < items[j].key
  }

  lemma {:induction false} TableIsKeyed(items: seq<Item>)
    ensures Keyed(Table(items))
  {
    if items != [] {
      TableIsKeyed(items[..|items| - 1]);
    }
  }

  // The keys of an ordered list stay below any later key.
  lemma {:induction false} TableBelow(items: seq<Item>, bound: int)
    requires forall i :: 0 <= i < |items| ==> items[i].key < bound
    ensures forall k :: k in Table(items) ==> k < bound
  {
    if items != [] {
      TableBelow(items[..|items| - 1], bound);
    }
  }

  ghost predicate IsLargest(m: map<int, Item>, k: int) {
    k in m && forall j :: j in m ==> j <= k
  }

  lemma SomeKey(m: map<int, Item>) returns (a: int)
    requires m != map[]
    ensures a in m
  {
    assert m.Items != {};
    var entry :| entry in m.Items;
    a := entry.0;
  }

  lemma {:induction false} LargestExists(m: map<int, Item>)
    requires m != map[]
    ensures exists k :: IsLargest(m, k)
    decreases |m|
  {
    var a := SomeKey(m);
    var rest := m - {a};
    if rest == map[] {
      assert forall j :: j in m ==> j == a || j in rest;
      assert IsLargest(m, a);
    } else {
      LargestExists(rest);
      var b :| IsLargest(rest, b);
      assert forall j :: j in m ==> j == a || j in rest;
      assert IsLargest(m, if a < b then b else a);
    }
  }

  ghost function Largest(m: map<int, Item>): (k: int)
    requires m != map[]
    ensures IsLargest(m, k)
  {
    LargestExists(m);
    var k :| IsLargest(m, k);
    k
  }

  // ORDER BY the key.
  ghost function Sorted(m: map<int, Item>): seq<Item>
    decreases |m|
  {
    if m == map[] then []
    else Sorted(m - {Largest(m)}) + [m[Largest(m)]]
  }

  lemma {:induction false} SortedIsIncreasing(m: map<int, Item>)
    requires Keyed(m)
    ensures Increasing(Sorted(m))
    ensures forall i :: 0 <= i < |Sorted(m)| ==> Sorted(m)[i].key in m
    decreases |m|
  {
    if m != map[] {
      SortedIsIncreasing(m - {Largest(m)});
    }
  }

  // Reading back what was inserted gives the same items exactly when they were in order.
  lemma {:induction false} SortedTable(items: seq<Item>)
    ensures Sorted(Table(items)) == items <==> Increasing(items)
  {
    TableIsKeyed(items);
    SortedIsIncreasing(Table(items));
    if Increasing(items) && items != [] {
      var front, last := items[..|items| - 1], items[|items| - 1];
      SortedTable(front);
      TableBelow(front, last.key);
      var m := Table(items);
      assert m - {last.key} == Table(front);
      assert IsLargest(m, last.key);
      assert Largest(m) == last.key;
      assert front + [last] == items;
    }
  }

  /* ---- Rows ---- */

  datatype Version = Version(
    code: string, source: string, request: string, cached: bool, payload: Content, created: int,
    finalized: bool, equivalentTo: Option<VersionId>, steps: map<int, Item>, manifest: map<int, Item>)

  datatype Process = Process(fields: Fields, current: Option<VersionId>)

  // `promoted` is a history variable: the versions that ever became current.
  datatype Store = Store(processes: map<string, Process>, versions: map<VersionId, Version>, promoted: set<VersionId>)

  const NoFields := Fields("", "", "", "", "", 0, "")

  predicate Matches(v: Version, code: string, source: string) {
    v.code == code && v.source == source
  }

  predicate Staged(versions: map<VersionId, Version>, code: string, source: string) {
    exists id :: id in versions && Matches(versions[id], code, source)
  }

  /* ---- stage_version ---- */

  // A redelivery rewrites the source of a version that is not finalized.
  function Restaged(v: Version, request: string, cached: bool, payload: Content): Version {
    if v.finalized then v else v.(request := request, cached := cached, payload := payload)
  }

  function WithProcess(processes: map<string, Process>, code: string): map<string, Process> {
    if code in processes then processes else processes[code := Process(NoFields, None)]
  }

  function StageVersion(s: Store, id: VersionId, code: string, source: string, request: string, cached: bool,
                        payload: Content, now: int): Store {
    s.(processes := WithProcess(s.processes, code),
       versions := if Staged(s.versions, code, source)
         then map v | v in s.versions ::
                if Matches(s.versions[v], code, source) then Restaged(s.versions[v], request, cached, payload) else s.versions[v]
         else s.versions[id := Version(code, source, request, cached, payload, now, false, None, map[], map[])])
  }

  // The same response staged again changes nothing.
  lemma StageAgain(s: Store, id: VersionId, code: string, source: string, request: string, cached: bool, payload: Content, now: int)
    requires Staged(s.versions, code, source) && code in s.processes
    requires forall v :: v in s.versions && Matches(s.versions[v], code, source) ==>
      s.versions[v].request == request && s.versions[v].cached == cached && s.versions[v].payload == payload
    ensures StageVersion(s, id, code, source, request, cached, payload, now) == s
  {
    var after := StageVersion(s, id, code, source, request, cached, payload, now);
    forall v | v in s.versions ensures after.versions[v] == s.versions[v] {
    }
    assert after.versions == s.versions;
  }

  /* ---- finalize_version ---- */

  // _current_semantic_fingerprint: the process row and the stored rows of its current version.
  ghost function Reread(s: Store, code: string, current: VersionId): Document
    requires code in s.processes && current in s.versions
  {
    var v := s.versions[current];
    SemanticDocument(Content(s.processes[code].fields, Sorted(v.steps), Sorted(v.manifest)))
  }

  ghost predicate Unchanged(s: Store, code: string, c: Content) {
    && code in s.processes && s.processes[code].current.Some? && s.processes[code].current.value in s.versions
    && Reread(s, code, s.processes[code].current.value) == SemanticDocument(c)
  }

  predicate Promotes(s: Store, id: VersionId)
    requires id in s.versions && s.versions[id].code in s.processes
  {
    var current := s.processes[s.versions[id].code].current;
    current.Some? && current.value in s.versions ==> s.versions[id].created >= s.versions[current.value].created
  }

  ghost function FinalizeVersion(s: Store, id: VersionId, c: Content): Store
    requires id in s.versions && s.versions[id].code in s.processes
  {
    var v := s.versions[id];
    var process := s.processes[v.code];
    if v.finalized then s
    else if Unchanged(s, v.code, c) then
      s.(versions := s.versions[id := v.(
        finalized := true, equivalentTo := process.current, manifest := v.manifest + Table(c.attachments))])
    else
      var stored := s.(versions := s.versions[id := v.(
        finalized := true, equivalentTo := None, steps := Table(c.steps), manifest := v.manifest + Table(c.attachments))]);
      if Promotes(s, id)
      then stored.(processes := s.processes[v.code := Process(c.fields, Some(id))], promoted := s.promoted + {id})
      else stored
  }

  // Finalizing touches only the finalization of the version.
  ghost predicate SameSources(a: Store, b: Store) {
    && a.versions.Keys == b.versions.Keys
    && forall id :: id in a.versions ==>
         b.versions[id] == a.versions[id].(finalized := b.versions[id].finalized, equivalentTo := b.versions[id].equivalentTo,
                                           steps := b.versions[id].steps, manifest := b.versions[id].manifest)
  }

  lemma FinalizeTouchesOne(s: Store, id: VersionId, c: Content)
    requires id in s.versions && s.versions[id].code in s.processes
    ensures var t := FinalizeVersion(s, id, c);
      t.versions.Keys == s.versions.Keys && forall v :: v in s.versions && v != id ==> t.versions[v] == s.versions[v]
  {
  }

  lemma FinalizeMarks(s: Store, id: VersionId, c: Content)
    requires id in s.versions && s.versions[id].code in s.processes
    ensures var t := FinalizeVersion(s, id, c); id in t.versions && var v := t.versions[id];
      v.finalized && v == s.versions[id].(finalized := true, equivalentTo := v.equivalentTo, steps := v.steps, manifest := v.manifest)
  {
  }

  lemma FinalizeKeepsSources(s: Store, id: VersionId)
    requires id in s.versions && s.versions[id].code in s.processes
    ensures SameSources(s, FinalizeVersion(s, id, s.versions[id].payload))
  {
    FinalizeTouchesOne(s, id, s.versions[id].payload);
    FinalizeMarks(s, id, s.versions[id].payload);
  }

  /* ---- What the semantic document sees ---- */

  predicate SameItems(a: seq<Item>, b: seq<Item>) {
    |a| == |b| && forall i :: 0 <= i < |a| ==> a[i].key == b[i].key && a[i].semantics == b[i].semantics
  }

  // Equal fields, and movements and attachments that agree one by one in what has a meaning.
  predicate SameMeaning(a: Content, b: Content) {
    a.fields == b.fields && SameItems(a.steps, b.steps) && SameItems(a.attachments, b.attachments)
  }

  lemma SemanticsMean(a: seq<Item>, b: seq<Item>)
    ensures Semantics(a) == Semantics(b) <==> SameItems(a, b)
  {
    if Semantics(a) == Semantics(b) {
      assert |a| == |Semantics(a)| == |Semantics(b)| == |b|;
      forall i | 0 <= i < |a| ensures a[i].key == b[i].key && a[i].semantics == b[i].semantics {
        assert Semantics(a)[i] == Semantics(b)[i];
      }
    }
  }

  lemma DocumentMeans(a: Content, b: Content)
    ensures SemanticDocument(a) == SemanticDocument(b) <==> SameMeaning(a, b)
  {
    SemanticsMean(a.steps, b.steps);
    SemanticsMean(a.attachments, b.attachments);
  }

  function Keys(items: seq<Item>): set<int> {
    set i | 0 <= i < |items| :: items[i].key
  }

  // The rows are those of the items, which come in key order.
  predicate Listed(m: map<int, Item>, items: seq<Item>) {
    && Increasing(items) && m.Keys == Keys(items)
    && forall i :: 0 <= i < |items| ==> m[items[i].key].semantics == items[i].semantics
  }

  lemma {:induction false} SortedIsAll(m: map<int, Item>)
    requires Keyed(m)
    ensures Keys(Sorted(m)) == m.Keys && forall i :: 0 <= i < |Sorted(m)| ==> m[Sorted(m)[i].key] == Sorted(m)[i]
    decreases |m|
  {
    if m != map[] {
      var k := Largest(m);
      var front := Sorted(m - {k});
      SortedIsAll(m - {k});
      KeysTogether(front, m[k]);
      forall i | 0 <= i < |front| ensures m[front[i].key] == front[i] {
        assert front[i].key in Keys(front);
      }
    }
  }

  lemma KeysTogether(front: seq<Item>, last: Item)
    ensures Keys(front + [last]) == Keys(front) + {last.key}
  {
    var all := front + [last];
    assert all[|front|] == last;
    forall i | 0 <= i < |front| ensures front[i].key in Keys(all) {
      assert all[i] == front[i];
    }
  }

  // Two lists in key order with the same keys have them at the same places.
  lemma {:induction false} SameKeysInOrder(a: seq<Item>, b: seq<Item>)
    requires Increasing(a) && Increasing(b) && Keys(a) == Keys(b)
    ensures |a| == |b| && forall i :: 0 <= i < |a| ==> a[i].key == b[i].key
  {
    if a == [] {
      NoKeys(b);
    } else {
      assert a[0].key in Keys(b);
      var m, n := |a| - 1, |b| - 1;
      LastIsLargest(a, b[n].key);
      LastIsLargest(b, a[m].key);
      KeysOfFront(a);
      KeysOfFront(b);
      SameKeysInOrder(a[..m], b[..n]);
    }
  }

  lemma NoKeys(items: seq<Item>)
    ensures Keys(items) == {} <==> items == []
  {
    if items != [] {
      assert items[0].key in Keys(items);
    }
  }

  lemma LastIsLargest(items: seq<Item>, k: int)
    requires Increasing(items) && k in Keys(items)
    ensures k <= items[|items| - 1].key
  {
  }

  lemma KeysOfFront(a: seq<Item>)
    requires a != [] && Increasing(a)
    ensures Keys(a[..|a| - 1]) == Keys(a) - {a[|a| - 1].key}
  {
    var front := a[..|a| - 1];
    forall i | 0 <= i < |front| ensures a[i].key in Keys(front) {
      assert front[i].key == a[i].key;
    }
    forall i | 0 <= i < |front| ensures front[i].key in Keys(a) && front[i].key != a[|a| - 1].key {
      assert front[i] == a[i];
    }
  }

  lemma ReadBackIsListed(m: map<int, Item>, items: seq<Item>)
    requires Keyed(m)
    ensures SameItems(Sorted(m), items) <==> Listed(m, items)
  {
    var back := Sorted(m);
    SortedIsIncreasing(m);
    SortedIsAll(m);
    if SameItems(back, items) {
      SameKeysOf(back, items);
    }
    if Listed(m, items) {
      SameKeysInOrder(back, items);
    }
  }

  lemma SameKeysOf(a: seq<Item>, b: seq<Item>)
    requires SameItems(a, b)
    ensures Keys(a) == Keys(b) && (Increasing(a) ==> Increasing(b))
  {
    forall i | 0 <= i < |a| ensures a[i].key in Keys(b) && b[i].key in Keys(a) {
    }
  }

  // The process row holds the fields, and the rows of its current version are the movements and the
  // attachments.
  ghost predicate Holds(s: Store, code: string, c: Content) {
    && code in s.processes && s.processes[code].fields == c.fields
    && s.processes[code].current.Some? && s.processes[code].current.value in s.versions
    && var v := s.versions[s.processes[code].current.value]; Listed(v.steps, c.steps) && Listed(v.manifest, c.attachments)
  }

  // Exactly then the content counts as unchanged.
  lemma UnchangedMeans(s: Store, code: string, c: Content)
    requires Good(s)
    ensures Unchanged(s, code, c) <==> Holds(s, code, c)
  {
    assert GoodProcess(s, code);
    if code in s.processes && s.processes[code].current.Some? {
      var v := s.versions[s.processes[code].current.value];
      assert GoodVersion(s, v);
      TableIsKeyed(v.payload.steps);
      TableIsKeyed(v.payload.attachments);
      DocumentMeans(Content(s.processes[code].fields, Sorted(v.steps), Sorted(v.manifest)), c);
      ReadBackIsListed(v.steps, c.steps);
      ReadBackIsListed(v.manifest, c.attachments);
    }
  }

  lemma SameRows(m: map<int, Item>, a: seq<Item>, b: seq<Item>)
    requires Listed(m, a)
    ensures Listed(m, b) <==> SameItems(a, b)
  {
    if Listed(m, b) {
      SameKeysInOrder(a, b);
    }
    if SameItems(a, b) {
      forall i | 0 <= i < |a| ensures a[i].key in Keys(b) && b[i].key in Keys(a) {
      }
      assert Keys(a) == Keys(b);
    }
  }

  // Of one content that is held, just the contents with the same meaning are held too.
  lemma HeldTogether(s: Store, code: string, a: Content, b: Content)
    requires Holds(s, code, a)
    ensures Holds(s, code, b) <==> SameMeaning(a, b)
  {
    var v := s.versions[s.processes[code].current.value];
    SameRows(v.steps, a.steps, b.steps);
    SameRows(v.manifest, a.attachments, b.attachments);
  }

  // The payload of the current version is held, if it was listed in key order.
  lemma CurrentIsHeld(s: Store, code: string)
    requires Good(s) && code in s.processes && s.processes[code].current.Some? && s.processes[code].current.value in s.versions
    requires var c := s.versions[s.processes[code].current.value].payload; Increasing(c.steps) && Increasing(c.attachments)
    ensures Holds(s, code, s.versions[s.processes[code].current.value].payload)
  {
    var v := s.versions[s.processes[code].current.value];
    assert GoodProcess(s, code) && GoodVersion(s, v);
    TableIsListed(v.payload.steps);
    TableIsListed(v.payload.attachments);
  }

  lemma TableIsListed(items: seq<Item>)
    requires Increasing(items)
    ensures Listed(Table(items), items)
  {
    TableIsKeyed(items);
    SortedTable(items);
    ReadBackIsListed(Table(items), items);
  }

  // A version that counts as equivalent to another has its fields, movements and attachments.
  lemma EquivalentHolds(s: Store, id: VersionId)
    requires Good(s) && id in s.versions && s.versions[id].equivalentTo.Some?
    ensures var v := s.versions[id];
      && v.equivalentTo.value in s.versions
      && var t := s.versions[v.equivalentTo.value];
      && t.payload.fields == v.payload.fields
      && Listed(t.steps, v.payload.steps) && Listed(t.manifest, v.payload.attachments)
  {
    assert GoodVersion(s, s.versions[id]);
    var v, t := s.versions[id], s.versions[s.versions[id].equivalentTo.value];
    assert GoodVersion(s, t);
    TableIsKeyed(t.payload.steps);
    TableIsKeyed(t.payload.attachments);
    DocumentMeans(Stored(t), v.payload);
    ReadBackIsListed(t.steps, v.payload.steps);
    ReadBackIsListed(t.manifest, v.payload.attachments);
  }

  /* ---- What every store satisfies ---- */

  // The content a finalized version was stored with, as it is read back.
  ghost function Stored(v: Version): Content {
    Content(v.payload.fields, Sorted(v.steps), Sorted(v.manifest))
  }

  ghost predicate GoodVersion(s: Store, v: Version) {
    && v.code in s.processes
    && (!v.finalized ==> v.equivalentTo == None && v.steps == map[] && v.manifest == map[])
    && (v.finalized && v.equivalentTo == None ==>
         v.steps == Table(v.payload.steps) && v.manifest == Table(v.payload.attachments))
    && (v.equivalentTo.Some? ==>
         && v.equivalentTo.value in s.versions && v.equivalentTo.value in s.promoted
         && var target := s.versions[v.equivalentTo.value];
         && target.finalized && target.equivalentTo == None && target.code == v.code
         && SemanticDocument(Stored(target)) == SemanticDocument(v.payload))
  }

  // The process row is the content of its current version, a finalized, promoted one.
  ghost predicate GoodProcess(s: Store, code: string) {
    code in s.processes && s.processes[code].current.Some? ==>
      && s.processes[code].current.value in s.versions && s.processes[code].current.value in s.promoted
      && var v := s.versions[s.processes[code].current.value];
      && v.code == code && v.finalized && v.equivalentTo == None
      && s.processes[code].fields == v.payload.fields
  }

  // UNIQUE (process_id, source_request_id)
  ghost predicate SourcesDiffer(s: Store) {
    forall a, b :: a in s.versions && b in s.versions && a != b ==>
      s.versions[a].code != s.versions[b].code || s.versions[a].source != s.versions[b].source
  }

  ghost predicate Good(s: Store) {
    && (forall id :: id in s.versions ==> GoodVersion(s, s.versions[id]))
    && (forall code :: GoodProcess(s, code))
    && SourcesDiffer(s)
    && s.promoted <= s.versions.Keys
  }

  const Start := Store(map[], map[], {})

  lemma StageKeepsVersions(s: Store, id: VersionId, code: string, source: string, request: string, cached: bool, payload: Content, now: int)
    requires Good(s) && id !in s.versions
    ensures var s' := StageVersion(s, id, code, source, request, cached, payload, now);
      forall v :: v in s'.versions ==> GoodVersion(s', s'.versions[v])
  {
    var s' := StageVersion(s, id, code, source, request, cached, payload, now);
    forall v | v in s'.versions ensures GoodVersion(s', s'.versions[v]) {
      if v in s.versions {
        assert GoodVersion(s, s.versions[v]);
        if s.versions[v].equivalentTo.Some? {
          var t := s.versions[v].equivalentTo.value;
          assert s'.versions[t] == s.versions[t];
          assert s'.versions[v] == s.versions[v];
        }
      }
    }
  }

  lemma StageKeepsSources(s: Store, id: VersionId, code: string, source: string, request: string, cached: bool, payload: Content, now: int)
    requires SourcesDiffer(s) && id !in s.versions
    ensures SourcesDiffer(StageVersion(s, id, code, source, request, cached, payload, now))
  {
    var s' := StageVersion(s, id, code, source, request, cached, payload, now);
    forall v | v in s.versions
      ensures v in s'.versions && s'.versions[v].code == s.versions[v].code && s'.versions[v].source == s.versions[v].source
    {
    }
    if !Staged(s.versions, code, source) {
      forall v | v in s.versions ensures !Matches(s.versions[v], code, source) {
      }
    }
  }

  lemma StageKeepsGood(s: Store, id: VersionId, code: string, source: string, request: string, cached: bool, payload: Content, now: int)
    requires Good(s) && id !in s.versions
    ensures Good(StageVersion(s, id, code, source, request, cached, payload, now))
  {
    var s' := StageVersion(s, id, code, source, request, cached, payload, now);
    StageKeepsVersions(s, id, code, source, request, cached, payload, now);
    StageKeepsSources(s, id, code, source, request, cached, payload, now);
    forall c ensures GoodProcess(s', c) {
      assert GoodProcess(s, c);
    }
  }

  // The version being finalized.
  lemma FinalizeKeepsThis(s: Store, id: VersionId)
    requires Good(s) && id in s.versions
    ensures var s' := FinalizeVersion(s, id, s.versions[id].payload);
      id in s'.versions && GoodVersion(s', s'.versions[id])
  {
    var s' := FinalizeVersion(s, id, s.versions[id].payload);
    var v := s.versions[id];
    assert GoodVersion(s, v) && GoodProcess(s, v.code);
    assert map[] + Table(v.payload.attachments) == Table(v.payload.attachments);
    if !v.finalized && Unchanged(s, v.code, v.payload) {
      var t := s.processes[v.code].current.value;
      assert GoodVersion(s, s.versions[t]);
      assert s'.versions[t] == s.versions[t];
    }
  }

  lemma FinalizeKeepsOther(s: Store, id: VersionId, other: VersionId)
    requires Good(s) && id in s.versions && other in s.versions && other != id
    ensures var s' := FinalizeVersion(s, id, s.versions[id].payload);
      s'.versions[other] == s.versions[other] && GoodVersion(s', s'.versions[other])
  {
    assert GoodVersion(s, s.versions[other]) && GoodVersion(s, s.versions[id]);
  }

  lemma FinalizeKeepsVersions(s: Store, id: VersionId)
    requires Good(s) && id in s.versions
    ensures var s' := FinalizeVersion(s, id, s.versions[id].payload);
      forall v :: v in s'.versions ==> GoodVersion(s', s'.versions[v])
  {
    assert GoodVersion(s, s.versions[id]);
    var s' := FinalizeVersion(s, id, s.versions[id].payload);
    FinalizeKeepsThis(s, id);
    forall v | v in s'.versions ensures GoodVersion(s', s'.versions[v]) {
      if v != id {
        FinalizeKeepsOther(s, id, v);
      }
    }
  }

  lemma SameSourcesDiffer(a: Store, b: Store)
    requires SameSources(a, b) && SourcesDiffer(a)
    ensures SourcesDiffer(b)
  {
  }

  lemma FinalizeKeepsGood(s: Store, id: VersionId)
    requires Good(s) && id in s.versions
    ensures Good(FinalizeVersion(s, id, s.versions[id].payload))
  {
    var s' := FinalizeVersion(s, id, s.versions[id].payload);
    assert GoodVersion(s, s.versions[id]);
    FinalizeKeepsVersions(s, id);
    FinalizeKeepsSources(s, id);
    SameSourcesDiffer(s, s');
    forall c ensures GoodProcess(s', c) {
      assert GoodProcess(s, c);
    }
  }

  // Staging a known source rewrites the version as long as it is not finalized, and nothing else.
  lemma StagedAgain(s: Store, id: VersionId, code: string, source: string, request: string, cached: bool, payload: Content,
                    now: int, v: VersionId)
    requires v in s.versions && Staged(s.versions, code, source)
    ensures var t := StageVersion(s, id, code, source, request, cached, payload, now);
      && t.versions.Keys == s.versions.Keys
      && t.versions[v] ==
           if s.versions[v].code == code && s.versions[v].source == source && !s.versions[v].finalized
           then s.versions[v].(request := request, cached := cached, payload := payload) else s.versions[v]
  {
  }

  // A new source adds a version that is neither finalized nor current.
  lemma StagedNew(s: Store, id: VersionId, code: string, source: string, request: string, cached: bool, payload: Content, now: int)
    requires id !in s.versions
    requires forall v :: v in s.versions ==> !(s.versions[v].code == code && s.versions[v].source == source)
    ensures var t := StageVersion(s, id, code, source, request, cached, payload, now);
      && t.versions == s.versions[id := Version(code, source, request, cached, payload, now, false, None, map[], map[])]
      && t.processes == if code in s.processes then s.processes
                        else s.processes[code := Process(Fields("", "", "", "", "", 0, ""), None)]
  {
  }

  /* ---- Whole runs ---- */

  datatype Event =
    | Stage(id: VersionId, code: string, source: string, request: string, cached: bool, payload: Content, now: int)
    | Finalize(id: VersionId)

  ghost predicate CanStep(s: Store, e: Event) {
    match e
    case Stage(id, _, _, _, _, _, _) => id !in s.versions
    case Finalize(id) => id in s.versions
  }

  ghost function Step(s: Store, e: Event): Store {
    match e
    case Stage(id, code, source, request, cached, payload, now) =>
      StageVersion(s, id, code, source, request, cached, payload, now)
    case Finalize(id) =>
      if id in s.versions && s.versions[id].code in s.processes
      then FinalizeVersion(s, id, s.versions[id].payload) else s
  }

  ghost predicate IsRun(s: Store, es: seq<Event>)
    decreases |es|
  {
    es == [] || (CanStep(s, es[0]) && IsRun(Step(s, es[0]), es[1..]))
  }

  ghost function Run(s: Store, es: seq<Event>): Store
    decreases |es|
  {
    if es == [] then s else Run(Step(s, es[0]), es[1..])
  }

  lemma StepKeepsGood(s: Store, e: Event)
    requires Good(s) && CanStep(s, e)
    ensures Good(Step(s, e))
  {
    match e {
      case Stage(id, code, source, request, cached, payload, now) =>
        StageKeepsGood(s, id, code, source, request, cached, payload, now);
      case Finalize(id) =>
        assert GoodVersion(s, s.versions[id]);
        FinalizeKeepsGood(s, id);
    }
  }

  ghost predicate CurrentFollows(a: Store, b: Store, code: string)
    requires code in a.processes
  {
    && code in b.processes
    && (a.processes[code].current.Some? && a.processes[code].current.value in a.versions ==>
          && b.processes[code].current.Some? && b.processes[code].current.value in b.versions
          && a.versions[a.processes[code].current.value].created <= b.versions[b.processes[code].current.value].created)
  }

  ghost predicate VersionFollows(a: Store, b: Store, id: VersionId)
    requires id in a.versions
  {
    && id in b.versions && b.versions[id].created == a.versions[id].created
    && b.versions[id].code == a.versions[id].code && b.versions[id].source == a.versions[id].source
    && (a.versions[id].finalized ==> b.versions[id] == a.versions[id])
  }

  // What never changes between two states of a run: a finalized version keeps its source and its
  // equivalence, a version keeps its creation time, and no process goes back to an older version.
  ghost predicate Follows(a: Store, b: Store) {
    && (forall id :: id in a.versions ==> VersionFollows(a, b, id))
    && (forall code :: code in a.processes ==> CurrentFollows(a, b, code))
    && a.promoted <= b.promoted
  }

  lemma FinalizeCurrentFollows(s: Store, id: VersionId, code: string)
    requires Good(s) && id in s.versions && code in s.processes
    ensures CurrentFollows(s, Step(s, Finalize(id)), code)
  {
    var s' := Step(s, Finalize(id));
    assert GoodVersion(s, s.versions[id]) && GoodProcess(s, code);
    assert forall v :: v in s.versions ==> v in s'.versions && s'.versions[v].created == s.versions[v].created;
    assert code != s.versions[id].code ==> s'.processes[code] == s.processes[code];
  }

  lemma FinalizeFollows(s: Store, id: VersionId)
    requires Good(s) && id in s.versions
    ensures Follows(s, Step(s, Finalize(id)))
  {
    forall v | v in s.versions ensures VersionFollows(s, Step(s, Finalize(id)), v) {
      FinalizeVersionFollows(s, id, v);
    }
    forall code | code in s.processes ensures CurrentFollows(s, Step(s, Finalize(id)), code) {
      FinalizeCurrentFollows(s, id, code);
    }
    assert GoodVersion(s, s.versions[id]);
  }

  lemma FinalizeVersionFollows(s: Store, id: VersionId, v: VersionId)
    requires Good(s) && id in s.versions && v in s.versions
    ensures VersionFollows(s, Step(s, Finalize(id)), v)
  {
    assert GoodVersion(s, s.versions[id]);
  }

  lemma StageFollows(s: Store, e: Event)
    requires Good(s) && CanStep(s, e) && e.Stage?
    ensures Follows(s, Step(s, e))
  {
    var s' := Step(s, e);
    forall id | id in s.versions ensures VersionFollows(s, s', id) {
    }
    forall code | code in s.processes ensures CurrentFollows(s, s', code) {
      assert GoodProcess(s, code);
    }
  }

  lemma StepFollows(s: Store, e: Event)
    requires Good(s) && CanStep(s, e)
    ensures Follows(s, Step(s, e))
  {
    match e {
      case Stage(_, _, _, _, _, _, _) => StageFollows(s, e);
      case Finalize(id) => FinalizeFollows(s, id);
    }
  }

  lemma FollowsTrans(a: Store, b: Store, c: Store)
    requires Follows(a, b) && Follows(b, c)
    ensures Follows(a, c)
  {
  }

  // Over every run: the invariant holds, current versions only get newer and finalized sources
  // are immutable.
  lemma {:induction false} RunsFollow(s: Store, es: seq<Event>)
    requires Good(s) && IsRun(s, es)
    ensures Good(Run(s, es)) && Follows(s, Run(s, es))
    decreases |es|
  {
    if es != [] {
      var mid := Step(s, es[0]);
      StepKeepsGood(s, es[0]);
      StepFollows(s, es[0]);
      RunsFollow(mid, es[1..]);
      FollowsTrans(s, mid, Run(s, es));
    }
  }

  // The fingerprint sees the order of a list, and the rows are read back by key.
  lemma ReadBackMeansTheSame(items: seq<Item>)
    ensures SameItems(Sorted(Table(items)), items) <==> Increasing(items)
  {
    TableIsKeyed(items);
    SortedIsIncreasing(Table(items));
    SortedTable(items);
  }

  // Content delivered again under a new source is deduplicated against the current version exactly
  // when its movements and its manifest are listed in key order.
  lemma RedeliveryIsDeduplicated(s: Store, id: VersionId, code: string)
    requires Good(s) && id in s.versions && !s.versions[id].finalized && s.versions[id].code == code
    requires code in s.processes && s.processes[code].current.Some?
    requires s.processes[code].current.value in s.versions
    requires s.versions[s.processes[code].current.value].payload == s.versions[id].payload
    ensures var c := s.versions[id].payload;
      FinalizeVersion(s, id, c).versions[id].equivalentTo == s.processes[code].current <==>
        Increasing(c.steps) && Increasing(c.attachments)
  {
    var c := s.versions[id].payload;
    assert GoodProcess(s, code);
    assert GoodVersion(s, s.versions[s.processes[code].current.value]);
    DocumentMeans(Content(c.fields, Sorted(Table(c.steps)), Sorted(Table(c.attachments))), c);
    ReadBackMeansTheSame(c.steps);
    ReadBackMeansTheSame(c.attachments);
  }

  /* ---- The same content twice ---- */

  function Delivery(id: VersionId, c: Content, source: string): Event {
    Stage(id, "code", source, "request", false, c, id)
  }

  function Row(id: VersionId, c: Content, source: string): Version {
    Version("code", source, "request", false, c, id, false, None, map[], map[])
  }

  // The first delivery finalized and current, the second one staged.
  function DeliveredTwice(c: Content): Store {
    var first := Row(0, c, "1").(finalized := true, steps := Table(c.steps), manifest := Table(c.attachments));
    Store(map["code" := Process(c.fields, Some(0))], map[0 := first, 1 := Row(1, c, "2")], {0})
  }

  lemma Chain(s: Store, e: Event, es: seq<Event>)
    requires CanStep(s, e) && IsRun(Step(s, e), es)
    ensures IsRun(s, [e] + es) && Run(s, [e] + es) == Run(Step(s, e), es)
  {
    assert ([e] + es)[1..] == es;
  }

  lemma FirstDelivery(c: Content)
    ensures var staged := Step(Start, Delivery(0, c, "1"));
      && 0 in staged.versions
      && Step(Step(staged, Finalize(0)), Delivery(1, c, "2")) == DeliveredTwice(c)
      && 1 !in Step(staged, Finalize(0)).versions
  {
    var staged := Step(Start, Delivery(0, c, "1"));
    assert staged.versions == map[0 := Row(0, c, "1")];
    assert map[] + Table(c.attachments) == Table(c.attachments);
    var first := Step(staged, Finalize(0));
    assert first.versions == map[0 := DeliveredTwice(c).versions[0]];
    assert first.processes == DeliveredTwice(c).processes;
    assert !Matches(first.versions[0], "code", "2");
  }

  // Whatever the content, a run that receives it twice; the second version is deduplicated exactly
  // when both lists are in key order.
  lemma TwiceDelivered(c: Content) returns (es: seq<Event>)
    ensures IsRun(Start, es) && Run(Start, es) == FinalizeVersion(DeliveredTwice(c), 1, c)
    ensures Run(Start, es).versions[1].equivalentTo == Some(0) <==> Increasing(c.steps) && Increasing(c.attachments)
  {
    var staged := Step(Start, Delivery(0, c, "1"));
    var first := Step(staged, Finalize(0));
    FirstDelivery(c);
    Chain(DeliveredTwice(c), Finalize(1), []);
    Chain(first, Delivery(1, c, "2"), [Finalize(1)] + []);
    es := [Delivery(1, c, "2")] + ([Finalize(1)] + []);
    Chain(staged, Finalize(0), es);
    es := [Finalize(0)] + es;
    Chain(Start, Delivery(0, c, "1"), es);
    es := [Delivery(0, c, "1")] + es;
    StepKeepsGood(Start, Delivery(0, c, "1"));
    StepKeepsGood(staged, Finalize(0));
    StepKeepsGood(first, Delivery(1, c, "2"));
    RedeliveryIsDeduplicated(DeliveredTwice(c), 1, "code");
  }

  // It does happen: a manifest that is not listed in key order becomes current a second time.
  const OutOfOrder := Content(NoFields, [], [Item(2, "", ""), Item(1, "", "")])

  lemma OutOfOrderIsPromotedTwice() returns (es: seq<Event>)
    ensures IsRun(Start, es)
    ensures var s := Run(Start, es);
      && s.versions.Keys == {0, 1} && s.versions[0].payload == s.versions[1].payload == OutOfOrder
      && s.versions[1].finalized && s.versions[1].equivalentTo == None
      && s.processes == map["code" := Process(NoFields, Some(1))] && s.promoted == {0, 1}
  {
    es := TwiceDelivered(OutOfOrder);
  }
}
