/** app/processes.py over the tables it updates: each transaction statement by statement. */
module ProcessTable {
  import opened Wrappers
  import opened VersionStore

  class ProcessTable {
    var processes: map<string, Process>
    var versions: map<VersionId, Version>
    ghost var promoted: set<VersionId>

    constructor ()
      ensures State() == VersionStore.Start
    {
      processes, versions, promoted := map[], map[], {};
    }

    ghost function State(): Store
      reads this
    {
      Store(processes, versions, promoted)
    }

    // ORDER BY, as a selection of the largest key again and again.
    static method ReadInOrder(m: map<int, Item>) returns (items: seq<Item>)
      requires Keyed(m)
      ensures items == Sorted(m)
    {
      items := [];
      var rest := m;
      while rest != map[]
        invariant Keyed(rest)
        invariant Sorted(m) == Sorted(rest) + items
        decreases |rest|
      {
        var k := LargestKey(rest);
        items := [rest[k]] + items;
        rest := rest - {k};
      }
    }

    static method LargestKey(m: map<int, Item>) returns (k: int)
      requires m != map[]
      ensures k == Largest(m)
    {
      assert m.Items != {};
      var entry :| entry in m.Items;
      k := entry.0;
      var todo := m - {k};
      while todo != map[]
        invariant todo.Keys <= m.Keys && k in m
        invariant forall j :: j in m && j !in todo ==> j <= k
        decreases |todo|
      {
        assert todo.Items != {};
        var next :| next in todo.Items;
        if next.0 > k {
          k := next.0;
        }
        todo := todo - {next.0};
      }
      assert IsLargest(m, k);
    }

    // executemany with a set of the keys already seen.
    static method InsertItems(items: seq<Item>) returns (rows: map<int, Item>)
      ensures rows == Table(items)
    {
      rows := map[];
      var i := 0;
      while i < |items|
        invariant 0 <= i <= |items|
        invariant rows == Table(items[..i])
      {
        assert items[..i + 1][..i] == items[..i];
        if items[i].key !in rows {
          rows := rows[items[i].key := items[i]];
        }
        i := i + 1;
      }
      assert items[..i] == items;
    }

    method Stage(id: VersionId, code: string, source: string, request: string, cached: bool, payload: Content, now: int)
      returns (version: VersionId)
      requires Good(State()) && id !in versions
      modifies this`processes, this`versions
      ensures State() == StageVersion(old(State()), id, code, source, request, cached, payload, now)
      ensures version in versions && Matches(versions[version], code, source)
      ensures Good(State())
    {
      StageKeepsGood(State(), id, code, source, request, cached, payload, now);
      if code !in processes {
        processes := processes[code := Process(NoFields, None)];
      }
      version := id;
      var todo := versions.Keys;
      while todo != {} && version == id
        invariant todo <= versions.Keys
        invariant version == id ==> forall v :: v in versions && v !in todo ==> !Matches(versions[v], code, source)
        invariant version != id ==> version in versions && Matches(versions[version], code, source)
        decreases todo
      {
        var v :| v in todo;
        todo := todo - {v};
        if Matches(versions[v], code, source) {
          version := v;
        }
      }
      if version == id {
        versions := versions[id := Version(code, source, request, cached, payload, now, false, None, map[], map[])];
      } else {
        assert forall v :: v in versions && Matches(versions[v], code, source) ==> v == version;
        var before := versions;
        versions := versions[version := Restaged(versions[version], request, cached, payload)];
        assert versions == map v | v in before ::
          if Matches(before[v], code, source) then Restaged(before[v], request, cached, payload) else before[v];
      }
    }

    // Whether the current version reads back as the candidate document.
    method SameAsCurrent(code: string, c: Content) returns (same: bool)
      requires Good(State()) && code in processes
      ensures same <==> Unchanged(State(), code, c)
      ensures same <==> Holds(State(), code, c)
    {
      assert GoodProcess(State(), code);
      UnchangedMeans(State(), code, c);
      if processes[code].current == None {
        return false;
      }
      var v := versions[processes[code].current.value];
      assert GoodVersion(State(), v);
      TableIsKeyed(v.payload.steps);
      TableIsKeyed(v.payload.attachments);
      var steps := ReadInOrder(v.steps);
      var attachments := ReadInOrder(v.manifest);
      same := SemanticDocument(Content(processes[code].fields, steps, attachments)) == SemanticDocument(c);
    }

    // Nothing changed: finalize, and point to the current version.
    method MarkEquivalent(id: VersionId, c: Content, current: Option<VersionId>)
      requires id in versions
      modifies this`versions
      ensures versions == old(versions)[id := old(versions)[id].(
        finalized := true, equivalentTo := current, manifest := old(versions)[id].manifest + Table(c.attachments))]
    {
      var manifest := InsertItems(c.attachments);
      versions := versions[id := versions[id].(manifest := versions[id].manifest + manifest)];
      versions := versions[id := versions[id].(finalized := true, equivalentTo := current)];
    }

    method StoreContent(id: VersionId, c: Content)
      requires id in versions
      modifies this`versions
      ensures versions == old(versions)[id := old(versions)[id].(
        finalized := true, equivalentTo := None, steps := Table(c.steps),
        manifest := old(versions)[id].manifest + Table(c.attachments))]
    {
      var steps := InsertItems(c.steps);
      versions := versions[id := versions[id].(steps := steps)];
      var manifest := InsertItems(c.attachments);
      versions := versions[id := versions[id].(manifest := versions[id].manifest + manifest)];
      versions := versions[id := versions[id].(finalized := true, equivalentTo := None)];
    }

    method FinalizeStaged(id: VersionId) returns (promote: bool)
      requires Good(State()) && id in versions
      modifies this
      ensures State() == FinalizeVersion(old(State()), id, old(versions)[id].payload)
      ensures promote <==> processes[versions[id].code].current == Some(id)
      ensures Good(State())
    {
      ghost var before := State();
      FinalizeKeepsGood(before, id);
      var v := versions[id];
      assert GoodVersion(before, v) && GoodProcess(before, v.code);
      var current := processes[v.code].current;
      if v.finalized {
        return current == Some(id);
      }
      var same := SameAsCurrent(v.code, v.payload);
      if same {
        MarkEquivalent(id, v.payload, current);
        return false;
      }
      promote := current == None || v.created >= versions[current.value].created;
      assert promote == Promotes(before, id);
      StoreContent(id, v.payload);
      if promote {
        processes := processes[v.code := Process(v.payload.fields, Some(id))];
        promoted := promoted + {id};
      }
    }
  }
}
