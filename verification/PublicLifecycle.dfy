/** app/public_lifecycle.py: the rows of public_summary_requests and how they move. */
module PublicLifecycle {
  import opened Wrappers
  import opened Text
  import Jobs

  type RequestId = nat

  datatype Status =
    | Queued | Fetching | Indexing | Generating | Validating
    | Completed | Failed | SourceUnavailable | SecrecyBlocked | ValidationFailed
  {
    predicate Terminal() {
      Completed? || Failed? || SourceUnavailable? || SecrecyBlocked? || ValidationFailed?
    }

    // The rank of the non-terminal statuses; all terminal statuses share the last one.
    function Rank(): nat {
      match this
      case Queued => 0
      case Fetching => 1
      case Indexing => 2
      case Generating => 3
      case Validating => 4
      case _ => 5
    }
  }

  datatype PublicRequest = PublicRequest(
    tenant: nat, code: string, key: string, fingerprint: string, format: string,
    status: Status, acquisition: Option<Jobs.AcquisitionId>,
    process: Option<nat>, version: Option<nat>, summary: Option<nat>,
    error: Option<string>, completedAt: Option<int>)

  type Requests = map<RequestId, PublicRequest>

  // The arguments of a transition.
  datatype Target = Target(
    status: Status, process: Option<nat>, version: Option<nat>, summary: Option<nat>, error: Option<string>)

  function To(status: Status): Target {
    Target(status, None, None, None, None)
  }

  // Both are progress statuses once neither is terminal, and their ranks decide.
  predicate TransitionAllowed(current: Status, target: Status) {
    if current == target then true
    else if current.Terminal() then false
    else if target.Terminal() then true
    else target.Rank() >= current.Rank()
  }

  function Coalesce<T>(a: Option<T>, b: Option<T>): Option<T> {
    if a.Some? then a else b
  }

  function Moved(r: PublicRequest, t: Target, now: int): PublicRequest {
    if !TransitionAllowed(r.status, t.status) then r
    else r.(status := t.status,
            process := Coalesce(t.process, r.process),
            version := Coalesce(t.version, r.version),
            summary := Coalesce(t.summary, r.summary),
            error := t.error,
            completedAt := if t.status.Terminal() then Some(now) else None)
  }

  // How a job, an acquisition or a version finds its public requests.
  datatype Link =
    | ByAcquisition(acquisition: Jobs.AcquisitionId)
    | ByJudit(request: string)
    | ByVersion(version: nat)
    | ToNobody

  // `judit` is the judit_request_id column of the acquisitions that have one.
  predicate Linked(link: Link, r: PublicRequest, judit: map<Jobs.AcquisitionId, string>) {
    match link
    case ByAcquisition(k) => r.acquisition == Some(k)
    case ByJudit(request) => r.acquisition.Some? && r.acquisition.value in judit && judit[r.acquisition.value] == request
    case ByVersion(v) => r.version == Some(v)
    case ToNobody => false
  }

  // transition_job_public_requests: an empty judit_request_id counts as absent.
  function JobLink(task: Jobs.Task): Link {
    match task
    case AcquireTask(k) => ByAcquisition(k)
    case FinalizeTask(request) => ByJudit(request)
    case SummaryTask(_, version, request) =>
      if request.Some? && request.value != "" then ByJudit(request.value) else ByVersion(version)
    case OtherTask(_) => ToNobody
  }

  function MovedAll(reqs: Requests, link: Link, judit: map<Jobs.AcquisitionId, string>, t: Target, now: int): Requests {
    map id | id in reqs :: if Linked(link, reqs[id], judit) then Moved(reqs[id], t, now) else reqs[id]
  }

  // One transition is enough: repeating it changes nothing.
  lemma MovedTwice(r: PublicRequest, t: Target, now: int)
    ensures Moved(Moved(r, t, now), t, now) == Moved(r, t, now)
  {
  }

  // A transition to a terminal status always leaves a terminal request.
  lemma TerminalTargetEnds(r: PublicRequest, t: Target, now: int)
    requires t.status.Terminal()
    ensures Moved(r, t, now).status.Terminal()
    ensures r.status.Terminal() ==> Moved(r, t, now).status == r.status
  {
  }

  const PROGRESS: seq<Status> := [Queued, Fetching, Indexing, Generating, Validating]
  const ENDS: set<Status> := {Completed, Failed, SourceUnavailable, SecrecyBlocked, ValidationFailed}

  // The target does not come before the present status.
  predicate IsAhead(current: Status, target: Status) {
    exists i, j :: 0 <= i <= j < |PROGRESS| && PROGRESS[i] == current && PROGRESS[j] == target
  }

  // A request moves on, or ends, or repeats the status it has; the columns that are given replace
  // the old ones, and the time of completion is set exactly by an end.
  lemma MovesExactly(r: PublicRequest, t: Target, now: int)
    ensures Moved(r, t, now) ==
      if r.status == t.status || IsAhead(r.status, t.status) || (r.status !in ENDS && t.status in ENDS)
      then PublicRequest(
        r.tenant, r.code, r.key, r.fingerprint, r.format, t.status, r.acquisition,
        if t.process == None then r.process else t.process, if t.version == None then r.version else t.version,
        if t.summary == None then r.summary else t.summary, t.error, if t.status in ENDS then Some(now) else None)
      else r
  {
    assert PROGRESS[0] == Queued && PROGRESS[1] == Fetching && PROGRESS[2] == Indexing && PROGRESS[3] == Generating
           && PROGRESS[4] == Validating;
  }

  class RequestTable {
    var rows: Requests
    var used: set<RequestId>

    constructor ()
      ensures rows == map[] && used == {}
    {
      rows, used := map[], {};
    }

    // At most one request for a tenant and a key, as the unique constraint demands.
    ghost predicate HasUniqueKeys()
      reads this`rows
    {
      forall a, b :: a in rows && b in rows && rows[a].tenant == rows[b].tenant && rows[a].key == rows[b].key ==> a == b
    }

    // A new key makes a queued request, an exact replay returns the stored one, and the same key
    // with another body is a conflict.
    method CreateOrGet(id: RequestId, tenant: nat, code: string, key: string, fingerprint: string, format: string)
      returns (result: Result<(RequestId, bool)>)
      requires rows.Keys <= used && id !in used && HasUniqueKeys()
      modifies this
      ensures rows.Keys <= used && HasUniqueKeys()
      ensures var taken := exists k :: k in old(rows) && old(rows)[k].tenant == tenant && old(rows)[k].key == key;
        result.Ok? && result.value.1 <==> !IsBlank(key) && format in {"jsx", "json"} && !taken
      ensures result.Ok? && result.value.1 ==> result.value.0 == id
      ensures result.Ok? && result.value.1 ==>
        rows == old(rows)[id := PublicRequest(tenant, code, key, fingerprint, format, Queued, None, None, None, None, None, None)]
      ensures !(result.Ok? && result.value.1) ==> rows == old(rows)
      ensures IsBlank(key) || format !in {"jsx", "json"} ==> result.Err?
      ensures !IsBlank(key) && format in {"jsx", "json"} ==> forall k :: k in old(rows) && old(rows)[k].tenant == tenant && old(rows)[k].key == key ==>
        if old(rows)[k].fingerprint == fingerprint then result == Ok((k, false)) else result.Err?
    {
      if IsBlank(key) {
        return Err("idempotency key must not be empty");
      }
      if format != "jsx" && format != "json" {
        return Err("unsupported summary response format");
      }
      var todo := rows.Keys;
      while todo != {}
        invariant todo <= rows.Keys
        invariant forall k :: k in rows && k !in todo ==> !(rows[k].tenant == tenant && rows[k].key == key)
      {
        var k :| k in todo;
        if rows[k].tenant == tenant && rows[k].key == key {
          if rows[k].fingerprint != fingerprint {
            return Err("idempotency key was already used with a different request");
          }
          return Ok((k, false));
        }
        todo := todo - {k};
      }
      rows := rows[id := PublicRequest(tenant, code, key, fingerprint, format, Queued, None, None, None, None, None, None)];
      used := used + {id};
      return Ok((id, true));
    }

    // link_summary_request_to_acquisition; an acquisition is identified by tenant and code.
    method LinkToAcquisition(id: RequestId, tenant: nat, code: string, k: Jobs.AcquisitionId) returns (ok: bool)
      modifies this`rows
      ensures ok <==>
        && id in old(rows) && old(rows)[id].tenant == tenant == k.tenant && old(rows)[id].code == code == k.code
        && (old(rows)[id].acquisition == None || old(rows)[id].acquisition == Some(k))
      ensures rows == if ok then old(rows)[id := old(rows)[id].(acquisition := Some(k))] else old(rows)
    {
      ok := false;
      if id in rows && rows[id].tenant == tenant && k.tenant == tenant && rows[id].code == code && k.code == code {
        if rows[id].acquisition == None || rows[id].acquisition == Some(k) {
          rows := rows[id := rows[id].(acquisition := Some(k))];
          ok := true;
        }
      }
    }

    method Transition(id: RequestId, t: Target, now: int) returns (found: bool)
      modifies this`rows
      ensures found <==> id in old(rows)
      ensures rows == if found then old(rows)[id := Moved(old(rows)[id], t, now)] else old(rows)
    {
      if id !in rows {
        return false;
      }
      if !TransitionAllowed(rows[id].status, t.status) {
        // A stale job must not regress the request.
        assert rows == rows[id := rows[id]];
        return true;
      }
      rows := rows[id := Moved(rows[id], t, now)];
      return true;
    }

    method TransitionMany(ids: seq<RequestId>, t: Target, now: int) returns (transitioned: nat)
      requires forall id :: id in ids ==> id in rows
      modifies this`rows
      ensures transitioned == |ids|
      ensures rows == map id | id in old(rows) :: if id in ids then Moved(old(rows)[id], t, now) else old(rows)[id]
    {
      transitioned := 0;
      while transitioned < |ids|
        invariant transitioned <= |ids|
        invariant rows.Keys == old(rows).Keys
        invariant forall id :: id in rows ==>
          rows[id] == if id in ids[..transitioned] then Moved(old(rows)[id], t, now) else old(rows)[id]
      {
        MovedTwice(old(rows)[ids[transitioned]], t, now);
        assert ids[..transitioned + 1] == ids[..transitioned] + [ids[transitioned]];
        var _ := Transition(ids[transitioned], t, now);
        transitioned := transitioned + 1;
      }
      assert ids[..transitioned] == ids;
    }

    // transition_requests_for_acquisition, _for_judit_request and _for_version.
    method TransitionLinked(link: Link, judit: map<Jobs.AcquisitionId, string>, t: Target, now: int) returns (count: nat)
      modifies this`rows
      ensures rows == MovedAll(old(rows), link, judit, t, now)
    {
      var ids: seq<RequestId> := [];
      var todo := rows.Keys;
      while todo != {}
        invariant todo <= rows.Keys
        invariant forall id :: id in ids <==> id in rows && id !in todo && Linked(link, rows[id], judit)
      {
        var id :| id in todo;
        todo := todo - {id};
        if Linked(link, rows[id], judit) {
          ids := ids + [id];
        }
      }
      count := TransitionMany(ids, t, now);
    }
  }
}
