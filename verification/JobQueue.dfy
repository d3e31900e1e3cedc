/** app/queue.py: the functions that run the statements, over a table updated in place.
    `now` is the database clock and `locked` the rows held by other open transactions. */
module JobQueue {
  import opened Wrappers
  import opened Jobs

  class JobTable {
    var rows: Rows
    var used: set<JobId>

    constructor ()
      ensures rows == map[] && used == {}
    {
      rows, used := map[], {};
    }

    // The table as a queue state at a given time.
    function At(now: int): Queue
      reads this
    {
      Queue(rows, now, used)
    }

    method Enqueue(id: JobId, task: Task, priority: int, runAt: Option<int>, maxAttempts: int, key: Option<Key>, now: int)
      returns (inserted: Result<Option<JobId>>)
      requires id !in used && Good(At(now))
      modifies this
      ensures inserted.Err? <==> !(MIN_JOB_ATTEMPTS <= maxAttempts <= MAX_JOB_ATTEMPTS)
      ensures inserted.Err? ==> At(now) == old(At(now))
      ensures inserted.Ok? ==>
        && var e := Insert(id, task, priority, if runAt.Some? then runAt.value else now, maxAttempts, key);
        && CanStep(old(At(now)), e) && At(now) == Step(old(At(now)), e)
        && (inserted.value == None <==> KeyTaken(old(rows), key))
        && (inserted.value.Some? ==> inserted.value.value == id && id in rows)
    {
      if maxAttempts < MIN_JOB_ATTEMPTS || maxAttempts > MAX_JOB_ATTEMPTS {
        return Err("max_attempts is out of bounds");
      }
      if key.Some? {
        var todo := rows.Keys;
        while todo != {}
          invariant todo <= rows.Keys
          invariant forall k :: k in rows && k !in todo ==> rows[k].key != key
        {
          var k :| k in todo;
          if rows[k].key == key {
            return Ok(None);
          }
          todo := todo - {k};
        }
      }
      rows := rows[id := NewJob(task, priority, if runAt.Some? then runAt.value else now, maxAttempts, key)];
      used := used + {id};
      return Ok(Some(id));
    }

    // The subquery of the claim: a minimal unlocked runnable row.
    method FindClaimable(now: int, locked: set<JobId>) returns (best: Option<JobId>)
      ensures best == None ==> forall k :: !Claimable(rows, now, locked, k)
      ensures best.Some? ==>
        && Claimable(rows, now, locked, best.value)
        && forall k :: Claimable(rows, now, locked, k) ==> rows[best.value].NoLaterThan(rows[k])
    {
      best := None;
      var todo := rows.Keys - locked;
      while todo != {}
        invariant todo <= rows.Keys - locked
        invariant best.Some? ==> Claimable(rows, now, locked, best.value) && best.value !in todo
        invariant forall k :: Claimable(rows, now, locked, k) && k !in todo ==>
                    best.Some? && rows[best.value].NoLaterThan(rows[k])
      {
        var k :| k in todo;
        todo := todo - {k};
        if rows[k].Runnable(now) && (best == None || !rows[best.value].NoLaterThan(rows[k])) {
          best := Some(k);
        }
      }
    }

    method ClaimJob(w: WorkerId, now: int, locked: set<JobId>) returns (claimed: Option<JobId>)
      requires Good(At(now))
      modifies this`rows
      ensures claimed == None ==> rows == old(rows) && CanStep(At(now), Update(ClaimNothing(w), locked))
      ensures claimed.Some? ==>
        && var e := Update(Claim(w, claimed.value), locked);
        && CanStep(old(At(now)), e) && At(now) == Step(old(At(now)), e)
        && rows[claimed.value].OwnedBy(w)
      ensures Good(At(now))
    {
      claimed := FindClaimable(now, locked);
      if claimed.Some? {
        var id := claimed.value;
        StepKeepsGood(At(now), Update(Claim(w, id), locked));
        assert rows + map[id := Claimed(rows[id], w, now)] == rows[id := Claimed(rows[id], w, now)];
        rows := rows[id := Claimed(rows[id], w, now)];
      }
    }

    method HeartbeatJob(id: JobId, w: WorkerId, now: int) returns (alive: bool)
      modifies this`rows
      ensures At(now) == Step(old(At(now)), Update(Heartbeat(w, id), {}))
      ensures alive <==> id in old(rows) && old(rows)[id].OwnedBy(w)
      ensures !alive ==> rows == old(rows)
    {
      alive := id in rows && rows[id].OwnedBy(w);
      if alive {
        rows := rows[id := rows[id].(heartbeat := Some(now))];
      }
    }

    method CompleteJob(id: JobId, w: WorkerId, now: int) returns (done: bool)
      modifies this`rows
      ensures At(now) == Step(old(At(now)), Update(Complete(w, id), {}))
      ensures done <==> id in old(rows) && old(rows)[id].OwnedBy(w)
      ensures !done ==> rows == old(rows)
    {
      done := id in rows && rows[id].OwnedBy(w);
      if done {
        rows := rows[id := rows[id].(status := Completed, heartbeat := Some(now))];
      }
    }

    method FailJob(id: JobId, w: WorkerId, attempts: int, permanent: bool, now: int) returns (next: Option<Status>)
      modifies this`rows
      ensures At(now) == Step(old(At(now)), Update(Fail(w, id, attempts, permanent), {}))
      ensures next.Some? <==> id in old(rows) && old(rows)[id].OwnedBy(w)
      ensures next.Some? ==> next.value == if permanent || old(rows)[id].attempts >= old(rows)[id].maxAttempts then Dead else Pending
      ensures next == None ==> rows == old(rows)
    {
      var retryAt := now + RetryBackoffSeconds(attempts);
      if id in rows && rows[id].OwnedBy(w) {
        rows := rows[id := Failed(rows[id], retryAt, permanent)];
        return Some(rows[id].status);
      }
      return None;
    }

    // Returns the reclaimed rows, in any order.
    method ReclaimStale(timeout: int, now: int, locked: set<JobId>) returns (reclaimed: Result<seq<JobId>>)
      modifies this`rows
      ensures reclaimed.Err? <==> timeout <= 0
      ensures reclaimed.Err? ==> rows == old(rows)
      ensures reclaimed.Ok? ==>
        && At(now) == Step(old(At(now)), Update(Reclaim(timeout), locked))
        && (forall id :: id in reclaimed.value <==> id in old(rows) && id !in locked && old(rows)[id].Stale(now, timeout))
        && forall i, j :: 0 <= i < j < |reclaimed.value| ==> reclaimed.value[i] != reclaimed.value[j]
    {
      if timeout <= 0 {
        return Err("reclaim timeout_seconds must be greater than zero");
      }
      var before := rows;
      var ids: seq<JobId> := [];
      var todo := rows.Keys - locked;
      while todo != {}
        invariant todo <= before.Keys - locked
        invariant rows.Keys == before.Keys
        invariant forall id :: id in ids <==> id in before && id !in locked && id !in todo && before[id].Stale(now, timeout)
        invariant forall i, j :: 0 <= i < j < |ids| ==> ids[i] != ids[j]
        invariant forall id :: id in before ==> rows[id] == if id in ids then Reclaimed(before[id]) else before[id]
      {
        var id :| id in todo;
        todo := todo - {id};
        if rows[id].Stale(now, timeout) {
          rows := rows[id := Reclaimed(rows[id])];
          ids := ids + [id];
        }
      }
      assert rows == before + Writes(Reclaim(timeout), before, now, locked);
      return Ok(ids);
    }
  }
}
