/** What each statement of app/queue.py does to the columns of the job rows. */
module JobMoves {
  import opened Wrappers
  import opened Jobs

  // Priority first, then the time from which the job may run.
  predicate Precedes(a: Job, b: Job) {
    a.priority < b.priority || (a.priority == b.priority && a.runAt <= b.runAt)
  }

  predicate IsDue(j: Job, now: int) {
    j.status == Pending && j.runAt <= now
  }

  // A job may be claimed exactly if it is due and comes first among the due jobs nobody has locked.
  lemma ClaimTakesTheFirst(q: Queue, w: WorkerId, id: JobId, locked: set<JobId>)
    ensures CanStep(q, Update(Claim(w, id), locked)) <==>
      && id in q.rows && id !in locked && IsDue(q.rows[id], q.now)
      && forall k :: k in q.rows && k !in locked && IsDue(q.rows[k], q.now) ==> Precedes(q.rows[id], q.rows[k])
    ensures id in q.rows ==> var j := q.rows[id];
      Step(q, Update(Claim(w, id), locked)) == q.(rows := q.rows[id := Job(
        j.task, Processing, j.priority, j.runAt, j.attempts + 1, j.maxAttempts, Some(w), Some(q.now), j.key)])
  {
    assert forall k :: k in q.rows && k !in locked && IsDue(q.rows[k], q.now) <==> Claimable(q.rows, q.now, locked, k);
  }

  lemma NothingToClaim(q: Queue, w: WorkerId, locked: set<JobId>)
    ensures CanStep(q, Update(ClaimNothing(w), locked)) <==>
      forall k :: k in q.rows && k !in locked ==> !IsDue(q.rows[k], q.now)
    ensures Step(q, Update(ClaimNothing(w), locked)) == q
  {
    assert forall k :: Claimable(q.rows, q.now, locked, k) <==> k in q.rows && k !in locked && IsDue(q.rows[k], q.now);
  }

  predicate Owns(q: Queue, w: WorkerId, id: JobId) {
    id in q.rows && q.rows[id].status == Processing && q.rows[id].worker == Some(w)
  }

  // Heartbeat and completion touch the job of the worker and nothing else.
  lemma OwnerMoves(q: Queue, w: WorkerId, id: JobId)
    ensures Step(q, Update(Heartbeat(w, id), {})) ==
      if Owns(q, w, id) then q.(rows := q.rows[id := q.rows[id].(heartbeat := Some(q.now))]) else q
    ensures Step(q, Update(Complete(w, id), {})) ==
      if Owns(q, w, id) then q.(rows := q.rows[id := q.rows[id].(status := Completed, heartbeat := Some(q.now))]) else q
  {
  }

  // The delay is two seconds at first, doubles with every attempt and never exceeds five minutes.
  lemma BackoffDoubles(attempts: int)
    ensures attempts <= 1 ==> RetryBackoffSeconds(attempts) == 2
    ensures attempts >= 1 && 2 * RetryBackoffSeconds(attempts) <= 300 ==>
      RetryBackoffSeconds(attempts + 1) == 2 * RetryBackoffSeconds(attempts)
    ensures attempts >= 1 && 2 * RetryBackoffSeconds(attempts) > 300 ==> RetryBackoffSeconds(attempts + 1) == 300
  {
    PowersOfTwo();
  }

  lemma PowersOfTwo()
    ensures Pow2(8) == 256 && Pow2(9) == 512
  {
    assert Pow2(4) == 16;
  }

  // A failed job dies if the failure is permanent or its attempts are used up, and otherwise waits
  // for its delay: from then on, and no earlier, it may be claimed again.
  lemma FailedJob(q: Queue, w: WorkerId, id: JobId, attempts: int, permanent: bool)
    requires Owns(q, w, id)
    ensures var t := Step(q, Update(Fail(w, id, attempts, permanent), {}));
      var a, b := q.rows[id], t.rows[id];
      && t == q.(rows := q.rows[id := b])
      && b == a.(status := b.status, runAt := b.runAt, worker := None, heartbeat := None)
      && (b.status == Dead <==> permanent || a.attempts >= a.maxAttempts)
      && (b.status == Dead ==> b.runAt == a.runAt)
      && (b.status != Dead ==> forall later :: IsDue(b, later) <==> later >= q.now + RetryBackoffSeconds(attempts))
  {
  }

  lemma FailureOfOthers(q: Queue, w: WorkerId, id: JobId, attempts: int, permanent: bool)
    requires !Owns(q, w, id)
    ensures Step(q, Update(Fail(w, id, attempts, permanent), {})) == q
  {
  }

  predicate IsStale(j: Job, now: int, timeout: int) {
    j.status == Processing && j.heartbeat.Some? && now - j.heartbeat.value > timeout
  }

  // Exactly the jobs without a heartbeat in time are taken back: those with attempts left are due
  // again from the moment they were due before, the others are dead.
  lemma ReclaimTakesBack(q: Queue, timeout: nat, locked: set<JobId>)
    ensures var t := Step(q, Update(Reclaim(timeout), locked));
      && t.now == q.now && t.used == q.used && t.rows.Keys == q.rows.Keys
      && forall id :: id in q.rows ==>
           var a, b := q.rows[id], t.rows[id];
           if id in locked || !IsStale(a, q.now, timeout) then b == a
           else b == a.(status := if a.attempts >= a.maxAttempts then Dead else Pending, worker := None, heartbeat := None)
  {
  }

  // A claimed job was due when it was claimed.
  ghost predicate ClaimedWhenDue(q: Queue) {
    forall id :: id in q.rows && q.rows[id].status == Processing ==> q.rows[id].runAt <= q.now
  }

  lemma StepKeepsDue(q: Queue, e: Event)
    requires Good(q) && ClaimedWhenDue(q) && CanStep(q, e)
    ensures ClaimedWhenDue(Step(q, e))
  {
    if e.Update? {
      UpdateKeepsDue(q, e.statement, e.locked);
    }
  }

  lemma UpdateKeepsDue(q: Queue, statement: Statement, locked: set<JobId>)
    requires ClaimedWhenDue(q) && CanStep(q, Update(statement, locked))
    ensures ClaimedWhenDue(Step(q, Update(statement, locked)))
  {
  }

  lemma {:induction false} RunKeepsDue(q: Queue, es: seq<Event>)
    requires Good(q) && ClaimedWhenDue(q) && IsRun(q, es)
    ensures ClaimedWhenDue(Run(q, es))
    decreases |es|
  {
    if es != [] {
      StepKeepsGood(q, es[0]);
      StepKeepsDue(q, es[0]);
      RunKeepsDue(Step(q, es[0]), es[1..]);
    }
  }

  // In every reachable state a lost job with attempts left may be claimed again at once.
  lemma ReclaimedIsDue(es: seq<Event>, timeout: nat, locked: set<JobId>, id: JobId)
    requires IsRun(Start, es)
    requires id in Run(Start, es).rows && id !in locked && IsStale(Run(Start, es).rows[id], Run(Start, es).now, timeout)
    ensures var q := Run(Start, es);
      IsDue(Step(q, Update(Reclaim(timeout), locked)).rows[id], q.now) <==> q.rows[id].attempts < q.rows[id].maxAttempts
  {
    RunKeepsDue(Start, es);
    ReclaimTakesBack(Run(Start, es), timeout, locked);
  }

  // Jobs end up in the purge only when they have ended, and the clock only moves on.
  lemma PurgeAndTick(q: Queue, ids: set<JobId>, seconds: nat)
    ensures CanStep(q, Purge(ids)) <==>
      forall id :: id in ids ==> id in q.rows && (q.rows[id].status == Completed || q.rows[id].status == Dead)
    ensures Step(q, Purge(ids)) == q.(rows := q.rows - ids)
    ensures CanStep(q, Tick(seconds)) && Step(q, Tick(seconds)) == q.(now := q.now + seconds)
  {
  }

  // A job is inserted unless its key exists, pending, with no attempt made and nobody on it.
  lemma InsertedJob(q: Queue, id: JobId, task: Task, priority: int, runAt: int, maxAttempts: nat, key: Option<Key>)
    ensures CanStep(q, Insert(id, task, priority, runAt, maxAttempts, key)) <==> id !in q.used && 1 <= maxAttempts <= 100
    ensures Step(q, Insert(id, task, priority, runAt, maxAttempts, key)) ==
      if key.Some? && exists k :: k in q.rows && q.rows[k].key == key then q
      else q.(rows := q.rows[id := Job(task, Pending, priority, runAt, 0, maxAttempts, None, None, key)], used := q.used + {id})
  {
  }
}
