/** The job rows of app/queue.py and the statements that change them.

    A row is a value; a statement is described by the rows it writes.  `locked` is the set of
    rows that other open transactions hold: SKIP LOCKED passes over them, a plain UPDATE waits
    for them, so both are functions of the unlocked rows only. */
module Jobs {
  import opened Wrappers

  type JobId = nat
  type WorkerId = nat

  const MIN_JOB_ATTEMPTS := 1
  const MAX_JOB_ATTEMPTS := 100

  datatype Status = Pending | Processing | Completed | Dead

  // One acquisition row per (tenant, process code).
  datatype AcquisitionId = AcquisitionId(tenant: nat, code: string)

  // task_name together with the decoded payload; a payload that does not decode is OtherTask.
  datatype Task =
    | AcquireTask(acquisition: AcquisitionId)
    | FinalizeTask(request: string)
    | SummaryTask(process: nat, version: nat, judit: Option<string>)
    | OtherTask(name: string)

  // The idempotency keys are formatted strings with disjoint prefixes; here they are terms.
  datatype Key =
    | AcquireKey(acquisition: AcquisitionId, attempt: nat)
    | FinalizeKey(request: string)
    | RepairKey(request: string, source: string)
    | SummaryKey(version: nat)
    | OtherKey(text: string)

  datatype Job = Job(
    task: Task, status: Status, priority: int, runAt: int, attempts: nat, maxAttempts: nat,
    worker: Option<WorkerId>, heartbeat: Option<int>, key: Option<Key>)
  {
    predicate Terminal() {
      status.Completed? || status.Dead?
    }

    predicate Runnable(now: int) {
      status.Pending? && runAt <= now
    }

    predicate OwnedBy(w: WorkerId) {
      status.Processing? && worker == Some(w)
    }

    // NULL < x is not true, so a row without a heartbeat is never stale.
    predicate Stale(now: int, timeout: int) {
      status.Processing? && heartbeat.Some? && heartbeat.value < now - timeout
    }

    // ORDER BY priority ASC, run_at ASC
    predicate NoLaterThan(other: Job) {
      priority < other.priority || (priority == other.priority && runAt <= other.runAt)
    }
  }

  type Rows = map<JobId, Job>

  function Pow2(n: nat): (r: nat)
    ensures r >= 1
  {
    if n == 0 then 1 else 2 * Pow2(n - 1)
  }

  function RetryBackoffSeconds(attempts: int): (r: int)
  {
    var exponent: nat := if attempts < 1 then 1 else if attempts > 9 then 9 else attempts;
    if Pow2(exponent) < 300 then Pow2(exponent) else 300
  }

  // The statements that update rows.
  datatype Statement =
    | Claim(worker: WorkerId, id: JobId)
    | ClaimNothing(worker: WorkerId)
    | Heartbeat(worker: WorkerId, id: JobId)
    | Complete(worker: WorkerId, id: JobId)
    | Fail(worker: WorkerId, id: JobId, attempts: int, permanent: bool)
    | Reclaim(timeout: nat)

  function Claimed(j: Job, w: WorkerId, now: int): Job {
    j.(status := Processing, worker := Some(w), heartbeat := Some(now), attempts := j.attempts + 1)
  }

  function Failed(j: Job, retryAt: int, permanent: bool): Job {
    var dead := permanent || j.attempts >= j.maxAttempts;
    j.(status := if dead then Dead else Pending,
       runAt := if dead then j.runAt else retryAt,
       worker := None, heartbeat := None)
  }

  function Reclaimed(j: Job): Job {
    j.(status := if j.attempts >= j.maxAttempts then Dead else Pending,
       worker := None, heartbeat := None)
  }

  ghost predicate Claimable(rows: Rows, now: int, locked: set<JobId>, id: JobId) {
    id in rows && id !in locked && rows[id].Runnable(now)
  }

  // When a statement can execute: a claim takes a minimal claimable row, or finds none; an
  // UPDATE by primary key waits until nobody else holds the row.
  ghost predicate Enabled(s: Statement, rows: Rows, now: int, locked: set<JobId>) {
    match s
    case Claim(_, id) =>
      && Claimable(rows, now, locked, id)
      && forall k :: Claimable(rows, now, locked, k) ==> rows[id].NoLaterThan(rows[k])
    case ClaimNothing(_) => forall k :: !Claimable(rows, now, locked, k)
    case Heartbeat(_, id) => id !in locked
    case Complete(_, id) => id !in locked
    case Fail(_, id, _, _) => id !in locked
    case Reclaim(_) => true
  }

  // The rows a statement writes.
  function Writes(s: Statement, rows: Rows, now: int, locked: set<JobId>): Rows {
    match s
    case Claim(w, id) => if id in rows then map[id := Claimed(rows[id], w, now)] else map[]
    case ClaimNothing(_) => map[]
    case Heartbeat(w, id) =>
      if id in rows && rows[id].OwnedBy(w) then map[id := rows[id].(heartbeat := Some(now))] else map[]
    case Complete(w, id) =>
      if id in rows && rows[id].OwnedBy(w)
      then map[id := rows[id].(status := Completed, heartbeat := Some(now))] else map[]
    case Fail(w, id, attempts, permanent) =>
      if id in rows && rows[id].OwnedBy(w)
      then map[id := Failed(rows[id], now + RetryBackoffSeconds(attempts), permanent)] else map[]
    case Reclaim(timeout) =>
      map id | id in rows && id !in locked && rows[id].Stale(now, timeout) :: Reclaimed(rows[id])
  }

  // ON CONFLICT (idempotency_key) WHERE idempotency_key IS NOT NULL
  predicate KeyTaken(rows: Rows, key: Option<Key>) {
    key.Some? && exists id :: id in rows && rows[id].key == key
  }

  function NewJob(task: Task, priority: int, runAt: int, maxAttempts: nat, key: Option<Key>): Job {
    Job(task, Pending, priority, runAt, 0, maxAttempts, None, None, key)
  }

  /* ---- Runs of atomic statements ---- */

  datatype Event =
    | Update(statement: Statement, locked: set<JobId>)
    | Insert(id: JobId, task: Task, priority: int, runAt: int, maxAttempts: nat, key: Option<Key>)
    | Purge(ids: set<JobId>)
    | Tick(seconds: nat)

  // `used` are the ids ever given to a row: gen_random_uuid() does not repeat.
  datatype Queue = Queue(rows: Rows, now: int, used: set<JobId>)

  ghost predicate CanStep(q: Queue, e: Event) {
    match e
    case Update(s, locked) => Enabled(s, q.rows, q.now, locked)
    case Insert(id, _, _, _, maxAttempts, _) =>
      id !in q.used && MIN_JOB_ATTEMPTS <= maxAttempts <= MAX_JOB_ATTEMPTS
    case Purge(ids) => forall id :: id in ids ==> id in q.rows && q.rows[id].Terminal()
    case Tick(_) => true
  }

  function Step(q: Queue, e: Event): Queue {
    match e
    case Update(s, locked) => q.(rows := q.rows + Writes(s, q.rows, q.now, locked))
    case Insert(id, task, priority, runAt, maxAttempts, key) =>
      if KeyTaken(q.rows, key) then q
      else q.(rows := q.rows[id := NewJob(task, priority, runAt, maxAttempts, key)], used := q.used + {id})
    case Purge(ids) => q.(rows := q.rows - ids)
    case Tick(seconds) => q.(now := q.now + seconds)
  }

  ghost predicate IsRun(q: Queue, es: seq<Event>)
    decreases |es|
  {
    es == [] || (CanStep(q, es[0]) && IsRun(Step(q, es[0]), es[1..]))
  }

  function Run(q: Queue, es: seq<Event>): Queue
    decreases |es|
  {
    if es == [] then q else Run(Step(q, es[0]), es[1..])
  }

  const Start := Queue(map[], 0, {})

  /* ---- What every reachable state satisfies ---- */

  ghost predicate GoodRow(j: Job) {
    && MIN_JOB_ATTEMPTS <= j.maxAttempts <= MAX_JOB_ATTEMPTS
    && j.attempts <= j.maxAttempts
    && (j.status.Pending? ==> j.attempts < j.maxAttempts && j.worker == None && j.heartbeat == None)
    && (j.status.Processing? ==> j.attempts >= 1 && j.worker.Some? && j.heartbeat.Some?)
    && (j.status.Dead? ==> j.worker == None && j.heartbeat == None)
    && (j.status.Completed? ==> j.attempts >= 1 && j.worker.Some?)
  }

  ghost predicate GoodRows(rows: Rows) {
    && (forall id :: id in rows ==> GoodRow(rows[id]))
    && (forall a, b :: a in rows && b in rows && a != b && rows[a].key.Some? ==> rows[a].key != rows[b].key)
  }

  ghost predicate Good(q: Queue) {
    GoodRows(q.rows) && q.rows.Keys <= q.used
  }

  // A write keeps the key, task and attempt limit of the row it replaces.
  lemma WritesKeepIdentity(s: Statement, rows: Rows, now: int, locked: set<JobId>)
    ensures var w := Writes(s, rows, now, locked);
      && w.Keys <= rows.Keys
      && forall id :: id in w ==> w[id].key == rows[id].key && w[id].task == rows[id].task
                                  && w[id].maxAttempts == rows[id].maxAttempts
  {
  }

  lemma WritesAreGood(s: Statement, rows: Rows, now: int, locked: set<JobId>)
    requires GoodRows(rows) && Enabled(s, rows, now, locked)
    ensures GoodRows(rows + Writes(s, rows, now, locked))
  {
    var after := rows + Writes(s, rows, now, locked);
    WritesKeepIdentity(s, rows, now, locked);
    forall id | id in after ensures GoodRow(after[id]) {
      assert GoodRow(rows[id]);
    }
    forall a, b | a in after && b in after && a != b && after[a].key.Some?
      ensures after[a].key != after[b].key
    {
      assert after[a].key == rows[a].key && after[b].key == rows[b].key;
    }
  }

  lemma StepKeepsGood(q: Queue, e: Event)
    requires Good(q) && CanStep(q, e)
    ensures Good(Step(q, e))
  {
    if e.Update? {
      WritesKeepIdentity(e.statement, q.rows, q.now, e.locked);
      WritesAreGood(e.statement, q.rows, q.now, e.locked);
    }
  }

  // Every state of every run from the empty table is good.
  lemma {:induction false} ReachableIsGood(q: Queue, es: seq<Event>)
    requires Good(q) && IsRun(q, es)
    ensures Good(Run(q, es))
    decreases |es|
  {
    if es != [] {
      StepKeepsGood(q, es[0]);
      ReachableIsGood(Step(q, es[0]), es[1..]);
    }
  }

  // completed and dead are absorbing: such a row is never rewritten, only purged for good.
  lemma {:induction false} TerminalIsAbsorbing(q: Queue, es: seq<Event>, id: JobId)
    requires Good(q) && IsRun(q, es)
    requires id in q.used && (id in q.rows ==> q.rows[id].Terminal())
    ensures id in Run(q, es).rows ==> id in q.rows && Run(q, es).rows[id] == q.rows[id]
    decreases |es|
  {
    if es != [] {
      StepKeepsGood(q, es[0]);
      TerminalIsAbsorbing(Step(q, es[0]), es[1..], id);
    }
  }

  /* ---- Fencing between distinct workers ---- */

  predicate SettlesAs(e: Event, w: WorkerId, id: JobId) {
    && e.Update?
    && (e.statement.Heartbeat? || e.statement.Complete? || e.statement.Fail?)
    && e.statement.worker == w && e.statement.id == id
  }

  predicate ClaimsAs(e: Event, w: WorkerId, id: JobId) {
    e.Update? && e.statement.Claim? && e.statement.worker == w && e.statement.id == id
  }

  function Without(es: seq<Event>, w: WorkerId, id: JobId): seq<Event> {
    if es == [] then []
    else if SettlesAs(es[0], w, id) then Without(es[1..], w, id)
    else [es[0]] + Without(es[1..], w, id)
  }

  // A worker that does not hold a job cannot affect it: until it claims the job again, erasing
  // all its heartbeats, completions and failures of that job changes no later state.
  lemma {:induction false} StaleWorkerIsFenced(q: Queue, es: seq<Event>, w: WorkerId, id: JobId)
    requires IsRun(q, es)
    requires id in q.rows ==> q.rows[id].worker != Some(w)
    requires forall e :: e in es ==> !ClaimsAs(e, w, id)
    ensures IsRun(q, Without(es, w, id))
    ensures Run(q, Without(es, w, id)) == Run(q, es)
    decreases |es|
  {
    if es != [] {
      var q' := Step(q, es[0]);
      assert es[0] in es;
      assert forall e :: e in es[1..] ==> e in es;
      StaleWorkerIsFenced(q', es[1..], w, id);
      if SettlesAs(es[0], w, id) {
        assert q' == q by { assert q.rows + map[] == q.rows; }
      } else {
        var rest := Without(es[1..], w, id);
        assert ([es[0]] + rest)[1..] == rest;
      }
    }
  }

  /* ---- Termination: every change of a row uses up work ---- */

  function RowWork(j: Job): nat {
    if j.Terminal() || j.attempts > j.maxAttempts then 0
    else if j.status.Pending? then 2 * (j.maxAttempts - j.attempts) + 1
    else 2 * (j.maxAttempts - j.attempts) + 2
  }

  ghost function Work(rows: Rows): nat
    decreases |rows|
  {
    if rows == map[] then 0
    else var id :| id in rows; RowWork(rows[id]) + Work(rows - {id})
  }

  lemma {:induction false} WorkSplits(rows: Rows, id: JobId)
    requires id in rows
    ensures Work(rows) == RowWork(rows[id]) + Work(rows - {id})
    decreases |rows|
  {
    var k :| k in rows && Work(rows) == RowWork(rows[k]) + Work(rows - {k});
    if k != id {
      WorkSplits(rows - {k}, id);
      WorkSplits(rows - {id}, k);
      assert rows - {k} - {id} == rows - {id} - {k};
    }
  }

  lemma WorkOfInsert(rows: Rows, id: JobId, j: Job)
    requires id !in rows
    ensures Work(rows[id := j]) == Work(rows) + RowWork(j)
  {
    WorkSplits(rows[id := j], id);
    assert rows[id := j] - {id} == rows;
  }

  lemma {:induction false} WorkOfPurge(rows: Rows, ids: set<JobId>)
    requires forall id :: id in ids ==> id in rows && rows[id].Terminal()
    ensures Work(rows - ids) == Work(rows)
    decreases |ids|
  {
    if ids == {} {
      assert rows - ids == rows;
    } else {
      var id :| id in ids;
      WorkSplits(rows, id);
      WorkOfPurge(rows - {id}, ids - {id});
      assert rows - {id} - (ids - {id}) == rows - ids;
    }
  }

  // Writing rows one by one, each using up at least one unit.
  lemma {:induction false} WorkDrops(rows: Rows, writes: Rows)
    requires writes.Keys <= rows.Keys
    requires forall id :: id in writes ==> RowWork(writes[id]) < RowWork(rows[id])
    ensures Work(rows + writes) + |writes| <= Work(rows)
    decreases |writes|
  {
    if writes == map[] {
      assert rows + writes == rows;
    } else {
      var id :| id in writes;
      var rest := writes - {id};
      WorkSplits(rows, id);
      WorkSplits(rows + writes, id);
      assert (rows - {id}) + rest == (rows + writes) - {id};
      assert |writes| == |rest| + 1;
      WorkDrops(rows - {id}, rest);
    }
  }

  // Row changes made by claims, completions, failures and reclaims (a heartbeat settles nothing).
  ghost function Changes(q: Queue, e: Event): nat {
    if e.Update? && !e.statement.Heartbeat? then |Writes(e.statement, q.rows, q.now, e.locked)| else 0
  }

  ghost function TotalChanges(q: Queue, es: seq<Event>): nat
    decreases |es|
  {
    if es == [] then 0 else Changes(q, es[0]) + TotalChanges(Step(q, es[0]), es[1..])
  }

  function Inserted(es: seq<Event>): nat {
    if es == [] then 0
    else (if es[0].Insert? then 2 * es[0].maxAttempts + 1 else 0) + Inserted(es[1..])
  }

  lemma HeartbeatKeepsWork(rows: Rows, w: WorkerId, id: JobId, now: int)
    ensures Work(rows + Writes(Heartbeat(w, id), rows, now, {})) == Work(rows)
  {
    var writes := Writes(Heartbeat(w, id), rows, now, {});
    if writes == map[] {
      assert rows + writes == rows;
    } else {
      WorkSplits(rows, id);
      WorkSplits(rows + writes, id);
      assert (rows + writes) - {id} == rows - {id};
    }
  }

  // The measure strictly drops on every claim, complete, fail and reclaim that changes a row.
  lemma StepUsesWork(q: Queue, e: Event)
    requires Good(q) && CanStep(q, e)
    ensures Work(Step(q, e).rows) + Changes(q, e) <= Work(q.rows) + Inserted([e])
  {
    match e {
      case Update(s, locked) =>
        if s.Heartbeat? {
          HeartbeatKeepsWork(q.rows, s.worker, s.id, q.now);
        } else {
          WorkDrops(q.rows, Writes(s, q.rows, q.now, locked));
        }
      case Insert(id, task, priority, runAt, maxAttempts, key) =>
        if !KeyTaken(q.rows, key) {
          WorkOfInsert(q.rows, id, NewJob(task, priority, runAt, maxAttempts, key));
        }
      case Purge(ids) => WorkOfPurge(q.rows, ids);
      case Tick(_) =>
    }
  }

  // A run with finitely many enqueues makes finitely many row changes.
  lemma {:induction false} RunsUseWork(q: Queue, es: seq<Event>)
    requires Good(q) && IsRun(q, es)
    ensures Work(Run(q, es).rows) + TotalChanges(q, es) <= Work(q.rows) + Inserted(es)
    decreases |es|
  {
    if es != [] {
      StepKeepsGood(q, es[0]);
      StepUsesWork(q, es[0]);
      RunsUseWork(Step(q, es[0]), es[1..]);
    }
  }

  /* ---- Claims of one job ---- */

  function Claims(es: seq<Event>, id: JobId): nat {
    if es == [] then 0
    else (if es[0].Update? && es[0].statement.Claim? && es[0].statement.id == id then 1 else 0) + Claims(es[1..], id)
  }

  // No job is claimed more often than its max_attempts allows, whatever crashes and reclaims
  // happen in between; `attempts` counts the claims exactly.
  lemma {:induction false} ClaimsAreAttempts(q: Queue, es: seq<Event>, id: JobId)
    requires Good(q) && IsRun(q, es)
    ensures id in q.rows && id in Run(q, es).rows ==>
      Run(q, es).rows[id].attempts == q.rows[id].attempts + Claims(es, id)
    ensures id in q.rows ==> q.rows[id].attempts + Claims(es, id) <= q.rows[id].maxAttempts
    ensures id !in q.rows ==> Claims(es, id) <= MAX_JOB_ATTEMPTS
    ensures id !in q.rows && id in q.used ==> Claims(es, id) == 0
    ensures id !in q.rows && id in Run(q, es).rows ==> Run(q, es).rows[id].attempts == Claims(es, id)
    decreases |es|
  {
    if es != [] {
      var q' := Step(q, es[0]);
      StepKeepsGood(q, es[0]);
      ClaimsAreAttempts(q', es[1..], id);
      if id in q'.used && id !in q'.rows {
        TerminalOrGone(q', es[1..], id);
      }
    }
  }

  // A purged id never comes back.
  lemma {:induction false} TerminalOrGone(q: Queue, es: seq<Event>, id: JobId)
    requires Good(q) && IsRun(q, es) && id in q.used && id !in q.rows
    ensures id !in Run(q, es).rows
    decreases |es|
  {
    if es != [] {
      StepKeepsGood(q, es[0]);
      TerminalOrGone(Step(q, es[0]), es[1..], id);
    }
  }

  // A retried job waits: after a failure that does not kill it, it cannot be claimed at once.
  lemma RetryWaits(j: Job, now: int, attempts: int, permanent: bool)
    ensures 2 <= RetryBackoffSeconds(attempts) <= 300
    ensures !Failed(j, now + RetryBackoffSeconds(attempts), permanent).Runnable(now + 1)
    ensures Failed(j, now, permanent).status.Dead? <==> permanent || j.attempts >= j.maxAttempts
  {
    assert forall n: nat {:trigger Pow2(n)} :: 1 <= n ==> Pow2(n) == 2 * Pow2(n - 1);
  }

  /* ---- A live worker keeps its job ---- */

  // In every state of the run the last heartbeat of the job is at most `limit` seconds old.
  ghost predicate Timely(q: Queue, es: seq<Event>, id: JobId, limit: int)
    decreases |es|
  {
    && (id in q.rows && q.rows[id].heartbeat.Some? ==> q.now - q.rows[id].heartbeat.value <= limit)
    && (es == [] || Timely(Step(q, es[0]), es[1..], id, limit))
  }

  predicate EndsAs(e: Event, w: WorkerId, id: JobId) {
    e.Update? && (e.statement.Complete? || e.statement.Fail?) && e.statement.worker == w && e.statement.id == id
  }

  lemma LiveStep(q: Queue, e: Event, w: WorkerId, id: JobId, limit: int)
    requires Good(q) && CanStep(q, e) && id in q.rows && q.rows[id].OwnedBy(w)
    requires q.rows[id].heartbeat.Some? ==> q.now - q.rows[id].heartbeat.value <= limit
    requires e.Update? && e.statement.Reclaim? ==> e.statement.timeout >= limit
    requires !EndsAs(e, w, id)
    ensures id in Step(q, e).rows && Step(q, e).rows[id].OwnedBy(w) && Step(q, e).rows[id].attempts == q.rows[id].attempts
  {
    assert GoodRow(q.rows[id]);
  }

  // While heartbeats come in time, nobody takes a job from the worker that runs it: neither another
  // worker's late statements nor a reclaim with a longer timeout.
  lemma {:induction false} LiveWorkerKeepsJob(q: Queue, es: seq<Event>, w: WorkerId, id: JobId, limit: int)
    requires Good(q) && IsRun(q, es) && id in q.rows && q.rows[id].OwnedBy(w) && Timely(q, es, id, limit)
    requires forall e :: e in es && e.Update? && e.statement.Reclaim? ==> e.statement.timeout >= limit
    requires forall e :: e in es ==> !EndsAs(e, w, id)
    ensures id in Run(q, es).rows && Run(q, es).rows[id].OwnedBy(w)
    ensures Run(q, es).rows[id].attempts == q.rows[id].attempts
    decreases |es|
  {
    if es != [] {
      assert es[0] in es;
      assert forall e :: e in es[1..] ==> e in es;
      StepKeepsGood(q, es[0]);
      LiveStep(q, es[0], w, id, limit);
      LiveWorkerKeepsJob(Step(q, es[0]), es[1..], w, id, limit);
    }
  }
}
