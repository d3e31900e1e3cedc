/** app/worker.py and app/public_lifecycle_worker.py: each way a job can start or end, and what
    the same transaction does to the public requests linked to it. */
module JobLifecycle {
  import opened Wrappers
  import Jobs
  import opened PublicLifecycle

  datatype World = World(queue: Jobs.Queue, judit: map<Jobs.AcquisitionId, string>, requests: Requests)

  datatype Event =
    | QueueEvent(event: Jobs.Event)
    | StartJob(worker: Jobs.WorkerId, id: Jobs.JobId)
    | CompleteJob(worker: Jobs.WorkerId, id: Jobs.JobId, published: Option<nat>)
    | FailJob(worker: Jobs.WorkerId, id: Jobs.JobId, attempts: int, permanent: bool)
    | ReclaimJobs(timeout: nat, locked: set<Jobs.JobId>, reclaimed: seq<Jobs.JobId>)
    | CreateRequest(id: RequestId, created: PublicRequest)
    | LinkRequest(id: RequestId, acquisition: Jobs.AcquisitionId)
    | RecordRequestId(acquisition: Jobs.AcquisitionId, request: string)
    | Progress(link: Link, target: Target)

  // Transitions of the acquisition task and of the finalizer: a completed request names its summary,
  // and no other transition does.
  predicate ProgressTarget(t: Target) {
    t.status.Completed? <==> t.summary.Some?
  }

  /* ---- public_lifecycle_worker ---- */

  function MarkStarted(w: World, task: Jobs.Task): Requests {
    if task.SummaryTask? then MovedAll(w.requests, JobLink(task), w.judit, To(Generating), w.queue.now) else w.requests
  }

  function MarkDead(reqs: Requests, judit: map<Jobs.AcquisitionId, string>, now: int, task: Jobs.Task, code: string): Requests {
    MovedAll(reqs, JobLink(task), judit, To(Failed).(error := Some(code)), now)
  }

  // `published` is the summary the publication gate let through, if it did.
  function Reconciled(w: World, task: Jobs.Task, published: Option<nat>): Requests {
    if !task.SummaryTask? then w.requests
    else
      var validating := MovedAll(w.requests, JobLink(task), w.judit, To(Validating), w.queue.now);
      var end := if published.Some?
        then Target(Completed, Some(task.process), Some(task.version), published, None)
        else Target(ValidationFailed, Some(task.process), Some(task.version), None, Some("validation_failed"));
      MovedAll(validating, JobLink(task), w.judit, end, w.queue.now)
  }

  // The reclaimer marks the dead jobs one after another in the transaction that reclaimed them.
  function MarkReclaimed(reqs: Requests, judit: map<Jobs.AcquisitionId, string>, now: int, rows: Jobs.Rows, ids: seq<Jobs.JobId>): Requests
  {
    if ids == [] then reqs
    else
      var before := MarkReclaimed(reqs, judit, now, rows, ids[..|ids| - 1]);
      var id := ids[|ids| - 1];
      if id in rows && rows[id].status.Dead?
      then MarkDead(before, judit, now, rows[id].task, "job_reclaim_exhausted") else before
  }

  function After(w: World, s: Jobs.Statement): Jobs.Queue {
    Jobs.Step(w.queue, Jobs.Update(s, {}))
  }

  predicate Owns(w: World, worker: Jobs.WorkerId, id: Jobs.JobId) {
    id in w.queue.rows && w.queue.rows[id].OwnedBy(worker)
  }

  ghost predicate CanStep(w: World, e: Event) {
    match e
    case QueueEvent(event) =>
      && Jobs.CanStep(w.queue, event)
      && (event.Update? ==> event.statement.Claim? || event.statement.ClaimNothing? || event.statement.Heartbeat?)
    case ReclaimJobs(timeout, locked, reclaimed) =>
      forall id :: id in reclaimed <==> id in Jobs.Writes(Jobs.Reclaim(timeout), w.queue.rows, w.queue.now, locked)
    case CreateRequest(id, r) =>
      id !in w.requests && r.status.Queued? && r.summary == None && r.completedAt == None
    case LinkRequest(id, k) =>
      id in w.requests && (w.requests[id].acquisition == None || w.requests[id].acquisition == Some(k))
    case RecordRequestId(k, _) => k !in w.judit
    case Progress(_, t) => ProgressTarget(t)
    case _ => true
  }

  function Step(w: World, e: Event): World {
    match e
    case QueueEvent(event) => w.(queue := Jobs.Step(w.queue, event))
    case StartJob(worker, id) =>
      // Nothing happens in a lost job: the heartbeat did not match.
      if !Owns(w, worker, id) then w
      else w.(queue := After(w, Jobs.Heartbeat(worker, id)), requests := MarkStarted(w, w.queue.rows[id].task))
    case CompleteJob(worker, id, published) =>
      if !Owns(w, worker, id) then w
      else w.(queue := After(w, Jobs.Complete(worker, id)), requests := Reconciled(w, w.queue.rows[id].task, published))
    case FailJob(worker, id, attempts, permanent) =>
      if !Owns(w, worker, id) then w
      else
        var q := After(w, Jobs.Fail(worker, id, attempts, permanent));
        w.(queue := q,
           requests := if q.rows[id].status.Dead?
                       then MarkDead(w.requests, w.judit, w.queue.now, q.rows[id].task, "job_failed") else w.requests)
    case ReclaimJobs(timeout, locked, reclaimed) =>
      var q := Jobs.Step(w.queue, Jobs.Update(Jobs.Reclaim(timeout), locked));
      w.(queue := q, requests := MarkReclaimed(w.requests, w.judit, w.queue.now, q.rows, reclaimed))
    case CreateRequest(id, r) => w.(requests := w.requests[id := r])
    case LinkRequest(id, k) =>
      if id in w.requests then w.(requests := w.requests[id := w.requests[id].(acquisition := Some(k))]) else w
    case RecordRequestId(k, request) => w.(judit := w.judit[k := request])
    case Progress(link, t) => w.(requests := MovedAll(w.requests, link, w.judit, t, w.queue.now))
  }

  ghost predicate IsRun(w: World, es: seq<Event>)
    decreases |es|
  {
    es == [] || (CanStep(w, es[0]) && IsRun(Step(w, es[0]), es[1..]))
  }

  function Run(w: World, es: seq<Event>): World
    decreases |es|
  {
    if es == [] then w else Run(Step(w, es[0]), es[1..])
  }

  const Start := World(Jobs.Start, map[], map[])

  /* ---- What a step may do to a public request ---- */

  // Progress never regresses, and a terminal status, with its links, stays.
  predicate Advances(a: PublicRequest, b: PublicRequest) {
    && a.status.Rank() <= b.status.Rank()
    && (a.status.Terminal() ==> b.status == a.status)
  }

  ghost predicate AllAdvance(a: Requests, b: Requests) {
    a.Keys <= b.Keys && forall id :: id in a ==> Advances(a[id], b[id])
  }

  lemma MovedAllAdvances(reqs: Requests, link: Link, judit: map<Jobs.AcquisitionId, string>, t: Target, now: int)
    ensures AllAdvance(reqs, MovedAll(reqs, link, judit, t, now))
  {
  }

  lemma {:induction false} MarkReclaimedAdvances(reqs: Requests, judit: map<Jobs.AcquisitionId, string>, now: int, rows: Jobs.Rows, ids: seq<Jobs.JobId>)
    ensures AllAdvance(reqs, MarkReclaimed(reqs, judit, now, rows, ids))
    ensures MarkReclaimed(reqs, judit, now, rows, ids).Keys == reqs.Keys
  {
    if ids != [] {
      MarkReclaimedAdvances(reqs, judit, now, rows, ids[..|ids| - 1]);
    }
  }

  lemma ReconciledAdvances(w: World, task: Jobs.Task, published: Option<nat>)
    ensures AllAdvance(w.requests, Reconciled(w, task, published))
  {
    if task.SummaryTask? {
      var validating := MovedAll(w.requests, JobLink(task), w.judit, To(Validating), w.queue.now);
      MovedAllAdvances(w.requests, JobLink(task), w.judit, To(Validating), w.queue.now);
      forall id | id in w.requests ensures Advances(w.requests[id], Reconciled(w, task, published)[id]) {
        assert Advances(w.requests[id], validating[id]);
      }
    }
  }

  lemma FailureAdvances(w: World, worker: Jobs.WorkerId, id: Jobs.JobId, attempts: int, permanent: bool)
    requires Owns(w, worker, id)
    ensures AllAdvance(w.requests, Step(w, FailJob(worker, id, attempts, permanent)).requests)
  {
    var q := After(w, Jobs.Fail(worker, id, attempts, permanent));
    MovedAllAdvances(w.requests, JobLink(q.rows[id].task), w.judit, To(Failed).(error := Some("job_failed")), w.queue.now);
  }

  lemma StepAdvances(w: World, e: Event)
    requires CanStep(w, e)
    ensures AllAdvance(w.requests, Step(w, e).requests)
  {
    match e {
      case StartJob(worker, id) =>
        if Owns(w, worker, id) {
          MovedAllAdvances(w.requests, JobLink(w.queue.rows[id].task), w.judit, To(Generating), w.queue.now);
        }
      case CompleteJob(worker, id, published) =>
        if Owns(w, worker, id) {
          ReconciledAdvances(w, w.queue.rows[id].task, published);
        }
      case FailJob(worker, id, attempts, permanent) =>
        if Owns(w, worker, id) {
          FailureAdvances(w, worker, id, attempts, permanent);
        }
      case ReclaimJobs(timeout, locked, reclaimed) =>
        var q := Jobs.Step(w.queue, Jobs.Update(Jobs.Reclaim(timeout), locked));
        MarkReclaimedAdvances(w.requests, w.judit, w.queue.now, q.rows, reclaimed);
      case Progress(link, t) => MovedAllAdvances(w.requests, link, w.judit, t, w.queue.now);
      case _ =>
    }
  }

  // Over every run.
  lemma {:induction false} RunAdvances(w: World, es: seq<Event>)
    requires IsRun(w, es)
    ensures AllAdvance(w.requests, Run(w, es).requests)
    decreases |es|
  {
    if es != [] {
      StepAdvances(w, es[0]);
      RunAdvances(Step(w, es[0]), es[1..]);
      var mid, end := Step(w, es[0]).requests, Run(w, es).requests;
      forall id | id in w.requests ensures Advances(w.requests[id], end[id]) {
        assert Advances(w.requests[id], mid[id]) && Advances(mid[id], end[id]);
      }
    }
  }

  /* ---- completed_at and summary_id ---- */

  predicate GoodRequest(r: PublicRequest) {
    && (r.completedAt.Some? <==> r.status.Terminal())
    && (r.summary.Some? <==> r.status.Completed?)
  }

  ghost predicate GoodRequests(reqs: Requests) {
    forall id :: id in reqs ==> GoodRequest(reqs[id])
  }

  lemma MovedAllKeepsGood(reqs: Requests, link: Link, judit: map<Jobs.AcquisitionId, string>, t: Target, now: int)
    requires GoodRequests(reqs) && ProgressTarget(t)
    ensures GoodRequests(MovedAll(reqs, link, judit, t, now))
  {
  }

  lemma {:induction false} MarkReclaimedKeepsGood(reqs: Requests, judit: map<Jobs.AcquisitionId, string>, now: int, rows: Jobs.Rows, ids: seq<Jobs.JobId>)
    requires GoodRequests(reqs)
    ensures GoodRequests(MarkReclaimed(reqs, judit, now, rows, ids))
  {
    if ids != [] {
      MarkReclaimedKeepsGood(reqs, judit, now, rows, ids[..|ids| - 1]);
    }
  }

  lemma ReconciledKeepsGood(w: World, task: Jobs.Task, published: Option<nat>)
    requires GoodRequests(w.requests)
    ensures GoodRequests(Reconciled(w, task, published))
  {
    if task.SummaryTask? {
      MovedAllKeepsGood(w.requests, JobLink(task), w.judit, To(Validating), w.queue.now);
    }
  }

  lemma StepKeepsGood(w: World, e: Event)
    requires CanStep(w, e) && GoodRequests(w.requests)
    ensures GoodRequests(Step(w, e).requests)
  {
    match e {
      case CompleteJob(worker, id, published) =>
        if Owns(w, worker, id) {
          ReconciledKeepsGood(w, w.queue.rows[id].task, published);
        }
      case ReclaimJobs(timeout, locked, reclaimed) =>
        var q := Jobs.Step(w.queue, Jobs.Update(Jobs.Reclaim(timeout), locked));
        MarkReclaimedKeepsGood(w.requests, w.judit, w.queue.now, q.rows, reclaimed);
      case _ =>
    }
  }

  // completed_at is set exactly in terminal states and summary_id exactly in completed ones,
  // over every run.
  lemma {:induction false} RunKeepsGood(w: World, es: seq<Event>)
    requires IsRun(w, es) && GoodRequests(w.requests)
    ensures GoodRequests(Run(w, es).requests)
    decreases |es|
  {
    if es != [] {
      StepKeepsGood(w, es[0]);
      RunKeepsGood(Step(w, es[0]), es[1..]);
    }
  }

  /* ---- The end of a job is the end of its public requests ---- */

  // The provider request a public request waits for.
  predicate WaitsFor(r: PublicRequest, request: string, judit: map<Jobs.AcquisitionId, string>) {
    r.acquisition.Some? && r.acquisition.value in judit && judit[r.acquisition.value] == request
  }

  // The job works for the public request: an acquisition for those linked to it, a finalizer for
  // those of its provider request, a summary job for those too or, without one, for its version.
  predicate Concerns(task: Jobs.Task, r: PublicRequest, judit: map<Jobs.AcquisitionId, string>) {
    match task
    case AcquireTask(k) => r.acquisition == Some(k)
    case FinalizeTask(request) => WaitsFor(r, request, judit)
    case SummaryTask(_, version, request) =>
      if request == None || request == Some("") then r.version == Some(version) else WaitsFor(r, request.value, judit)
    case OtherTask(_) => false
  }

  // A request that had ended otherwise keeps its row.
  function Died(r: PublicRequest, code: string, now: int): PublicRequest {
    if r.status in ENDS && r.status != Failed then r
    else r.(status := Failed, error := Some(code), completedAt := Some(now))
  }

  function Settled(r: PublicRequest, process: nat, version: nat, published: Option<nat>, now: int): PublicRequest {
    if r.status in ENDS && r.status != (if published.Some? then Completed else ValidationFailed) then r
    else if published.Some? then
      r.(status := Completed, process := Some(process), version := Some(version), summary := published, error := None,
         completedAt := Some(now))
    else
      r.(status := ValidationFailed, process := Some(process), version := Some(version), error := Some("validation_failed"),
         completedAt := Some(now))
  }

  // A job that lost its worker in its last attempt.
  predicate Exhausted(w: World, k: Jobs.JobId, timeout: int, locked: set<Jobs.JobId>) {
    && k in w.queue.rows && k !in locked
    && w.queue.rows[k].status == Jobs.Processing && w.queue.rows[k].heartbeat.Some?
    && w.queue.now - w.queue.rows[k].heartbeat.value > timeout
    && w.queue.rows[k].attempts >= w.queue.rows[k].maxAttempts
  }

  // The job of a row that is not terminal becomes completed or dead in this step.
  ghost predicate Ends(w: World, e: Event, id: Jobs.JobId) {
    && id in w.queue.rows && !w.queue.rows[id].Terminal()
    && id in Step(w, e).queue.rows && Step(w, e).queue.rows[id].Terminal()
  }

  // Marking the dead jobs of one transaction ends every request of one of them.
  lemma MarkReclaimedEnds(reqs: Requests, judit: map<Jobs.AcquisitionId, string>, now: int,
                          rows: Jobs.Rows, ids: seq<Jobs.JobId>, job: Jobs.JobId, id: RequestId)
    requires job in ids && job in rows && rows[job].status.Dead?
    requires id in reqs && Concerns(rows[job].task, reqs[id], judit)
    ensures id in MarkReclaimed(reqs, judit, now, rows, ids)
    ensures MarkReclaimed(reqs, judit, now, rows, ids)[id].status.Terminal()
  {
    MarkReclaimedMeans(reqs, judit, now, rows, ids, id);
  }

  lemma ReconciledEnds(w: World, task: Jobs.Task, published: Option<nat>, id: RequestId)
    requires task.SummaryTask? && id in w.requests && Concerns(task, w.requests[id], w.judit)
    ensures Reconciled(w, task, published)[id].status.Terminal()
  {
    ReconciledIs(w, task, published, id);
  }

  // However a summary job ends, by success, by failure or by reclaim, every public request linked
  // to it at that moment is terminal, and has the same terminal status in all later states.
  lemma JobEndIsPublicEnd(w: World, e: Event, later: seq<Event>, job: Jobs.JobId, id: RequestId)
    requires CanStep(w, e) && IsRun(Step(w, e), later)
    requires Ends(w, e, job) && w.queue.rows[job].task.SummaryTask?
    requires id in w.requests && Concerns(w.queue.rows[job].task, w.requests[id], w.judit)
    ensures id in Step(w, e).requests && Step(w, e).requests[id].status.Terminal()
    ensures id in Run(Step(w, e), later).requests
    ensures Run(Step(w, e), later).requests[id].status == Step(w, e).requests[id].status
  {
    EndIsPublicEnd(w, e, job, id);
    RunAdvances(Step(w, e), later);
  }

  lemma EndIsPublicEnd(w: World, e: Event, job: Jobs.JobId, id: RequestId)
    requires CanStep(w, e) && Ends(w, e, job) && w.queue.rows[job].task.SummaryTask?
    requires id in w.requests && Concerns(w.queue.rows[job].task, w.requests[id], w.judit)
    ensures id in Step(w, e).requests && Step(w, e).requests[id].status.Terminal()
  {
    EndedBy(w, e, job);
    if e.CompleteJob? {
      CompletionMarks(w, e.worker, job, e.published, id);
    } else {
      JobDeathIsPublicEnd(w, e, job, id);
    }
  }

  // A job ends by the completion or the failure its owner reports, or by a reclaim.
  lemma EndedBy(w: World, e: Event, job: Jobs.JobId)
    requires CanStep(w, e) && Ends(w, e, job)
    ensures e.CompleteJob? || e.FailJob? || e.ReclaimJobs?
    ensures e.CompleteJob? || e.FailJob? ==> e.id == job && Owns(w, e.worker, job)
    ensures e.ReclaimJobs? ==> job in e.reclaimed
    ensures !e.CompleteJob? <==> Step(w, e).queue.rows[job].status.Dead?
  {
  }

  // Any job of the pipeline that dies takes its linked public requests with it.
  lemma JobDeathIsPublicEnd(w: World, e: Event, job: Jobs.JobId, id: RequestId)
    requires CanStep(w, e) && Ends(w, e, job) && Step(w, e).queue.rows[job].status.Dead?
    requires id in w.requests && Concerns(w.queue.rows[job].task, w.requests[id], w.judit)
    ensures id in Step(w, e).requests && Step(w, e).requests[id].status.Terminal()
  {
    EndedBy(w, e, job);
    if e.ReclaimJobs? {
      ReclaimDeath(w, e.timeout, e.locked, e.reclaimed, job, id);
    } else {
      FailureMarks(w, e.worker, e.id, e.attempts, e.permanent, id);
    }
  }

  lemma ReclaimDeath(w: World, timeout: nat, locked: set<Jobs.JobId>, reclaimed: seq<Jobs.JobId>, job: Jobs.JobId, id: RequestId)
    requires Ends(w, ReclaimJobs(timeout, locked, reclaimed), job) && job in reclaimed
    requires Step(w, ReclaimJobs(timeout, locked, reclaimed)).queue.rows[job].status.Dead?
    requires id in w.requests && Concerns(w.queue.rows[job].task, w.requests[id], w.judit)
    ensures var t := Step(w, ReclaimJobs(timeout, locked, reclaimed)).requests; id in t && t[id].status.Terminal()
  {
    var q := Jobs.Step(w.queue, Jobs.Update(Jobs.Reclaim(timeout), locked));
    MarkReclaimedEnds(w.requests, w.judit, w.queue.now, q.rows, reclaimed, job, id);
  }

  // Completing a job makes a linked request terminal exactly if it is a summary job, or the request
  // was terminal before; other tasks leave all requests as they were.
  lemma CompletionEndsExactly(w: World, worker: Jobs.WorkerId, job: Jobs.JobId, published: Option<nat>, id: RequestId)
    requires Owns(w, worker, job) && id in w.requests
    requires Concerns(w.queue.rows[job].task, w.requests[id], w.judit)
    ensures Ends(w, CompleteJob(worker, job, published), job)
    ensures !w.queue.rows[job].task.SummaryTask? ==> Step(w, CompleteJob(worker, job, published)).requests == w.requests
    ensures id in Step(w, CompleteJob(worker, job, published)).requests
    ensures Step(w, CompleteJob(worker, job, published)).requests[id].status.Terminal() <==>
      w.queue.rows[job].task.SummaryTask? || w.requests[id].status.Terminal()
  {
    if w.queue.rows[job].task.SummaryTask? {
      ReconciledEnds(w, w.queue.rows[job].task, published, id);
    }
  }

  /* ---- What becomes of every request, column by column ---- */

  lemma {:induction false} MarkReclaimedMeans(reqs: Requests, judit: map<Jobs.AcquisitionId, string>, now: int,
                                              rows: Jobs.Rows, ids: seq<Jobs.JobId>, id: RequestId)
    requires id in reqs
    ensures id in MarkReclaimed(reqs, judit, now, rows, ids)
    ensures MarkReclaimed(reqs, judit, now, rows, ids)[id] ==
      if exists k :: k in ids && k in rows && rows[k].status == Jobs.Dead && Concerns(rows[k].task, reqs[id], judit)
      then Died(reqs[id], "job_reclaim_exhausted", now) else reqs[id]
  {
    if ids != [] {
      var front, last := ids[..|ids| - 1], ids[|ids| - 1];
      MarkReclaimedMeans(reqs, judit, now, rows, front, id);
      assert forall k :: k in ids <==> k in front || k == last;
      if last in rows && rows[last].status.Dead? {
        var before := MarkReclaimed(reqs, judit, now, rows, front);
        DeadMarks(before[id], rows[last].task, judit, "job_reclaim_exhausted", now);
      }
    }
  }

  lemma DeadMarks(r: PublicRequest, task: Jobs.Task, judit: map<Jobs.AcquisitionId, string>, code: string, now: int)
    ensures Concerns(task, r, judit) <==> Linked(JobLink(task), r, judit)
    ensures Moved(r, To(Failed).(error := Some(code)), now) == Died(r, code, now)
    ensures Concerns(task, Died(r, code, now), judit) <==> Concerns(task, r, judit)
    ensures Died(Died(r, code, now), code, now) == Died(r, code, now)
  {
    MovesExactly(r, To(Failed).(error := Some(code)), now);
  }

  // A failure ends the requests of the job if it was its last attempt or permanent, and leaves all
  // others alone.
  lemma FailureMarks(w: World, worker: Jobs.WorkerId, job: Jobs.JobId, attempts: int, permanent: bool, id: RequestId)
    requires Owns(w, worker, job) && id in w.requests
    ensures var j := w.queue.rows[job];
      var t := Step(w, FailJob(worker, job, attempts, permanent)).requests;
      && Step(w, FailJob(worker, job, attempts, permanent)).queue == Jobs.Step(w.queue, Jobs.Update(Jobs.Fail(worker, job, attempts, permanent), {}))
      && t.Keys == w.requests.Keys
      && t[id] == if (permanent || j.attempts >= j.maxAttempts) && Concerns(j.task, w.requests[id], w.judit)
                  then Died(w.requests[id], "job_failed", w.queue.now) else w.requests[id]
  {
    DeadMarks(w.requests[id], w.queue.rows[job].task, w.judit, "job_failed", w.queue.now);
  }

  // The reclaimer ends the requests of the stale jobs without attempts left, and no others.
  lemma ReclaimMarks(w: World, timeout: nat, locked: set<Jobs.JobId>, reclaimed: seq<Jobs.JobId>, id: RequestId)
    requires CanStep(w, ReclaimJobs(timeout, locked, reclaimed)) && id in w.requests
    ensures var t := Step(w, ReclaimJobs(timeout, locked, reclaimed)).requests;
      && Step(w, ReclaimJobs(timeout, locked, reclaimed)).queue == Jobs.Step(w.queue, Jobs.Update(Jobs.Reclaim(timeout), locked))
      && t.Keys == w.requests.Keys
      && t[id] == if exists k :: Exhausted(w, k, timeout, locked) && Concerns(w.queue.rows[k].task, w.requests[id], w.judit)
                  then Died(w.requests[id], "job_reclaim_exhausted", w.queue.now) else w.requests[id]
  {
    var q := Jobs.Step(w.queue, Jobs.Update(Jobs.Reclaim(timeout), locked));
    MarkReclaimedMeans(w.requests, w.judit, w.queue.now, q.rows, reclaimed, id);
    MarkReclaimedAdvances(w.requests, w.judit, w.queue.now, q.rows, reclaimed);
    forall k ensures k in reclaimed && k in q.rows && q.rows[k].status == Jobs.Dead <==> Exhausted(w, k, timeout, locked) {
      assert k in q.rows ==> q.rows[k].task == w.queue.rows[k].task;
    }
    assert forall k :: k in reclaimed ==> k in q.rows && q.rows[k].task == w.queue.rows[k].task;
  }

  // Completing a summary job settles its requests, and completing any other job none.
  lemma CompletionMarks(w: World, worker: Jobs.WorkerId, job: Jobs.JobId, published: Option<nat>, id: RequestId)
    requires Owns(w, worker, job) && id in w.requests
    ensures var task := w.queue.rows[job].task;
      var t := Step(w, CompleteJob(worker, job, published)).requests;
      && Step(w, CompleteJob(worker, job, published)).queue == Jobs.Step(w.queue, Jobs.Update(Jobs.Complete(worker, job), {}))
      && t.Keys == w.requests.Keys
      && t[id] == if task.SummaryTask? && Concerns(task, w.requests[id], w.judit)
                  then Settled(w.requests[id], task.process, task.version, published, w.queue.now) else w.requests[id]
  {
    var task := w.queue.rows[job].task;
    if task.SummaryTask? {
      ReconciledIs(w, task, published, id);
    }
  }

  lemma SettledIs(r: PublicRequest, process: nat, version: nat, published: Option<nat>, now: int)
    ensures var end := if published.Some? then Target(Completed, Some(process), Some(version), published, None)
              else Target(ValidationFailed, Some(process), Some(version), None, Some("validation_failed"));
      Moved(Moved(r, To(Validating), now), end, now) == Settled(r, process, version, published, now)
  {
    MovesExactly(r, To(Validating), now);
  }

  lemma StaysLinked(r: PublicRequest, task: Jobs.Task, judit: map<Jobs.AcquisitionId, string>, now: int)
    ensures Linked(JobLink(task), Moved(r, To(Validating), now), judit) <==> Linked(JobLink(task), r, judit)
    ensures Linked(JobLink(task), r, judit) <==> Concerns(task, r, judit)
  {
  }

  lemma ReconciledIs(w: World, task: Jobs.Task, published: Option<nat>, id: RequestId)
    requires task.SummaryTask? && id in w.requests
    ensures Reconciled(w, task, published).Keys == w.requests.Keys
    ensures Reconciled(w, task, published)[id] ==
      if Concerns(task, w.requests[id], w.judit) then Settled(w.requests[id], task.process, task.version, published, w.queue.now)
      else w.requests[id]
  {
    StaysLinked(w.requests[id], task, w.judit, w.queue.now);
    SettledIs(w.requests[id], task.process, task.version, published, w.queue.now);
  }

  // A worker that lost the job changes nothing, and requests are created and linked as the table does.
  lemma OtherMoves(w: World, worker: Jobs.WorkerId, job: Jobs.JobId, published: Option<nat>, attempts: int, permanent: bool,
                   id: RequestId, k: Jobs.AcquisitionId, request: string)
    ensures !Owns(w, worker, job) ==>
      Step(w, StartJob(worker, job)) == Step(w, CompleteJob(worker, job, published))
      == Step(w, FailJob(worker, job, attempts, permanent)) == w
    ensures CanStep(w, LinkRequest(id, k)) <==>
      id in w.requests && (w.requests[id].acquisition == None || w.requests[id].acquisition == Some(k))
    ensures id in w.requests ==>
      Step(w, LinkRequest(id, k)) == w.(requests := w.requests[id := w.requests[id].(acquisition := Some(k))])
    ensures CanStep(w, RecordRequestId(k, request)) <==> k !in w.judit
    ensures Step(w, RecordRequestId(k, request)) == w.(judit := w.judit[k := request])
  {
  }

  // The start of a summary job shows in its requests that are not beyond it.
  lemma StartMarks(w: World, worker: Jobs.WorkerId, job: Jobs.JobId, id: RequestId)
    requires Owns(w, worker, job) && id in w.requests
    ensures var task := w.queue.rows[job].task;
      var r, t := w.requests[id], Step(w, StartJob(worker, job)).requests;
      && Step(w, StartJob(worker, job)).queue == Jobs.Step(w.queue, Jobs.Update(Jobs.Heartbeat(worker, job), {}))
      && t.Keys == w.requests.Keys
      && t[id] == if task.SummaryTask? && Concerns(task, r, w.judit) && r.status in {Queued, Fetching, Indexing, Generating}
                  then r.(status := Generating, error := None, completedAt := None) else r
  {
    DeadMarks(w.requests[id], w.queue.rows[job].task, w.judit, "", w.queue.now);
    MovesExactly(w.requests[id], To(Generating), w.queue.now);
  }
}
