/** app/process_requests.py on top of the job queue: paid provider calls.

    A user request registers an acquisition and enqueues a job that may run once; a worker that
    claims the job runs a handler of three separate steps (read the row, call the provider,
    record the outcome).  Workers may crash between any two steps, jobs may be reclaimed while
    their handler is still running, and terminal jobs may be purged. */
module Acquisition {
  import opened Wrappers
  import opened Jobs

  const MAX_ATTEMPT_NUMBER := 100

  datatype AcqStatus = InProgress | FailedRetryable | FailedAmbiguous

  datatype Acq = Acq(status: AcqStatus, attempt: nat, judit: Option<string>)

  type Acqs = map<AcquisitionId, Acq>

  // What one provider call may do: accept the request, refuse it safely, or leave it unclear.
  datatype Outcome = Accepted(request: string) | RetrySafe | Ambiguous

  datatype Phase = Started | Ready | Called(outcome: Outcome)

  datatype Handler = Handler(acquisition: AcquisitionId, attempt: nat, phase: Phase)

  // `calls` logs the provider calls as (acquisition, attempt number).
  datatype System = System(
    queue: Queue, acqs: Acqs, handlers: map<JobId, Handler>, calls: seq<(AcquisitionId, nat)>)

  datatype Event =
    | QueueEvent(event: Jobs.Event)
    | Request(acquisition: AcquisitionId, job: JobId)
    | Read(job: JobId)
    | Call(job: JobId, outcome: Outcome)
    | Record(job: JobId)
    | Crash(job: JobId)

  /* ---- request_process ---- */

  // The attempt a user request starts, if it starts one.
  function NextAttempt(acqs: Acqs, k: AcquisitionId): Option<nat> {
    if k !in acqs then Some(1)
    else if acqs[k].status.FailedRetryable? && acqs[k].attempt < MAX_ATTEMPT_NUMBER then Some(acqs[k].attempt + 1)
    else None
  }

  function Registered(acqs: Acqs, k: AcquisitionId): Acqs {
    var next := NextAttempt(acqs, k);
    if next == None then acqs
    else acqs[k := Acq(InProgress, next.value, if k in acqs then acqs[k].judit else None)]
  }

  function AcquisitionInsert(job: JobId, k: AcquisitionId, attempt: nat, now: int): Jobs.Event {
    Insert(job, AcquireTask(k), 10, now, 1, Some(AcquireKey(k, attempt)))
  }

  /* ---- request_judit_process_task ---- */

  // Both updates carry WHERE judit_request_id IS NULL.
  function Recorded(a: Acq, outcome: Outcome): Acq {
    if a.judit.Some? then a
    else match outcome
      case Accepted(request) => a.(judit := Some(request), status := InProgress)
      case RetrySafe => a.(status := FailedRetryable)
      case Ambiguous => a.(status := FailedAmbiguous)
  }

  predicate IsAcquire(j: Job) {
    j.task.AcquireTask? && j.key.Some? && j.key.value.AcquireKey?
  }

  ghost predicate CanStep(s: System, e: Event) {
    match e
    case QueueEvent(event) =>
      && Jobs.CanStep(s.queue, event)
      && (event.Insert? ==> !event.task.AcquireTask? && !(event.key.Some? && event.key.value.AcquireKey?))
    case Request(_, job) => job !in s.queue.used
    case Read(job) => job in s.handlers && s.handlers[job].phase.Started?
    case Call(job, _) => job in s.handlers && s.handlers[job].phase.Ready?
    case Record(job) => job in s.handlers && s.handlers[job].phase.Called?
    case Crash(job) => job in s.handlers
  }

  // A claim of an acquisition job starts its handler.
  function WithHandler(s: System, event: Jobs.Event): map<JobId, Handler> {
    if event.Update? && event.statement.Claim? && event.statement.id in s.queue.rows
       && IsAcquire(s.queue.rows[event.statement.id])
    then
      var j := s.queue.rows[event.statement.id];
      s.handlers[event.statement.id := Handler(j.task.acquisition, j.key.value.attempt, Started)]
    else s.handlers
  }

  function Step(s: System, e: Event): System {
    match e
    case QueueEvent(event) =>
      s.(queue := Jobs.Step(s.queue, event), handlers := WithHandler(s, event))
    case Request(k, job) =>
      var next := NextAttempt(s.acqs, k);
      if next == None then s
      else s.(acqs := Registered(s.acqs, k),
              queue := Jobs.Step(s.queue, AcquisitionInsert(job, k, next.value, s.queue.now)))
    case Read(job) =>
      if job !in s.handlers then s
      else
        var h := s.handlers[job];
        // A missing row is a permanent error; a recorded request id ends the task.
        if h.acquisition !in s.acqs || s.acqs[h.acquisition].judit.Some?
        then s.(handlers := s.handlers - {job})
        else s.(handlers := s.handlers[job := h.(phase := Ready)])
    case Call(job, outcome) =>
      if job !in s.handlers then s
      else
        var h := s.handlers[job];
        s.(handlers := s.handlers[job := h.(phase := Called(outcome))],
           calls := s.calls + [(h.acquisition, h.attempt)])
    case Record(job) =>
      if job !in s.handlers || !s.handlers[job].phase.Called? || s.handlers[job].acquisition !in s.acqs then s
      else
        var h := s.handlers[job];
        s.(handlers := s.handlers - {job},
           acqs := s.acqs[h.acquisition := Recorded(s.acqs[h.acquisition], h.phase.outcome)])
    case Crash(job) => s.(handlers := s.handlers - {job})
  }

  ghost predicate IsRun(s: System, es: seq<Event>)
    decreases |es|
  {
    es == [] || (CanStep(s, es[0]) && IsRun(Step(s, es[0]), es[1..]))
  }

  function Run(s: System, es: seq<Event>): System
    decreases |es|
  {
    if es == [] then s else Run(Step(s, es[0]), es[1..])
  }

  const Start := System(Jobs.Start, map[], map[], [])

  /* ---- The right to call ---- */

  // A job that may still lead to a provider call, or has made one whose outcome is not recorded.
  datatype Token = Token(acquisition: AcquisitionId, attempt: nat, called: bool)

  function TokenOf(s: System, job: JobId): Option<Token> {
    if job in s.handlers
    then Some(Token(s.handlers[job].acquisition, s.handlers[job].attempt, s.handlers[job].phase.Called?))
    else if job in s.queue.rows && s.queue.rows[job].status.Pending? && IsAcquire(s.queue.rows[job])
    then Some(Token(s.queue.rows[job].task.acquisition, s.queue.rows[job].key.value.attempt, false))
    else None
  }

  function CallsOf(calls: seq<(AcquisitionId, nat)>, k: AcquisitionId): nat {
    if calls == [] then 0
    else CallsOf(calls[..|calls| - 1], k) + if calls[|calls| - 1].0 == k then 1 else 0
  }

  ghost predicate GoodAcquireJob(s: System, j: Job) {
    (j.task.AcquireTask? || (j.key.Some? && j.key.value.AcquireKey?)) ==>
      && IsAcquire(j) && j.task.acquisition == j.key.value.acquisition && j.maxAttempts == 1
      && j.task.acquisition in s.acqs
      && 1 <= j.key.value.attempt <= s.acqs[j.task.acquisition].attempt
  }

  // The job of a handler: claimed, hence never pending again.
  predicate Running(j: Job) {
    IsAcquire(j) && !j.status.Pending?
  }

  ghost predicate GoodToken(s: System, t: Token) {
    && t.acquisition in s.acqs
    && s.acqs[t.acquisition].status.InProgress? && s.acqs[t.acquisition].judit == None
    && t.attempt == s.acqs[t.acquisition].attempt
    && (!t.called ==>
         && CallsOf(s.calls, t.acquisition) < t.attempt
         && (t.acquisition, t.attempt) !in s.calls)
  }

  ghost predicate GoodTokens(s: System) {
    && (forall j :: TokenOf(s, j).Some? ==> GoodToken(s, TokenOf(s, j).value))
    && (forall i, j :: TokenOf(s, i).Some? && TokenOf(s, j).Some? && i != j
          ==> TokenOf(s, i).value.acquisition != TokenOf(s, j).value.acquisition)
  }

  ghost predicate GoodCalls(s: System) {
    && (forall i, j :: 0 <= i < j < |s.calls| ==> s.calls[i] != s.calls[j])
    && (forall c :: c in s.calls ==> c.0 in s.acqs && 1 <= c.1 <= s.acqs[c.0].attempt)
    && (forall k :: k in s.acqs ==> CallsOf(s.calls, k) <= s.acqs[k].attempt)
    && (forall k :: k !in s.acqs ==> CallsOf(s.calls, k) == 0)
  }

  ghost predicate Inv(s: System) {
    && Jobs.Good(s.queue)
    && (forall id :: id in s.queue.rows ==> GoodAcquireJob(s, s.queue.rows[id]))
    && (forall k :: k in s.acqs ==> 
          && 1 <= s.acqs[k].attempt <= MAX_ATTEMPT_NUMBER
          && (s.acqs[k].judit.Some? ==> s.acqs[k].status.InProgress?))
    && s.handlers.Keys <= s.queue.used
    && (forall id :: id in s.handlers && id in s.queue.rows ==> Running(s.queue.rows[id]))
    && GoodTokens(s)
    && GoodCalls(s)
  }

  // A job with a single attempt leaves pending by a claim and never comes back.
  lemma WrittenOnce(statement: Jobs.Statement, q: Jobs.Queue, locked: set<JobId>, job: JobId)
    requires Jobs.Enabled(statement, q.rows, q.now, locked) && job in q.rows
    requires GoodRow(q.rows[job]) && q.rows[job].maxAttempts == 1
    requires job in Jobs.Writes(statement, q.rows, q.now, locked)
    ensures !Jobs.Writes(statement, q.rows, q.now, locked)[job].status.Pending?
    ensures q.rows[job].status.Pending? <==> statement.Claim? && statement.id == job
  {
  }

  lemma UpdateKeepsTokens(s: System, statement: Jobs.Statement, locked: set<JobId>, job: JobId)
    requires Inv(s) && CanStep(s, QueueEvent(Jobs.Update(statement, locked)))
    ensures TokenOf(Step(s, QueueEvent(Jobs.Update(statement, locked))), job) == TokenOf(s, job)
  {
    WritesKeepIdentity(statement, s.queue.rows, s.queue.now, locked);
    if job in s.queue.rows {
      assert GoodRow(s.queue.rows[job]) && GoodAcquireJob(s, s.queue.rows[job]);
      if IsAcquire(s.queue.rows[job]) && job in Jobs.Writes(statement, s.queue.rows, s.queue.now, locked) {
        WrittenOnce(statement, s.queue, locked, job);
      }
    }
  }

  // Queue statements never create, move or destroy the right to call: an acquisition job may be
  // claimed once, so neither a failure nor a reclaim makes it pending again.
  lemma QueueKeepsTokens(s: System, event: Jobs.Event, job: JobId)
    requires Inv(s) && CanStep(s, QueueEvent(event))
    ensures TokenOf(Step(s, QueueEvent(event)), job) == TokenOf(s, job)
  {
    if event.Update? {
      UpdateKeepsTokens(s, event.statement, event.locked, job);
    } else if job in s.queue.rows {
      assert GoodRow(s.queue.rows[job]);
    }
  }

  lemma QueueKeepsJobs(s: System, event: Jobs.Event)
    requires Inv(s) && CanStep(s, QueueEvent(event))
    ensures var s' := Step(s, QueueEvent(event));
      && Jobs.Good(s'.queue)
      && (forall id :: id in s'.queue.rows ==> GoodAcquireJob(s', s'.queue.rows[id]))
      && s'.handlers.Keys <= s'.queue.used
      && forall id :: id in s'.handlers && id in s'.queue.rows ==> Running(s'.queue.rows[id])
  {
    var s' := Step(s, QueueEvent(event));
    StepKeepsGood(s.queue, event);
    if event.Update? {
      WritesKeepIdentity(event.statement, s.queue.rows, s.queue.now, event.locked);
    }
    forall id | id in s'.queue.rows
      ensures GoodAcquireJob(s', s'.queue.rows[id])
      ensures id in s'.handlers ==> Running(s'.queue.rows[id])
    {
      if id in s.queue.rows {
        assert GoodRow(s.queue.rows[id]) && GoodAcquireJob(s, s.queue.rows[id]);
        assert s.queue.rows[id].task == s'.queue.rows[id].task;
        if id in s.handlers {
          QueueKeepsHandlerJob(s, event, id);
        }
      }
    }
  }

  lemma QueueKeepsHandlerJob(s: System, event: Jobs.Event, id: JobId)
    requires Inv(s) && CanStep(s, QueueEvent(event)) && id in s.handlers
    requires id in s.queue.rows && id in Step(s, QueueEvent(event)).queue.rows
    ensures Running(Step(s, QueueEvent(event)).queue.rows[id])
  {
    QueueKeepsTokens(s, event, id);
    assert GoodRow(s.queue.rows[id]) && GoodAcquireJob(s, s.queue.rows[id]);
  }

  lemma QueueStepKeepsInv(s: System, event: Jobs.Event)
    requires Inv(s) && CanStep(s, QueueEvent(event))
    ensures Inv(Step(s, QueueEvent(event)))
  {
    var s' := Step(s, QueueEvent(event));
    QueueKeepsJobs(s, event);
    forall j ensures TokenOf(s', j) == TokenOf(s, j) {
      QueueKeepsTokens(s, event, j);
    }
  }

  // No row has the new key yet: attempts of an acquisition only grow.
  lemma RequestInserts(s: System, k: AcquisitionId, job: JobId)
    requires Inv(s) && CanStep(s, Request(k, job)) && NextAttempt(s.acqs, k).Some?
    ensures var next := NextAttempt(s.acqs, k).value;
      var s' := Step(s, Request(k, job));
      && 1 <= next <= MAX_ATTEMPT_NUMBER
      && s'.acqs == s.acqs[k := Acq(InProgress, next, None)]
      && (k in s.acqs ==> s.acqs[k].attempt < next && !s.acqs[k].status.InProgress?)
      && s'.queue.rows == s.queue.rows[job := NewJob(AcquireTask(k), 10, s.queue.now, 1, Some(AcquireKey(k, next)))]
      && job !in s.queue.rows && job !in s.handlers
      && Jobs.Good(s'.queue)
  {
    var next := NextAttempt(s.acqs, k).value;
    var insert := AcquisitionInsert(job, k, next, s.queue.now);
    assert !KeyTaken(s.queue.rows, insert.key) by {
      forall id | id in s.queue.rows ensures s.queue.rows[id].key != insert.key {
        assert GoodAcquireJob(s, s.queue.rows[id]);
      }
    }
    StepKeepsGood(s.queue, insert);
  }

  lemma RequestKeepsTokens(s: System, k: AcquisitionId, job: JobId)
    requires Inv(s) && CanStep(s, Request(k, job)) && NextAttempt(s.acqs, k).Some?
    ensures GoodTokens(Step(s, Request(k, job)))
  {
    var next := NextAttempt(s.acqs, k).value;
    var s' := Step(s, Request(k, job));
    RequestInserts(s, k, job);
    assert TokenOf(s', job) == Some(Token(k, next, false));
    forall j | j != job ensures TokenOf(s', j) == TokenOf(s, j) {
    }
    assert GoodToken(s', Token(k, next, false)) by {
      assert (k, next) !in s.calls && CallsOf(s.calls, k) < next;
    }
    // Nobody held the right to call: the acquisition was absent or had failed.
    forall j | TokenOf(s, j).Some?
      ensures TokenOf(s, j).value.acquisition != k && GoodToken(s', TokenOf(s, j).value)
    {
      assert GoodToken(s, TokenOf(s, j).value);
    }
  }

  lemma RequestKeepsJobs(s: System, k: AcquisitionId, job: JobId)
    requires Inv(s) && CanStep(s, Request(k, job)) && NextAttempt(s.acqs, k).Some?
    ensures var s' := Step(s, Request(k, job));
      forall id :: id in s'.queue.rows ==> GoodAcquireJob(s', s'.queue.rows[id])
  {
    var s' := Step(s, Request(k, job));
    RequestInserts(s, k, job);
    forall id | id in s'.queue.rows ensures GoodAcquireJob(s', s'.queue.rows[id]) {
      if id != job {
        assert GoodAcquireJob(s, s.queue.rows[id]);
      }
    }
  }

  lemma RequestKeepsInv(s: System, k: AcquisitionId, job: JobId)
    requires Inv(s) && CanStep(s, Request(k, job))
    ensures Inv(Step(s, Request(k, job)))
  {
    if NextAttempt(s.acqs, k).Some? {
      RequestInserts(s, k, job);
      RequestKeepsTokens(s, k, job);
      RequestKeepsJobs(s, k, job);
    }
  }

  lemma ReadKeepsInv(s: System, job: JobId)
    requires Inv(s) && CanStep(s, Read(job))
    ensures Inv(Step(s, Read(job)))
  {
    var s' := Step(s, Read(job));
    assert TokenOf(s, job).Some?;
    assert GoodToken(s, TokenOf(s, job).value);
    assert forall j :: TokenOf(s', j) == TokenOf(s, j);
  }

  lemma CallKeepsInv(s: System, job: JobId, outcome: Outcome)
    requires Inv(s) && CanStep(s, Call(job, outcome))
    ensures Inv(Step(s, Call(job, outcome)))
  {
    var h := s.handlers[job];
    assert TokenOf(s, job) == Some(Token(h.acquisition, h.attempt, false));
    assert GoodToken(s, TokenOf(s, job).value);
    CallCounts(s, job, outcome);
    CallKeepsTokens(s, job, outcome);
  }

  lemma CallCounts(s: System, job: JobId, outcome: Outcome)
    requires CanStep(s, Call(job, outcome))
    ensures forall k :: CallsOf(Step(s, Call(job, outcome)).calls, k) == CallsOf(s.calls, k) + if k == s.handlers[job].acquisition then 1 else 0
  {
    var calls := Step(s, Call(job, outcome)).calls;
    assert calls[..|calls| - 1] == s.calls;
  }

  lemma CallKeepsTokens(s: System, job: JobId, outcome: Outcome)
    requires Inv(s) && CanStep(s, Call(job, outcome))
    ensures GoodTokens(Step(s, Call(job, outcome)))
  {
    var s' := Step(s, Call(job, outcome));
    assert TokenOf(s, job).Some? && GoodToken(s, TokenOf(s, job).value);
    CallCounts(s, job, outcome);
    forall j | j != job ensures TokenOf(s', j) == TokenOf(s, j) {
    }
    forall j | TokenOf(s', j).Some? ensures GoodToken(s', TokenOf(s', j).value) {
      if j != job {
        assert GoodToken(s, TokenOf(s, j).value);
      }
    }
  }

  lemma RecordKeepsInv(s: System, job: JobId)
    requires Inv(s) && CanStep(s, Record(job))
    ensures Inv(Step(s, Record(job)))
  {
    RecordKeepsJobs(s, job);
    RecordKeepsTokens(s, job);
  }

  lemma RecordKeepsJobs(s: System, job: JobId)
    requires Inv(s) && CanStep(s, Record(job))
    ensures var s' := Step(s, Record(job));
      && s'.queue == s.queue && s'.calls == s.calls && s'.handlers.Keys <= s.handlers.Keys
      && s'.acqs.Keys == s.acqs.Keys
      && (forall k :: k in s.acqs ==> s'.acqs[k].attempt == s.acqs[k].attempt && (s'.acqs[k].judit.Some? ==> s'.acqs[k].status.InProgress?))
      && (forall id :: id in s'.queue.rows ==> GoodAcquireJob(s', s'.queue.rows[id]))
  {
    var s' := Step(s, Record(job));
    RecordEndsToken(s, job);
    forall id | id in s'.queue.rows ensures GoodAcquireJob(s', s'.queue.rows[id]) {
      assert GoodAcquireJob(s, s.queue.rows[id]);
    }
  }

  lemma RecordKeepsTokens(s: System, job: JobId)
    requires Inv(s) && CanStep(s, Record(job))
    ensures GoodTokens(Step(s, Record(job)))
  {
    var s' := Step(s, Record(job));
    RecordEndsToken(s, job);
    forall j | TokenOf(s', j).Some? ensures GoodToken(s', TokenOf(s', j).value) {
      assert GoodToken(s, TokenOf(s, j).value);
    }
  }

  lemma RecordEndsToken(s: System, job: JobId)
    requires Inv(s) && CanStep(s, Record(job))
    ensures TokenOf(s, job).Some? && GoodToken(s, TokenOf(s, job).value)
    ensures TokenOf(Step(s, Record(job)), job) == None
    ensures forall j :: j != job ==> TokenOf(Step(s, Record(job)), j) == TokenOf(s, j)
  {
    assert GoodToken(s, TokenOf(s, job).value);
  }

  lemma CrashKeepsInv(s: System, job: JobId)
    requires Inv(s) && CanStep(s, Crash(job))
    ensures Inv(Step(s, Crash(job)))
  {
    var s' := Step(s, Crash(job));
    assert TokenOf(s', job) == None;
    assert forall j :: j != job ==> TokenOf(s', j) == TokenOf(s, j);
  }

  lemma StepKeepsInv(s: System, e: Event)
    requires Inv(s) && CanStep(s, e)
    ensures Inv(Step(s, e))
  {
    match e {
      case QueueEvent(event) => QueueStepKeepsInv(s, event);
      case Request(k, job) => RequestKeepsInv(s, k, job);
      case Read(job) => ReadKeepsInv(s, job);
      case Call(job, outcome) => CallKeepsInv(s, job, outcome);
      case Record(job) => RecordKeepsInv(s, job);
      case Crash(job) => CrashKeepsInv(s, job);
    }
  }

  // The key of a new attempt is free, so its job is always inserted.
  lemma RequestSchedules(s: System, k: AcquisitionId, job: JobId)
    requires Inv(s) && CanStep(s, Request(k, job))
    ensures job in Step(s, Request(k, job)).queue.rows <==> NextAttempt(s.acqs, k).Some?
  {
    if NextAttempt(s.acqs, k).Some? {
      RequestInserts(s, k, job);
    }
  }

  /* ---- Paid calls are bounded and never blindly repeated ---- */

  lemma {:induction false} RunKeepsInv(s: System, es: seq<Event>)
    requires Inv(s) && IsRun(s, es)
    ensures Inv(Run(s, es))
    decreases |es|
  {
    if es != [] {
      StepKeepsInv(s, es[0]);
      RunKeepsInv(Step(s, es[0]), es[1..]);
    }
  }

  // Over every run: an attempt of an acquisition makes at most one call, an acquisition with
  // attempt number n has made at most n calls, and n never exceeds 100.
  lemma CallsAreBounded(es: seq<Event>)
    requires IsRun(Start, es)
    ensures var s := Run(Start, es);
      && (forall i, j :: 0 <= i < j < |s.calls| ==> s.calls[i] != s.calls[j])
      && (forall c :: c in s.calls ==> c.0 in s.acqs && 1 <= c.1 <= s.acqs[c.0].attempt)
      && forall k :: k in s.acqs ==> CallsOf(s.calls, k) <= s.acqs[k].attempt <= MAX_ATTEMPT_NUMBER
  {
    RunKeepsInv(Start, es);
  }

  // A call is only ever made for an acquisition in progress, with no request id recorded and
  // none of its earlier calls left unclear.
  lemma CallsAreFresh(es: seq<Event>, job: JobId, outcome: Outcome)
    requires IsRun(Start, es) && CanStep(Run(Start, es), Call(job, outcome))
    ensures var s := Run(Start, es);
      var k := s.handlers[job].acquisition;
      && k in s.acqs && s.acqs[k].status.InProgress? && s.acqs[k].judit == None
      && s.handlers[job].attempt == s.acqs[k].attempt
      && (k, s.acqs[k].attempt) !in s.calls
  {
    RunKeepsInv(Start, es);
    var s := Run(Start, es);
    assert GoodToken(s, TokenOf(s, job).value);
  }

  ghost predicate Closed(s: System, k: AcquisitionId) {
    k in s.acqs && (s.acqs[k].status.FailedAmbiguous? || s.acqs[k].judit.Some?)
  }

  // Nobody holds a right to call for a closed acquisition.
  lemma ClosedHasNoToken(s: System, k: AcquisitionId, job: JobId)
    requires Inv(s) && Closed(s, k) && TokenOf(s, job).Some?
    ensures TokenOf(s, job).value.acquisition != k
  {
    assert GoodToken(s, TokenOf(s, job).value);
  }

  lemma RequestKeepsClosed(s: System, k: AcquisitionId, other: AcquisitionId, job: JobId)
    requires Inv(s) && Closed(s, k)
    ensures var t := Step(s, Request(other, job)); k in t.acqs && t.acqs[k] == s.acqs[k] && t.calls == s.calls
  {
  }

  lemma CallKeepsClosed(s: System, k: AcquisitionId, job: JobId, outcome: Outcome)
    requires Inv(s) && Closed(s, k)
    ensures var t := Step(s, Call(job, outcome)); t.acqs == s.acqs && CallsOf(t.calls, k) == CallsOf(s.calls, k)
  {
    if job in s.handlers {
      ClosedHasNoToken(s, k, job);
      var calls := Step(s, Call(job, outcome)).calls;
      assert calls[..|calls| - 1] == s.calls;
    }
  }

  lemma RecordKeepsClosed(s: System, k: AcquisitionId, job: JobId)
    requires Inv(s) && Closed(s, k)
    ensures var t := Step(s, Record(job)); k in t.acqs && t.acqs[k] == s.acqs[k] && t.calls == s.calls
  {
    if job in s.handlers {
      ClosedHasNoToken(s, k, job);
    }
  }

  lemma StepKeepsClosed(s: System, e: Event, k: AcquisitionId)
    requires Inv(s) && Closed(s, k) && CanStep(s, e)
    ensures k in Step(s, e).acqs && Step(s, e).acqs[k] == s.acqs[k]
    ensures CallsOf(Step(s, e).calls, k) == CallsOf(s.calls, k)
  {
    match e {
      case Request(other, job) => RequestKeepsClosed(s, k, other, job);
      case Call(job, outcome) => CallKeepsClosed(s, k, job, outcome);
      case Record(job) => RecordKeepsClosed(s, k, job);
      case QueueEvent(_) =>
      case Read(_) =>
      case Crash(_) =>
    }
  }

  // After an ambiguous failure, or once a request id is recorded, the provider is never called
  // again for that acquisition and its row never changes.
  lemma {:induction false} ClosedStaysClosed(s: System, es: seq<Event>, k: AcquisitionId)
    requires Inv(s) && Closed(s, k) && IsRun(s, es)
    ensures k in Run(s, es).acqs && Run(s, es).acqs[k] == s.acqs[k]
    ensures CallsOf(Run(s, es).calls, k) == CallsOf(s.calls, k)
    decreases |es|
  {
    if es != [] {
      StepKeepsInv(s, es[0]);
      StepKeepsClosed(s, es[0], k);
      ClosedStaysClosed(Step(s, es[0]), es[1..], k);
    }
  }

  /* ---- What the provider's answers lead to ---- */

  // The step records a refusal that is safe to repeat, for the acquisition.
  predicate Refuses(s: System, e: Event, k: AcquisitionId) {
    && e.Record? && e.job in s.handlers && s.handlers[e.job].acquisition == k
    && s.handlers[e.job].phase == Called(RetrySafe)
  }

  function Refusals(s: System, es: seq<Event>, k: AcquisitionId): nat
    decreases |es|
  {
    if es == [] then 0
    else (if Refuses(s, es[0], k) then 1 else 0) + Refusals(Step(s, es[0]), es[1..], k)
  }

  // The attempts that are not paid for by a refusal: the one in progress, if any.
  function Open(s: System, k: AcquisitionId): int {
    if k !in s.acqs then 0 else s.acqs[k].attempt - if s.acqs[k].status.FailedRetryable? then 0 else 1
  }

  lemma StepOpens(s: System, e: Event, k: AcquisitionId)
    requires Inv(s) && CanStep(s, e)
    ensures Open(Step(s, e), k) <= Open(s, k) + if Refuses(s, e, k) then 1 else 0
  {
    match e {
      case Request(other, job) => RequestOpens(s, k, other, job);
      case Record(job) => RecordOpens(s, k, job);
      case QueueEvent(_) =>
      case Read(_) =>
      case Call(_, _) =>
      case Crash(_) =>
    }
  }

  lemma RequestOpens(s: System, k: AcquisitionId, other: AcquisitionId, job: JobId)
    requires Inv(s)
    ensures Open(Step(s, Request(other, job)), k) <= Open(s, k)
  {
  }

  lemma RecordOpens(s: System, k: AcquisitionId, job: JobId)
    requires Inv(s) && CanStep(s, Record(job))
    ensures Open(Step(s, Record(job)), k) <= Open(s, k) + if Refuses(s, Record(job), k) then 1 else 0
  {
    RecordEndsToken(s, job);
  }

  lemma {:induction false} RunOpens(s: System, es: seq<Event>, k: AcquisitionId)
    requires Inv(s) && IsRun(s, es)
    ensures Open(Run(s, es), k) <= Open(s, k) + Refusals(s, es, k)
    decreases |es|
  {
    if es != [] {
      StepKeepsInv(s, es[0]);
      StepOpens(s, es[0], k);
      RunOpens(Step(s, es[0]), es[1..], k);
    }
  }

  // Over every run: each further paid call needs a refusal that the provider itself called safe.
  lemma CallsNeedRefusals(es: seq<Event>, k: AcquisitionId)
    requires IsRun(Start, es)
    ensures CallsOf(Run(Start, es).calls, k) <= 1 + Refusals(Start, es, k)
  {
    RunKeepsInv(Start, es);
    RunOpens(Start, es, k);
  }

  // What a recorded answer leaves in the row.
  lemma RecordLeaves(s: System, job: JobId)
    requires Inv(s) && CanStep(s, Record(job))
    ensures var k, outcome, t := s.handlers[job].acquisition, s.handlers[job].phase.outcome, Step(s, Record(job));
      && Inv(t) && t.calls == s.calls && k in t.acqs
      && (outcome.Ambiguous? ==> t.acqs[k].status.FailedAmbiguous? && t.acqs[k].judit == None)
      && (outcome.Accepted? ==> t.acqs[k].judit == Some(outcome.request))
  {
    RecordEndsToken(s, job);
    StepKeepsInv(s, Record(job));
  }

  // Recording an unclear outcome ends the calls of the acquisition for good.
  lemma UnclearIsFinal(es: seq<Event>, job: JobId, later: seq<Event>)
    requires IsRun(Start, es) && CanStep(Run(Start, es), Record(job))
    requires Run(Start, es).handlers[job].phase == Called(Ambiguous)
    requires IsRun(Step(Run(Start, es), Record(job)), later)
    ensures var s := Run(Start, es);
      var k := s.handlers[job].acquisition;
      var t := Run(Step(s, Record(job)), later);
      && CallsOf(t.calls, k) == CallsOf(s.calls, k)
      && k in t.acqs && t.acqs[k].status.FailedAmbiguous? && t.acqs[k].judit == None
  {
    var s := Run(Start, es);
    RunKeepsInv(Start, es);
    RecordLeaves(s, job);
    ClosedStaysClosed(Step(s, Record(job)), later, s.handlers[job].acquisition);
  }

  // So does an accepted request, whose id is kept in every later state.
  lemma AcceptedIsFinal(es: seq<Event>, job: JobId, later: seq<Event>)
    requires IsRun(Start, es) && CanStep(Run(Start, es), Record(job))
    requires Run(Start, es).handlers[job].phase.outcome.Accepted?
    requires IsRun(Step(Run(Start, es), Record(job)), later)
    ensures var s := Run(Start, es);
      var k := s.handlers[job].acquisition;
      var t := Run(Step(s, Record(job)), later);
      && CallsOf(t.calls, k) == CallsOf(s.calls, k)
      && k in t.acqs && t.acqs[k].judit == Some(s.handlers[job].phase.outcome.request)
  {
    var s := Run(Start, es);
    RunKeepsInv(Start, es);
    RecordLeaves(s, job);
    ClosedStaysClosed(Step(s, Record(job)), later, s.handlers[job].acquisition);
  }

  // After a safe refusal the next request schedules the following attempt, up to the hundredth.
  lemma RefusedIsRetried(es: seq<Event>, job: JobId, next: JobId)
    requires IsRun(Start, es) && CanStep(Run(Start, es), Record(job))
    requires Run(Start, es).handlers[job].phase == Called(RetrySafe)
    requires CanStep(Step(Run(Start, es), Record(job)), Request(Run(Start, es).handlers[job].acquisition, next))
    ensures var s := Run(Start, es);
      var k, n := s.handlers[job].acquisition, s.handlers[job].attempt;
      var t := Step(Step(s, Record(job)), Request(k, next));
      if n < 100
      then k in t.acqs && t.acqs[k] == Acq(InProgress, n + 1, None)
           && next in t.queue.rows && t.queue.rows[next].key == Some(AcquireKey(k, n + 1)) && t.queue.rows[next].status.Pending?
      else next !in t.queue.rows
  {
    var s := Run(Start, es);
    RunKeepsInv(Start, es);
    RecordEndsToken(s, job);
    StepKeepsInv(s, Record(job));
    var k, refused := s.handlers[job].acquisition, Step(s, Record(job));
    RequestSchedules(refused, k, next);
    if NextAttempt(refused.acqs, k).Some? {
      RequestInserts(refused, k, next);
    }
  }

  // An acquisition nobody asked for before starts with its first attempt.
  lemma FirstIsScheduled(es: seq<Event>, k: AcquisitionId, job: JobId)
    requires IsRun(Start, es) && CanStep(Run(Start, es), Request(k, job)) && k !in Run(Start, es).acqs
    ensures var t := Step(Run(Start, es), Request(k, job));
      k in t.acqs && t.acqs[k] == Acq(InProgress, 1, None)
      && job in t.queue.rows && t.queue.rows[job].key == Some(AcquireKey(k, 1)) && t.queue.rows[job].status.Pending?
  {
    RunKeepsInv(Start, es);
    RequestInserts(Run(Start, es), k, job);
  }

  // A claimed attempt can always go on to its one paid call.
  lemma ClaimLeadsToCall(es: seq<Event>, worker: WorkerId, job: JobId, locked: set<JobId>, outcome: Outcome)
    requires IsRun(Start, es) && CanStep(Run(Start, es), QueueEvent(Update(Claim(worker, job), locked)))
    requires Run(Start, es).queue.rows[job].task.AcquireTask?
    ensures var s := Run(Start, es);
      var k := s.queue.rows[job].task.acquisition;
      var claimed := Step(s, QueueEvent(Update(Claim(worker, job), locked)));
      && CanStep(claimed, Read(job)) && CanStep(Step(claimed, Read(job)), Call(job, outcome))
      && k in s.acqs && s.queue.rows[job].key == Some(AcquireKey(k, s.acqs[k].attempt))
      && var called := Step(Step(claimed, Read(job)), Call(job, outcome));
         called.calls == s.calls + [(k, s.acqs[k].attempt)] && CanStep(called, Record(job))
         && called.handlers[job] == Handler(k, s.acqs[k].attempt, Called(outcome))
  {
    var s := Run(Start, es);
    RunKeepsInv(Start, es);
    ClaimStarts(s, worker, job, locked);
    StartedCalls(Step(s, QueueEvent(Update(Claim(worker, job), locked))), job, outcome);
  }

  lemma ClaimStarts(s: System, worker: WorkerId, job: JobId, locked: set<JobId>)
    requires Inv(s) && CanStep(s, QueueEvent(Update(Claim(worker, job), locked))) && s.queue.rows[job].task.AcquireTask?
    ensures var k, claimed := s.queue.rows[job].task.acquisition, Step(s, QueueEvent(Update(Claim(worker, job), locked)));
      && k in s.acqs && s.queue.rows[job].key == Some(AcquireKey(k, s.acqs[k].attempt)) && s.acqs[k].judit == None
      && claimed.acqs == s.acqs && claimed.calls == s.calls
      && job in claimed.handlers && claimed.handlers[job] == Handler(k, s.acqs[k].attempt, Started)
  {
    assert GoodAcquireJob(s, s.queue.rows[job]) && s.queue.rows[job].status.Pending?;
    var k := s.queue.rows[job].task.acquisition;
    assert job !in s.handlers by {
      assert job in s.handlers ==> Running(s.queue.rows[job]);
    }
    assert TokenOf(s, job) == Some(Token(k, s.queue.rows[job].key.value.attempt, false));
    assert GoodToken(s, TokenOf(s, job).value);
  }

  lemma StartedCalls(s: System, job: JobId, outcome: Outcome)
    requires job in s.handlers && s.handlers[job].phase.Started?
    requires s.handlers[job].acquisition in s.acqs && s.acqs[s.handlers[job].acquisition].judit == None
    ensures CanStep(s, Read(job)) && CanStep(Step(s, Read(job)), Call(job, outcome))
    ensures var h, called := s.handlers[job], Step(Step(s, Read(job)), Call(job, outcome));
      && called.calls == s.calls + [(h.acquisition, h.attempt)] && CanStep(called, Record(job))
      && called.handlers[job] == h.(phase := Called(outcome))
  {
  }
}
