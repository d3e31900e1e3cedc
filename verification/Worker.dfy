/** The transactions of app/worker.py over the two tables they update together. */
module Worker {
  import opened Wrappers
  import opened Jobs
  import opened JobQueue
  import Life = PublicLifecycle
  import L = JobLifecycle

  class WorkerProcess {
    const workerId: WorkerId
    const jobs: JobTable
    const requests: Life.RequestTable

    constructor (workerId: WorkerId, jobs: JobTable, requests: Life.RequestTable)
      ensures this.workerId == workerId && this.jobs == jobs && this.requests == requests
    {
      this.workerId, this.jobs, this.requests := workerId, jobs, requests;
    }

    function At(now: int, judit: map<AcquisitionId, string>): L.World
      reads this, jobs, requests
    {
      L.World(jobs.At(now), judit, requests.rows)
    }

    // The transaction before the handler runs: claim ownership again, then mark the start.
    method StartSummary(id: JobId, task: Task, now: int, judit: map<AcquisitionId, string>) returns (owns: bool)
      requires id in jobs.rows ==> jobs.rows[id].task == task
      requires task.SummaryTask?
      modifies jobs`rows, requests`rows
      ensures At(now, judit) == L.Step(old(At(now, judit)), L.StartJob(workerId, id))
      ensures owns <==> L.Owns(old(At(now, judit)), workerId, id)
    {
      owns := jobs.HeartbeatJob(id, workerId, now);
      if owns {
        var _ := requests.TransitionLinked(Life.JobLink(task), judit, Life.To(Life.Generating), now);
      }
    }

    // The transaction after the handler returned: complete, then reconcile a summary's requests.
    method SettleSuccess(id: JobId, task: Task, published: Option<nat>, now: int, judit: map<AcquisitionId, string>)
      returns (completed: bool)
      requires id in jobs.rows ==> jobs.rows[id].task == task
      modifies jobs`rows, requests`rows
      ensures At(now, judit) == L.Step(old(At(now, judit)), L.CompleteJob(workerId, id, published))
      ensures completed <==> L.Owns(old(At(now, judit)), workerId, id)
    {
      completed := jobs.CompleteJob(id, workerId, now);
      if completed && task.SummaryTask? {
        var _ := requests.TransitionLinked(Life.JobLink(task), judit, Life.To(Life.Validating), now);
        var end := if published.Some?
          then Life.Target(Life.Completed, Some(task.process), Some(task.version), published, None)
          else Life.Target(Life.ValidationFailed, Some(task.process), Some(task.version), None, Some("validation_failed"));
        var _ := requests.TransitionLinked(Life.JobLink(task), judit, end, now);
      }
    }

    // The transaction after the handler raised: fail, and mark the requests of a dead job.
    method SettleFailure(id: JobId, task: Task, attempts: int, permanent: bool, now: int, judit: map<AcquisitionId, string>)
      returns (next: Option<Status>)
      requires id in jobs.rows ==> jobs.rows[id].task == task
      modifies jobs`rows, requests`rows
      ensures At(now, judit) == L.Step(old(At(now, judit)), L.FailJob(workerId, id, attempts, permanent))
      ensures next.Some? <==> L.Owns(old(At(now, judit)), workerId, id)
    {
      next := jobs.FailJob(id, workerId, attempts, permanent, now);
      if next == Some(Dead) {
        var _ := requests.TransitionLinked(
          Life.JobLink(task), judit, Life.To(Life.Failed).(error := Some("job_failed")), now);
      }
    }

    // One round of the reclaimer.
    method ReclaimRound(timeout: nat, now: int, locked: set<JobId>, judit: map<AcquisitionId, string>)
      returns (ids: seq<JobId>)
      requires timeout > 0
      modifies jobs`rows, requests`rows
      ensures L.CanStep(old(At(now, judit)), L.ReclaimJobs(timeout, locked, ids))
      ensures At(now, judit) == L.Step(old(At(now, judit)), L.ReclaimJobs(timeout, locked, ids))
    {
      var reclaimed := jobs.ReclaimStale(timeout, now, locked);
      ids := reclaimed.value;
      MarkDead(ids, judit, now);
    }

    // The requests of the reclaimed jobs that are dead now.
    method MarkDead(ids: seq<JobId>, judit: map<AcquisitionId, string>, now: int)
      requires forall id :: id in ids ==> id in jobs.rows
      modifies requests`rows
      ensures requests.rows == L.MarkReclaimed(old(requests.rows), judit, now, jobs.rows, ids)
    {
      var i := 0;
      while i < |ids|
        invariant 0 <= i <= |ids|
        invariant requests.rows == L.MarkReclaimed(old(requests.rows), judit, now, jobs.rows, ids[..i])
      {
        assert ids[..i + 1][..i] == ids[..i];
        if jobs.rows[ids[i]].status.Dead? {
          var _ := requests.TransitionLinked(
            Life.JobLink(jobs.rows[ids[i]].task), judit,
            Life.To(Life.Failed).(error := Some("job_reclaim_exhausted")), now);
        }
        i := i + 1;
      }
      assert ids[..i] == ids;
    }
  }
}
