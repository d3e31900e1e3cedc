/** app/process_requests.py over the acquisition rows and the job table. */
module ProcessRequests {
  import opened Wrappers
  import opened Jobs
  import opened JobQueue
  import A = Acquisition

  class AcquisitionTable {
    var rows: A.Acqs
    const jobs: JobTable
    // What the contracts say of the rest of the protocol: the handlers under way and the calls made.
    ghost var handlers: map<JobId, A.Handler>
    ghost var calls: seq<(AcquisitionId, nat)>

    constructor (jobs: JobTable)
      ensures this.jobs == jobs && rows == map[] && handlers == map[] && calls == []
    {
      this.jobs := jobs;
      rows := map[];
      handlers, calls := map[], [];
    }

    // The state of the acquisition protocol.
    ghost function At(now: int): A.System
      reads this, jobs
    {
      A.System(jobs.At(now), rows, handlers, calls)
    }

    // The row of a new attempt and the job that makes its call.
    method Schedule(k: AcquisitionId, row: A.Acq, job: JobId, now: int)
      requires job !in jobs.used && Good(jobs.At(now))
      modifies this`rows, jobs
      ensures rows == old(rows)[k := row]
      ensures jobs.At(now) == Jobs.Step(old(jobs.At(now)), A.AcquisitionInsert(job, k, row.attempt, now))
    {
      rows := rows[k := row];
      var _ := jobs.Enqueue(job, AcquireTask(k), 10, None, 1, Some(AcquireKey(k, row.attempt)), now);
    }

    // request_process: returns the recorded request id, if any, and whether a call was scheduled.
    method RequestProcess(k: AcquisitionId, job: JobId, now: int)
      returns (request: string, created: bool)
      requires Good(jobs.At(now)) && job !in jobs.used
      modifies this`rows, jobs
      ensures At(now) == A.Step(old(At(now)), A.Request(k, job))
      ensures created <==> A.NextAttempt(old(rows), k).Some?
      ensures !created ==> k in rows && request == if rows[k].judit.Some? then rows[k].judit.value else ""
    {
      if k in rows {
        var row := rows[k];
        if row.status.FailedRetryable? && row.attempt < A.MAX_ATTEMPT_NUMBER {
          Schedule(k, row.(status := A.InProgress, attempt := row.attempt + 1), job, now);
          return "", true;
        }
        return if row.judit.Some? then row.judit.value else "", false;
      }
      Schedule(k, A.Acq(A.InProgress, 1, None), job, now);
      return "", true;
    }

    // The update after the provider answered or failed.
    method RecordOutcome(k: AcquisitionId, outcome: A.Outcome) returns (updated: bool)
      requires k in rows
      modifies this`rows
      ensures rows == old(rows)[k := A.Recorded(old(rows)[k], outcome)]
      ensures updated <==> old(rows)[k].judit == None
      ensures rows.Keys == old(rows).Keys && rows[k].attempt == old(rows)[k].attempt
      ensures updated ==> rows[k].judit == if outcome.Accepted? then Some(outcome.request) else None
      ensures updated ==> rows[k].status == (if outcome.Accepted? then A.InProgress
                                             else if outcome.RetrySafe? then A.FailedRetryable
                                             else A.FailedAmbiguous)
      ensures !updated ==> rows == old(rows)
    {
      updated := rows[k].judit == None;
      if updated {
        match outcome {
          case Accepted(request) => rows := rows[k := rows[k].(judit := Some(request), status := A.InProgress)];
          case RetrySafe => rows := rows[k := rows[k].(status := A.FailedRetryable)];
          case Ambiguous => rows := rows[k := rows[k].(status := A.FailedAmbiguous)];
        }
      }
    }
  }
}
