/** judit_webhook and finalize_judit_request_task over the tables they update, for one request. */
module JuditIntake {
  import opened Wrappers
  import Jobs
  import opened VersionStore
  import opened ProcessTable
  import I = Ingestion

  class Service {
    const table: ProcessTable
    var completed: bool
    var delivered: set<string>
    var jobs: set<Jobs.Key>
    var pending: set<Jobs.Key>
    var clock: int
    var nextId: VersionId

    constructor (table: ProcessTable)
      requires table.State() == VersionStore.Start
      ensures this.table == table && State() == I.Start
    {
      this.table := table;
      completed, delivered, jobs, pending, clock, nextId := false, {}, {}, {}, 0, 0;
    }

    ghost function State(): I.Intake
      reads this, table
    {
      I.Intake(table.State(), completed, delivered, jobs, pending, clock, nextId)
    }

    method EnqueueFinalize(key: Jobs.Key)
      modifies this`jobs, this`pending
      ensures State() == I.Enqueued(old(State()), key)
    {
      if key !in jobs {
        jobs, pending := jobs + {key}, pending + {key};
      }
    }

    // Whether this is the first delivery with its callback id.
    method RecordDelivery(callback: Option<string>) returns (first: bool)
      modifies this`delivered
      ensures first <==> !I.Repeated(old(State()), callback)
      ensures State() == if first then I.Recorded(old(State()), callback) else old(State())
      ensures delivered == if callback.Some? then old(delivered) + {callback.value} else old(delivered)
    {
      if callback == None {
        return true;
      }
      if callback.value in delivered {
        return false;
      }
      delivered := delivered + {callback.value};
      return true;
    }

    method StageResponse(feed: I.Feed, source: string)
      requires Good(table.State()) && nextId !in table.versions
      modifies this`clock, this`nextId, this`jobs, this`pending, table
      ensures State() == I.Staging(old(State()), feed, source)
    {
      var r := feed.response(source);
      var _ := table.Stage(nextId, feed.code, source, feed.request, r.cached, r.content, clock);
      clock, nextId := clock + 1, nextId + 1;
      if completed {
        EnqueueFinalize(Jobs.RepairKey(feed.request, source));
      }
    }

    method LawsuitResponse(feed: I.Feed, callback: Option<string>, source: string)
      requires I.Inv(State(), feed)
      modifies this, table
      ensures State() == I.Step(old(State()), feed, I.Deliver(callback, source))
      ensures I.Inv(State(), feed)
    {
      I.DeliverKeepsInv(State(), feed, callback, source);
      var first := RecordDelivery(callback);
      if first {
        StageResponse(feed, source);
      }
    }

    method RequestCompleted(feed: I.Feed, callback: Option<string>)
      requires I.Inv(State(), feed)
      modifies this
      ensures State() == I.Step(old(State()), feed, I.Completion(callback))
      ensures I.Inv(State(), feed)
    {
      I.CompletionKeepsInv(State(), feed, callback);
      var first := RecordDelivery(callback);
      if !first {
        return;
      }
      completed, clock := true, clock + 1;
      EnqueueFinalize(Jobs.FinalizeKey(feed.request));
    }

    // ORDER BY source_cached_response ASC, created_at DESC LIMIT 1
    method PreferredVersion(request: string) returns (chosen: Option<VersionId>)
      ensures I.Chosen(table.State(), request, chosen)
    {
      chosen := None;
      var todo := table.versions.Keys;
      while todo != {}
        invariant todo <= table.versions.Keys
        invariant chosen.Some? ==> chosen.value in table.versions && table.versions[chosen.value].request == request
        invariant forall v :: v in table.versions && v !in todo && table.versions[v].request == request ==>
                    chosen.Some? && I.NoWorse(table.versions[chosen.value], table.versions[v])
      {
        var v :| v in todo;
        todo := todo - {v};
        if table.versions[v].request == request
           && (chosen == None || !I.NoWorse(table.versions[chosen.value], table.versions[v])) {
          chosen := Some(v);
        }
      }
    }

    // finalize_version for the version the transaction read, which need not be preferred any more;
    // returns whether that is the current version.
    method FinishFinalizer(feed: I.Feed, key: Jobs.Key, chosen: Option<VersionId>) returns (promoted: bool)
      requires I.Sane(State(), feed) && (chosen.Some? ==> chosen.value in table.versions)
      modifies this`pending, table
      ensures State() == old(State()).(store := I.Finalized(old(table.State()), chosen), pending := old(pending) - {key})
      ensures promoted ==> chosen.Some? && table.processes[feed.code].current == chosen
    {
      promoted := false;
      if chosen.Some? {
        assert table.versions[chosen.value].code == feed.code;
        FinalizeKeepsSources(table.State(), chosen.value);
        promoted := table.FinalizeStaged(chosen.value);
      }
      pending := pending - {key};
    }

    // The transaction of one finalizer job, with nothing in between.
    method RunFinalizer(feed: I.Feed, key: Jobs.Key) returns (chosen: Option<VersionId>, promoted: bool)
      requires I.Inv(State(), feed) && I.InOrder(feed) && key in pending
      modifies this, table
      ensures I.CanStep(old(State()), feed, I.RunFinalizer(key, chosen))
      ensures State() == I.Step(old(State()), feed, I.RunFinalizer(key, chosen))
      ensures I.Inv(State(), feed) && I.Settled(State().store, feed)
      ensures promoted ==> chosen.Some? && table.processes[feed.code].current == chosen
    {
      chosen := PreferredVersion(feed.request);
      I.FinalizerKeepsInv(State(), feed, chosen, key);
      promoted := FinishFinalizer(feed, key, chosen);
    }
  }
}
