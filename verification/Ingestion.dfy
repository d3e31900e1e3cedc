/** The webhook of app/api.py and the finalizer of app/judit_tasks.py for one request on one
    process: responses and the completion arrive in any order and more than once.

    A response id stands for one response.  Webhook transactions are serial, so creation times
    are distinct; DataJud enrichment is off. */
module Ingestion {
  import opened Wrappers
  import Jobs
  import opened VersionStore

  datatype Response = Response(cached: bool, content: Content)

  // What the provider sends: the process, the request and the response behind each source id.
  datatype Feed = Feed(code: string, request: string, response: string -> Response)

  // Movements are numbered in order; manifests are taken to be listed by identifier.
  ghost predicate InOrder(feed: Feed) {
    forall source {:trigger feed.response(source)} ::
      Increasing(feed.response(source).content.steps) && Increasing(feed.response(source).content.attachments)
  }

  // `jobs` are the keys of the finalizer rows that exist, `pending` those that have not run.
  datatype Intake = Intake(
    store: Store, completed: bool, delivered: set<string>,
    jobs: set<Jobs.Key>, pending: set<Jobs.Key>, clock: int, nextId: VersionId)

  datatype Event =
    | Deliver(callback: Option<string>, source: string)
    | Completion(callback: Option<string>)
    | RunFinalizer(key: Jobs.Key, chosen: Option<VersionId>)
    | PurgeJobs(keys: set<Jobs.Key>)

  const Start := Intake(VersionStore.Start, false, {}, {}, {}, 0, 0)

  function Enqueued(s: Intake, key: Jobs.Key): Intake {
    if key in s.jobs then s else s.(jobs := s.jobs + {key}, pending := s.pending + {key})
  }

  // _record_delivery: a callback id seen before ends the transaction; one without an id never does.
  predicate Repeated(s: Intake, callback: Option<string>) {
    callback.Some? && callback.value in s.delivered
  }

  function Recorded(s: Intake, callback: Option<string>): Intake {
    if callback.Some? then s.(delivered := s.delivered + {callback.value}) else s
  }

  function Staging(s: Intake, feed: Feed, source: string): Intake {
    var r := feed.response(source);
    var t := s.(
      store := StageVersion(s.store, s.nextId, feed.code, source, feed.request, r.cached, r.content, s.clock),
      clock := s.clock + 1, nextId := s.nextId + 1);
    if s.completed then Enqueued(t, Jobs.RepairKey(feed.request, source)) else t
  }

  function Delivered(s: Intake, feed: Feed, callback: Option<string>, source: string): Intake {
    Staging(Recorded(s, callback), feed, source)
  }

  function CompletionDelivered(s: Intake, feed: Feed, callback: Option<string>): Intake {
    Enqueued(Recorded(s, callback).(completed := true, clock := s.clock + 1), Jobs.FinalizeKey(feed.request))
  }

  /* ---- preferred_judit_version ---- */

  // ORDER BY source_cached_response ASC, created_at DESC
  predicate NoWorse(a: Version, b: Version) {
    (!a.cached && b.cached) || (a.cached == b.cached && a.created >= b.created)
  }

  ghost predicate IsPreferred(s: Store, request: string, id: VersionId) {
    && id in s.versions && s.versions[id].request == request
    && forall v :: v in s.versions && s.versions[v].request == request ==> NoWorse(s.versions[id], s.versions[v])
  }

  // The newest fresh version of the request, or without any the newest cached one.
  lemma PreferredMeans(s: Store, request: string, id: VersionId)
    requires id in s.versions
    ensures IsPreferred(s, request, id) <==>
      && s.versions[id].request == request
      && forall v :: v in s.versions && s.versions[v].request == request ==>
           if s.versions[id].cached then s.versions[v].cached && s.versions[v].created <= s.versions[id].created
           else s.versions[v].cached || s.versions[v].created <= s.versions[id].created
  {
    forall v | v in s.versions
      ensures NoWorse(s.versions[id], s.versions[v]) <==>
        if s.versions[id].cached then s.versions[v].cached && s.versions[v].created <= s.versions[id].created
        else s.versions[v].cached || s.versions[v].created <= s.versions[id].created
    {
    }
  }

  // The row preferred_judit_version returns, if it returns one.
  ghost predicate Chosen(s: Store, request: string, chosen: Option<VersionId>) {
    if chosen.Some? then IsPreferred(s, request, chosen.value)
    else forall v :: v in s.versions ==> s.versions[v].request != request
  }

  // One finalizer transaction; without a response there is nothing to finalize.
  ghost function Finalized(s: Store, chosen: Option<VersionId>): Store {
    if chosen.Some? && chosen.value in s.versions && s.versions[chosen.value].code in s.processes
    then FinalizeVersion(s, chosen.value, s.versions[chosen.value].payload) else s
  }

  ghost predicate CanStep(s: Intake, feed: Feed, e: Event) {
    match e
    case RunFinalizer(key, chosen) => key in s.pending && Chosen(s.store, feed.request, chosen)
    case PurgeJobs(keys) => keys !! s.pending
    case _ => true
  }

  ghost function Step(s: Intake, feed: Feed, e: Event): Intake {
    match e
    case Deliver(callback, source) => if Repeated(s, callback) then s else Delivered(s, feed, callback, source)
    case Completion(callback) => if Repeated(s, callback) then s else CompletionDelivered(s, feed, callback)
    case RunFinalizer(key, chosen) => s.(store := Finalized(s.store, chosen), pending := s.pending - {key})
    case PurgeJobs(keys) => s.(jobs := s.jobs - keys)
  }

  ghost predicate IsRun(s: Intake, feed: Feed, es: seq<Event>)
    decreases |es|
  {
    es == [] || (CanStep(s, feed, es[0]) && IsRun(Step(s, feed, es[0]), feed, es[1..]))
  }

  ghost function Run(s: Intake, feed: Feed, es: seq<Event>): Intake
    decreases |es|
  {
    if es == [] then s else Run(Step(s, feed, es[0]), feed, es[1..])
  }

  /* ---- Callbacks count once ---- */

  lemma {:induction false} DeliveredGrows(s: Intake, feed: Feed, es: seq<Event>)
    ensures s.delivered <= Run(s, feed, es).delivered
    decreases |es|
  {
    if es != [] {
      DeliveredGrows(Step(s, feed, es[0]), feed, es[1..]);
    }
  }

  // Whatever came with a callback id, nothing that comes with it later changes anything.
  lemma CallbacksCountOnce(s: Intake, feed: Feed, first: Event, es: seq<Event>, again: Event)
    requires (first.Deliver? || first.Completion?) && first.callback.Some?
    requires (again.Deliver? || again.Completion?) && again.callback == first.callback
    ensures var t := Run(Step(s, feed, first), feed, es); Step(t, feed, again) == t
  {
    DeliveredGrows(Step(s, feed, first), feed, es);
  }

  // A first delivery stages its response, and a first completion is noted and asks for a finalizer.
  lemma FirstTime(s: Intake, feed: Feed, callback: Option<string>, source: string)
    requires callback.Some? ==> callback.value !in s.delivered
    ensures Step(s, feed, Completion(callback)).completed
    ensures Jobs.FinalizeKey(feed.request) in Step(s, feed, Completion(callback)).jobs
    ensures Jobs.FinalizeKey(feed.request) !in s.jobs ==> Jobs.FinalizeKey(feed.request) in Step(s, feed, Completion(callback)).pending
    ensures var t := Step(s, feed, Deliver(callback, source));
      && t.completed == s.completed && t.store == StageVersion(
           s.store, s.nextId, feed.code, source, feed.request, feed.response(source).cached, feed.response(source).content, s.clock)
      && (s.completed ==> Jobs.RepairKey(feed.request, source) in t.jobs)
      && (s.completed && Jobs.RepairKey(feed.request, source) !in s.jobs ==> Jobs.RepairKey(feed.request, source) in t.pending)
      && (!s.completed ==> t.jobs == s.jobs && t.pending == s.pending)
  {
  }

  /* ---- Invariants ---- */

  // The process row and the rows of its current version are this content.
  ghost predicate Shows(s: Store, code: string, c: Content) {
    Holds(s, code, c)
  }

  ghost predicate Settled(s: Store, feed: Feed) {
    forall p :: IsPreferred(s, feed.request, p) ==> Shows(s, feed.code, s.versions[p].payload)
  }

  // Every version comes from the feed and was created before the present moment.
  ghost predicate FromFeed(s: Intake, feed: Feed) {
    && (forall id :: id in s.store.versions ==>
          var v := s.store.versions[id];
          && v.code == feed.code && v.request == feed.request && v.created < s.clock && id < s.nextId
          && v.cached == feed.response(v.source).cached && v.payload == feed.response(v.source).content)
    && (forall a, b :: a in s.store.versions && b in s.store.versions && a != b ==>
          s.store.versions[a].created != s.store.versions[b].created)
    && (forall id :: id in s.store.versions ==> feed.code in s.store.processes)
  }

  ghost predicate Sane(s: Intake, feed: Feed) {
    Good(s.store) && FromFeed(s, feed)
  }

  // A cached response became current only while there was no fresh one.
  ghost predicate FreshIsNewer(s: Store, feed: Feed) {
    feed.code in s.processes && s.processes[feed.code].current.Some? ==>
      var c := s.processes[feed.code].current.value;
      c in s.versions && (s.versions[c].cached ==>
        forall f :: f in s.versions && !s.versions[f].cached ==> s.versions[c].created < s.versions[f].created)
  }

  ghost predicate FinalizedIsShown(s: Store, feed: Feed) {
    forall p :: IsPreferred(s, feed.request, p) && s.versions[p].finalized ==> Shows(s, feed.code, s.versions[p].payload)
  }

  ghost predicate GoodJobs(s: Intake, feed: Feed) {
    && s.pending <= s.jobs
    && (Jobs.FinalizeKey(feed.request) in s.jobs ==> s.completed)
    && (forall source :: Jobs.RepairKey(feed.request, source) in s.jobs ==> Staged(s.store.versions, feed.code, source))
    && (s.completed && !Settled(s.store, feed) ==> s.pending != {})
  }

  ghost predicate Inv(s: Intake, feed: Feed) {
    && Sane(s, feed)
    && FreshIsNewer(s.store, feed) && FinalizedIsShown(s.store, feed)
    && GoodJobs(s, feed)
  }

  lemma PreferredIsUnique(s: Intake, feed: Feed, a: VersionId, b: VersionId)
    requires FromFeed(s, feed) && IsPreferred(s.store, feed.request, a) && IsPreferred(s.store, feed.request, b)
    ensures a == b
  {
  }

  // Delivering a response whose version exists changes no version: the same id means the same response.
  lemma RedeliveryKeepsStore(s: Intake, feed: Feed, callback: Option<string>, source: string)
    requires Sane(s, feed) && Staged(s.store.versions, feed.code, source)
    ensures Delivered(s, feed, callback, source).store == s.store
  {
    var r := feed.response(source);
    var id :| id in s.store.versions && Matches(s.store.versions[id], feed.code, source);
    StageAgain(s.store, s.nextId, feed.code, source, feed.request, r.cached, r.content, s.clock);
  }

  // A new response: the process row stays, and the version becomes preferred unless it is cached
  // and a fresh one is there.
  lemma DeliveryAdds(s: Intake, feed: Feed, callback: Option<string>, source: string)
    requires Sane(s, feed) && !Staged(s.store.versions, feed.code, source)
    ensures var t := Delivered(s, feed, callback, source).store;
      && s.nextId !in s.store.versions
      && t.versions == s.store.versions[s.nextId := Version(feed.code, source, feed.request, feed.response(source).cached,
                         feed.response(source).content, s.clock, false, None, map[], map[])]
      && (feed.code in s.store.processes ==> t.processes == s.store.processes)
      && Good(t)
  {
    var r := feed.response(source);
    StageKeepsGood(s.store, s.nextId, feed.code, source, feed.request, r.cached, r.content, s.clock);
  }

  // The version stays preferred, or was not the preferred one before.
  lemma DeliveryKeepsPreferred(s: Intake, feed: Feed, callback: Option<string>, source: string, p: VersionId)
    requires Sane(s, feed) && !Staged(s.store.versions, feed.code, source)
    requires IsPreferred(Delivered(s, feed, callback, source).store, feed.request, p) && p != s.nextId
    ensures IsPreferred(s.store, feed.request, p)
  {
    var t := Delivered(s, feed, callback, source).store;
    DeliveryAdds(s, feed, callback, source);
    forall v | v in s.store.versions ensures NoWorse(s.store.versions[p], s.store.versions[v]) {
      assert t.versions[v] == s.store.versions[v] && t.versions[v].request == feed.request;
      assert NoWorse(t.versions[p], t.versions[v]);
    }
  }

  lemma DeliveryShows(s: Intake, feed: Feed, callback: Option<string>, source: string)
    requires Inv(s, feed) && !Staged(s.store.versions, feed.code, source)
    ensures FinalizedIsShown(Delivered(s, feed, callback, source).store, feed)
  {
    var t := Delivered(s, feed, callback, source).store;
    DeliveryAdds(s, feed, callback, source);
    assert GoodProcess(s.store, feed.code);
    forall p | IsPreferred(t, feed.request, p) && t.versions[p].finalized
      ensures Shows(t, feed.code, t.versions[p].payload)
    {
      DeliveryKeepsPreferred(s, feed, callback, source, p);
      assert Shows(s.store, feed.code, s.store.versions[p].payload);
    }
  }

  lemma DeliveryKeepsFeed(s: Intake, feed: Feed, callback: Option<string>, source: string)
    requires Sane(s, feed) && !Staged(s.store.versions, feed.code, source)
    ensures FromFeed(Delivered(s, feed, callback, source), feed)
  {
    DeliveryAdds(s, feed, callback, source);
  }

  lemma DeliveryKeepsFresh(s: Intake, feed: Feed, callback: Option<string>, source: string)
    requires Inv(s, feed) && !Staged(s.store.versions, feed.code, source)
    ensures FreshIsNewer(Delivered(s, feed, callback, source).store, feed)
  {
    DeliveryAdds(s, feed, callback, source);
    assert GoodProcess(s.store, feed.code);
  }

  lemma DeliveryKeepsJobs(s: Intake, feed: Feed, callback: Option<string>, source: string)
    requires Inv(s, feed) && !Staged(s.store.versions, feed.code, source)
    ensures GoodJobs(Delivered(s, feed, callback, source), feed)
  {
    var t := Delivered(s, feed, callback, source);
    DeliveryAdds(s, feed, callback, source);
    // A repair job for this source cannot exist yet, so a completed request gets a new finalizer.
    assert Jobs.RepairKey(feed.request, source) !in s.jobs;
    assert Matches(t.store.versions[s.nextId], feed.code, source);
    forall other | Jobs.RepairKey(feed.request, other) in t.jobs
      ensures Staged(t.store.versions, feed.code, other)
    {
      if other != source {
        assert Jobs.RepairKey(feed.request, other) in s.jobs;
        var id :| id in s.store.versions && Matches(s.store.versions[id], feed.code, other);
        assert Matches(t.store.versions[id], feed.code, other);
      }
    }
  }

  lemma RedeliveryKeepsInv(s: Intake, feed: Feed, callback: Option<string>, source: string)
    requires Inv(s, feed) && Staged(s.store.versions, feed.code, source)
    ensures Inv(Delivered(s, feed, callback, source), feed)
  {
    RedeliveryKeepsStore(s, feed, callback, source);
    RedeliveryKeepsJobs(s, feed, callback, source);
    SameStoreKeepsInv(s, feed, Delivered(s, feed, callback, source));
  }

  lemma SameStoreKeepsInv(s: Intake, feed: Feed, t: Intake)
    requires Inv(s, feed) && t.store == s.store && t.clock >= s.clock && t.nextId >= s.nextId && GoodJobs(t, feed)
    ensures Inv(t, feed)
  {
  }

  lemma RedeliveryKeepsJobs(s: Intake, feed: Feed, callback: Option<string>, source: string)
    requires GoodJobs(s, feed) && Staged(s.store.versions, feed.code, source)
    requires Delivered(s, feed, callback, source).store == s.store
    ensures GoodJobs(Delivered(s, feed, callback, source), feed)
  {
  }

  lemma DeliverKeepsInv(s: Intake, feed: Feed, callback: Option<string>, source: string)
    requires Inv(s, feed)
    ensures Inv(Delivered(s, feed, callback, source), feed)
  {
    if Staged(s.store.versions, feed.code, source) {
      RedeliveryKeepsInv(s, feed, callback, source);
    } else {
      DeliveryAdds(s, feed, callback, source);
      DeliveryKeepsFeed(s, feed, callback, source);
      DeliveryKeepsFresh(s, feed, callback, source);
      DeliveryShows(s, feed, callback, source);
      DeliveryKeepsJobs(s, feed, callback, source);
    }
  }

  lemma CompletionKeepsInv(s: Intake, feed: Feed, callback: Option<string>)
    requires Inv(s, feed)
    ensures Inv(CompletionDelivered(s, feed, callback), feed)
  {
  }

  /* ---- A finalizer settles the process ---- */

  // What the process shows after finalizing a version that was not finalized: what it showed
  // before, unless the version is promoted.
  lemma AfterQuietFinalize(s: Store, v: VersionId, c: Content)
    requires Good(s) && v in s.versions && !s.versions[v].finalized && s.versions[v].code in s.processes
    requires Unchanged(s, s.versions[v].code, s.versions[v].payload) || !Promotes(s, v)
    ensures Shows(FinalizeVersion(s, v, s.versions[v].payload), s.versions[v].code, c) <==> Shows(s, s.versions[v].code, c)
  {
    var version := s.versions[v];
    var t := FinalizeVersion(s, v, version.payload);
    assert GoodProcess(s, version.code);
    assert t.processes == s.processes;
    var current := s.processes[version.code].current;
    if current.Some? {
      assert current.value != v && t.versions[current.value] == s.versions[current.value];
    }
  }

  lemma AfterPromotion(s: Store, v: VersionId, c: Content)
    requires Good(s) && v in s.versions && !s.versions[v].finalized && s.versions[v].code in s.processes
    requires Increasing(s.versions[v].payload.steps) && Increasing(s.versions[v].payload.attachments)
    requires !Unchanged(s, s.versions[v].code, s.versions[v].payload) && Promotes(s, v)
    ensures Shows(FinalizeVersion(s, v, s.versions[v].payload), s.versions[v].code, c) <==>
      SameMeaning(s.versions[v].payload, c)
  {
    var version := s.versions[v];
    var t := FinalizeVersion(s, v, version.payload);
    FinalizeKeepsGood(s, v);
    assert t.processes[version.code] == Process(version.payload.fields, Some(v));
    CurrentIsHeld(t, version.code);
    HeldTogether(t, version.code, version.payload, c);
  }

  lemma FinalizerSettles(s: Intake, feed: Feed, p: VersionId)
    requires Inv(s, feed) && InOrder(feed) && IsPreferred(s.store, feed.request, p)
    ensures var t := Finalized(s.store, Some(p));
      Shows(t, feed.code, s.store.versions[p].payload)
  {
    var v := s.store.versions[p];
    assert v.code == feed.code && v.payload == feed.response(v.source).content;
    if !v.finalized {
      assert Promotes(s.store, p);
      UnchangedMeans(s.store, feed.code, v.payload);
      if Unchanged(s.store, feed.code, v.payload) {
        AfterQuietFinalize(s.store, p, v.payload);
      } else {
        AfterPromotion(s.store, p, v.payload);
      }
    }
  }

  lemma FinalizerKeepsProcess(s: Intake, feed: Feed, p: VersionId)
    requires Inv(s, feed) && IsPreferred(s.store, feed.request, p)
    ensures var t := Finalized(s.store, Some(p));
      && feed.code in t.processes
      && (t.processes[feed.code].current == s.store.processes[feed.code].current
          || t.processes[feed.code].current == Some(p))
  {
    assert s.store.versions[p].code == feed.code;
  }

  lemma SameSourcesSamePreferred(a: Store, b: Store, request: string, p: VersionId)
    requires SameSources(a, b) && IsPreferred(b, request, p)
    ensures IsPreferred(a, request, p)
  {
    assert b.versions[p].request == a.versions[p].request;
    forall v | v in a.versions && a.versions[v].request == request ensures NoWorse(a.versions[p], a.versions[v]) {
      assert b.versions[v].request == request;
      assert NoWorse(b.versions[p], b.versions[v]);
    }
  }

  lemma SameSourcesSameStaged(a: Store, b: Store, code: string, source: string)
    requires SameSources(a, b) && Staged(a.versions, code, source)
    ensures Staged(b.versions, code, source)
  {
    var id :| id in a.versions && Matches(a.versions[id], code, source);
    assert Matches(b.versions[id], code, source);
  }

  lemma FinalizerSettlesAll(s: Intake, feed: Feed, p: VersionId)
    requires Inv(s, feed) && InOrder(feed) && IsPreferred(s.store, feed.request, p)
    ensures Settled(Finalized(s.store, Some(p)), feed)
    ensures FreshIsNewer(Finalized(s.store, Some(p)), feed)
  {
    var t := Finalized(s.store, Some(p));
    FinalizeKeepsSources(s.store, p);
    FinalizerSettles(s, feed, p);
    FinalizerKeepsProcess(s, feed, p);
    forall q | IsPreferred(t, feed.request, q) ensures q == p {
      SameSourcesSamePreferred(s.store, t, feed.request, q);
      PreferredIsUnique(s, feed, p, q);
    }
    var c := t.processes[feed.code].current.value;
    assert GoodProcess(s.store, feed.code);
    if c == p && s.store.versions[p].cached {
      forall f | f in t.versions ensures t.versions[f].cached {
        assert s.store.versions[f].request == feed.request;
        assert NoWorse(s.store.versions[p], s.store.versions[f]);
      }
    }
  }

  lemma FinalizedFromFeed(s: Intake, feed: Feed, t: Intake)
    requires FromFeed(s, feed) && SameSources(s.store, t.store) && feed.code in t.store.processes
    requires t.clock == s.clock && t.nextId == s.nextId
    ensures FromFeed(t, feed)
  {
    forall id | id in t.store.versions ensures SameVersion(s.store.versions[id], t.store.versions[id]) {
    }
  }

  predicate SameVersion(a: Version, b: Version) {
    a.code == b.code && a.source == b.source && a.request == b.request && a.cached == b.cached && a.payload == b.payload
    && a.created == b.created
  }

  // Finalizing any version leaves the store well formed and from the feed.
  lemma FinalizerKeepsSane(s: Intake, feed: Feed, v: VersionId, pending: set<Jobs.Key>)
    requires Sane(s, feed) && v in s.store.versions
    ensures Sane(s.(store := Finalized(s.store, Some(v)), pending := pending), feed)
  {
    FinalizeKeepsGood(s.store, v);
    FinalizeKeepsSources(s.store, v);
    FinalizedFromFeed(s, feed, s.(store := Finalized(s.store, Some(v)), pending := pending));
  }

  lemma FinalizerKeepsInv(s: Intake, feed: Feed, chosen: Option<VersionId>, key: Jobs.Key)
    requires Inv(s, feed) && InOrder(feed) && CanStep(s, feed, RunFinalizer(key, chosen))
    ensures Inv(Step(s, feed, RunFinalizer(key, chosen)), feed)
    ensures Settled(Step(s, feed, RunFinalizer(key, chosen)).store, feed)
  {
    var t := Step(s, feed, RunFinalizer(key, chosen));
    if chosen.Some? {
      var p := chosen.value;
      FinalizerKeepsSane(s, feed, p, s.pending - {key});
      FinalizerSettlesAll(s, feed, p);
      FinalizeKeepsSources(s.store, p);
      forall source | Jobs.RepairKey(feed.request, source) in t.jobs ensures Staged(t.store.versions, feed.code, source) {
        SameSourcesSameStaged(s.store, t.store, feed.code, source);
      }
    }
  }

  lemma StepKeepsInv(s: Intake, feed: Feed, e: Event)
    requires Inv(s, feed) && InOrder(feed) && CanStep(s, feed, e)
    ensures Inv(Step(s, feed, e), feed)
  {
    match e {
      case Deliver(callback, source) => DeliverKeepsInv(s, feed, callback, source);
      case Completion(callback) => CompletionKeepsInv(s, feed, callback);
      case RunFinalizer(key, chosen) => FinalizerKeepsInv(s, feed, chosen, key);
      case PurgeJobs(keys) =>
    }
  }

  lemma {:induction false} RunKeepsInv(s: Intake, feed: Feed, es: seq<Event>)
    requires Inv(s, feed) && InOrder(feed) && IsRun(s, feed, es)
    ensures Inv(Run(s, feed, es), feed)
    decreases |es|
  {
    if es != [] {
      StepKeepsInv(s, feed, es[0]);
      RunKeepsInv(Step(s, feed, es[0]), feed, es[1..]);
    }
  }

  // Whatever the order, the repetitions and the interleaving: once the completion was delivered and
  // every finalizer ran, the process shows the content of the preferred version.
  lemma DeliveryOrderIndependence(feed: Feed, es: seq<Event>, p: VersionId)
    requires InOrder(feed) && IsRun(Start, feed, es)
    requires var s := Run(Start, feed, es); s.completed && s.pending == {} && IsPreferred(s.store, feed.request, p)
    ensures var s := Run(Start, feed, es); Shows(s.store, feed.code, s.store.versions[p].payload)
  {
    RunKeepsInv(Start, feed, es);
  }

  /* ---- Independence from the order ---- */

  // The responses a run delivered with effect are the sources of its versions.
  ghost function Sources(s: Intake): set<string> {
    set id | id in s.store.versions :: s.store.versions[id].source
  }

  lemma {:induction false} BestOf(versions: map<VersionId, Version>, ids: set<VersionId>) returns (p: VersionId)
    requires ids != {} && ids <= versions.Keys
    ensures p in ids && forall v :: v in ids ==> NoWorse(versions[p], versions[v])
    decreases |ids|
  {
    var first :| first in ids;
    var rest := ids - {first};
    p := first;
    if rest != {} {
      var q := BestOf(versions, rest);
      if !NoWorse(versions[first], versions[q]) {
        p := q;
      }
    }
    forall v | v in ids ensures NoWorse(versions[p], versions[v]) {
      assert v == first || v in rest;
    }
  }

  lemma PreferredExists(s: Intake, feed: Feed, some: VersionId) returns (p: VersionId)
    requires FromFeed(s, feed) && some in s.store.versions
    ensures IsPreferred(s.store, feed.request, p)
  {
    p := BestOf(s.store.versions, s.store.versions.Keys);
  }

  // The source of the newest fresh response, or of the newest cached one if none is fresh.
  ghost predicate IsNewest(s: Intake, feed: Feed, source: string) {
    exists p :: IsPreferred(s.store, feed.request, p) && s.store.versions[p].source == source
  }

  // Two runs in which the same response is the newest end with processes that mean the same, in
  // whatever order and however often anything was delivered.
  lemma SameResponsesSameProcess(feed: Feed, es: seq<Event>, fs: seq<Event>, newest: string)
    requires InOrder(feed) && IsRun(Start, feed, es) && IsRun(Start, feed, fs)
    requires var a, b := Run(Start, feed, es), Run(Start, feed, fs);
      && a.completed && a.pending == {} && IsNewest(a, feed, newest)
      && b.completed && b.pending == {} && IsNewest(b, feed, newest)
    ensures var a, b := Run(Start, feed, es), Run(Start, feed, fs);
      && Shows(a.store, feed.code, feed.response(newest).content)
      && Shows(b.store, feed.code, feed.response(newest).content)
  {
    ShowsTheNewest(feed, es, newest);
    ShowsTheNewest(feed, fs, newest);
  }

  lemma ShowsTheNewest(feed: Feed, es: seq<Event>, newest: string)
    requires InOrder(feed) && IsRun(Start, feed, es)
    requires var a := Run(Start, feed, es); a.completed && a.pending == {} && IsNewest(a, feed, newest)
    ensures Shows(Run(Start, feed, es).store, feed.code, feed.response(newest).content)
  {
    var a := Run(Start, feed, es);
    RunKeepsInv(Start, feed, es);
    var p :| IsPreferred(a.store, feed.request, p) && a.store.versions[p].source == newest;
    DeliveryOrderIndependence(feed, es, p);
  }

  // A single fresh response is the newest in every order.
  lemma OnlyFreshIsNewest(s: Intake, feed: Feed, newest: string)
    requires FromFeed(s, feed) && newest in Sources(s)
    requires forall source :: source in Sources(s) ==> (feed.response(source).cached <==> source != newest)
    ensures IsNewest(s, feed, newest)
  {
    var id :| id in s.store.versions && s.store.versions[id].source == newest;
    var p := PreferredExists(s, feed, id);
    assert NoWorse(s.store.versions[p], s.store.versions[id]);
    assert s.store.versions[p].source in Sources(s);
  }
}
