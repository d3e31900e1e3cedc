/** Finalizers that overlap.  A finalizer transaction of app/judit_tasks.py reads the preferred
    version before finalize_version of app/processes.py locks the process row, so between the two
    anything may commit: deliveries, the completion and other finalizers. */
module Overlap {
  import opened Wrappers
  import Jobs
  import opened VersionStore
  import opened Ingestion

  type TxId = nat

  // An open finalizer transaction: its job and what it read.
  datatype Tx = Tx(key: Jobs.Key, chosen: Option<VersionId>)

  datatype State = State(intake: Intake, txs: map<TxId, Tx>)

  datatype Event =
    | Webhook(event: Ingestion.Event)
    | Purge(keys: set<Jobs.Key>)
    | Choose(tx: TxId, key: Jobs.Key, chosen: Option<VersionId>)
    | Commit(tx: TxId)
    | Abort(tx: TxId)

  const Start := State(Ingestion.Start, map[])

  // A job may be run by several transactions, for instance by a worker that lost it and one that
  // reclaimed it.
  ghost predicate CanStep(s: State, feed: Feed, e: Event) {
    match e
    case Webhook(event) => event.Deliver? || event.Completion?
    case Purge(keys) => keys !! s.intake.pending && forall tx :: tx in s.txs ==> s.txs[tx].key !in keys
    case Choose(tx, key, chosen) => tx !in s.txs && key in s.intake.pending && Chosen(s.intake.store, feed.request, chosen)
    case Commit(tx) => tx in s.txs
    case Abort(tx) => tx in s.txs
  }

  ghost function Step(s: State, feed: Feed, e: Event): State {
    match e
    case Webhook(event) => s.(intake := Ingestion.Step(s.intake, feed, event))
    case Purge(keys) => s.(intake := Ingestion.Step(s.intake, feed, PurgeJobs(keys)))
    case Choose(tx, key, chosen) => s.(txs := s.txs[tx := Tx(key, chosen)])
    case Commit(tx) => if tx in s.txs then Committed(s, tx) else s
    case Abort(tx) => s.(txs := s.txs - {tx})
  }

  ghost function Committed(s: State, tx: TxId): State
    requires tx in s.txs
  {
    State(s.intake.(store := Finalized(s.intake.store, s.txs[tx].chosen), pending := s.intake.pending - {s.txs[tx].key}),
          s.txs - {tx})
  }

  ghost predicate IsRun(s: State, feed: Feed, es: seq<Event>)
    decreases |es|
  {
    es == [] || (CanStep(s, feed, es[0]) && IsRun(Step(s, feed, es[0]), feed, es[1..]))
  }

  ghost function Run(s: State, feed: Feed, es: seq<Event>): State
    decreases |es|
  {
    if es == [] then s else Run(Step(s, feed, es[0]), feed, es[1..])
  }

  // A finalizer that reads and commits at once is the single step of Ingestion.
  lemma AtOnce(s: State, feed: Feed, tx: TxId, key: Jobs.Key, chosen: Option<VersionId>)
    requires CanStep(s, feed, Choose(tx, key, chosen))
    ensures Step(Step(s, feed, Choose(tx, key, chosen)), feed, Commit(tx)) ==
      s.(intake := Ingestion.Step(s.intake, feed, RunFinalizer(key, chosen)))
  {
    var mid := Step(s, feed, Choose(tx, key, chosen));
    assert mid.txs - {tx} == s.txs;
  }

  /* ---- Invariants ---- */

  // When the version came it was preferred: no older version is fresh while it is cached.
  ghost predicate Led(s: Store, v: VersionId) {
    v in s.versions && forall u :: u in s.versions && s.versions[u].created < s.versions[v].created ==>
      s.versions[v].cached ==> s.versions[u].cached
  }

  // Between two versions that mean the same comes one that does not, each preferred in its time.
  predicate Alternate(x: Version, v: Version, p: Version) {
    && x.created < v.created < p.created
    && SameMeaning(x.payload, p.payload) && !SameMeaning(v.payload, p.payload)
    && (v.cached ==> x.cached) && (p.cached ==> v.cached)
  }

  ghost predicate Between(s: Store, p: VersionId) {
    p in s.versions && exists x, v :: x in s.versions && v in s.versions && Alternate(s.versions[x], s.versions[v], s.versions[p])
  }

  // A pending job no open transaction of which read anything but p.
  ghost predicate Awaits(s: State, p: VersionId, key: Jobs.Key) {
    key in s.intake.pending && forall tx :: tx in s.txs && s.txs[tx].key == key ==> s.txs[tx].chosen == Some(p)
  }

  ghost predicate GoodKeys(s: State, feed: Feed) {
    && s.intake.pending <= s.intake.jobs
    && (Jobs.FinalizeKey(feed.request) in s.intake.jobs ==> s.intake.completed)
    && (forall source :: Jobs.RepairKey(feed.request, source) in s.intake.jobs ==> Staged(s.intake.store.versions, feed.code, source))
    && (forall tx :: tx in s.txs ==> s.txs[tx].key in s.intake.jobs)
  }

  ghost predicate AllLed(s: State) {
    && (forall tx :: tx in s.txs && s.txs[tx].chosen.Some? ==> Led(s.intake.store, s.txs[tx].chosen.value))
    && (forall v :: v in s.intake.store.versions && s.intake.store.versions[v].finalized ==> Led(s.intake.store, v))
  }

  // The preferred version: once finalized it is shown, unless two that differ alternate; before,
  // a finalizer will come to it.
  ghost predicate GoodPreferred(s: State, feed: Feed, p: VersionId) {
    var store := s.intake.store;
    IsPreferred(store, feed.request, p) ==>
      if store.versions[p].finalized then Shows(store, feed.code, store.versions[p].payload) || Between(store, p)
      else s.intake.completed ==> exists key :: Awaits(s, p, key)
  }

  ghost predicate Inv(s: State, feed: Feed) {
    Sane(s.intake, feed) && GoodKeys(s, feed) && AllLed(s) && forall p :: GoodPreferred(s, feed, p)
  }

  /* ---- What a commit does ---- */

  // No version that was preferred in its time is newer than the preferred one.
  lemma PreferredIsNewest(s: Intake, feed: Feed, p: VersionId, v: VersionId)
    requires FromFeed(s, feed) && IsPreferred(s.store, feed.request, p) && Led(s.store, v)
    ensures s.store.versions[v].created <= s.store.versions[p].created
    ensures s.store.versions[p].cached ==> s.store.versions[v].cached
    ensures v != p ==> s.store.versions[v].created < s.store.versions[p].created
  {
    assert s.store.versions[v].request == feed.request;
    assert NoWorse(s.store.versions[p], s.store.versions[v]);
  }

  // The commit takes effect on the process.
  ghost predicate Takes(s: Store, v: VersionId)
    requires v in s.versions && s.versions[v].code in s.processes
  {
    !s.versions[v].finalized && Promotes(s, v) && !Shows(s, s.versions[v].code, s.versions[v].payload)
  }

  // What the process shows afterwards: the version if the commit takes effect, else what it showed.
  lemma CommitShows(s: Intake, feed: Feed, v: VersionId, c: Content)
    requires Sane(s, feed) && InOrder(feed) && v in s.store.versions
    ensures Shows(Finalized(s.store, Some(v)), feed.code, c) <==>
      if Takes(s.store, v) then SameMeaning(s.store.versions[v].payload, c) else Shows(s.store, feed.code, c)
  {
    var version := s.store.versions[v];
    assert version.code == feed.code && version.payload == feed.response(version.source).content;
    UnchangedMeans(s.store, feed.code, version.payload);
    if !version.finalized {
      if Takes(s.store, v) {
        AfterPromotion(s.store, v, c);
      } else {
        AfterQuietFinalize(s.store, v, c);
      }
    }
  }

  // A late finalizer leaves the shown content of the preferred version alone exactly when its
  // version is finalized already, is not promoted, or means the same.
  lemma LateFinalizer(s: Intake, feed: Feed, v: VersionId, p: VersionId)
    requires Sane(s, feed) && InOrder(feed) && v in s.store.versions
    requires IsPreferred(s.store, feed.request, p) && Shows(s.store, feed.code, s.store.versions[p].payload)
    ensures Shows(Finalized(s.store, Some(v)), feed.code, s.store.versions[p].payload) <==>
      || s.store.versions[v].finalized
      || !Promotes(s.store, v)
      || SameMeaning(s.store.versions[v].payload, s.store.versions[p].payload)
  {
    CommitShows(s, feed, v, s.store.versions[p].payload);
    assert s.store.versions[v].code == feed.code;
    TakesBeside(s.store, v, s.store.versions[p].payload);
  }

  lemma TakesBeside(s: Store, v: VersionId, c: Content)
    requires v in s.versions && s.versions[v].code in s.processes && Shows(s, s.versions[v].code, c)
    ensures Takes(s, v) <==> !s.versions[v].finalized && Promotes(s, v) && !SameMeaning(s.versions[v].payload, c)
  {
    HeldTogether(s, s.versions[v].code, c, s.versions[v].payload);
    MeaningIsMutual(c, s.versions[v].payload);
  }

  lemma MeaningIsMutual(a: Content, b: Content)
    ensures SameMeaning(a, b) <==> SameMeaning(b, a)
  {
  }

  // A finalizer that read the preferred version has it shown.
  lemma CommitPreferred(s: Intake, feed: Feed, p: VersionId)
    requires Sane(s, feed) && InOrder(feed) && IsPreferred(s.store, feed.request, p) && !s.store.versions[p].finalized
    requires forall v :: v in s.store.versions && s.store.versions[v].finalized ==> Led(s.store, v)
    ensures Shows(Finalized(s.store, Some(p)), feed.code, s.store.versions[p].payload)
  {
    assert s.store.versions[p].code == feed.code && GoodProcess(s.store, feed.code);
    var current := s.store.processes[feed.code].current;
    if current.Some? {
      PreferredIsNewest(s, feed, p, current.value);
    }
    CommitShows(s, feed, p, s.store.versions[p].payload);
  }

  // What the process shows is what its current version holds.
  lemma ShownIsCurrent(s: Intake, feed: Feed, c: Content)
    requires Sane(s, feed) && InOrder(feed) && Shows(s.store, feed.code, c)
    ensures var x := s.store.processes[feed.code].current.value;
      s.store.versions[x].finalized && SameMeaning(s.store.versions[x].payload, c)
  {
    assert GoodProcess(s.store, feed.code);
    var v := s.store.versions[s.store.processes[feed.code].current.value];
    assert GoodVersion(s.store, v);
    assert v.payload == feed.response(v.source).content;
    CurrentIsHeld(s.store, feed.code);
    HeldTogether(s.store, feed.code, v.payload, c);
  }

  // Any other commit does, or shows that two that differ alternate.
  lemma CommitOther(s: Intake, feed: Feed, p: VersionId, v: VersionId)
    requires Sane(s, feed) && InOrder(feed) && IsPreferred(s.store, feed.request, p) && Led(s.store, v)
    requires forall u :: u in s.store.versions && s.store.versions[u].finalized ==> Led(s.store, u)
    requires s.store.versions[p].finalized && Shows(s.store, feed.code, s.store.versions[p].payload)
    ensures Shows(Finalized(s.store, Some(v)), feed.code, s.store.versions[p].payload) || Between(s.store, p)
  {
    var c := s.store.versions[p].payload;
    CommitShows(s, feed, v, c);
    if Takes(s.store, v) && !SameMeaning(s.store.versions[v].payload, c) {
      assert s.store.versions[v].code == feed.code;
      ShownIsCurrent(s, feed, c);
      var x := s.store.processes[feed.code].current.value;
      PreferredIsNewest(s, feed, p, v);
      assert x != v && s.store.versions[x].created != s.store.versions[v].created;
      assert Alternate(s.store.versions[x], s.store.versions[v], s.store.versions[p]);
    }
  }

  /* ---- Every step keeps the invariant ---- */

  // No version is lost or rewritten in what it was staged with, and new ones are newer.
  ghost predicate Extends(a: Store, b: Store) {
    && (forall id :: id in a.versions ==> id in b.versions && SameVersion(a.versions[id], b.versions[id]))
    && forall id, n :: id in a.versions && n in b.versions && n !in a.versions ==> a.versions[id].created < b.versions[n].created
  }

  lemma LedStays(a: Store, b: Store, v: VersionId)
    requires Extends(a, b) && Led(a, v)
    ensures Led(b, v)
  {
    assert SameVersion(a.versions[v], b.versions[v]);
    forall u | u in b.versions && b.versions[u].created < b.versions[v].created && b.versions[v].cached ensures b.versions[u].cached {
      assert u in a.versions;
      assert SameVersion(a.versions[u], b.versions[u]);
    }
  }

  lemma BetweenStays(a: Store, b: Store, p: VersionId)
    requires Extends(a, b) && Between(a, p)
    ensures Between(b, p)
  {
    var x, v :| x in a.versions && v in a.versions && Alternate(a.versions[x], a.versions[v], a.versions[p]);
    assert SameVersion(a.versions[x], b.versions[x]) && SameVersion(a.versions[v], b.versions[v]);
    assert SameVersion(a.versions[p], b.versions[p]);
    assert Alternate(b.versions[x], b.versions[v], b.versions[p]);
  }

  lemma DeliveryExtends(s: Intake, feed: Feed, callback: Option<string>, source: string)
    requires Sane(s, feed)
    ensures Sane(Delivered(s, feed, callback, source), feed) && Extends(s.store, Delivered(s, feed, callback, source).store)
  {
    if Staged(s.store.versions, feed.code, source) {
      RedeliveryKeepsStore(s, feed, callback, source);
    } else {
      DeliveryAdds(s, feed, callback, source);
      DeliveryKeepsFeed(s, feed, callback, source);
    }
  }

  lemma CommitExtends(s: Intake, feed: Feed, v: VersionId)
    requires Sane(s, feed) && v in s.store.versions
    ensures Extends(s.store, Finalized(s.store, Some(v)))
    ensures forall u :: u in s.store.versions && u != v ==> Finalized(s.store, Some(v)).versions[u] == s.store.versions[u]
    ensures Finalized(s.store, Some(v)).versions[v].finalized
  {
    assert s.store.versions[v].code == feed.code;
    FinalizeTouchesOne(s.store, v, s.store.versions[v].payload);
    FinalizeMarks(s.store, v, s.store.versions[v].payload);
  }

  // What is shown before a new response is shown after it.
  lemma DeliveryKeepsShown(s: Intake, feed: Feed, callback: Option<string>, source: string, c: Content)
    requires Sane(s, feed) && !Staged(s.store.versions, feed.code, source) && Shows(s.store, feed.code, c)
    ensures Shows(Delivered(s, feed, callback, source).store, feed.code, c)
  {
    DeliveryAdds(s, feed, callback, source);
    assert GoodProcess(s.store, feed.code);
  }

  ghost function AfterDelivery(s: State, feed: Feed, callback: Option<string>, source: string): State {
    s.(intake := Delivered(s.intake, feed, callback, source))
  }

  lemma NewResponseKeepsPreferred(s: State, feed: Feed, callback: Option<string>, source: string, p: VersionId)
    requires Inv(s, feed) && !Staged(s.intake.store.versions, feed.code, source)
    ensures GoodPreferred(AfterDelivery(s, feed, callback, source), feed, p)
  {
    var t := AfterDelivery(s, feed, callback, source);
    DeliveryAdds(s.intake, feed, callback, source);
    if IsPreferred(t.intake.store, feed.request, p) {
      if p == s.intake.nextId {
        NewResponseIsAwaited(s, feed, callback, source);
      } else {
        DeliveryKeepsPreferred(s.intake, feed, callback, source, p);
        OldResponseStaysGood(s, feed, callback, source, p);
      }
    }
  }

  lemma NewResponseIsAwaited(s: State, feed: Feed, callback: Option<string>, source: string)
    requires GoodKeys(s, feed) && !Staged(s.intake.store.versions, feed.code, source)
    ensures var t := AfterDelivery(s, feed, callback, source);
      t.intake.completed ==> Awaits(t, s.intake.nextId, Jobs.RepairKey(feed.request, source))
  {
  }

  lemma OldResponseStaysGood(s: State, feed: Feed, callback: Option<string>, source: string, p: VersionId)
    requires Inv(s, feed) && !Staged(s.intake.store.versions, feed.code, source) && IsPreferred(s.intake.store, feed.request, p)
    ensures GoodPreferred(AfterDelivery(s, feed, callback, source), feed, p)
  {
    var t := AfterDelivery(s, feed, callback, source);
    DeliveryAdds(s.intake, feed, callback, source);
    DeliveryExtends(s.intake, feed, callback, source);
    assert GoodPreferred(s, feed, p);
    StaysGood(s, feed, t, p);
    if Shows(s.intake.store, feed.code, s.intake.store.versions[p].payload) {
      DeliveryKeepsShown(s.intake, feed, callback, source, s.intake.store.versions[p].payload);
    }
  }

  // A pending job stays awaited, and versions that alternate stay.
  lemma StaysGood(s: State, feed: Feed, t: State, p: VersionId)
    requires s.intake.pending <= t.intake.pending && t.txs == s.txs
    requires Sane(s.intake, feed) && Extends(s.intake.store, t.intake.store)
    ensures forall key :: Awaits(s, p, key) ==> Awaits(t, p, key)
    ensures Between(s.intake.store, p) ==> Between(t.intake.store, p)
  {
    if Between(s.intake.store, p) {
      BetweenStays(s.intake.store, t.intake.store, p);
    }
  }

  lemma RedeliveryKeepsPreferred(s: State, feed: Feed, callback: Option<string>, source: string, p: VersionId)
    requires Inv(s, feed) && Staged(s.intake.store.versions, feed.code, source)
    ensures GoodPreferred(AfterDelivery(s, feed, callback, source), feed, p)
  {
    RedeliveryKeepsStore(s.intake, feed, callback, source);
    assert GoodPreferred(s, feed, p);
    assert Extends(s.intake.store, s.intake.store);
    StaysGood(s, feed, AfterDelivery(s, feed, callback, source), p);
  }

  lemma DeliveryKeepsLed(s: State, feed: Feed, callback: Option<string>, source: string)
    requires Inv(s, feed)
    ensures AllLed(AfterDelivery(s, feed, callback, source))
  {
    var a, b := s.intake.store, Delivered(s.intake, feed, callback, source).store;
    DeliveryExtends(s.intake, feed, callback, source);
    forall v | Led(a, v) ensures Led(b, v) {
      LedStays(a, b, v);
    }
    forall v | v in b.versions && b.versions[v].finalized ensures Led(b, v) {
      DeliveryFinalizesNothing(s.intake, feed, callback, source, v);
      LedStays(a, b, v);
    }
  }

  lemma DeliveryFinalizesNothing(s: Intake, feed: Feed, callback: Option<string>, source: string, v: VersionId)
    requires Sane(s, feed) && v in Delivered(s, feed, callback, source).store.versions
    requires Delivered(s, feed, callback, source).store.versions[v].finalized
    ensures v in s.store.versions && s.store.versions[v].finalized
  {
    if Staged(s.store.versions, feed.code, source) {
      RedeliveryKeepsStore(s, feed, callback, source);
    } else {
      DeliveryAdds(s, feed, callback, source);
    }
  }

  lemma DeliveryKeepsKeys(s: State, feed: Feed, callback: Option<string>, source: string)
    requires Sane(s.intake, feed) && GoodKeys(s, feed)
    ensures GoodKeys(AfterDelivery(s, feed, callback, source), feed)
  {
    var a, b := s.intake.store, Delivered(s.intake, feed, callback, source).store;
    DeliveryExtends(s.intake, feed, callback, source);
    DeliveryStages(s.intake, feed, callback, source);
    forall other | Staged(a.versions, feed.code, other) ensures Staged(b.versions, feed.code, other) {
      var id :| id in a.versions && Matches(a.versions[id], feed.code, other);
      assert SameVersion(a.versions[id], b.versions[id]);
      assert Matches(b.versions[id], feed.code, other);
    }
  }

  lemma DeliveryStages(s: Intake, feed: Feed, callback: Option<string>, source: string)
    requires Sane(s, feed)
    ensures Staged(Delivered(s, feed, callback, source).store.versions, feed.code, source)
  {
    if Staged(s.store.versions, feed.code, source) {
      RedeliveryKeepsStore(s, feed, callback, source);
    } else {
      DeliveryAdds(s, feed, callback, source);
      assert Matches(Delivered(s, feed, callback, source).store.versions[s.nextId], feed.code, source);
    }
  }

  lemma DeliverKeepsInv(s: State, feed: Feed, callback: Option<string>, source: string)
    requires Inv(s, feed)
    ensures Inv(AfterDelivery(s, feed, callback, source), feed)
  {
    DeliveryExtends(s.intake, feed, callback, source);
    DeliveryKeepsKeys(s, feed, callback, source);
    DeliveryKeepsLed(s, feed, callback, source);
    forall p ensures GoodPreferred(AfterDelivery(s, feed, callback, source), feed, p) {
      if Staged(s.intake.store.versions, feed.code, source) {
        RedeliveryKeepsPreferred(s, feed, callback, source, p);
      } else {
        NewResponseKeepsPreferred(s, feed, callback, source, p);
      }
    }
  }

  lemma CompletionKeepsInv(s: State, feed: Feed, callback: Option<string>)
    requires Inv(s, feed)
    ensures Inv(s.(intake := CompletionDelivered(s.intake, feed, callback)), feed)
  {
    var t := s.(intake := CompletionDelivered(s.intake, feed, callback));
    forall p ensures GoodPreferred(t, feed, p) {
      CompletionKeepsPreferred(s, feed, callback, p);
    }
  }

  lemma CompletionKeepsPreferred(s: State, feed: Feed, callback: Option<string>, p: VersionId)
    requires Inv(s, feed)
    ensures GoodPreferred(s.(intake := CompletionDelivered(s.intake, feed, callback)), feed, p)
  {
    var t := s.(intake := CompletionDelivered(s.intake, feed, callback));
    assert GoodPreferred(s, feed, p);
    StaysGood(s, feed, t, p);
    if !s.intake.completed {
      assert Awaits(t, p, Jobs.FinalizeKey(feed.request));
    }
  }

  lemma ChooseKeepsInv(s: State, feed: Feed, tx: TxId, key: Jobs.Key, chosen: Option<VersionId>)
    requires Inv(s, feed) && CanStep(s, feed, Choose(tx, key, chosen))
    ensures Inv(Step(s, feed, Choose(tx, key, chosen)), feed)
  {
    var t := Step(s, feed, Choose(tx, key, chosen));
    if chosen.Some? {
      PreferredLed(s.intake, feed, chosen.value);
    }
    forall p ensures GoodPreferred(t, feed, p) {
      assert GoodPreferred(s, feed, p);
      if IsPreferred(s.intake.store, feed.request, p) {
        ChosenIs(s.intake, feed, chosen, p);
        forall k | Awaits(s, p, k) ensures Awaits(t, p, k) {
        }
      }
    }
  }

  lemma PreferredLed(s: Intake, feed: Feed, p: VersionId)
    requires FromFeed(s, feed) && IsPreferred(s.store, feed.request, p)
    ensures Led(s.store, p)
  {
    forall u | u in s.store.versions && s.store.versions[p].cached ensures s.store.versions[u].cached {
      assert s.store.versions[u].request == feed.request;
      assert NoWorse(s.store.versions[p], s.store.versions[u]);
    }
  }

  lemma ChosenIs(s: Intake, feed: Feed, chosen: Option<VersionId>, p: VersionId)
    requires FromFeed(s, feed) && Chosen(s.store, feed.request, chosen) && IsPreferred(s.store, feed.request, p)
    ensures chosen == Some(p)
  {
    if chosen.Some? {
      PreferredIsUnique(s, feed, chosen.value, p);
    }
  }

  lemma CommitKeepsKeys(s: State, feed: Feed, tx: TxId)
    requires Sane(s.intake, feed) && GoodKeys(s, feed) && tx in s.txs
    requires s.txs[tx].chosen.Some? ==> s.txs[tx].chosen.value in s.intake.store.versions
    ensures GoodKeys(Committed(s, tx), feed)
  {
    var a, b := s.intake.store, Committed(s, tx).intake.store;
    if s.txs[tx].chosen.Some? {
      CommitExtends(s.intake, feed, s.txs[tx].chosen.value);
    }
    forall source | Staged(a.versions, feed.code, source) ensures Staged(b.versions, feed.code, source) {
      var id :| id in a.versions && Matches(a.versions[id], feed.code, source);
      assert SameVersion(a.versions[id], b.versions[id]);
      assert Matches(b.versions[id], feed.code, source);
    }
  }

  lemma CommitKeepsLed(s: State, feed: Feed, tx: TxId, v: VersionId)
    requires Inv(s, feed) && tx in s.txs && s.txs[tx].chosen == Some(v)
    ensures AllLed(Committed(s, tx))
  {
    var a, b := s.intake.store, Committed(s, tx).intake.store;
    CommitExtends(s.intake, feed, v);
    forall u | Led(a, u) ensures Led(b, u) {
      LedStays(a, b, u);
    }
    forall u | u in b.versions && b.versions[u].finalized ensures Led(b, u) {
      assert u == v || a.versions[u].finalized;
      LedStays(a, b, u);
    }
  }

  lemma CommitKeepsPreferred(s: State, feed: Feed, tx: TxId, v: VersionId, p: VersionId)
    requires Inv(s, feed) && InOrder(feed) && tx in s.txs && s.txs[tx].chosen == Some(v)
    ensures GoodPreferred(Committed(s, tx), feed, p)
  {
    var a, t := s.intake.store, Committed(s, tx);
    var b := t.intake.store;
    CommitExtends(s.intake, feed, v);
    if IsPreferred(b, feed.request, p) {
      assert SameVersion(a.versions[p], b.versions[p]) && a.versions[v].code == feed.code;
      FinalizeKeepsSources(a, v);
      SameSourcesSamePreferred(a, b, feed.request, p);
      assert GoodPreferred(s, feed, p);
      if !a.versions[p].finalized {
        if v == p {
          CommitPreferred(s.intake, feed, p);
        } else {
          StaysAwaited(s, tx, p);
        }
      } else if Between(a, p) {
        BetweenStays(a, b, p);
      } else {
        CommitOther(s.intake, feed, p, v);
      }
    }
  }

  // The commit of another version was not awaited.
  lemma StaysAwaited(s: State, tx: TxId, p: VersionId)
    requires tx in s.txs && s.txs[tx].chosen != Some(p)
    ensures forall key :: Awaits(s, p, key) ==> Awaits(Committed(s, tx), p, key)
  {
  }

  lemma CommitKeepsInv(s: State, feed: Feed, tx: TxId)
    requires Inv(s, feed) && InOrder(feed) && tx in s.txs
    ensures Inv(Committed(s, tx), feed)
  {
    var t := s.txs[tx];
    CommitKeepsKeys(s, feed, tx);
    if t.chosen.Some? {
      var v := t.chosen.value;
      FinalizerKeepsSane(s.intake, feed, v, s.intake.pending - {t.key});
      CommitKeepsLed(s, feed, tx, v);
      forall p ensures GoodPreferred(Committed(s, tx), feed, p) {
        CommitKeepsPreferred(s, feed, tx, v, p);
      }
    } else {
      forall p ensures GoodPreferred(Committed(s, tx), feed, p) {
        assert GoodPreferred(s, feed, p);
        StaysAwaited(s, tx, p);
      }
    }
  }

  lemma PurgeKeepsInv(s: State, feed: Feed, keys: set<Jobs.Key>)
    requires Inv(s, feed) && CanStep(s, feed, Purge(keys))
    ensures Inv(Step(s, feed, Purge(keys)), feed)
  {
    forall p ensures GoodPreferred(Step(s, feed, Purge(keys)), feed, p) {
      assert GoodPreferred(s, feed, p);
      assert Extends(s.intake.store, s.intake.store);
      StaysGood(s, feed, Step(s, feed, Purge(keys)), p);
    }
  }

  lemma AbortKeepsInv(s: State, feed: Feed, tx: TxId)
    requires Inv(s, feed) && tx in s.txs
    ensures Inv(Step(s, feed, Abort(tx)), feed)
  {
    forall p ensures GoodPreferred(Step(s, feed, Abort(tx)), feed, p) {
      assert GoodPreferred(s, feed, p);
      forall key | Awaits(s, p, key) ensures Awaits(Step(s, feed, Abort(tx)), p, key) {
      }
    }
  }

  lemma StepKeepsInv(s: State, feed: Feed, e: Event)
    requires Inv(s, feed) && InOrder(feed) && CanStep(s, feed, e)
    ensures Inv(Step(s, feed, e), feed)
  {
    match e {
      case Webhook(event) =>
        if event.Deliver? {
          DeliverKeepsInv(s, feed, event.callback, event.source);
        } else {
          CompletionKeepsInv(s, feed, event.callback);
        }
      case Purge(keys) => PurgeKeepsInv(s, feed, keys);
      case Choose(tx, key, chosen) => ChooseKeepsInv(s, feed, tx, key, chosen);
      case Commit(tx) => CommitKeepsInv(s, feed, tx);
      case Abort(tx) => AbortKeepsInv(s, feed, tx);
    }
  }

  lemma {:induction false} RunKeepsInv(s: State, feed: Feed, es: seq<Event>)
    requires Inv(s, feed) && InOrder(feed) && IsRun(s, feed, es)
    ensures Inv(Run(s, feed, es), feed)
    decreases |es|
  {
    if es != [] {
      StepKeepsInv(s, feed, es[0]);
      RunKeepsInv(Step(s, feed, es[0]), feed, es[1..]);
    }
  }

  /* ---- One finalizer at a time ---- */

  // A finalizer of a request to which public requests are linked locks their rows before it reads,
  // so such finalizers never overlap each other; deliveries still come in between.
  ghost predicate OneAtATime(s: State, feed: Feed, es: seq<Event>)
    decreases |es|
  {
    es == [] || ((es[0].Choose? ==> s.txs == map[]) && OneAtATime(Step(s, feed, es[0]), feed, es[1..]))
  }

  // The preferred version is shown as soon as it is finalized, and nobody has read another.
  ghost predicate ShownOnceFinal(s: State, feed: Feed, p: VersionId) {
    var store := s.intake.store;
    IsPreferred(store, feed.request, p) && store.versions[p].finalized ==>
      && Shows(store, feed.code, store.versions[p].payload)
      && forall tx :: tx in s.txs ==> s.txs[tx].chosen == Some(p)
  }

  ghost predicate SerialInv(s: State, feed: Feed) {
    && Inv(s, feed)
    && (forall a, b :: a in s.txs && b in s.txs ==> a == b)
    && forall p :: ShownOnceFinal(s, feed, p)
  }

  lemma DeliverKeepsSerial(s: State, feed: Feed, callback: Option<string>, source: string, p: VersionId)
    requires SerialInv(s, feed)
    ensures ShownOnceFinal(AfterDelivery(s, feed, callback, source), feed, p)
  {
    var t := AfterDelivery(s, feed, callback, source);
    if IsPreferred(t.intake.store, feed.request, p) && t.intake.store.versions[p].finalized {
      DeliveryFinalizesNothing(s.intake, feed, callback, source, p);
      if Staged(s.intake.store.versions, feed.code, source) {
        RedeliveryKeepsStore(s.intake, feed, callback, source);
      } else {
        DeliveryAdds(s.intake, feed, callback, source);
        DeliveryKeepsPreferred(s.intake, feed, callback, source, p);
        assert ShownOnceFinal(s, feed, p);
        DeliveryKeepsShown(s.intake, feed, callback, source, s.intake.store.versions[p].payload);
      }
      assert ShownOnceFinal(s, feed, p);
    }
  }

  lemma CommitKeepsSerial(s: State, feed: Feed, tx: TxId, p: VersionId)
    requires SerialInv(s, feed) && InOrder(feed) && tx in s.txs
    ensures ShownOnceFinal(Committed(s, tx), feed, p)
  {
    var a, b := s.intake.store, Committed(s, tx).intake.store;
    assert ShownOnceFinal(s, feed, p);
    if IsPreferred(b, feed.request, p) && b.versions[p].finalized && s.txs[tx].chosen.Some? {
      var v := s.txs[tx].chosen.value;
      assert a.versions[v].code == feed.code;
      CommitExtends(s.intake, feed, v);
      FinalizeKeepsSources(a, v);
      SameSourcesSamePreferred(a, b, feed.request, p);
      assert SameVersion(a.versions[p], b.versions[p]);
      if !a.versions[p].finalized {
        CommitPreferred(s.intake, feed, p);
      }
    }
  }

  lemma ChooseKeepsSerial(s: State, feed: Feed, tx: TxId, key: Jobs.Key, chosen: Option<VersionId>, p: VersionId)
    requires SerialInv(s, feed) && s.txs == map[] && CanStep(s, feed, Choose(tx, key, chosen))
    ensures ShownOnceFinal(Step(s, feed, Choose(tx, key, chosen)), feed, p)
  {
    assert ShownOnceFinal(s, feed, p);
    if IsPreferred(s.intake.store, feed.request, p) {
      ChosenIs(s.intake, feed, chosen, p);
    }
  }

  lemma StepKeepsSerial(s: State, feed: Feed, e: Event)
    requires SerialInv(s, feed) && InOrder(feed) && CanStep(s, feed, e) && (e.Choose? ==> s.txs == map[])
    ensures SerialInv(Step(s, feed, e), feed)
  {
    StepKeepsInv(s, feed, e);
    forall p ensures ShownOnceFinal(Step(s, feed, e), feed, p) {
      StepKeepsShown(s, feed, e, p);
    }
  }

  lemma StepKeepsShown(s: State, feed: Feed, e: Event, p: VersionId)
    requires SerialInv(s, feed) && InOrder(feed) && CanStep(s, feed, e) && (e.Choose? ==> s.txs == map[])
    ensures ShownOnceFinal(Step(s, feed, e), feed, p)
  {
    assert ShownOnceFinal(s, feed, p);
    if e.Webhook? && e.event.Deliver? {
      DeliverKeepsSerial(s, feed, e.event.callback, e.event.source, p);
    } else if e.Commit? {
      CommitKeepsSerial(s, feed, e.tx, p);
    } else if e.Choose? {
      ChooseKeepsSerial(s, feed, e.tx, e.key, e.chosen, p);
    }
  }

  lemma {:induction false} RunKeepsSerial(s: State, feed: Feed, es: seq<Event>)
    requires SerialInv(s, feed) && InOrder(feed) && IsRun(s, feed, es) && OneAtATime(s, feed, es)
    ensures SerialInv(Run(s, feed, es), feed)
    decreases |es|
  {
    if es != [] {
      StepKeepsSerial(s, feed, es[0]);
      RunKeepsSerial(Step(s, feed, es[0]), feed, es[1..]);
    }
  }

  // Finalizers that do not overlap each other end right, whatever is delivered while they run.
  lemma SerialFinalizersAgree(feed: Feed, es: seq<Event>, p: VersionId)
    requires InOrder(feed) && IsRun(Start, feed, es) && OneAtATime(Start, feed, es)
    ensures !EndsWrong(feed, es, p)
  {
    RunKeepsSerial(Start, feed, es);
    var s := Run(Start, feed, es);
    assert ShownOnceFinal(s, feed, p) && GoodPreferred(s, feed, p);
    assert s.intake.pending == {} ==> forall key :: !Awaits(s, p, key);
  }

  /* ---- Exactly when overlapping does harm ---- */

  // The completion was delivered and every finalizer ran, the preferred version is p, and the
  // process shows something else.
  ghost predicate EndsWrong(feed: Feed, es: seq<Event>, p: VersionId) {
    && IsRun(Start, feed, es)
    && var s := Run(Start, feed, es).intake;
    && s.completed && s.pending == {} && IsPreferred(s.store, feed.request, p)
    && !Shows(s.store, feed.code, s.store.versions[p].payload)
  }

  // Whatever overlaps, a run ends right unless its versions alternate.
  lemma OverlapIsHarmless(feed: Feed, es: seq<Event>, p: VersionId)
    requires InOrder(feed) && EndsWrong(feed, es, p)
    ensures Between(Run(Start, feed, es).intake.store, p)
  {
    RunKeepsInv(Start, feed, es);
    var s := Run(Start, feed, es);
    assert GoodPreferred(s, feed, p);
    assert forall key :: !Awaits(s, p, key);
  }

  // Two responses that mean the same and one that does not, which may come between them.
  predicate Alternates(feed: Feed, x: string, y: string, z: string) {
    var rx, ry, rz := feed.response(x), feed.response(y), feed.response(z);
    && x != z && SameMeaning(rx.content, rz.content) && !SameMeaning(ry.content, rz.content)
    && (ry.cached ==> rx.cached) && (rz.cached ==> ry.cached)
  }

  lemma BetweenAlternates(s: Intake, feed: Feed, p: VersionId)
    requires Sane(s, feed) && Between(s.store, p)
    ensures exists x, y, z :: Alternates(feed, x, y, z)
  {
    var vs := s.store.versions;
    var x, v :| x in vs && v in vs && Alternate(vs[x], vs[v], vs[p]);
    assert Alternates(feed, vs[x].source, vs[v].source, vs[p].source);
  }

  /* ---- The run that does harm ---- */

  function Row(feed: Feed, source: string, created: int): Version {
    var r := feed.response(source);
    Version(feed.code, source, feed.request, r.cached, r.content, created, false, None, map[], map[])
  }

  function ShownRow(feed: Feed, source: string, created: int): Version {
    var r := feed.response(source);
    Row(feed, source, created).(finalized := true, steps := Table(r.content.steps), manifest := Table(r.content.attachments))
  }

  function FinalizeJob(feed: Feed): Jobs.Key {
    Jobs.FinalizeKey(feed.request)
  }

  function RepairJob(feed: Feed, source: string): Jobs.Key {
    Jobs.RepairKey(feed.request, source)
  }

  // The first response delivered, completed and shown.
  function FirstShown(feed: Feed, x: string): State {
    State(Intake(
      Store(map[feed.code := Process(feed.response(x).content.fields, Some(0))], map[0 := ShownRow(feed, x, 0)], {0}),
      true, {}, {FinalizeJob(feed)}, {}, 2, 1), map[])
  }

  // The second one delivered, and a finalizer that read it.
  function SecondChosen(feed: Feed, x: string, y: string): State {
    State(Intake(
      Store(map[feed.code := Process(feed.response(x).content.fields, Some(0))],
            map[0 := ShownRow(feed, x, 0), 1 := Row(feed, y, 2)], {0}),
      true, {}, {FinalizeJob(feed), RepairJob(feed, y)}, {RepairJob(feed, y)}, 3, 2),
      map[0 := Tx(RepairJob(feed, y), Some(1))])
  }

  // The third one delivered, and a finalizer that read that.
  function ThirdChosen(feed: Feed, x: string, y: string, z: string): State {
    State(Intake(
      Store(map[feed.code := Process(feed.response(x).content.fields, Some(0))],
            map[0 := ShownRow(feed, x, 0), 1 := Row(feed, y, 2), 2 := Row(feed, z, 3)], {0}),
      true, {}, {FinalizeJob(feed), RepairJob(feed, y), RepairJob(feed, z)}, {RepairJob(feed, y), RepairJob(feed, z)}, 4, 3),
      map[0 := Tx(RepairJob(feed, y), Some(1)), 1 := Tx(RepairJob(feed, z), Some(2))])
  }

  lemma Chain(s: State, feed: Feed, e: Event, es: seq<Event>)
    requires CanStep(s, feed, e) && IsRun(Step(s, feed, e), feed, es)
    ensures IsRun(s, feed, [e] + es) && Run(s, feed, [e] + es) == Run(Step(s, feed, e), feed, es)
  {
    assert ([e] + es)[1..] == es;
  }

  function FirstStaged(feed: Feed, x: string): State {
    State(Intake(Store(map[feed.code := Process(NoFields, None)], map[0 := Row(feed, x, 0)], {}), false, {}, {}, {}, 1, 1), map[])
  }

  function FirstCompleted(feed: Feed, x: string): State {
    var s := FirstStaged(feed, x);
    s.(intake := s.intake.(completed := true, jobs := {FinalizeJob(feed)}, pending := {FinalizeJob(feed)}, clock := 2))
  }

  lemma DeliverFirst(feed: Feed, x: string)
    ensures Step(Start, feed, Webhook(Deliver(None, x))) == FirstStaged(feed, x)
    ensures Step(FirstStaged(feed, x), feed, Webhook(Completion(None))) == FirstCompleted(feed, x)
  {
  }

  lemma ShowFirst(feed: Feed, x: string)
    ensures CanStep(FirstCompleted(feed, x), feed, Choose(0, FinalizeJob(feed), Some(0)))
    ensures var s := Step(FirstCompleted(feed, x), feed, Choose(0, FinalizeJob(feed), Some(0)));
      CanStep(s, feed, Commit(0)) && Step(s, feed, Commit(0)) == FirstShown(feed, x)
  {
    var s := Step(FirstCompleted(feed, x), feed, Choose(0, FinalizeJob(feed), Some(0)));
    var t := Step(s, feed, Commit(0));
    var c := feed.response(x).content;
    assert map[] + Table(c.attachments) == Table(c.attachments);
    assert t.intake.store.versions == map[0 := ShownRow(feed, x, 0)];
    assert t.txs == map[];
  }

  lemma ChooseSecond(feed: Feed, x: string, y: string)
    requires x != y && (feed.response(y).cached ==> feed.response(x).cached)
    ensures var s := Step(FirstShown(feed, x), feed, Webhook(Deliver(None, y)));
      var e := Choose(0, RepairJob(feed, y), Some(1));
      CanStep(s, feed, e) && Step(s, feed, e) == SecondChosen(feed, x, y)
  {
    var s := Step(FirstShown(feed, x), feed, Webhook(Deliver(None, y)));
    assert s.intake.store.versions == SecondChosen(feed, x, y).intake.store.versions;
  }

  lemma ChooseThird(feed: Feed, x: string, y: string, z: string)
    requires Alternates(feed, x, y, z)
    ensures var s := Step(SecondChosen(feed, x, y), feed, Webhook(Deliver(None, z)));
      var e := Choose(1, RepairJob(feed, z), Some(2));
      CanStep(s, feed, e) && Step(s, feed, e) == ThirdChosen(feed, x, y, z)
  {
    var s := Step(SecondChosen(feed, x, y), feed, Webhook(Deliver(None, z)));
    assert s.intake.store.versions == ThirdChosen(feed, x, y, z).intake.store.versions;
  }

  // All of it up to the point where two finalizers are open.
  lemma ReachThird(feed: Feed, x: string, y: string, z: string, rest: seq<Event>) returns (es: seq<Event>)
    requires Alternates(feed, x, y, z) && IsRun(ThirdChosen(feed, x, y, z), feed, rest)
    ensures IsRun(Start, feed, es) && Run(Start, feed, es) == Run(ThirdChosen(feed, x, y, z), feed, rest)
  {
    ChooseThird(feed, x, y, z);
    Chain(Step(SecondChosen(feed, x, y), feed, Webhook(Deliver(None, z))), feed, Choose(1, RepairJob(feed, z), Some(2)), rest);
    es := [Choose(1, RepairJob(feed, z), Some(2))] + rest;
    Chain(SecondChosen(feed, x, y), feed, Webhook(Deliver(None, z)), es);
    es := ReachSecond(feed, x, y, [Webhook(Deliver(None, z))] + es);
  }

  lemma ReachSecond(feed: Feed, x: string, y: string, rest: seq<Event>) returns (es: seq<Event>)
    requires x != y && (feed.response(y).cached ==> feed.response(x).cached) && IsRun(SecondChosen(feed, x, y), feed, rest)
    ensures IsRun(Start, feed, es) && Run(Start, feed, es) == Run(SecondChosen(feed, x, y), feed, rest)
  {
    ChooseSecond(feed, x, y);
    Chain(Step(FirstShown(feed, x), feed, Webhook(Deliver(None, y))), feed, Choose(0, RepairJob(feed, y), Some(1)), rest);
    es := [Choose(0, RepairJob(feed, y), Some(1))] + rest;
    Chain(FirstShown(feed, x), feed, Webhook(Deliver(None, y)), es);
    es := ReachFirst(feed, x, [Webhook(Deliver(None, y))] + es);
  }

  lemma ReachFirst(feed: Feed, x: string, rest: seq<Event>) returns (es: seq<Event>)
    requires IsRun(FirstShown(feed, x), feed, rest)
    ensures IsRun(Start, feed, es) && Run(Start, feed, es) == Run(FirstShown(feed, x), feed, rest)
  {
    ShowFirst(feed, x);
    DeliverFirst(feed, x);
    Chain(Step(FirstCompleted(feed, x), feed, Choose(0, FinalizeJob(feed), Some(0))), feed, Commit(0), rest);
    es := [Commit(0)] + rest;
    Chain(FirstCompleted(feed, x), feed, Choose(0, FinalizeJob(feed), Some(0)), es);
    es := [Choose(0, FinalizeJob(feed), Some(0))] + es;
    Chain(FirstStaged(feed, x), feed, Webhook(Completion(None)), es);
    es := [Webhook(Completion(None))] + es;
    Chain(Start, feed, Webhook(Deliver(None, x)), es);
    es := [Webhook(Deliver(None, x))] + es;
  }

  lemma StaysPreferred(s: Intake, feed: Feed, v: VersionId, p: VersionId)
    requires Sane(s, feed) && v in s.store.versions && IsPreferred(s.store, feed.request, p)
    ensures IsPreferred(Finalized(s.store, Some(v)), feed.request, p)
    ensures Finalized(s.store, Some(v)).versions[p].payload == s.store.versions[p].payload
  {
    var a, b := s.store, Finalized(s.store, Some(v));
    assert a.versions[v].code == feed.code;
    FinalizeKeepsSources(a, v);
    forall u | u in b.versions && b.versions[u].request == feed.request ensures NoWorse(b.versions[p], b.versions[u]) {
      assert NoWorse(a.versions[p], a.versions[u]);
    }
  }

  lemma ThirdIsShown(feed: Feed, x: string, y: string, z: string)
    requires InOrder(feed) && Alternates(feed, x, y, z)
    ensures Shows(ThirdChosen(feed, x, y, z).intake.store, feed.code, feed.response(z).content)
  {
    var c := feed.response(x).content;
    TableIsListed(c.steps);
    TableIsListed(c.attachments);
    HeldTogether(ThirdChosen(feed, x, y, z).intake.store, feed.code, c, feed.response(z).content);
  }

  // Finalizing what is shown already changes only the version.
  lemma QuietCommit(s: Store, v: VersionId)
    requires v in s.versions && s.versions[v].code in s.processes && Unchanged(s, s.versions[v].code, s.versions[v].payload)
    ensures var t := Finalized(s, Some(v)); t.processes == s.processes && t.versions.Keys == s.versions.Keys
    ensures forall u :: u in s.versions && u != v ==> Finalized(s, Some(v)).versions[u] == s.versions[u]
  {
  }

  // The third response is settled against the first, which means the same.
  lemma CommitThird(s: Intake, feed: Feed, y: string, z: string)
    requires InOrder(feed) && Sane(s, feed) && IsPreferred(s.store, feed.request, 2) && 1 in s.store.versions
    requires s.store.versions[2].payload == feed.response(z).content && Shows(s.store, feed.code, feed.response(z).content)
    ensures var t := Finalized(s.store, Some(2));
      && Sane(s.(store := t, pending := {RepairJob(feed, y)}), feed) && IsPreferred(t, feed.request, 2)
      && t.processes == s.store.processes && t.versions.Keys == s.store.versions.Keys
      && (forall v :: v in s.store.versions && v != 2 ==> t.versions[v] == s.store.versions[v])
      && t.versions[2].payload == feed.response(z).content
      && Shows(t, feed.code, feed.response(z).content)
  {
    assert s.store.versions[2].code == feed.code;
    UnchangedMeans(s.store, feed.code, feed.response(z).content);
    QuietCommit(s.store, 2);
    FinalizerKeepsSane(s, feed, 2, {RepairJob(feed, y)});
    StaysPreferred(s, feed, 2, 2);
    CommitShows(s, feed, 2, feed.response(z).content);
  }

  // Then the second is promoted over it.
  lemma CommitSecond(s: Intake, feed: Feed, x: string, y: string, z: string)
    requires InOrder(feed) && Alternates(feed, x, y, z) && Sane(s, feed) && IsPreferred(s.store, feed.request, 2)
    requires s.store.versions.Keys == {0, 1, 2} && s.store.versions[1] == Row(feed, y, 2)
    requires s.store.versions[0].created == 0 && s.store.versions[2].payload == feed.response(z).content
    requires s.store.processes == map[feed.code := Process(feed.response(x).content.fields, Some(0))]
    requires Shows(s.store, feed.code, feed.response(z).content)
    ensures var t := Finalized(s.store, Some(1));
      IsPreferred(t, feed.request, 2) && !Shows(t, feed.code, t.versions[2].payload)
  {
    var cy, cz := feed.response(y).content, feed.response(z).content;
    HeldTogether(s.store, feed.code, cz, cy);
    assert SameMeaning(cz, cy) ==> SameMeaning(cy, cz);
    StaysPreferred(s, feed, 1, 2);
    CommitShows(s, feed, 1, feed.response(z).content);
  }

  lemma ThirdIsPreferred(feed: Feed, x: string, y: string, z: string)
    requires Alternates(feed, x, y, z)
    ensures IsPreferred(ThirdChosen(feed, x, y, z).intake.store, feed.request, 2)
  {
  }

  // What is left open after the third: the finalizer of the second.
  lemma SecondLeftOpen(feed: Feed, x: string, y: string, z: string)
    requires Alternates(feed, x, y, z)
    ensures var s := ThirdChosen(feed, x, y, z);
      s.intake.pending - {RepairJob(feed, z)} == {RepairJob(feed, y)} && s.txs - {1} == map[0 := Tx(RepairJob(feed, y), Some(1))]
  {
  }

  // The intake after the commit of the third response.
  ghost function ThirdSettled(feed: Feed, x: string, y: string, z: string): Intake {
    var s := ThirdChosen(feed, x, y, z).intake;
    s.(store := Finalized(s.store, Some(2)), pending := {RepairJob(feed, y)})
  }

  lemma ThirdCommitted(feed: Feed, x: string, y: string, z: string)
    requires Alternates(feed, x, y, z)
    ensures Committed(ThirdChosen(feed, x, y, z), 1) == State(ThirdSettled(feed, x, y, z), map[0 := Tx(RepairJob(feed, y), Some(1))])
  {
    SecondLeftOpen(feed, x, y, z);
  }

  lemma ThirdSettledIs(feed: Feed, x: string, y: string, z: string)
    requires InOrder(feed) && Alternates(feed, x, y, z) && Sane(ThirdChosen(feed, x, y, z).intake, feed)
    ensures var t := ThirdSettled(feed, x, y, z);
      && Sane(t, feed) && IsPreferred(t.store, feed.request, 2) && Shows(t.store, feed.code, feed.response(z).content)
      && t.store.versions.Keys == {0, 1, 2} && t.store.versions[1] == Row(feed, y, 2)
      && t.store.versions[0].created == 0 && t.store.versions[2].payload == feed.response(z).content
      && t.store.processes == map[feed.code := Process(feed.response(x).content.fields, Some(0))]
  {
    ThirdIsShown(feed, x, y, z);
    ThirdIsPreferred(feed, x, y, z);
    CommitThird(ThirdChosen(feed, x, y, z).intake, feed, y, z);
  }

  lemma TwoCommits(s: State, feed: Feed)
    requires 1 in s.txs && 0 in Committed(s, 1).txs
    ensures var es := [Commit(1)] + ([Commit(0)] + []);
      IsRun(s, feed, es) && Run(s, feed, es) == Committed(Committed(s, 1), 0)
  {
    Chain(Committed(s, 1), feed, Commit(0), []);
    Chain(s, feed, Commit(1), [Commit(0)] + []);
  }

  lemma BothCommit(feed: Feed, x: string, y: string, z: string)
    requires InOrder(feed) && Alternates(feed, x, y, z) && Sane(ThirdChosen(feed, x, y, z).intake, feed)
    ensures var es := [Commit(1)] + ([Commit(0)] + []);
      IsRun(ThirdChosen(feed, x, y, z), feed, es)
      && var t := Run(ThirdChosen(feed, x, y, z), feed, es);
         t.txs == map[] && t.intake.completed && t.intake.pending == {} && IsPreferred(t.intake.store, feed.request, 2)
         && !Shows(t.intake.store, feed.code, t.intake.store.versions[2].payload)
  {
    ThirdCommitted(feed, x, y, z);
    ThirdSettledIs(feed, x, y, z);
    TwoCommits(ThirdChosen(feed, x, y, z), feed);
    CommitSecond(ThirdSettled(feed, x, y, z), feed, x, y, z);
  }

  // Any three responses of that kind can be made to end wrong, with no transaction left open.
  lemma OverlapRegresses(feed: Feed, x: string, y: string, z: string) returns (es: seq<Event>)
    requires InOrder(feed) && Alternates(feed, x, y, z)
    ensures EndsWrong(feed, es, 2) && Run(Start, feed, es).txs == map[]
  {
    es := ReachThird(feed, x, y, z, []);
    RunKeepsInv(Start, feed, es);
    BothCommit(feed, x, y, z);
    es := ReachThird(feed, x, y, z, [Commit(1)] + ([Commit(0)] + []));
  }

  // For every feed: overlapping finalizers can leave the wrong content behind exactly when two of
  // its responses mean the same and a third one, that does not, may come between them.
  lemma OverlapRegressesExactly(feed: Feed)
    requires InOrder(feed)
    ensures (exists es, p :: EndsWrong(feed, es, p)) <==> exists x, y, z :: Alternates(feed, x, y, z)
  {
    if es, p :| EndsWrong(feed, es, p) {
      OverlapIsHarmless(feed, es, p);
      RunKeepsInv(Start, feed, es);
      BetweenAlternates(Run(Start, feed, es).intake, feed, p);
    }
    if x, y, z :| Alternates(feed, x, y, z) {
      var es := OverlapRegresses(feed, x, y, z);
    }
  }

  // It does happen: the first and the third response agree and the second does not.
  function Plain(t: string): Content {
    Content(NoFields.(header := t), [], [])
  }

  const FeedAba := Feed("code", "request", (source: string) => Response(false, Plain(if source == "2" then "B" else "A")))

  lemma OverlappingFinalizersRegress() returns (es: seq<Event>)
    ensures InOrder(FeedAba) && EndsWrong(FeedAba, es, 2) && Run(Start, FeedAba, es).txs == map[]
  {
    assert SemanticDocument(Plain("A")).fields.header == "A" && SemanticDocument(Plain("B")).fields.header == "B";
    es := OverlapRegresses(FeedAba, "1", "2", "3");
  }
}
