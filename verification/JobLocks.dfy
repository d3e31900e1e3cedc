/** Row locks and commits under the statements of Jobs.

    A transaction locks the rows its statement writes, keeps the new versions to itself and then
    commits or aborts; other transactions read the committed rows.  Every such run has the same
    effect as a run of atomic statements. */
module JobLocks {
  import opened Wrappers
  import opened Jobs

  type TxId = nat

  // A locked row: who holds it and the version that becomes visible on commit.
  datatype Lock = Lock(tx: TxId, pending: Job)

  datatype Table = Table(rows: Rows, now: int, used: set<JobId>, locks: map<JobId, Lock>)

  datatype TxEvent =
    | Begin(tx: TxId, statement: Statement)
    | Commit(tx: TxId)
    | Abort(tx: TxId)
    | Auto(event: Event)   // an insert, a purge or the passing of time

  ghost predicate Holds(t: Table, tx: TxId) {
    exists id :: id in t.locks && t.locks[id].tx == tx
  }

  ghost predicate CanDo(t: Table, e: TxEvent) {
    match e
    case Begin(tx, s) => !Holds(t, tx) && Enabled(s, t.rows, t.now, t.locks.Keys)
    case Commit(_) => true
    case Abort(_) => true
    case Auto(event) =>
      && !event.Update?
      && CanStep(Queue(t.rows, t.now, t.used), event)
      && (event.Purge? ==> event.ids !! t.locks.Keys)
  }

  function Locked(writes: Rows, tx: TxId): map<JobId, Lock> {
    map id | id in writes :: Lock(tx, writes[id])
  }

  function Do(t: Table, e: TxEvent): Table {
    match e
    case Begin(tx, s) =>
      t.(locks := t.locks + Locked(Writes(s, t.rows, t.now, t.locks.Keys), tx))
    case Commit(tx) =>
      t.(rows := map id | id in t.rows ::
                   if id in t.locks && t.locks[id].tx == tx then t.locks[id].pending else t.rows[id],
         locks := map id | id in t.locks && t.locks[id].tx != tx :: t.locks[id])
    case Abort(tx) =>
      t.(locks := map id | id in t.locks && t.locks[id].tx != tx :: t.locks[id])
    case Auto(event) =>
      var q := Step(Queue(t.rows, t.now, t.used), event);
      t.(rows := q.rows, now := q.now, used := q.used)
  }

  ghost predicate IsRun(t: Table, es: seq<TxEvent>)
    decreases |es|
  {
    es == [] || (CanDo(t, es[0]) && IsRun(Do(t, es[0]), es[1..]))
  }

  function Run(t: Table, es: seq<TxEvent>): Table
    decreases |es|
  {
    if es == [] then t else Run(Do(t, es[0]), es[1..])
  }

  const Start := Table(map[], 0, {}, map[])

  /* ---- The atomic run behind a run with locks ---- */

  // Whether the rest of the run commits the transaction.
  predicate WillCommit(tx: TxId, es: seq<TxEvent>) {
    es != [] &&
    (if es[0] == Commit(tx) then true
     else if es[0] == Abort(tx) then false
     else WillCommit(tx, es[1..]))
  }

  // The rows as the atomic run sees them: a statement takes effect where it took its locks,
  // provided its transaction is going to commit.
  function Seen(t: Table, es: seq<TxEvent>): Rows {
    map id | id in t.rows ::
      if id in t.locks && WillCommit(t.locks[id].tx, es) then t.locks[id].pending else t.rows[id]
  }

  function Atomic(t: Table, es: seq<TxEvent>): Queue {
    Queue(Seen(t, es), t.now, t.used)
  }

  // The atomic statements, in the order in which the committed ones took their locks.
  function Trace(t: Table, es: seq<TxEvent>): seq<Event>
    decreases |es|
  {
    if es == [] then []
    else
      var rest := Trace(Do(t, es[0]), es[1..]);
      match es[0]
      case Begin(tx, s) => if WillCommit(tx, es[1..]) then [Update(s, t.locks.Keys)] + rest else rest
      case Commit(_) => rest
      case Abort(_) => rest
      case Auto(event) => [event] + rest
  }

  ghost predicate Sound(t: Table) {
    && t.rows.Keys <= t.used
    && t.locks.Keys <= t.rows.Keys
    && forall id :: id in t.locks ==> t.locks[id].pending.key == t.rows[id].key
  }

  lemma DoKeepsSound(t: Table, e: TxEvent)
    requires Sound(t) && CanDo(t, e)
    ensures Sound(Do(t, e))
  {
    if e.Begin? {
      WritesKeepIdentity(e.statement, t.rows, t.now, t.locks.Keys);
    }
  }

  // A statement reads only rows it finds unlocked, so it cannot tell committed rows from
  // rows that will be committed.
  lemma SameOnUnlocked(s: Statement, a: Rows, b: Rows, now: int, locked: set<JobId>)
    requires a.Keys == b.Keys
    requires forall id :: id in a && id !in locked ==> a[id] == b[id]
    requires Enabled(s, a, now, locked)
    ensures Enabled(s, b, now, locked)
    ensures Writes(s, a, now, locked) == Writes(s, b, now, locked)
    ensures Writes(s, a, now, locked).Keys !! locked
  {
    forall k ensures Claimable(a, now, locked, k) == Claimable(b, now, locked, k) {
    }
  }

  lemma BeginSeen(t: Table, es: seq<TxEvent>)
    requires Sound(t) && es != [] && es[0].Begin?
    requires Writes(es[0].statement, t.rows, t.now, t.locks.Keys).Keys !! t.locks.Keys
    ensures Seen(Do(t, es[0]), es[1..]) ==
      if WillCommit(es[0].tx, es[1..])
      then Seen(t, es) + Writes(es[0].statement, t.rows, t.now, t.locks.Keys)
      else Seen(t, es)
  {
    var writes := Writes(es[0].statement, t.rows, t.now, t.locks.Keys);
    WritesKeepIdentity(es[0].statement, t.rows, t.now, t.locks.Keys);
    var before, after := Seen(t, es), Seen(Do(t, es[0]), es[1..]);
    assert before.Keys == after.Keys == t.rows.Keys;
    forall id | id in t.rows
      ensures after[id] ==
        if id in writes && WillCommit(es[0].tx, es[1..]) then writes[id] else before[id]
    {
      BeginSeenAt(t, es, id);
    }
  }

  lemma BeginSeenAt(t: Table, es: seq<TxEvent>, id: JobId)
    requires Sound(t) && es != [] && es[0].Begin? && id in t.rows
    requires Writes(es[0].statement, t.rows, t.now, t.locks.Keys).Keys !! t.locks.Keys
    ensures var writes := Writes(es[0].statement, t.rows, t.now, t.locks.Keys);
      Seen(Do(t, es[0]), es[1..])[id] ==
        if id in writes && WillCommit(es[0].tx, es[1..]) then writes[id] else Seen(t, es)[id]
  {
  }

  // Where a transaction takes its locks, the atomic run takes the whole statement, or nothing
  // when the transaction is going to abort.
  lemma BeginIsAtomic(t: Table, es: seq<TxEvent>)
    requires Sound(t) && es != [] && es[0].Begin? && CanDo(t, es[0])
    ensures WillCommit(es[0].tx, es[1..]) ==>
      && CanStep(Atomic(t, es), Update(es[0].statement, t.locks.Keys))
      && Step(Atomic(t, es), Update(es[0].statement, t.locks.Keys)) == Atomic(Do(t, es[0]), es[1..])
    ensures !WillCommit(es[0].tx, es[1..]) ==> Atomic(t, es) == Atomic(Do(t, es[0]), es[1..])
  {
    SameOnUnlocked(es[0].statement, t.rows, Seen(t, es), t.now, t.locks.Keys);
    BeginSeen(t, es);
  }

  lemma EndIsSilent(t: Table, es: seq<TxEvent>)
    requires Sound(t) && es != [] && (es[0].Commit? || es[0].Abort?)
    ensures Atomic(t, es) == Atomic(Do(t, es[0]), es[1..])
  {
    assert Seen(t, es) == Seen(Do(t, es[0]), es[1..]);
  }

  lemma AutoIsAtomic(t: Table, es: seq<TxEvent>)
    requires Sound(t) && es != [] && es[0].Auto? && CanDo(t, es[0])
    ensures CanStep(Atomic(t, es), es[0].event)
    ensures Step(Atomic(t, es), es[0].event) == Atomic(Do(t, es[0]), es[1..])
  {
    SeenKeys(t, es);
    AutoSeen(t, es);
  }

  lemma SeenKeys(t: Table, es: seq<TxEvent>)
    requires Sound(t)
    ensures Seen(t, es).Keys == t.rows.Keys && forall id :: id in t.rows ==> Seen(t, es)[id].key == t.rows[id].key
    ensures forall key :: KeyTaken(Seen(t, es), key) == KeyTaken(t.rows, key)
  {
    var seen := Seen(t, es);
    forall key ensures KeyTaken(seen, key) == KeyTaken(t.rows, key) {
      assert forall id :: id in seen ==> seen[id].key == t.rows[id].key;
    }
  }

  // An insert, a purge or the passing of time finds and leaves no locks on the rows it changes.
  lemma AutoSeen(t: Table, es: seq<TxEvent>)
    requires Sound(t) && es != [] && es[0].Auto? && CanDo(t, es[0])
    ensures Step(Atomic(t, es), es[0].event).rows == Seen(Do(t, es[0]), es[1..])
  {
    SeenKeys(t, es);
    var before, after := Step(Atomic(t, es), es[0].event).rows, Seen(Do(t, es[0]), es[1..]);
    var e := es[0].event;
    if e.Insert? {
      assert before == if KeyTaken(t.rows, e.key) then Seen(t, es) else Seen(t, es)[e.id := after[e.id]];
    } else {
      assert before.Keys == after.Keys;
    }
  }

  // Refinement: for every run of transactions there is a run of atomic statements with the
  // same final rows, in which each committed claim takes a minimal row among the runnable
  // rows nobody had locked.
  lemma {:induction false} LocksRefineAtomic(t: Table, es: seq<TxEvent>)
    requires Sound(t) && IsRun(t, es)
    ensures Jobs.IsRun(Atomic(t, es), Trace(t, es))
    ensures Jobs.Run(Atomic(t, es), Trace(t, es)) == Atomic(Run(t, es), [])
    ensures Seen(Run(t, es), []) == Run(t, es).rows
    decreases |es|
  {
    if es == [] {
      assert Seen(t, []) == t.rows;
    } else {
      var t' := Do(t, es[0]);
      DoKeepsSound(t, es[0]);
      LocksRefineAtomic(t', es[1..]);
      var rest := Trace(t', es[1..]);
      match es[0] {
        case Begin(tx, s) =>
          BeginIsAtomic(t, es);
          if WillCommit(tx, es[1..]) {
            assert Trace(t, es)[1..] == rest;
          }
        case Commit(_) => EndIsSilent(t, es);
        case Abort(_) => EndIsSilent(t, es);
        case Auto(event) =>
          AutoIsAtomic(t, es);
          assert Trace(t, es)[1..] == rest;
      }
    }
  }

  // Hence what holds of every atomic run holds of the committed rows at every moment of
  // every run with locks, crashes and aborts.
  lemma CommittedRowsAreGood(es: seq<TxEvent>)
    requires IsRun(Start, es)
    ensures GoodRows(Run(Start, es).rows)
    ensures forall id :: Jobs.Claims(Trace(Start, es), id) <= MAX_JOB_ATTEMPTS
  {
    LocksRefineAtomic(Start, es);
    var q := Atomic(Start, es);
    assert q.rows == map[];
    ReachableIsGood(q, Trace(Start, es));
    forall id ensures Jobs.Claims(Trace(Start, es), id) <= MAX_JOB_ATTEMPTS {
      ClaimsAreAttempts(q, Trace(Start, es), id);
    }
  }

  // Two open transactions never hold the same row, so no job is claimed twice at once.
  lemma OneHolder(t: Table, e: TxEvent, id: JobId)
    requires Sound(t) && CanDo(t, e) && id in t.locks && id in Do(t, e).locks
    ensures Do(t, e).locks[id] == t.locks[id]
  {
    if e.Begin? {
      SameOnUnlocked(e.statement, t.rows, t.rows, t.now, t.locks.Keys);
    }
  }
}
