/** Overlapping store transactions, statement by statement, under the per-product advisory lock.
    Every run ends in the state of the serial order of its commits. */
module IndexTransactions {
  import opened Wrappers
  import opened ProductEvents
  import opened IndexConvergence

  type TxId = nat
  type LockKey = int

  /** How far a transaction has come; `Done` holds its report, None for an error. */
  datatype Phase = Begun | Marked | Locked | TombstoneWritten | RowWritten | Done(report: Option<Outcome>)

  /** `tombstone` and `row` are what this transaction would leave for its product, once computed. */
  datatype Tx = Tx(event: Event, phase: Phase, tombstone: Option<Time>, row: Option<ProductDoc>, blocked: bool)
  {
    predicate Active() { !phase.Done? }
    /** Holds the uncommitted ledger row of its event id. */
    predicate HoldsMark() { Active() && !phase.Begun? }
    /** Holds the advisory lock of its product. */
    predicate HoldsLock() { HoldsMark() && !phase.Marked? }
  }

  /** `log` lists the committed events in commit order, with what each committer was told. */
  datatype System = System(
    db: IndexState,
    locks: map<LockKey, TxId>,
    txs: map<TxId, Tx>,
    log: seq<(Event, Outcome)>)

  datatype Step =
    | Start(t: TxId, event: Event)
    | MarkProcessed(t: TxId)
    | TakeLock(t: TxId)
    | WriteTombstone(t: TxId)
    | WriteRow(t: TxId)
    | Commit(t: TxId)
    | CommitUnheard(t: TxId)
    | Abort(t: TxId)

  /** pg_advisory_xact_lock(hashtext(product_id)): any hash will do, collisions included. */
  type Hash = ProductId -> LockKey

  function Key(hash: Hash, tx: Tx): LockKey {
    hash(tx.event.Product())
  }

  /** An insert of an event id waits while another open transaction has inserted it. */
  predicate MarkFree(s: System, id: EventId) {
    forall u :: u in s.txs && s.txs[u].HoldsMark() ==> s.txs[u].event.eventId != id
  }

  predicate Enabled(hash: Hash, s: System, step: Step) {
    if step.Start? then step.t !in s.txs
    else
      && step.t in s.txs
      && var tx := s.txs[step.t];
      match step
      case MarkProcessed(_) => tx.phase.Begun? && MarkFree(s, tx.event.eventId)
      case TakeLock(_) => tx.phase.Marked? && Key(hash, tx) !in s.locks
      case WriteTombstone(_) => tx.phase.Locked?
      case WriteRow(_) => tx.phase.TombstoneWritten?
      case Commit(_) => tx.phase.RowWritten?
      case CommitUnheard(_) => tx.phase.RowWritten?
      case Abort(_) => tx.Active()
      case Start(_, _) => false
  }

  function Put<K, V>(m: map<K, V>, k: K, v: Option<V>): map<K, V> {
    if v.Some? then m[k := v.value] else m - {k}
  }

  /** The tombstone statements, on the tombstone committed at that moment. */
  function AfterTombstone(tx: Tx, current: Option<Time>): Tx {
    match tx.event
    case Upsert(_, doc) =>
      if current.Some? && doc.updatedAt <= current.value
      then tx.(phase := TombstoneWritten, tombstone := current, blocked := true)
      else tx.(phase := TombstoneWritten, tombstone := None)
    case Delete(_, _, at) =>
      tx.(phase := TombstoneWritten,
          tombstone := Some(if current.Some? && at < current.value then current.value else at))
  }

  /** The row statement, on the row committed at that moment; a blocked update skips it. */
  function AfterRow(tx: Tx, current: Option<ProductDoc>): Tx {
    var row := match tx.event
      case Upsert(_, doc) =>
        if tx.blocked || (current.Some? && doc.updatedAt <= current.value.updatedAt) then current else Some(doc)
      case Delete(_, _, at) =>
        if current.Some? && current.value.updatedAt <= at then None else current;
    tx.(phase := RowWritten, row := row)
  }

  /** A blocked update has written nothing but its ledger row. */
  function Committed(db: IndexState, tx: Tx): IndexState {
    var p := tx.event.Product();
    if tx.blocked then db.(processed := db.processed + {tx.event.eventId})
    else
      IndexState(db.processed + {tx.event.eventId}, Put(db.tombstones, p, tx.tombstone), Put(db.rows, p, tx.row))
  }

  function Report(tx: Tx): Outcome {
    if tx.blocked then TombstoneBlocked else Applied
  }

  function Release(hash: Hash, s: System, t: TxId): map<LockKey, TxId>
    requires t in s.txs
  {
    if s.txs[t].HoldsLock() then s.locks - {Key(hash, s.txs[t])} else s.locks
  }

  /** A commit, of which the caller hears its report, or an error if the confirmation is lost. */
  function AfterCommit(hash: Hash, s: System, t: TxId, heard: Option<Outcome>): System
    requires t in s.txs
  {
    var tx := s.txs[t];
    System(Committed(s.db, tx), Release(hash, s, t), s.txs[t := tx.(phase := Done(heard))],
           s.log + [(tx.event, Report(tx))])
  }

  function Next(hash: Hash, s: System, step: Step): System
    requires Enabled(hash, s, step)
  {
    match step
    case Start(t, e) => s.(txs := s.txs[t := Tx(e, Begun, None, None, false)])
    case MarkProcessed(t) =>
      var tx := s.txs[t];
      s.(txs := s.txs[t := tx.(phase := if tx.event.eventId in s.db.processed then Done(Some(Duplicate))
                                        else Marked)])
    case TakeLock(t) =>
      var tx := s.txs[t];
      s.(txs := s.txs[t := tx.(phase := Locked)], locks := s.locks[Key(hash, tx) := t])
    case WriteTombstone(t) =>
      var tx := s.txs[t];
      s.(txs := s.txs[t := AfterTombstone(tx, Lookup(s.db.tombstones, tx.event.Product()))])
    case WriteRow(t) =>
      var tx := s.txs[t];
      s.(txs := s.txs[t := AfterRow(tx, Lookup(s.db.rows, tx.event.Product()))])
    case Commit(t) => AfterCommit(hash, s, t, Some(Report(s.txs[t])))
    case CommitUnheard(t) => AfterCommit(hash, s, t, None)
    case Abort(t) =>
      s.(txs := s.txs[t := s.txs[t].(phase := Done(None))], locks := Release(hash, s, t))
  }

  ghost predicate Legal(hash: Hash, s: System, steps: seq<Step>)
    decreases |steps|
  {
    steps == [] || (Enabled(hash, s, steps[0]) && Legal(hash, Next(hash, s, steps[0]), steps[1..]))
  }

  function Execute(hash: Hash, s: System, steps: seq<Step>): System
    requires Legal(hash, s, steps)
    decreases |steps|
  {
    if steps == [] then s else Execute(hash, Next(hash, s, steps[0]), steps[1..])
  }

  function Opening(db: IndexState): System {
    System(db, map[], map[], [])
  }

  function Events(log: seq<(Event, Outcome)>): seq<Event> {
    seq(|log|, i requires 0 <= i < |log| => log[i].0)
  }

  /** The log replayed serially: its state, and the report each event gets at its place. */
  ghost predicate IsSerial(db0: IndexState, db: IndexState, log: seq<(Event, Outcome)>) {
    && db == RunFrom(db0, Events(log))
    && forall i :: 0 <= i < |log| ==> log[i].1 == OutcomeOf(RunFrom(db0, Events(log[..i])), log[i].0)
  }

  /** An open transaction's writes are the ones it would make on the database as it stands. */
  ghost predicate WritesCurrent(db: IndexState, tx: Tx) {
    var e := tx.event;
    var after := Write(db, e);
    && (tx.phase.TombstoneWritten? || tx.phase.RowWritten? ==>
          && tx.tombstone == Lookup(after.tombstones, e.Product())
          && (tx.blocked <==> e.Upsert? && Blocked(db, e.doc)))
    && (tx.phase.RowWritten? ==> tx.row == Lookup(after.rows, e.Product()))
    && (tx.phase.Begun? || tx.phase.Marked? || tx.phase.Locked? ==> !tx.blocked)
  }

  /** A lock is held by the open transaction that took it and by no other. */
  ghost predicate LocksMatch(hash: Hash, locks: map<LockKey, TxId>, txs: map<TxId, Tx>) {
    && (forall k :: k in locks ==> locks[k] in txs && txs[locks[k]].HoldsLock() && Key(hash, txs[locks[k]]) == k)
    && (forall t :: t in txs && txs[t].HoldsLock() ==>
                      Key(hash, txs[t]) in locks && locks[Key(hash, txs[t])] == t)
  }

  /** Open ledger inserts are new to the ledger and to one another. */
  ghost predicate MarksDistinct(processed: set<EventId>, txs: map<TxId, Tx>) {
    && (forall t :: t in txs && txs[t].HoldsMark() ==> txs[t].event.eventId !in processed)
    && (forall t, u :: t in txs && u in txs && t != u && txs[t].HoldsMark() && txs[u].HoldsMark() ==>
                         txs[t].event.eventId != txs[u].event.eventId)
  }

  ghost predicate AllCurrent(db: IndexState, txs: map<TxId, Tx>) {
    forall t :: t in txs ==> WritesCurrent(db, txs[t])
  }

  /** A duplicate is in the ledger, any other report is in the log, and the log has no duplicates. */
  ghost predicate ReportsHonest(s: System) {
    && (forall i :: 0 <= i < |s.log| ==> s.log[i].1 != Duplicate)
    && forall t :: t in s.txs && s.txs[t].phase.Done? && s.txs[t].phase.report.Some? ==>
                     var e, r := s.txs[t].event, s.txs[t].phase.report.value;
                     if r == Duplicate then e.eventId in s.db.processed else (e, r) in s.log
  }

  ghost predicate Inv(hash: Hash, db0: IndexState, s: System) {
    && IsSerial(db0, s.db, s.log)
    && LocksMatch(hash, s.locks, s.txs)
    && MarksDistinct(s.db.processed, s.txs)
    && AllCurrent(s.db, s.txs)
    && ReportsHonest(s)
  }

  /** Committing installs exactly the one-step effect of the event. */
  lemma CommitIsApply(db: IndexState, tx: Tx)
    requires tx.phase.RowWritten? && WritesCurrent(db, tx) && tx.event.eventId !in db.processed
    ensures Committed(db, tx) == Apply(db, tx.event)
    ensures Report(tx) == OutcomeOf(db, tx.event)
  {}

  /** A commit leaves the writes of transactions on other products current. */
  lemma CommitElsewhere(db: IndexState, tx: Tx, other: Tx)
    requires WritesCurrent(db, other)
    requires tx.event.Product() != other.event.Product() || !other.HoldsLock()
    ensures WritesCurrent(Committed(db, tx), other)
  {}

  lemma StepKeepsLocks(hash: Hash, s: System, step: Step)
    requires LocksMatch(hash, s.locks, s.txs) && Enabled(hash, s, step)
    ensures LocksMatch(hash, Next(hash, s, step).locks, Next(hash, s, step).txs)
  {}

  lemma StepKeepsMarks(hash: Hash, s: System, step: Step)
    requires MarksDistinct(s.db.processed, s.txs) && Enabled(hash, s, step)
    ensures MarksDistinct(Next(hash, s, step).db.processed, Next(hash, s, step).txs)
  {}

  lemma StepKeepsCurrent(hash: Hash, s: System, step: Step)
    requires LocksMatch(hash, s.locks, s.txs) && AllCurrent(s.db, s.txs) && Enabled(hash, s, step)
    ensures AllCurrent(Next(hash, s, step).db, Next(hash, s, step).txs)
  {
    if step.Commit? || step.CommitUnheard? {
      forall u | u in s.txs && u != step.t ensures WritesCurrent(Committed(s.db, s.txs[step.t]), s.txs[u]) {
        CommitElsewhere(s.db, s.txs[step.t], s.txs[u]);
      }
    }
  }

  lemma StepKeepsReports(hash: Hash, s: System, step: Step)
    requires ReportsHonest(s) && Enabled(hash, s, step)
    ensures ReportsHonest(Next(hash, s, step))
  {}

  lemma {:induction false} LogStaysSerial(db0: IndexState, db: IndexState, log: seq<(Event, Outcome)>, tx: Tx)
    requires IsSerial(db0, db, log)
    requires tx.phase.RowWritten? && WritesCurrent(db, tx) && tx.event.eventId !in db.processed
    ensures IsSerial(db0, Committed(db, tx), log + [(tx.event, Report(tx))])
  {
    var log' := log + [(tx.event, Report(tx))];
    CommitIsApply(db, tx);
    assert Events(log') == Events(log) + [tx.event];
    RunSnoc(db0, Events(log), tx.event);
    forall i | 0 <= i < |log'| ensures log'[i].1 == OutcomeOf(RunFrom(db0, Events(log'[..i])), log'[i].0) {
      assert log'[..i] == log[..i];
      assert log[..|log|] == log;
    }
  }

  lemma StepKeepsInv(hash: Hash, db0: IndexState, s: System, step: Step)
    requires Inv(hash, db0, s) && Enabled(hash, s, step)
    ensures Inv(hash, db0, Next(hash, s, step))
  {
    StepKeepsLocks(hash, s, step);
    StepKeepsMarks(hash, s, step);
    StepKeepsCurrent(hash, s, step);
    StepKeepsReports(hash, s, step);
    if step.Commit? || step.CommitUnheard? {
      LogStaysSerial(db0, s.db, s.log, s.txs[step.t]);
    }
  }

  lemma {:induction false} RunKeepsInv(hash: Hash, db0: IndexState, s: System, steps: seq<Step>)
    requires Inv(hash, db0, s) && Legal(hash, s, steps)
    ensures Inv(hash, db0, Execute(hash, s, steps))
    decreases |steps|
  {
    if steps != [] {
      StepKeepsInv(hash, db0, s, steps[0]);
      RunKeepsInv(hash, db0, Next(hash, s, steps[0]), steps[1..]);
    }
  }

  /** A serial log without duplicates names each event id once, and the ledger grew by those ids. */
  lemma {:induction false} SerialLogIsOnce(db0: IndexState, db: IndexState, log: seq<(Event, Outcome)>)
    requires IsSerial(db0, db, log)
    requires forall i :: 0 <= i < |log| ==> log[i].1 != Duplicate
    ensures db.processed == db0.processed + Ids(Events(log))
    ensures forall i :: 0 <= i < |log| ==> log[i].0.eventId !in db0.processed
    ensures forall i, j :: 0 <= i < j < |log| ==> log[i].0.eventId != log[j].0.eventId
  {
    LedgerIsIds(db0, Events(log));
    forall j | 0 <= j < |log|
      ensures log[j].0.eventId !in db0.processed
      ensures forall i :: 0 <= i < j ==> log[i].0.eventId != log[j].0.eventId
    {
      LedgerIsIds(db0, Events(log[..j]));
      assert forall i :: 0 <= i < j ==> Events(log[..j])[i] == log[i].0;
    }
  }

  /** MAIN RESULT.  After any interleaving, with aborts anywhere and commits whose confirmation is lost,
      the database is the serial result of the commits in commit order; every committer that was told
      anything but an error was told what it would have been told there; each event id took effect at
      most once, together with its ledger row; and a duplicate was really in the ledger. */
  lemma {:induction false} Serializable(hash: Hash, db0: IndexState, steps: seq<Step>)
    requires Legal(hash, Opening(db0), steps)
    ensures var s := Execute(hash, Opening(db0), steps);
            && IsSerial(db0, s.db, s.log)
            && s.db.processed == db0.processed + Ids(Events(s.log))
            && (forall i, j :: 0 <= i < j < |s.log| ==> s.log[i].0.eventId != s.log[j].0.eventId)
            && ReportsHonest(s)
  {
    RunKeepsInv(hash, db0, Opening(db0), steps);
    var s := Execute(hash, Opening(db0), steps);
    SerialLogIsOnce(db0, s.db, s.log);
  }

  /** So convergence holds of overlapping transactions too. */
  lemma InterleavedConverges(hash: Hash, steps: seq<Step>, p: ProductId)
    requires Legal(hash, Opening(EMPTY_INDEX), steps)
    ensures var s := Execute(hash, Opening(EMPTY_INDEX), steps);
            Shows(Dedup(Events(s.log)), p, Lookup(s.db.rows, p))
  {
    Serializable(hash, EMPTY_INDEX, steps);
    Converges(Events(Execute(hash, Opening(EMPTY_INDEX), steps).log), p);
  }

  /** The next statement of an open transaction. */
  function NextStep(t: TxId, tx: Tx): Step
    requires tx.Active()
  {
    match tx.phase
    case Begun => MarkProcessed(t)
    case Marked => TakeLock(t)
    case Locked => WriteTombstone(t)
    case TombstoneWritten => WriteRow(t)
    case RowWritten => Commit(t)
  }

  /** No deadlock: while a transaction is open, some open transaction can run its next statement.
      Those that hold a lock never wait, those that only hold a mark wait only for a lock holder,
      and the rest wait only for a mark holder. */
  lemma SomeoneCanMove(hash: Hash, db0: IndexState, steps: seq<Step>)
    requires Legal(hash, Opening(db0), steps)
    ensures var s := Execute(hash, Opening(db0), steps);
            (exists t :: t in s.txs && s.txs[t].Active()) ==>
              exists t :: t in s.txs && s.txs[t].Active() && Enabled(hash, s, NextStep(t, s.txs[t]))
  {
    RunKeepsInv(hash, db0, Opening(db0), steps);
    var s := Execute(hash, Opening(db0), steps);
    if t :| t in s.txs && s.txs[t].HoldsLock() {
      assert Enabled(hash, s, NextStep(t, s.txs[t]));
    } else if t :| t in s.txs && s.txs[t].HoldsMark() {
      assert Enabled(hash, s, NextStep(t, s.txs[t]));
    } else if t :| t in s.txs && s.txs[t].Active() {
      assert Enabled(hash, s, NextStep(t, s.txs[t]));
    }
  }
}
