/** Retention sweeps between the statements of open transactions.  A sweep picks expired tombstones on its
    own snapshot and later deletes those rows by product id, whatever they hold by then: it takes no product
    lock, waits for a row an open transaction has written, and does not compare again.  So it can delete a
    tombstone raised since it was picked, and timely updates do not make it invisible: when it is. */
module IndexSweeps {
  import opened Wrappers
  import opened ProductEvents
  import opened IndexConvergence
  import opened IndexRetention
  import T = IndexTransactions

  /** The transactions; the tombstone rows picked and not yet deleted, each with the horizon of its sweep;
      and what the sweeps have deleted: per product the latest deletion a deleted tombstone stood for, and
      the greatest horizon. */
  datatype System = System(s: T.System, picked: map<ProductId, Time>, lost: map<ProductId, Time>, horizon: Option<Time>)

  datatype Step =
    | Statement(step: T.Step)
    | Pick(horizon: Time, tombstones: set<ProductId>)
    | Remove(p: ProductId)
    | GiveUp
    | PurgeLedger(ledger: set<EventId>)

  /** The event an id stands for. */
  type Naming = EventId -> Event

  /** An open deletion has written the tombstone of its product and holds the row.  (An upsert that read an
      older tombstone may still be about to clear it, so a sweep can be first: it makes no difference.) */
  predicate HoldsRow(tx: T.Tx, p: ProductId) {
    (tx.phase.TombstoneWritten? || tx.phase.RowWritten?) && tx.event.Delete? && tx.event.Product() == p
  }

  /** Ids stand for one event each.  A pick compares with the horizon, on committed rows; the removal does
      not.  Rows a sweep has deleted stay locked until it commits, so its removals stand for that commit,
      one after the other; GiveUp drops those that will not come. */
  ghost predicate Enabled(hash: T.Hash, names: Naming, y: System, step: Step) {
    match step
    case Statement(step) => T.Enabled(hash, y.s, step) && (step.Start? ==> names(step.event.eventId) == step.event)
    case Pick(h, ps) => forall p :: p in ps ==> p in y.s.db.tombstones && y.s.db.tombstones[p] < h
    case Remove(p) =>
      && p in y.picked && p in y.s.db.tombstones
      && forall t :: t in y.s.txs ==> !HoldsRow(y.s.txs[t], p)
    case GiveUp => true
    case PurgeLedger(_) => true
  }

  predicate IsCommit(step: T.Step) {
    step.Commit? || step.CommitUnheard?
  }

  /** A commit that clears a tombstone deletes the row that was picked; one that raises it keeps the row. */
  function StillPicked(y: System, step: T.Step): map<ProductId, Time> {
    if IsCommit(step) && step.t in y.s.txs && y.s.txs[step.t].event.Upsert? && !y.s.txs[step.t].blocked
    then y.picked - {y.s.txs[step.t].event.Product()}
    else y.picked
  }

  function Next(hash: T.Hash, names: Naming, y: System, step: Step): System
    requires Enabled(hash, names, y, step)
  {
    match step
    case Statement(step) => y.(s := T.Next(hash, y.s, step), picked := StillPicked(y, step))
    case Pick(h, ps) => y.(picked := y.picked + map p | p in ps :: h)
    case Remove(p) =>
      var d := y.s.db.tombstones[p];
      System(y.s.(db := Swept(y.s.db, {p}, {})), y.picked - {p},
             y.lost[p := Latest(Lookup(y.lost, p), Some(d)).value], Latest(y.horizon, Some(y.picked[p])))
    case GiveUp => y.(picked := map[])
    case PurgeLedger(ids) => y.(s := y.s.(db := Swept(y.s.db, {}, ids)))
  }

  function Latest(a: Option<Time>, b: Option<Time>): (r: Option<Time>)
    ensures a.Some? || b.Some? ==> r.Some?
  {
    if a.None? then b else if b.None? || b.value <= a.value then a else b
  }

  ghost predicate Legal(hash: T.Hash, names: Naming, y: System, steps: seq<Step>)
    decreases |steps|
  {
    steps == [] || (Enabled(hash, names, y, steps[0]) && Legal(hash, names, Next(hash, names, y, steps[0]), steps[1..]))
  }

  function Execute(hash: T.Hash, names: Naming, y: System, steps: seq<Step>): System
    requires Legal(hash, names, y, steps)
    decreases |steps|
  {
    if steps == [] then y else Execute(hash, names, Next(hash, names, y, steps[0]), steps[1..])
  }

  function Opening(): System {
    System(T.Opening(EMPTY_INDEX), map[], map[], None)
  }

  // ---------- What sweeps can expose ----------

  /** The update finds no row and no tombstone to stop it, only because sweeps deleted one that would have. */
  predicate Exposing(s: IndexState, lost: map<ProductId, Time>, e: Event) {
    && e.Upsert? && !Blocked(s, e.doc)
    && e.Product() !in s.rows
    && e.Product() in lost && e.Stamp() <= lost[e.Product()]
  }

  predicate ExposingStep(y: System, step: Step) {
    && step.Statement? && IsCommit(step.step) && step.step.t in y.s.txs
    && !y.s.txs[step.step.t].blocked && Exposing(y.s.db, y.lost, y.s.txs[step.step.t].event)
  }

  ghost predicate AtMost(x: Option<Time>, d: Option<Time>) {
    x.Some? ==> d.Some? && x.value <= d.value
  }

  /** As TablesMatch, where the deletion of a hidden product is on its tombstone or among the lost. */
  ghost predicate LostMatch(s: IndexState, lost: map<ProductId, Time>, es: seq<Event>, p: ProductId) {
    var u, d := TopUpsert(es, p), LastDelete(es, p);
    if Visible(es, p) then
      && p in s.rows && s.rows[p] == es[u.value].doc
      && AtMost(Lookup(s.tombstones, p), d) && AtMost(Lookup(lost, p), d)
    else
      && p !in s.rows
      && Latest(Lookup(s.tombstones, p), Lookup(lost, p)) == d
  }

  ghost predicate AllMatch(db: IndexState, lost: map<ProductId, Time>, es: seq<Event>) {
    forall p :: LostMatch(db, lost, es, p)
  }

  // ---------- What every step keeps ----------

  ghost predicate BlockedByDelete(es: seq<Event>, e: Event) {
    e.Upsert? && LastDelete(es, e.Product()).Some? && e.Stamp() <= LastDelete(es, e.Product()).value
  }

  /** An open transaction's writes are still the right ones, or it was blocked by a deletion that came. */
  ghost predicate TxRight(db: IndexState, es: seq<Event>, tx: T.Tx) {
    if (tx.phase.TombstoneWritten? || tx.phase.RowWritten?) && tx.blocked then BlockedByDelete(es, tx.event)
    else T.WritesCurrent(db, tx)
  }

  ghost predicate AllNamed(names: Naming, es: seq<Event>) {
    forall e :: e in es ==> names(e.eventId) == e
  }

  ghost predicate Inv(hash: T.Hash, names: Naming, y: System) {
    var es := T.Events(y.s.log);
    && T.LocksMatch(hash, y.s.locks, y.s.txs)
    && T.MarksDistinct(y.s.db.processed, y.s.txs)
    && AllMatch(y.s.db, y.lost, Dedup(es))
    && y.s.db.processed <= Ids(es)
    && AllNamed(names, es)
    && (forall t :: t in y.s.txs ==> names(y.s.txs[t].event.eventId) == y.s.txs[t].event)
    && (forall t :: t in y.s.txs ==> TxRight(y.s.db, Dedup(es), y.s.txs[t]))
  }

  // ---------- One commit ----------

  lemma OtherProduct(s: IndexState, lost: map<ProductId, Time>, es: seq<Event>, e: Event, p: ProductId)
    requires LostMatch(s, lost, es, p) && e.Product() != p
    ensures LostMatch(Apply(s, e), lost, es + [e], p) && LostMatch(Apply(s, e), lost, es, p)
  {
    assert (es + [e])[..|es|] == es;
  }

  lemma FirstCommit(s: IndexState, lost: map<ProductId, Time>, es: seq<Event>, e: Event)
    requires LostMatch(s, lost, es, e.Product()) && e.eventId !in s.processed && !Exposing(s, lost, e)
    ensures LostMatch(Apply(s, e), lost, es + [e], e.Product())
  {
    assert (es + [e])[..|es|] == es;
  }

  /** An event whose ledger row was swept. */
  lemma RepeatedCommit(s: IndexState, lost: map<ProductId, Time>, es: seq<Event>, e: Event)
    requires LostMatch(s, lost, es, e.Product()) && e.eventId !in s.processed && !Exposing(s, lost, e) && e in es
    ensures LostMatch(Apply(s, e), lost, es, e.Product())
  {
    LastDeleteBounds(es, e.Product());
    TopUpsertBounds(es, e.Product());
  }

  /** A blocked update changes no table but the ledger, and nothing it should have. */
  lemma BlockedCommit(s: IndexState, lost: map<ProductId, Time>, es: seq<Event>, e: Event)
    requires LostMatch(s, lost, es, e.Product()) && BlockedByDelete(es, e)
    ensures var t := s.(processed := s.processed + {e.eventId});
            LostMatch(t, lost, es + [e], e.Product()) && LostMatch(t, lost, es, e.Product())
  {
    assert (es + [e])[..|es|] == es;
  }

  lemma BlockedElsewhere(s: IndexState, lost: map<ProductId, Time>, es: seq<Event>, e: Event, p: ProductId)
    requires LostMatch(s, lost, es, p) && e.Product() != p
    ensures var t := s.(processed := s.processed + {e.eventId});
            LostMatch(t, lost, es + [e], p) && LostMatch(t, lost, es, p)
  {
    assert (es + [e])[..|es|] == es;
  }

  /** The exposed row is there, and would not be had nothing been swept. */
  lemma ExposedRowDiffers(s: IndexState, lost: map<ProductId, Time>, es: seq<Event>, e: Event)
    requires LostMatch(s, lost, Dedup(es), e.Product()) && e.eventId !in s.processed && Exposing(s, lost, e)
    requires WellIdentified(es + [e])
    ensures e.Product() in Apply(s, e).rows && e.Product() !in Run(es + [e]).rows
  {
    var p, fs := e.Product(), Dedup(es);
    RunMatches(es + [e], p);
    DedupSnoc(es, e);
    assert (fs + [e])[..|fs|] == fs;
  }

  lemma CommitKeepsMatch(names: Naming, db: IndexState, lost: map<ProductId, Time>, es: seq<Event>, tx: T.Tx)
    requires AllMatch(db, lost, Dedup(es)) && TxRight(db, Dedup(es), tx) && tx.phase.RowWritten?
    requires tx.event.eventId !in db.processed && AllNamed(names, es) && names(tx.event.eventId) == tx.event
    requires tx.blocked || !Exposing(db, lost, tx.event)
    ensures AllMatch(T.Committed(db, tx), lost, Dedup(es + [tx.event]))
  {
    var e := tx.event;
    assert WellIdentified(es + [e]);
    DedupSnoc(es, e);
    hide LostMatch, Dedup, BlockedByDelete, TopUpsert, LastDelete, Visible, Exposing;
    if tx.blocked {
      forall p ensures LostMatch(T.Committed(db, tx), lost, Dedup(es + [e]), p) {
        if p != e.Product() {
          BlockedElsewhere(db, lost, Dedup(es), e, p);
        } else {
          BlockedCommit(db, lost, Dedup(es), e);
        }
      }
    } else {
      T.CommitIsApply(db, tx);
      forall p ensures LostMatch(T.Committed(db, tx), lost, Dedup(es + [e]), p) {
        if p != e.Product() {
          OtherProduct(db, lost, Dedup(es), e, p);
        } else if e.eventId in Ids(es) {
          RepeatedCommit(db, lost, Dedup(es), e);
        } else {
          FirstCommit(db, lost, Dedup(es), e);
        }
      }
    }
  }

  /** A commit leaves open transactions of other products right. */
  lemma CommitElsewhere(db: IndexState, es: seq<Event>, tx: T.Tx, u: T.Tx)
    requires TxRight(db, es, u) && tx.event.Product() != u.event.Product()
    ensures TxRight(T.Committed(db, tx), es, u) && TxRight(T.Committed(db, tx), es + [tx.event], u)
  {
    assert (es + [tx.event])[..|es|] == es;
    if !((u.phase.TombstoneWritten? || u.phase.RowWritten?) && u.blocked) {
      T.CommitElsewhere(db, tx, u);
    }
    hide T.WritesCurrent, T.Committed;
  }

  /** One that has not come to its tombstone yet is right whatever happens. */
  lemma EarlyTxRight(db: IndexState, es: seq<Event>, db': IndexState, es': seq<Event>, u: T.Tx)
    requires TxRight(db, es, u) && !u.phase.TombstoneWritten? && !u.phase.RowWritten?
    ensures TxRight(db', es', u)
  {}

  lemma CommitKeepsTxs(hash: T.Hash, s: T.System, t: T.TxId, es: seq<Event>, es': seq<Event>, heard: Option<Outcome>)
    requires T.LocksMatch(hash, s.locks, s.txs) && (forall u :: u in s.txs ==> TxRight(s.db, es, s.txs[u]))
    requires t in s.txs && s.txs[t].HoldsLock() && (es' == es || es' == es + [s.txs[t].event])
    ensures var z := T.AfterCommit(hash, s, t, heard); forall u :: u in z.txs ==> TxRight(z.db, es', z.txs[u])
  {
    hide LastDelete, TopUpsert, Visible, BlockedByDelete, T.Committed;
    var tx, z := s.txs[t], T.AfterCommit(hash, s, t, heard);
    forall u | u in z.txs ensures TxRight(z.db, es', z.txs[u]) {
      if u != t {
        if s.txs[u].event.Product() != tx.event.Product() {
          CommitElsewhere(s.db, es, tx, s.txs[u]);
        } else {
          assert !s.txs[u].HoldsLock();
          EarlyTxRight(s.db, es, z.db, es', s.txs[u]);
        }
      }
    }
  }

  lemma LogGrows(names: Naming, processed: set<EventId>, log: seq<(Event, Outcome)>, entry: (Event, Outcome))
    requires processed <= Ids(T.Events(log)) && AllNamed(names, T.Events(log)) && names(entry.0.eventId) == entry.0
    ensures T.Events(log + [entry]) == T.Events(log) + [entry.0]
    ensures processed + {entry.0.eventId} <= Ids(T.Events(log + [entry])) && AllNamed(names, T.Events(log + [entry]))
    ensures var es := T.Events(log);
            && WellIdentified(es + [entry.0])
            && (Dedup(es + [entry.0]) == Dedup(es) || Dedup(es + [entry.0]) == Dedup(es) + [entry.0])
  {
    assert T.Events(log + [entry]) == T.Events(log) + [entry.0];
    hide T.Events;
    DedupSnoc(T.Events(log), entry.0);
  }

  lemma CommitRecords(db: IndexState, tx: T.Tx)
    ensures T.Committed(db, tx).processed == db.processed + {tx.event.eventId}
  {}

  /** What a commit step does to the transactions. */
  lemma CommitShape(hash: T.Hash, s: T.System, step: T.Step)
    requires T.Enabled(hash, s, step) && IsCommit(step)
    requires T.MarksDistinct(s.db.processed, s.txs)
    ensures step.t in s.txs && s.txs[step.t].phase.RowWritten? && s.txs[step.t].event.eventId !in s.db.processed
    ensures var tx := s.txs[step.t];
            T.Next(hash, s, step)
            == T.AfterCommit(hash, s, step.t, if step.Commit? then Some(T.Report(tx)) else None)
  {}

  lemma CommitKeepsInv(hash: T.Hash, names: Naming, y: System, step: T.Step)
    requires Inv(hash, names, y) && Enabled(hash, names, y, Statement(step)) && IsCommit(step)
    requires !ExposingStep(y, Statement(step))
    ensures Inv(hash, names, Next(hash, names, y, Statement(step)))
  {
    hide LostMatch, AllMatch, TxRight, Dedup, T.Events, T.Committed, Ids, AllNamed, Exposing, T.Next;
    var s := y.s;
    CommitShape(hash, s, step);
    var tx, es := s.txs[step.t], T.Events(s.log);
    var heard := if step.Commit? then Some(T.Report(tx)) else None;
    T.StepKeepsLocks(hash, s, step);
    T.StepKeepsMarks(hash, s, step);
    hide T.MarksDistinct;
    LogGrows(names, s.db.processed, s.log, (tx.event, T.Report(tx)));
    CommitKeepsMatch(names, s.db, y.lost, es, tx);
    CommitKeepsTxs(hash, s, step.t, Dedup(es), Dedup(es + [tx.event]), heard);
    CommitRecords(s.db, tx);
    hide T.LocksMatch;
  }

  /** A statement keeps the transaction that made it right. */
  lemma StatementKeepsTx(hash: T.Hash, names: Naming, y: System, step: T.Step)
    requires Enabled(hash, names, y, Statement(step)) && !IsCommit(step)
    requires var es := Dedup(T.Events(y.s.log));
             && (step.t in y.s.txs ==> TxRight(y.s.db, es, y.s.txs[step.t]))
             && LostMatch(y.s.db, y.lost, es, T.Next(hash, y.s, step).txs[step.t].event.Product())
    ensures TxRight(y.s.db, Dedup(T.Events(y.s.log)), T.Next(hash, y.s, step).txs[step.t])
  {
    hide Dedup, LastDelete, TopUpsert;
  }

  /** A statement that does not commit touches its own transaction and no table. */
  lemma StatementShape(hash: T.Hash, s: T.System, step: T.Step)
    requires T.Enabled(hash, s, step) && !IsCommit(step)
    ensures var z := T.Next(hash, s, step);
            && z.db == s.db && z.log == s.log && step.t in z.txs && z.txs == s.txs[step.t := z.txs[step.t]]
            && z.txs[step.t].event == if step.Start? then step.event else s.txs[step.t].event
    ensures !step.Start? ==> step.t in s.txs
  {}

  lemma StatementKeepsInv(hash: T.Hash, names: Naming, y: System, step: T.Step)
    requires Inv(hash, names, y) && Enabled(hash, names, y, Statement(step)) && !IsCommit(step)
    ensures Inv(hash, names, Next(hash, names, y, Statement(step)))
  {
    hide LostMatch, TxRight, Dedup, T.LocksMatch, T.MarksDistinct, T.Next, T.Enabled, T.Events, AllNamed, Ids;
    var s, z := y.s, T.Next(hash, y.s, step);
    StatementShape(hash, s, step);
    T.StepKeepsLocks(hash, s, step);
    T.StepKeepsMarks(hash, s, step);
    assert LostMatch(s.db, y.lost, Dedup(T.Events(s.log)), z.txs[step.t].event.Product());
    StatementKeepsTx(hash, names, y, step);
  }

  // ---------- One sweep ----------

  lemma RemoveKeepsMatch(s: IndexState, lost: map<ProductId, Time>, es: seq<Event>, p: ProductId)
    requires AllMatch(s, lost, es) && p in s.tombstones
    ensures AllMatch(Swept(s, {p}, {}), lost[p := Latest(Lookup(lost, p), Some(s.tombstones[p])).value], es)
  {
    hide LastDelete, TopUpsert, Visible;
    var lost' := lost[p := Latest(Lookup(lost, p), Some(s.tombstones[p])).value];
    forall q ensures LostMatch(Swept(s, {p}, {}), lost', es, q) {
      assert LostMatch(s, lost, es, q);
    }
  }

  lemma PurgeKeepsMatch(s: IndexState, lost: map<ProductId, Time>, es: seq<Event>, ids: set<EventId>)
    requires AllMatch(s, lost, es)
    ensures AllMatch(Swept(s, {}, ids), lost, es)
  {
    hide LastDelete, TopUpsert, Visible;
    forall q ensures LostMatch(Swept(s, {}, ids), lost, es, q) {
      assert LostMatch(s, lost, es, q);
    }
  }

  /** A removal leaves open transactions right: a deletion's row was not free to go, and an update that has
      found its tombstone older clears it anyway. */
  lemma RemoveKeepsTx(s: IndexState, es: seq<Event>, p: ProductId, tx: T.Tx)
    requires TxRight(s, es, tx) && !HoldsRow(tx, p)
    ensures TxRight(Swept(s, {p}, {}), es, tx)
  {
    hide LastDelete, TopUpsert;
  }

  lemma PurgeKeepsTx(s: IndexState, es: seq<Event>, ids: set<EventId>, tx: T.Tx)
    requires TxRight(s, es, tx)
    ensures TxRight(Swept(s, {}, ids), es, tx)
  {
    hide LastDelete, TopUpsert;
  }

  lemma SweepKeepsInv(hash: T.Hash, names: Naming, y: System, step: Step)
    requires Inv(hash, names, y) && Enabled(hash, names, y, step) && !step.Statement?
    ensures Inv(hash, names, Next(hash, names, y, step))
  {
    hide AllMatch, TxRight, Dedup, T.LocksMatch, T.Events, Latest;
    var es := Dedup(T.Events(y.s.log));
    match step
    case Remove(p) =>
      RemoveKeepsMatch(y.s.db, y.lost, es, p);
      forall t | t in y.s.txs ensures TxRight(Swept(y.s.db, {p}, {}), es, y.s.txs[t]) {
        RemoveKeepsTx(y.s.db, es, p, y.s.txs[t]);
      }
    case PurgeLedger(ids) =>
      PurgeKeepsMatch(y.s.db, y.lost, es, ids);
      forall t | t in y.s.txs ensures TxRight(Swept(y.s.db, {}, ids), es, y.s.txs[t]) {
        PurgeKeepsTx(y.s.db, es, ids, y.s.txs[t]);
      }
    case _ =>
  }

  lemma StepKeepsInv(hash: T.Hash, names: Naming, y: System, step: Step)
    requires Inv(hash, names, y) && Enabled(hash, names, y, step) && !ExposingStep(y, step)
    ensures Inv(hash, names, Next(hash, names, y, step))
  {
    hide *;
    if !step.Statement? {
      SweepKeepsInv(hash, names, y, step);
    } else if IsCommit(step.step) {
      CommitKeepsInv(hash, names, y, step.step);
    } else {
      StatementKeepsInv(hash, names, y, step.step);
    }
  }

  // ---------- Exactly when sweeps are invisible ----------

  /** The rows are those of the committed events, delivered one after another with no sweep at all. */
  ghost predicate RowsUnswept(y: System) {
    y.s.db.rows == Run(T.Events(y.s.log)).rows
  }

  lemma InvShowsUnswept(hash: T.Hash, names: Naming, y: System)
    requires Inv(hash, names, y)
    ensures RowsUnswept(y)
  {
    var es := T.Events(y.s.log);
    hide T.LocksMatch, T.MarksDistinct, TxRight, TopUpsert, LastDelete;
    forall p: ProductId ensures Lookup(y.s.db.rows, p) == Lookup(Run(es).rows, p) {
      assert LostMatch(y.s.db, y.lost, Dedup(es), p);
      RunMatches(es, p);
    }
    SameLookups(y.s.db.rows, Run(es).rows);
  }

  lemma ExposingStepShows(hash: T.Hash, names: Naming, y: System, step: Step)
    requires Inv(hash, names, y) && Enabled(hash, names, y, step) && ExposingStep(y, step)
    ensures !RowsUnswept(Next(hash, names, y, step))
  {
    hide T.Events, T.Next, LostMatch, Dedup, TxRight, T.WritesCurrent, Exposing, Apply, Run, T.LocksMatch;
    var s := y.s;
    CommitShape(hash, s, step.step);
    var tx, es := s.txs[step.step.t], T.Events(s.log);
    LogGrows(names, s.db.processed, s.log, (tx.event, T.Report(tx)));
    assert LostMatch(s.db, y.lost, Dedup(es), tx.event.Product());
    assert T.WritesCurrent(s.db, tx) by { assert TxRight(s.db, Dedup(es), tx); UnblockedIsCurrent(s.db, Dedup(es), tx); }
    T.CommitIsApply(s.db, tx);
    ExposedRowDiffers(s.db, y.lost, es, tx.event);
  }

  lemma UnblockedIsCurrent(db: IndexState, es: seq<Event>, tx: T.Tx)
    requires TxRight(db, es, tx) && !tx.blocked
    ensures T.WritesCurrent(db, tx)
  {}

  ghost predicate AlwaysUnswept(hash: T.Hash, names: Naming, y: System, steps: seq<Step>)
    requires Legal(hash, names, y, steps)
    decreases |steps|
  {
    RowsUnswept(y) && (steps == [] || AlwaysUnswept(hash, names, Next(hash, names, y, steps[0]), steps[1..]))
  }

  ghost predicate NothingExposed(hash: T.Hash, names: Naming, y: System, steps: seq<Step>)
    requires Legal(hash, names, y, steps)
    decreases |steps|
  {
    steps == [] || (!ExposingStep(y, steps[0]) && NothingExposed(hash, names, Next(hash, names, y, steps[0]), steps[1..]))
  }

  lemma {:induction false} UnsweptIffFrom(hash: T.Hash, names: Naming, y: System, steps: seq<Step>)
    requires Inv(hash, names, y) && Legal(hash, names, y, steps)
    ensures AlwaysUnswept(hash, names, y, steps) <==> NothingExposed(hash, names, y, steps)
    decreases |steps|
  {
    hide Inv, RowsUnswept, ExposingStep, Enabled, Next;
    InvShowsUnswept(hash, names, y);
    if steps != [] {
      if ExposingStep(y, steps[0]) {
        ExposingStepShows(hash, names, y, steps[0]);
        assert !AlwaysUnswept(hash, names, Next(hash, names, y, steps[0]), steps[1..]);
      } else {
        StepKeepsInv(hash, names, y, steps[0]);
        UnsweptIffFrom(hash, names, Next(hash, names, y, steps[0]), steps[1..]);
      }
    }
  }

  lemma OpeningInv(hash: T.Hash, names: Naming)
    ensures Inv(hash, names, Opening())
  {
    assert T.Events(Opening().s.log) == [];
  }

  /** MAIN RESULT.  With the statements of any number of transactions, lost confirmations, picks, removals
      and ledger purges all interleaved, and no assumption on when events arrive: the rows are at every
      moment those of the committed events with no sweep at all, exactly when no update commits that finds
      no row and is as old as a deletion whose tombstone a sweep has removed. */
  lemma SweepsInvisibleIff(hash: T.Hash, names: Naming, steps: seq<Step>)
    requires Legal(hash, names, Opening(), steps)
    ensures AlwaysUnswept(hash, names, Opening(), steps) <==> NothingExposed(hash, names, Opening(), steps)
  {
    OpeningInv(hash, names);
    UnsweptIffFrom(hash, names, Opening(), steps);
  }

  // ---------- Timely updates, and tombstones raised under a sweep ----------

  /** The update whose tombstone is read after a removal is stamped no earlier than that sweep's horizon. */
  predicate Timely(y: System, step: Step) {
    (step.Statement? && step.step.WriteTombstone? && step.step.t in y.s.txs && y.horizon.Some?)
    ==> var e := y.s.txs[step.step.t].event; e.Upsert? ==> y.horizon.value <= e.Stamp()
  }

  /** The tombstone removed has been raised past the horizon it was picked by. */
  predicate RemovesRaised(y: System, step: Step) {
    step.Remove? && step.p in y.picked && step.p in y.s.db.tombstones && y.picked[step.p] <= y.s.db.tombstones[step.p]
  }

  ghost predicate AllTimely(hash: T.Hash, names: Naming, y: System, steps: seq<Step>)
    requires Legal(hash, names, y, steps)
    decreases |steps|
  {
    steps == [] || (Timely(y, steps[0]) && AllTimely(hash, names, Next(hash, names, y, steps[0]), steps[1..]))
  }

  ghost predicate NothingRaised(hash: T.Hash, names: Naming, y: System, steps: seq<Step>)
    requires Legal(hash, names, y, steps)
    decreases |steps|
  {
    steps == [] || (!RemovesRaised(y, steps[0]) && NothingRaised(hash, names, Next(hash, names, y, steps[0]), steps[1..]))
  }

  /** What was lost is older than the horizon, and than any open update that was let through. */
  ghost predicate LostIsOld(y: System) {
    && (forall p :: p in y.lost ==> y.horizon.Some? && y.lost[p] < y.horizon.value)
    && (forall t :: t in y.s.txs ==> UpdateIsNewer(y.lost, y.s.txs[t]))
  }

  predicate UpdateIsNewer(lost: map<ProductId, Time>, tx: T.Tx) {
    ((tx.phase.TombstoneWritten? || tx.phase.RowWritten?) && tx.event.Upsert? && !tx.blocked)
    ==> tx.event.Product() in lost ==> lost[tx.event.Product()] < tx.event.Stamp()
  }

  lemma StatementKeepsOld(hash: T.Hash, names: Naming, y: System, step: T.Step)
    requires LostIsOld(y) && Enabled(hash, names, y, Statement(step)) && Timely(y, Statement(step))
    ensures LostIsOld(Next(hash, names, y, Statement(step)))
  {
    var z := T.Next(hash, y.s, step);
    assert z.txs == y.s.txs[step.t := z.txs[step.t]];
    hide T.Committed, T.Release;
    assert UpdateIsNewer(y.lost, z.txs[step.t]);
  }

  lemma RemoveKeepsOld(hash: T.Hash, names: Naming, y: System, p: ProductId)
    requires Inv(hash, names, y) && LostIsOld(y) && Enabled(hash, names, y, Remove(p)) && !RemovesRaised(y, Remove(p))
    ensures LostIsOld(Next(hash, names, y, Remove(p)))
  {
    hide T.LocksMatch, T.MarksDistinct, AllMatch, AllNamed, Dedup, T.Events, Ids;
    var z := Next(hash, names, y, Remove(p));
    forall t | t in z.s.txs ensures UpdateIsNewer(z.lost, z.s.txs[t]) {
      assert TxRight(y.s.db, Dedup(T.Events(y.s.log)), y.s.txs[t]) && UpdateIsNewer(y.lost, y.s.txs[t]);
    }
  }

  lemma StepKeepsOld(hash: T.Hash, names: Naming, y: System, step: Step)
    requires Inv(hash, names, y) && LostIsOld(y) && Enabled(hash, names, y, step)
    requires Timely(y, step) && !RemovesRaised(y, step)
    ensures !ExposingStep(y, step) && LostIsOld(Next(hash, names, y, step))
  {
    match step
    case Statement(step) =>
      StatementKeepsOld(hash, names, y, step);
      assert step.t in y.s.txs ==> UpdateIsNewer(y.lost, y.s.txs[step.t]);
    case Remove(p) => RemoveKeepsOld(hash, names, y, p);
    case _ =>
  }

  lemma {:induction false} TimelyExposesNothing(hash: T.Hash, names: Naming, y: System, steps: seq<Step>)
    requires Inv(hash, names, y) && LostIsOld(y) && Legal(hash, names, y, steps)
    requires AllTimely(hash, names, y, steps) && NothingRaised(hash, names, y, steps)
    ensures NothingExposed(hash, names, y, steps)
    decreases |steps|
  {
    hide Inv, LostIsOld, ExposingStep, Enabled, Next, Timely, RemovesRaised;
    if steps != [] {
      StepKeepsOld(hash, names, y, steps[0]);
      StepKeepsInv(hash, names, y, steps[0]);
      TimelyExposesNothing(hash, names, Next(hash, names, y, steps[0]), steps[1..]);
    }
  }

  /** MAIN RESULT.  If updates are timely and no removed tombstone was raised past its horizon meanwhile,
      sweeps are invisible at every moment.  RaisedTombstoneExposes shows that being timely is not enough. */
  lemma InterleavedSweepsInvisible(hash: T.Hash, names: Naming, steps: seq<Step>)
    requires Legal(hash, names, Opening(), steps)
    requires AllTimely(hash, names, Opening(), steps) && NothingRaised(hash, names, Opening(), steps)
    ensures AlwaysUnswept(hash, names, Opening(), steps)
  {
    OpeningInv(hash, names);
    TimelyExposesNothing(hash, names, Opening(), steps);
    SweepsInvisibleIff(hash, names, steps);
  }

  // ---------- A timely run that is exposed ----------

  ghost predicate Idle(y: System) {
    y.s.locks == map[] && forall t :: t in y.s.txs ==> y.s.txs[t].phase.Done?
  }

  lemma LegalStep(hash: T.Hash, names: Naming, y: System, step: Step, rest: seq<Step>)
    requires Enabled(hash, names, y, step) && Legal(hash, names, Next(hash, names, y, step), rest)
    ensures Legal(hash, names, y, [step] + rest)
    ensures Execute(hash, names, y, [step] + rest) == Execute(hash, names, Next(hash, names, y, step), rest)
    ensures Timely(y, step) && AllTimely(hash, names, Next(hash, names, y, step), rest)
            ==> AllTimely(hash, names, y, [step] + rest)
  {
    hide Enabled, Next, Timely;
    assert ([step] + rest)[1..] == rest;
  }

  lemma {:induction false} LegalAppend(hash: T.Hash, names: Naming, y: System, a: seq<Step>, b: seq<Step>)
    requires Legal(hash, names, y, a) && Legal(hash, names, Execute(hash, names, y, a), b)
    ensures Legal(hash, names, y, a + b)
    ensures Execute(hash, names, y, a + b) == Execute(hash, names, Execute(hash, names, y, a), b)
    ensures AllTimely(hash, names, y, a) && AllTimely(hash, names, Execute(hash, names, y, a), b)
            ==> AllTimely(hash, names, y, a + b)
    decreases |a|
  {
    hide Enabled, Next, Timely;
    if a == [] {
      assert a + b == b;
    } else {
      LegalAppend(hash, names, Next(hash, names, y, a[0]), a[1..], b);
      assert (a + b)[0] == a[0] && (a + b)[1..] == a[1..] + b;
    }
  }

  /** The statements of one transaction. */
  function Whole(t: T.TxId, e: Event): seq<Step> {
    [Statement(T.Start(t, e))] + ([Statement(T.MarkProcessed(t))] + ([Statement(T.TakeLock(t))] + UnderLock(t)))
  }

  function UnderLock(t: T.TxId): seq<Step> {
    [Statement(T.WriteTombstone(t))] + ([Statement(T.WriteRow(t))] + ([Statement(T.Commit(t))] + []))
  }

  /** Up to its lock a transaction on its own changes nothing but itself. */
  lemma ReachesLock(hash: T.Hash, names: Naming, y: System, t: T.TxId, e: Event)
    requires Idle(y) && t !in y.s.txs && e.eventId !in y.s.db.processed && names(e.eventId) == e
    ensures Enabled(hash, names, y, Statement(T.Start(t, e)))
    ensures var y1 := Next(hash, names, y, Statement(T.Start(t, e)));
            && Enabled(hash, names, y1, Statement(T.MarkProcessed(t)))
            && var y2 := Next(hash, names, y1, Statement(T.MarkProcessed(t)));
            && Enabled(hash, names, y2, Statement(T.TakeLock(t)))
            && var y3 := Next(hash, names, y2, Statement(T.TakeLock(t)));
            && y3 == y.(s := T.System(y.s.db, map[hash(e.Product()) := t],
                                      y.s.txs[t := T.Tx(e, T.Locked, None, None, false)], y.s.log))
            && Timely(y, Statement(T.Start(t, e))) && Timely(y1, Statement(T.MarkProcessed(t)))
            && Timely(y2, Statement(T.TakeLock(t)))
  {}

  /** The two statements under the lock compute the writes and touch nothing else. */
  lemma ComputesWrites(hash: T.Hash, names: Naming, y: System, t: T.TxId, e: Event)
    requires t in y.s.txs && y.s.txs[t] == T.Tx(e, T.Locked, None, None, false)
    ensures Enabled(hash, names, y, Statement(T.WriteTombstone(t)))
    ensures var y1 := Next(hash, names, y, Statement(T.WriteTombstone(t)));
            && Enabled(hash, names, y1, Statement(T.WriteRow(t)))
            && var y2 := Next(hash, names, y1, Statement(T.WriteRow(t)));
            && t in y2.s.txs && y2.s.txs[t].event == e && y2.s.txs[t].phase.RowWritten?
            && T.WritesCurrent(y.s.db, y2.s.txs[t])
            && y2 == y.(s := y.s.(txs := y.s.txs[t := y2.s.txs[t]]))
            && Timely(y1, Statement(T.WriteRow(t)))
  {}

  lemma EventsSnoc(log: seq<(Event, Outcome)>, entry: (Event, Outcome))
    ensures T.Events(log + [entry]) == T.Events(log) + [entry.0]
  {}

  /** The commit takes effect as one call of the store. */
  lemma Commits(hash: T.Hash, names: Naming, y: System, t: T.TxId, e: Event)
    requires t in y.s.txs && y.s.txs[t].event == e && y.s.txs[t].phase.RowWritten?
    requires T.WritesCurrent(y.s.db, y.s.txs[t]) && e.eventId !in y.s.db.processed
    requires y.s.locks == map[hash(e.Product()) := t] && forall u :: u in y.s.txs && u != t ==> y.s.txs[u].phase.Done?
    ensures var step := Statement(T.Commit(t));
            && Enabled(hash, names, y, step) && Timely(y, step)
            && var z := Next(hash, names, y, step);
            && Idle(z) && z.s.db == Apply(y.s.db, e) && z.s.txs.Keys == y.s.txs.Keys
            && T.Events(z.s.log) == T.Events(y.s.log) + [e]
            && z.lost == y.lost && z.horizon == y.horizon && (e.Delete? ==> z.picked == y.picked)
  {
    T.CommitIsApply(y.s.db, y.s.txs[t]);
    EventsSnoc(y.s.log, (e, T.Report(y.s.txs[t])));
    hide T.Committed, Apply, T.WritesCurrent, T.Report, T.Events;
  }

  /** From its lock on it takes effect as one call of the store. */
  lemma RunsUnderLock(hash: T.Hash, names: Naming, y: System, t: T.TxId, e: Event)
    requires t in y.s.txs && y.s.txs[t] == T.Tx(e, T.Locked, None, None, false) && e.eventId !in y.s.db.processed
    requires y.s.locks == map[hash(e.Product()) := t] && forall u :: u in y.s.txs && u != t ==> y.s.txs[u].phase.Done?
    requires e.Upsert? && y.horizon.Some? ==> y.horizon.value <= e.Stamp()
    ensures Legal(hash, names, y, UnderLock(t)) && AllTimely(hash, names, y, UnderLock(t))
    ensures var z := Execute(hash, names, y, UnderLock(t));
            && Idle(z) && z.s.db == Apply(y.s.db, e) && z.s.txs.Keys == y.s.txs.Keys
            && T.Events(z.s.log) == T.Events(y.s.log) + [e]
            && z.lost == y.lost && z.horizon == y.horizon && (e.Delete? ==> z.picked == y.picked)
  {
    assert Timely(y, Statement(T.WriteTombstone(t)));
    hide Timely;
    ComputesWrites(hash, names, y, t, e);
    hide Next, Enabled;
    var y1 := Next(hash, names, y, Statement(T.WriteTombstone(t)));
    var y2 := Next(hash, names, y1, Statement(T.WriteRow(t)));
    Commits(hash, names, y2, t, e);
    hide Idle, Apply, T.WritesCurrent, T.Events;
    var y3 := Next(hash, names, y2, Statement(T.Commit(t)));
    assert Legal(hash, names, y3, []) && Execute(hash, names, y3, []) == y3 && AllTimely(hash, names, y3, []);
    hide Legal, Execute, AllTimely;
    LegalStep(hash, names, y2, Statement(T.Commit(t)), []);
    var r2 := [Statement(T.Commit(t))] + [];
    LegalStep(hash, names, y1, Statement(T.WriteRow(t)), r2);
    LegalStep(hash, names, y, Statement(T.WriteTombstone(t)), [Statement(T.WriteRow(t))] + r2);
  }

  lemma RunsAlone(hash: T.Hash, names: Naming, y: System, t: T.TxId, e: Event)
    requires Idle(y) && t !in y.s.txs && e.eventId !in y.s.db.processed && names(e.eventId) == e
    requires e.Upsert? && y.horizon.Some? ==> y.horizon.value <= e.Stamp()
    ensures Legal(hash, names, y, Whole(t, e)) && AllTimely(hash, names, y, Whole(t, e))
    ensures var z := Execute(hash, names, y, Whole(t, e));
            && Idle(z) && z.s.db == Apply(y.s.db, e) && z.s.txs.Keys == y.s.txs.Keys + {t}
            && T.Events(z.s.log) == T.Events(y.s.log) + [e]
            && z.lost == y.lost && z.horizon == y.horizon && (e.Delete? ==> z.picked == y.picked)
  {
    ReachesLock(hash, names, y, t, e);
    hide Enabled, Next, Timely, Legal, Execute, AllTimely, UnderLock, Apply, T.Events;
    var y1 := Next(hash, names, y, Statement(T.Start(t, e)));
    var y2 := Next(hash, names, y1, Statement(T.MarkProcessed(t)));
    var y3 := Next(hash, names, y2, Statement(T.TakeLock(t)));
    RunsUnderLock(hash, names, y3, t, e);
    hide Idle;
    LegalStep(hash, names, y2, Statement(T.TakeLock(t)), UnderLock(t));
    var r2 := [Statement(T.TakeLock(t))] + UnderLock(t);
    LegalStep(hash, names, y1, Statement(T.MarkProcessed(t)), r2);
    LegalStep(hash, names, y, Statement(T.Start(t, e)), [Statement(T.MarkProcessed(t))] + r2);
  }

  /** A tombstone is picked, raised, removed as it then is, and an older update shows the product. */
  function RaisedRun(p: ProductId, h: Time, d0: Event, d1: Event, u: Event): seq<Step> {
    Whole(0, d0) + ([Pick(h, {p})] + (Whole(1, d1) + ([Remove(p)] + Whole(2, u))))
  }

  lemma PicksAlone(hash: T.Hash, names: Naming, p: ProductId, h: Time, y: System)
    requires Idle(y) && p in y.s.db.tombstones && y.s.db.tombstones[p] < h && y.picked == map[]
    ensures Enabled(hash, names, y, Pick(h, {p})) && Timely(y, Pick(h, {p}))
    ensures var z := Next(hash, names, y, Pick(h, {p}));
            Idle(z) && z.s == y.s && z.picked == map[p := h] && z.horizon == y.horizon
  {}

  lemma RemovesAlone(hash: T.Hash, names: Naming, p: ProductId, h: Time, y: System)
    requires Idle(y) && y.picked == map[p := h] && y.horizon == None && y.s.db.tombstones.Keys == {p}
    ensures Enabled(hash, names, y, Remove(p)) && Timely(y, Remove(p))
    ensures var z := Next(hash, names, y, Remove(p));
            && Idle(z) && z.s == y.s.(db := y.s.db.(tombstones := map[])) && z.horizon == Some(h)
  {}

  predicate RaisedEvents(names: Naming, p: ProductId, h: Time, d0: Event, d1: Event, u: Event) {
    && d0.Delete? && d1.Delete? && u.Upsert? && d0.Product() == p && d1.Product() == p && u.Product() == p
    && d0.eventId != d1.eventId && d0.eventId != u.eventId && d1.eventId != u.eventId
    && names(d0.eventId) == d0 && names(d1.eventId) == d1 && names(u.eventId) == u
    && d0.Stamp() < h <= u.Stamp() <= d1.Stamp()
  }

  /** What the tables hold at each point of that run, and at its end with no sweep. */
  lemma RaisedTables(names: Naming, p: ProductId, h: Time, d0: Event, d1: Event, u: Event)
    requires RaisedEvents(names, p, h, d0, d1, u)
    ensures var a := Apply(EMPTY_INDEX, d0);
            && a == IndexState({d0.eventId}, map[p := d0.Stamp()], map[])
            && var b := Apply(a, d1);
            && b == IndexState({d0.eventId, d1.eventId}, map[p := d1.Stamp()], map[])
            && p in Apply(b.(tombstones := map[]), u).rows && p !in Apply(b, u).rows
    ensures Run([d0] + [d1] + [u]) == Apply(Apply(Apply(EMPTY_INDEX, d0), d1), u)
  {
    RunSnoc(EMPTY_INDEX, [d0] + [d1], u);
    RunSnoc(EMPTY_INDEX, [d0], d1);
    RunSnoc(EMPTY_INDEX, [], d0);
    assert [] + [d0] == [d0];
  }

  ghost predicate Exposed(hash: T.Hash, names: Naming, steps: seq<Step>, p: ProductId, es: seq<Event>) {
    && Legal(hash, names, Opening(), steps) && AllTimely(hash, names, Opening(), steps)
    && var z := Execute(hash, names, Opening(), steps);
    && T.Events(z.s.log) == es && p in z.s.db.rows && p !in Run(es).rows
  }

  /** The part of that run from the second deletion on. */
  lemma RaisedRest(hash: T.Hash, names: Naming, p: ProductId, h: Time, d1: Event, u: Event, y: System)
    requires Idle(y) && y.picked == map[p := h] && y.horizon == None && 1 !in y.s.txs && 2 !in y.s.txs
    requires d1.Delete? && names(d1.eventId) == d1 && d1.eventId !in y.s.db.processed
    requires u.Upsert? && names(u.eventId) == u && h <= u.Stamp()
    requires Apply(y.s.db, d1).tombstones.Keys == {p} && u.eventId !in Apply(y.s.db, d1).processed
    ensures var rest := Whole(1, d1) + ([Remove(p)] + Whole(2, u));
            && Legal(hash, names, y, rest) && AllTimely(hash, names, y, rest)
            && var z := Execute(hash, names, y, rest);
            && z.s.db == Apply(Apply(y.s.db, d1).(tombstones := map[]), u)
            && T.Events(z.s.log) == T.Events(y.s.log) + [d1] + [u]
  {
    hide Apply, T.Events, Legal, AllTimely, Execute, Next, Enabled, Timely, Whole, Idle;
    RunsAlone(hash, names, y, 1, d1);
    var y1 := Execute(hash, names, y, Whole(1, d1));
    RemovesAlone(hash, names, p, h, y1);
    var y2 := Next(hash, names, y1, Remove(p));
    RunsAlone(hash, names, y2, 2, u);
    LegalStep(hash, names, y1, Remove(p), Whole(2, u));
    LegalAppend(hash, names, y, Whole(1, d1), [Remove(p)] + Whole(2, u));
  }

  /** Being timely is not enough.  The sweep deletes by product id alone, so it removes a tombstone raised
      since it was picked: from an empty index each such run ends with a deleted product on show. */
  lemma RaisedTombstoneExposes(hash: T.Hash, names: Naming, p: ProductId, h: Time, d0: Event, d1: Event, u: Event)
    requires RaisedEvents(names, p, h, d0, d1, u)
    ensures Exposed(hash, names, RaisedRun(p, h, d0, d1, u), p, [d0] + [d1] + [u])
  {
    var y0 := Opening();
    assert Idle(y0) && T.Events(y0.s.log) == [] && [] + [d0] == [d0];
    RaisedTables(names, p, h, d0, d1, u);
    hide Apply, Run, T.Events, Legal, AllTimely, Execute, Next, Enabled, Timely, Whole, Idle;
    RunsAlone(hash, names, y0, 0, d0);
    var y1 := Execute(hash, names, y0, Whole(0, d0));
    PicksAlone(hash, names, p, h, y1);
    var y2 := Next(hash, names, y1, Pick(h, {p}));
    RaisedRest(hash, names, p, h, d1, u, y2);
    var rest := Whole(1, d1) + ([Remove(p)] + Whole(2, u));
    LegalStep(hash, names, y1, Pick(h, {p}), rest);
    LegalAppend(hash, names, y0, Whole(0, d0), [Pick(h, {p})] + rest);
  }
}
