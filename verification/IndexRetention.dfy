/** Garbage collection of tombstones and ledger rows is invisible, provided no event delivered
    after a sweep is stamped before the sweep's horizon. */
module IndexRetention {
  import opened Wrappers
  import opened ProductEvents
  import opened IndexConvergence

  /** A delivery, or a sweep that drops some tombstones older than `horizon` and some ledger rows.
      The cap and the oldest-first order only narrow which rows go, so any subset is allowed here. */
  datatype Op =
    | Deliver(event: Event)
    | Sweep(horizon: Time, tombstones: set<ProductId>, ledger: set<EventId>)

  function Swept(s: IndexState, tombstones: set<ProductId>, ledger: set<EventId>): IndexState {
    s.(tombstones := s.tombstones - tombstones, processed := s.processed - ledger)
  }

  function RunOps(ops: seq<Op>): IndexState {
    if ops == [] then EMPTY_INDEX
    else
      var s := RunOps(ops[..|ops| - 1]);
      match ops[|ops| - 1]
      case Deliver(e) => Apply(s, e)
      case Sweep(_, tombstones, ledger) => Swept(s, tombstones, ledger)
  }

  /** Sweeps only delete tombstones that are older than their horizon. */
  ghost predicate SweepsExpired(ops: seq<Op>) {
    forall i :: 0 <= i < |ops| && ops[i].Sweep? ==>
                  forall p :: p in ops[i].tombstones && p in RunOps(ops[..i]).tombstones ==>
                                RunOps(ops[..i]).tombstones[p] < ops[i].horizon
  }

  /** Whatever is delivered after a sweep is stamped no earlier than its horizon. */
  ghost predicate Timely(ops: seq<Op>) {
    forall i, j :: 0 <= i < j < |ops| && ops[i].Sweep? && ops[j].Deliver? ==>
                     ops[i].horizon <= ops[j].event.Stamp()
  }

  function Deliveries(ops: seq<Op>): seq<Event> {
    if ops == [] then []
    else
      var last := ops[|ops| - 1];
      Deliveries(ops[..|ops| - 1]) + if last.Deliver? then [last.event] else []
  }

  /** The greatest horizon swept so far. */
  function Horizon(ops: seq<Op>): (h: Option<Time>) {
    if ops == [] then None
    else
      var h, last := Horizon(ops[..|ops| - 1]), ops[|ops| - 1];
      if last.Sweep? && (h.None? || h.value < last.horizon) then Some(last.horizon) else h
  }

  /** As TablesMatch, but the tombstone of a hidden product may be gone once it is older than `h`. */
  ghost predicate SweptMatch(s: IndexState, es: seq<Event>, p: ProductId, h: Option<Time>) {
    var u, d := TopUpsert(es, p), LastDelete(es, p);
    if Visible(es, p) then
      && p in s.rows && s.rows[p] == es[u.value].doc
      && (p in s.tombstones ==> d.Some? && s.tombstones[p] <= d.value)
    else
      && p !in s.rows
      && (if p in s.tombstones then d == Some(s.tombstones[p])
          else d.Some? ==> h.Some? && d.value < h.value)
  }

  lemma FirstDeliveryKeepsMatch(s: IndexState, es: seq<Event>, e: Event, p: ProductId, h: Option<Time>)
    requires SweptMatch(s, es, p, h) && e.eventId !in s.processed
    requires h.Some? ==> h.value <= e.Stamp()
    ensures SweptMatch(Apply(s, e), es + [e], p, h)
  {}

  /** An event whose ledger row was swept is applied again, to no effect. */
  lemma RedeliveryKeepsMatch(s: IndexState, es: seq<Event>, e: Event, p: ProductId, h: Option<Time>)
    requires SweptMatch(s, es, p, h) && e in es && e.eventId !in s.processed
    requires h.Some? ==> h.value <= e.Stamp()
    ensures SweptMatch(Apply(s, e), es, p, h)
  {
    LastDeleteBounds(es, p);
    TopUpsertBounds(es, p);
  }

  lemma {:induction false} HorizonBounds(ops: seq<Op>, t: Time)
    requires forall i :: 0 <= i < |ops| && ops[i].Sweep? ==> ops[i].horizon <= t
    ensures Horizon(ops).Some? ==> Horizon(ops).value <= t
  {
    if ops != [] {
      HorizonBounds(ops[..|ops| - 1], t);
    }
  }

  lemma DedupSnoc(es: seq<Event>, e: Event)
    ensures Dedup(es + [e]) == if e.eventId in Ids(es) then Dedup(es) else Dedup(es) + [e]
    ensures WellIdentified(es + [e]) && e.eventId in Ids(es) ==> e in Dedup(es)
    ensures Ids(es + [e]) == Ids(es) + {e.eventId}
  {}

  lemma DeliveryKeepsMatch(s: IndexState, es: seq<Event>, e: Event, p: ProductId, h: Option<Time>)
    requires WellIdentified(es + [e])
    requires SweptMatch(s, Dedup(es), p, h) && s.processed <= Ids(es)
    requires h.Some? ==> h.value <= e.Stamp()
    ensures SweptMatch(Apply(s, e), Dedup(es + [e]), p, h)
    ensures Apply(s, e).processed <= Ids(es + [e])
  {
    DedupSnoc(es, e);
    if e.eventId !in Ids(es) {
      FirstDeliveryKeepsMatch(s, Dedup(es), e, p, h);
    } else if e.eventId !in s.processed {
      RedeliveryKeepsMatch(s, Dedup(es), e, p, h);
    }
  }

  lemma {:induction false} SweptRunMatches(ops: seq<Op>, p: ProductId)
    requires SweepsExpired(ops) && Timely(ops) && WellIdentified(Deliveries(ops))
    ensures SweptMatch(RunOps(ops), Dedup(Deliveries(ops)), p, Horizon(ops))
    ensures RunOps(ops).processed <= Ids(Deliveries(ops))
  {
    if ops != [] {
      var init, last := ops[..|ops| - 1], ops[|ops| - 1];
      var es := Deliveries(init);
      assert forall i :: 0 <= i < |init| ==> init[..i] == ops[..i];
      assert forall e :: e in es ==> e in Deliveries(ops);
      SweptRunMatches(init, p);
      if last.Deliver? {
        HorizonBounds(init, last.event.Stamp());
        DeliveryKeepsMatch(RunOps(init), es, last.event, p, Horizon(init));
      } else {
        assert Deliveries(ops) == es;
      }
    }
  }

  /** MAIN RESULT.  A run with sweeps inserted anywhere shows the same rows as the run without them;
      since it holds of every prefix, it does so at every step. */
  lemma {:induction false} GarbageCollectionInvisible(ops: seq<Op>)
    requires SweepsExpired(ops) && Timely(ops) && WellIdentified(Deliveries(ops))
    ensures RunOps(ops).rows == Run(Deliveries(ops)).rows
  {
    forall p: ProductId ensures Lookup(RunOps(ops).rows, p) == Lookup(Run(Deliveries(ops)).rows, p) {
      SweptRunMatches(ops, p);
      RunMatches(Deliveries(ops), p);
    }
    SameLookups(RunOps(ops).rows, Run(Deliveries(ops)).rows);
  }

  lemma SameLookups<K, V>(m: map<K, V>, n: map<K, V>)
    requires forall k :: Lookup(m, k) == Lookup(n, k)
    ensures m == n
  {
    assert forall k :: k in m <==> Lookup(m, k).Some?;
    assert forall k :: k in n <==> Lookup(n, k).Some?;
    assert forall k :: k in m ==> m[k] == Lookup(m, k).value;
    assert forall k :: k in n ==> n[k] == Lookup(n, k).value;
  }

  /** Exactly which next event exposes a swept tombstone: a late upsert of that product that the
      tombstone would have blocked and that beats the row on show, if any. */
  lemma SweepExposedIff(s: IndexState, p: ProductId, e: Event)
    requires p in s.tombstones
    ensures Apply(Swept(s, {p}, {}), e).rows != Apply(s, e).rows <==>
            && e.eventId !in s.processed
            && e.Upsert? && e.doc.productId == p
            && e.doc.updatedAt <= s.tombstones[p]
            && (p in s.rows ==> s.rows[p].updatedAt < e.doc.updatedAt)
  {}
}
