/** When the drained index is the result of the events outside the dead-letter queue, event by event:
    exactly when an event can end up both applied and dead-lettered. */
module BrokerOutcomes {
  import opened Wrappers
  import opened ProductEvents
  import opened IndexConvergence
  import opened Broker

  /** Copies that can still be delivered. */
  function Live(q: Queues, b: Body): nat {
    CountIn(q.main, b) + CountIn(q.unacked, b) + CountIn(q.retry, b)
  }

  /** Applied and still in a queue; or not applied, with a copy to apply and another to keep. */
  predicate Exposed(s: System, e: Event) {
    if e in s.log then Held(s.q, Product(e)) > 0 else Live(s.q, Product(e)) > 0 && Held(s.q, Product(e)) > 1
  }

  // ---------- What exposes an event ----------

  /** What the history says of an event: an applied one was settled or handled uncleanly, and copies
      come from unclean handlings. */
  ghost predicate Accounted(s: System, e: Event) {
    && Balanced(s, Product(e))
    && (e in s.log ==> s.settled[Product(e)] + s.unclean[Product(e)] > 0)
    && s.copied[Product(e)] <= s.unclean[Product(e)]
  }

  lemma StepKeepsAccount(s: System, step: Step, e: Event)
    requires Accounted(s, e) && Enabled(s, step)
    ensures Accounted(Next(s, step), e)
  {
    hide Held, CountIn;
    StepKeepsBalance(s, step, Product(e));
  }

  lemma {:induction false} RunKeepsAccount(s: System, steps: seq<Step>, e: Event)
    requires Accounted(s, e) && Legal(s, steps)
    ensures Accounted(Execute(s, steps), e)
    decreases |steps|
  {
    if steps != [] {
      StepKeepsAccount(s, steps[0], e);
      RunKeepsAccount(Next(s, steps[0]), steps[1..], e);
    }
  }

  /** MAIN RESULT.  An event published at most once, none of whose own handlings was unclean, is never
      both applied and in a queue, whatever happens to all other messages. */
  lemma OnceAndCleanIsNotExposed(steps: seq<Step>, e: Event)
    requires Legal(START, steps)
    ensures var s := Execute(START, steps);
            s.published[Product(e)] <= 1 && s.unclean[Product(e)] == 0 ==> !Exposed(s, e)
  {
    assert Accounted(START, e);
    RunKeepsAccount(START, steps, e);
  }

  // ---------- An exposed event can end both ways, and no other ----------

  ghost predicate EndsBoth(s: System, e: Event) {
    e in s.log && InDlq(s, Product(e))
  }

  /** From `s` a run can end both ways with `e` neither published again nor handled uncleanly. */
  ghost predicate CanEndBoth(s: System, e: Event) {
    exists more :: Legal(s, more) && Quiet(s, Execute(s, more), e) && EndsBoth(Execute(s, more), e)
  }

  ghost predicate Quiet(s: System, t: System, e: Event) {
    t.published[Product(e)] == s.published[Product(e)] && t.unclean[Product(e)] == s.unclean[Product(e)]
  }

  lemma HistoryGrows(s: System, step: Step, e: Event)
    requires Enabled(s, step)
    ensures s.published[Product(e)] <= Next(s, step).published[Product(e)]
    ensures s.unclean[Product(e)] <= Next(s, step).unclean[Product(e)]
  {}

  lemma {:induction false} HistoryGrowsInRun(s: System, steps: seq<Step>, e: Event)
    requires Legal(s, steps)
    ensures s.published[Product(e)] <= Execute(s, steps).published[Product(e)]
    ensures s.unclean[Product(e)] <= Execute(s, steps).unclean[Product(e)]
    decreases |steps|
  {
    if steps != [] {
      HistoryGrows(s, steps[0], e);
      HistoryGrowsInRun(Next(s, steps[0]), steps[1..], e);
    }
  }

  lemma QuietHandleStaysSafe(s: System, i: nat, db: DbResult, end: End, e: Event)
    requires !Exposed(s, e) && i < |s.q.unacked|
    requires Quiet(s, AfterHandling(s, i, db, end), e)
    ensures !Exposed(AfterHandling(s, i, db, end), e)
  {
    hide CountIn;
    var m, t, b := s.q.unacked[i], AfterHandling(s, i, db, end), Product(e);
    HandleHeld(s.q, i, db, end, b);
    CountRemove(s.q.unacked, i, b);
    if m.body == b {
      assert t.unclean[b] == s.unclean[b] + if Unclean(m, db, end) then 1 else 0;
    } else {
      HandleDlq(s.q, i, db, end, b);
    }
  }

  /** Handling another message leaves the copies of `b` where they are. */
  lemma HandleDlq(q: Queues, i: nat, db: DbResult, end: End, b: Body)
    requires i < |q.unacked| && q.unacked[i].body != b
    ensures CountIn(AfterHandle(q, i, db, end).dlq, b) == CountIn(q.dlq, b)
  {
    hide CountIn;
    var m := q.unacked[i];
    CountAdd(q.dlq, m, b);
  }

  lemma QuietStepStaysSafe(s: System, step: Step, e: Event)
    requires !Exposed(s, e) && Enabled(s, step) && Quiet(s, Next(s, step), e)
    ensures !Exposed(Next(s, step), e)
  {
    hide CountIn;
    var q, b := s.q, Product(e);
    match step
    case Publish(m) =>
      CountAdd(q.main, m, b);
    case Deliver(i) =>
      CountRemove(q.main, i, b);
      CountAdd(q.unacked, q.main[i], b);
    case Handle(i, db, end) =>
      QuietHandleStaysSafe(s, i, db, end, e);
    case ConnectionLost(i) =>
      CountRemove(q.unacked, i, b);
      CountAdd(q.main, q.unacked[i], b);
    case RetryExpires(i) =>
      CountRemove(q.retry, i, b);
      CountAdd(q.main, q.retry[i], b);
    case MainExpires(i) =>
      CountRemove(q.main, i, b);
      CountAdd(q.dlq, q.main[i], b);
  }

  lemma {:induction false} QuietRunStaysSafe(s: System, steps: seq<Step>, e: Event)
    requires !Exposed(s, e) && Legal(s, steps) && Quiet(s, Execute(s, steps), e)
    ensures !Exposed(Execute(s, steps), e)
    decreases |steps|
  {
    hide Exposed;
    if steps != [] {
      HistoryGrows(s, steps[0], e);
      HistoryGrowsInRun(Next(s, steps[0]), steps[1..], e);
      QuietStepStaysSafe(s, steps[0], e);
      QuietRunStaysSafe(Next(s, steps[0]), steps[1..], e);
    }
  }

  lemma InDlqIsCounted(s: System, b: Body)
    ensures InDlq(s, b) <==> CountIn(s.q.dlq, b) > 0
  {
    CountPositive(s.q.dlq, b);
  }

  /** A message of `b` that is in the main queue reaches the dead-letter queue by expiring there. */
  lemma ExpiresFromMain(s: System, i: nat, e: Event)
    requires i < |s.q.main| && s.q.main[i].body == Product(e)
    ensures var t := Next(s, MainExpires(i));
            Legal(s, [MainExpires(i)]) && Execute(s, [MainExpires(i)]) == t
            && InDlq(t, Product(e)) && t.log == s.log && Quiet(s, t, e)
  {
    LegalOne(s, MainExpires(i));
    var t := Next(s, MainExpires(i));
    assert t.q.dlq[|s.q.dlq|] == s.q.main[i];
  }

  /** Any copy can be brought to the dead-letter queue without a handling. */
  lemma ReachesDlq(s: System, e: Event)
    requires Held(s.q, Product(e)) > 0
    ensures exists more :: Legal(s, more) && Quiet(s, Execute(s, more), e)
                           && Execute(s, more).log == s.log && InDlq(Execute(s, more), Product(e))
  {
    hide CountIn;
    var b := Product(e);
    HeldIsInSomeQueue(s.q, b);
    InDlqIsCounted(s, b);
    var m :| (m in s.q.main || m in s.q.unacked || m in s.q.retry || m in s.q.dlq) && m.body == b;
    if m in s.q.dlq {
      assert Legal(s, []) && Execute(s, []) == s && InDlq(s, b);
    } else if m in s.q.main {
      var i :| 0 <= i < |s.q.main| && s.q.main[i] == m;
      ExpiresFromMain(s, i, e);
    } else {
      var step := if m in s.q.unacked then ConnectionLost(Position(s.q.unacked, m))
                  else RetryExpires(Position(s.q.retry, m));
      var t := Next(s, step);
      var i := |s.q.main|;
      assert t.q.main[i] == m;
      ExpiresFromMain(t, i, e);
      LegalStep(s, step, [MainExpires(i)]);
    }
  }

  function Position(q: seq<Message>, m: Message): (i: nat)
    requires m in q
    ensures i < |q| && q[i] == m
  {
    if q[0] == m then 0 else 1 + Position(q[1..], m)
  }

  /** A delivered copy is applied cleanly. */
  lemma AppliesDelivered(s: System, i: nat, e: Event)
    requires i < |s.q.unacked| && s.q.unacked[i].body == Product(e) && Held(s.q, Product(e)) > 1
    ensures var step := Handle(i, Healthy, Finished); var t := Next(s, step);
            && Legal(s, [step]) && Execute(s, [step]) == t
            && e in t.log && Held(t.q, Product(e)) > 0 && Quiet(s, t, e)
  {
    hide Held;
    LegalOne(s, Handle(i, Healthy, Finished));
    HandleHeld(s.q, i, Healthy, Finished, Product(e));
  }

  /** A copy in the main queue is delivered and applied cleanly. */
  lemma AppliesFromMain(s: System, i: nat, e: Event)
    requires i < |s.q.main| && s.q.main[i].body == Product(e) && Held(s.q, Product(e)) > 1
    ensures exists more :: Legal(s, more) && Quiet(s, Execute(s, more), e)
                           && e in Execute(s, more).log && Held(Execute(s, more).q, Product(e)) > 0
  {
    hide CountIn;
    var b, t, j := Product(e), Next(s, Deliver(i)), |s.q.unacked|;
    CountRemove(s.q.main, i, b);
    CountAdd(s.q.unacked, s.q.main[i], b);
    AppliesDelivered(t, j, e);
    LegalStep(s, Deliver(i), [Handle(j, Healthy, Finished)]);
  }

  lemma LiveCanBeApplied(s: System, e: Event)
    requires Live(s.q, Product(e)) > 0 && Held(s.q, Product(e)) > 1
    ensures exists more :: Legal(s, more) && Quiet(s, Execute(s, more), e)
                           && e in Execute(s, more).log && Held(Execute(s, more).q, Product(e)) > 0
  {
    hide CountIn;
    var b := Product(e);
    CountPositive(s.q.main, b);
    CountPositive(s.q.unacked, b);
    CountPositive(s.q.retry, b);
    if m :| m in s.q.unacked && m.body == b {
      AppliesDelivered(s, Position(s.q.unacked, m), e);
    } else if m :| m in s.q.main && m.body == b {
      AppliesFromMain(s, Position(s.q.main, m), e);
    } else {
      var m :| m in s.q.retry && m.body == b;
      var k := Position(s.q.retry, m);
      var t := Next(s, RetryExpires(k));
      CountRemove(s.q.retry, k, b);
      CountAdd(s.q.main, m, b);
      AppliesFromMain(t, |s.q.main|, e);
      var more :| Legal(t, more) && Quiet(t, Execute(t, more), e)
                  && e in Execute(t, more).log && Held(Execute(t, more).q, b) > 0;
      LegalStep(s, RetryExpires(k), more);
    }
  }

  /** MAIN RESULT.  From any state, an event that is neither published again nor handled uncleanly can
      still end up both applied and dead-lettered exactly when it is exposed. */
  lemma CanEndBothIff(s: System, e: Event)
    ensures CanEndBoth(s, e) <==> Exposed(s, e)
  {
    hide CountIn, Legal, Execute;
    if Exposed(s, e) {
      if e in s.log {
        ReachesDlq(s, e);
      } else {
        LiveCanBeApplied(s, e);
        var more :| Legal(s, more) && Quiet(s, Execute(s, more), e)
                    && e in Execute(s, more).log && Held(Execute(s, more).q, Product(e)) > 0;
        var t := Execute(s, more);
        ReachesDlq(t, e);
        var rest :| Legal(t, rest) && Quiet(t, Execute(t, rest), e)
                    && Execute(t, rest).log == t.log && InDlq(Execute(t, rest), Product(e));
        LegalAppend(s, more, rest);
      }
    }
    if CanEndBoth(s, e) {
      var more :| Legal(s, more) && Quiet(s, Execute(s, more), e) && EndsBoth(Execute(s, more), e);
      InDlqIsCounted(Execute(s, more), Product(e));
      if !Exposed(s, e) {
        QuietRunStaysSafe(s, more, e);
      }
    }
  }

  // ---------- The rows of a product ----------

  /** No event about `p` is waiting or in delivery. */
  ghost predicate DrainedOf(s: System, p: ProductId) {
    forall m :: (m in s.q.main || m in s.q.unacked || m in s.q.retry) && m.body.Product? ==> m.body.event.Product() != p
  }

  /** The published events about `p` outside the dead-letter queue. */
  ghost predicate DeliveredOf(s: System, p: ProductId, fs: seq<Event>) {
    forall e: Event :: e in fs <==> e.Product() == p && Product(e) in s.published && !InDlq(s, Product(e))
  }

  /** MAIN RESULT.  Whatever else goes wrong: when the events about a product have ids of their own, none
      of them is waiting and none is exposed, its row is exactly the result of those of its events that
      are not in the dead-letter queue. */
  lemma ProductIndex(steps: seq<Step>, p: ProductId, fs: seq<Event>)
    requires Legal(START, steps)
    requires var s := Execute(START, steps);
             && DrainedOf(s, p) && DeliveredOf(s, p, fs) && TiesAgreeOf(fs, p)
             && (forall e :: Product(e) in s.published && e.Product() == p ==> IdIsOwn(s.published, e) && !Exposed(s, e))
    ensures Lookup(Execute(START, steps).index.rows, p) == Lookup(Run(fs).rows, p)
  {
    var s := Execute(START, steps);
    RunKeepsFaithful(START, steps);
    forall e: Event | e.Product() == p ensures e in s.log <==> e in fs {
      NothingLost(steps, Product(e));
      HeldIsInSomeQueue(s.q, Product(e));
    }
    hide Execute, Legal, Exposed;
    assert IdentifiedOf(fs, p) && IdentifiedOf(s.log, p);
    RowOrderIndependent(fs, s.log, p);
  }

  /** The same from the history alone: events published at most once and never handled uncleanly. */
  lemma OnceAndCleanIndex(steps: seq<Step>, p: ProductId, fs: seq<Event>)
    requires Legal(START, steps)
    requires var s := Execute(START, steps);
             && DrainedOf(s, p) && DeliveredOf(s, p, fs) && TiesAgreeOf(fs, p)
             && (forall e :: Product(e) in s.published && e.Product() == p ==>
                   IdIsOwn(s.published, e) && s.published[Product(e)] == 1 && s.unclean[Product(e)] == 0)
    ensures Lookup(Execute(START, steps).index.rows, p) == Lookup(Run(fs).rows, p)
  {
    var s := Execute(START, steps);
    hide Execute, Legal, Exposed, DrainedOf, DeliveredOf, TiesAgreeOf, IdIsOwn;
    forall e | Product(e) in s.published && e.Product() == p ensures !Exposed(s, e) {
      OnceAndCleanIsNotExposed(steps, e);
    }
    ProductIndex(steps, p, fs);
  }

  /** That none is exposed is also needed: the events applied are exactly those outside the dead-letter
      queue iff none of them is. */
  lemma AppliedAreDeliveredIff(steps: seq<Step>, p: ProductId)
    requires Legal(START, steps)
    requires var s := Execute(START, steps);
             DrainedOf(s, p) && forall e :: Product(e) in s.published && e.Product() == p ==> IdIsOwn(s.published, e)
    ensures var s := Execute(START, steps);
            (forall e: Event :: e.Product() == p ==>
               (e in s.log <==> Product(e) in s.published && !InDlq(s, Product(e))))
            <==> (forall e :: Product(e) in s.published && e.Product() == p ==> !Exposed(s, e))
  {
    var s := Execute(START, steps);
    RunKeepsFaithful(START, steps);
    forall e: Event | e.Product() == p && Product(e) in s.published
      ensures !Exposed(s, e) <==> (e in s.log <==> !InDlq(s, Product(e)))
    {
      NothingLost(steps, Product(e));
      HeldIsInSomeQueue(s.q, Product(e));
      InDlqIsCounted(s, Product(e));
      CountPositive(s.q.main, Product(e));
      CountPositive(s.q.unacked, Product(e));
      CountPositive(s.q.retry, Product(e));
    }
  }

  // ---------- Two runs that end both ways ----------

  /** Delivering and handling the only message in the main queue. */
  lemma HandlesOnly(s: System, m: Message, rest: seq<Message>, db: DbResult, end: End)
    requires s.q.main == [m] + rest && s.q.unacked == []
    ensures var t := AfterHandling(Next(s, Deliver(0)), 0, db, end);
            && Legal(s, [Deliver(0), Handle(0, db, end)]) && Execute(s, [Deliver(0), Handle(0, db, end)]) == t
            && Next(s, Deliver(0)).q == Queues(rest, [m], s.q.retry, s.q.dlq)
            && t.q == AfterHandle(Queues(rest, [m], s.q.retry, s.q.dlq), 0, db, end)
  {
    hide Legal, Execute, AfterHandle;
    var t := Next(s, Deliver(0));
    assert s.q.main[0] == m && Remove(s.q.main, 0) == rest && s.q.unacked + [m] == [m];
    LegalOne(t, Handle(0, db, end));
    LegalStep(s, Deliver(0), [Handle(0, db, end)]);
    assert [Deliver(0)] + [Handle(0, db, end)] == [Deliver(0), Handle(0, db, end)];
  }

  /** Publishing into an idle broker. */
  lemma Publishes(s: System, m: Message)
    ensures Legal(s, [Publish(m)]) && Execute(s, [Publish(m)]) == Next(s, Publish(m))
    ensures s.q.main == [] ==> Next(s, Publish(m)).q.main == [m] + []
    ensures s.q.main == [m] + [] ==> Next(s, Publish(m)).q.main == [m] + [m]
  {
    LegalOne(s, Publish(m));
  }

  /** The last message of `e` expires: it is dead-lettered and nothing is left. */
  lemma LastExpires(s: System, e: Event, m: Message)
    requires s.q.main == [m] && s.q.unacked == [] && s.q.retry == [] && m.body == Product(e) && e in s.log
    ensures Legal(s, [MainExpires(0)])
    ensures var t := Execute(s, [MainExpires(0)]);
            && Drained(t) && EndsBoth(t, e) && t.index == s.index
            && t.published == s.published && t.unclean == s.unclean
  {
    LegalOne(s, MainExpires(0));
    var t := Next(s, MainExpires(0));
    assert t.q.dlq[|s.q.dlq|] == m;
  }

  /** A lost connection: it dies after the commit, and the redelivery outlives the main queue's TTL. */
  lemma LostAckEndsBoth(e: Event)
    requires e.Upsert?
    ensures exists steps :: Legal(START, steps)
                            && var s := Execute(START, steps);
                            && Drained(s) && s.published[Product(e)] == 1 && EndsBoth(s, e)
                            && Lookup(s.index.rows, e.Product()) == Some(e.doc)
  {
    var m := Message(Product(e), NoCount);
    Publishes(START, m);
    var s1 := Next(START, Publish(m));
    HandlesOnly(s1, m, [], Healthy, LostBeforePublish);
    var handle := [Deliver(0), Handle(0, Healthy, LostBeforePublish)];
    var s2 := Execute(s1, handle);
    assert s2.q.main == [m] && s2.q.unacked == [] && s2.log == [e] && s2.index == Apply(EMPTY_INDEX, e);
    LastExpires(s2, e, m);
    hide Legal, Execute;
    LegalAppend(s1, handle, [MainExpires(0)]);
    LegalAppend(START, [Publish(m)], handle + [MainExpires(0)]);
  }

  /** A second publication: the first copy is applied and acked, the other expires.  No handling fails. */
  lemma RepublicationEndsBoth(e: Event)
    requires e.Upsert?
    ensures exists steps :: Legal(START, steps)
                            && var s := Execute(START, steps);
                            && Drained(s) && s.unclean[Product(e)] == 0 && EndsBoth(s, e)
                            && Lookup(s.index.rows, e.Product()) == Some(e.doc)
  {
    var m := Message(Product(e), NoCount);
    Publishes(START, m);
    var s1 := Next(START, Publish(m));
    Publishes(s1, m);
    var s2 := Next(s1, Publish(m));
    HandlesOnly(s2, m, [m], Healthy, Finished);
    var handle := [Deliver(0), Handle(0, Healthy, Finished)];
    var s3 := Execute(s2, handle);
    assert s3.q.main == [m] && s3.q.unacked == [] && s3.log == [e] && s3.index == Apply(EMPTY_INDEX, e);
    LastExpires(s3, e, m);
    hide Legal, Execute;
    LegalAppend(s2, handle, [MainExpires(0)]);
    LegalAppend(s1, [Publish(m)], handle + [MainExpires(0)]);
    LegalAppend(START, [Publish(m)], [Publish(m)] + (handle + [MainExpires(0)]));
  }
}
