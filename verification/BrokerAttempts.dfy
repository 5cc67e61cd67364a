/** The bound on store calls is attained: for every number of publications, requeues and leftover copies
    that a run can have there is a run that makes as many calls as the bound allows. */
module BrokerAttempts {
  import opened ProductEvents
  import opened Broker

  predicate LosesConnection(step: Step) {
    step.ConnectionLost? || (step.Handle? && (step.end.LostBeforePublish? || step.end.LostBeforeAck?))
  }

  ghost predicate KeepsConnection(steps: seq<Step>) {
    forall i :: 0 <= i < |steps| ==> !LosesConnection(steps[i])
  }

  ghost predicate PublishesPlain(steps: seq<Step>) {
    forall i :: 0 <= i < |steps| && steps[i].Publish? ==> steps[i].m.header == NoCount
  }

  ghost predicate NoPublish(steps: seq<Step>) {
    forall i :: 0 <= i < |steps| ==> !steps[i].Publish?
  }

  lemma InPieces(a: seq<Step>, b: seq<Step>)
    ensures KeepsConnection(a) && KeepsConnection(b) ==> KeepsConnection(a + b)
    ensures PublishesPlain(a) && PublishesPlain(b) ==> PublishesPlain(a + b)
    ensures NoPublish(a) && NoPublish(b) ==> NoPublish(a + b)
    ensures NoPublish(a) ==> PublishesPlain(a)
  {}

  /** What each leftover copy costs a connection it also costs a requeue. */
  lemma {:induction false} CopiesWithinRequeues(s: System, steps: seq<Step>, e: Event)
    requires Legal(s, steps) && s.copied[Product(e)] <= s.requeued[e]
    ensures Execute(s, steps).copied[Product(e)] <= Execute(s, steps).requeued[e]
    decreases |steps|
  {
    if steps != [] {
      CopiesWithinRequeues(Next(s, steps[0]), steps[1..], e);
    }
  }

  /** Only messages of `e`, with counters a retry can leave, and nothing in delivery. */
  ghost predicate OnlyOf(s: System, e: Event) {
    && s.q.unacked == []
    && (forall m :: m in s.q.main || m in s.q.retry ==> m.body == Product(e) && 0 <= RetryCount(m.header) <= MAX_RETRIES)
  }

  /** The history counts that matter here. */
  ghost predicate SameCounts(s: System, t: System, e: Event) {
    t.published[Product(e)] == s.published[Product(e)] && t.requeued[e] == s.requeued[e]
    && t.copied[Product(e)] == s.copied[Product(e)]
  }

  /** Deliver the first message and let its call fail. */
  function FirstFailing(end: End): seq<Step> {
    [Deliver(0), Handle(0, RolledBack, end)]
  }

  lemma FirstFailingIsQuiet(end: End)
    ensures NoPublish(FirstFailing(end))
    ensures end.Finished? || end.PublishFailed? ==> KeepsConnection(FirstFailing(end))
  {}

  lemma FirstFails(s: System, e: Event, end: End)
    requires OnlyOf(s, e) && s.q.main != []
    ensures var steps := FirstFailing(end);
            var m := s.q.main[0];
            && Legal(s, steps)
            && Execute(s, steps) == AfterHandling(Next(s, Deliver(0)), 0, RolledBack, end)
            && Next(s, Deliver(0)).q == Queues(s.q.main[1..], [m], s.q.retry, s.q.dlq)
            && Remove([m], 0) == []
  {
    hide Legal, Execute, AfterHandling;
    var t := Next(s, Deliver(0));
    assert s.q.unacked + [s.q.main[0]] == [s.q.main[0]] && Remove(s.q.main, 0) == s.q.main[1..];
    LegalOne(t, Handle(0, RolledBack, end));
    LegalStep(s, Deliver(0), [Handle(0, RolledBack, end)]);
    assert [Deliver(0)] + [Handle(0, RolledBack, end)] == [Deliver(0), Handle(0, RolledBack, end)];
  }

  /** A failing call handled in full uses up exactly one of the calls still owed. */
  lemma FailureUsesOne(s: System, e: Event)
    requires OnlyOf(s, e) && s.q.main != []
    ensures var t := Execute(s, FirstFailing(Finished));
            && Legal(s, FirstFailing(Finished))
            && OnlyOf(t, e) && SameCounts(s, t, e)
            && t.attempts[e] == s.attempts[e] + 1 && TotalLoad(t.q, e) == TotalLoad(s.q, e) - 1
  {
    hide Legal, Execute, Load;
    FirstFails(s, e, Finished);
    var m := s.q.main[0];
    assert m in s.q.main;
    LoadRemove(s.q.main, 0, e);
    assert Remove(s.q.main, 0) == s.q.main[1..];
    var v := VerdictOf(m, RolledBack);
    if v.ToRetry? {
      LoadAdd(s.q.retry, v.copy, e);
    }
  }

  /** Everything still owed can be called for. */
  lemma {:induction false} UseUp(s: System, e: Event)
    requires OnlyOf(s, e)
    ensures exists steps ::
      && Legal(s, steps) && NoPublish(steps) && KeepsConnection(steps)
      && SameCounts(s, Execute(s, steps), e)
      && Execute(s, steps).attempts[e] == s.attempts[e] + TotalLoad(s.q, e)
    decreases TotalLoad(s.q, e), |s.q.retry|, 0
  {
    hide Legal, Execute, Load;
    if s.q.main != [] {
      var first := FirstFailing(Finished);
      FailureUsesOne(s, e);
      FirstFailingIsQuiet(Finished);
      UseUpAfter(s, first, e);
    } else if s.q.retry != [] {
      LegalOne(s, RetryExpires(0));
      var t := Next(s, RetryExpires(0));
      LoadRemove(s.q.retry, 0, e);
      LoadAdd(s.q.main, s.q.retry[0], e);
      assert s.q.retry[0] in s.q.retry;
      UseUpAfter(s, [RetryExpires(0)], e);
    } else {
      NothingOwed(s, e);
    }
  }

  lemma NothingOwed(s: System, e: Event)
    requires s.q.main == [] && s.q.unacked == [] && s.q.retry == []
    ensures TotalLoad(s.q, e) == 0 && Legal(s, []) && Execute(s, []) == s
  {}

  lemma {:induction false} UseUpAfter(s: System, first: seq<Step>, e: Event)
    requires OnlyOf(s, e) && Legal(s, first) && NoPublish(first) && KeepsConnection(first)
    requires var t := Execute(s, first);
             && OnlyOf(t, e) && SameCounts(s, t, e)
             && t.attempts[e] + TotalLoad(t.q, e) == s.attempts[e] + TotalLoad(s.q, e)
             && (TotalLoad(t.q, e) < TotalLoad(s.q, e)
                 || (TotalLoad(t.q, e) == TotalLoad(s.q, e) && |t.q.retry| < |s.q.retry|))
    ensures exists steps ::
      && Legal(s, steps) && NoPublish(steps) && KeepsConnection(steps)
      && SameCounts(s, Execute(s, steps), e)
      && Execute(s, steps).attempts[e] == s.attempts[e] + TotalLoad(s.q, e)
    decreases TotalLoad(Execute(s, first).q, e), |Execute(s, first).q.retry|, 1
  {
    hide Legal, Execute, Load, OnlyOf;
    var t := Execute(s, first);
    UseUp(t, e);
    var rest :| Legal(t, rest) && NoPublish(rest) && KeepsConnection(rest)
                && SameCounts(t, Execute(t, rest), e) && Execute(t, rest).attempts[e] == t.attempts[e] + TotalLoad(t.q, e);
    LegalAppend(s, first, rest);
    var steps := first + rest;
    assert NoPublish(steps) && KeepsConnection(steps);
  }

  // ---------- Runs that cost as much as they can ----------

  /** `p` messages as published in the main queue. */
  ghost predicate Fresh(s: System, e: Event, p: nat) {
    OnlyOf(s, e) && |s.q.main| == p && forall m :: m in s.q.main ==> m == Message(Product(e), NoCount)
  }

  /** The counts after a run, against those before it. */
  ghost predicate Costs(s: System, t: System, e: Event, published: nat, requeued: nat, copied: nat, attempts: nat) {
    && t.published[Product(e)] == s.published[Product(e)] + published
    && t.requeued[e] == s.requeued[e] + requeued
    && t.copied[Product(e)] == s.copied[Product(e)] + copied
    && t.attempts[e] == s.attempts[e] + attempts
  }

  lemma PublishOne(s: System, e: Event, p: nat)
    requires Fresh(s, e, p)
    ensures var t := Next(s, Publish(Message(Product(e), NoCount)));
            Fresh(t, e, p + 1) && Costs(s, t, e, 1, 0, 0, 0) && TotalLoad(t.q, e) == TotalLoad(s.q, e) + MAX_RETRIES + 1
  {
    hide Load;
    LoadAdd(s.q.main, Message(Product(e), NoCount), e);
  }

  /** A run from the start to `p` messages, with the given step last. */
  ghost predicate Published(steps: seq<Step>, e: Event, p: nat) {
    && Legal(START, steps) && PublishesPlain(steps) && KeepsConnection(steps)
    && Fresh(Execute(START, steps), e, p) && Costs(START, Execute(START, steps), e, p, 0, 0, 0)
    && TotalLoad(Execute(START, steps).q, e) == (MAX_RETRIES + 1) * p
  }

  lemma PublishAfter(steps: seq<Step>, e: Event, p: nat)
    requires Published(steps, e, p)
    ensures Published(steps + [Publish(Message(Product(e), NoCount))], e, p + 1)
  {
    hide Legal, Execute, Load, Fresh, Next, KeepsConnection, PublishesPlain, NoPublish;
    var s, publish := Execute(START, steps), Publish(Message(Product(e), NoCount));
    PublishOne(s, e, p);
    LegalOne(s, publish);
    LegalAppend(START, steps, [publish]);
    assert PublishesPlain([publish]) && KeepsConnection([publish]) by { PublishIsPlain(publish); }
    InPieces(steps, [publish]);
  }

  lemma PublishIsPlain(step: Step)
    requires step.Publish? && step.m.header == NoCount
    ensures PublishesPlain([step]) && KeepsConnection([step])
  {}

  lemma {:induction false} Publications(e: Event, p: nat)
    ensures exists steps :: Published(steps, e, p)
  {
    if p == 0 {
      NothingOwed(START, e);
      assert Published([], e, 0);
    } else {
      hide Published;
      Publications(e, p - 1);
      var steps :| Published(steps, e, p - 1);
      PublishAfter(steps, e, p - 1);
    }
  }

  /** The queues after the first message's call failed and it came back, with or without a copy. */
  lemma RoundQueues(m: Message, main: seq<Message>, retry: seq<Message>, dlq: seq<Message>, end: End)
    requires m.body.Product? && m.header == NoCount && (end.PublishFailed? || end.LostBeforeAck?)
    ensures AfterHandle(Queues(main, [m], retry, dlq), 0, RolledBack, end)
            == Queues(main + [m], [], if end.LostBeforeAck? then retry + [m.(header := Count(1))] else retry, dlq)
  {}

  lemma RoundCosts(s: System, e: Event, end: End)
    requires s.q.unacked == [Message(Product(e), NoCount)] && (end.PublishFailed? || end.LostBeforeAck?)
    ensures Costs(s, AfterHandling(s, 0, RolledBack, end), e, 0, 1, if end.LostBeforeAck? then 1 else 0, 1)
    ensures AfterHandling(s, 0, RolledBack, end).q == AfterHandle(s.q, 0, RolledBack, end)
  {
    hide AfterHandle;
    assert VerdictOf(s.q.unacked[0], RolledBack) == ToRetry(Message(Product(e), Count(1)));
  }

  /** One more requeue, and with a lost ack one more copy, worth three calls. */
  lemma Round(s: System, e: Event, p: nat, end: End)
    requires Fresh(s, e, p) && p > 0 && (end.PublishFailed? || end.LostBeforeAck?)
    ensures var steps := FirstFailing(end); var copies := if end.LostBeforeAck? then 1 else 0;
            && Legal(s, steps)
            && Fresh(Execute(s, steps), e, p) && Costs(s, Execute(s, steps), e, 0, 1, copies, 1)
            && TotalLoad(Execute(s, steps).q, e) == TotalLoad(s.q, e) + MAX_RETRIES * copies
  {
    hide Legal, Execute, Load, AfterHandle;
    FirstFails(s, e, end);
    var m := s.q.main[0];
    assert m == Message(Product(e), NoCount) && s.q.main != [] && s.q.unacked == [] by { assert m in s.q.main; }
    assert Costs(s, Next(s, Deliver(0)), e, 0, 0, 0, 0);
    hide Fresh, Next;
    RoundQueues(m, s.q.main[1..], s.q.retry, s.q.dlq, end);
    var copy := m.(header := Count(1));
    var t := Execute(s, FirstFailing(end));
    RoundCosts(Next(s, Deliver(0)), e, end);
    hide AfterHandling, VerdictOf, FirstFailing;
    assert t.q.main == s.q.main[1..] + [m] && t.q.unacked == [];
    assert t.q.retry == if end.LostBeforeAck? then s.q.retry + [copy] else s.q.retry;
    RoundFresh(s, t, e, p, end);
    RoundLoad(s, t, e, end);
  }

  lemma RoundFresh(s: System, t: System, e: Event, p: nat, end: End)
    requires Fresh(s, e, p) && p > 0
    requires t.q.main == s.q.main[1..] + [s.q.main[0]] && t.q.unacked == []
    requires t.q.retry == if end.LostBeforeAck? then s.q.retry + [Message(Product(e), Count(1))] else s.q.retry
    ensures Fresh(t, e, p)
  {
    assert s.q.main[0] in s.q.main;
    assert forall n :: n in t.q.main ==> n in s.q.main;
  }

  lemma RoundLoad(s: System, t: System, e: Event, end: End)
    requires s.q.main != [] && s.q.unacked == [] && s.q.main[0] == Message(Product(e), NoCount)
    requires t.q.main == s.q.main[1..] + [s.q.main[0]] && t.q.unacked == []
    requires t.q.retry == if end.LostBeforeAck? then s.q.retry + [Message(Product(e), Count(1))] else s.q.retry
    ensures TotalLoad(t.q, e) == TotalLoad(s.q, e) + if end.LostBeforeAck? then MAX_RETRIES else 0
  {
    hide Load;
    LoadRemove(s.q.main, 0, e);
    assert Remove(s.q.main, 0) == s.q.main[1..];
    LoadAdd(s.q.main[1..], s.q.main[0], e);
    LoadAdd(s.q.retry, Message(Product(e), Count(1)), e);
  }

  /** A run of `n` such rounds. */
  ghost predicate Cycled(s: System, steps: seq<Step>, e: Event, p: nat, end: End, n: nat) {
    var copies := if end.LostBeforeAck? then n else 0;
    && Legal(s, steps) && NoPublish(steps) && (end.PublishFailed? || n == 0 ==> KeepsConnection(steps))
    && Fresh(Execute(s, steps), e, p) && Costs(s, Execute(s, steps), e, 0, n, copies, n)
    && TotalLoad(Execute(s, steps).q, e) == TotalLoad(s.q, e) + MAX_RETRIES * copies
  }

  lemma RoundBefore(s: System, e: Event, p: nat, end: End, rest: seq<Step>, n: nat)
    requires Fresh(s, e, p) && p > 0 && (end.PublishFailed? || end.LostBeforeAck?)
    requires var first := FirstFailing(end);
             Legal(s, first) && Cycled(Execute(s, first), rest, e, p, end, n)
    ensures Cycled(s, FirstFailing(end) + rest, e, p, end, n + 1)
  {
    hide Legal, Execute, Load, Fresh, KeepsConnection, PublishesPlain, NoPublish, FirstFailing, TotalLoad;
    var first := FirstFailing(end);
    FirstFailingIsQuiet(end);
    Round(s, e, p, end);
    LegalAppend(s, first, rest);
    InPieces(first, rest);
  }

  lemma NoRounds(s: System, e: Event, p: nat, end: End)
    requires Fresh(s, e, p)
    ensures Cycled(s, [], e, p, end, 0)
  {
    assert Legal(s, []) && Execute(s, []) == s;
  }

  lemma {:induction false} Rounds(s: System, e: Event, p: nat, end: End, n: nat)
    requires Fresh(s, e, p) && p > 0 && (end.PublishFailed? || end.LostBeforeAck?)
    ensures exists steps :: Cycled(s, steps, e, p, end, n)
    decreases n
  {
    hide *;
    if n == 0 {
      NoRounds(s, e, p, end);
    } else {
      var first := FirstFailing(end);
      Round(s, e, p, end);
      Rounds(Execute(s, first), e, p, end, n - 1);
      var rest :| Cycled(Execute(s, first), rest, e, p, end, n - 1);
      RoundBefore(s, e, p, end, rest, n - 1);
      assert Cycled(s, first + rest, e, p, end, n);
    }
  }

  /** MAIN RESULT.  The bound of AttemptsBounded is attained by every history that can occur: with at
      least one publication, any number of requeues and any number of copies up to that (there are never
      more).  Without copies no connection is lost: failed publishes alone buy any number of calls. */
  lemma BoundIsAttained(e: Event, published: nat, requeued: nat, copied: nat)
    requires published > 0 && copied <= requeued
    ensures exists steps ::
      && Legal(START, steps) && PublishesPlain(steps) && (copied == 0 ==> KeepsConnection(steps))
      && Costs(START, Execute(START, steps), e, published, requeued, copied,
               4 * published + requeued + 3 * copied)
  {
    hide Legal, Execute, Load, Fresh, KeepsConnection, PublishesPlain, NoPublish;
    Publications(e, published);
    var a :| Published(a, e, published);
    var s1 := Execute(START, a);
    Rounds(s1, e, published, LostBeforeAck, copied);
    var b :| Cycled(s1, b, e, published, LostBeforeAck, copied);
    var s2 := Execute(s1, b);
    Rounds(s2, e, published, PublishFailed, requeued - copied);
    var c :| Cycled(s2, c, e, published, PublishFailed, requeued - copied);
    var s3 := Execute(s2, c);
    assert OnlyOf(s3, e) by { FreshIsOnlyOf(s3, e, published); }
    UseUp(s3, e);
    var d :| && Legal(s3, d) && NoPublish(d) && KeepsConnection(d) && SameCounts(s3, Execute(s3, d), e)
             && Execute(s3, d).attempts[e] == s3.attempts[e] + TotalLoad(s3.q, e);
    LegalAppend(s2, c, d);
    LegalAppend(s1, b, c + d);
    LegalAppend(START, a, b + (c + d));
    InPieces(c, d);
    InPieces(b, c + d);
    InPieces(b + (c + d), []);
    InPieces(a, b + (c + d));
    assert Legal(START, a + (b + (c + d)));
  }

  lemma FreshIsOnlyOf(s: System, e: Event, p: nat)
    requires Fresh(s, e, p)
    ensures OnlyOf(s, e)
  {}

  // ---------- Never dead-lettered early ----------

  /** Counts are from zero to three and no higher than the store calls made; what is dead-lettered has had
      four. */
  ghost predicate Counted(s: System, e: Event) {
    && (forall m :: InLive(s.q, m) && m.body == Product(e) ==>
          m.header.NoCount? || (m.header.Count? && 0 <= m.header.n <= 3 && m.header.n <= s.attempts[e]))
    && (forall m :: m in s.q.dlq && m.body == Product(e) ==> 4 <= s.attempts[e])
  }

  predicate InLive(q: Queues, m: Message) {
    m in q.main || m in q.unacked || m in q.retry
  }

  /** A handling adds nothing but a retry copy, and dead-letters nothing but its message. */
  lemma HandleMembers(q: Queues, i: nat, db: DbResult, end: End)
    requires i < |q.unacked|
    ensures var m, t := q.unacked[i], AfterHandle(q, i, db, end);
            var v := VerdictOf(m, db);
            && (forall x :: InLive(t, x) ==> InLive(q, x) || (v.ToRetry? && x == v.copy))
            && (forall x :: x in t.dlq ==> x in q.dlq || (v.ToDlq? && x == m))
  {
    hide VerdictOf;
  }

  lemma HandleKeepsCounted(s: System, i: nat, db: DbResult, end: End, e: Event)
    requires Counted(s, e) && i < |s.q.unacked|
    ensures Counted(AfterHandling(s, i, db, end), e)
  {
    var m := s.q.unacked[i];
    assert InLive(s.q, m);
    VerdictTells(m, db);
    HandleMembers(s.q, i, db, end);
    var t := AfterHandling(s, i, db, end);
    assert t.q == AfterHandle(s.q, i, db, end);
    hide VerdictOf, AfterHandle, InLive;
    assert t.attempts[e] == s.attempts[e] + if m.body == Product(e) then 1 else 0;
  }

  lemma StepKeepsCounted(s: System, step: Step, e: Event)
    requires Counted(s, e) && Enabled(s, step)
    requires !step.MainExpires? && (step.Publish? ==> step.m.header == NoCount)
    ensures Counted(Next(s, step), e)
  {
    if step.Handle? {
      HandleKeepsCounted(s, step.i, step.db, step.end, e);
    }
  }

  lemma {:induction false} RunKeepsCounted(s: System, steps: seq<Step>, e: Event)
    requires Counted(s, e) && Legal(s, steps) && PublishesPlain(steps)
    requires forall i :: 0 <= i < |steps| ==> !steps[i].MainExpires?
    ensures Counted(Execute(s, steps), e)
    decreases |steps|
  {
    hide Counted, Enabled, Next;
    if steps != [] {
      StepKeepsCounted(s, steps[0], e);
      assert PublishesPlain(steps[1..]);
      RunKeepsCounted(Next(s, steps[0]), steps[1..], e);
    }
  }

  /** MAIN RESULT.  As long as no message expires in the main queue, an event is dead-lettered only after at
      least four store calls, whatever fails and however its messages are requeued or doubled. */
  lemma DeadOnlyAfterFour(steps: seq<Step>, e: Event)
    requires Legal(START, steps) && PublishesPlain(steps)
    requires forall i :: 0 <= i < |steps| ==> !steps[i].MainExpires?
    ensures InDlq(Execute(START, steps), Product(e)) ==> 4 <= Execute(START, steps).attempts[e]
  {
    assert Counted(START, e);
    RunKeepsCounted(START, steps, e);
  }
}
