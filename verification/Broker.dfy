/** The consumer's conversation with the broker: main, retry and dead-letter queues, failed database
    calls, failed publishes, lost connections and expiring messages. */
module Broker {
  import opened Wrappers
  import opened ProductEvents
  import opened IndexConvergence

  /** What a message decodes to: an event, a defective one, or an event type nobody asked for. */
  datatype Body = Product(event: Event) | Poison(raw: string) | Unknown(raw: string)

  /** The x-retry-count header: absent, some integer type, or any other type. */
  datatype Header = NoCount | Count(n: int) | Alien

  datatype Message = Message(body: Body, header: Header)

  /** `unacked` holds the deliveries in hand. */
  datatype Queues = Queues(main: seq<Message>, unacked: seq<Message>, retry: seq<Message>, dlq: seq<Message>)

  const MAX_RETRIES := 3

  function GetRetryCount(h: Header): (int, bool) {
    match h
    case NoCount => (0, true)
    case Count(n) => (n, true)
    case Alien => (0, false)
  }

  /** An unreadable counter counts as exhausted. */
  function RetryCount(h: Header): int {
    var (n, parsed) := GetRetryCount(h);
    if parsed then n else MAX_RETRIES
  }

  /** Go's int32(n), which wraps. */
  function ToInt32(n: int): int {
    (n + 0x8000_0000) % 0x1_0000_0000 - 0x8000_0000
  }

  /** How the database call of one attempt ends: committed, rolled back, or committed without the
      caller learning of it. */
  datatype DbResult = Healthy | RolledBack | CommitLost

  datatype Verdict = Ack | ToDlq | ToRetry(copy: Message)

  function VerdictOf(m: Message, db: DbResult): Verdict {
    match m.body
    case Unknown(_) => Ack
    case Poison(_) => ToDlq
    case Product(_) =>
      if db.Healthy? then Ack
      else if MAX_RETRIES <= RetryCount(m.header) then ToDlq
      else ToRetry(m.(header := Count(ToInt32(RetryCount(m.header) + 1))))
  }

  /** int32 keeps the value modulo 2^32, between -2^31 and 2^31 - 1. */
  lemma Int32Wraps(n: int)
    ensures -0x8000_0000 <= ToInt32(n) < 0x8000_0000
    ensures (ToInt32(n) - n) % 0x1_0000_0000 == 0
    ensures -0x8000_0000 <= n < 0x8000_0000 ==> ToInt32(n) == n
  {}

  /** What becomes of a delivery: an event type nobody asked for is acked and a defective body dead-lettered,
      whatever the database does; an event is acked if its call is known to have committed, and otherwise
      tried again with its count raised, unless that was at least three or cannot be read. */
  lemma VerdictTells(m: Message, db: DbResult)
    ensures var v := VerdictOf(m, db);
            && (v.Ack? <==> m.body.Unknown? || (m.body.Product? && db.Healthy?))
            && (v.ToDlq? <==> m.body.Poison? || (m.body.Product? && !db.Healthy?
                                                 && (m.header.Alien? || (m.header.Count? && 3 <= m.header.n))))
            && (v.ToRetry? ==> v.copy.body == m.body && v.copy.header.Count?
                               && (m.header.NoCount? ==> v.copy.header.n == 1)
                               && (m.header.Count? && -0x8000_0000 <= m.header.n ==> v.copy.header.n == m.header.n + 1))
  {
    if m.header.Count? {
      Int32Wraps(m.header.n + 1);
    }
  }

  /** How the handling of a delivery ends: in full, with a failed publish and a nack, or with the
      connection lost before the publish or between the publish and the ack. */
  datatype End = Finished | PublishFailed | LostBeforePublish | LostBeforeAck

  function Remove<T>(q: seq<T>, i: nat): seq<T>
    requires i < |q|
  {
    q[..i] + q[i + 1..]
  }

  function Deposit(q: Queues, m: Message, v: Verdict): Queues {
    match v
    case Ack => q
    case ToDlq => q.(dlq := q.dlq + [m])
    case ToRetry(copy) => q.(retry := q.retry + [copy])
  }

  /** The queues after handling delivery `i`. */
  function AfterHandle(q: Queues, i: nat, db: DbResult, end: End): Queues
    requires i < |q.unacked|
  {
    var m := q.unacked[i];
    var v := VerdictOf(m, db);
    var rest := q.(unacked := Remove(q.unacked, i));
    match end
    case Finished => Deposit(rest, m, v)
    case PublishFailed => if v.Ack? then rest else rest.(main := rest.main + [m])
    case LostBeforePublish => rest.(main := rest.main + [m])
    case LostBeforeAck => var d := Deposit(rest, m, v); d.(main := d.main + [m])
  }

  function AfterStore(s: IndexState, m: Message, db: DbResult): IndexState {
    if m.body.Product? && !db.RolledBack? then Apply(s, m.body.event) else s
  }

  datatype Step =
    | Publish(m: Message)
    | Deliver(i: nat)
    | Handle(i: nat, db: DbResult, end: End)
    | ConnectionLost(i: nat)
    | RetryExpires(i: nat)
    | MainExpires(i: nat)

  /** The queues and the index, with the history the properties speak about: the events whose store
      call committed, the bodies published, settled by an ack without a copy, left behind as a copy
      when the ack was lost, and handled uncleanly (left in a queue although the call committed, or
      left there twice); and per event the store calls made and the ones it was owed. */
  datatype System = System(
    q: Queues,
    index: IndexState,
    log: seq<Event>,
    published: multiset<Body>,
    settled: multiset<Body>,
    copied: multiset<Body>,
    unclean: multiset<Body>,
    attempts: multiset<Event>,
    allowance: multiset<Event>,
    requeued: multiset<Event>)

  const START := System(Queues([], [], [], []), EMPTY_INDEX, [],
                        multiset{}, multiset{}, multiset{}, multiset{}, multiset{}, multiset{}, multiset{})

  predicate Enabled(s: System, step: Step) {
    match step
    case Publish(_) => true
    case Deliver(i) => i < |s.q.main|
    case Handle(i, _, _) => i < |s.q.unacked|
    case ConnectionLost(i) => i < |s.q.unacked|
    case RetryExpires(i) => i < |s.q.retry|
    case MainExpires(i) => i < |s.q.main|
  }

  /** The store calls a message can still lead to if nothing but the database fails. */
  function Weight(h: Header): nat {
    if MAX_RETRIES <= RetryCount(h) then 1 else MAX_RETRIES + 1 - RetryCount(h)
  }

  function Owe(allowance: multiset<Event>, m: Message): multiset<Event> {
    if m.body.Product? then allowance[m.body.event := allowance[m.body.event] + Weight(m.header)] else allowance
  }

  /** A handling after which the message is still there although its call committed, or there twice. */
  predicate Unclean(m: Message, db: DbResult, end: End) {
    var v := VerdictOf(m, db);
    (m.body.Product? && !db.RolledBack? && (!v.Ack? || GoesBack(v, end))) || (end.LostBeforeAck? && !v.Ack?)
  }

  function AfterHandling(s: System, i: nat, db: DbResult, end: End): System
    requires i < |s.q.unacked|
  {
    var m := s.q.unacked[i];
    var v := VerdictOf(m, db);
    var back := GoesBack(v, end);
    var event := if m.body.Product? then multiset{m.body.event} else multiset{};
    s.(q := AfterHandle(s.q, i, db, end),
       index := AfterStore(s.index, m, db),
       log := if m.body.Product? && !db.RolledBack? then s.log + [m.body.event] else s.log,
       settled := if v.Ack? && !back then s.settled + multiset{m.body} else s.settled,
       copied := if end.LostBeforeAck? && !v.Ack? then s.copied + multiset{m.body} else s.copied,
       unclean := if Unclean(m, db, end) then s.unclean + multiset{m.body} else s.unclean,
       attempts := s.attempts + event,
       allowance := if end.LostBeforeAck? && v.ToRetry? then Owe(s.allowance, v.copy) else s.allowance,
       requeued := if back then s.requeued + event else s.requeued)
  }

  function Next(s: System, step: Step): System
    requires Enabled(s, step)
  {
    var q := s.q;
    match step
    case Publish(m) =>
      s.(q := q.(main := q.main + [m]), published := s.published + multiset{m.body}, allowance := Owe(s.allowance, m))
    case Deliver(i) => s.(q := q.(main := Remove(q.main, i), unacked := q.unacked + [q.main[i]]))
    case Handle(i, db, end) => AfterHandling(s, i, db, end)
    case ConnectionLost(i) => s.(q := q.(unacked := Remove(q.unacked, i), main := q.main + [q.unacked[i]]))
    case RetryExpires(i) => s.(q := q.(retry := Remove(q.retry, i), main := q.main + [q.retry[i]]))
    case MainExpires(i) => s.(q := q.(main := Remove(q.main, i), dlq := q.dlq + [q.main[i]]))
  }

  ghost predicate Legal(s: System, steps: seq<Step>)
    decreases |steps|
  {
    steps == [] || (Enabled(s, steps[0]) && Legal(Next(s, steps[0]), steps[1..]))
  }

  function Execute(s: System, steps: seq<Step>): System
    requires Legal(s, steps)
    decreases |steps|
  {
    if steps == [] then s else Execute(Next(s, steps[0]), steps[1..])
  }

  // ---------- Conservation of messages ----------

  /** The sum of `f` over a queue. */
  function Sum(q: seq<Message>, f: Message -> nat): nat {
    if q == [] then 0 else Sum(q[..|q| - 1], f) + f(q[|q| - 1])
  }

  lemma SumAdd(q: seq<Message>, m: Message, f: Message -> nat)
    ensures Sum(q + [m], f) == Sum(q, f) + f(m)
  {}

  lemma {:induction false} SumRemove(q: seq<Message>, i: nat, f: Message -> nat)
    requires i < |q|
    ensures Sum(q, f) == Sum(Remove(q, i), f) + f(q[i])
  {
    var n := |q| - 1;
    if i == n {
      assert Remove(q, i) == q[..n];
    } else {
      SumRemove(q[..n], i, f);
      assert Remove(q, i) == Remove(q[..n], i) + [q[n]];
      SumAdd(Remove(q[..n], i), q[n], f);
    }
  }

  function Count1(m: Message, b: Body): nat {
    if m.body == b then 1 else 0
  }

  /** How many messages of a queue carry body `b`. */
  function CountIn(q: seq<Message>, b: Body): nat {
    Sum(q, m => Count1(m, b))
  }

  lemma CountAdd(q: seq<Message>, m: Message, b: Body)
    ensures CountIn(q + [m], b) == CountIn(q, b) + Count1(m, b)
  {}

  lemma CountRemove(q: seq<Message>, i: nat, b: Body)
    requires i < |q|
    ensures CountIn(q, b) == CountIn(Remove(q, i), b) + Count1(q[i], b)
  {
    SumRemove(q, i, m => Count1(m, b));
  }

  lemma {:induction false} CountPositive(q: seq<Message>, b: Body)
    ensures CountIn(q, b) > 0 <==> exists m :: m in q && m.body == b
  {
    if q != [] {
      var n := |q| - 1;
      CountPositive(q[..n], b);
      assert q == q[..n] + [q[n]];
    }
  }

  /** Copies of `b` over all four queues. */
  function Held(q: Queues, b: Body): nat {
    CountIn(q.main, b) + CountIn(q.unacked, b) + CountIn(q.retry, b) + CountIn(q.dlq, b)
  }

  ghost predicate Balanced(s: System, b: Body) {
    Held(s.q, b) + s.settled[b] == s.published[b] + s.copied[b]
  }

  predicate GoesBack(v: Verdict, end: End) {
    end.LostBeforePublish? || end.LostBeforeAck? || (end.PublishFailed? && !v.Ack?)
  }

  lemma DepositHeld(q: Queues, m: Message, v: Verdict, b: Body)
    requires v.ToRetry? ==> v.copy.body == m.body
    ensures Held(Deposit(q, m, v), b) == Held(q, b) + if v.Ack? then 0 else Count1(m, b)
  {}

  lemma HandleHeld(q: Queues, i: nat, db: DbResult, end: End, b: Body)
    requires i < |q.unacked|
    ensures var m, v := q.unacked[i], VerdictOf(q.unacked[i], db);
            Held(AfterHandle(q, i, db, end), b) + (if v.Ack? && !GoesBack(v, end) then Count1(m, b) else 0)
            == Held(q, b) + (if !v.Ack? && end.LostBeforeAck? then Count1(m, b) else 0)
  {
    hide CountIn;
    var m := q.unacked[i];
    var v := VerdictOf(m, db);
    var rest := q.(unacked := Remove(q.unacked, i));
    CountRemove(q.unacked, i, b);
    CountAdd(rest.main, m, b);
    DepositHeld(rest, m, v, b);
    if end.LostBeforeAck? {
      assert Deposit(rest, m, v).main == rest.main;
    }
  }

  lemma HandleKeepsBalance(s: System, i: nat, db: DbResult, end: End, b: Body)
    requires Balanced(s, b) && i < |s.q.unacked|
    ensures Balanced(AfterHandling(s, i, db, end), b)
  {
    HandleHeld(s.q, i, db, end, b);
    var m, s' := s.q.unacked[i], AfterHandling(s, i, db, end);
    var v := VerdictOf(m, db);
    assert s'.settled[b] == s.settled[b] + if v.Ack? && !GoesBack(v, end) then Count1(m, b) else 0;
    assert s'.copied[b] == s.copied[b] + if !v.Ack? && end.LostBeforeAck? then Count1(m, b) else 0;
  }

  lemma StepKeepsBalance(s: System, step: Step, b: Body)
    requires Balanced(s, b) && Enabled(s, step)
    ensures Balanced(Next(s, step), b)
  {
    var q := s.q;
    match step
    case Publish(m) =>
      CountAdd(q.main, m, b);
    case Deliver(i) =>
      CountRemove(q.main, i, b);
      CountAdd(q.unacked, q.main[i], b);
    case Handle(i, db, end) =>
      HandleKeepsBalance(s, i, db, end, b);
    case ConnectionLost(i) =>
      CountRemove(q.unacked, i, b);
      CountAdd(q.main, q.unacked[i], b);
    case RetryExpires(i) =>
      CountRemove(q.retry, i, b);
      CountAdd(q.main, q.retry[i], b);
    case MainExpires(i) =>
      CountRemove(q.main, i, b);
      CountAdd(q.dlq, q.main[i], b);
  }

  /** MAIN RESULT.  In every run each body is accounted for exactly: its copies in the four queues
      and its settled deliveries are its publications and the copies left by lost acks. */
  lemma {:induction false} MessagesConserved(s: System, steps: seq<Step>, b: Body)
    requires Legal(s, steps) && Balanced(s, b)
    ensures Balanced(Execute(s, steps), b)
    decreases |steps|
  {
    if steps != [] {
      StepKeepsBalance(s, steps[0], b);
      MessagesConserved(Next(s, steps[0]), steps[1..], b);
    }
  }

  // ---------- Nothing is lost ----------

  ghost predicate InSomeQueue(q: Queues, b: Body) {
    exists m :: (m in q.main || m in q.unacked || m in q.retry || m in q.dlq) && m.body == b
  }

  lemma HeldIsInSomeQueue(q: Queues, b: Body)
    ensures Held(q, b) > 0 <==> InSomeQueue(q, b)
  {
    CountPositive(q.main, b);
    CountPositive(q.unacked, b);
    CountPositive(q.retry, b);
    CountPositive(q.dlq, b);
  }

  /** The index is the run of the committed store calls, these are of published events, and only
      events in the ledger and unrecognised bodies are ever settled. */
  ghost predicate Faithful(s: System) {
    && s.index == Run(s.log)
    && (forall e :: e in s.log ==> Product(e) in s.published)
    && (forall b :: InSomeQueue(s.q, b) ==> b in s.published)
    && (forall b :: b in s.settled ==> !b.Poison? && (b.Product? ==> b.event.eventId in s.index.processed))
  }

  lemma ApplyGrowsLedger(s: IndexState, e: Event)
    ensures Apply(s, e).processed == s.processed + {e.eventId}
  {}

  lemma HandleBodies(q: Queues, i: nat, db: DbResult, end: End)
    requires i < |q.unacked|
    ensures forall b :: InSomeQueue(AfterHandle(q, i, db, end), b) ==> InSomeQueue(q, b)
  {
    var m, t := q.unacked[i], AfterHandle(q, i, db, end);
    assert InSomeQueue(q, m.body);
    forall b | InSomeQueue(t, b) ensures InSomeQueue(q, b) {
      var x :| (x in t.main || x in t.unacked || x in t.retry || x in t.dlq) && x.body == b;
      assert x in q.main || x in q.unacked || x in q.retry || x in q.dlq || x.body == m.body;
    }
  }

  lemma HandleKeepsFaithful(s: System, i: nat, db: DbResult, end: End)
    requires Faithful(s) && i < |s.q.unacked|
    ensures Faithful(AfterHandling(s, i, db, end))
  {
    var m, s' := s.q.unacked[i], AfterHandling(s, i, db, end);
    if m.body.Product? && !db.RolledBack? {
      RunSnoc(EMPTY_INDEX, s.log, m.body.event);
      ApplyGrowsLedger(s.index, m.body.event);
    }
    assert InSomeQueue(s.q, m.body);
    HandleBodies(s.q, i, db, end);
    assert s'.q == AfterHandle(s.q, i, db, end);
    hide InSomeQueue, AfterHandle, Apply, Run;
    assert forall b :: b in s'.settled ==> b in s.settled || (b == m.body && VerdictOf(m, db).Ack?);
  }

  lemma StepKeepsFaithful(s: System, step: Step)
    requires Faithful(s) && Enabled(s, step)
    ensures Faithful(Next(s, step))
  {
    if step.Handle? {
      HandleKeepsFaithful(s, step.i, step.db, step.end);
    }
  }

  lemma {:induction false} RunKeepsFaithful(s: System, steps: seq<Step>)
    requires Faithful(s) && Legal(s, steps)
    ensures Faithful(Execute(s, steps))
    decreases |steps|
  {
    if steps != [] {
      StepKeepsFaithful(s, steps[0]);
      RunKeepsFaithful(Next(s, steps[0]), steps[1..]);
    }
  }

  /** No other published event carries the id of `e`. */
  ghost predicate IdIsOwn(published: multiset<Body>, e: Event) {
    forall f :: Product(f) in published && f.eventId == e.eventId ==> f == e
  }

  /** An event id names one published event. */
  ghost predicate Identified(published: multiset<Body>) {
    forall e, f :: Product(e) in published && Product(f) in published && e.eventId == f.eventId ==> e == f
  }

  /** MAIN RESULT.  Whatever fails, a published body the consumer recognises is in one of the queues
      or is an event whose store call committed, and the index is the run of those calls. */
  lemma NothingLost(steps: seq<Step>, b: Body)
    requires Legal(START, steps)
    ensures var s := Execute(START, steps);
            && s.index == Run(s.log)
            && (b in s.published && !b.Unknown? ==>
                  InSomeQueue(s.q, b) || (b.Product? && b.event.eventId in s.index.processed))
            && (b in s.published && b.Product? && IdIsOwn(s.published, b.event) ==>
                  InSomeQueue(s.q, b) || b.event in s.log)
  {
    RunKeepsFaithful(START, steps);
    MessagesConserved(START, steps, b);
    var s := Execute(START, steps);
    HeldIsInSomeQueue(s.q, b);
    LedgerIsIds(EMPTY_INDEX, s.log);
  }

  ghost predicate Drained(s: System) {
    s.q.main == [] && s.q.unacked == [] && s.q.retry == []
  }

  ghost predicate InDlq(s: System, b: Body) {
    exists m :: m in s.q.dlq && m.body == b
  }

  /** MAIN RESULT.  Once main and retry are empty, the rows are the last-writer-wins result of a set
      of published events that misses none outside the dead-letter queue. */
  lemma DrainedIndex(steps: seq<Step>, p: ProductId)
    requires Legal(START, steps)
    ensures var s := Execute(START, steps);
            Drained(s) && Identified(s.published) ==>
              && Shows(Dedup(s.log), p, Lookup(s.index.rows, p))
              && (forall e :: e in s.log ==> Product(e) in s.published)
              && (forall e :: Product(e) in s.published && !InDlq(s, Product(e)) ==> e in s.log)
  {
    RunKeepsFaithful(START, steps);
    var s := Execute(START, steps);
    Converges(s.log, p);
    forall e | Drained(s) && Identified(s.published) && Product(e) in s.published && !InDlq(s, Product(e))
      ensures e in s.log
    {
      NothingLost(steps, Product(e));
    }
  }

  // ---------- Retries are bounded ----------

  function Load1(m: Message, e: Event): nat {
    if m.body == Product(e) then Weight(m.header) else 0
  }

  /** The store calls the messages of a queue can still lead to. */
  function Load(q: seq<Message>, e: Event): nat {
    Sum(q, m => Load1(m, e))
  }

  lemma LoadAdd(q: seq<Message>, m: Message, e: Event)
    ensures Load(q + [m], e) == Load(q, e) + Load1(m, e)
  {}

  lemma LoadRemove(q: seq<Message>, i: nat, e: Event)
    requires i < |q|
    ensures Load(q, e) == Load(Remove(q, i), e) + Load1(q[i], e)
  {
    SumRemove(q, i, m => Load1(m, e));
  }

  function TotalLoad(q: Queues, e: Event): nat {
    Load(q.main, e) + Load(q.unacked, e) + Load(q.retry, e)
  }

  ghost predicate WithinBudget(s: System, e: Event) {
    s.attempts[e] + TotalLoad(s.q, e) <= s.allowance[e] + s.requeued[e]
  }

  /** Each retry lowers what a message can still cost, even if the counter wraps. */
  lemma RetryIsLighter(m: Message, db: DbResult)
    requires VerdictOf(m, db).ToRetry?
    ensures VerdictOf(m, db).copy.body == m.body
    ensures Weight(VerdictOf(m, db).copy.header) < Weight(m.header)
  {}

  lemma HandleLoad(q: Queues, i: nat, db: DbResult, end: End, e: Event)
    requires i < |q.unacked|
    ensures var m, v := q.unacked[i], VerdictOf(q.unacked[i], db);
            var mine := if m.body == Product(e) then 1 else 0;
            mine + TotalLoad(AfterHandle(q, i, db, end), e)
            <= TotalLoad(q, e) + (if GoesBack(v, end) then mine else 0)
               + (if end.LostBeforeAck? && v.ToRetry? then Load1(v.copy, e) else 0)
  {
    hide Load;
    var m := q.unacked[i];
    var v := VerdictOf(m, db);
    var rest := q.(unacked := Remove(q.unacked, i));
    LoadRemove(q.unacked, i, e);
    LoadAdd(rest.main, m, e);
    if v.ToRetry? {
      RetryIsLighter(m, db);
      LoadAdd(rest.retry, v.copy, e);
    }
    hide VerdictOf, Weight, Remove;
  }

  lemma HandleKeepsBudget(s: System, i: nat, db: DbResult, end: End, e: Event)
    requires WithinBudget(s, e) && i < |s.q.unacked|
    ensures WithinBudget(AfterHandling(s, i, db, end), e)
  {
    HandleLoad(s.q, i, db, end, e);
    var m, s' := s.q.unacked[i], AfterHandling(s, i, db, end);
    var v := VerdictOf(m, db);
    var mine := if m.body == Product(e) then 1 else 0;
    if v.ToRetry? {
      RetryIsLighter(m, db);
    }
    assert s'.attempts[e] == s.attempts[e] + mine;
    assert s'.requeued[e] == s.requeued[e] + if GoesBack(v, end) then mine else 0;
    assert s'.allowance[e] == s.allowance[e] + if end.LostBeforeAck? && v.ToRetry? then Load1(v.copy, e) else 0;
  }

  lemma StepKeepsBudget(s: System, step: Step, e: Event)
    requires WithinBudget(s, e) && Enabled(s, step)
    ensures WithinBudget(Next(s, step), e)
  {
    var q := s.q;
    match step
    case Publish(m) =>
      LoadAdd(q.main, m, e);
    case Deliver(i) =>
      LoadRemove(q.main, i, e);
      LoadAdd(q.unacked, q.main[i], e);
    case Handle(i, db, end) =>
      HandleKeepsBudget(s, i, db, end, e);
    case ConnectionLost(i) =>
      LoadRemove(q.unacked, i, e);
      LoadAdd(q.main, q.unacked[i], e);
    case RetryExpires(i) =>
      LoadRemove(q.retry, i, e);
      LoadAdd(q.main, q.retry[i], e);
    case MainExpires(i) =>
      LoadRemove(q.main, i, e);
  }

  lemma {:induction false} RunKeepsBudget(s: System, steps: seq<Step>, e: Event)
    requires Legal(s, steps) && WithinBudget(s, e)
    ensures WithinBudget(Execute(s, steps), e)
    decreases |steps|
  {
    if steps != [] {
      StepKeepsBudget(s, steps[0], e);
      RunKeepsBudget(Next(s, steps[0]), steps[1..], e);
    }
  }

  /** The relay publishes without a counter, so no counter in flight is negative, and an event is
      owed four calls per publication and three per copy a lost ack left behind. */
  ghost predicate PlainCounters(s: System, e: Event) {
    && (forall m :: m in s.q.main || m in s.q.unacked || m in s.q.retry ==> 0 <= RetryCount(m.header))
    && s.allowance[e] <= (MAX_RETRIES + 1) * s.published[Product(e)] + MAX_RETRIES * s.copied[Product(e)]
  }

  lemma HandleKeepsPlain(s: System, i: nat, db: DbResult, end: End, e: Event)
    requires PlainCounters(s, e) && i < |s.q.unacked|
    ensures PlainCounters(AfterHandling(s, i, db, end), e)
  {
    var m, s' := s.q.unacked[i], AfterHandling(s, i, db, end);
    var v := VerdictOf(m, db);
    assert 0 <= RetryCount(m.header);
    if v.ToRetry? {
      assert RetryCount(v.copy.header) == RetryCount(m.header) + 1;
    }
    assert s'.copied[Product(e)] == s.copied[Product(e)]
                                    + if !v.Ack? && end.LostBeforeAck? then Count1(m, Product(e)) else 0;
    assert s'.allowance[e] == s.allowance[e] + if end.LostBeforeAck? && v.ToRetry? then Load1(v.copy, e) else 0;
  }

  lemma StepKeepsPlain(s: System, step: Step, e: Event)
    requires PlainCounters(s, e) && Enabled(s, step)
    requires step.Publish? ==> step.m.header == NoCount
    ensures PlainCounters(Next(s, step), e)
  {
    if step.Handle? {
      HandleKeepsPlain(s, step.i, step.db, step.end, e);
    }
  }

  lemma {:induction false} RunKeepsPlain(s: System, steps: seq<Step>, e: Event)
    requires Legal(s, steps) && PlainCounters(s, e)
    requires forall i :: 0 <= i < |steps| && steps[i].Publish? ==> steps[i].m.header == NoCount
    ensures PlainCounters(Execute(s, steps), e)
    decreases |steps|
  {
    if steps != [] {
      StepKeepsPlain(s, steps[0], e);
      RunKeepsPlain(Next(s, steps[0]), steps[1..], e);
    }
  }

  /** MAIN RESULT.  In every run an event reaches the store at most four times per publication, plus
      once per time its message went back to the main queue, plus three times per copy left behind.
      So when every handling ends in full, with no failed publish and no lost connection, it is four
      times per publication. */
  lemma {:induction false} AttemptsBounded(steps: seq<Step>, e: Event)
    requires Legal(START, steps)
    requires forall i :: 0 <= i < |steps| && steps[i].Publish? ==> steps[i].m.header == NoCount
    ensures var s := Execute(START, steps);
            s.attempts[e] <= 4 * s.published[Product(e)] + s.requeued[e] + 3 * s.copied[Product(e)]
    ensures (forall i :: 0 <= i < |steps| && steps[i].Handle? ==> steps[i].end.Finished?) ==>
              Execute(START, steps).attempts[e] <= 4 * Execute(START, steps).published[Product(e)]
  {
    RunKeepsBudget(START, steps, e);
    RunKeepsPlain(START, steps, e);
    if forall i :: 0 <= i < |steps| && steps[i].Handle? ==> steps[i].end.Finished? {
      FinishedNeverReturns(START, steps);
    }
  }

  lemma {:induction false} FinishedNeverReturns(s: System, steps: seq<Step>)
    requires Legal(s, steps)
    requires forall i :: 0 <= i < |steps| && steps[i].Handle? ==> steps[i].end.Finished?
    ensures Execute(s, steps).requeued == s.requeued && Execute(s, steps).copied == s.copied
    decreases |steps|
  {
    if steps != [] {
      FinishedNeverReturns(Next(s, steps[0]), steps[1..]);
    }
  }

  // ---------- Runs in pieces ----------

  lemma LegalStep(s: System, step: Step, rest: seq<Step>)
    requires Enabled(s, step) && Legal(Next(s, step), rest)
    ensures Legal(s, [step] + rest) && Execute(s, [step] + rest) == Execute(Next(s, step), rest)
  {
    assert ([step] + rest)[1..] == rest;
  }

  lemma LegalOne(s: System, step: Step)
    requires Enabled(s, step)
    ensures Legal(s, [step]) && Execute(s, [step]) == Next(s, step)
  {
    assert Legal(Next(s, step), []);
    LegalStep(s, step, []);
    assert [step] + [] == [step];
  }

  lemma {:induction false} LegalAppend(s: System, a: seq<Step>, b: seq<Step>)
    requires Legal(s, a) && Legal(Execute(s, a), b)
    ensures Legal(s, a + b) && Execute(s, a + b) == Execute(Execute(s, a), b)
    decreases |a|
  {
    hide Next, Enabled;
    if a == [] {
      assert a + b == b;
    } else {
      LegalAppend(Next(s, a[0]), a[1..], b);
      assert (a + b)[0] == a[0] && (a + b)[1..] == a[1..] + b;
    }
  }
}
