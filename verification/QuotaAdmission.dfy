/** Quota admission: an in-flight latch per subject, then counters raised tier by tier.  Requests
    overlap freely; each counter increment and each latch operation is one step. */
module QuotaAdmission {
  import opened QuotaKeys

  type RequestId = nat
  /** A counter row: subject_key and usage_date. */
  type Slot = (string, int)

  datatype Limits = Limits(guestDaily: int, userDaily: int, userHourly: int, globalDaily: int)

  datatype Tier = Hour | Day | Global

  datatype Reason = InFlight | Burst | GuestDaily | UserHourly | UserDaily | GlobalDaily

  datatype Decision = Allowed(remaining: int) | Denied(reason: Reason, retryAfter: int)

  const IN_FLIGHT_RETRY_AFTER := 3 * SECOND

  /** Counting at a tier; holding a grant; told no (or failed) but still on the latch; or off it. */
  datatype Phase =
    | Counting(tier: Tier)
    | Holding(decision: Decision)
    | Leaving
    | Gone

  /** `used` holds the counter value returned by each tier asked, `raised` the tiers whose counter
      this request raised (an increment may land although its reply is lost). */
  datatype Request = Request(
    subject: Subject,
    now: int,
    phase: Phase,
    used: map<Tier, int>,
    raised: set<Tier>,
    verdict: Verdict)

  /** What the caller is told. */
  datatype Verdict = Pending | Told(decision: Decision) | Failed

  datatype Fault = NoFault | NotCounted | ReplyLost

  function FirstTier(s: Subject): Tier {
    if s.IsGuest() then Day else Hour
  }

  /** The counter row a subject is counted in at a tier. */
  function SlotFor(s: Subject, now: int, t: Tier): Slot {
    (match t
     case Hour => s.HourKey(now)
     case Day => s.DayKey()
     case Global => GLOBAL_KEY,
     DateOf(now))
  }

  function SlotOf(r: Request, t: Tier): Slot {
    SlotFor(r.subject, r.now, t)
  }

  function LimitOf(l: Limits, s: Subject, t: Tier): int {
    match t
    case Hour => l.userHourly
    case Day => if s.IsGuest() then l.guestDaily else l.userDaily
    case Global => l.globalDaily
  }

  function Denial(s: Subject, now: int, t: Tier): Decision {
    match t
    case Hour => Denied(UserHourly, UntilNextHour(now))
    case Day => Denied(if s.IsGuest() then GuestDaily else UserDaily, UntilNextDay(now))
    case Global => Denied(GlobalDaily, UntilNextDay(now))
  }

  function Min(a: int, b: int): int {
    if a < b then a else b
  }

  /** What is left of the tightest tier of the subject's own. */
  function Remaining(l: Limits, s: Subject, used: map<Tier, int>): int
    requires Day in used && (!s.IsGuest() ==> Hour in used)
  {
    if s.IsGuest() then l.guestDaily - used[Day]
    else Min(l.userHourly - used[Hour], l.userDaily - used[Day])
  }

  function CountOf(counts: map<Slot, nat>, slot: Slot): nat {
    if slot in counts then counts[slot] else 0
  }

  /** INSERT ... ON CONFLICT DO UPDATE SET message_count = message_count + 1 */
  function Raise(counts: map<Slot, nat>, slot: Slot): map<Slot, nat> {
    counts[slot := CountOf(counts, slot) + 1]
  }

  predicate WellFormed(r: Request) {
    && (r.subject.IsGuest() ==> r.phase != Counting(Hour))
    && (r.phase == Counting(Global) ==> Day in r.used)
    && (r.phase.Counting? && r.phase.tier != Hour && !r.subject.IsGuest() ==> Hour in r.used)
  }

  /** The request after its counter came back as `n`. */
  function AfterCount(l: Limits, r: Request, n: nat): Request
    requires r.phase.Counting? && WellFormed(r)
  {
    var t := r.phase.tier;
    var r' := r.(used := r.used[t := n], raised := r.raised + {t});
    if n > LimitOf(l, r.subject, t) then
      r'.(phase := Leaving, verdict := Told(Denial(r.subject, r.now, t)))
    else
      match t
      case Hour => r'.(phase := Counting(Day))
      case Day => r'.(phase := Counting(Global))
      case Global =>
        var d := Allowed(Remaining(l, r.subject, r'.used));
        r'.(phase := Holding(d), verdict := Told(d))
  }

  /** The request after the counter call failed: it is refused. */
  function AfterFault(r: Request, f: Fault): Request
    requires r.phase.Counting?
  {
    r.(phase := Leaving, verdict := Failed,
       raised := if f.ReplyLost? then r.raised + {r.phase.tier} else r.raised)
  }

  datatype System = System(limits: Limits, counts: map<Slot, nat>, inFlight: set<string>,
                           requests: map<RequestId, Request>)

  datatype Step =
    | Acquire(id: RequestId, subject: Subject, now: int)
    | Reserve(id: RequestId, subject: Subject, now: int)
    | Increment(id: RequestId, fault: Fault)
    | Release(id: RequestId)

  predicate Enabled(s: System, step: Step) {
    match step
    case Acquire(id, _, _) => id !in s.requests
    case Reserve(id, _, _) => id !in s.requests
    case Increment(id, _) => id in s.requests && s.requests[id].phase.Counting?
    case Release(id) => id in s.requests && !s.requests[id].phase.Counting?
  }

  /** Entry to the latch; `phase` is where a request that gets in goes next. */
  function Enter(s: System, id: RequestId, subject: Subject, now: int, phase: Phase): System {
    var key := subject.DayKey();
    if key in s.inFlight then
      s.(requests := s.requests[id := Request(subject, now, Gone, map[], {},
                                              Told(Denied(InFlight, IN_FLIGHT_RETRY_AFTER)))])
    else
      s.(inFlight := s.inFlight + {key},
         requests := s.requests[id := Request(subject, now, phase, map[], {},
                                              if phase.Holding? then Told(phase.decision) else Pending)])
  }

  /** One release of a request's grant: the first frees the latch, any other does nothing. */
  function Next(s: System, step: Step): System
    requires Enabled(s, step)
    requires forall id :: id in s.requests ==> WellFormed(s.requests[id])
  {
    match step
    case Acquire(id, subject, now) => Enter(s, id, subject, now, Counting(FirstTier(subject)))
    case Reserve(id, subject, now) => Enter(s, id, subject, now, Holding(Allowed(0)))
    case Increment(id, fault) =>
      var r := s.requests[id];
      var slot := SlotOf(r, r.phase.tier);
      if fault.NoFault? then
        s.(counts := Raise(s.counts, slot),
           requests := s.requests[id := AfterCount(s.limits, r, CountOf(s.counts, slot) + 1)])
      else
        s.(counts := if fault.ReplyLost? then Raise(s.counts, slot) else s.counts,
           requests := s.requests[id := AfterFault(r, fault)])
    case Release(id) =>
      var r := s.requests[id];
      if r.phase.Gone? then s
      else s.(inFlight := s.inFlight - {r.subject.DayKey()}, requests := s.requests[id := r.(phase := Gone)])
  }

  // ---------- Invariants ----------

  /** On the latch: an unreleased grant, or a request still deciding. */
  predicate OnLatch(r: Request) {
    !r.phase.Gone?
  }

  /** The latch holds exactly the keys of the requests on it, one request to a key. */
  ghost predicate LatchExact(inFlight: set<string>, requests: map<RequestId, Request>) {
    && (forall k :: k in inFlight ==> exists id :: id in requests && OnLatch(requests[id]) && requests[id].subject.DayKey() == k)
    && (forall id :: id in requests && OnLatch(requests[id]) ==> requests[id].subject.DayKey() in inFlight)
    && (forall i, j :: i in requests && j in requests && i != j && OnLatch(requests[i]) && OnLatch(requests[j]) ==>
                         requests[i].subject.DayKey() != requests[j].subject.DayKey())
  }

  /** Requests that raised a given row, by request and tier. */
  ghost function Raisers(requests: map<RequestId, Request>, slot: Slot): set<(RequestId, Tier)> {
    set id, t | id in requests && t in requests[id].raised && SlotOf(requests[id], t) == slot :: (id, t)
  }

  /** Each counter is the number of times requests raised it. */
  ghost predicate CountsExact(counts: map<Slot, nat>, requests: map<RequestId, Request>) {
    forall slot :: CountOf(counts, slot) == |Raisers(requests, slot)|
  }

  /** The values a row handed out are positive, no larger than the row, and all different. */
  ghost predicate TicketsDistinct(counts: map<Slot, nat>, requests: map<RequestId, Request>) {
    && (forall i, t :: i in requests && t in requests[i].used ==>
                         1 <= requests[i].used[t] <= CountOf(counts, SlotOf(requests[i], t)))
    && (forall i, j, t :: i in requests && j in requests && i != j
                          && t in requests[i].used && t in requests[j].used
                          && SlotOf(requests[i], t) == SlotOf(requests[j], t) ==>
                            requests[i].used[t] != requests[j].used[t])
  }

  /** A request asks the tiers in order and goes on only while within each limit. */
  ghost predicate InOrder(l: Limits, r: Request) {
    && WellFormed(r)
    && r.used.Keys <= r.raised
    && (Hour in r.raised ==> !r.subject.IsGuest())
    && (Day in r.raised || r.phase == Counting(Day) ==>
          r.subject.IsGuest() || (Hour in r.used && r.used[Hour] <= l.userHourly))
    && (Global in r.raised || r.phase == Counting(Global) ==> Day in r.used && r.used[Day] <= LimitOf(l, r.subject, Day))
    && (r.phase.Counting? ==> r.phase.tier !in r.raised && r.verdict.Pending?)
    && (r.phase == Counting(Hour) ==> r.raised == {})
    && (r.phase == Counting(Day) ==> Global !in r.raised)
    && (Admitted(r) ==> Global in r.used && r.used[Global] <= l.globalDaily)
    && (r.verdict.Told? && r.verdict.decision.Denied? && r.verdict.decision.reason == UserHourly ==> r.raised == {Hour})
  }

  /** Admitted by `Acquire`, whether or not it has since been released. */
  predicate Admitted(r: Request) {
    r.verdict.Told? && r.verdict.decision.Allowed? && r.raised != {}
  }

  ghost predicate AllInOrder(s: System) {
    forall id :: id in s.requests ==> InOrder(s.limits, s.requests[id])
  }

  ghost predicate Inv(s: System) {
    AllInOrder(s) && LatchExact(s.inFlight, s.requests) && CountsExact(s.counts, s.requests) && TicketsDistinct(s.counts, s.requests)
  }

  lemma CountKeepsOrder(l: Limits, r: Request, n: nat)
    requires InOrder(l, r) && r.phase.Counting?
    ensures InOrder(l, AfterCount(l, r, n))
  {}

  lemma FaultKeepsOrder(l: Limits, r: Request, f: Fault)
    requires InOrder(l, r) && r.phase.Counting?
    ensures InOrder(l, AfterFault(r, f))
  {}

  lemma StepKeepsOrder(s: System, step: Step)
    requires AllInOrder(s) && Enabled(s, step)
    ensures AllInOrder(Next(s, step))
  {
    hide Subject.DayKey, Subject.HourKey;
    if step.Increment? {
      var r := s.requests[step.id];
      CountKeepsOrder(s.limits, r, CountOf(s.counts, SlotOf(r, r.phase.tier)) + 1);
      if !step.fault.NoFault? {
        FaultKeepsOrder(s.limits, r, step.fault);
      }
    }
  }

  /** A request that changes without getting on or off the latch, or comes and is refused. */
  lemma LatchUntouched(inFlight: set<string>, requests: map<RequestId, Request>, id: RequestId, r: Request)
    requires LatchExact(inFlight, requests)
    requires if id in requests then OnLatch(r) == OnLatch(requests[id]) && r.subject == requests[id].subject
             else !OnLatch(r)
    ensures LatchExact(inFlight, requests[id := r])
  {
    hide Subject.DayKey;
    var requests' := requests[id := r];
    forall k | k in inFlight
      ensures exists i :: i in requests' && OnLatch(requests'[i]) && requests'[i].subject.DayKey() == k
    {
      var i :| i in requests && OnLatch(requests[i]) && requests[i].subject.DayKey() == k;
      assert i in requests';
    }
  }

  lemma LatchTaken(inFlight: set<string>, requests: map<RequestId, Request>, id: RequestId, r: Request)
    requires LatchExact(inFlight, requests) && id !in requests
    requires OnLatch(r) && r.subject.DayKey() !in inFlight
    ensures LatchExact(inFlight + {r.subject.DayKey()}, requests[id := r])
  {
    hide Subject.DayKey;
    var requests' := requests[id := r];
    forall k | k in inFlight + {r.subject.DayKey()}
      ensures exists i :: i in requests' && OnLatch(requests'[i]) && requests'[i].subject.DayKey() == k
    {
      if k in inFlight {
        var i :| i in requests && OnLatch(requests[i]) && requests[i].subject.DayKey() == k;
        assert i in requests';
      } else {
        assert id in requests';
      }
    }
  }

  /** Leaving frees only the leaver's key: nobody else is on the latch under it. */
  lemma LatchFreed(inFlight: set<string>, requests: map<RequestId, Request>, id: RequestId, r: Request)
    requires LatchExact(inFlight, requests) && id in requests && OnLatch(requests[id])
    requires !OnLatch(r) && r.subject == requests[id].subject
    ensures LatchExact(inFlight - {r.subject.DayKey()}, requests[id := r])
  {
    hide Subject.DayKey;
    var requests' := requests[id := r];
    forall k | k in inFlight - {r.subject.DayKey()}
      ensures exists i :: i in requests' && OnLatch(requests'[i]) && requests'[i].subject.DayKey() == k
    {
      var i :| i in requests && OnLatch(requests[i]) && requests[i].subject.DayKey() == k;
      assert i in requests';
    }
  }

  lemma StepKeepsLatch(s: System, step: Step)
    requires AllInOrder(s) && LatchExact(s.inFlight, s.requests) && Enabled(s, step)
    ensures LatchExact(Next(s, step).inFlight, Next(s, step).requests)
  {
    hide Subject.DayKey, Subject.HourKey, LatchExact, SlotOf;
    var s' := Next(s, step);
    var r := s'.requests[step.id];
    if OnLatch(r) == (step.id in s.requests && OnLatch(s.requests[step.id])) {
      LatchUntouched(s.inFlight, s.requests, step.id, r);
      assert s'.requests == s.requests[step.id := r];
    } else if OnLatch(r) {
      LatchTaken(s.inFlight, s.requests, step.id, r);
    } else {
      LatchFreed(s.inFlight, s.requests, step.id, r);
    }
  }

  /** A request that joins or changes without a new ticket. */
  lemma NoNewTicket(counts: map<Slot, nat>, requests: map<RequestId, Request>, slot: Slot, id: RequestId, r: Request)
    requires TicketsDistinct(counts, requests)
    requires r.used == map[] || (id in requests && r.used == requests[id].used
                                 && r.subject == requests[id].subject && r.now == requests[id].now)
    ensures TicketsDistinct(counts, requests[id := r])
    ensures TicketsDistinct(Raise(counts, slot), requests[id := r])
  {}

  lemma SameSlots(r: Request, r': Request)
    requires r.subject == r'.subject && r.now == r'.now
    ensures forall t :: SlotOf(r, t) == SlotOf(r', t)
  {}

  lemma NewTicket(counts: map<Slot, nat>, requests: map<RequestId, Request>, id: RequestId, t: Tier, r: Request)
    requires TicketsDistinct(counts, requests) && id in requests
    requires r.subject == requests[id].subject && r.now == requests[id].now
    requires r.used == requests[id].used[t := CountOf(counts, SlotOf(r, t)) + 1]
    ensures TicketsDistinct(Raise(counts, SlotOf(r, t)), requests[id := r])
  {
    hide SlotOf;
    assert forall u :: SlotOf(r, u) == SlotOf(requests[id], u) by { SameSlots(r, requests[id]); }
    var raised := Raise(counts, SlotOf(r, t));
    assert forall slot :: CountOf(counts, slot) <= CountOf(raised, slot);
    assert CountOf(raised, SlotOf(r, t)) == CountOf(counts, SlotOf(r, t)) + 1;
    hide Raise, CountOf;
  }

  lemma StepKeepsTickets(s: System, step: Step)
    requires AllInOrder(s) && TicketsDistinct(s.counts, s.requests) && Enabled(s, step)
    ensures TicketsDistinct(Next(s, step).counts, Next(s, step).requests)
  {
    hide SlotOf, TicketsDistinct, Raise;
    var s' := Next(s, step);
    if step.id in s'.requests {
      var r := s'.requests[step.id];
      if step.Increment? {
        var t := s.requests[step.id].phase.tier;
        SameSlots(r, s.requests[step.id]);
        if step.fault.NoFault? {
          NewTicket(s.counts, s.requests, step.id, t, r);
        } else {
          NoNewTicket(s.counts, s.requests, SlotOf(r, t), step.id, r);
        }
      } else {
        NoNewTicket(s.counts, s.requests, (GLOBAL_KEY, 0), step.id, r);
      }
    }
  }

  lemma RaisersAfter(requests: map<RequestId, Request>, id: RequestId, r: Request, slot: Slot, t: Tier)
    requires id in requests && t !in requests[id].raised
    requires r.raised == requests[id].raised + {t} && r.subject == requests[id].subject && r.now == requests[id].now
    ensures Raisers(requests[id := r], slot)
            == if slot == SlotOf(r, t) then Raisers(requests, slot) + {(id, t)} else Raisers(requests, slot)
  {}

  lemma RaisersSame(requests: map<RequestId, Request>, id: RequestId, r: Request, slot: Slot)
    requires if id in requests then r.raised == requests[id].raised && r.subject == requests[id].subject
                                    && r.now == requests[id].now
             else r.raised == {}
    ensures Raisers(requests[id := r], slot) == Raisers(requests, slot)
  {}

  lemma NotYetRaiser(requests: map<RequestId, Request>, id: RequestId, t: Tier, slot: Slot)
    requires id in requests && t !in requests[id].raised
    ensures (id, t) !in Raisers(requests, slot)
  {}

  lemma RaisedCounts(counts: map<Slot, nat>, requests: map<RequestId, Request>, id: RequestId, t: Tier, r: Request)
    requires CountsExact(counts, requests) && id in requests && t !in requests[id].raised
    requires r.raised == requests[id].raised + {t} && r.subject == requests[id].subject && r.now == requests[id].now
    ensures CountsExact(Raise(counts, SlotOf(r, t)), requests[id := r])
  {
    hide SlotOf, Raisers;
    forall slot ensures CountOf(Raise(counts, SlotOf(r, t)), slot) == |Raisers(requests[id := r], slot)| {
      RaisersAfter(requests, id, r, slot, t);
      NotYetRaiser(requests, id, t, slot);
    }
  }

  lemma SameCounts(counts: map<Slot, nat>, requests: map<RequestId, Request>, id: RequestId, r: Request)
    requires CountsExact(counts, requests)
    requires if id in requests then r.raised == requests[id].raised && r.subject == requests[id].subject
                                    && r.now == requests[id].now
             else r.raised == {}
    ensures CountsExact(counts, requests[id := r])
  {
    hide SlotOf, Raisers;
    forall slot ensures CountOf(counts, slot) == |Raisers(requests[id := r], slot)| {
      RaisersSame(requests, id, r, slot);
    }
  }

  lemma StepKeepsCounts(s: System, step: Step)
    requires AllInOrder(s) && CountsExact(s.counts, s.requests) && Enabled(s, step)
    ensures CountsExact(Next(s, step).counts, Next(s, step).requests)
  {
    hide SlotOf, Raisers, CountsExact, Raise;
    var s' := Next(s, step);
    var r := s'.requests[step.id];
    assert s'.requests == s.requests[step.id := r];
    if step.Increment? && !step.fault.NotCounted? {
      var t := s.requests[step.id].phase.tier;
      SameSlots(r, s.requests[step.id]);
      RaisedCounts(s.counts, s.requests, step.id, t, r);
    } else {
      SameCounts(s.counts, s.requests, step.id, r);
    }
  }

  lemma StepKeepsInv(s: System, step: Step)
    requires Inv(s) && Enabled(s, step)
    ensures Inv(Next(s, step))
  {
    hide CountsExact, TicketsDistinct, LatchExact;
    StepKeepsOrder(s, step);
    StepKeepsLatch(s, step);
    StepKeepsCounts(s, step);
    StepKeepsTickets(s, step);
  }

  ghost predicate Legal(s: System, steps: seq<Step>)
    requires AllInOrder(s)
    decreases |steps|
  {
    steps == [] || (Enabled(s, steps[0]) && (StepKeepsOrder(s, steps[0]); Legal(Next(s, steps[0]), steps[1..])))
  }

  ghost function Execute(s: System, steps: seq<Step>): (t: System)
    requires AllInOrder(s) && Legal(s, steps)
    ensures AllInOrder(t)
    decreases |steps|
  {
    if steps == [] then s else (StepKeepsOrder(s, steps[0]); Execute(Next(s, steps[0]), steps[1..]))
  }

  function Opening(l: Limits): System {
    System(l, map[], {}, map[])
  }

  lemma OpeningInv(l: Limits)
    ensures Inv(Opening(l))
  {}

  lemma {:induction false} RunKeepsInv(s: System, steps: seq<Step>)
    requires Inv(s) && Legal(s, steps)
    ensures Inv(Execute(s, steps)) && Execute(s, steps).limits == s.limits
    decreases |steps|
  {
    hide CountsExact, TicketsDistinct, LatchExact, SlotOf;
    if steps != [] {
      StepKeepsInv(s, steps[0]);
      RunKeepsInv(Next(s, steps[0]), steps[1..]);
    }
  }

  // ---------- Limits ----------

  /** Distinct positive values no larger than `n` are at most `n` many. */
  lemma {:induction false} DistinctBounded(ids: set<RequestId>, value: map<RequestId, int>, n: nat)
    requires ids <= value.Keys
    requires forall i :: i in ids ==> 1 <= value[i] <= n
    requires forall i, j :: i in ids && j in ids && i != j ==> value[i] != value[j]
    ensures |ids| <= n
    decreases n
  {
    if i :| i in ids && value[i] == n {
      DistinctBounded(ids - {i}, value, n - 1);
    } else if n > 0 {
      DistinctBounded(ids, value, n - 1);
    } else {
      assert ids == {};
    }
  }

  /** Requests counted in one row that came back within a limit are no more than the limit. */
  lemma PassersBounded(s: System, ids: set<RequestId>, t: Tier, slot: Slot, limit: int)
    requires TicketsDistinct(s.counts, s.requests)
    requires forall i :: i in ids ==> && i in s.requests && t in s.requests[i].used
                                      && SlotOf(s.requests[i], t) == slot && s.requests[i].used[t] <= limit
    ensures |ids| <= Max0(limit)
  {
    hide SlotOf;
    var value := map i | i in ids :: s.requests[i].used[t];
    if i :| i in ids {
      assert 1 <= s.requests[i].used[t];
    }
    DistinctBounded(ids, value, Max0(limit));
  }

  function Max0(n: int): nat {
    if n < 0 then 0 else n
  }

  ghost function AdmittedIn(s: System, t: Tier, slot: Slot): set<RequestId> {
    set id | id in s.requests && Admitted(s.requests[id]) && SlotOf(s.requests[id], t) == slot
  }

  /** Requests of one subject that raised the global counter of one date. */
  ghost function GlobalRaisers(s: System, subject: Subject, date: int): set<RequestId> {
    set id | id in s.requests && Global in s.requests[id].raised
             && s.requests[id].subject.DayKey() == subject.DayKey() && DateOf(s.requests[id].now) == date
  }

  /** A row is counted against one limit: subjects that share it have the same. */
  lemma SharedRowSharesLimit(l: Limits, s: Subject, now: int, u: Subject, later: int, t: Tier)
    requires SlotFor(s, now, t) == SlotFor(u, later, t)
    ensures LimitOf(l, s, t) == LimitOf(l, u, t)
    ensures t == Hour ==> s.IsGuest() == u.IsGuest()
  {
    if t == Day {
      DayKeysIdentify(s, u);
    } else if t == Hour {
      HourKeysIdentify(s, now, u, later);
    }
  }

  /** MAIN RESULT.  Under every interleaving, with counter errors anywhere: a tier never admits more
      than its limit in one of its rows (an hour of an account, a day of an account or an IP, a day
      of the service); a subject raises the global counter at most its own daily limit times a day;
      and a request refused for the hour has touched no counter but the hour's. */
  lemma LimitsHold(l: Limits, steps: seq<Step>, subject: Subject, now: int, t: Tier)
    requires AllInOrder(Opening(l)) && Legal(Opening(l), steps)
    requires t == Hour ==> !subject.IsGuest()
    ensures var s := Execute(Opening(l), steps);
            && |AdmittedIn(s, t, SlotFor(subject, now, t))| <= Max0(LimitOf(l, subject, t))
            && |GlobalRaisers(s, subject, DateOf(now))| <= Max0(LimitOf(l, subject, Day))
            && (forall id :: id in s.requests && s.requests[id].verdict.Told?
                             && s.requests[id].verdict.decision.Denied?
                             && s.requests[id].verdict.decision.reason == UserHourly ==>
                               s.requests[id].raised == {Hour})
  {
    OpeningInv(l);
    RunKeepsInv(Opening(l), steps);
    var s := Execute(Opening(l), steps);
    AdmissionsBounded(s, subject, now, t);
    GlobalShareBounded(s, subject, now);
  }

  lemma {:induction false} AdmissionsBounded(s: System, subject: Subject, now: int, t: Tier)
    requires Inv(s) && (t == Hour ==> !subject.IsGuest())
    ensures |AdmittedIn(s, t, SlotFor(subject, now, t))| <= Max0(LimitOf(s.limits, subject, t))
  {
    hide LatchExact, CountsExact, TicketsDistinct, SlotFor;
    var ids := AdmittedIn(s, t, SlotFor(subject, now, t));
    forall i | i in ids ensures t in s.requests[i].used && s.requests[i].used[t] <= LimitOf(s.limits, subject, t) {
      SharedRowSharesLimit(s.limits, s.requests[i].subject, s.requests[i].now, subject, now, t);
    }
    PassersBounded(s, ids, t, SlotFor(subject, now, t), LimitOf(s.limits, subject, t));
  }

  lemma {:induction false} GlobalShareBounded(s: System, subject: Subject, now: int)
    requires Inv(s)
    ensures |GlobalRaisers(s, subject, DateOf(now))| <= Max0(LimitOf(s.limits, subject, Day))
  {
    hide LatchExact, CountsExact, TicketsDistinct;
    var ids := GlobalRaisers(s, subject, DateOf(now));
    var slot := SlotFor(subject, now, Day);
    forall i | i in ids
      ensures SlotOf(s.requests[i], Day) == slot
      ensures Day in s.requests[i].used && s.requests[i].used[Day] <= LimitOf(s.limits, subject, Day)
    {
      SharedRowSharesLimit(s.limits, s.requests[i].subject, s.requests[i].now, subject, now, Day);
    }
    PassersBounded(s, ids, Day, slot, LimitOf(s.limits, subject, Day));
  }

  /** MAIN RESULT.  In every reachable state a key is in flight exactly when one request on the latch
      holds it, no two requests hold the same key, and every counter row equals the number of times
      requests raised it. */
  lemma LatchAndCountersExact(l: Limits, steps: seq<Step>)
    requires AllInOrder(Opening(l)) && Legal(Opening(l), steps)
    ensures var s := Execute(Opening(l), steps);
            LatchExact(s.inFlight, s.requests) && CountsExact(s.counts, s.requests)
  {
    OpeningInv(l);
    RunKeepsInv(Opening(l), steps);
  }

  /** A released request stays off the latch, so releasing it again at any later time, whoever holds
      its key by then, changes nothing. */
  lemma {:induction false} ReleaseOnce(s: System, id: RequestId, steps: seq<Step>)
    requires AllInOrder(s) && id in s.requests && s.requests[id].phase.Gone?
    requires Legal(s, steps)
    ensures var s' := Execute(s, steps);
            && AllInOrder(s') && Enabled(s', Release(id)) && Next(s', Release(id)) == s'
    decreases |steps|
  {
    hide SlotOf;
    if steps != [] {
      StepKeepsOrder(s, steps[0]);
      ReleaseOnce(Next(s, steps[0]), id, steps[1..]);
    }
  }

  // ---------- One charge on its own ----------

  function Rank(p: Phase): nat {
    match p
    case Counting(Hour) => 3
    case Counting(Day) => 2
    case Counting(Global) => 1
    case _ => 0
  }

  /** The rest of a charge run on its own: the counters and the request once it is decided. */
  function ChargeFrom(l: Limits, counts: map<Slot, nat>, r: Request, faults: Tier -> Fault): (map<Slot, nat>, Request)
    requires WellFormed(r)
    decreases Rank(r.phase)
  {
    if !r.phase.Counting? then (counts, r)
    else
      var t := r.phase.tier;
      var slot := SlotOf(r, t);
      var f := faults(t);
      var counts' := if f.NotCounted? then counts else Raise(counts, slot);
      if f.NoFault? then ChargeFrom(l, counts', AfterCount(l, r, CountOf(counts, slot) + 1), faults)
      else (counts', AfterFault(r, f))
  }

  /** One tier of a charge. */
  lemma ChargeStep(l: Limits, counts: map<Slot, nat>, r: Request, faults: Tier -> Fault)
    requires WellFormed(r)
    ensures ChargeFrom(l, counts, r, faults)
            == if !r.phase.Counting? then (counts, r)
               else
                 var t := r.phase.tier;
                 var slot := SlotOf(r, t);
                 if faults(t).NoFault? then
                   ChargeFrom(l, Raise(counts, slot), AfterCount(l, r, CountOf(counts, slot) + 1), faults)
                 else (if faults(t).NotCounted? then counts else Raise(counts, slot), AfterFault(r, faults(t)))
  {}

  function Fresh(s: Subject, now: int): (r: Request)
    ensures WellFormed(r)
  {
    Request(s, now, Counting(FirstTier(s)), map[], {}, Pending)
  }

  /** The increments of one charge, in order, with their faults. */
  function Increments(id: RequestId, p: Phase, faults: Tier -> Fault): seq<Step>
    decreases Rank(p)
  {
    match p
    case Counting(Hour) => [Increment(id, faults(Hour))] + Increments(id, Counting(Day), faults)
    case Counting(Day) => [Increment(id, faults(Day))] + Increments(id, Counting(Global), faults)
    case Counting(Global) => [Increment(id, faults(Global))]
    case _ => []
  }

  /** One increment is one tier of the charge. */
  lemma IncrementIsTier(s: System, id: RequestId, faults: Tier -> Fault)
    requires AllInOrder(s) && id in s.requests && s.requests[id].phase.Counting?
    ensures var r := s.requests[id]; var t := Next(s, Increment(id, faults(r.phase.tier)));
            && AllInOrder(t) && id in t.requests && t == s.(counts := t.counts, requests := s.requests[id := t.requests[id]])
            && ChargeFrom(s.limits, s.counts, r, faults) == ChargeFrom(t.limits, t.counts, t.requests[id], faults)
            && Increments(id, t.requests[id].phase, faults) <= Increments(id, r.phase, faults)[1..]
            && Increments(id, r.phase, faults)[0] == Increment(id, faults(r.phase.tier))
            && Rank(t.requests[id].phase) < Rank(r.phase)
  {
    hide SlotFor, Raise, Remaining, Denial;
    StepKeepsOrder(s, Increment(id, faults(s.requests[id].phase.tier)));
    ChargeStep(s.limits, s.counts, s.requests[id], faults);
  }

  lemma LegalStep(s: System, step: Step, rest: seq<Step>)
    requires AllInOrder(s) && Enabled(s, step) && AllInOrder(Next(s, step)) && Legal(Next(s, step), rest)
    ensures Legal(s, [step] + rest) && Execute(s, [step] + rest) == Execute(Next(s, step), rest)
  {
    hide AllInOrder;
    assert ([step] + rest)[1..] == rest;
  }

  ghost predicate IsRunOf(s: System, id: RequestId, faults: Tier -> Fault, steps: seq<Step>)
    requires AllInOrder(s) && id in s.requests
  {
    var (counts, r) := ChargeFrom(s.limits, s.counts, s.requests[id], faults);
    && steps <= Increments(id, s.requests[id].phase, faults)
    && Legal(s, steps)
    && Execute(s, steps) == s.(counts := counts, requests := s.requests[id := r])
  }

  lemma IncrementThenRun(s: System, id: RequestId, faults: Tier -> Fault, rest: seq<Step>)
    requires AllInOrder(s) && id in s.requests && s.requests[id].phase.Counting?
    requires WellFormed(s.requests[id]) && Enabled(s, Increment(id, faults(s.requests[id].phase.tier)))
    requires var t := Next(s, Increment(id, faults(s.requests[id].phase.tier)));
             AllInOrder(t) && id in t.requests && IsRunOf(t, id, faults, rest)
    ensures IsRunOf(s, id, faults, [Increment(id, faults(s.requests[id].phase.tier))] + rest)
  {
    var step := Increment(id, faults(s.requests[id].phase.tier));
    IncrementIsTier(s, id, faults);
    var t := Next(s, step);
    LegalStep(s, step, rest);
    hide ChargeFrom, WellFormed, AllInOrder, Increments, Next, Legal, Execute;
    var (counts, r) := ChargeFrom(s.limits, s.counts, s.requests[id], faults);
    assert t.requests[id := r] == s.requests[id := r];
  }

  /** A charge on its own is a run of the increments it makes, the first few of that list: nothing else
      happens in between. */
  lemma {:induction false} ChargeIsRun(s: System, id: RequestId, faults: Tier -> Fault)
    requires AllInOrder(s) && id in s.requests
    ensures var (counts, r) := ChargeFrom(s.limits, s.counts, s.requests[id], faults);
            exists steps ::
              && steps <= Increments(id, s.requests[id].phase, faults)
              && Legal(s, steps)
              && Execute(s, steps) == s.(counts := counts, requests := s.requests[id := r])
  {
    ChargeRuns(s, id, faults);
    var steps :| IsRunOf(s, id, faults, steps);
  }

  lemma {:induction false} ChargeRuns(s: System, id: RequestId, faults: Tier -> Fault)
    requires AllInOrder(s) && id in s.requests
    ensures exists steps :: IsRunOf(s, id, faults, steps)
    decreases Rank(s.requests[id].phase)
  {
    var r := s.requests[id];
    assert WellFormed(r) by { assert InOrder(s.limits, r); }
    hide InOrder, Raise, SlotOf;
    if !r.phase.Counting? {
      assert s.requests[id := r] == s.requests;
      assert IsRunOf(s, id, faults, []);
    } else {
      IncrementIsTier(s, id, faults);
      var t := Next(s, Increment(id, faults(r.phase.tier)));
      hide ChargeFrom, Increments, Next, Legal, Execute, AfterCount, AfterFault, AllInOrder, WellFormed, IsRunOf;
      ChargeRuns(t, id, faults);
      var rest :| IsRunOf(t, id, faults, rest);
      IncrementThenRun(s, id, faults, rest);
    }
  }

  /** How often the counter row would have been raised, this charge included. */
  function Used(counts: map<Slot, nat>, key: string, now: int): nat {
    CountOf(counts, (key, DateOf(now))) + 1
  }

  /** The last tier, at the global row. */
  lemma GlobalTells(l: Limits, counts: map<Slot, nat>, r: Request, faults: Tier -> Fault)
    requires WellFormed(r) && r.phase == Counting(Global)
    ensures var told := ChargeFrom(l, counts, r, faults).1.verdict;
            if !faults(Global).NoFault? then told == Failed
            else if l.globalDaily < Used(counts, "global", r.now) then told == Told(Denied(GlobalDaily, UntilNextDay(r.now)))
            else if r.subject.userId == "" then told == Told(Allowed(l.guestDaily - r.used[Day]))
            else told == Told(Allowed(Min(l.userHourly - r.used[Hour], l.userDaily - r.used[Day])))
  {
    hide ChargeFrom, UntilNextDay, UntilNextHour, DateOf, HourOf, TwoDigits;
    ChargeStep(l, counts, r, faults);
    if faults(Global).NoFault? {
      ChargeStep(l, Raise(counts, SlotOf(r, Global)), AfterCount(l, r, CountOf(counts, SlotOf(r, Global)) + 1), faults);
    }
  }

  /** The last two tiers. */
  lemma DayTells(l: Limits, counts: map<Slot, nat>, r: Request, faults: Tier -> Fault)
    requires WellFormed(r) && r.phase == Counting(Day)
    ensures var told := ChargeFrom(l, counts, r, faults).1.verdict;
            var day := Used(counts, if r.subject.userId == "" then "ip:" + r.subject.ip else "user:" + r.subject.userId, r.now);
            if !faults(Day).NoFault? then told == Failed
            else if r.subject.userId == "" && l.guestDaily < day then told == Told(Denied(GuestDaily, UntilNextDay(r.now)))
            else if r.subject.userId != "" && l.userDaily < day then told == Told(Denied(UserDaily, UntilNextDay(r.now)))
            else if !faults(Global).NoFault? then told == Failed
            else if l.globalDaily < Used(counts, "global", r.now) then
              told == Told(Denied(GlobalDaily, UntilNextDay(r.now)))
            else if r.subject.userId == "" then told == Told(Allowed(l.guestDaily - day))
            else told == Told(Allowed(Min(l.userHourly - r.used[Hour], l.userDaily - day)))
  {
    hide ChargeFrom, UntilNextDay, UntilNextHour, DateOf, HourOf, TwoDigits;
    ChargeStep(l, counts, r, faults);
    if faults(Day).NoFault? {
      KeyKindsDisjoint(r.subject, r.subject, r.now);
      var slot := SlotOf(r, Day);
      var counts', r' := Raise(counts, slot), AfterCount(l, r, CountOf(counts, slot) + 1);
      assert Used(counts', "global", r.now) == Used(counts, "global", r.now);
      if r'.phase == Counting(Global) {
        GlobalTells(l, counts', r', faults);
      } else {
        ChargeStep(l, counts', r', faults);
      }
    }
  }

  /** MAIN RESULT for one charge.  What the caller is told, for every subject, every state of the counters
      and every fault: an account is asked for its hour, then its day, a guest for its day, then everyone
      for the global row; the first counter that fails or passes its limit decides, and a full one
      asks to wait for the next hour, or for the next day. */
  lemma ChargeTells(l: Limits, counts: map<Slot, nat>, s: Subject, now: int, faults: Tier -> Fault)
    ensures var told := ChargeFrom(l, counts, Fresh(s, now), faults).1.verdict;
            var hour := Used(counts, "userhour:" + s.userId + ":" + TwoDigits(HourOf(now)), now);
            var day := Used(counts, if s.userId == "" then "ip:" + s.ip else "user:" + s.userId, now);
            var all := Used(counts, "global", now);
            if s.userId != "" && !faults(Hour).NoFault? then told == Failed
            else if s.userId != "" && l.userHourly < hour then told == Told(Denied(UserHourly, UntilNextHour(now)))
            else if !faults(Day).NoFault? then told == Failed
            else if s.userId == "" && l.guestDaily < day then told == Told(Denied(GuestDaily, UntilNextDay(now)))
            else if s.userId != "" && l.userDaily < day then told == Told(Denied(UserDaily, UntilNextDay(now)))
            else if !faults(Global).NoFault? then told == Failed
            else if l.globalDaily < all then told == Told(Denied(GlobalDaily, UntilNextDay(now)))
            else if s.userId == "" then told == Told(Allowed(l.guestDaily - day))
            else told == Told(Allowed(Min(l.userHourly - hour, l.userDaily - day)))
  {
    hide ChargeFrom, UntilNextDay, UntilNextHour, DateOf, HourOf, TwoDigits;
    var r := Fresh(s, now);
    if s.IsGuest() {
      DayTells(l, counts, r, faults);
    } else {
      ChargeStep(l, counts, r, faults);
      if faults(Hour).NoFault? {
        var slot := SlotOf(r, Hour);
        var counts', r' := Raise(counts, slot), AfterCount(l, r, CountOf(counts, slot) + 1);
        KeyKindsDisjoint(s, s, now);
        assert Used(counts', "global", now) == Used(counts, "global", now);
        assert Used(counts', "user:" + s.userId, now) == Used(counts, "user:" + s.userId, now);
        if r'.phase == Counting(Day) {
          DayTells(l, counts', r', faults);
        } else {
          ChargeStep(l, counts', r', faults);
        }
      }
    }
  }

  /** The subject is within its own limits and the global row stands at its own. */
  predicate CeilingReached(l: Limits, counts: map<Slot, nat>, s: Subject, now: int) {
    && l.globalDaily < Used(counts, "global", now)
    && (s.userId == "" ==> Used(counts, "ip:" + s.ip, now) <= l.guestDaily)
    && (s.userId != "" ==>
          && Used(counts, "userhour:" + s.userId + ":" + TwoDigits(HourOf(now)), now) <= l.userHourly
          && Used(counts, "user:" + s.userId, now) <= l.userDaily)
  }

  /** Exactly then, if no counter fails, a charge is refused at the global ceiling. */
  lemma CeilingRefuses(l: Limits, counts: map<Slot, nat>, s: Subject, now: int, faults: Tier -> Fault)
    requires forall t :: faults(t).NoFault?
    ensures CeilingReached(l, counts, s, now)
            <==> ChargeFrom(l, counts, Fresh(s, now), faults).1.verdict == Told(Denied(GlobalDaily, UntilNextDay(now)))
  {
    ChargeTells(l, counts, s, now, faults);
    hide ChargeFrom, UntilNextDay, UntilNextHour, Used;
  }

  /** A second request while the first is on the latch is told to come back in three seconds, and leaves
      no trace. */
  lemma BusyIsTurnedAway(s: System, id: RequestId, first: RequestId, subject: Subject, now: int)
    requires AllInOrder(s) && LatchExact(s.inFlight, s.requests) && id !in s.requests
    requires first in s.requests && OnLatch(s.requests[first]) && s.requests[first].subject.DayKey() == subject.DayKey()
    ensures forall step :: step in {Acquire(id, subject, now), Reserve(id, subject, now)} ==>
              && Enabled(s, step)
              && var t := Next(s, step);
                 && t == s.(requests := t.requests) && t.requests - {id} == s.requests && id in t.requests
                 && t.requests[id].verdict == Told(Denied(InFlight, 3_000_000_000)) && !OnLatch(t.requests[id])
  {}
}
