/** The reported `Remaining` is exact over every interleaving of increments: an admission that reports `m`
    is followed by exactly `m` more of that subject's charges passing its own tiers in the same hour and
    day, however the increments of all requests interleave. */
module QuotaRemaining {
  import opened QuotaKeys
  import opened QuotaAdmission

  predicate Mine(r: Request, s: Subject) {
    r.subject.DayKey() == s.DayKey()
  }

  // ---------- A subject's own rows ----------

  /** A subject's own rows are raised by nobody else, and not as the global row. */
  lemma OthersRow(s: Subject, now: int, u: Subject, later: int, t: Tier)
    requires s.DayKey() != u.DayKey() || t == Global
    requires t == Hour ==> !u.IsGuest()
    ensures SlotFor(u, later, t) != SlotFor(s, now, Day)
    ensures !s.IsGuest() ==> SlotFor(u, later, t) != SlotFor(s, now, Hour)
  {
    hide Subject.DayKey, Subject.HourKey;
    KeyKindsDisjoint(s, u, later);
    KeyKindsDisjoint(u, s, now);
    KeyKindsDisjoint(s, s, now);
    if !s.IsGuest() && !u.IsGuest() {
      DayKeysIdentify(u, s);
      HourKeysIdentify(u, later, s, now);
    }
  }

  /** One own row is not the other. */
  lemma OwnRowsDiffer(s: Subject, now: int)
    ensures SlotFor(s, now, Day) != SlotFor(s, now, Hour)
  {
    hide Subject.DayKey, Subject.HourKey;
    KeyKindsDisjoint(s, s, now);
  }

  /** The rows of a request on the latch still stand where they answered it, and an admission reports
      what those answers leave. */
  ghost predicate OwnRowsStill(l: Limits, counts: map<Slot, nat>, r: Request) {
    && (Hour in r.used ==> r.used[Hour] == CountOf(counts, SlotOf(r, Hour)))
    && (Day in r.used ==> r.used[Day] == CountOf(counts, SlotOf(r, Day)))
    && (r.phase.Holding? && r.raised != {} ==>
          && Global in r.raised && Day in r.used && (!r.subject.IsGuest() ==> Hour in r.used)
          && r.phase.decision == Allowed(Remaining(l, r.subject, r.used)))
  }

  ghost predicate LatchedRowsStill(s: System) {
    forall id :: id in s.requests && OnLatch(s.requests[id]) ==> OwnRowsStill(s.limits, s.counts, s.requests[id])
  }

  lemma RaiseElsewhere(l: Limits, counts: map<Slot, nat>, r: Request, slot: Slot)
    requires InOrder(l, r) && OwnRowsStill(l, counts, r)
    requires slot != SlotOf(r, Day) && (!r.subject.IsGuest() ==> slot != SlotOf(r, Hour))
    ensures OwnRowsStill(l, Raise(counts, slot), r)
  {
    hide SlotOf;
  }

  /** The request that was counted has its own answer to show. */
  lemma CountedRowsStill(l: Limits, counts: map<Slot, nat>, r: Request)
    requires InOrder(l, r) && OwnRowsStill(l, counts, r) && r.phase.Counting?
    ensures var slot := SlotOf(r, r.phase.tier);
            OwnRowsStill(l, Raise(counts, slot), AfterCount(l, r, CountOf(counts, slot) + 1))
  {
    hide Subject.DayKey, Subject.HourKey, Denial;
    OwnRowsDiffer(r.subject, r.now);
    OthersRow(r.subject, r.now, r.subject, r.now, Global);
  }

  lemma FaultedRowsStill(l: Limits, counts: map<Slot, nat>, r: Request, f: Fault)
    requires InOrder(l, r) && OwnRowsStill(l, counts, r) && r.phase.Counting? && !f.NoFault?
    ensures var slot := SlotOf(r, r.phase.tier);
            OwnRowsStill(l, if f.ReplyLost? then Raise(counts, slot) else counts, AfterFault(r, f))
  {
    hide Subject.DayKey, Subject.HourKey;
    OwnRowsDiffer(r.subject, r.now);
    OthersRow(r.subject, r.now, r.subject, r.now, Global);
  }

  lemma IncrementKeepsRows(s: System, id: RequestId, fault: Fault)
    requires Inv(s) && LatchedRowsStill(s) && Enabled(s, Increment(id, fault))
    ensures LatchedRowsStill(Next(s, Increment(id, fault)))
  {
    var t := Next(s, Increment(id, fault));
    var r := s.requests[id];
    assert WellFormed(r) && InOrder(s.limits, r) && OnLatch(r);
    hide Subject.DayKey, Subject.HourKey, SlotOf, CountsExact, TicketsDistinct, InOrder, OwnRowsStill, Raise;
    if fault.NoFault? {
      CountedRowsStill(s.limits, s.counts, r);
    } else {
      FaultedRowsStill(s.limits, s.counts, r, fault);
    }
    forall other | other in t.requests && other != id && OnLatch(t.requests[other])
      ensures OwnRowsStill(t.limits, t.counts, t.requests[other])
    {
      OthersStayStill(s, id, other);
    }
  }

  lemma StepKeepsRows(s: System, step: Step)
    requires Inv(s) && LatchedRowsStill(s) && Enabled(s, step)
    ensures LatchedRowsStill(Next(s, step))
  {
    if step.Increment? {
      hide *;
      IncrementKeepsRows(s, step.id, step.fault);
    } else {
      var t := Next(s, step);
      hide Subject.DayKey, Subject.HourKey, SlotOf, CountsExact, TicketsDistinct, InOrder, OwnRowsStill, Raise;
      forall id | id in t.requests && OnLatch(t.requests[id])
        ensures OwnRowsStill(t.limits, t.counts, t.requests[id])
      {
        if id !in s.requests {
          NewRowsStill(t.limits, t.counts, t.requests[id]);
        }
      }
    }
  }

  lemma NewRowsStill(l: Limits, counts: map<Slot, nat>, r: Request)
    requires r.used == map[] && r.raised == {}
    ensures OwnRowsStill(l, counts, r)
  {}

  /** An increment leaves the own rows of every other request on the latch alone. */
  lemma OthersStayStill(s: System, id: RequestId, other: RequestId)
    requires Inv(s) && LatchedRowsStill(s)
    requires id in s.requests && s.requests[id].phase.Counting?
    requires other in s.requests && other != id && OnLatch(s.requests[other])
    ensures OwnRowsStill(s.limits, Raise(s.counts, SlotOf(s.requests[id], s.requests[id].phase.tier)), s.requests[other])
  {
    hide Subject.DayKey, Subject.HourKey, CountsExact, TicketsDistinct, OwnRowsStill, Raise, SlotFor;
    var r, q := s.requests[id], s.requests[other];
    assert InOrder(s.limits, r) && InOrder(s.limits, q) && OnLatch(r);
    OthersRow(q.subject, q.now, r.subject, r.now, r.phase.tier);
    RaiseElsewhere(s.limits, s.counts, q, SlotOf(r, r.phase.tier));
  }

  ghost predicate Right(s: System) {
    Inv(s) && LatchedRowsStill(s)
  }

  lemma {:induction false} RunKeepsRight(s: System, steps: seq<Step>)
    requires Right(s) && Legal(s, steps)
    ensures Right(Execute(s, steps)) && Execute(s, steps).limits == s.limits
    decreases |steps|
  {
    hide LatchedRowsStill, LatchExact, CountsExact, TicketsDistinct;
    RunKeepsInv(s, steps);
    if steps != [] {
      StepKeepsInv(s, steps[0]);
      StepKeepsRows(s, steps[0]);
      RunKeepsRight(Next(s, steps[0]), steps[1..]);
    }
  }

  // ---------- The subject's requests since an admission ----------

  /** Requests of `s` other than those in `known` that were counted at all, that are over with counting,
      and that got past the subject's own tiers. */
  ghost function Charged(requests: map<RequestId, Request>, known: set<RequestId>, s: Subject): set<RequestId> {
    set i | i in requests && i !in known && Mine(requests[i], s) && requests[i].raised != {}
  }

  ghost function Decided(requests: map<RequestId, Request>, known: set<RequestId>, s: Subject): set<RequestId> {
    set i | i in requests && i !in known && Mine(requests[i], s) && requests[i].raised != {}
            && !requests[i].phase.Counting?
  }

  ghost function Passed(requests: map<RequestId, Request>, known: set<RequestId>, s: Subject): set<RequestId> {
    set i | i in requests && i !in known && Mine(requests[i], s) && Global in requests[i].raised
  }

  /** How many more charges the subject's own rows leave room for. */
  function Left(l: Limits, counts: map<Slot, nat>, s: Subject, now: int): int {
    var day := LimitOf(l, s, Day) - CountOf(counts, SlotFor(s, now, Day));
    if s.IsGuest() then day else Min(l.userHourly - CountOf(counts, SlotFor(s, now, Hour)), day)
  }

  /** What was left before a request that is still being counted began. */
  function LeftBefore(l: Limits, counts: map<Slot, nat>, r: Request): int {
    var day := LimitOf(l, r.subject, Day) - CountOf(counts, SlotOf(r, Day)) + if Day in r.raised then 1 else 0;
    if r.subject.IsGuest() then day
    else
      var hour := l.userHourly - CountOf(counts, SlotOf(r, Hour)) + if Hour in r.raised then 1 else 0;
      Min(hour, day)
  }

  /** `x` is left after `decided` charges out of `m`; past those nothing is left. */
  predicate Fits(x: int, decided: nat, m: nat) {
    if decided <= m then x == m - decided else x <= 0
  }

  ghost predicate NobodyCounting(requests: map<RequestId, Request>, s: Subject) {
    forall i :: i in requests && Mine(requests[i], s) ==> !requests[i].phase.Counting?
  }

  /** The state of the count: as many passed as were decided, up to `m`, and the rows leave the rest. */
  ghost predicate Track(l: Limits, counts: map<Slot, nat>, requests: map<RequestId, Request>,
                        known: set<RequestId>, s: Subject, now: int, m: nat) {
    var decided, passed := |Decided(requests, known, s)|, |Passed(requests, known, s)|;
    && passed == Min(decided, m)
    && (forall i :: i in requests && Mine(requests[i], s) && requests[i].phase.Counting? ==>
          i !in known && Fits(LeftBefore(l, counts, requests[i]), decided, m))
    && (NobodyCounting(requests, s) ==> Fits(Left(l, counts, s, now), decided, m))
  }

  ghost predicate TrackOf(t: System, known: set<RequestId>, s: Subject, now: int, m: nat) {
    Track(t.limits, t.counts, t.requests, known, s, now, m)
  }

  /** The subject's new requests keep the hour and the day, and none failed at a counter. */
  ghost predicate KeepsHour(requests: map<RequestId, Request>, known: set<RequestId>, s: Subject, now: int) {
    forall i :: i in requests && i !in known && Mine(requests[i], s) ==>
      && DateOf(requests[i].now) == DateOf(now) && (s.IsGuest() || HourOf(requests[i].now) == HourOf(now))
      && !requests[i].verdict.Failed?
  }

  /** A step that touches no own row and changes no standing of the subject's requests. */
  lemma SameSets(requests: map<RequestId, Request>, id: RequestId, r: Request, known: set<RequestId>, s: Subject)
    requires if id in requests then
               && r.subject == requests[id].subject
               && (Mine(r, s) ==> r.raised == requests[id].raised
                                  && r.phase.Counting? == requests[id].phase.Counting?)
             else Mine(r, s) ==> r.raised == {}
    ensures Decided(requests[id := r], known, s) == Decided(requests, known, s)
    ensures Passed(requests[id := r], known, s) == Passed(requests, known, s)
  {
    hide Subject.DayKey;
  }

  lemma SameLeft(l: Limits, counts: map<Slot, nat>, s: Subject, now: int, r: Request)
    requires Mine(r, s) && DateOf(r.now) == DateOf(now) && (s.IsGuest() || HourOf(r.now) == HourOf(now))
    ensures Left(l, counts, s, now) == Left(l, counts, r.subject, r.now)
    ensures r.raised == {} ==> LeftBefore(l, counts, r) == Left(l, counts, s, now)
  {
    DayKeysIdentify(s, r.subject);
  }

  /** The latch holds one request of the subject at a time. */
  lemma AloneOnLatch(t: System, id: RequestId, s: Subject)
    requires LatchExact(t.inFlight, t.requests) && id in t.requests && Mine(t.requests[id], s) && OnLatch(t.requests[id])
    ensures forall i :: i in t.requests && i != id && Mine(t.requests[i], s) ==> !t.requests[i].phase.Counting?
  {
    hide Subject.DayKey;
    forall i | i in t.requests && i != id && Mine(t.requests[i], s) ensures !OnLatch(t.requests[i]) {}
  }

  lemma FreeMeansNobody(t: System, s: Subject)
    requires LatchExact(t.inFlight, t.requests) && s.DayKey() !in t.inFlight
    ensures NobodyCounting(t.requests, s)
  {
    hide Subject.DayKey;
    forall i | i in t.requests && Mine(t.requests[i], s) ensures !OnLatch(t.requests[i]) {}
  }

  /** A request changes, or joins, without starting or ending a count of the subject. */
  lemma QuietTrack(l: Limits, counts: map<Slot, nat>, requests: map<RequestId, Request>, id: RequestId, r: Request,
                   known: set<RequestId>, s: Subject, now: int, m: nat)
    requires Track(l, counts, requests, known, s, now, m)
    requires if id in requests then
               && r.subject == requests[id].subject
               && (Mine(r, s) ==> r.raised == requests[id].raised && !r.phase.Counting? && !requests[id].phase.Counting?)
             else Mine(r, s) ==> r.raised == {} && !r.phase.Counting?
    ensures Track(l, counts, requests[id := r], known, s, now, m)
  {
    hide Subject.DayKey, Fits, Left, LeftBefore, Decided, Passed;
    SameSets(requests, id, r, known, s);
    if NobodyCounting(requests[id := r], s) {
      forall i | i in requests && Mine(requests[i], s) ensures !requests[i].phase.Counting? {
        assert i in requests[id := r];
      }
    }
  }

  /** A request of the subject starts to be counted, nobody else of it being counted. */
  lemma EnterTrack(l: Limits, counts: map<Slot, nat>, requests: map<RequestId, Request>, id: RequestId, r: Request,
                   known: set<RequestId>, s: Subject, now: int, m: nat)
    requires Track(l, counts, requests, known, s, now, m) && NobodyCounting(requests, s)
    requires id !in requests && id !in known && Mine(r, s) && r.raised == {} && r.phase.Counting?
    requires DateOf(r.now) == DateOf(now) && (s.IsGuest() || HourOf(r.now) == HourOf(now))
    ensures Track(l, counts, requests[id := r], known, s, now, m)
  {
    SameSets(requests, id, r, known, s);
    SameLeft(l, counts, s, now, r);
    hide Subject.DayKey, Fits, Left, LeftBefore, Decided, Passed;
    assert !NobodyCounting(requests[id := r], s) by { assert id in requests[id := r]; }
  }

  /** Getting on or off the latch, or being turned away. */
  lemma LatchTrack(t: System, step: Step, known: set<RequestId>, s: Subject, now: int, m: nat)
    requires Right(t) && Enabled(t, step) && !step.Increment? && known <= t.requests.Keys
    requires TrackOf(t, known, s, now, m) && KeepsHour(Next(t, step).requests, known, s, now)
    ensures TrackOf(Next(t, step), known, s, now, m)
  {
    hide Subject.DayKey, LatchExact, CountsExact, TicketsDistinct, LatchedRowsStill, Track, SlotFor;
    var u := Next(t, step);
    var r := u.requests[step.id];
    assert u.requests == t.requests[step.id := r] && u.counts == t.counts && u.limits == t.limits;
    if Mine(r, s) && r.phase.Counting? {
      FreeMeansNobody(t, s);
      EnterTrack(t.limits, t.counts, t.requests, step.id, r, known, s, now, m);
    } else {
      QuietTrack(t.limits, t.counts, t.requests, step.id, r, known, s, now, m);
    }
  }

  /** An own row of the subject that another subject's increment leaves alone leaves as much as before. */
  lemma OthersLeave(l: Limits, counts: map<Slot, nat>, r: Request, s: Subject, now: int, q: Request)
    requires InOrder(l, r) && r.phase.Counting? && !Mine(r, s)
    ensures var counts' := Raise(counts, SlotOf(r, r.phase.tier));
            && Left(l, counts', s, now) == Left(l, counts, s, now)
            && (Mine(q, s) ==> LeftBefore(l, counts', q) == LeftBefore(l, counts, q))
  {
    hide Subject.DayKey, Subject.HourKey, SlotFor;
    OthersRow(s, now, r.subject, r.now, r.phase.tier);
    if Mine(q, s) {
      OthersRow(q.subject, q.now, r.subject, r.now, r.phase.tier);
    }
  }

  /** An increment of another subject. */
  lemma OthersTrack(t: System, step: Step, known: set<RequestId>, s: Subject, now: int, m: nat)
    requires Right(t) && Enabled(t, step) && step.Increment? && !Mine(t.requests[step.id], s)
    requires TrackOf(t, known, s, now, m)
    ensures TrackOf(Next(t, step), known, s, now, m)
  {
    hide Subject.DayKey, LatchExact, CountsExact, TicketsDistinct, LatchedRowsStill, SlotOf, Raise, Denial, Remaining;
    var u, r := Next(t, step), t.requests[step.id];
    assert InOrder(t.limits, r);
    QuietTrack(t.limits, t.counts, t.requests, step.id, u.requests[step.id], known, s, now, m);
    hide Next, Left, LeftBefore, Fits, Decided, Passed;
    OthersLeave(t.limits, t.counts, r, s, now, r);
    forall i | i in u.requests && Mine(u.requests[i], s)
      ensures LeftBefore(u.limits, u.counts, u.requests[i]) == LeftBefore(t.limits, t.counts, u.requests[i])
    {
      OthersLeave(t.limits, t.counts, r, s, now, u.requests[i]);
    }
  }

  // ---------- The subject's own increments ----------

  /** What one faultless increment of the subject does to what was left before it. */
  lemma CountedLeaves(l: Limits, counts: map<Slot, nat>, r: Request)
    requires InOrder(l, r) && OwnRowsStill(l, counts, r) && r.phase.Counting?
    ensures var tier := r.phase.tier;
            var counts' := Raise(counts, SlotOf(r, tier));
            var r' := AfterCount(l, r, CountOf(counts, SlotOf(r, tier)) + 1);
            var before := LeftBefore(l, counts, r);
            if r'.phase.Counting? then
              LeftBefore(l, counts', r') == before && Global !in r'.raised
            else if tier == Global then
              before > 0 && Left(l, counts', r.subject, r.now) == before - 1 && Global in r'.raised
            else
              before <= 0 && Left(l, counts', r.subject, r.now) <= 0 && Global !in r'.raised
  {
    hide Subject.DayKey, Subject.HourKey, Denial, Remaining;
    OwnRowsDiffer(r.subject, r.now);
    OthersRow(r.subject, r.now, r.subject, r.now, Global);
  }

  lemma OwnSets(requests: map<RequestId, Request>, id: RequestId, r: Request, known: set<RequestId>, s: Subject)
    requires id in requests && id !in known && Mine(requests[id], s) && requests[id].phase.Counting?
    requires Global !in requests[id].raised && r.subject == requests[id].subject
    ensures Passed(requests[id := r], known, s)
            == if Global in r.raised then Passed(requests, known, s) + {id} else Passed(requests, known, s)
    ensures id !in Passed(requests, known, s) && id !in Decided(requests, known, s)
    ensures Decided(requests[id := r], known, s)
            == if r.phase.Counting? || r.raised == {} then Decided(requests, known, s)
               else Decided(requests, known, s) + {id}
  {
    hide Subject.DayKey;
  }

  lemma OwnCounts(requests: map<RequestId, Request>, id: RequestId, r: Request, known: set<RequestId>, s: Subject)
    requires id in requests && id !in known && Mine(requests[id], s) && requests[id].phase.Counting?
    requires Global !in requests[id].raised && r.subject == requests[id].subject && r.raised != {}
    ensures |Passed(requests[id := r], known, s)| == |Passed(requests, known, s)| + if Global in r.raised then 1 else 0
    ensures |Decided(requests[id := r], known, s)| == |Decided(requests, known, s)| + if r.phase.Counting? then 0 else 1
  {
    hide Passed, Decided, Subject.DayKey;
    OwnSets(requests, id, r, known, s);
  }

  /** The count goes on, or is decided. */
  lemma DecideTrack(l: Limits, counts: map<Slot, nat>, counts': map<Slot, nat>, requests: map<RequestId, Request>,
                    id: RequestId, r: Request, known: set<RequestId>, s: Subject, now: int, m: nat)
    requires Track(l, counts, requests, known, s, now, m)
    requires id in requests && Mine(requests[id], s) && requests[id].phase.Counting? && r.subject == requests[id].subject
    requires forall i :: i in requests && i != id && Mine(requests[i], s) ==> !requests[i].phase.Counting?
    requires Global !in requests[id].raised && r.raised != {}
    requires var before := LeftBefore(l, counts, requests[id]);
             if r.phase.Counting? then LeftBefore(l, counts', r) == before && Global !in r.raised
             else if Global in r.raised then before > 0 && Left(l, counts', s, now) == before - 1
             else before <= 0 && Left(l, counts', s, now) <= 0
    ensures Track(l, counts', requests[id := r], known, s, now, m)
  {
    hide Subject.DayKey, Left, LeftBefore, Decided, Passed;
    OwnCounts(requests, id, r, known, s);
    assert r.phase.Counting? ==> !NobodyCounting(requests[id := r], s) by { assert id in requests[id := r]; }
  }

  lemma OwnTrack(t: System, id: RequestId, known: set<RequestId>, s: Subject, now: int, m: nat)
    requires Right(t) && Enabled(t, Increment(id, NoFault)) && Mine(t.requests[id], s)
    requires TrackOf(t, known, s, now, m) && KeepsHour(Next(t, Increment(id, NoFault)).requests, known, s, now)
    ensures TrackOf(Next(t, Increment(id, NoFault)), known, s, now, m)
  {
    hide Subject.DayKey, SlotOf, CountsExact, TicketsDistinct, LatchExact, Left, LeftBefore, OwnRowsStill, Raise;
    var u := Next(t, Increment(id, NoFault));
    var r, r' := t.requests[id], u.requests[id];
    assert id !in known by { hide Decided, Passed; }
    assert InOrder(t.limits, r) && OnLatch(r) && OwnRowsStill(t.limits, t.counts, r);
    CountedLeaves(t.limits, t.counts, r);
    AloneOnLatch(t, id, s);
    SameLeft(u.limits, u.counts, s, now, r');
    hide Track, Next;
    DecideTrack(t.limits, t.counts, u.counts, t.requests, id, r', known, s, now, m);
  }

  // ---------- Whole runs ----------

  /** Requests stay what they are, and a failure stays one. */
  lemma StepKeepsRequests(t: System, step: Step, i: RequestId)
    requires AllInOrder(t) && Enabled(t, step) && i in t.requests
    ensures var u := Next(t, step);
            && i in u.requests && u.requests[i].subject == t.requests[i].subject && u.requests[i].now == t.requests[i].now
            && (t.requests[i].verdict.Failed? && !t.requests[i].phase.Counting? ==>
                  u.requests[i].verdict.Failed? && !u.requests[i].phase.Counting?)
  {
    hide Subject.DayKey, SlotOf, Denial, Remaining;
  }

  lemma {:induction false} RunKeepsRequests(t: System, steps: seq<Step>, i: RequestId)
    requires AllInOrder(t) && Legal(t, steps) && i in t.requests
    ensures var u := Execute(t, steps);
            && i in u.requests && u.requests[i].subject == t.requests[i].subject && u.requests[i].now == t.requests[i].now
            && (t.requests[i].verdict.Failed? && !t.requests[i].phase.Counting? ==> u.requests[i].verdict.Failed?)
    decreases |steps|
  {
    hide Subject.DayKey, SlotOf;
    if steps != [] {
      StepKeepsOrder(t, steps[0]);
      StepKeepsRequests(t, steps[0], i);
      RunKeepsRequests(Next(t, steps[0]), steps[1..], i);
    }
  }

  /** What holds of the subject's new requests in the end held of them all along. */
  lemma HourKeptEarlier(t: System, steps: seq<Step>, known: set<RequestId>, s: Subject, now: int)
    requires AllInOrder(t) && Legal(t, steps) && KeepsHour(Execute(t, steps).requests, known, s, now)
    ensures KeepsHour(t.requests, known, s, now)
  {
    hide Subject.DayKey, Execute, Legal;
    forall i | i in t.requests && i !in known && Mine(t.requests[i], s)
      ensures DateOf(t.requests[i].now) == DateOf(now) && (s.IsGuest() || HourOf(t.requests[i].now) == HourOf(now))
      ensures !t.requests[i].verdict.Failed?
    {
      assert InOrder(t.limits, t.requests[i]);
      RunKeepsRequests(t, steps, i);
    }
  }

  lemma StepKeepsTrack(t: System, step: Step, known: set<RequestId>, s: Subject, now: int, m: nat)
    requires Right(t) && Enabled(t, step) && known <= t.requests.Keys
    requires TrackOf(t, known, s, now, m) && KeepsHour(Next(t, step).requests, known, s, now)
    ensures TrackOf(Next(t, step), known, s, now, m)
  {
    hide Subject.DayKey, SlotOf, LatchExact, CountsExact, TicketsDistinct, LatchedRowsStill, Denial, Remaining;
    if !step.Increment? {
      LatchTrack(t, step, known, s, now, m);
    } else if !Mine(t.requests[step.id], s) {
      OthersTrack(t, step, known, s, now, m);
    } else {
      assert step.fault == NoFault by {
        assert step.id !in known by { hide Decided, Passed, Left, LeftBefore; }
        assert step.id in Next(t, step).requests;
      }
      OwnTrack(t, step.id, known, s, now, m);
    }
  }

  lemma {:induction false} RunKeepsTrack(t: System, steps: seq<Step>, known: set<RequestId>, s: Subject, now: int, m: nat)
    requires Right(t) && Legal(t, steps) && known <= t.requests.Keys
    requires TrackOf(t, known, s, now, m) && KeepsHour(Execute(t, steps).requests, known, s, now)
    ensures TrackOf(Execute(t, steps), known, s, now, m)
    decreases |steps|
  {
    hide Subject.DayKey, SlotOf, LatchExact, CountsExact, TicketsDistinct, LatchedRowsStill, KeepsHour, TrackOf;
    if steps != [] {
      StepKeepsInv(t, steps[0]);
      StepKeepsRows(t, steps[0]);
      var u := Next(t, steps[0]);
      HourKeptEarlier(u, steps[1..], known, s, now);
      StepKeepsTrack(t, steps[0], known, s, now, m);
      forall i | i in t.requests ensures i in u.requests {
        StepKeepsRequests(t, steps[0], i);
      }
      RunKeepsTrack(u, steps[1..], known, s, now, m);
    }
  }

  /** At an admission: nobody of the subject is being counted, and its rows leave what it was told. */
  lemma AdmissionStarts(t: System, id: RequestId, m: int)
    requires Right(t) && id in t.requests && t.requests[id].phase == Holding(Allowed(m)) && t.requests[id].raised != {}
    ensures m >= 0 && TrackOf(t, t.requests.Keys, t.requests[id].subject, t.requests[id].now, m)
  {
    hide Subject.DayKey, SlotFor, LatchExact, CountsExact, TicketsDistinct;
    var r := t.requests[id];
    assert InOrder(t.limits, r) && OwnRowsStill(t.limits, t.counts, r);
    AloneOnLatch(t, id, r.subject);
    assert Decided(t.requests, t.requests.Keys, r.subject) == {} && Passed(t.requests, t.requests.Keys, r.subject) == {};
    assert Left(t.limits, t.counts, r.subject, r.now) == m;
  }

  /** MAIN RESULT.  In any reachable state, take an admission that reported `m` remaining, and any way
      of going on: increments of all requests interleaved at will, other subjects' counters failing at
      will.  If the subject's requests since then keep to that hour and day, none failed at a counter
      and none is still being counted, then of those that were charged exactly `m`, or all of them if they
      are fewer, got past the subject's own tiers. */
  lemma RemainingIsExact(l: Limits, before: seq<Step>, id: RequestId, m: int, more: seq<Step>)
    requires AllInOrder(Opening(l)) && Legal(Opening(l), before)
    requires var t := Execute(Opening(l), before);
             && id in t.requests && t.requests[id].phase == Holding(Allowed(m)) && t.requests[id].raised != {}
             && Legal(t, more)
             && KeepsHour(Execute(t, more).requests, t.requests.Keys, t.requests[id].subject, t.requests[id].now)
             && NobodyCounting(Execute(t, more).requests, t.requests[id].subject)
    ensures var t := Execute(Opening(l), before);
            var s, u := t.requests[id].subject, Execute(t, more);
            && 0 <= m
            && |Passed(u.requests, t.requests.Keys, s)| == Min(|Charged(u.requests, t.requests.Keys, s)|, m)
  {
    var t := Execute(Opening(l), before);
    var s := t.requests[id].subject;
    assert Right(Opening(l)) by { OpeningInv(l); }
    hide Subject.DayKey, LatchExact, CountsExact, TicketsDistinct, LatchedRowsStill, InOrder, KeepsHour, Track, Opening;
    RunKeepsRight(Opening(l), before);
    AdmissionStarts(t, id, m);
    RunKeepsTrack(t, more, t.requests.Keys, s, t.requests[id].now, m);
    var u := Execute(t, more);
    assert Charged(u.requests, t.requests.Keys, s) == Decided(u.requests, t.requests.Keys, s);
    TrackCounts(u, t.requests.Keys, s, t.requests[id].now, m);
  }

  lemma TrackCounts(t: System, known: set<RequestId>, s: Subject, now: int, m: nat)
    requires TrackOf(t, known, s, now, m)
    ensures |Passed(t.requests, known, s)| == Min(|Decided(t.requests, known, s)|, m)
  {}
}
