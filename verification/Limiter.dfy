/** The quota gate as the service runs it, one request at a time. */
module Limiter {
  import opened Wrappers
  import opened QuotaKeys
  import opened QuotaAdmission

  /** The usage table. */
  class Counter {
    var counts: map<Slot, nat>

    constructor ()
      ensures counts == map[]
    {
      counts := map[];
    }

    /** Upsert-and-return in one statement; None when the call fails, landed or not. */
    method IncrementBotUsage(slot: Slot, fault: Fault) returns (used: Option<nat>)
      modifies this
      ensures counts == if fault.NotCounted? then old(counts) else Raise(old(counts), slot)
      ensures used == if fault.NoFault? then Some(CountOf(old(counts), slot) + 1) else None
    {
      if fault.NotCounted? {
        return None;
      }
      var n := 1;
      if slot in counts {
        n := counts[slot] + 1;
      }
      counts := counts[slot := n];
      return if fault.ReplyLost? then None else Some(n);
    }
  }

  /** The release function of one grant; `fired` is its sync.Once. */
  class Grant {
    const key: string
    var fired: bool

    constructor (key: string)
      ensures this.key == key && !fired
    {
      this.key := key;
      fired := false;
    }
  }

  class Limiter {
    const counter: Counter
    const limits: Limits
    var inFlight: set<string>

    constructor (counter: Counter, limits: Limits)
      ensures this.counter == counter && this.limits == limits && inFlight == {}
    {
      this.counter := counter;
      this.limits := limits;
      inFlight := {};
    }

    /** Take the in-flight key, or fail if it is taken. */
    method Enter(key: string) returns (grant: Grant?)
      modifies this
      ensures grant == null <==> key in old(inFlight)
      ensures inFlight == old(inFlight) + {key}
      ensures grant != null ==> fresh(grant) && grant.key == key && !grant.fired
    {
      if key in inFlight {
        return null;
      }
      inFlight := inFlight + {key};
      grant := new Grant(key);
    }

    /** Call a release function: the first call frees its key, any later one does nothing. */
    method Release(grant: Grant)
      modifies this, grant`fired
      ensures grant.fired
      ensures inFlight == if old(grant.fired) then old(inFlight) else old(inFlight) - {grant.key}
    {
      if !grant.fired {
        grant.fired := true;
        inFlight := inFlight - {grant.key};
      }
    }

    /** Raise the counters in order: own tiers before the global one, hour before day. */
    method Charge(subject: Subject, now: int, faults: Tier -> Fault) returns (verdict: Verdict)
      modifies counter
      ensures var (counts', r) := ChargeFrom(limits, old(counter.counts), Fresh(subject, now), faults);
              counter.counts == counts' && verdict == r.verdict
      ensures verdict != Pending
    {
      hide ChargeFrom, UntilNextDay, UntilNextHour, Subject.DayKey, Subject.HourKey, CountOf, Raise;
      ghost var c0, r0 := counter.counts, Fresh(subject, now);
      ChargeStep(limits, c0, r0, faults);
      ghost var c1, r1 := c0, r0;
      var remaining;
      var usedHour := Some(0);
      if !subject.IsGuest() {
        usedHour := counter.IncrementBotUsage((subject.HourKey(now), DateOf(now)), faults(Hour));
        if usedHour.None? {
          return Failed;
        }
        c1, r1 := counter.counts, AfterCount(limits, r0, usedHour.value);
        ChargeStep(limits, c1, r1, faults);
        if usedHour.value > limits.userHourly {
          return Told(Denied(UserHourly, UntilNextHour(now)));
        }
      }
      var usedDay := counter.IncrementBotUsage((subject.DayKey(), DateOf(now)), faults(Day));
      if usedDay.None? {
        return Failed;
      }
      ghost var c2, r2 := counter.counts, AfterCount(limits, r1, usedDay.value);
      ChargeStep(limits, c2, r2, faults);
      if subject.IsGuest() {
        if usedDay.value > limits.guestDaily {
          return Told(Denied(GuestDaily, UntilNextDay(now)));
        }
        remaining := limits.guestDaily - usedDay.value;
      } else {
        if usedDay.value > limits.userDaily {
          return Told(Denied(UserDaily, UntilNextDay(now)));
        }
        remaining := Min(limits.userHourly - usedHour.value, limits.userDaily - usedDay.value);
      }
      var usedGlobal := counter.IncrementBotUsage((GLOBAL_KEY, DateOf(now)), faults(Global));
      if usedGlobal.None? {
        return Failed;
      }
      ghost var c3, r3 := counter.counts, AfterCount(limits, r2, usedGlobal.value);
      ChargeStep(limits, c3, r3, faults);
      if usedGlobal.value > limits.globalDaily {
        return Told(Denied(GlobalDaily, UntilNextDay(now)));
      }
      return Told(Allowed(remaining));
    }

    /** Latch first, then the charge; a refused or failed charge gives the latch back. */
    method Acquire(subject: Subject, now: int, faults: Tier -> Fault) returns (grant: Grant?, verdict: Verdict)
      modifies this, counter
      ensures if subject.DayKey() in old(inFlight) then
                && verdict == Told(Denied(InFlight, IN_FLIGHT_RETRY_AFTER))
                && counter.counts == old(counter.counts)
              else
                var (counts', r) := ChargeFrom(limits, old(counter.counts), Fresh(subject, now), faults);
                counter.counts == counts' && verdict == r.verdict
      ensures verdict != Pending
      ensures grant != null <==> verdict.Told? && verdict.decision.Allowed?
      ensures grant != null ==> fresh(grant) && grant.key == subject.DayKey() && !grant.fired
      ensures inFlight == if grant != null then old(inFlight) + {subject.DayKey()} else old(inFlight)
    {
      grant := Enter(subject.DayKey());
      if grant == null {
        return null, Told(Denied(InFlight, IN_FLIGHT_RETRY_AFTER));
      }
      verdict := Charge(subject, now, faults);
      if !verdict.Told? || !verdict.decision.Allowed? {
        Release(grant);
        grant := null;
      }
    }

    /** The latch alone, for answers served from the cache. */
    method Reserve(subject: Subject) returns (grant: Grant?, decision: Decision)
      modifies this
      ensures grant != null <==> subject.DayKey() !in old(inFlight)
      ensures decision == if grant != null then Allowed(0) else Denied(InFlight, IN_FLIGHT_RETRY_AFTER)
      ensures grant != null ==> fresh(grant) && grant.key == subject.DayKey() && !grant.fired
      ensures inFlight == old(inFlight) + {subject.DayKey()}
    {
      grant := Enter(subject.DayKey());
      if grant == null {
        return null, Denied(InFlight, IN_FLIGHT_RETRY_AFTER);
      }
      return grant, Allowed(0);
    }
  }
}
