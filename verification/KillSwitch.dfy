/** The kill switch: a manual switch fixed at start-up and an automatic one raised by trips. */
module KillSwitch {
  import opened QuotaKeys

  /** Go's zero time, which every reading of the clock has passed. */
  const ZERO_TIME := -62_135_596_800 * SECOND

  /** A call of TripFor: when its clock was read, and for how long. */
  datatype Trip = Trip(now: int, duration: int)

  function Raise(until: int, t: Trip): int {
    if 0 < t.duration && until < t.now + t.duration then t.now + t.duration else until
  }

  /** The off-until mark after a run of trips, in the order they took the lock. */
  function OffUntil(trips: seq<Trip>): int {
    if trips == [] then ZERO_TIME else Raise(OffUntil(trips[..|trips| - 1]), trips[|trips| - 1])
  }

  /** A positive trip that has not run out. */
  ghost predicate Covers(t: Trip, now: int) {
    0 < t.duration && now < t.now + t.duration
  }

  /** MAIN RESULT.  The mark is the latest end of any positive trip, whatever the order: a clock
      reading is before it exactly when some trip still covers it. */
  lemma {:induction false} OffIffCovered(trips: seq<Trip>, now: int)
    requires ZERO_TIME <= now
    ensures now < OffUntil(trips) <==> exists t :: t in trips && Covers(t, now)
  {
    if trips != [] {
      var init, last := trips[..|trips| - 1], trips[|trips| - 1];
      OffIffCovered(init, now);
      assert trips == init + [last];
      if now < OffUntil(trips) {
        if Covers(last, now) {
          assert last in trips;
        } else {
          var t :| t in init && Covers(t, now);
          assert t in trips;
        }
      }
      if t :| t in trips && Covers(t, now) {
        assert t in init || t == last;
      }
    }
  }

  /** MAIN RESULT.  Once a refusal at the global ceiling has tripped the switch, it is off at every
      reading before the next ICT midnight, whatever trips came before or follow. */
  lemma OffUntilMidnight(before: seq<Trip>, refusedAt: int, trippedAt: int, after: seq<Trip>, now: int)
    requires ZERO_TIME <= refusedAt <= trippedAt && refusedAt <= now
    requires DateOf(now) == DateOf(refusedAt)
    ensures now < OffUntil(before + [Trip(trippedAt, UntilNextDay(refusedAt))] + after)
  {
    var trip := Trip(trippedAt, UntilNextDay(refusedAt));
    var trips := before + [trip] + after;
    NextDayIsFirst(refusedAt, now);
    assert now + ICT < (DateOf(now) + 1) * DAY;
    assert trips[|before|] == trip && Covers(trip, now);
    OffIffCovered(trips, now);
  }

  class Switch {
    const manual: bool
    var autoUntil: int

    constructor (manual: bool)
      ensures this.manual == manual && autoUntil == OffUntil([])
    {
      this.manual := manual;
      autoUntil := ZERO_TIME;
    }

    method Enabled(now: int) returns (on: bool)
      ensures on <==> manual && !(now < autoUntil)
    {
      if !manual {
        return false;
      }
      return now >= autoUntil;
    }

    /** Only ever extends; a duration that is not positive is ignored. */
    method TripFor(now: int, d: int)
      modifies this
      ensures autoUntil == Raise(old(autoUntil), Trip(now, d))
    {
      if d <= 0 {
        return;
      }
      var until := now + d;
      if until > autoUntil {
        autoUntil := until;
      }
    }
  }
}
