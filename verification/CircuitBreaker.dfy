/** The circuit breaker around the model provider, over arbitrarily overlapping calls. */
module CircuitBreaker {
  import opened Wrappers
  import opened QuotaKeys

  const THRESHOLD := 5
  const OPEN_FOR := 60 * SECOND

  /** The sentinel errors; an error may wrap several. */
  datatype Kind = RateLimited | Upstream | Timeout | BadRequest | SafetyBlocked | CircuitOpen | Canceled

  /** nil, or an error recognised as each of `kinds`. */
  type Error = Option<set<Kind>>

  function Is(e: Error, k: Kind): bool {
    e.Some? && k in e.value
  }

  datatype State = Closed | Open | HalfOpen

  datatype Breaker = Breaker(state: State, failures: nat, openUntil: int, probeInFlight: bool)

  const INITIAL := Breaker(Closed, 0, 0, false)

  predicate CountsAsFailure(err: Error, delivered: bool) {
    if err.None? then false
    else if Is(err, BadRequest) || Is(err, SafetyBlocked) then false
    else if delivered && Is(err, Timeout) then false
    else if Is(err, Canceled) then false
    else true
  }

  /** The gate: the breaker afterwards, and whether the call may go on. */
  function Acquire(b: Breaker, now: int): (Breaker, bool) {
    match b.state
    case Open =>
      if now < b.openUntil then (b, false)
      else (b.(state := HalfOpen, probeInFlight := true), true)
    case HalfOpen =>
      if b.probeInFlight then (b, false) else (b.(probeInFlight := true), true)
    case Closed => (b, true)
  }

  function Trip(b: Breaker, now: int): Breaker {
    b.(state := Open, failures := 0, openUntil := now + OPEN_FOR)
  }

  function Record(b: Breaker, err: Error, delivered: bool, now: int): Breaker {
    var wasHalfOpen := b.state.HalfOpen?;
    var b := if wasHalfOpen then b.(probeInFlight := false) else b;
    if !CountsAsFailure(err, delivered) then b.(state := Closed, failures := 0)
    else if Is(err, RateLimited) || wasHalfOpen then Trip(b, now)
    else if b.failures + 1 >= THRESHOLD then Trip(b, now)
    else b.(failures := b.failures + 1)
  }

  /** The two locked steps of calls in progress, in lock order. */
  datatype Step =
    | Enter(call: nat, now: int)
    | Leave(call: nat, err: Error, delivered: bool, now: int)
  {
    function Now(): int { now }
  }

  function After(b: Breaker, step: Step): Breaker {
    match step
    case Enter(_, now) => Acquire(b, now).0
    case Leave(_, err, delivered, now) => Record(b, err, delivered, now)
  }

  function Run(steps: seq<Step>): Breaker {
    if steps == [] then INITIAL else After(Run(steps[..|steps| - 1]), steps[|steps| - 1])
  }

  /** Step `i` let its call through to the provider. */
  predicate Admits(steps: seq<Step>, i: nat)
    requires i < |steps|
  {
    steps[i].Enter? && Acquire(Run(steps[..i]), steps[i].now).1
  }

  ghost predicate ClockForward(steps: seq<Step>) {
    forall i, j :: 0 <= i < j < |steps| ==> steps[i].Now() <= steps[j].Now()
  }

  ghost predicate CallsDistinct(steps: seq<Step>) {
    forall i, j :: 0 <= i < j < |steps| && steps[i].call == steps[j].call ==> steps[i].Enter? && steps[j].Leave?
  }

  ghost predicate RecordsEntered(steps: seq<Step>) {
    forall j :: 0 <= j < |steps| && steps[j].Leave? ==>
                  exists i :: 0 <= i < j && Admits(steps, i) && steps[i].call == steps[j].call
  }

  /** A history: the clock does not run back, call numbers are not reused, and every record belongs
      to a call admitted before and not yet recorded. */
  ghost predicate History(steps: seq<Step>) {
    ClockForward(steps) && CallsDistinct(steps) && RecordsEntered(steps)
  }

  lemma Snoc(steps: seq<Step>, i: nat)
    requires i < |steps|
    ensures Run(steps[..i + 1]) == After(Run(steps[..i]), steps[i])
  {
    assert steps[..i + 1][..i] == steps[..i];
  }

  /** The probe is in flight exactly in the half-open state, and failures stay below the threshold,
      whatever calls overlap. */
  lemma {:induction false} ProbeAndCount(steps: seq<Step>)
    ensures Run(steps).probeInFlight <==> Run(steps).state.HalfOpen?
    ensures Run(steps).failures < THRESHOLD
  {
    if steps != [] {
      ProbeAndCount(steps[..|steps| - 1]);
    }
  }

  /** The record blames the provider: an error that is not the request's own fault, nor the reader's, nor a
      long answer that was cut off after it had begun. */
  predicate Blames(step: Step) {
    && step.Leave? && step.err.Some?
    && step.err.value !! {BadRequest, SafetyBlocked, Canceled}
    && (step.delivered ==> Timeout !in step.err.value)
  }

  /** The step trips the breaker. */
  predicate Trips(b: Breaker, step: Step) {
    && Blames(step)
    && (RateLimited in step.err.value || b.state.HalfOpen? || b.failures + 1 >= 5)
  }

  predicate IsSuccess(step: Step) {
    step.Leave? && !Blames(step)
  }

  /** The counted failures since the last reset, told from the records and not from the counter: a
      success resets, and so does a failure that is rate-limited, a failed probe, or the fifth. */
  function FailureRun(steps: seq<Step>): nat {
    if steps == [] then 0
    else
      var init, last := steps[..|steps| - 1], steps[|steps| - 1];
      var run := FailureRun(init) + if Blames(last) then 1 else 0;
      if IsSuccess(last) then 0
      else if Blames(last) && (RateLimited in last.err.value || Run(init).state.HalfOpen? || run == 5) then 0
      else run
  }

  lemma {:induction false} CounterIsFailureRun(steps: seq<Step>)
    ensures Run(steps).failures == FailureRun(steps) < 5
  {
    if steps != [] {
      CounterIsFailureRun(steps[..|steps| - 1]);
    }
  }

  /** While half-open, up to the next record, nothing is admitted. */
  lemma {:induction false} OneProbe(steps: seq<Step>, i: nat, j: nat)
    requires i <= j < |steps|
    requires Run(steps[..i]).state.HalfOpen?
    requires forall k :: i <= k < j ==> steps[k].Enter?
    ensures Run(steps[..j]).state.HalfOpen? && !Admits(steps, j)
  {
    if i < j {
      OneProbe(steps, i, j - 1);
      Snoc(steps, j - 1);
    }
    ProbeAndCount(steps[..j]);
  }

  /** Between a trip at `i` and its deadline the breaker stays open, up to the next success. */
  lemma {:induction false} StaysOpen(steps: seq<Step>, i: nat, j: nat)
    requires ClockForward(steps)
    requires i < j <= |steps| && Trips(Run(steps[..i]), steps[i])
    requires forall k :: i < k < j ==> steps[k].Now() < steps[i].now + OPEN_FOR && !IsSuccess(steps[k])
    ensures Run(steps[..j]).state.Open? && steps[i].now + OPEN_FOR <= Run(steps[..j]).openUntil
  {
    Snoc(steps, j - 1);
    if i < j - 1 {
      StaysOpen(steps, i, j - 1);
    }
  }

  lemma NothingAdmitted(steps: seq<Step>, i: nat, j: nat)
    requires ClockForward(steps)
    requires i < j < |steps| && Trips(Run(steps[..i]), steps[i]) && steps[j].Now() < steps[i].now + OPEN_FOR
    requires forall k :: i < k < j ==> !IsSuccess(steps[k])
    ensures !Admits(steps, j)
  {
    hide Trips, CountsAsFailure;
    forall k | i < k < j ensures steps[k].Now() < steps[i].now + OPEN_FOR {
      assert steps[k].Now() <= steps[j].Now();
    }
    StaysOpen(steps, i, j);
  }

  /** MAIN RESULT.  If a call is admitted after a trip and before its deadline, then a call that was
      admitted before the trip has recorded a success in between. */
  lemma OnlyStaleSuccessReopens(steps: seq<Step>, i: nat, j: nat)
    requires History(steps)
    requires i < j < |steps| && Trips(Run(steps[..i]), steps[i])
    requires steps[j].Now() < steps[i].now + OPEN_FOR && Admits(steps, j)
    ensures exists k, e: nat ::
      e < i < k < j && IsSuccess(steps[k]) && Admits(steps, e) && steps[e].call == steps[k].call
  {
    assert steps[i].Leave? && steps[j].Enter?;
    hide Trips, CountsAsFailure, Run, Acquire, Admits;
    if forall k :: i < k < j ==> !IsSuccess(steps[k]) {
      NothingAdmitted(steps, i, j);
    }
    var k := FirstSuccess(steps, i + 1, j);
    assert steps[k].Leave?;
    var e: nat :| e < k && Admits(steps, e) && steps[e].call == steps[k].call;
    assert e != i by { assert steps[e].Enter?; }
    assert steps[e].Now() <= steps[j].Now();
    if i < e {
      NothingAdmitted(steps, i, e);
    }
    assert e < i;
  }

  function FirstSuccess(steps: seq<Step>, lo: nat, hi: nat): (k: nat)
    requires lo <= hi <= |steps|
    requires exists k :: lo <= k < hi && IsSuccess(steps[k])
    ensures lo <= k < hi && IsSuccess(steps[k])
    ensures forall h :: lo <= h < k ==> !IsSuccess(steps[h])
    decreases hi - lo
  {
    if IsSuccess(steps[lo]) then lo else FirstSuccess(steps, lo + 1, hi)
  }

  /** A success between `i` and `j` that no trip follows before `j`. */
  ghost predicate Reopened(steps: seq<Step>, i: nat, j: nat)
    requires j <= |steps|
  {
    exists k :: i < k < j && IsSuccess(steps[k]) && NoTrip(steps, k + 1, j)
  }

  ghost predicate NoTrip(steps: seq<Step>, lo: nat, hi: nat)
    requires hi <= |steps|
  {
    forall m :: lo <= m < hi ==> !Trips(Run(steps[..m]), steps[m])
  }

  lemma ReopenedSnoc(steps: seq<Step>, i: nat, j: nat)
    requires i < j - 1 < |steps|
    ensures Reopened(steps, i, j)
            <==> IsSuccess(steps[j - 1]) || (Reopened(steps, i, j - 1) && !Trips(Run(steps[..j - 1]), steps[j - 1]))
  {
    hide Run, CountsAsFailure;
    if IsSuccess(steps[j - 1]) {
      assert NoTrip(steps, j, j);
    } else if Reopened(steps, i, j - 1) && !Trips(Run(steps[..j - 1]), steps[j - 1]) {
      var k :| i < k < j - 1 && IsSuccess(steps[k]) && NoTrip(steps, k + 1, j - 1);
      assert NoTrip(steps, k + 1, j);
    }
  }

  predicate OpenPast(b: Breaker, deadline: int) {
    b.state.Open? && deadline <= b.openUntil
  }

  /** A step before a deadline of a breaker that is closed, or open past it. */
  lemma BeforeDeadline(b: Breaker, step: Step, deadline: int)
    requires b.state.Closed? || OpenPast(b, deadline)
    requires step.Now() < deadline <= step.Now() + OPEN_FOR
    ensures var after := After(b, step);
            if IsSuccess(step) || (b.state.Closed? && !Trips(b, step)) then after.state.Closed?
            else OpenPast(after, deadline)
  {}

  lemma TripOpens(b: Breaker, step: Step)
    requires Trips(b, step)
    ensures OpenPast(After(b, step), step.Now() + OPEN_FOR)
  {}

  /** Before the deadline of a trip the breaker is closed if reopened, and open past it otherwise. */
  lemma {:induction false} WindowIsOpenOrReopened(steps: seq<Step>, i: nat, j: nat)
    requires i < j <= |steps| && Trips(Run(steps[..i]), steps[i])
    requires forall k :: i < k < j ==> steps[i].now <= steps[k].Now() < steps[i].now + OPEN_FOR
    ensures var b := Run(steps[..j]);
            if Reopened(steps, i, j) then b.state.Closed? else OpenPast(b, steps[i].now + OPEN_FOR)
  {
    hide Run, After, Trips, IsSuccess;
    Snoc(steps, j - 1);
    if i < j - 1 {
      WindowIsOpenOrReopened(steps, i, j - 1);
      ReopenedSnoc(steps, i, j);
      BeforeDeadline(Run(steps[..j - 1]), steps[j - 1], steps[i].now + OPEN_FOR);
    } else {
      TripOpens(Run(steps[..i]), steps[i]);
    }
  }

  /** MAIN RESULT.  Exactly when a trip holds until its deadline: a call that asks before then is
      admitted iff some record of a success came in between and no trip followed it. */
  lemma AdmittedEarlyIff(steps: seq<Step>, i: nat, j: nat)
    requires ClockForward(steps)
    requires i < j < |steps| && Trips(Run(steps[..i]), steps[i])
    requires steps[j].Enter? && steps[j].now < steps[i].now + OPEN_FOR
    ensures Admits(steps, j) <==> Reopened(steps, i, j)
  {
    forall k | i < k < j ensures steps[i].now <= steps[k].Now() < steps[i].now + OPEN_FOR {
      assert steps[i].Now() <= steps[k].Now() <= steps[j].Now();
    }
    hide Trips, CountsAsFailure, Run;
    WindowIsOpenOrReopened(steps, i, j);
  }

  /** It happens: of two calls in flight one is rate-limited and trips the breaker, the other succeeds
      and closes it, and a third is admitted at once. */
  lemma TripUndone()
    ensures var steps := [Enter(0, 0), Enter(1, 0), Leave(0, Some({RateLimited}), false, 0), Leave(1, None, true, 0),
                          Enter(2, 0)];
            && History(steps)
            && Trips(Run(steps[..2]), steps[2])
            && Admits(steps, 4) && steps[4].now < steps[2].now + OPEN_FOR
  {
    var steps := [Enter(0, 0), Enter(1, 0), Leave(0, Some({RateLimited}), false, 0), Leave(1, None, true, 0), Enter(2, 0)];
    assert steps[..0] == [];
    Snoc(steps, 0);
    Snoc(steps, 1);
    Snoc(steps, 2);
    Snoc(steps, 3);
    assert Admits(steps, 0) && Admits(steps, 1);
  }

  // ---------- Which errors open the breaker ----------

  /** The record opened the breaker for a minute. */
  predicate OpenedBy(steps: seq<Step>, i: nat)
    requires i < |steps|
  {
    && Blames(steps[i])
    && Run(steps[..i + 1]).state.Open? && Run(steps[..i + 1]).openUntil == steps[i].now + 60_000_000_000
  }

  /** One record: blaming nobody closes the breaker and clears the count; a rate-limited request or a
      failed probe opens it at once; any other opens it or leaves it as it was, with one more counted. */
  lemma RecordDecides(steps: seq<Step>, i: nat)
    requires i < |steps| && steps[i].Leave?
    ensures var before, after := Run(steps[..i]), Run(steps[..i + 1]);
            if !Blames(steps[i]) then after.state.Closed? && after.failures == 0
            else if RateLimited in steps[i].err.value || before.state.HalfOpen? then OpenedBy(steps, i)
            else OpenedBy(steps, i) || (after.state == before.state && after.failures == before.failures + 1 < 5)
    ensures Trips(Run(steps[..i]), steps[i]) ==> OpenedBy(steps, i)
    ensures Blames(steps[i]) && !Trips(Run(steps[..i]), steps[i])
            ==> Run(steps[..i + 1]).failures == Run(steps[..i]).failures + 1
  {
    Snoc(steps, i);
  }

  /** The records among the steps from `i` to before `j`. */
  function Records(steps: seq<Step>, i: nat, j: nat): nat
    requires i <= j <= |steps|
  {
    if i == j then 0 else Records(steps, i, j - 1) + if steps[j - 1].Leave? then 1 else 0
  }

  /** Nothing but calls and records that blame the provider. */
  ghost predicate OnlyFailures(steps: seq<Step>, i: nat, j: nat)
    requires j <= |steps|
  {
    forall k :: i <= k < j ==> steps[k].Enter? || Blames(steps[k])
  }

  lemma {:induction false} CountOrOpen(steps: seq<Step>, i: nat, j: nat)
    requires i <= j <= |steps| && OnlyFailures(steps, i, j)
    ensures (exists m :: i <= m < j && Trips(Run(steps[..m]), steps[m]))
            || Run(steps[..j]).failures == Run(steps[..i]).failures + Records(steps, i, j)
  {
    hide OpenedBy, Blames, Trips;
    if i < j {
      CountOrOpen(steps, i, j - 1);
      Snoc(steps, j - 1);
      if steps[j - 1].Leave? {
        RecordDecides(steps, j - 1);
      }
    }
  }

  /** MAIN RESULT.  Whatever the state: of any five records in a row that blame the provider, with any
      calls in between, one opens the breaker, and for a minute from the first of them nothing more is
      admitted after the last. */
  lemma FiveFailuresRefuse(steps: seq<Step>, i: nat, j: nat)
    requires ClockForward(steps)
    requires i < j < |steps| && OnlyFailures(steps, i, j) && 5 <= Records(steps, i, j)
    requires steps[j].Enter? && steps[j].now < steps[i].Now() + 60_000_000_000
    ensures !Admits(steps, j)
    ensures exists m :: i <= m < j && OpenedBy(steps, m)
  {
    hide Admits, Run, After, OpenedBy;
    CountOrOpen(steps, i, j);
    ProbeAndCount(steps[..j]);
    var m :| i <= m < j && Trips(Run(steps[..m]), steps[m]);
    RecordDecides(steps, m);
    forall k | i <= k < j ensures !IsSuccess(steps[k]) {
      assert steps[k].Enter? || Blames(steps[k]);
    }
    assert steps[i].Now() <= steps[m].Now();
    NothingAdmitted(steps, m, j);
  }

  /** Fewer than five do not: from a closed breaker with a clear count, up to four failures other than
      rate limits leave it closed, so every call is admitted. */
  lemma {:induction false} FourFailuresPass(steps: seq<Step>, i: nat, j: nat)
    requires i <= j <= |steps| && OnlyFailures(steps, i, j) && Records(steps, i, j) <= 4
    requires Run(steps[..i]).state.Closed? && Run(steps[..i]).failures == 0
    requires forall k :: i <= k < j && steps[k].Leave? ==> RateLimited !in steps[k].err.value
    ensures Run(steps[..j]).state.Closed? && Run(steps[..j]).failures == Records(steps, i, j)
    ensures j < |steps| && steps[j].Enter? ==> Admits(steps, j)
  {
    if i < j {
      FourFailuresPass(steps, i, j - 1);
      Snoc(steps, j - 1);
    }
  }

  /** Once the minute is over the first to ask is let through as a probe. */
  lemma {:induction false} ProbeAfterMinute(steps: seq<Step>, i: nat, j: nat)
    requires i < j < |steps| && OpenedBy(steps, i)
    requires forall k :: i < k < j ==> steps[k].Enter? && steps[k].now < steps[i].now + 60_000_000_000
    requires steps[j].Enter? && steps[i].now + 60_000_000_000 <= steps[j].now
    ensures Admits(steps, j) && Run(steps[..j + 1]).state.HalfOpen?
  {
    OpenUnmoved(steps, i, j);
    Snoc(steps, j);
  }

  lemma {:induction false} OpenUnmoved(steps: seq<Step>, i: nat, j: nat)
    requires i < j <= |steps| && OpenedBy(steps, i)
    requires forall k :: i < k < j ==> steps[k].Enter? && steps[k].now < steps[i].now + 60_000_000_000
    ensures Run(steps[..j]) == Run(steps[..i + 1])
  {
    if i + 1 < j {
      OpenUnmoved(steps, i, j - 1);
      Snoc(steps, j - 1);
    }
  }
}
