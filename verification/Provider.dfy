/** One provider request as the service runs it: the breaker around the retrier around the client.
    The client is any behaviour at all: per attempt, the events it pushes and how it ends. */
module Provider {
  import opened Wrappers
  import opened CircuitBreaker

  type Event = string

  datatype Attempt = Attempt(events: seq<Event>, err: Error)

  predicate ShouldRetry(err: Error, delivered: bool) {
    !delivered && (Is(err, Upstream) || Is(err, Timeout))
  }

  /** The attempts one request makes: a second only if the first failed in a way that may pass,
      pushed nothing, and the pause was not cut short. */
  function Attempts(first: Attempt, second: Attempt, slept: bool): seq<Attempt> {
    if first.err.None? || !ShouldRetry(first.err, first.events != []) || !slept then [first] else [first, second]
  }

  function Last(made: seq<Attempt>): Attempt
    requires made != []
  {
    made[|made| - 1]
  }

  /** The events of the attempts put end to end, which is what the sink receives. */
  function Pushed(made: seq<Attempt>): seq<Event> {
    if made == [] then [] else made[0].events + Pushed(made[1..])
  }

  /** Of the attempts of one request the sink receives the events of the last alone; there is a second
      exactly when the first failed upstream or timed out, pushed nothing, and the pause was slept out. */
  lemma SinkSeesOneAttempt(first: Attempt, second: Attempt, slept: bool)
    ensures var made := Attempts(first, second, slept);
            && 1 <= |made| <= 2
            && made[0] == first && (|made| == 2 ==> made[1] == second)
            && (|made| == 2 <==> slept && first.events == [] && first.err.Some?
                                 && (Upstream in first.err.value || Timeout in first.err.value))
            && Pushed(made) == Last(made).events
            && (Pushed(made) != [] <==> exists a :: a in made && a.events != [])
  {
    var made := Attempts(first, second, slept);
    assert Pushed([]) == [];
    assert [first][1..] == [] && [second][1..] == [] && [first, second][1..] == [second];
    assert Pushed([second]) == second.events;
    assert made[0] in made && Last(made) in made;
  }

  class Sink {
    var received: seq<Event>

    constructor ()
      ensures received == []
    {
      received := [];
    }

    method Push(e: Event)
      modifies this
      ensures received == old(received) + [e]
    {
      received := received + [e];
    }
  }

  /** A client attempt pushing its events through the guarded sink, which notes that it was used. */
  method Run(a: Attempt, sink: Sink, deliveredBefore: bool) returns (delivered: bool)
    modifies sink
    ensures sink.received == old(sink.received) + a.events
    ensures delivered == (deliveredBefore || a.events != [])
  {
    delivered := deliveredBefore;
    for i := 0 to |a.events|
      invariant sink.received == old(sink.received) + a.events[..i]
      invariant delivered == (deliveredBefore || i > 0)
    {
      delivered := true;
      sink.Push(a.events[i]);
      assert a.events[..i + 1] == a.events[..i] + [a.events[i]];
    }
    assert a.events[..|a.events|] == a.events;
  }

  /** The retrier: at most one more attempt, and none once anything was delivered. */
  method Retry(first: Attempt, second: Attempt, slept: bool, sink: Sink) returns (err: Error, calls: nat)
    modifies sink
    ensures var made := Attempts(first, second, slept);
            && sink.received == old(sink.received) + Pushed(made)
            && err == Last(made).err && calls == |made|
  {
    SinkSeesOneAttempt(first, second, slept);
    hide Pushed;
    var delivered := Run(first, sink, false);
    if first.err.None? || !ShouldRetry(first.err, delivered) {
      return first.err, 1;
    }
    if !slept {
      return first.err, 1;
    }
    delivered := Run(second, sink, delivered);
    return second.err, 2;
  }

  class Breaker {
    var state: State
    var failures: nat
    var openUntil: int
    var probeInFlight: bool

    constructor ()
      ensures Contents() == INITIAL
    {
      state, failures, openUntil, probeInFlight := Closed, 0, 0, false;
    }

    function Contents(): CircuitBreaker.Breaker
      reads this
    {
      CircuitBreaker.Breaker(state, failures, openUntil, probeInFlight)
    }

    method Acquire(now: int) returns (admitted: bool)
      modifies this
      ensures (Contents(), admitted) == CircuitBreaker.Acquire(old(Contents()), now)
    {
      match state
      case Open =>
        if now < openUntil {
          return false;
        }
        state := HalfOpen;
        probeInFlight := true;
        return true;
      case HalfOpen =>
        if probeInFlight {
          return false;
        }
        probeInFlight := true;
        return true;
      case Closed =>
        return true;
    }

    method Record(err: Error, delivered: bool, now: int)
      modifies this
      ensures Contents() == CircuitBreaker.Record(old(Contents()), err, delivered, now)
    {
      var wasHalfOpen := state == HalfOpen;
      if wasHalfOpen {
        probeInFlight := false;
      }
      if !CountsAsFailure(err, delivered) {
        state := Closed;
        failures := 0;
        return;
      }
      if Is(err, RateLimited) || wasHalfOpen {
        Trip(now);
        return;
      }
      failures := failures + 1;
      if failures >= THRESHOLD {
        Trip(now);
      }
    }

    method Trip(now: int)
      modifies this
      ensures Contents() == CircuitBreaker.Trip(old(Contents()), now)
    {
      state := Open;
      failures := 0;
      openUntil := now + OPEN_FOR;
    }

    /** A whole request with no other in between: refused without touching provider, sink or
        breaker, or made with at most two calls and recorded once. */
    method Generate(first: Attempt, second: Attempt, slept: bool, sink: Sink, enteredAt: int, leftAt: int)
      returns (err: Error, calls: nat)
      modifies this, sink
      ensures var (entered, admitted) := CircuitBreaker.Acquire(old(Contents()), enteredAt);
              var last := Last(Attempts(first, second, slept));
              if !admitted then
                && Contents() == old(Contents()) && sink.received == old(sink.received)
                && calls == 0 && err == Some({CircuitOpen})
              else
                && Contents() == CircuitBreaker.Record(entered, last.err, last.events != [], leftAt)
                && sink.received == old(sink.received) + last.events
                && 1 <= calls <= 2 && err == last.err
    {
      var admitted := Acquire(enteredAt);
      if !admitted {
        return Some({CircuitOpen}), 0;
      }
      var before := |sink.received|;
      err, calls := Retry(first, second, slept, sink);
      SinkSeesOneAttempt(first, second, slept);
      var delivered := |sink.received| > before;
      Record(err, delivered, leftAt);
    }
  }
}
