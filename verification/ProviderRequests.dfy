/** Overlapping provider requests, each through the breaker around the retrier around the client.  The
    client of each attempt pushes any events and ends in any way; the breaker's two locked steps, every
    push, every end of an attempt and every pause are steps of their own. */
module ProviderRequests {
  import opened Wrappers
  import opened CircuitBreaker
  import Provider

  type Event = Provider.Event
  type CallId = nat

  /** Turned away; in an attempt; between attempts; about to record; or over, with what was recorded. */
  datatype Phase = Refused | Calling | Pausing(err: Error) | Returning(err: Error) | Over(err: Error)

  /** `tries` holds the events pushed by each attempt, `received` what the caller's sink was handed. */
  datatype Request = Request(phase: Phase, tries: seq<seq<Event>>, received: seq<Event>)

  /** `log` is the breaker's own history: its locked steps in lock order. */
  datatype System = System(breaker: Breaker, clock: int, requests: map<CallId, Request>, log: seq<CircuitBreaker.Step>)

  datatype Step =
    | Arrive(c: CallId, now: int)
    | Push(c: CallId, event: Event)
    | End(c: CallId, err: Error)
    | Wake(c: CallId, slept: bool)
    | Finish(c: CallId, now: int)

  function Opening(now: int): System {
    System(INITIAL, now, map[], [])
  }

  predicate Enabled(s: System, step: Step) {
    match step
    case Arrive(c, now) => c !in s.requests && s.clock <= now
    case Push(c, _) => c in s.requests && s.requests[c].phase.Calling? && s.requests[c].tries != []
    case End(c, _) => c in s.requests && s.requests[c].phase.Calling?
    case Wake(c, _) => c in s.requests && s.requests[c].phase.Pausing?
    case Finish(c, now) => c in s.requests && s.requests[c].phase.Returning? && s.clock <= now
  }

  /** The event joins the running attempt and goes straight through to the caller's sink. */
  function Pushed(r: Request, e: Event): Request
    requires r.tries != []
  {
    var n := |r.tries| - 1;
    r.(tries := r.tries[..n] + [r.tries[n] + [e]], received := r.received + [e])
  }

  /** The first attempt may be followed by a pause and a second; the second never is. */
  function Ended(r: Request, err: Error): Request {
    if |r.tries| == 1 && err.Some? && Provider.ShouldRetry(err, r.received != []) then r.(phase := Pausing(err))
    else r.(phase := Returning(err))
  }

  function Next(s: System, step: Step): System
    requires Enabled(s, step)
  {
    match step
    case Arrive(c, now) =>
      var (b, admitted) := Acquire(s.breaker, now);
      System(b, now, s.requests[c := if admitted then Request(Calling, [[]], []) else Request(Refused, [], [])],
             s.log + [Enter(c, now)])
    case Push(c, e) => s.(requests := s.requests[c := Pushed(s.requests[c], e)])
    case End(c, err) => s.(requests := s.requests[c := Ended(s.requests[c], err)])
    case Wake(c, slept) =>
      var r := s.requests[c];
      s.(requests := s.requests[c := if slept then r.(phase := Calling, tries := r.tries + [[]])
                                     else r.(phase := Returning(r.phase.err))])
    case Finish(c, now) =>
      var r := s.requests[c];
      var err, delivered := r.phase.err, r.received != [];
      System(Record(s.breaker, err, delivered, now), now, s.requests[c := r.(phase := Over(err))],
             s.log + [Leave(c, err, delivered, now)])
  }

  ghost predicate Legal(s: System, steps: seq<Step>)
    decreases |steps|
  {
    steps == [] || (Enabled(s, steps[0]) && Legal(Next(s, steps[0]), steps[1..]))
  }

  function Execute(s: System, steps: seq<Step>): System
    requires Legal(s, steps)
    decreases |steps|
  {
    if steps == [] then s else Execute(Next(s, steps[0]), steps[1..])
  }

  // ---------- What every step keeps ----------

  /** Two attempts at most, a second only after a silent first, and the sink was handed the events of
      the last attempt alone. */
  ghost predicate OneAttemptShown(r: Request) {
    if r.phase.Refused? then r.tries == [] && r.received == []
    else
      && 1 <= |r.tries| <= 2
      && r.received == r.tries[|r.tries| - 1]
      && (|r.tries| == 2 ==> r.tries[0] == [])
      && (r.phase.Pausing? ==> |r.tries| == 1 && r.received == [] && MayPass(r.phase.err))
  }

  predicate MayPass(err: Error) {
    err.Some? && (Upstream in err.value || Timeout in err.value)
  }

  /** An attempt that ends is followed by a pause exactly when it was the first, pushed nothing, and failed
      upstream or timed out; a pause slept out is followed by a second attempt, and nothing else is. */
  lemma RetriedIff(s: System, step: Step)
    requires Enabled(s, step) && !step.Arrive? && OneAttemptShown(s.requests[step.c])
    ensures var r, r' := s.requests[step.c], Next(s, step).requests[step.c];
            && (r'.phase.Pausing? <==> step.End? && r.tries == [[]] && MayPass(step.err))
            && (|r'.tries| == |r.tries| + 1 <==> step.Wake? && step.slept)
            && (step.End? ==> r'.phase == if r'.phase.Pausing? then Pausing(step.err) else Returning(step.err))
            && (step.Wake? ==> r'.phase == if step.slept then Calling else Returning(r.phase.err))
  {}

  /** The log has an entry of the request, admitted unless it was refused, and its record once it is
      over: of the error it ended with and whether its sink was handed anything. */
  ghost predicate Logged(log: seq<CircuitBreaker.Step>, c: CallId, r: Request) {
    && (exists i :: EnteredAt(log, c, i) && (Admits(log, i) <==> !r.phase.Refused?))
    && (if r.phase.Over? then exists j :: RecordedAt(log, c, r, j)
        else forall j :: 0 <= j < |log| && log[j].call == c ==> log[j].Enter?)
  }

  ghost predicate EnteredAt(log: seq<CircuitBreaker.Step>, c: CallId, i: nat) {
    i < |log| && log[i].Enter? && log[i].call == c
  }

  ghost predicate RecordedAt(log: seq<CircuitBreaker.Step>, c: CallId, r: Request, j: nat)
    requires r.phase.Over?
  {
    j < |log| && log[j] == Leave(c, r.phase.err, r.received != [], log[j].now)
  }

  /** The breaker stands where its history leads, and every entry is of a known call. */
  ghost predicate LogRight(s: System) {
    && s.breaker == Run(s.log)
    && History(s.log)
    && (forall i :: 0 <= i < |s.log| ==> s.log[i].Now() <= s.clock && s.log[i].call in s.requests)
  }

  ghost predicate RequestRight(log: seq<CircuitBreaker.Step>, c: CallId, r: Request) {
    OneAttemptShown(r) && Logged(log, c, r)
  }

  ghost predicate Sound(s: System) {
    LogRight(s) && forall c :: c in s.requests ==> RequestRight(s.log, c, s.requests[c])
  }

  lemma AdmitsSnoc(log: seq<CircuitBreaker.Step>, step: CircuitBreaker.Step)
    ensures Run(log + [step]) == After(Run(log), step)
    ensures forall i: nat :: i < |log| ==> (Admits(log + [step], i) <==> Admits(log, i))
  {
    hide Acquire;
    assert (log + [step])[..|log|] == log;
    forall i: nat | i < |log| ensures Admits(log + [step], i) <==> Admits(log, i) {
      assert (log + [step])[..i] == log[..i];
    }
  }

  lemma RecordsSnoc(log: seq<CircuitBreaker.Step>, step: CircuitBreaker.Step)
    requires RecordsEntered(log)
    requires step.Leave? ==> exists i :: EnteredAt(log, step.call, i) && Admits(log, i)
    ensures RecordsEntered(log + [step])
  {
    AdmitsSnoc(log, step);
    hide Admits;
    var all := log + [step];
    forall j | 0 <= j < |all| && all[j].Leave?
      ensures exists i :: 0 <= i < j && Admits(all, i) && all[i].call == all[j].call
    {
      if j < |log| {
        var i :| 0 <= i < j && Admits(log, i) && log[i].call == log[j].call;
        assert Admits(all, i) && all[i].call == all[j].call;
      } else {
        var i: nat :| EnteredAt(log, step.call, i) && Admits(log, i);
        assert Admits(all, i) && all[i].call == all[j].call;
      }
    }
  }

  lemma HistorySnoc(log: seq<CircuitBreaker.Step>, step: CircuitBreaker.Step)
    requires History(log)
    requires forall i :: 0 <= i < |log| ==> log[i].Now() <= step.Now()
    requires forall i :: 0 <= i < |log| && log[i].call == step.call ==> log[i].Enter? && step.Leave?
    requires step.Leave? ==> exists i :: EnteredAt(log, step.call, i) && Admits(log, i)
    ensures History(log + [step])
  {
    RecordsSnoc(log, step);
    hide RecordsEntered;
  }

  /** A step of one call leaves what the log says of another. */
  lemma LoggedElsewhere(log: seq<CircuitBreaker.Step>, step: CircuitBreaker.Step, c: CallId, r: Request)
    requires Logged(log, c, r) && step.call != c
    requires forall i: nat :: i < |log| ==> (Admits(log + [step], i) <==> Admits(log, i))
    ensures Logged(log + [step], c, r)
  {
    hide Admits;
    var all := log + [step];
    var i: nat :| EnteredAt(log, c, i) && (Admits(log, i) <==> !r.phase.Refused?);
    assert EnteredAt(all, c, i);
    if r.phase.Over? {
      var j: nat :| RecordedAt(log, c, r, j);
      assert RecordedAt(all, c, r, j);
    }
  }

  lemma ArriveKeepsSound(s: System, c: CallId, now: int)
    requires Sound(s) && Enabled(s, Arrive(c, now))
    ensures Sound(Next(s, Arrive(c, now)))
  {
    hide Run, Acquire, History;
    var t, step := Next(s, Arrive(c, now)), Enter(c, now);
    assert LogRight(t) && forall i: nat :: i < |s.log| ==> (Admits(t.log, i) <==> Admits(s.log, i)) by {
      HistorySnoc(s.log, step);
      AdmitsSnoc(s.log, step);
    }
    assert RequestRight(t.log, c, t.requests[c]) by {
      assert t.log[..|s.log|] == s.log;
      assert EnteredAt(t.log, c, |s.log|);
    }
    hide Admits, LogRight, OneAttemptShown, Logged;
    forall d | d in s.requests ensures RequestRight(t.log, d, t.requests[d]) {
      LoggedElsewhere(s.log, step, d, s.requests[d]);
    }
  }

  lemma FinishKeepsSound(s: System, c: CallId, now: int)
    requires Sound(s) && Enabled(s, Finish(c, now))
    ensures Sound(Next(s, Finish(c, now)))
  {
    hide Run, Acquire, Record, Admits, History;
    var t, r := Next(s, Finish(c, now)), s.requests[c];
    var step := Leave(c, r.phase.err, r.received != [], now);
    assert RequestRight(s.log, c, r);
    var i: nat :| EnteredAt(s.log, c, i) && (Admits(s.log, i) <==> !r.phase.Refused?);
    assert LogRight(t) && forall i: nat :: i < |s.log| ==> (Admits(t.log, i) <==> Admits(s.log, i)) by {
      HistorySnoc(s.log, step);
      AdmitsSnoc(s.log, step);
    }
    assert RequestRight(t.log, c, t.requests[c]) by {
      assert EnteredAt(t.log, c, i);
      assert RecordedAt(t.log, c, t.requests[c], |s.log|);
    }
    hide LogRight, OneAttemptShown, Logged;
    forall d | d in s.requests && d != c ensures RequestRight(t.log, d, t.requests[d]) {
      LoggedElsewhere(s.log, step, d, s.requests[d]);
    }
  }

  /** A step between entry and record. */
  lemma InnerStepKeepsRequest(s: System, step: Step)
    requires Enabled(s, step) && !step.Arrive? && !step.Finish? && RequestRight(s.log, step.c, s.requests[step.c])
    ensures RequestRight(s.log, step.c, Next(s, step).requests[step.c])
  {
    hide Admits;
    var r, r' := s.requests[step.c], Next(s, step).requests[step.c];
    var i: nat :| EnteredAt(s.log, step.c, i) && (Admits(s.log, i) <==> !r.phase.Refused?);
    assert Admits(s.log, i) <==> !r'.phase.Refused?;
  }

  lemma ReplaceKeepsSound(s: System, c: CallId, r: Request)
    requires Sound(s) && c in s.requests && RequestRight(s.log, c, r)
    ensures Sound(s.(requests := s.requests[c := r]))
  {
    hide Run, History, RequestRight;
  }

  lemma InnerStepKeepsSound(s: System, step: Step)
    requires Sound(s) && Enabled(s, step) && !step.Arrive? && !step.Finish?
    ensures Sound(Next(s, step))
  {
    hide Run, History, RequestRight, LogRight;
    InnerStepKeepsRequest(s, step);
    ReplaceKeepsSound(s, step.c, Next(s, step).requests[step.c]);
  }

  lemma StepKeepsSound(s: System, step: Step)
    requires Sound(s) && Enabled(s, step)
    ensures Sound(Next(s, step))
  {
    hide *;
    match step
    case Arrive(c, now) => ArriveKeepsSound(s, c, now);
    case Finish(c, now) => FinishKeepsSound(s, c, now);
    case _ => InnerStepKeepsSound(s, step);
  }

  lemma {:induction false} RunKeepsSound(s: System, steps: seq<Step>)
    requires Sound(s) && Legal(s, steps)
    ensures Sound(Execute(s, steps))
    decreases |steps|
  {
    hide Sound;
    if steps != [] {
      StepKeepsSound(s, steps[0]);
      RunKeepsSound(Next(s, steps[0]), steps[1..]);
    }
  }

  /** The log's entries of one request: one entry, and its record at most once. */
  lemma RecordedOnce(log: seq<CircuitBreaker.Step>, c: CallId, r: Request)
    requires History(log) && RequestRight(log, c, r)
    ensures r.phase.Over? <==> exists j :: 0 <= j < |log| && log[j].Leave? && log[j].call == c
    ensures forall j: nat :: j < |log| && log[j].Leave? && log[j].call == c ==> r.phase.Over? && RecordedAt(log, c, r, j)
  {
    hide Admits, OneAttemptShown;
    if r.phase.Over? {
      var j: nat :| RecordedAt(log, c, r, j);
      assert forall k :: 0 <= k < |log| && log[k].Leave? && log[k].call == c ==> k == j;
    }
  }

  /** MAIN RESULT.  Under every interleaving of requests, and for every client and sink: the breaker's
      locked steps form a history and it stands where that history leads; a request makes at most two
      attempts and its sink is handed the events of the last one alone; a refused request makes none and
      is not recorded; any other is recorded at most once, and then with the error it returns and
      whether its sink was handed anything. */
  lemma RequestsKeepHistory(now: int, steps: seq<Step>, c: CallId)
    requires Legal(Opening(now), steps)
    ensures var s := Execute(Opening(now), steps);
            && History(s.log) && s.breaker == Run(s.log)
            && (c in s.requests ==>
                  var r := s.requests[c];
                  && OneAttemptShown(r)
                  && (exists i :: EnteredAt(s.log, c, i) && (Admits(s.log, i) <==> !r.phase.Refused?))
                  && (r.phase.Over? <==> exists j :: 0 <= j < |s.log| && s.log[j].Leave? && s.log[j].call == c)
                  && (forall j: nat :: j < |s.log| && s.log[j].Leave? && s.log[j].call == c ==>
                        r.phase.Over? && RecordedAt(s.log, c, r, j)))
  {
    assert Sound(Opening(now));
    RunKeepsSound(Opening(now), steps);
    var s := Execute(Opening(now), steps);
    hide Execute, Legal, Run, History, OneAttemptShown, Admits;
    if c in s.requests {
      RecordedOnce(s.log, c, s.requests[c]);
    }
  }
}
