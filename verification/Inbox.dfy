/** Appending messages to one conversation by concurrent transactions, each inserting its message and
    touching the inbox line of the conversation. */
module Inbox {
  import opened Wrappers

  const PREVIEW_LIMIT := 120

  /** A message; `at` is when its transaction began, which is what now() gives its created_at. */
  datatype Message = Message(at: int, body: string)

  /** What the inbox shows of a conversation. */
  datatype Line = Line(at: int, preview: string)

  function Truncated(body: string): string {
    if |body| <= PREVIEW_LIMIT then body else body[..PREVIEW_LIMIT]
  }

  function LineOf(m: Message): Line {
    Line(m.at, Truncated(m.body))
  }

  datatype Stage = Begun | Inserted | Touched | Committed | Aborted

  datatype Tx = Tx(message: Message, stage: Stage)

  /** `messages` in commit order; `writing` is the transaction whose update of the conversation row is
      not yet committed, and the line it wrote. */
  datatype State = State(clock: int, txs: seq<Tx>, messages: seq<Message>, line: Option<Line>,
                         writing: Option<(nat, Line)>)

  const EMPTY := State(0, [], [], None, None)

  datatype Step =
    | Begin(message: Message)
    | Insert(i: nat)
    | Touch(i: nat)
    | Commit(i: nat)
    | Abort(i: nat)

  predicate Active(t: Tx) { t.stage in {Begun, Inserted, Touched} }

  predicate Enabled(s: State, step: Step) {
    match step
    case Begin(m) => s.clock <= m.at
    case Insert(i) => i < |s.txs| && s.txs[i].stage == Begun
    case Touch(i) => i < |s.txs| && s.txs[i].stage == Inserted && s.writing.None?
    case Commit(i) => i < |s.txs| && s.txs[i].stage == Touched && s.writing.Some? && s.writing.value.0 == i
    case Abort(i) => i < |s.txs| && Active(s.txs[i])
  }

  function Moved(s: State, i: nat, stage: Stage): seq<Tx>
    requires i < |s.txs|
  {
    s.txs[i := s.txs[i].(stage := stage)]
  }

  function Next(s: State, step: Step): State
    requires Enabled(s, step)
  {
    match step
    case Begin(m) => s.(clock := m.at, txs := s.txs + [Tx(m, Begun)])
    case Insert(i) => s.(txs := Moved(s, i, Inserted))
    case Touch(i) => s.(txs := Moved(s, i, Touched), writing := Some((i, LineOf(s.txs[i].message))))
    case Commit(i) =>
      s.(txs := Moved(s, i, Committed), messages := s.messages + [s.txs[i].message],
         line := Some(s.writing.value.1), writing := None)
    case Abort(i) =>
      s.(txs := Moved(s, i, Aborted), writing := if s.txs[i].stage == Touched then None else s.writing)
  }

  ghost predicate Legal(s: State, steps: seq<Step>)
    decreases |steps|
  {
    steps == [] || (Enabled(s, steps[0]) && Legal(Next(s, steps[0]), steps[1..]))
  }

  function Execute(s: State, steps: seq<Step>): State
    requires Legal(s, steps)
    decreases |steps|
  {
    if steps == [] then s else Execute(Next(s, steps[0]), steps[1..])
  }

  ghost predicate Sound(s: State) {
    && s.line == (if s.messages == [] then None else Some(LineOf(s.messages[|s.messages| - 1])))
    && (forall i :: 0 <= i < |s.txs| ==> s.txs[i].message.at <= s.clock)
    && (forall i :: 0 <= i < |s.txs| && s.txs[i].stage == Touched ==>
          s.writing == Some((i, LineOf(s.txs[i].message))))
    && (forall m :: m in s.messages ==> exists i :: 0 <= i < |s.txs| && s.txs[i] == Tx(m, Committed))
  }

  lemma StepKeepsSound(s: State, step: Step)
    requires Sound(s) && Enabled(s, step)
    ensures Sound(Next(s, step))
  {
    var t := Next(s, step);
    forall m | m in t.messages
      ensures exists i :: 0 <= i < |t.txs| && t.txs[i] == Tx(m, Committed)
    {
      if m in s.messages {
        var i :| 0 <= i < |s.txs| && s.txs[i] == Tx(m, Committed);
        assert t.txs[i] == Tx(m, Committed);
      } else {
        assert t.txs[step.i] == Tx(m, Committed);
      }
    }
  }

  lemma {:induction false} RunKeepsSound(s: State, steps: seq<Step>)
    requires Sound(s) && Legal(s, steps)
    ensures Sound(Execute(s, steps))
    decreases |steps|
  {
    if steps != [] {
      StepKeepsSound(s, steps[0]);
      RunKeepsSound(Next(s, steps[0]), steps[1..]);
    }
  }

  /** The line is as new as any message. */
  ghost predicate ShowsNewest(s: State) {
    forall m :: m in s.messages ==> s.line.Some? && m.at <= s.line.value.at
  }

  /** No transaction begins while another is active. */
  ghost predicate Serial(s: State, steps: seq<Step>)
    requires Legal(s, steps)
    decreases |steps|
  {
    steps == []
    || ((steps[0].Begin? ==> forall i :: 0 <= i < |s.txs| ==> !Active(s.txs[i]))
        && Serial(Next(s, steps[0]), steps[1..]))
  }

  /** MAIN RESULT.  The inbox always shows the message committed last, by its time and its first 120
      characters: message and line appear together, and an aborted append leaves neither. */
  lemma LineIsLastCommit(steps: seq<Step>)
    requires Legal(EMPTY, steps)
    ensures var s := Execute(EMPTY, steps);
            && s.line == (if s.messages == [] then None else Some(LineOf(s.messages[|s.messages| - 1])))
            && (forall m :: m in s.messages ==> Tx(m, Committed) in s.txs)
            && (s.messages != [] ==>
                  var last := s.messages[|s.messages| - 1];
                  && s.line.value.at == last.at && s.line.value.preview <= last.body
                  && |s.line.value.preview| == if |last.body| < 120 then |last.body| else 120)
  {
    RunKeepsSound(EMPTY, steps);
  }

  /** The comparison the update of the line would have to make: nothing newer is on show. */
  predicate Newer(s: State, i: nat)
    requires i < |s.txs|
  {
    s.line.None? || s.line.value.at <= s.txs[i].message.at
  }

  /** A commit leaves the newest message on show exactly when it passes that comparison; no other step
      can take it off. */
  lemma CommitKeepsNewestIff(s: State, step: Step)
    requires Sound(s) && ShowsNewest(s) && Enabled(s, step)
    ensures ShowsNewest(Next(s, step)) <==> (step.Commit? ==> Newer(s, step.i))
  {
    if step.Commit? {
      var m := s.txs[step.i].message;
      assert Next(s, step).messages == s.messages + [m] && Next(s, step).line == Some(LineOf(m));
      if !Newer(s, step.i) {
        assert s.messages[|s.messages| - 1] in Next(s, step).messages;
      }
    }
  }

  /** Every commit of the run passes the comparison. */
  ghost predicate Guarded(s: State, steps: seq<Step>)
    requires Legal(s, steps)
    decreases |steps|
  {
    steps == [] || ((steps[0].Commit? ==> Newer(s, steps[0].i)) && Guarded(Next(s, steps[0]), steps[1..]))
  }

  /** The newest message is on show in every state of the run. */
  ghost predicate AlwaysNewest(s: State, steps: seq<Step>)
    requires Legal(s, steps)
    decreases |steps|
  {
    ShowsNewest(s) && (steps == [] || AlwaysNewest(Next(s, steps[0]), steps[1..]))
  }

  /** MAIN RESULT.  The inbox shows the newest message at every moment of a run exactly when every
      commit finds nothing newer on show. */
  lemma {:induction false} AlwaysNewestIff(s: State, steps: seq<Step>)
    requires Sound(s) && ShowsNewest(s) && Legal(s, steps)
    ensures AlwaysNewest(s, steps) <==> Guarded(s, steps)
    decreases |steps|
  {
    if steps != [] {
      CommitKeepsNewestIff(s, steps[0]);
      StepKeepsSound(s, steps[0]);
      if ShowsNewest(Next(s, steps[0])) {
        AlwaysNewestIff(Next(s, steps[0]), steps[1..]);
      }
    }
  }

  /** All but one transaction are over, and the last to begin is the newest. */
  ghost predicate OneAtATime(s: State) {
    && (forall i, j :: 0 <= i < j < |s.txs| ==> s.txs[i].message.at <= s.txs[j].message.at)
    && (forall i :: 0 <= i < |s.txs| - 1 ==> !Active(s.txs[i]))
    && ShowsNewest(s)
  }

  lemma SerialStep(s: State, step: Step)
    requires Sound(s) && OneAtATime(s) && Enabled(s, step)
    requires step.Begin? ==> forall i :: 0 <= i < |s.txs| ==> !Active(s.txs[i])
    ensures OneAtATime(Next(s, step))
  {}

  /** MAIN RESULT.  While appends do not overlap, the inbox shows the newest message at every moment. */
  lemma {:induction false} SerialShowsNewest(s: State, steps: seq<Step>)
    requires Sound(s) && OneAtATime(s) && Legal(s, steps) && Serial(s, steps)
    ensures ShowsNewest(Execute(s, steps))
    decreases |steps|
  {
    if steps != [] {
      StepKeepsSound(s, steps[0]);
      SerialStep(s, steps[0]);
      SerialShowsNewest(Next(s, steps[0]), steps[1..]);
    }
  }

  /** The promise that the inbox never lags needs appends that do not overlap: wherever a transaction
      has inserted its message while a later one has already touched the line, the older can commit
      last, and the inbox goes back to the older message. */
  lemma OverlapShowsStale(s: State, older: nat, newer: nat)
    requires Sound(s) && older < |s.txs| && newer < |s.txs|
    requires s.txs[older].stage == Inserted && s.txs[newer].stage == Touched
    requires s.txs[older].message.at < s.txs[newer].message.at
    ensures var steps := [Commit(newer), Touch(older), Commit(older)];
            Legal(s, steps) && !ShowsNewest(Execute(s, steps))
  {
    var s1 := Next(s, Commit(newer));
    var s2 := Next(s1, Touch(older));
    var s3 := Next(s2, Commit(older));
    assert Legal(s3, []) && Execute(s3, []) == s3;
    LegalStep(s2, Commit(older), []);
    LegalStep(s1, Touch(older), [Commit(older)]);
    LegalStep(s, Commit(newer), [Touch(older), Commit(older)]);
    assert [Commit(newer)] + [Touch(older), Commit(older)] == [Commit(newer), Touch(older), Commit(older)];
    assert [Touch(older)] + [Commit(older)] == [Touch(older), Commit(older)] && [Commit(older)] + [] == [Commit(older)];
    assert s3.messages == s.messages + [s.txs[newer].message] + [s.txs[older].message];
    assert s.txs[newer].message in s3.messages;
  }

  /** Such states are reached. */
  lemma OverlapIsReached(older: Message, newer: Message)
    requires 0 <= older.at < newer.at
    ensures var steps := [Begin(older), Begin(newer), Insert(0), Insert(1), Touch(1)];
            Legal(EMPTY, steps) && Execute(EMPTY, steps).txs == [Tx(older, Inserted), Tx(newer, Touched)]
  {
    var s1 := Next(EMPTY, Begin(older));
    var s2 := Next(s1, Begin(newer));
    var s3 := Next(s2, Insert(0));
    var s4 := Next(s3, Insert(1));
    var s5 := Next(s4, Touch(1));
    assert s5.txs == [Tx(older, Inserted), Tx(newer, Touched)];
    assert Legal(s5, []) && Execute(s5, []) == s5;
    hide Legal, Execute;
    LegalStep(s4, Touch(1), []);
    LegalStep(s3, Insert(1), [Touch(1)] + []);
    LegalStep(s2, Insert(0), [Insert(1)] + ([Touch(1)] + []));
    LegalStep(s1, Begin(newer), [Insert(0)] + ([Insert(1)] + ([Touch(1)] + [])));
    LegalStep(EMPTY, Begin(older), [Begin(newer)] + ([Insert(0)] + ([Insert(1)] + ([Touch(1)] + []))));
    assert [Begin(older)] + ([Begin(newer)] + ([Insert(0)] + ([Insert(1)] + ([Touch(1)] + []))))
           == [Begin(older), Begin(newer), Insert(0), Insert(1), Touch(1)];
  }

  lemma LegalStep(s: State, step: Step, rest: seq<Step>)
    requires Enabled(s, step) && Legal(Next(s, step), rest)
    ensures Legal(s, [step] + rest) && Execute(s, [step] + rest) == Execute(Next(s, step), rest)
  {}
}
