/** The bounded outbox of one WebSocket connection, with senders, the writer, the reader and the
    pinger interleaving freely. */
module Outbox {
  import opened Wrappers

  /** The frames the server sends, with the fields each kind carries; an absent field is "". */
  datatype Frame =
    | Ready(userId: string, shopId: string)
    | Message(conversationId: string, id: string, senderId: string, senderRole: string,
              text: string, createdAt: int, clientMsgId: string)
    | Error(reason: string, clientMsgId: string)

  const OUTBOX_SIZE := 16

  /** What became of a frame passed to Send. */
  datatype Fate = Queued | Dropped | Overflowed

  /** `offered` is every frame passed to Send with its fate, `losers` the senders that found the
      queue full and have yet to call Close, `closes` how often the close block ran. */
  datatype Conn = Conn(
    outbox: seq<Frame>,
    writing: Option<Frame>,
    written: seq<Frame>,
    writerGone: bool,
    done: bool,
    closes: nat,
    offered: seq<(Frame, Fate)>,
    losers: nat)

  const FRESH := Conn([], None, [], false, false, 0, [], 0)

  datatype Step =
    | Send(frame: Frame, fate: Fate)
    | LoserCloses
    | OtherCloses
    | Take
    | WriteSucceeds
    | WriteFails
    | WriterStops

  /** Go's select takes any ready case, and its default only when none is ready: a frame can be
      queued while there is room, dropped once the connection is done, and overflows when neither. */
  predicate Enabled(c: Conn, step: Step) {
    match step
    case Send(_, Queued) => |c.outbox| < OUTBOX_SIZE
    case Send(_, Dropped) => c.done
    case Send(_, Overflowed) => |c.outbox| >= OUTBOX_SIZE && !c.done
    case LoserCloses => c.losers > 0
    case OtherCloses => true
    case Take => !c.writerGone && c.writing.None? && c.outbox != []
    case WriteSucceeds => !c.writerGone && c.writing.Some?
    case WriteFails => !c.writerGone && c.writing.Some?
    case WriterStops => !c.writerGone && c.writing.None?
  }

  /** Close runs its block once; every later call does nothing. */
  function Close(c: Conn): Conn {
    if c.done then c else c.(done := true, closes := c.closes + 1)
  }

  function Next(c: Conn, step: Step): Conn
    requires Enabled(c, step)
  {
    match step
    case Send(f, fate) =>
      var c := c.(offered := c.offered + [(f, fate)]);
      (match fate
       case Queued => c.(outbox := c.outbox + [f])
       case Dropped => c
       case Overflowed => c.(losers := c.losers + 1))
    case LoserCloses => Close(c.(losers := c.losers - 1))
    case OtherCloses => Close(c)
    case Take => c.(writing := Some(c.outbox[0]), outbox := c.outbox[1..])
    case WriteSucceeds => c.(written := c.written + [c.writing.value], writing := None)
    case WriteFails => Close(c.(writerGone := true))
    case WriterStops => c.(writerGone := true)
  }

  ghost predicate Legal(c: Conn, steps: seq<Step>)
    decreases |steps|
  {
    steps == [] || (Enabled(c, steps[0]) && Legal(Next(c, steps[0]), steps[1..]))
  }

  function Execute(c: Conn, steps: seq<Step>): Conn
    requires Legal(c, steps)
    decreases |steps|
  {
    if steps == [] then c else Execute(Next(c, steps[0]), steps[1..])
  }

  /** The frames with a given fate, in order. */
  function WithFate(offered: seq<(Frame, Fate)>, fate: Fate): seq<Frame> {
    if offered == [] then []
    else
      WithFate(offered[..|offered| - 1], fate)
      + if offered[|offered| - 1].1 == fate then [offered[|offered| - 1].0] else []
  }

  function InHand(c: Conn): seq<Frame> {
    c.written + (if c.writing.Some? then [c.writing.value] else []) + c.outbox
  }

  /** The accounting that every step keeps. */
  ghost predicate Sound(c: Conn) {
    && |c.outbox| <= OUTBOX_SIZE
    && InHand(c) == WithFate(c.offered, Queued)
    && c.closes == (if c.done then 1 else 0)
    && (!c.done ==> WithFate(c.offered, Dropped) == [] && |WithFate(c.offered, Overflowed)| == c.losers)
  }

  lemma SendKeepsSound(c: Conn, f: Frame, fate: Fate)
    requires Sound(c) && Enabled(c, Send(f, fate))
    ensures Sound(Next(c, Send(f, fate)))
  {}

  lemma StepKeepsSound(c: Conn, step: Step)
    requires Sound(c) && Enabled(c, step)
    ensures Sound(Next(c, step))
  {
    hide WithFate;
    match step
    case Send(f, fate) => SendKeepsSound(c, f, fate);
    case Take =>
      assert InHand(Next(c, step)) == InHand(c);
    case WriteSucceeds =>
      assert InHand(Next(c, step)) == InHand(c);
    case _ =>
  }

  lemma {:induction false} RunKeepsSound(c: Conn, steps: seq<Step>)
    requires Sound(c) && Legal(c, steps)
    ensures Sound(Execute(c, steps))
    decreases |steps|
  {
    if steps != [] {
      StepKeepsSound(c, steps[0]);
      RunKeepsSound(Next(c, steps[0]), steps[1..]);
    }
  }

  function Frames(offered: seq<(Frame, Fate)>): seq<Frame> {
    seq(|offered|, i requires 0 <= i < |offered| => offered[i].0)
  }

  /** Every frame offered has one of the three fates. */
  lemma {:induction false} FatesAddUp(offered: seq<(Frame, Fate)>)
    ensures |WithFate(offered, Queued)| + |WithFate(offered, Dropped)| + |WithFate(offered, Overflowed)| == |offered|
  {
    if offered != [] {
      FatesAddUp(offered[..|offered| - 1]);
    }
  }

  lemma {:induction false} AllQueued(offered: seq<(Frame, Fate)>)
    requires WithFate(offered, Dropped) == [] && WithFate(offered, Overflowed) == []
    ensures WithFate(offered, Queued) == Frames(offered)
  {
    if offered != [] {
      var init := offered[..|offered| - 1];
      AllQueued(init);
      assert Frames(offered) == Frames(init) + [offered[|offered| - 1].0];
    }
  }

  /** One call of Send run to its end, by a sender that closes the connection it found full. */
  function AfterSend(c: Conn, f: Frame, fate: Fate): Conn
    requires Enabled(c, Send(f, fate))
  {
    var sent := Next(c, Send(f, fate));
    if fate == Overflowed then Next(sent, LoserCloses) else sent
  }

  ghost predicate Sent(c: Conn, f: Frame, d: Conn) {
    exists fate :: Enabled(c, Send(f, fate)) && d == AfterSend(c, f, fate)
  }

  lemma SentKeeps(c: Conn, f: Frame, d: Conn)
    requires Sent(c, f, d)
    ensures Sound(c) ==> Sound(d)
    ensures Frames(d.offered) == Frames(c.offered) + [f]
  {
    hide Sound;
    var fate :| Enabled(c, Send(f, fate)) && d == AfterSend(c, f, fate);
    assert Frames(d.offered) == Frames(c.offered) + [f];
    if Sound(c) {
      StepKeepsSound(c, Send(f, fate));
      if fate == Overflowed {
        StepKeepsSound(Next(c, Send(f, fate)), LoserCloses);
      }
    }
  }

  /** MAIN RESULT.  Under every interleaving: at most 16 frames wait; the frames written, being
      written and waiting are exactly the ones queued, in order; the close block runs at most once;
      and on an open connection those are all the frames anyone sent, with no silent gap, exactly when
      no sender that found it full has yet to close it.  A frame that found no room means the
      connection is closed, once its sender's Close has run. */
  lemma NoSilentGap(steps: seq<Step>)
    requires Legal(FRESH, steps)
    ensures var c := Execute(FRESH, steps);
            && |c.outbox| <= 16
            && InHand(c) == WithFate(c.offered, Queued)
            && c.closes == (if c.done then 1 else 0)
            && (!c.done ==> (c.losers == 0 <==> InHand(c) == Frames(c.offered)))
            && (c.losers == 0 && WithFate(c.offered, Overflowed) != [] ==> c.done)
  {
    RunKeepsSound(FRESH, steps);
    var c := Execute(FRESH, steps);
    FatesAddUp(c.offered);
    if !c.done && c.losers == 0 {
      AllQueued(c.offered);
    }
  }

  /** Overflowing, making room and queueing, one after another. */
  lemma TailOpens(c: Conn, f: Frame, g: Frame)
    requires !c.done && !c.writerGone && c.writing.None? && |c.outbox| == OUTBOX_SIZE
    ensures Enabled(c, Send(f, Overflowed)) && Enabled(Next(c, Send(f, Overflowed)), Take)
    ensures var c2 := Next(Next(c, Send(f, Overflowed)), Take);
            && Enabled(c2, Send(g, Queued))
            && var c3 := Next(c2, Send(g, Queued));
            && !c3.done && c3.outbox == c.outbox[1..] + [g]
            && c3.offered == c.offered + [(f, Overflowed), (g, Queued)] && InHand(c3) == InHand(c) + [g]
  {}

  /** The pending close matters: between a sender finding the queue full and its Close, the writer
      can make room and another sender's later frame is queued on the still open connection. */
  lemma LaterFrameCanPass(c: Conn, f: Frame, g: Frame)
    requires Sound(c) && !c.done && !c.writerGone && c.writing.None? && |c.outbox| == OUTBOX_SIZE
    ensures var steps := [Send(f, Overflowed), Take, Send(g, Queued)];
            && Legal(c, steps)
            && !Execute(c, steps).done
            && InHand(Execute(c, steps)) == InHand(c) + [g]
            && Execute(c, steps).outbox == c.outbox[1..] + [g]
            && Execute(c, steps).offered == c.offered + [(f, Overflowed), (g, Queued)]
  {
    var c1, c2 := Next(c, Send(f, Overflowed)), Next(Next(c, Send(f, Overflowed)), Take);
    TailOpens(c, f, g);
    hide Next, InHand, Sound, Enabled;
    var c3 := Next(c2, Send(g, Queued));
    assert Legal(c3, []) && Execute(c3, []) == c3;
    hide Legal, Execute;
    LegalStep(c2, Send(g, Queued), []);
    LegalStep(c1, Take, [Send(g, Queued)] + []);
    LegalStep(c, Send(f, Overflowed), [Take] + ([Send(g, Queued)] + []));
    assert [Send(f, Overflowed)] + ([Take] + ([Send(g, Queued)] + [])) == [Send(f, Overflowed), Take, Send(g, Queued)];
  }

  lemma LegalStep(c: Conn, step: Step, rest: seq<Step>)
    requires Enabled(c, step) && Legal(Next(c, step), rest)
    ensures Legal(c, [step] + rest) && Execute(c, [step] + rest) == Execute(Next(c, step), rest)
  {
    assert ([step] + rest)[1..] == rest;
  }

  lemma {:induction false} LegalAppend(c: Conn, a: seq<Step>, b: seq<Step>)
    requires Legal(c, a) && Legal(Execute(c, a), b)
    ensures Legal(c, a + b) && Execute(c, a + b) == Execute(Execute(c, a), b)
    decreases |a|
  {
    if a == [] {
      assert a + b == b;
    } else {
      LegalAppend(Next(c, a[0]), a[1..], b);
      assert (a + b)[0] == a[0] && (a + b)[1..] == a[1..] + b;
    }
  }

  function Sends(n: nat, f: Frame): seq<Step> {
    if n == 0 then [] else [Send(f, Queued)] + Sends(n - 1, f)
  }

  lemma {:induction false} FillsUp(c: Conn, n: nat, f: Frame)
    requires |c.outbox| + n <= OUTBOX_SIZE
    ensures Legal(c, Sends(n, f))
    ensures var d := Execute(c, Sends(n, f));
            |d.outbox| == |c.outbox| + n && d == c.(outbox := d.outbox, offered := d.offered)
    decreases n
  {
    if n > 0 {
      assert Sends(n, f)[0] == Send(f, Queued) && Sends(n, f)[1..] == Sends(n - 1, f);
      FillsUp(Next(c, Send(f, Queued)), n - 1, f);
    }
  }

  /** It happens: a run in which `f` found no room, `g` sent after it was queued, and the connection is
      still open. */
  lemma LaterFramePasses(f: Frame, g: Frame)
    ensures exists steps ::
      && Legal(FRESH, steps)
      && var c := Execute(FRESH, steps);
      && !c.done && |c.offered| >= 2 && g in c.outbox
      && c.offered[|c.offered| - 2..] == [(f, Overflowed), (g, Queued)]
  {
    var fill, tail := Sends(OUTBOX_SIZE, g), [Send(f, Overflowed), Take, Send(g, Queued)];
    FillsUp(FRESH, OUTBOX_SIZE, g);
    RunKeepsSound(FRESH, fill);
    var full := Execute(FRESH, fill);
    LaterFrameCanPass(full, f, g);
    LegalAppend(FRESH, fill, tail);
    var c := Execute(FRESH, fill + tail);
    assert c.offered == full.offered + [(f, Overflowed), (g, Queued)];
    assert InHand(c)[|InHand(c)| - 1] == g && c.outbox[|c.outbox| - 1] == g;
  }
}
