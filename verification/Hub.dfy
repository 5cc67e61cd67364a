/** The connections and the hub that the WebSocket handlers share, and the path of one chat message. */
module Hub {
  import opened Wrappers
  import opened HubRooms
  import opened QuestionText
  import Outbox

  type Frame = Outbox.Frame

  /** `link` is the connection's state in the interleaving model; the real fields are parts of it. */
  class Conn {
    const userId: string
    const shopId: string
    var outbox: seq<Frame>
    var done: bool
    var closes: nat
    ghost var link: Outbox.Conn

    ghost predicate Valid()
      reads this
    {
      && outbox == link.outbox && done == link.done && closes == link.closes
      && Outbox.Sound(link)
    }

    /** Every frame passed to Send, in order. */
    ghost function Offered(): seq<Frame>
      reads this
    {
      Outbox.Frames(link.offered)
    }

    constructor (userId: string, shopId: string)
      ensures Valid() && link == Outbox.FRESH
      ensures this.userId == userId && this.shopId == shopId
    {
      this.userId, this.shopId := userId, shopId;
      outbox, done, closes := [], false, 0;
      link := Outbox.FRESH;
    }

    /** Never waits: queues the frame, drops it if the connection is done, closes a full one. */
    method Send(frame: Frame)
      requires Valid()
      modifies this
      ensures Valid() && Outbox.Sent(old(link), frame, link)
      ensures Offered() == old(Offered()) + [frame]
      ensures (outbox == old(outbox) + [frame] && |outbox| <= 16 && done == old(done))
              || (outbox == old(outbox) && done && (old(done) || |outbox| == 16))
    {
      ghost var fate: Outbox.Fate;
      if {
        case |outbox| < Outbox.OUTBOX_SIZE =>
          outbox := outbox + [frame];
          fate := Outbox.Queued;
        case done =>
          fate := Outbox.Dropped;
        case |outbox| >= Outbox.OUTBOX_SIZE && !done =>
          Close();
          fate := Outbox.Overflowed;
      }
      assert Outbox.Enabled(old(link), Outbox.Send(frame, fate));
      link := Outbox.AfterSend(old(link), frame, fate);
      Outbox.SentKeeps(old(link), frame, link);
    }

    method Close()
      requires Valid()
      modifies this
      ensures Valid() && link == Outbox.Next(old(link), Outbox.OtherCloses)
      ensures done && closes == 1 && outbox == old(outbox)
    {
      if !done {
        closes := closes + 1;
        done := true;
      }
      link := Outbox.Next(old(link), Outbox.OtherCloses);
    }

    /** One turn of the write loop with a frame waiting; `ok` is what the socket write answers. */
    method WriteNext(ok: bool) returns (again: bool)
      requires Valid() && outbox != [] && !link.writerGone && link.writing.None?
      modifies this
      ensures Valid() && again == ok
      ensures link == Outbox.Next(Outbox.Next(old(link), Outbox.Take),
                                  if ok then Outbox.WriteSucceeds else Outbox.WriteFails)
      ensures outbox == old(outbox)[1..] && done == (old(done) || !ok) && link.writerGone == !ok
      ensures link.written == old(link.written) + if ok then [old(outbox)[0]] else []
    {
      outbox := outbox[1..];
      if !ok && !done {
        closes := closes + 1;
        done := true;
      }
      link := Outbox.Next(old(link), Outbox.Take);
      Outbox.StepKeepsSound(old(link), Outbox.Take);
      Outbox.StepKeepsSound(link, if ok then Outbox.WriteSucceeds else Outbox.WriteFails);
      link := Outbox.Next(link, if ok then Outbox.WriteSucceeds else Outbox.WriteFails);
      again := ok;
    }
  }

  /** What a connection has been offered after one broadcast to a room. */
  function WithCopy(offered: seq<Frame>, c: Conn, room: set<Conn>, frame: Frame): seq<Frame> {
    if c in room then offered + [frame] else offered
  }

  method SendAll(targets: set<Conn>, frame: Frame)
    requires forall c :: c in targets ==> c.Valid()
    modifies targets
    ensures forall c :: c in targets ==> c.Valid() && c.Offered() == old(c.Offered()) + [frame]
  {
    hide Conn.Valid, Outbox.Sent, Outbox.Frames;
    var waiting := targets;
    while waiting != {}
      invariant waiting <= targets
      invariant forall c :: c in targets ==> c.Valid()
      invariant forall c :: c in targets ==> c.Offered() == WithCopy(old(c.Offered()), c, targets - waiting, frame)
      decreases waiting
    {
      var c :| c in waiting;
      c.Send(frame);
      waiting := waiting - {c};
    }
  }

  class Hub {
    var rooms: Rooms<Conn>
    var keys: Keys<Conn>

    ghost function State(): State<Conn>
      reads this
    {
      HubRooms.State(rooms, keys)
    }

    ghost predicate Valid()
      reads this, keys.Keys
    {
      && Consistent(State())
      && forall c :: c in keys ==> c.Valid()
    }

    constructor ()
      ensures Valid() && State() == Run<Conn>([])
    {
      rooms, keys := map[], map[];
    }

    method Join(c: Conn, asked: seq<string>)
      requires Valid() && c.Valid()
      modifies this
      ensures Valid() && State() == HubRooms.Join(old(State()), c, asked)
    {
      hide Consistent, Conn.Valid;
      ghost var before := State();
      JoinSpec(before, c, asked);
      for i := 0 to |asked|
        invariant State() == HubRooms.Join(before, c, asked[..i])
        invariant keys.Keys <= before.keys.Keys + {c}
      {
        assert asked[..i + 1][..i] == asked[..i];
        if asked[i] == "" || asked[i] == ShopKey("") {
          continue;
        }
        var room := {};
        if asked[i] in rooms {
          room := rooms[asked[i]];
        }
        rooms := rooms[asked[i] := room + {c}];
        keys := keys[c := (if c in keys then keys[c] else []) + [asked[i]]];
      }
      assert asked[..|asked|] == asked;
    }

    method Leave(c: Conn)
      requires Valid()
      modifies this
      ensures Valid() && State() == HubRooms.Leave(old(State()), c)
    {
      hide Consistent, Room, Conn.Valid;
      ghost var before := State();
      LeaveSpec(before, c);
      var left := if c in keys then keys[c] else [];
      for i := 0 to |left|
        invariant rooms == LeaveEach(before.rooms, c, left[..i]) && keys == before.keys
      {
        assert left[..i + 1][..i] == left[..i];
        if left[i] !in rooms {
          continue;
        }
        var room := rooms[left[i]] - {c};
        rooms := rooms[left[i] := room];
        if room == {} {
          rooms := rooms - {left[i]};
        }
      }
      assert left[..|left|] == left;
      keys := keys - {c};
    }

    /** Every connection in the room but `skip` is sent the frame once; nothing else changes. */
    method Broadcast(key: string, skip: Conn, frame: Frame)
      requires Valid()
      modifies Room(rooms, key) - {skip}
      ensures Valid()
      ensures forall c :: c in keys && c != skip ==>
        c.Offered() == WithCopy(old(c.Offered()), c, Room(rooms, key), frame)
    {
      assert Room(rooms, key) <= keys.Keys;
      hide Consistent, Room, Conn.Valid, Outbox.Frames;
      SendAll(Room(rooms, key) - {skip}, frame);
    }

    method Len() returns (n: nat)
      ensures n == |keys.Keys|
    {
      n := |keys|;
    }
  }

  /** The two ends of a conversation, and the seat and role of the person writing. */
  datatype Target = Target(conversationId: string, buyerUserId: string, shopId: string,
                           senderParticipantId: string, senderRole: string)

  function MessageFrame(target: Target, messageId: string, text: string, createdAt: int, clientMsgId: string): Frame {
    Outbox.Message(target.conversationId, messageId, target.senderParticipantId, target.senderRole,
                   text, createdAt, clientMsgId)
  }

  /** The frame is this message, field by field. */
  predicate Carries(f: Frame, target: Target, messageId: string, text: string, createdAt: int, clientMsgId: string) {
    && f.Message?
    && f.conversationId == target.conversationId
    && f.id == messageId
    && f.senderId == target.senderParticipantId && f.senderRole == target.senderRole
    && f.text == text && f.createdAt == createdAt
    && f.clientMsgId == clientMsgId
  }

  /** What a connection was offered is followed by `copies` copies of the message, each without a
      clientMsgId, and by nothing else. */
  ghost predicate GivenCopies(before: seq<Frame>, after: seq<Frame>, copies: nat, target: Target, messageId: string,
                              text: string, createdAt: int)
  {
    && before <= after && |after| == |before| + copies
    && forall i :: |before| <= i < |after| ==> Carries(after[i], target, messageId, text, createdAt, "")
  }

  /** How many of the conversation's two rooms the connection is in. */
  function RoomsOf(rooms: Rooms<Conn>, target: Target, c: Conn): nat {
    (if c in Room(rooms, "user:" + target.buyerUserId) then 1 else 0)
    + (if c in Room(rooms, "shop:" + target.shopId) then 1 else 0)
  }

  lemma CopiesAreGiven(before: seq<Frame>, rooms: Rooms<Conn>, c: Conn, target: Target, messageId: string,
                       text: string, createdAt: int)
    ensures var copy := MessageFrame(target, messageId, text, createdAt, "");
            var after := WithCopy(WithCopy(before, c, Room(rooms, UserKey(target.buyerUserId)), copy),
                                  c, Room(rooms, ShopKey(target.shopId)), copy);
            GivenCopies(before, after, RoomsOf(rooms, target, c), target, messageId, text, createdAt)
  {}

  lemma EchoCarries(target: Target, messageId: string, text: string, createdAt: int, clientMsgId: string)
    ensures Carries(MessageFrame(target, messageId, text, createdAt, clientMsgId),
                    target, messageId, text, createdAt, clientMsgId)
  {}

  method BroadcastBoth(hub: Hub, first: string, second: string, skip: Conn, frame: Frame)
    requires hub.Valid()
    modifies Room(hub.rooms, first) - {skip}, Room(hub.rooms, second) - {skip}
    ensures hub.Valid()
    ensures forall c :: c in hub.keys && c != skip ==>
      c.Offered() == WithCopy(WithCopy(old(c.Offered()), c, Room(hub.rooms, first), frame),
                              c, Room(hub.rooms, second), frame)
  {
    hide *;
    hub.Broadcast(first, skip, frame);
    hub.Broadcast(second, skip, frame);
  }

  /** MAIN RESULT for delivery.  Everyone but the sending connection is offered one copy for each of
      the two rooms it is in, none of them with a clientMsgId; the sending connection is offered
      exactly one copy, whatever rooms it is in, and that one carries its clientMsgId. */
  method Fanout(hub: Hub, sender: Conn, target: Target, messageId: string, text: string, createdAt: int,
                clientMsgId: string)
    requires hub.Valid() && sender.Valid()
    modifies Room(hub.rooms, UserKey(target.buyerUserId)), Room(hub.rooms, ShopKey(target.shopId)), sender
    ensures hub.Valid() && sender.Valid()
    ensures forall c :: c in hub.keys && c != sender ==>
      var copy := MessageFrame(target, messageId, text, createdAt, "");
      c.Offered() == WithCopy(WithCopy(old(c.Offered()), c, Room(hub.rooms, UserKey(target.buyerUserId)), copy),
                              c, Room(hub.rooms, ShopKey(target.shopId)), copy)
      && GivenCopies(old(c.Offered()), c.Offered(), RoomsOf(hub.rooms, target, c), target, messageId, text, createdAt)
    ensures Outbox.Sent(old(sender.link), MessageFrame(target, messageId, text, createdAt, clientMsgId), sender.link)
    ensures |sender.Offered()| == |old(sender.Offered())| + 1 && old(sender.Offered()) <= sender.Offered()
    ensures Carries(sender.Offered()[|sender.Offered()| - 1], target, messageId, text, createdAt, clientMsgId)
  {
    hide Consistent, Room, UserKey, ShopKey, MessageFrame, Outbox.Sent, Outbox.Frames, Outbox.Sound, WithCopy;
    hide Carries, GivenCopies, RoomsOf;
    BroadcastBoth(hub, UserKey(target.buyerUserId), ShopKey(target.shopId), sender,
                  MessageFrame(target, messageId, text, createdAt, ""));
    sender.Send(MessageFrame(target, messageId, text, createdAt, clientMsgId));
    EchoCarries(target, messageId, text, createdAt, clientMsgId);
    forall c | c in hub.keys && c != sender
      ensures GivenCopies(old(c.Offered()), c.Offered(), RoomsOf(hub.rooms, target, c), target, messageId, text, createdAt)
    {
      CopiesAreGiven(old(c.Offered()), hub.rooms, c, target, messageId, text, createdAt);
    }
  }

  const MAX_TEXT := 4000

  /** A client's send frame. */
  datatype Request = Request(conversationId: string, shopId: string, text: string, clientMsgId: string)

  datatype Answer<T> = Got(value: T) | NotFound | Broken

  datatype Opened = Opened(conversationId: string, buyerSeat: string)

  datatype Stored = Stored(messageId: string, createdAt: int)

  /** What the limiter and the database answer while a request is handled. */
  datatype World = World(allowed: bool, hasStore: bool, resolved: Answer<Target>, ensured: Answer<Opened>,
                         stored: Option<Stored>)

  datatype Resolution = Resolved(target: Target) | Refused(reason: string)

  /** Whom a request writes to.  A conversation id wins over a shop id; a shop id opens a conversation,
      never with the sender's own shop. */
  function ResolveTarget(userId: string, shopId: string, request: Request, world: World): (r: Resolution)
    ensures r.Resolved? && request.conversationId == "" ==>
      && r.target.buyerUserId == userId && r.target.senderRole == "user"
      && r.target.shopId == request.shopId && request.shopId != "" && request.shopId != shopId
      && world.ensured.Got?
      && r.target.conversationId == world.ensured.value.conversationId
      && r.target.senderParticipantId == world.ensured.value.buyerSeat
    ensures request.conversationId != "" ==>
      && (r.Resolved? <==> world.resolved.Got?) && (r.Resolved? ==> r.target == world.resolved.value)
    ensures r == Refused("send_failed") <==>
      if request.conversationId != "" then world.resolved.Broken?
      else request.shopId != "" && request.shopId != shopId && !world.ensured.Got?
    ensures r == Refused("conversation_not_found") <==> request.conversationId != "" && world.resolved.NotFound?
    ensures r == Refused("missing_target") <==> request.conversationId == "" && request.shopId == ""
    ensures r == Refused("own_shop") <==>
      request.conversationId == "" && request.shopId != "" && request.shopId == shopId
  {
    if request.conversationId != "" then
      match world.resolved
      case Got(target) => Resolved(target)
      case NotFound => Refused("conversation_not_found")
      case Broken => Refused("send_failed")
    else if request.shopId == "" then Refused("missing_target")
    else if shopId != "" && shopId == request.shopId then Refused("own_shop")
    else
      match world.ensured
      case Got(o) =>
        Resolved(Target(o.conversationId, userId, request.shopId, o.buyerSeat, "user"))
      case _ => Refused("send_failed")
  }

  datatype Ruling = Deliver(target: Target, text: string, stored: Stored) | Refuse(reason: string)

  /** A request is delivered iff it passes every gate, text before rate before target before store. */
  ghost predicate Rules(unicode: Unicode, userId: string, shopId: string, request: Request, world: World, r: Ruling) {
    var text := Trim(unicode, request.text);
    var resolution := ResolveTarget(userId, shopId, request, world);
    && (r == Refuse("bad_text") <==> text == "" || |text| > 4000)
    && (r == Refuse("too_fast") <==> 0 < |text| <= 4000 && !world.allowed)
    && (r == Refuse("store_unavailable") <==> 0 < |text| <= 4000 && world.allowed && !world.hasStore)
    && (0 < |text| <= 4000 && world.allowed && world.hasStore ==>
          && (resolution.Refused? ==> r == Refuse(resolution.reason))
          && (resolution.Resolved? && world.stored.None? ==> r == Refuse("send_failed")))
    && (r.Deliver? <==> 0 < |text| <= 4000 && world.allowed && world.hasStore
                        && resolution.Resolved? && world.stored.Some?)
    && (r.Deliver? ==> r == Deliver(resolution.target, text, world.stored.value))
  }

  method Gates(unicode: Unicode, userId: string, shopId: string, request: Request, world: World)
      returns (r: Ruling)
    ensures Rules(unicode, userId, shopId, request, world, r)
  {
    var text := Trim(unicode, request.text);
    if text == "" || |text| > MAX_TEXT {
      return Refuse("bad_text");
    }
    if !world.allowed {
      return Refuse("too_fast");
    }
    if !world.hasStore {
      return Refuse("store_unavailable");
    }
    var resolution := ResolveTarget(userId, shopId, request, world);
    if resolution.Refused? {
      return Refuse(resolution.reason);
    }
    if world.stored.None? {
      return Refuse("send_failed");
    }
    return Deliver(resolution.target, text, world.stored.value);
  }

  /** Tell the sending connection why not, and nobody else anything. */
  method SendError(hub: Hub, sender: Conn, reason: string, clientMsgId: string)
    requires hub.Valid() && sender.Valid()
    modifies sender
    ensures hub.Valid() && sender.Valid()
    ensures Outbox.Sent(old(sender.link), Outbox.Error(reason, clientMsgId), sender.link)
    ensures sender.Offered() == old(sender.Offered()) + [Outbox.Error(reason, clientMsgId)]
  {
    hide Consistent, Outbox.Sent, Outbox.Frames, Outbox.Sound;
    sender.Send(Outbox.Error(reason, clientMsgId));
  }

  /** MAIN RESULT for a request.  The sending connection is offered exactly one frame in reply, and it
      carries the request's clientMsgId.  A refusal reaches nobody else.  A delivery offers everyone
      else the same message without the clientMsgId, once per room of the conversation they are in. */
  method HandleSend(unicode: Unicode, hub: Hub, sender: Conn, request: Request, world: World)
      returns (r: Ruling)
    requires hub.Valid() && sender.Valid()
    modifies hub.keys.Keys, sender
    ensures hub.Valid() && sender.Valid()
    ensures Rules(unicode, sender.userId, sender.shopId, request, world, r)
    ensures r.Refuse? ==>
      && Outbox.Sent(old(sender.link), Outbox.Error(r.reason, request.clientMsgId), sender.link)
      && forall c :: c in hub.keys && c != sender ==> c.link == old(c.link)
    ensures r.Deliver? ==>
      && Outbox.Sent(old(sender.link),
                     MessageFrame(r.target, r.stored.messageId, r.text, r.stored.createdAt, request.clientMsgId),
                     sender.link)
      && forall c :: c in hub.keys && c != sender ==>
           var copy := MessageFrame(r.target, r.stored.messageId, r.text, r.stored.createdAt, "");
           && c.Offered() == WithCopy(WithCopy(old(c.Offered()), c, Room(hub.rooms, UserKey(r.target.buyerUserId)), copy),
                                      c, Room(hub.rooms, ShopKey(r.target.shopId)), copy)
           && GivenCopies(old(c.Offered()), c.Offered(), RoomsOf(hub.rooms, r.target, c), r.target, r.stored.messageId,
                          Trim(unicode, request.text), r.stored.createdAt)
    // The reply by field: it carries the clientMsgId that was sent, as no copy does.
    ensures |sender.Offered()| == |old(sender.Offered())| + 1 && old(sender.Offered()) <= sender.Offered()
    ensures var reply := sender.Offered()[|sender.Offered()| - 1];
            if r.Refuse? then reply.Error? && reply.reason == r.reason && reply.clientMsgId == request.clientMsgId
            else Carries(reply, r.target, r.stored.messageId, Trim(unicode, request.text), r.stored.createdAt,
                         request.clientMsgId)
  {
    r := Gates(unicode, sender.userId, sender.shopId, request, world);
    assert forall key :: Room(hub.rooms, key) <= hub.keys.Keys;
    assert r.Deliver? ==> r.text == Trim(unicode, request.text);
    hide *;
    match r
    case Refuse(reason) =>
      SendError(hub, sender, reason, request.clientMsgId);
    case Deliver(target, text, stored) =>
      Fanout(hub, sender, target, stored.messageId, text, stored.createdAt, request.clientMsgId);
  }
}
