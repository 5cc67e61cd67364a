/** Finding or creating a conversation and one's seat in it, by any number of requests at once. */
module Conversations {
  import opened Wrappers

  type Id = nat

  datatype Owner = User(userId: string) | Guest(guestKey: string)

  /** What the unique indexes on conversation tell apart: a bot conversation by its owner, a direct one
      by buyer and shop.  A row is its key. */
  datatype Key = BotOf(owner: Owner) | DirectOf(buyer: string, shop: string)

  datatype Role = Human | Seller | Bot

  /** A participant row.  The bot has no identity, everyone else exactly one. */
  datatype Seat = Seat(conv: Id, role: Role, who: Option<Owner>)

  datatype Message = Message(conv: Id, sender: Id)

  datatype Tables = Tables(convs: map<Id, Key>, seats: map<Id, Seat>, messages: map<Id, Message>)

  datatype Kind =
    | EnsureBot(owner: Owner)
    | EnsureDirect(buyer: string, shop: string)
    | Resolve(conv: Id, viewer: string, viewerShop: string)

  datatype Stage =
    | FindConv | InsertConv | RefindConv
    | LoadConv | CheckSeat
    | FindSeat | InsertSeat | RefindSeat
    | Finished | Refused | Missed | Failed

  datatype Call = Call(kind: Kind, stage: Stage, conv: Id, got: seq<Id>)

  datatype System = System(db: Tables, calls: seq<Call>)

  const EMPTY := System(Tables(map[], map[], map[]), [])

  /** A seat a call wants to exist. */
  datatype Need = Need(role: Role, who: Option<Owner>)

  function Needs(kind: Kind, key: Key): seq<Need> {
    match kind
    case EnsureBot(owner) => [Need(Human, Some(owner)), Need(Bot, None)]
    case EnsureDirect(buyer, _) => [Need(Human, Some(User(buyer)))]
    case Resolve(_, viewer, _) =>
      [Need(if key.DirectOf? && key.buyer == viewer then Human else Seller, Some(User(viewer)))]
  }

  function KeyOf(kind: Kind): Key
    requires !kind.Resolve?
  {
    match kind
    case EnsureBot(owner) => BotOf(owner)
    case EnsureDirect(buyer, shop) => DirectOf(buyer, shop)
  }

  /** The bot path looks a seat up by role, the direct path by user. */
  predicate Fits(seat: Seat, conv: Id, need: Need, byRole: bool) {
    seat.conv == conv && if byRole then seat.role == need.role else seat.who == need.who
  }

  function StartOf(kind: Kind): Call {
    Call(kind, if kind.Resolve? then LoadConv else FindConv, if kind.Resolve? then kind.conv else 0, [])
  }

  /** What one statement answers: a row, no row, an error without effect, or an error after the insert
      took effect. */
  datatype Answer = Row(id: Id) | NoRow | Error | Lost(id: Id)

  predicate Running(call: Call) { !(call.stage in {Finished, Refused, Missed, Failed}) }

  /** The seat a call is working on. */
  predicate AtSeat(db: Tables, call: Call) {
    && call.conv in db.convs
    && |call.got| < |Needs(call.kind, db.convs[call.conv])|
  }

  function Wanted(db: Tables, call: Call): Need
    requires AtSeat(db, call)
  {
    Needs(call.kind, db.convs[call.conv])[|call.got|]
  }

  ghost predicate ConvExists(db: Tables, key: Key) {
    exists id :: id in db.convs && db.convs[id] == key
  }

  ghost predicate SeatExists(db: Tables, conv: Id, need: Need, byRole: bool) {
    exists id :: id in db.seats && Fits(db.seats[id], conv, need, byRole)
  }

  /** INSERT ... ON CONFLICT DO NOTHING skips iff a unique index already holds the identity. */
  ghost predicate SeatTaken(db: Tables, conv: Id, who: Option<Owner>) {
    exists id :: id in db.seats && db.seats[id].conv == conv && db.seats[id].who == who
  }

  /** The answers the database can give to a call's next statement.  New ids are fresh UUIDs. */
  ghost predicate CanAnswer(db: Tables, call: Call, a: Answer) {
    a.Error?
    || match call.stage
       case FindConv | RefindConv =>
         && !call.kind.Resolve?
         && (a.Row? ==> a.id in db.convs && db.convs[a.id] == KeyOf(call.kind))
         && (a.NoRow? ==> !ConvExists(db, KeyOf(call.kind)))
         && !a.Lost?
       case InsertConv =>
         && !call.kind.Resolve?
         && (a.NoRow? <==> ConvExists(db, KeyOf(call.kind)))
         && (a.Row? || a.Lost? ==> a.id !in db.convs)
       case LoadConv =>
         && call.kind.Resolve?
         && (a.Row? ==> a.id == call.conv && a.id in db.convs)
         && (a.NoRow? ==> call.conv !in db.convs)
         && !a.Lost?
       case CheckSeat =>
         && AtSeat(db, call) && call.kind.Resolve?
         && (a.Row? ==> a.id in db.seats && Fits(db.seats[a.id], call.conv, Wanted(db, call), false))
         && (a.NoRow? ==> !SeatExists(db, call.conv, Wanted(db, call), false))
         && !a.Lost?
       case FindSeat | RefindSeat =>
         && AtSeat(db, call)
         && (a.Row? ==> a.id in db.seats && Fits(db.seats[a.id], call.conv, Wanted(db, call), call.kind.EnsureBot?))
         && (a.NoRow? ==> !SeatExists(db, call.conv, Wanted(db, call), call.kind.EnsureBot?))
         && !a.Lost?
       case InsertSeat =>
         && AtSeat(db, call)
         && (a.NoRow? <==> SeatTaken(db, call.conv, Wanted(db, call).who))
         && (a.Row? || a.Lost? ==> a.id !in db.seats)
       case _ => false
  }

  function WithSeat(db: Tables, call: Call, id: Id): Call
    requires AtSeat(db, call)
  {
    var done := |call.got| + 1 == |Needs(call.kind, db.convs[call.conv])|;
    call.(got := call.got + [id], stage := if done then Finished else FindSeat)
  }

  /** The call after the answer. */
  function Moved(db: Tables, call: Call, a: Answer): Call
    requires Running(call) && CanAnswer(db, call, a)
  {
    if a.Error? || a.Lost? then call.(stage := Failed)
    else
      match call.stage
      case FindConv => if a.Row? then call.(conv := a.id, stage := FindSeat) else call.(stage := InsertConv)
      case InsertConv => if a.Row? then call.(conv := a.id, stage := FindSeat) else call.(stage := RefindConv)
      case RefindConv => if a.Row? then call.(conv := a.id, stage := FindSeat) else call.(stage := Missed)
      case LoadConv =>
        if a.NoRow? || db.convs[call.conv].BotOf? then call.(stage := Refused)
        else if call.kind.viewerShop != "" && db.convs[call.conv].shop == call.kind.viewerShop
        then call.(stage := FindSeat)
        else call.(stage := CheckSeat)
      case CheckSeat => call.(stage := if a.Row? then FindSeat else Refused)
      case FindSeat => if a.Row? then WithSeat(db, call, a.id) else call.(stage := InsertSeat)
      case InsertSeat => if a.Row? then WithSeat(db, call, a.id) else call.(stage := RefindSeat)
      case RefindSeat => if a.Row? then WithSeat(db, call, a.id) else call.(stage := Missed)
  }

  /** The tables after the answer: an insert that answers a row, or is lost, took effect. */
  function Written(db: Tables, call: Call, a: Answer): Tables
    requires Running(call) && CanAnswer(db, call, a)
  {
    if a.Error? || a.NoRow? then db
    else
      match call.stage
      case InsertConv => db.(convs := db.convs[a.id := KeyOf(call.kind)])
      case InsertSeat =>
        var need := Wanted(db, call);
        db.(seats := db.seats[a.id := Seat(call.conv, need.role, need.who)])
      case _ => db
  }

  datatype Step =
    | Begin(kind: Kind)
    | Advance(i: nat, answer: Answer)
    | Append(i: nat, seat: nat, id: Id)

  ghost predicate Enabled(s: System, step: Step) {
    match step
    case Begin(_) => true
    case Advance(i, a) => i < |s.calls| && Running(s.calls[i]) && CanAnswer(s.db, s.calls[i], a)
    case Append(i, seat, id) =>
      i < |s.calls| && s.calls[i].stage == Finished && seat < |s.calls[i].got| && id !in s.db.messages
  }

  function Next(s: System, step: Step): System
    requires Enabled(s, step)
  {
    match step
    case Begin(kind) => s.(calls := s.calls + [StartOf(kind)])
    case Advance(i, a) =>
      System(Written(s.db, s.calls[i], a), s.calls[i := Moved(s.db, s.calls[i], a)])
    case Append(i, seat, id) =>
      s.(db := s.db.(messages := s.db.messages[id := Message(s.calls[i].conv, s.calls[i].got[seat])]))
  }

  ghost predicate Legal(s: System, steps: seq<Step>)
    decreases |steps|
  {
    steps == [] || (Enabled(s, steps[0]) && Legal(Next(s, steps[0]), steps[1..]))
  }

  function Execute(s: System, steps: seq<Step>): System
    requires Legal(s, steps)
    decreases |steps|
  {
    if steps == [] then s else Execute(Next(s, steps[0]), steps[1..])
  }

  // ---------- What every step keeps ----------

  /** One row per identity. */
  ghost predicate ConvsUnique(db: Tables) {
    forall a, b :: a in db.convs && b in db.convs && db.convs[a] == db.convs[b] ==> a == b
  }

  ghost predicate SeatsUnique(db: Tables) {
    forall a, b | a in db.seats && b in db.seats ::
      db.seats[a].conv == db.seats[b].conv && db.seats[a].who == db.seats[b].who ==> a == b
  }

  /** The role that goes with an identity in a conversation. */
  predicate RightRole(key: Key, role: Role, who: Option<Owner>) {
    match key
    case BotOf(owner) => (role == Human && who == Some(owner)) || (role == Bot && who == None)
    case DirectOf(buyer, _) =>
      who.Some? && who.value.User? && role == if who.value.userId == buyer then Human else Seller
  }

  /** In a direct conversation sits its buyer, and whoever came in with the conversation's shop. */
  ghost predicate Entitled(calls: seq<Call>, key: Key, conv: Id, who: Option<Owner>) {
    key.BotOf?
    || who == Some(User(key.buyer))
    || exists i :: 0 <= i < |calls| && who.Some? && who.value.User? && key.shop != ""
                   && calls[i].kind == Resolve(conv, who.value.userId, key.shop)
  }

  ghost predicate SeatsRight(s: System) {
    forall id :: id in s.db.seats ==>
      var seat := s.db.seats[id];
      && seat.conv in s.db.convs
      && RightRole(s.db.convs[seat.conv], seat.role, seat.who)
      && Entitled(s.calls, s.db.convs[seat.conv], seat.conv, seat.who)
  }

  ghost predicate MessagesRight(db: Tables) {
    forall id :: id in db.messages ==>
      db.messages[id].sender in db.seats && db.seats[db.messages[id].sender].conv == db.messages[id].conv
  }

  /** A call past its conversation works on the right one. */
  ghost predicate OnConv(db: Tables, calls: seq<Call>, call: Call) {
    && call.conv in db.convs
    && if call.kind.Resolve? then
         call.conv == call.kind.conv && db.convs[call.conv].DirectOf?
         && Entitled(calls, db.convs[call.conv], call.conv, Some(User(call.kind.viewer)))
       else db.convs[call.conv] == KeyOf(call.kind)
  }

  ghost predicate GotRight(db: Tables, call: Call) {
    call.conv in db.convs
    && var needs := Needs(call.kind, db.convs[call.conv]);
       && |call.got| <= |needs|
       && forall j :: 0 <= j < |call.got| ==>
            call.got[j] in db.seats && db.seats[call.got[j]] == Seat(call.conv, needs[j].role, needs[j].who)
  }

  ghost predicate CallRight(db: Tables, calls: seq<Call>, call: Call) {
    match call.stage
    case FindConv | InsertConv => !call.kind.Resolve? && call.got == []
    case RefindConv => !call.kind.Resolve? && call.got == [] && ConvExists(db, KeyOf(call.kind))
    case LoadConv => call.kind.Resolve? && call.conv == call.kind.conv && call.got == []
    case CheckSeat =>
      && call.kind.Resolve? && call.conv == call.kind.conv && call.got == []
      && call.conv in db.convs && db.convs[call.conv].DirectOf?
    case FindSeat | InsertSeat => OnConv(db, calls, call) && GotRight(db, call) && AtSeat(db, call)
    case RefindSeat =>
      && OnConv(db, calls, call) && GotRight(db, call) && AtSeat(db, call)
      && SeatTaken(db, call.conv, Wanted(db, call).who)
    case Finished =>
      OnConv(db, calls, call) && GotRight(db, call) && |call.got| == |Needs(call.kind, db.convs[call.conv])|
    case Missed => false
    case Refused | Failed => true
  }

  ghost predicate Sound(s: System) {
    && ConvsUnique(s.db) && SeatsUnique(s.db) && SeatsRight(s) && MessagesRight(s.db)
    && forall i :: 0 <= i < |s.calls| ==> CallRight(s.db, s.calls, s.calls[i])
  }

  /** Rows and calls are only added. */
  ghost predicate Grows(a: System, b: System) {
    && (forall id :: id in a.db.convs ==> id in b.db.convs && b.db.convs[id] == a.db.convs[id])
    && (forall id :: id in a.db.seats ==> id in b.db.seats && b.db.seats[id] == a.db.seats[id])
    && |a.calls| <= |b.calls|
    && (forall i :: 0 <= i < |a.calls| ==> b.calls[i].kind == a.calls[i].kind)
  }

  lemma EntitledGrows(a: System, b: System, key: Key, conv: Id, who: Option<Owner>)
    requires Grows(a, b) && Entitled(a.calls, key, conv, who)
    ensures Entitled(b.calls, key, conv, who)
  {}

  lemma CallGrows(a: System, b: System, call: Call)
    requires Grows(a, b) && CallRight(a.db, a.calls, call)
    ensures CallRight(b.db, b.calls, call)
  {}

  lemma StepGrows(s: System, step: Step)
    requires Enabled(s, step)
    ensures Grows(s, Next(s, step))
  {}

  /** The identity a call inserts or finds carries the role it wants. */
  lemma FoundSeatIsWanted(s: System, call: Call, id: Id)
    requires SeatsRight(s) && OnConv(s.db, s.calls, call) && AtSeat(s.db, call)
    requires id in s.db.seats && Fits(s.db.seats[id], call.conv, Wanted(s.db, call), call.kind.EnsureBot?)
    ensures var need := Wanted(s.db, call); s.db.seats[id] == Seat(call.conv, need.role, need.who)
  {}

  /** The re-read finds the row that the insert collided with. */
  lemma TakenSeatFits(s: System, call: Call)
    requires SeatsRight(s) && OnConv(s.db, s.calls, call) && AtSeat(s.db, call)
    requires SeatTaken(s.db, call.conv, Wanted(s.db, call).who)
    ensures SeatExists(s.db, call.conv, Wanted(s.db, call), call.kind.EnsureBot?)
  {}

  lemma WantedIsRight(s: System, call: Call)
    requires OnConv(s.db, s.calls, call) && AtSeat(s.db, call)
    ensures var need := Wanted(s.db, call); var key := s.db.convs[call.conv];
            RightRole(key, need.role, need.who) && Entitled(s.calls, key, call.conv, need.who)
  {}

  lemma AdvanceKeepsTables(s: System, i: nat, a: Answer)
    requires Sound(s) && Enabled(s, Advance(i, a))
    ensures var t := Next(s, Advance(i, a));
            ConvsUnique(t.db) && SeatsUnique(t.db) && SeatsRight(t) && MessagesRight(t.db)
  {
    var call, t := s.calls[i], Next(s, Advance(i, a));
    StepGrows(s, Advance(i, a));
    assert CallRight(s.db, s.calls, call);
    forall id | id in t.db.seats
      ensures t.db.seats[id].conv in t.db.convs
      ensures var seat := t.db.seats[id]; var key := t.db.convs[seat.conv];
              RightRole(key, seat.role, seat.who) && Entitled(t.calls, key, seat.conv, seat.who)
    {
      if id in s.db.seats {
        var seat := s.db.seats[id];
        EntitledGrows(s, t, s.db.convs[seat.conv], seat.conv, seat.who);
      } else {
        WantedIsRight(s, call);
        EntitledGrows(s, t, s.db.convs[call.conv], call.conv, Wanted(s.db, call).who);
      }
    }
  }

  lemma ConvStageKeepsCall(s: System, i: nat, a: Answer)
    requires Sound(s) && Enabled(s, Advance(i, a)) && s.calls[i].stage in {FindConv, InsertConv, RefindConv}
    ensures var t := Next(s, Advance(i, a)); CallRight(t.db, t.calls, t.calls[i])
  {}

  lemma LoadStageKeepsCall(s: System, i: nat, a: Answer)
    requires Sound(s) && Enabled(s, Advance(i, a)) && s.calls[i].stage in {LoadConv, CheckSeat}
    ensures var t := Next(s, Advance(i, a)); CallRight(t.db, t.calls, t.calls[i])
  {
    var call := s.calls[i];
    assert CallRight(s.db, s.calls, call);
    var moved := Moved(s.db, call, a);
    if moved.stage == FindSeat {
      var key, who := s.db.convs[call.conv], Some(User(call.kind.viewer));
      assert Entitled(s.calls, key, call.conv, who) by {
        if call.stage == LoadConv {
          assert s.calls[i].kind == Resolve(call.conv, call.kind.viewer, key.shop);
        }
      }
    }
    StepGrows(s, Advance(i, a));
    CallGrows(s, Next(s, Advance(i, a)), moved);
  }

  /** A seat of the wanted role and identity completes the next need. */
  lemma SeatCompletesNeed(s: System, call: Call, id: Id)
    requires OnConv(s.db, s.calls, call) && GotRight(s.db, call) && AtSeat(s.db, call)
    requires id in s.db.seats
    requires var need := Wanted(s.db, call); s.db.seats[id] == Seat(call.conv, need.role, need.who)
    ensures CallRight(s.db, s.calls, WithSeat(s.db, call, id))
  {}

  lemma SeatStageKeepsCall(s: System, i: nat, a: Answer)
    requires Sound(s) && Enabled(s, Advance(i, a)) && s.calls[i].stage in {FindSeat, InsertSeat, RefindSeat}
    ensures var t := Next(s, Advance(i, a)); CallRight(t.db, t.calls, t.calls[i])
  {
    var call, t := s.calls[i], Next(s, Advance(i, a));
    assert CallRight(s.db, s.calls, call);
    StepGrows(s, Advance(i, a));
    CallGrows(s, t, call);
    hide Entitled, SeatsUnique, ConvsUnique, MessagesRight;
    if a.Row? {
      if call.stage != InsertSeat {
        FoundSeatIsWanted(s, call, a.id);
      }
      SeatCompletesNeed(t, call, a.id);
    } else if a.NoRow? && call.stage == RefindSeat {
      TakenSeatFits(s, call);
    }
  }

  lemma StepKeepsSound(s: System, step: Step)
    requires Sound(s) && Enabled(s, step)
    ensures Sound(Next(s, step))
  {
    var t := Next(s, step);
    StepGrows(s, step);
    forall i | 0 <= i < |t.calls|
      ensures CallRight(t.db, t.calls, t.calls[i])
    {
      if step.Advance? && step.i == i {
        if s.calls[i].stage in {FindConv, InsertConv, RefindConv} {
          ConvStageKeepsCall(s, i, step.answer);
        } else if s.calls[i].stage in {LoadConv, CheckSeat} {
          LoadStageKeepsCall(s, i, step.answer);
        } else {
          SeatStageKeepsCall(s, i, step.answer);
        }
      } else if i < |s.calls| {
        assert t.calls[i] == s.calls[i];
        CallGrows(s, t, s.calls[i]);
      }
    }
    TablesKept(s, step);
  }

  lemma SameSeatsStayRight(s: System, t: System)
    requires Grows(s, t) && SeatsRight(s) && t.db.seats == s.db.seats
    ensures SeatsRight(t)
  {}

  lemma TablesKept(s: System, step: Step)
    requires Sound(s) && Enabled(s, step)
    ensures var t := Next(s, step);
            ConvsUnique(t.db) && SeatsUnique(t.db) && SeatsRight(t) && MessagesRight(t.db)
  {
    var t := Next(s, step);
    StepGrows(s, step);
    match step
    case Advance(i, a) => AdvanceKeepsTables(s, i, a);
    case Begin(_) => SameSeatsStayRight(s, t);
    case Append(i, _, _) =>
      SameSeatsStayRight(s, t);
      assert CallRight(s.db, s.calls, s.calls[i]);
  }

  lemma {:induction false} RunKeepsSound(s: System, steps: seq<Step>)
    requires Sound(s) && Legal(s, steps)
    ensures Sound(Execute(s, steps))
    decreases |steps|
  {
    if steps != [] {
      StepKeepsSound(s, steps[0]);
      RunKeepsSound(Next(s, steps[0]), steps[1..]);
    }
  }

  /** What the requests of a run asked for, in the order they came. */
  function Asked(steps: seq<Step>): seq<Kind> {
    if steps == [] then [] else (if steps[0].Begin? then [steps[0].kind] else []) + Asked(steps[1..])
  }

  function Kinds(calls: seq<Call>): seq<Kind> {
    seq(|calls|, i requires 0 <= i < |calls| => calls[i].kind)
  }

  lemma {:induction false} CallsAreAsked(s: System, steps: seq<Step>)
    requires Legal(s, steps)
    ensures Kinds(Execute(s, steps).calls) == Kinds(s.calls) + Asked(steps)
    decreases |steps|
  {
    if steps != [] {
      CallsAreAsked(Next(s, steps[0]), steps[1..]);
      assert Kinds(Next(s, steps[0]).calls) == Kinds(s.calls) + if steps[0].Begin? then [steps[0].kind] else [];
    }
  }

  ghost predicate IsSeat(db: Tables, id: Id, seat: Seat) {
    id in db.seats && db.seats[id] == seat
  }

  /** The call's conversation and seats, in terms of what it was asked. */
  ghost predicate HoldsAsked(s: System, call: Call) {
    && call.conv in s.db.convs
    && match call.kind
       case EnsureBot(owner) =>
         && s.db.convs[call.conv] == BotOf(owner) && |call.got| == 2
         && IsSeat(s.db, call.got[0], Seat(call.conv, Human, Some(owner)))
         && IsSeat(s.db, call.got[1], Seat(call.conv, Bot, None))
       case EnsureDirect(buyer, shop) =>
         && s.db.convs[call.conv] == DirectOf(buyer, shop) && |call.got| == 1
         && IsSeat(s.db, call.got[0], Seat(call.conv, Human, Some(User(buyer))))
       case Resolve(conv, viewer, viewerShop) =>
         && call.conv == conv && s.db.convs[conv].DirectOf? && |call.got| == 1
         && IsSeat(s.db, call.got[0],
                   Seat(conv, if s.db.convs[conv].buyer == viewer then Human else Seller, Some(User(viewer))))
  }

  /** Who is let in: whoever presents the shop of the direct conversation, and otherwise whoever sits in it;
      a missing conversation, a bot's and a foreign one are refused. */
  lemma LetsIn(db: Tables, call: Call, a: Answer)
    requires Running(call) && CanAnswer(db, call, a) && !a.Error? && call.stage in {LoadConv, CheckSeat}
    ensures var stage := Moved(db, call, a).stage;
            var direct := call.conv in db.convs && db.convs[call.conv].DirectOf?;
            var seated := exists id :: id in db.seats && db.seats[id].conv == call.conv
                                       && db.seats[id].who == Some(User(call.kind.viewer));
            if call.stage == LoadConv then
              && (stage == Refused <==> !direct)
              && (stage == FindSeat <==> direct && call.kind.viewerShop != "" && db.convs[call.conv].shop == call.kind.viewerShop)
              && (stage == CheckSeat <==> !(stage in {Refused, FindSeat}))
            else stage == if seated then FindSeat else Refused
  {}

  /** MAIN RESULT.  However the statements of concurrent calls interleave, and whichever of them fail
      before or after taking effect: each owner has at most one bot conversation, each buyer and shop at
      most one direct one, and each identity at most one seat in a conversation; no call's re-read ever
      misses; a finished call holds the conversation it asked for and the seats in it of those it names;
      and two finished calls for the same owner, or the same buyer and shop, hold the same conversation
      and the same seats. */
  lemma EnsureIsRaceFree(steps: seq<Step>)
    requires Legal(EMPTY, steps)
    ensures var s := Execute(EMPTY, steps);
            && ConvsUnique(s.db) && SeatsUnique(s.db)
            && Kinds(s.calls) == Asked(steps)
            && (forall i :: 0 <= i < |s.calls| ==> s.calls[i].stage != Missed)
            && (forall i :: 0 <= i < |s.calls| && s.calls[i].stage == Finished ==> HoldsAsked(s, s.calls[i]))
            && (forall i, j | 0 <= i < |s.calls| && 0 <= j < |s.calls| ::
                  s.calls[i].stage == Finished && s.calls[j].stage == Finished && s.calls[i].kind == s.calls[j].kind
                  ==> s.calls[i].conv == s.calls[j].conv && s.calls[i].got == s.calls[j].got)
  {
    RunKeepsSound(EMPTY, steps);
    CallsAreAsked(EMPTY, steps);
    var s := Execute(EMPTY, steps);
    forall i | 0 <= i < |s.calls|
      ensures s.calls[i].stage != Missed
    {
      assert CallRight(s.db, s.calls, s.calls[i]);
    }
    forall i | 0 <= i < |s.calls| && s.calls[i].stage == Finished
      ensures HoldsAsked(s, s.calls[i])
    {
      FinishedHolds(s, s.calls[i]);
    }
    forall i, j | 0 <= i < |s.calls| && 0 <= j < |s.calls| && s.calls[i].stage == Finished
                  && s.calls[j].stage == Finished && s.calls[i].kind == s.calls[j].kind
      ensures s.calls[i].conv == s.calls[j].conv && s.calls[i].got == s.calls[j].got
    {
      FinishedAgree(s, s.calls[i], s.calls[j]);
    }
  }

  lemma FinishedHolds(s: System, call: Call)
    requires CallRight(s.db, s.calls, call) && call.stage == Finished
    ensures HoldsAsked(s, call)
  {}

  lemma FinishedAgree(s: System, a: Call, b: Call)
    requires ConvsUnique(s.db) && SeatsUnique(s.db) && CallRight(s.db, s.calls, a) && CallRight(s.db, s.calls, b)
    requires a.stage == Finished && b.stage == Finished && a.kind == b.kind
    ensures a.conv == b.conv && a.got == b.got
  {}

  /** MAIN RESULT.  Every stored message is signed by a seat of its own conversation.  In a bot
      conversation sit the owner and the bot; in a direct one a seat has the buyer's role iff its user
      is the buyer, and any other seat belongs to someone who presented the conversation's shop. */
  lemma SeatsAndMessagesFit(steps: seq<Step>, id: Id)
    requires Legal(EMPTY, steps)
    ensures var s := Execute(EMPTY, steps);
            && (id in s.db.messages ==>
                  var m := s.db.messages[id];
                  m.sender in s.db.seats && s.db.seats[m.sender].conv == m.conv && m.conv in s.db.convs)
            && (id in s.db.seats ==>
                  var seat := s.db.seats[id];
                  && seat.conv in s.db.convs
                  && (match s.db.convs[seat.conv]
                      case BotOf(owner) => seat.who == (if seat.role == Bot then None else Some(owner))
                                           && seat.role != Seller
                      case DirectOf(buyer, shop) =>
                        && seat.role in {Human, Seller}
                        && (seat.role == Human <==> seat.who == Some(User(buyer)))
                        && (seat.role == Seller ==>
                              exists i :: 0 <= i < |s.calls| && s.calls[i].kind.Resolve?
                                          && Some(User(s.calls[i].kind.viewer)) == seat.who
                                          && s.calls[i].kind.conv == seat.conv
                                          && s.calls[i].kind.viewerShop == shop != "")))
  {
    RunKeepsSound(EMPTY, steps);
  }
}
