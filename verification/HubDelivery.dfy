/** Fanning messages out while connections join and leave and other fanouts run: each broadcast takes a
    snapshot of its room under the lock and sends to those connections after dropping it. */
module HubDelivery {
  import opened HubRooms

  type ConnId = nat

  /** Where a fanout stands: before its first snapshot, sending to the first room, to the second, or over
      with the sender's own copy sent. */
  datatype Stage = Begun | FirstRoom | SecondRoom | Over

  /** `given` counts the copies without a clientMsgId sent to each connection, `echoes` those with it sent
      to the sender.  `start`, `first` and `second` are how many joins and leaves had happened when the
      fanout began and at its snapshots. */
  datatype Fanout = Fanout(sender: ConnId, buyerKey: string, shopKey: string, stage: Stage, waiting: set<ConnId>,
                           given: multiset<ConnId>, echoes: nat, start: nat, first: nat, second: nat)

  datatype System = System(ops: seq<Op<ConnId>>, fanouts: seq<Fanout>)

  const OPENING := System([], [])

  datatype Step =
    | Move(op: Op<ConnId>)
    | Begin(sender: ConnId, buyerKey: string, shopKey: string)
    | Snapshot(f: nat)
    | Give(f: nat, c: ConnId)
    | Echo(f: nat)

  predicate Enabled(s: System, step: Step) {
    match step
    case Move(_) => true
    case Begin(_, _, _) => true
    case Snapshot(f) => f < |s.fanouts| && s.fanouts[f].stage in {Begun, FirstRoom} && s.fanouts[f].waiting == {}
    case Give(f, c) => f < |s.fanouts| && c in s.fanouts[f].waiting
    case Echo(f) => f < |s.fanouts| && s.fanouts[f].stage == SecondRoom && s.fanouts[f].waiting == {}
  }

  function AfterSnapshot(ops: seq<Op<ConnId>>, f: Fanout): Fanout {
    var rooms := Run(ops).rooms;
    if f.stage == Begun then f.(stage := FirstRoom, waiting := Room(rooms, f.buyerKey) - {f.sender}, first := |ops|)
    else f.(stage := SecondRoom, waiting := Room(rooms, f.shopKey) - {f.sender}, second := |ops|)
  }

  function Next(s: System, step: Step): System
    requires Enabled(s, step)
  {
    match step
    case Move(op) => s.(ops := s.ops + [op])
    case Begin(sender, b, k) =>
      var n := |s.ops|;
      s.(fanouts := s.fanouts + [Fanout(sender, b, k, Begun, {}, multiset{}, 0, n, n, n)])
    case Snapshot(f) => s.(fanouts := s.fanouts[f := AfterSnapshot(s.ops, s.fanouts[f])])
    case Give(f, c) =>
      var x := s.fanouts[f];
      s.(fanouts := s.fanouts[f := x.(waiting := x.waiting - {c}, given := x.given + multiset{c})])
    case Echo(f) => s.(fanouts := s.fanouts[f := s.fanouts[f].(stage := Over, echoes := s.fanouts[f].echoes + 1)])
  }

  ghost predicate Legal(s: System, steps: seq<Step>)
    decreases |steps|
  {
    steps == [] || (Enabled(s, steps[0]) && Legal(Next(s, steps[0]), steps[1..]))
  }

  function Execute(s: System, steps: seq<Step>): System
    requires Legal(s, steps)
    decreases |steps|
  {
    if steps == [] then s else Execute(Next(s, steps[0]), steps[1..])
  }

  /** The copies owed to a connection by a room as it stood after `n` joins and leaves. */
  ghost function Owed(ops: seq<Op<ConnId>>, n: nat, sender: ConnId, key: string, c: ConnId): nat
    requires n <= |ops|
  {
    if c != sender && Member(ops[..n], c, key) then 1 else 0
  }

  /** Copies sent and still to send are those owed by the snapshots taken so far. */
  ghost predicate Accounted(ops: seq<Op<ConnId>>, f: Fanout, c: ConnId) {
    && f.start <= f.first <= |ops| && f.start <= f.second <= |ops|
    && (f.stage in {SecondRoom, Over} ==> f.first <= f.second)
    && f.given[c] + (if c in f.waiting then 1 else 0)
       == (if f.stage == Begun then 0 else Owed(ops, f.first, f.sender, f.buyerKey, c))
          + (if f.stage in {SecondRoom, Over} then Owed(ops, f.second, f.sender, f.shopKey, c) else 0)
    && (f.stage in {Begun, Over} ==> f.waiting == {})
    && f.echoes == if f.stage == Over then 1 else 0
  }

  ghost predicate Sound(s: System) {
    forall f, c: ConnId :: 0 <= f < |s.fanouts| ==> Accounted(s.ops, s.fanouts[f], c)
  }

  lemma MoreMoves(ops: seq<Op<ConnId>>, op: Op<ConnId>, f: Fanout, c: ConnId)
    requires Accounted(ops, f, c)
    ensures Accounted(ops + [op], f, c)
  {
    hide Member;
    assert (ops + [op])[..f.first] == ops[..f.first] && (ops + [op])[..f.second] == ops[..f.second];
  }

  lemma SnapshotAccounts(ops: seq<Op<ConnId>>, f: Fanout, c: ConnId)
    requires Accounted(ops, f, c) && f.stage in {Begun, FirstRoom} && f.waiting == {}
    ensures Accounted(ops, AfterSnapshot(ops, f), c)
  {
    hide Member, Run, Room;
    assert ops[..|ops|] == ops;
    RoomsExact(ops, c, if f.stage == Begun then f.buyerKey else f.shopKey);
  }

  lemma StepKeepsSound(s: System, step: Step)
    requires Sound(s) && Enabled(s, step)
    ensures Sound(Next(s, step))
  {
    hide Member, Run, AfterSnapshot, Owed;
    var t := Next(s, step);
    forall f, c: ConnId | 0 <= f < |t.fanouts| ensures Accounted(t.ops, t.fanouts[f], c) {
      match step
      case Move(op) => MoreMoves(s.ops, op, s.fanouts[f], c);
      case Snapshot(g) =>
        assert Accounted(s.ops, s.fanouts[f], c);
        SnapshotAccounts(s.ops, s.fanouts[g], c);
      case Begin(_, _, _) =>
        assert f < |s.fanouts| ==> Accounted(s.ops, s.fanouts[f], c);
      case _ =>
        assert Accounted(s.ops, s.fanouts[f], c);
    }
  }

  lemma {:induction false} RunKeepsSound(s: System, steps: seq<Step>)
    requires Sound(s) && Legal(s, steps)
    ensures Sound(Execute(s, steps))
    decreases |steps|
  {
    hide Sound;
    if steps != [] {
      StepKeepsSound(s, steps[0]);
      RunKeepsSound(Next(s, steps[0]), steps[1..]);
    }
  }

  /** c is a member of the room at every moment from `n` joins and leaves on, or at none. */
  ghost predicate Throughout(ops: seq<Op<ConnId>>, n: nat, c: ConnId, key: string) {
    forall k: nat :: n <= k <= |ops| ==> Member(ops[..k], c, key)
  }

  ghost predicate Never(ops: seq<Op<ConnId>>, n: nat, c: ConnId, key: string) {
    forall k: nat :: n <= k <= |ops| ==> !Member(ops[..k], c, key)
  }

  /** MAIN RESULT.  However joins, leaves and other fanouts interleave: a finished fanout has sent its
      sender exactly one copy, the one with the clientMsgId, and every other connection one copy for
      each of the two rooms it was in at that room's snapshot.  So whoever stays in a room from the
      start of the fanout gets that room's copy, and whoever stays out gets none. */
  lemma FanoutIsExact(steps: seq<Step>, f: nat, c: ConnId)
    requires Legal(OPENING, steps)
    requires var s := Execute(OPENING, steps); f < |s.fanouts| && s.fanouts[f].stage == Over
    ensures var s := Execute(OPENING, steps);
            var x := s.fanouts[f];
            && x.echoes == 1 && x.given[x.sender] == 0
            && x.start <= x.first <= x.second <= |s.ops|
            && (c != x.sender ==>
                  && x.given[c] == (if Member(s.ops[..x.first], c, x.buyerKey) then 1 else 0)
                                   + (if Member(s.ops[..x.second], c, x.shopKey) then 1 else 0)
                  && (Throughout(s.ops, x.start, c, x.buyerKey) && Never(s.ops, x.start, c, x.shopKey) ==> x.given[c] == 1)
                  && (Throughout(s.ops, x.start, c, x.buyerKey) && Throughout(s.ops, x.start, c, x.shopKey) ==> x.given[c] == 2)
                  && (Never(s.ops, x.start, c, x.buyerKey) && Never(s.ops, x.start, c, x.shopKey) ==> x.given[c] == 0))
  {
    hide Member;
    assert Sound(OPENING);
    RunKeepsSound(OPENING, steps);
    var s := Execute(OPENING, steps);
    var x := s.fanouts[f];
    assert Accounted(s.ops, x, c) && Accounted(s.ops, x, x.sender);
  }

  /** MAIN RESULT.  In terms of people: a finished fanout of a conversation has sent each connection but
      the sender's one copy if it is the buyer's and was online at the first snapshot, one if it is
      the shop's and was online at the second, and nothing else. */
  lemma PersonGetsCopies(steps: seq<Step>, f: nat, c: ConnId, buyer: string, shop: string, userId: string, shopId: string)
    requires Legal(OPENING, steps)
    requires var s := Execute(OPENING, steps);
             && f < |s.fanouts| && s.fanouts[f].stage == Over && c != s.fanouts[f].sender
             && s.fanouts[f].buyerKey == UserKey(buyer) && s.fanouts[f].shopKey == ShopKey(shop)
             && IsPerson(s.ops, c, userId, shopId)
    ensures var s := Execute(OPENING, steps);
            var x := s.fanouts[f];
            && x.first <= x.second <= |s.ops|
            && x.given[c] == (if userId == buyer && Online(s.ops[..x.first], c) then 1 else 0)
                             + (if shopId == shop != "" && Online(s.ops[..x.second], c) then 1 else 0)
  {
    FanoutIsExact(steps, f, c);
    var s := Execute(OPENING, steps);
    var x := s.fanouts[f];
    hide Legal, Execute, Member, Online, UserKey, ShopKey;
    PersonsRooms(s.ops[..x.first], c, userId, shopId, buyer, shop);
    PersonsRooms(s.ops[..x.second], c, userId, shopId, buyer, shop);
  }
}
