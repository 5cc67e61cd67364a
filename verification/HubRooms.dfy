/** Which connection is in which broadcast room. */
module HubRooms {
  function UserKey(userId: string): string { "user:" + userId }

  function ShopKey(shopId: string): string { "shop:" + shopId }

  lemma UserRoomIsNoShopRoom(userId: string, shopId: string)
    ensures UserKey(userId) != ShopKey(shopId)
  {
    assert UserKey(userId)[0] == 'u' && ShopKey(shopId)[0] == 's';
  }

  /** Keys that name a room.  A person without a shop asks for ShopKey(""), which names none. */
  predicate Real(key: string) { key != "" && key != ShopKey("") }

  type Rooms<C(==)> = map<string, set<C>>
  type Keys<C(==)> = map<C, seq<string>>
  datatype State<C(==)> = State(rooms: Rooms<C>, keys: Keys<C>)

  function Room<C(==)>(rooms: Rooms<C>, key: string): set<C> {
    if key in rooms then rooms[key] else {}
  }

  function KeysOf<C(==)>(keys: Keys<C>, c: C): seq<string> {
    if c in keys then keys[c] else []
  }

  function JoinOne<C(==)>(s: State<C>, c: C, key: string): State<C> {
    if !Real(key) then s
    else State(s.rooms[key := Room(s.rooms, key) + {c}], s.keys[c := KeysOf(s.keys, c) + [key]])
  }

  function Join<C(==)>(s: State<C>, c: C, keys: seq<string>): State<C> {
    if keys == [] then s
    else JoinOne(Join(s, c, keys[..|keys| - 1]), c, keys[|keys| - 1])
  }

  function LeaveOne<C(==)>(rooms: Rooms<C>, c: C, key: string): Rooms<C> {
    if key !in rooms then rooms
    else if rooms[key] - {c} == {} then rooms - {key}
    else rooms[key := rooms[key] - {c}]
  }

  function LeaveEach<C(==)>(rooms: Rooms<C>, c: C, keys: seq<string>): Rooms<C> {
    if keys == [] then rooms
    else LeaveOne(LeaveEach(rooms, c, keys[..|keys| - 1]), c, keys[|keys| - 1])
  }

  function Leave<C(==)>(s: State<C>, c: C): State<C> {
    State(LeaveEach(s.rooms, c, KeysOf(s.keys, c)), s.keys - {c})
  }

  /** The two maps describe one relation, a connection is in a room iff it remembers the room's key;
      no room is empty or nameless, and no connection remembers nothing. */
  ghost predicate Consistent<C>(s: State<C>) {
    && (forall key, c :: key in s.rooms && c in s.rooms[key] ==> c in s.keys && key in s.keys[c])
    && (forall c, key :: c in s.keys && key in s.keys[c] ==> key in s.rooms && c in s.rooms[key])
    && (forall key :: key in s.rooms ==> s.rooms[key] != {} && Real(key))
    && (forall c :: c in s.keys ==> s.keys[c] != [])
  }

  lemma JoinOneSpec<C>(s: State<C>, c: C, last: string)
    requires Consistent(s)
    ensures var after := JoinOne(s, c, last);
            && Consistent(after)
            && (forall key :: Room(after.rooms, key)
                              == Room(s.rooms, key) + if Real(last) && key == last then {c} else {})
  {}

  lemma {:induction false} JoinSpec<C>(s: State<C>, c: C, keys: seq<string>)
    requires Consistent(s)
    ensures var after := Join(s, c, keys);
            && Consistent(after)
            && (forall key :: Room(after.rooms, key)
                              == Room(s.rooms, key) + if Real(key) && key in keys then {c} else {})
  {
    hide Consistent, JoinOne, Real, Room;
    if keys != [] {
      var init, last := keys[..|keys| - 1], keys[|keys| - 1];
      assert keys == init + [last];
      assert forall key :: key in keys <==> key in init || key == last;
      JoinSpec(s, c, init);
      JoinOneSpec(Join(s, c, init), c, last);
    }
  }

  lemma {:induction false} LeaveEachSpec<C>(rooms: Rooms<C>, c: C, keys: seq<string>)
    requires forall key :: key in rooms ==> rooms[key] != {}
    ensures var after := LeaveEach(rooms, c, keys);
            && (forall key :: Room(after, key) == Room(rooms, key) - if key in keys then {c} else {})
            && (forall key :: key in after ==> key in rooms && after[key] != {})
  {
    if keys != [] {
      var init, last := keys[..|keys| - 1], keys[|keys| - 1];
      assert keys == init + [last];
      LeaveEachSpec(rooms, c, init);
    }
  }

  lemma LeaveSpec<C>(s: State<C>, c: C)
    requires Consistent(s)
    ensures var after := Leave(s, c);
            && Consistent(after)
            && (forall key :: Room(after.rooms, key) == Room(s.rooms, key) - {c})
            && after.keys == s.keys - {c}
  {
    LeaveEachSpec(s.rooms, c, KeysOf(s.keys, c));
    var after := Leave(s, c);
    forall key
      ensures Room(after.rooms, key) == Room(s.rooms, key) - {c}
    {
      if key !in KeysOf(s.keys, c) {
        assert c !in Room(s.rooms, key);
      }
    }
    forall key | key in after.rooms
      ensures after.rooms[key] == Room(s.rooms, key) - {c} && key in s.rooms
    {
      assert Room(after.rooms, key) == after.rooms[key];
    }
    forall d, key | d in after.keys && key in after.keys[d]
      ensures key in after.rooms && d in after.rooms[key]
    {
      assert d in Room(s.rooms, key) && d in Room(after.rooms, key);
    }
  }

  datatype Op<C(==)> = Joins(conn: C, asked: seq<string>) | Leaves(conn: C)

  function Run<C(==)>(ops: seq<Op<C>>): State<C> {
    if ops == [] then State(map[], map[])
    else
      var s := Run(ops[..|ops| - 1]);
      match ops[|ops| - 1]
      case Joins(c, keys) => Join(s, c, keys)
      case Leaves(c) => Leave(s, c)
  }

  /** The reference: c asked for the key, which names a room, and has not left since. */
  ghost predicate Member<C>(ops: seq<Op<C>>, c: C, key: string) {
    && Real(key)
    && exists i :: 0 <= i < |ops| && ops[i].Joins? && ops[i].conn == c && key in ops[i].asked
                   && !LeavesAfter(ops, i, c)
  }

  predicate LeavesAfter<C(==)>(ops: seq<Op<C>>, i: int, c: C) {
    exists j :: i < j < |ops| && 0 <= j && ops[j] == Leaves(c)
  }

  lemma MemberSnoc<C>(ops: seq<Op<C>>, op: Op<C>, c: C, key: string)
    ensures Member(ops + [op], c, key)
            <==> if op == Leaves(c) then false
                 else Member(ops, c, key) || (op.Joins? && op.conn == c && key in op.asked && Real(key))
  {
    var all := ops + [op];
    assert all[|ops|] == op;
    forall i | 0 <= i < |ops|
      ensures LeavesAfter(all, i, c) <==> LeavesAfter(ops, i, c) || op == Leaves(c)
    {
      if LeavesAfter(ops, i, c) {
        var j :| i < j < |ops| && ops[j] == Leaves(c);
        assert all[j] == Leaves(c);
      }
      if LeavesAfter(all, i, c) {
        var j :| i < j < |all| && all[j] == Leaves(c);
        assert j < |ops| ==> ops[j] == Leaves(c);
      }
    }
    assert !LeavesAfter(all, |ops|, c);
    if Member(ops, c, key) && op != Leaves(c) {
      var i :| 0 <= i < |ops| && ops[i].Joins? && ops[i].conn == c && key in ops[i].asked && !LeavesAfter(ops, i, c);
      assert all[i] == ops[i];
    }
    if Member(all, c, key) {
      var i :| 0 <= i < |all| && all[i].Joins? && all[i].conn == c && key in all[i].asked && !LeavesAfter(all, i, c);
      assert i < |ops| ==> all[i] == ops[i];
    }
  }

  /** MAIN RESULT.  After any joins and leaves, with keys repeated or absent, a connection is in
      exactly the rooms it asked for since it last left; it is counted iff it is in some room; no room
      is empty and the room of the empty shop does not exist. */
  lemma {:induction false} MembershipIsExact<C>(ops: seq<Op<C>>, c: C, key: string)
    ensures var s := Run(ops);
            && Consistent(s)
            && (c in Room(s.rooms, key) <==> Member(ops, c, key))
            && (c in s.keys <==> exists k :: Member(ops, c, k))
            && ShopKey("") !in s.rooms && "" !in s.rooms
  {
    RunConsistent(ops);
    var s := Run(ops);
    forall k
      ensures c in Room(s.rooms, k) <==> Member(ops, c, k)
    {
      RoomsExact(ops, c, k);
    }
    if c in s.keys {
      var k := s.keys[c][0];
      assert k in s.keys[c];
      assert c in Room(s.rooms, k);
    }
  }

  lemma {:induction false} RunConsistent<C>(ops: seq<Op<C>>)
    ensures Consistent(Run(ops))
  {
    if ops != [] {
      var init := ops[..|ops| - 1];
      RunConsistent(init);
      match ops[|ops| - 1]
      case Joins(c, keys) => JoinSpec(Run(init), c, keys);
      case Leaves(c) => LeaveSpec(Run(init), c);
    }
  }

  lemma {:induction false} RoomsExact<C>(ops: seq<Op<C>>, c: C, key: string)
    ensures c in Room(Run(ops).rooms, key) <==> Member(ops, c, key)
  {
    if ops != [] {
      var init, last := ops[..|ops| - 1], ops[|ops| - 1];
      assert ops == init + [last];
      RunConsistent(init);
      RoomsExact(init, c, key);
      MemberSnoc(init, last, c, key);
      match last
      case Joins(d, keys) => JoinSpec(Run(init), d, keys);
      case Leaves(d) => LeaveSpec(Run(init), d);
    }
  }

  /** A connection asks for the room of its user and the room of the shop it owns, if any. */
  ghost predicate IsPerson<C>(ops: seq<Op<C>>, c: C, userId: string, shopId: string) {
    forall i :: 0 <= i < |ops| && ops[i].Joins? && ops[i].conn == c ==> ops[i].asked == [UserKey(userId), ShopKey(shopId)]
  }

  ghost predicate Online<C>(ops: seq<Op<C>>, c: C) {
    exists i :: 0 <= i < |ops| && ops[i].Joins? && ops[i].conn == c && !LeavesAfter(ops, i, c)
  }

  lemma KeysIdentify(a: string, b: string)
    ensures UserKey(a) == UserKey(b) <==> a == b
    ensures ShopKey(a) == ShopKey(b) <==> a == b
  {
    assert UserKey(a)[5..] == a && UserKey(b)[5..] == b;
    assert ShopKey(a)[5..] == a && ShopKey(b)[5..] == b;
  }

  /** A person's connection is in its own two rooms and no other, as long as it stays. */
  lemma PersonsRooms<C>(ops: seq<Op<C>>, c: C, userId: string, shopId: string, user: string, shop: string)
    requires IsPerson(ops, c, userId, shopId)
    ensures Member(ops, c, UserKey(user)) <==> Online(ops, c) && user == userId
    ensures Member(ops, c, ShopKey(shop)) <==> Online(ops, c) && shop == shopId && shop != ""
  {
    UserRoomIsNoShopRoom(user, shopId);
    UserRoomIsNoShopRoom(userId, shop);
    UserRoomIsNoShopRoom(user, "");
    KeysIdentify(user, userId);
    KeysIdentify(shop, shopId);
    KeysIdentify(shop, "");
    assert UserKey(user) != "" && ShopKey(shop) != "";
    hide UserKey, ShopKey, LeavesAfter;
    if Online(ops, c) {
      var i :| 0 <= i < |ops| && ops[i].Joins? && ops[i].conn == c && !LeavesAfter(ops, i, c);
      assert ops[i].asked == [UserKey(userId), ShopKey(shopId)];
      assert UserKey(userId) == ops[i].asked[0] && ShopKey(shopId) == ops[i].asked[1];
    }
  }
}
