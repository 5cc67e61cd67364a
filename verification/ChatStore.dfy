/** One request's way through the conversation tables, statement by statement, while other requests
    may add rows between any two statements. */
module ChatStore {
  import opened Wrappers
  import opened Conversations

  datatype Outcome<+T> = Ok(value: T) | NotFound | Failure | Vanished

  datatype BotIds = BotIds(conv: Id, human: Id, bot: Id)

  datatype DirectIds = DirectIds(conv: Id, buyerSeat: Id)

  datatype DirectTarget = DirectTarget(conv: Id, buyer: string, shop: string, seat: Id, role: Role)

  ghost predicate TablesRight(db: Tables) {
    && ConvsUnique(db) && SeatsUnique(db)
    && forall id :: id in db.seats ==>
         db.seats[id].conv in db.convs && RightRole(db.convs[db.seats[id].conv], db.seats[id].role, db.seats[id].who)
  }

  /** Rows stay. */
  ghost predicate Extends(a: Tables, b: Tables) {
    && (forall id :: id in a.convs ==> id in b.convs && b.convs[id] == a.convs[id])
    && (forall id :: id in a.seats ==> id in b.seats && b.seats[id] == a.seats[id])
  }

  /** Everyone else, and the network: what the n-th pause does to the tables, and whether the n-th
      statement fails. */
  datatype World = World(others: (nat, Tables) -> Tables, fails: nat -> bool)
  {
    ghost predicate Valid() {
      forall n: nat, db: Tables ::
        TablesRight(db) ==> TablesRight(others(n, db)) && Extends(db, others(n, db))
    }
  }

  ghost function Above(ids: set<Id>): (bound: Id)
    ensures forall id :: id in ids ==> id < bound
  {
    if ids == {} then 0
    else
      var id :| id in ids;
      var rest := Above(ids - {id});
      assert forall other :: other in ids ==> other == id || other in ids - {id};
      if id < rest then rest else id + 1
  }

  lemma SeatAdded(start: Tables, db: Tables, id: Id, seat: Seat)
    requires Extends(start, db)
    requires TablesRight(db) && id !in db.seats && !SeatTaken(db, seat.conv, seat.who)
    requires seat.conv in db.convs && RightRole(db.convs[seat.conv], seat.role, seat.who)
    ensures var after := db.(seats := db.seats[id := seat]); TablesRight(after) && Extends(start, after)
  {}

  class Store {
    const world: World
    var db: Tables
    var statements: nat

    ghost predicate Valid()
      reads this
    {
      world.Valid() && TablesRight(db)
    }

    constructor (world: World)
      requires world.Valid()
      ensures Valid() && this.world == world && db == Tables(map[], map[], map[])
    {
      this.world := world;
      db := Tables(map[], map[], map[]);
      statements := 0;
    }

    /** A statement since the given one has failed. */
    ghost predicate FailedSince(from: nat)
      reads this
    {
      exists n :: from <= n < statements && world.fails(n)
    }

    /** The pause before a statement. */
    method Pause() returns (failed: bool)
      requires Valid()
      modifies this
      ensures Valid() && Extends(old(db), db)
      ensures statements == old(statements) + 1 && failed == world.fails(old(statements))
    {
      failed := world.fails(statements);
      db := world.others(statements, db);
      statements := statements + 1;
    }

    method SelectConv(key: Key) returns (r: Outcome<Id>)
      requires Valid()
      modifies this
      ensures old(statements) <= statements && (r.Failure? ==> FailedSince(old(statements)))
      ensures Valid() && Extends(old(db), db) && !r.Vanished?
      ensures r.Ok? ==> r.value in db.convs && db.convs[r.value] == key
      ensures r.NotFound? ==> !ConvExists(db, key)
    {
      var failed := Pause();
      if failed {
        return Failure;
      }
      var ids := set id | id in db.convs && db.convs[id] == key;
      if ids == {} {
        assert forall id :: id in db.convs && db.convs[id] == key ==> id in ids;
        return NotFound;
      }
      var id :| id in ids;
      return Ok(id);
    }

    /** INSERT ... ON CONFLICT DO NOTHING: no row comes back iff the identity is taken. */
    method InsertConv(key: Key) returns (r: Outcome<Id>)
      requires Valid()
      modifies this
      ensures old(statements) <= statements && (r.Failure? ==> FailedSince(old(statements)))
      ensures Valid() && Extends(old(db), db) && !r.Vanished?
      ensures r.Ok? ==> r.value in db.convs && db.convs[r.value] == key && r.value !in old(db).convs
      ensures r.NotFound? ==> ConvExists(db, key)
    {
      var failed := Pause();
      if exists id :: id in db.convs && db.convs[id] == key {
        return if failed then Failure else NotFound;
      }
      assert Above(db.convs.Keys) !in db.convs;
      var id: Id :| id !in db.convs;
      ghost var before := db;
      db := db.(convs := db.convs[id := key]);
      assert Extends(before, db);
      return if failed then Failure else Ok(id);
    }

    method SelectSeat(conv: Id, need: Need, byRole: bool) returns (r: Outcome<Id>)
      requires Valid()
      modifies this
      ensures old(statements) <= statements && (r.Failure? ==> FailedSince(old(statements)))
      ensures Valid() && Extends(old(db), db) && !r.Vanished?
      ensures r.Ok? ==> r.value in db.seats && Fits(db.seats[r.value], conv, need, byRole)
      ensures r.NotFound? ==> !SeatExists(db, conv, need, byRole)
    {
      var failed := Pause();
      if failed {
        return Failure;
      }
      var ids := set id | id in db.seats && Fits(db.seats[id], conv, need, byRole);
      if ids == {} {
        assert forall id :: id in db.seats && Fits(db.seats[id], conv, need, byRole) ==> id in ids;
        return NotFound;
      }
      var id :| id in ids;
      return Ok(id);
    }

    method InsertSeat(conv: Id, need: Need) returns (r: Outcome<Id>)
      requires Valid() && conv in db.convs && RightRole(db.convs[conv], need.role, need.who)
      modifies this
      ensures old(statements) <= statements && (r.Failure? ==> FailedSince(old(statements)))
      ensures Valid() && Extends(old(db), db) && !r.Vanished?
      ensures r.Ok? ==> r.value in db.seats && db.seats[r.value] == Seat(conv, need.role, need.who)
      ensures r.NotFound? ==> SeatTaken(db, conv, need.who)
    {
      var failed := Pause();
      if exists id :: id in db.seats && db.seats[id].conv == conv && db.seats[id].who == need.who {
        return if failed then Failure else NotFound;
      }
      assert Above(db.seats.Keys) !in db.seats;
      var id: Id :| id !in db.seats;
      SeatAdded(old(db), db, id, Seat(conv, need.role, need.who));
      hide TablesRight, RightRole, Extends;
      db := db.(seats := db.seats[id := Seat(conv, need.role, need.who)]);
      return if failed then Failure else Ok(id);
    }

    // ---------- The calls ----------

    method FindOrCreate(key: Key) returns (r: Outcome<Id>)
      requires Valid()
      modifies this
      ensures old(statements) <= statements && (r.Failure? ==> FailedSince(old(statements)))
      ensures Valid() && Extends(old(db), db)
      ensures r.Ok? || r.Failure?
      ensures r.Ok? ==> r.value in db.convs && db.convs[r.value] == key
    {
      r := SelectConv(key);
      if !r.NotFound? {
        return;
      }
      r := InsertConv(key);
      if !r.NotFound? {
        return;
      }
      r := SelectConv(key);
      if r.NotFound? {
        r := Vanished;
      }
    }

    method EnsureSeat(conv: Id, need: Need, byRole: bool) returns (r: Outcome<Id>)
      requires Valid() && conv in db.convs && RightRole(db.convs[conv], need.role, need.who)
      requires byRole <==> db.convs[conv].BotOf?
      modifies this
      ensures old(statements) <= statements && (r.Failure? ==> FailedSince(old(statements)))
      ensures Valid() && Extends(old(db), db)
      ensures r.Ok? || r.Failure?
      ensures r.Ok? ==> r.value in db.seats && db.seats[r.value] == Seat(conv, need.role, need.who)
    {
      r := SelectSeat(conv, need, byRole);
      if !r.NotFound? {
        return;
      }
      r := InsertSeat(conv, need);
      if !r.NotFound? {
        return;
      }
      r := SelectSeat(conv, need, byRole);
      if r.NotFound? {
        r := Vanished;
      }
    }

    method EnsureBotConversation(owner: Owner) returns (r: Outcome<BotIds>)
      requires Valid()
      modifies this
      ensures old(statements) <= statements && (r.Failure? ==> FailedSince(old(statements)))
      ensures Valid() && Extends(old(db), db)
      ensures r.Ok? || r.Failure?
      ensures r.Ok? ==>
        && r.value.conv in db.convs && db.convs[r.value.conv] == BotOf(owner)
        && r.value.human in db.seats && db.seats[r.value.human] == Seat(r.value.conv, Human, Some(owner))
        && r.value.bot in db.seats && db.seats[r.value.bot] == Seat(r.value.conv, Bot, None)
    {
      var conv := FindOrCreate(BotOf(owner));
      if !conv.Ok? {
        return Failure;
      }
      var human := EnsureSeat(conv.value, Need(Human, Some(owner)), true);
      if !human.Ok? {
        return Failure;
      }
      var bot := EnsureSeat(conv.value, Need(Bot, None), true);
      if !bot.Ok? {
        return Failure;
      }
      return Ok(BotIds(conv.value, human.value, bot.value));
    }

    method EnsureDirectConversation(buyer: string, shop: string) returns (r: Outcome<DirectIds>)
      requires Valid()
      modifies this
      ensures old(statements) <= statements && (r.Failure? ==> FailedSince(old(statements)))
      ensures Valid() && Extends(old(db), db)
      ensures r.Ok? || r.Failure?
      ensures r.Ok? ==>
        && r.value.conv in db.convs && db.convs[r.value.conv] == DirectOf(buyer, shop)
        && r.value.buyerSeat in db.seats && db.seats[r.value.buyerSeat] == Seat(r.value.conv, Human, Some(User(buyer)))
    {
      var conv := FindOrCreate(DirectOf(buyer, shop));
      if !conv.Ok? {
        return Failure;
      }
      var seat := EnsureSeat(conv.value, Need(Human, Some(User(buyer))), false);
      if !seat.Ok? {
        return Failure;
      }
      return Ok(DirectIds(conv.value, seat.value));
    }

    /** Admits the conversation's shop and whoever already sits in it.  Missing, bot and foreign
        conversations get one and the same answer. */
    method AuthorizeDirectRead(conv: Id, viewer: string, viewerShop: string) returns (r: Outcome<Key>)
      requires Valid()
      modifies this
      ensures old(statements) <= statements && (r.Failure? ==> FailedSince(old(statements)))
      ensures Valid() && Extends(old(db), db) && !r.Vanished?
      ensures r.Ok? ==>
        && conv in db.convs && db.convs[conv] == r.value && r.value.DirectOf?
        && ((viewerShop != "" && r.value.shop == viewerShop) || SeatTaken(db, conv, Some(User(viewer))))
      ensures r.NotFound? && conv in old(db).convs && old(db).convs[conv].DirectOf? ==>
        && (viewerShop == "" || old(db).convs[conv].shop != viewerShop)
        && !SeatTaken(old(db), conv, Some(User(viewer)))
    {
      var failed := Pause();
      if failed {
        return Failure;
      }
      if conv !in db.convs || db.convs[conv].BotOf? {
        return NotFound;
      }
      var key := db.convs[conv];
      if viewerShop != "" && key.shop == viewerShop {
        return Ok(key);
      }
      var need := Need(Human, Some(User(viewer)));
      var seat := SelectSeat(conv, need, false);
      if seat.Ok? {
        return Ok(key);
      }
      assert SeatTaken(old(db), conv, need.who) ==> SeatExists(db, conv, need, false) by {
        if SeatTaken(old(db), conv, need.who) {
          var id :| id in old(db).seats && old(db).seats[id].conv == conv && old(db).seats[id].who == need.who;
          assert Fits(db.seats[id], conv, need, false);
        }
      }
      return if seat.NotFound? then NotFound else Failure;
    }

    /** `seen` is the tables as they stood when the viewer was let in, before this call wrote anything. */
    method ResolveDirectParticipant(conv: Id, viewer: string, viewerShop: string)
        returns (r: Outcome<DirectTarget>, ghost seen: Tables)
      requires Valid()
      modifies this
      ensures old(statements) <= statements && (r.Failure? ==> FailedSince(old(statements)))
      ensures Extends(old(db), seen) && Extends(seen, db)
      ensures r.Ok? ==> (viewerShop != "" && viewerShop == r.value.shop) || SeatTaken(seen, conv, Some(User(viewer)))
      ensures r.NotFound? && conv in old(db).convs && old(db).convs[conv].DirectOf? ==>
        && (viewerShop == "" || old(db).convs[conv].shop != viewerShop)
        && !SeatTaken(old(db), conv, Some(User(viewer)))
      ensures Valid() && Extends(old(db), db) && !r.Vanished?
      ensures r.Ok? ==>
        && r.value.conv == conv && conv in db.convs && db.convs[conv] == DirectOf(r.value.buyer, r.value.shop)
        && r.value.seat in db.seats && db.seats[r.value.seat] == Seat(conv, r.value.role, Some(User(viewer)))
        && (r.value.role == Human <==> viewer == r.value.buyer)
    {
      var key := AuthorizeDirectRead(conv, viewer, viewerShop);
      seen := db;
      if !key.Ok? {
        return if key.NotFound? then NotFound else Failure, seen;
      }
      var role := if key.value.buyer == viewer then Human else Seller;
      var seat := EnsureSeat(conv, Need(role, Some(User(viewer))), false);
      if !seat.Ok? {
        return Failure, seen;
      }
      return Ok(DirectTarget(conv, key.value.buyer, key.value.shop, seat.value, role)), seen;
    }
  }
}
