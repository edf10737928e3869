/**
 * The private rooms of GameManager: `{ id, users, game? }` records kept in a
 * list, looked up by exact id, holding at most two users, and filtered on
 * disconnect. A room is only ever reached through the list, so it is a value
 * here and an update to it is a new list.
 */
module Rooms {
  import opened Wrappers
  import opened Messages
  import opened Seqs
  import opened Games

  datatype Room = Room(id: string, users: seq<Socket>, game: Option<Game>)

  /** The ids in use. */
  function Ids(rooms: seq<Room>): set<string>
  {
    set k | 0 <= k < |rooms| :: rooms[k].id
  }

  /** The games attached to rooms. */
  function RoomGames(rooms: seq<Room>): set<Game>
  {
    set k | 0 <= k < |rooms| && rooms[k].game.Some? :: rooms[k].game.value
  }

  predicate DistinctIds(rooms: seq<Room>)
  {
    forall i, j :: 0 <= i < j < |rooms| ==> rooms[i].id != rooms[j].id
  }

  /** A live room: a truthy id, one or two users, and a game once it has held two. */
  predicate RoomOk(room: Room)
  {
    room.id != "" && 1 <= |room.users| <= 2 && (|room.users| == 2 ==> room.game.Some?)
  }

  /** What GameManager keeps true of its room list between messages. */
  predicate WellFormed(rooms: seq<Room>)
  {
    DistinctIds(rooms) && forall k :: 0 <= k < |rooms| ==> RoomOk(rooms[k])
  }

  /** `rooms.find(room => room.id === id)`, as an index. */
  function IndexOfId(rooms: seq<Room>, id: string): (r: Option<nat>)
    ensures r.None? <==> id !in Ids(rooms)
    ensures r.Some? ==> r.value < |rooms| && rooms[r.value].id == id
    ensures r.Some? && DistinctIds(rooms) ==> forall k :: 0 <= k < |rooms| && rooms[k].id == id ==> k == r.value
  {
    var r := FindFirst(rooms, (room: Room) => room.id == id);
    assert r.None? ==> id !in Ids(rooms);
    r
  }

  /** The room `rooms.find` returns for `id`. */
  function RoomNamed(rooms: seq<Room>, id: string): Option<Room>
  {
    match IndexOfId(rooms, id)
    case None => None
    case Some(i) => Some(rooms[i])
  }

  /** `rooms.find(room => room.users.includes(s))`, as an index. */
  function IndexOfMember(rooms: seq<Room>, s: Socket): (r: Option<nat>)
    ensures r.Some? ==> r.value < |rooms| && s in rooms[r.value].users
    ensures r.Some? ==> forall k :: 0 <= k < r.value ==> s !in rooms[k].users
    ensures r.None? <==> forall k :: 0 <= k < |rooms| ==> s !in rooms[k].users
  {
    FindFirst(rooms, (room: Room) => s in room.users)
  }

  /** What the filter callback of `removeUser(s)` does to one room: `None` if it is deleted. */
  function Prune(room: Room, s: Socket): Option<Room>
  {
    var left := Without(room.users, s);
    if left == [] then None else Some(room.(users := left))
  }

  lemma IdsCons(room: Room, rooms: seq<Room>)
    ensures Ids([room] + rooms) == {room.id} + Ids(rooms)
  {
    var all := [room] + rooms;
    forall id | id in Ids(all) ensures id in {room.id} + Ids(rooms) {
      var k :| 0 <= k < |all| && all[k].id == id;
      if k > 0 { assert rooms[k - 1].id == id; }
    }
    forall id | id in Ids(rooms) ensures id in Ids(all) {
      var k :| 0 <= k < |rooms| && rooms[k].id == id;
      assert all[k + 1].id == id;
    }
    assert all[0].id == room.id;
  }

  lemma RoomGamesCons(room: Room, rooms: seq<Room>)
    ensures RoomGames([room] + rooms) == (if room.game.Some? then {room.game.value} else {}) + RoomGames(rooms)
  {
    var all := [room] + rooms;
    forall g | g in RoomGames(all) ensures g in (if room.game.Some? then {room.game.value} else {}) + RoomGames(rooms) {
      var k :| 0 <= k < |all| && all[k].game.Some? && all[k].game.value == g;
      if k > 0 { assert rooms[k - 1].game == Some(g); }
    }
    forall g | g in RoomGames(rooms) ensures g in RoomGames(all) {
      var k :| 0 <= k < |rooms| && rooms[k].game.Some? && rooms[k].game.value == g;
      assert all[k + 1].game == Some(g);
    }
    if room.game.Some? { assert all[0].game == room.game; }
  }

  lemma WellFormedCons(room: Room, rooms: seq<Room>)
    ensures DistinctIds([room] + rooms) <==> DistinctIds(rooms) && room.id !in Ids(rooms)
    ensures WellFormed([room] + rooms) <==> RoomOk(room) && room.id !in Ids(rooms) && WellFormed(rooms)
  {
    var all := [room] + rooms;
    if DistinctIds(all) {
      forall i, j | 0 <= i < j < |rooms| ensures rooms[i].id != rooms[j].id {
        assert all[i + 1].id != all[j + 1].id;
      }
      forall k | 0 <= k < |rooms| ensures rooms[k].id != room.id {
        assert all[0].id != all[k + 1].id;
      }
    }
    if DistinctIds(rooms) && room.id !in Ids(rooms) {
      forall i, j | 0 <= i < j < |all| ensures all[i].id != all[j].id {
        if i == 0 { assert rooms[j - 1].id in Ids(rooms); } else { assert rooms[i - 1].id != rooms[j - 1].id; }
      }
    }
    if WellFormed(all) {
      forall k | 0 <= k < |rooms| ensures RoomOk(rooms[k]) { assert all[k + 1] == rooms[k]; }
      assert RoomOk(all[0]);
    }
    if RoomOk(room) && WellFormed(rooms) {
      forall k | 0 <= k < |all| ensures RoomOk(all[k]) { if k > 0 { assert all[k] == rooms[k - 1]; } }
    }
  }

  /** The callback keeps a room's id and game, and a live room stays live if it survives. */
  lemma PruneOk(room: Room, s: Socket)
    requires Prune(room, s).Some?
    ensures Prune(room, s).value.id == room.id && Prune(room, s).value.game == room.game
    ensures RoomOk(room) ==> RoomOk(Prune(room, s).value)
  {
  }

  /** `rooms.filter(...)` in `removeUser(s)`: `s` leaves every room, and emptied rooms go. */
  function PruneRooms(rooms: seq<Room>, s: Socket): (r: seq<Room>)
    ensures |r| <= |rooms|
    ensures forall k :: 0 <= k < |r| ==> s !in r[k].users && r[k].users != []
    decreases |rooms|
  {
    if rooms == [] then []
    else
      var rest := PruneRooms(rooms[1..], s);
      match Prune(rooms[0], s)
      case None => rest
      case Some(room) => [room] + rest
  }

  /**
   * The filter invents no id and no game, and keeps the room list well formed:
   * distinct ids, one or two users per room, a game in every room of two.
   */
  lemma {:induction false} PruneRoomsWellFormed(rooms: seq<Room>, s: Socket)
    ensures Ids(PruneRooms(rooms, s)) <= Ids(rooms) && RoomGames(PruneRooms(rooms, s)) <= RoomGames(rooms)
    ensures WellFormed(rooms) ==> WellFormed(PruneRooms(rooms, s))
    decreases |rooms|
  {
    if rooms != [] {
      var rest := PruneRooms(rooms[1..], s);
      PruneRoomsWellFormed(rooms[1..], s);
      assert rooms == [rooms[0]] + rooms[1..];
      IdsCons(rooms[0], rooms[1..]);
      RoomGamesCons(rooms[0], rooms[1..]);
      WellFormedCons(rooms[0], rooms[1..]);
      match Prune(rooms[0], s)
      case None =>
      case Some(room) =>
        PruneOk(rooms[0], s);
        IdsCons(room, rest);
        RoomGamesCons(room, rest);
        WellFormedCons(room, rest);
    }
  }

  lemma RoomNamedCons(room: Room, rooms: seq<Room>, id: string)
    ensures RoomNamed([room] + rooms, id) == if room.id == id then Some(room) else RoomNamed(rooms, id)
  {
  }

  /**
   * After `removeUser(s)`, looking up any id finds exactly what the filter
   * left of the room that had it: nothing if `s` was its last user, otherwise
   * the same room, same game, with `s` taken out of its users.
   */
  lemma {:induction false} PruneRoomsLookup(rooms: seq<Room>, s: Socket, id: string)
    requires DistinctIds(rooms)
    ensures RoomNamed(PruneRooms(rooms, s), id) == match RoomNamed(rooms, id) case None => None case Some(room) => Prune(room, s)
    decreases |rooms|
  {
    if rooms != [] {
      var rest := rooms[1..];
      assert rooms == [rooms[0]] + rest;
      assert DistinctIds(rest) by {
        forall i, j | 0 <= i < j < |rest| ensures rest[i].id != rest[j].id {
          assert rooms[i + 1].id != rooms[j + 1].id;
        }
      }
      RoomNamedCons(rooms[0], rest, id);
      PruneRoomsLookup(rest, s, id);
      PruneRoomsWellFormed(rest, s);
      if rooms[0].id == id {
        assert RoomNamed(PruneRooms(rest, s), id) == None;
      }
      match Prune(rooms[0], s)
      case None =>
      case Some(room) => RoomNamedCons(room, PruneRooms(rest, s), id);
    }
  }

  /** The filter keeps the surviving rooms in their original order. */
  lemma {:induction false} PruneRoomsConcat(a: seq<Room>, b: seq<Room>, s: Socket)
    ensures PruneRooms(a + b, s) == PruneRooms(a, s) + PruneRooms(b, s)
    decreases |a|
  {
    if a == [] {
      assert a + b == b;
    } else {
      assert (a + b)[0] == a[0];
      assert (a + b)[1..] == a[1..] + b;
      PruneRoomsConcat(a[1..], b, s);
    }
  }

  /** A socket that is in no room leaves the (non-empty) rooms exactly as they were. */
  lemma {:induction false} PruneRoomsAbsent(rooms: seq<Room>, s: Socket)
    requires forall k :: 0 <= k < |rooms| ==> rooms[k].users != [] && s !in rooms[k].users
    ensures PruneRooms(rooms, s) == rooms
    decreases |rooms|
  {
    if rooms != [] {
      PruneRoomsAbsent(rooms[1..], s);
      assert rooms[0].(users := Without(rooms[0].users, s)) == rooms[0];
      assert rooms == [rooms[0]] + rooms[1..];
    }
  }

  /**
   * CREATE_ROOM `id` from `s`: `None` when `rooms.find` sees the id already
   * taken ("Room already exists"), otherwise the list with `{ id, users: [s] }` pushed.
   */
  function WithNewRoom(rooms: seq<Room>, id: string, s: Socket): (r: Option<seq<Room>>)
    ensures r.None? <==> id in Ids(rooms)
    ensures r.Some? ==> r.value == rooms + [Room(id, [s], None)]
    ensures r.Some? ==> Ids(r.value) == Ids(rooms) + {id} && RoomGames(r.value) == RoomGames(rooms)
    ensures r.Some? && WellFormed(rooms) && id != "" ==> WellFormed(r.value)
  {
    match IndexOfId(rooms, id)
    case Some(_) => None
    case None =>
      var r := rooms + [Room(id, [s], None)];
      assert Ids(r) == Ids(rooms) + {id} by {
        forall x | x in Ids(r) ensures x in Ids(rooms) + {id} {
          var k :| 0 <= k < |r| && r[k].id == x;
          if k < |rooms| { assert rooms[k].id == x; }
        }
        forall x | x in Ids(rooms) ensures x in Ids(r) {
          var k :| 0 <= k < |rooms| && rooms[k].id == x;
          assert r[k].id == x;
        }
        assert r[|rooms|].id == id;
      }
      assert RoomGames(r) == RoomGames(rooms) by {
        forall g | g in RoomGames(r) ensures g in RoomGames(rooms) {
          var k :| 0 <= k < |r| && r[k].game == Some(g);
          assert rooms[k].game == Some(g);
        }
        forall g | g in RoomGames(rooms) ensures g in RoomGames(r) {
          var k :| 0 <= k < |rooms| && rooms[k].game == Some(g);
          assert r[k].game == Some(g);
        }
      }
      assert DistinctIds(rooms) ==> DistinctIds(r) by {
        if DistinctIds(rooms) {
          forall i, j | 0 <= i < j < |r| ensures r[i].id != r[j].id {
            if j == |rooms| { assert rooms[i].id in Ids(rooms); }
          }
        }
      }
      Some(r)
  }

  /** The three outcomes of JOIN_ROOM. */
  datatype JoinResult = NotFound | Full | Joined(index: nat)

  /** JOIN_ROOM `id`: the room `rooms.find` returns, and whether it has room for one more. */
  function JoinDecision(rooms: seq<Room>, id: string): (r: JoinResult)
    ensures r == NotFound <==> id !in Ids(rooms)
    ensures r.Joined? ==> r.index < |rooms| && rooms[r.index].id == id && |rooms[r.index].users| < 2
    ensures r == Full ==> exists k :: 0 <= k < |rooms| && rooms[k].id == id && |rooms[k].users| >= 2
    ensures DistinctIds(rooms) && r != NotFound ==>
              forall k :: 0 <= k < |rooms| && rooms[k].id == id ==> (r == Full <==> |rooms[k].users| >= 2)
    ensures WellFormed(rooms) && r.Joined? ==> |rooms[r.index].users| == 1
  {
    match IndexOfId(rooms, id)
    case None => NotFound
    case Some(i) => if |rooms[i].users| < 2 then Joined(i) else Full
  }

  /**
   * A join: `s` pushed onto the users of room `i`, and `game` attached to it
   * when one is given (the handler gives one when the room now holds two).
   */
  function WithMember(rooms: seq<Room>, i: nat, s: Socket, game: Option<Game>): (r: seq<Room>)
    requires i < |rooms|
    ensures |r| == |rooms| && Ids(r) == Ids(rooms)
    ensures forall k :: 0 <= k < |rooms| && k != i ==> r[k] == rooms[k]
    ensures r[i].id == rooms[i].id && r[i].users == rooms[i].users + [s]
    ensures r[i].game == if game.Some? then game else rooms[i].game
    ensures WellFormed(rooms) && |rooms[i].users| < 2 && game.Some? ==> WellFormed(r) && |r[i].users| == 2
  {
    var r := rooms[i := rooms[i].(users := rooms[i].users + [s], game := if game.Some? then game else rooms[i].game)];
    assert Ids(r) == Ids(rooms) by {
      forall x | x in Ids(r) ensures x in Ids(rooms) {
        var k :| 0 <= k < |r| && r[k].id == x;
        assert rooms[k].id == x;
      }
      forall x | x in Ids(rooms) ensures x in Ids(r) {
        var k :| 0 <= k < |rooms| && rooms[k].id == x;
        assert r[k].id == x;
      }
    }
    r
  }
}
