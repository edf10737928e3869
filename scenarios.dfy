/** Message sequences from the relay's intended use, checked against the contracts alone. */
module Scenarios {
  import opened Wrappers
  import opened Messages
  import opened Chess
  import opened Network
  import opened Games
  import opened Rooms
  import opened Manager
  import opened Seqs

  /**
   * X asks for a random game and waits, silently; Y asks next, and X is told
   * "white" and Y "black".
   */
  method RandomPairing(x: Socket, y: Socket, rules: Rules) returns (manager: GameManager)
    ensures fresh(manager) && fresh(manager.net) && manager.Valid() && fresh(manager.Sessions())
    ensures manager.pendingUser == None && |manager.games| == 1 && manager.rooms == []
    ensures manager.games[0].player1 == x && manager.games[0].player2 == y
    ensures manager.games[0].rules == rules && manager.games[0].State() == Initial
    ensures manager.net.sent == [Envelope(x, InitGame("white")), Envelope(y, InitGame("black"))]
  {
    var net := new Outbox();
    manager := new GameManager(rules, net);
    manager.AddUser(x);
    manager.AddUser(y);
    DecodeEncode(Pair);
    manager.HandleMessage(x, Encode(Pair));
    assert manager.pendingUser == Some(x) && net.sent == [];
    manager.HandleMessage(y, Encode(Pair));
  }

  /** White's first move in a random game reaches both players, coloured "w", and passes the turn. */
  method FirstMove(x: Socket, y: Socket)
    requires x != y
  {
    var anyMove := Rules((b: Board, m: Move) => true, (b: Board) => false, (b: Board) => White);
    var manager := RandomPairing(x, y, anyMove);
    var e2e4 := Move("e2", "e4", None);
    DecodeEncode(Play(e2e4));
    manager.HandleMessage(x, Encode(Play(e2e4)));
    var g := manager.games[0];
    assert g.State() == GameState([e2e4], 1);
    assert manager.net.sent[2..] == [Envelope(x, MoveMade(e2e4, "w")), Envelope(y, MoveMade(e2e4, "w"))];
  }

  /** Room messages and a second pairing request leave a running game as it was. */
  method OtherMessagesKeepGames(x: Socket, y: Socket)
  {
    var anyMove := Rules((b: Board, m: Move) => true, (b: Board) => false, (b: Board) => White);
    var manager := RandomPairing(x, y, anyMove);
    var g := manager.games[0];
    DecodeEncode(Create("r9"));
    manager.HandleMessage(x, Encode(Create("r9")));
    assert g.State() == Initial;
    DecodeEncode(Join("r9"));
    manager.HandleMessage(y, Encode(Join("r9")));
    assert g.State() == Initial;
    DecodeEncode(Pair);
    manager.HandleMessage(x, Encode(Pair));
    assert g.State() == Initial;
  }

  /** A fresh relay on which `x` has created room "r1". */
  method OpenRoom(x: Socket) returns (manager: GameManager)
    ensures fresh(manager) && fresh(manager.net) && manager.Valid() && manager.Sessions() == {}
    ensures manager.rooms == [Room("r1", [x], None)]
  {
    var anyMove := Rules((b: Board, m: Move) => true, (b: Board) => false, (b: Board) => White);
    var net := new Outbox();
    manager := new GameManager(anyMove, net);
    DecodeEncode(Create("r1"));
    manager.HandleMessage(x, Encode(Create("r1")));
  }

  /** A room fills on its second user, which starts its game. */
  method RoomFills(x: Socket, y: Socket) returns (manager: GameManager)
    ensures fresh(manager) && fresh(manager.net) && manager.Valid() && fresh(manager.Sessions())
    ensures |manager.rooms| == 1 && manager.rooms[0].id == "r1"
    ensures manager.rooms[0].users == [x, y] && manager.rooms[0].game.Some?
  {
    manager := OpenRoom(x);
    assert JoinDecision(manager.rooms, "r1") == Joined(0);
    DecodeEncode(Join("r1"));
    manager.HandleMessage(y, Encode(Join("r1")));
  }

  /** A third user is turned away from a full room, and the rooms do not change. */
  method RoomCapacity(x: Socket, y: Socket, z: Socket)
  {
    var manager := RoomFills(x, y);
    var before := manager.rooms;
    var sent := manager.net.sent;
    assert JoinDecision(manager.rooms, "r1") == Full;
    DecodeEncode(Join("r1"));
    manager.HandleMessage(z, Encode(Join("r1")));
    assert manager.rooms == before;
    assert manager.net.sent == sent + [Envelope(z, JoinRoomFailed("Room is full"))];
  }

  /**
   * When the second user of a room leaves, the room keeps its old game; a
   * new joiner starts a fresh game there, and the old one is left as it was.
   */
  method RejoinKeepsOldGame(x: Socket, y: Socket, z: Socket)
    requires x != y
  {
    var manager := RoomFills(x, y);
    var old1 := manager.rooms[0].game.value;
    var before := old1.State();
    var full := manager.rooms;
    assert RoomNamed(full, "r1") == Some(Room("r1", [x, y], Some(old1)));
    assert Without([x, y], y) == [x] by {
      assert [x, y][1..] == [y] && [y][1..] == [];
    }
    manager.RemoveUser(y);
    PruneRoomsLookup(full, y, "r1");
    assert RoomNamed(manager.rooms, "r1") == Some(Room("r1", [x], Some(old1)));
    DecodeEncode(Join("r1"));
    manager.HandleMessage(z, Encode(Join("r1")));
    assert old1.State() == before;
  }
}
