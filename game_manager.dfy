/**
 * GameManager: the connected sockets, the one socket waiting for a random
 * opponent, the random games, the private rooms, and the message handler
 * that dispatches INIT_GAME, MOVE, CREATE_ROOM and JOIN_ROOM.
 */
module Manager {
  import opened Wrappers
  import opened Messages
  import opened Chess
  import opened Network
  import opened Seqs
  import opened Games
  import opened Rooms

  /** What a message asks for once its shape has been checked. */
  datatype Command = Pair | Play(move: Move) | Create(roomId: string) | Join(roomId: string)

  /** JavaScript truthiness of an optional string field: present and not "". */
  predicate Truthy(field: Option<string>)
  {
    field.Some? && field.value != ""
  }

  /**
   * The checks the handler makes before it acts: a falsy `type`, a MOVE
   * without `payload.move` or with a falsy `from` or `to`, a CREATE_ROOM or
   * JOIN_ROOM without a truthy `payload.roomId`, and any other type, are
   * all dropped (`None`).
   */
  function Decode(msg: Inbound): (c: Option<Command>)
    ensures c.Some? ==> Truthy(msg.tag)
    ensures c == Some(Pair) <==> msg.tag == Some(INIT_GAME)
    ensures c.Some? && c.value.Play? ==>
              && msg.tag == Some(MOVE) && msg.payload.Some?
              && msg.payload.value.move == Some(RawMove(Some(c.value.move.from), Some(c.value.move.to), c.value.move.promotion))
              && c.value.move.from != "" && c.value.move.to != ""
    ensures c.Some? && c.value.Create? ==>
              msg.tag == Some(CREATE_ROOM) && msg.payload.Some? && msg.payload.value.roomId == Some(c.value.roomId) && c.value.roomId != ""
    ensures c.Some? && c.value.Join? ==>
              msg.tag == Some(JOIN_ROOM) && msg.payload.Some? && msg.payload.value.roomId == Some(c.value.roomId) && c.value.roomId != ""
    // and each message that passes its checks is acted on, whatever else it carries
    ensures && msg.tag == Some(MOVE) && msg.payload.Some? && msg.payload.value.move.Some?
            && Truthy(msg.payload.value.move.value.from) && Truthy(msg.payload.value.move.value.to)
            ==> c.Some? && c.value.Play?
    ensures msg.tag == Some(CREATE_ROOM) && msg.payload.Some? && Truthy(msg.payload.value.roomId) ==> c.Some? && c.value.Create?
    ensures msg.tag == Some(JOIN_ROOM) && msg.payload.Some? && Truthy(msg.payload.value.roomId) ==> c.Some? && c.value.Join?
  {
    if !Truthy(msg.tag) then None
    else if msg.tag.value == INIT_GAME then Some(Pair)
    else if msg.tag.value == MOVE then
      if msg.payload.None? || msg.payload.value.move.None? then None
      else
        var raw := msg.payload.value.move.value;
        if !Truthy(raw.from) || !Truthy(raw.to) then None
        else Some(Play(Move(raw.from.value, raw.to.value, raw.promotion)))
    else if msg.tag.value == CREATE_ROOM || msg.tag.value == JOIN_ROOM then
      if msg.payload.None? || !Truthy(msg.payload.value.roomId) then None
      else if msg.tag.value == CREATE_ROOM then Some(Create(msg.payload.value.roomId.value))
      else Some(Join(msg.payload.value.roomId.value))
    else None
  }

  /** The message a well-behaved client sends for a command. */
  function Encode(c: Command): Inbound
  {
    match c
    case Pair => Inbound(Some(INIT_GAME), None)
    case Play(m) => Inbound(Some(MOVE), Some(Payload(Some(RawMove(Some(m.from), Some(m.to), m.promotion)), None)))
    case Create(id) => Inbound(Some(CREATE_ROOM), Some(Payload(None, Some(id))))
    case Join(id) => Inbound(Some(JOIN_ROOM), Some(Payload(None, Some(id))))
  }

  /** Every command with truthy fields survives the handler's checks unchanged. */
  lemma DecodeEncode(c: Command)
    requires c.Play? ==> c.move.from != "" && c.move.to != ""
    requires c.Create? || c.Join? ==> c.roomId != ""
    ensures Decode(Encode(c)) == Some(c)
  {
  }

  /** `games.find(game => game.player1 === s || game.player2 === s)`, as an index. */
  function IndexOfPlayer(games: seq<Game>, s: Socket): (r: Option<nat>)
    ensures r.Some? ==> r.value < |games| && (games[r.value].player1 == s || games[r.value].player2 == s)
    ensures r.Some? ==> forall k :: 0 <= k < r.value ==> games[k].player1 != s && games[k].player2 != s
    ensures r.None? <==> forall k :: 0 <= k < |games| ==> games[k].player1 != s && games[k].player2 != s
  {
    FindFirst(games, (g: Game) => g.player1 == s || g.player2 == s)
  }

  /** The random game a MOVE from `s` goes to: the first one `s` plays in, finished or not. */
  function RandomGameOf(games: seq<Game>, s: Socket): Option<Game>
  {
    match IndexOfPlayer(games, s)
    case None => None
    case Some(i) => Some(games[i])
  }

  /** The room game a MOVE from `s` goes to: that of the first room listing `s`, if it has one. */
  function RoomGameOf(rooms: seq<Room>, s: Socket): Option<Game>
  {
    match IndexOfMember(rooms, s)
    case None => None
    case Some(i) => rooms[i].game
  }

  /**
   * Random games are never removed, so a socket that has played one keeps
   * sending its moves there: a game appended later, even one it was just
   * paired into, never receives them.
   */
  lemma {:induction false} EarlierGameKeepsMoves(games: seq<Game>, g: Game, s: Socket)
    requires RandomGameOf(games, s).Some?
    ensures RandomGameOf(games + [g], s) == RandomGameOf(games, s)
  {
    var i := IndexOfPlayer(games, s).value;
    var all := games + [g];
    assert all[i] == games[i];
    var j := IndexOfPlayer(all, s).value;
    assert j == i;
  }

  /** What `makeMove` does to `g` when `g` is in state `st`; nothing when there is no game. */
  function PlayOn(g: Option<Game>, st: GameState, a: Attempt): seq<Envelope>
  {
    match g
    case None => []
    case Some(game) => Step(game.rules, game.player1, game.player2, st, a).sent
  }

  class GameManager {
    /** chess.js, shared by every game. */
    const rules: Rules
    /** The sockets' send side. */
    const net: Outbox
    var games: seq<Game>
    var pendingUser: Option<Socket>
    var users: seq<Socket>
    var rooms: seq<Room>

    /** Rooms are well formed, and a room's game is never also a random game. */
    ghost predicate Valid()
      reads this
    {
      && WellFormed(rooms)
      && forall g :: g in RoomGames(rooms) ==> g !in games
    }

    /** Every game a MOVE can reach. */
    ghost function Sessions(): set<Game>
      reads this
    {
      (set g | g in games) + RoomGames(rooms)
    }

    constructor (rules: Rules, net: Outbox)
      ensures Valid() && this.rules == rules && this.net == net
      ensures games == [] && pendingUser == None && users == [] && rooms == []
    {
      this.rules := rules;
      this.net := net;
      games := [];
      pendingUser := None;
      users := [];
      rooms := [];
    }

    /** `addUser(socket)`: a new connection; its messages then go to `HandleMessage`. */
    method AddUser(socket: Socket)
      requires Valid()
      modifies this`users
      ensures Valid() && users == old(users) + [socket]
    {
      users := users + [socket];
    }

    /** `removeUser(socket)`: the connection closed. */
    method RemoveUser(socket: Socket)
      requires Valid()
      modifies this`users, this`pendingUser, this`rooms
      ensures Valid()
      ensures users == Without(old(users), socket) && socket !in users
      ensures pendingUser == if old(pendingUser) == Some(socket) then None else old(pendingUser)
      ensures pendingUser != Some(socket)
      ensures rooms == PruneRooms(old(rooms), socket)
      ensures forall k :: 0 <= k < |rooms| ==> socket !in rooms[k].users
      ensures (forall k :: 0 <= k < |old(rooms)| ==> socket !in old(rooms)[k].users) ==> rooms == old(rooms)
    {
      users := Without(users, socket);
      if pendingUser == Some(socket) {
        pendingUser := None;
      }
      if forall k :: 0 <= k < |rooms| ==> socket !in rooms[k].users {
        PruneRoomsAbsent(rooms, socket);
      }
      PruneRoomsWellFormed(rooms, socket);
      rooms := PruneRooms(rooms, socket);
    }

    /** INIT_GAME from `socket`: it waits, or a game starts with the waiting socket as white. */
    twostate predicate InitGameDone(socket: Socket)
      reads this, net, Sessions()
    {
      && rooms == old(rooms) && users == old(users)
      && (forall g :: g in Sessions() && g in old(Sessions()) ==> g.State() == old(g.State()))
      && (old(pendingUser).None? ==>
            pendingUser == Some(socket) && games == old(games) && net.sent == old(net.sent))
      && (old(pendingUser).Some? ==>
            && pendingUser == None
            && |games| == |old(games)| + 1 && games[..|old(games)|] == old(games)
            && var g := games[|old(games)|];
               && fresh(g) && g.player1 == old(pendingUser).value && g.player2 == socket
               && g.rules == rules && g.State() == Initial
               && net.sent == old(net.sent) + Opening(old(pendingUser).value, socket))
    }

    /**
     * MOVE from `socket`: the move is made on the first random game `socket`
     * is in, then on the game of the first room that lists it; no other game
     * changes and nothing else is sent.
     */
    twostate predicate MoveDone(socket: Socket, move: Move)
      reads this, net, Sessions()
    {
      && games == old(games) && pendingUser == old(pendingUser) && rooms == old(rooms) && users == old(users)
      && var random := RandomGameOf(games, socket);
         var room := RoomGameOf(rooms, socket);
         && (random.Some? ==>
               random.value.State() == Step(random.value.rules, random.value.player1, random.value.player2,
                                            old(random.value.State()), Attempt(socket, move)).state)
         && (room.Some? ==>
               room.value.State() == Step(room.value.rules, room.value.player1, room.value.player2,
                                          old(room.value.State()), Attempt(socket, move)).state)
         && net.sent == old(net.sent)
                        + PlayOn(random, if random.Some? then old(random.value.State()) else Initial, Attempt(socket, move))
                        + PlayOn(room, if room.Some? then old(room.value.State()) else Initial, Attempt(socket, move))
         && forall g :: g in Sessions() && Some(g) != random && Some(g) != room ==> g.State() == old(g.State())
    }

    /** CREATE_ROOM `id` from `socket`: a new room with `socket` alone in it, unless `id` is taken. */
    twostate predicate CreateRoomDone(socket: Socket, id: string)
      reads this, net, Sessions()
    {
      && games == old(games) && pendingUser == old(pendingUser) && users == old(users)
      && (forall g :: g in Sessions() && g in old(Sessions()) ==> g.State() == old(g.State()))
      && match WithNewRoom(old(rooms), id, socket)
         case None =>
           rooms == old(rooms) && net.sent == old(net.sent) + [Envelope(socket, CreateRoomFailed("Room already exists"))]
         case Some(after) =>
           rooms == after && net.sent == old(net.sent) + [Envelope(socket, CreateRoomOk(id))]
    }

    /** JOIN_ROOM `id` from `socket`: refused if the room is missing or full, else joined and started. */
    twostate predicate JoinRoomDone(socket: Socket, id: string)
      reads this, net, Sessions()
    {
      && games == old(games) && pendingUser == old(pendingUser) && users == old(users)
      && (forall g :: g in Sessions() && g in old(Sessions()) ==> g.State() == old(g.State()))
      && (JoinDecision(old(rooms), id) == NotFound ==>
            rooms == old(rooms) && net.sent == old(net.sent) + [Envelope(socket, JoinRoomFailed("Room not found"))])
      && (JoinDecision(old(rooms), id) == Full ==>
            rooms == old(rooms) && net.sent == old(net.sent) + [Envelope(socket, JoinRoomFailed("Room is full"))])
      && (JoinDecision(old(rooms), id).Joined? ==>
            var i := JoinDecision(old(rooms), id).index;
            && |rooms| == |old(rooms)|
            && (forall k :: 0 <= k < |rooms| && k != i ==> rooms[k] == old(rooms)[k])
            && rooms[i].id == id && rooms[i].users == old(rooms)[i].users + [socket]
            && |rooms[i].users| == 2 && rooms[i].game.Some?
            && var g := rooms[i].game.value;
               && fresh(g) && g.player1 == rooms[i].users[0] && g.player2 == rooms[i].users[1]
               && g.rules == rules && g.State() == Initial
               && net.sent == old(net.sent) + [Envelope(socket, JoinRoomOk(id))] + Opening(g.player1, g.player2))
    }

    /** The body of the "message" handler for one message from `socket`. */
    method HandleMessage(socket: Socket, msg: Inbound)
      requires Valid()
      modifies this`pendingUser, this`games, this`rooms, net, Sessions()
      ensures Valid() && fresh(Sessions() - old(Sessions()))
      ensures Decode(msg).None? ==>
                && games == old(games) && pendingUser == old(pendingUser) && rooms == old(rooms)
                && net.sent == old(net.sent)
                && forall g :: g in old(Sessions()) ==> g.State() == old(g.State())
      ensures Decode(msg).Some? && !Decode(msg).value.Play? ==>
                forall g :: g in old(Sessions()) ==> g.State() == old(g.State())
      ensures Decode(msg) == Some(Pair) ==> InitGameDone(socket)
      ensures Decode(msg).Some? && Decode(msg).value.Play? ==> MoveDone(socket, Decode(msg).value.move)
      ensures Decode(msg).Some? && Decode(msg).value.Create? ==> CreateRoomDone(socket, Decode(msg).value.roomId)
      ensures Decode(msg).Some? && Decode(msg).value.Join? ==> JoinRoomDone(socket, Decode(msg).value.roomId)
    {
      match Decode(msg)
      case None =>
      case Some(Pair) => OnInitGame(socket);
      case Some(Play(m)) => OnMove(socket, m);
      case Some(Create(id)) => OnCreateRoom(socket, id);
      case Some(Join(id)) => OnJoinRoom(socket, id);
    }

    /** INIT_GAME: wait for an opponent, or start a game with the one waiting. */
    method OnInitGame(socket: Socket)
      requires Valid()
      modifies this`pendingUser, this`games, net
      ensures Valid() && fresh(Sessions() - old(Sessions()))
      ensures InitGameDone(socket)
    {
      if pendingUser.Some? {
        var game := new Game(pendingUser.value, socket, rules, net);
        games := games + [game];
        pendingUser := None;
      } else {
        pendingUser := Some(socket);
      }
    }

    /** MOVE: the move goes to the first random game `socket` is in, then to the game of its first room. */
    method OnMove(socket: Socket, move: Move)
      requires Valid()
      modifies net, Sessions()
      ensures Valid() && Sessions() == old(Sessions())
      ensures MoveDone(socket, move)
    {
      var random := RandomGameOf(games, socket);
      var room := RoomGameOf(rooms, socket);
      if random.Some? {
        random.value.MakeMove(socket, move, net);
      }
      if room.Some? {
        var k := IndexOfMember(rooms, socket).value;
        assert room.value in RoomGames(rooms) by { assert rooms[k].game == room; }
        room.value.MakeMove(socket, move, net);
      }
    }

    /** CREATE_ROOM `id`: a new room with `socket` as its only user, unless the id is taken. */
    method OnCreateRoom(socket: Socket, id: string)
      requires Valid() && id != ""
      modifies this`rooms, net
      ensures Valid() && Sessions() == old(Sessions())
      ensures CreateRoomDone(socket, id)
    {
      match WithNewRoom(rooms, id, socket)
      case Some(after) =>
        rooms := after;
        net.Send(socket, CreateRoomOk(id));
      case None =>
        net.Send(socket, CreateRoomFailed("Room already exists"));
    }

    /** JOIN_ROOM `id`: `socket` joins the room, which starts its game once it holds two users. */
    method OnJoinRoom(socket: Socket, id: string)
      requires Valid() && id != ""
      modifies this`rooms, net
      ensures Valid() && fresh(Sessions() - old(Sessions()))
      ensures JoinRoomDone(socket, id)
    {
      match JoinDecision(rooms, id)
      case NotFound =>
        net.Send(socket, JoinRoomFailed("Room not found"));
      case Full =>
        net.Send(socket, JoinRoomFailed("Room is full"));
      case Joined(i) =>
        var members := rooms[i].users + [socket];
        net.Send(socket, JoinRoomOk(id));
        var game: Option<Game> := None;
        if |members| == 2 {
          var g := new Game(members[0], members[1], rules, net);
          game := Some(g);
        }
        rooms := WithMember(rooms, i, socket, game);
    }
  }
}
