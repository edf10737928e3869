# chess.io session relay, in Dafny

This project models the backend of chess.io. The backend is a WebSocket relay that pairs two players and passes chess moves between them. It has two classes:

- `GameManager` (`backend/src/GameManager.ts`) holds the connected sockets and a one-slot queue for a random opponent (`pendingUser`). It also holds the random games and the private rooms. Its message handler acts on `INIT_GAME`, `MOVE`, `CREATE_ROOM` and `JOIN_ROOM`, and `removeUser` cleans up when a socket closes.
- `Game` (`backend/src/Game.ts`) is one game between two sockets. It tells each player its colour. `makeMove` enforces the turn by the parity of `moveCount`, asks chess.js to play the move, sends the move to both players and announces the end of the game.

Both classes change their fields in place, so both are Dafny classes:

- `Manager.GameManager` has the fields `games`, `pendingUser`, `users` and `rooms`.
- `Games.Game` has the fields `player1`, `player2`, `board` and `moveCount`.

Each method's postcondition ties the new state to a pure function of the old one. The lemmas prove the promised properties about those functions.

Modelling choices:

- **Sockets** are opaque ids (`Messages.Socket`), compared only by equality.
- **`socket.send`** appends an `Envelope(recipient, message)` to the single log `Network.Outbox.sent`. Every class that sends shares that log, so the order of all sends is kept.
- **Inbound messages** are given after `JSON.parse` (`Messages.Inbound`). A missing field is `None`. `Manager.Decode` makes the same checks as the handler, in the same order.
- **chess.js** is abstract (`Chess.Rules`): any functions deciding whether a move is legal, whether the game is over, and whose turn it is. A position is the list of moves played from the start position. The model never plays chess itself.
- **Rooms** are reached only through the `rooms` list, so each room is a value (`Rooms.Room`). An update to a room writes a new list. Games are objects: a room and the handler share them, and `makeMove` changes them.
- **Message tags** use the values the client declares in `frontend/src/screens/Game.tsx:9-13`. `backend/src/messages.ts` is not part of this model.

The model follows the code, including its quirks:

- Nothing stops a socket from being paired with itself. Two `INIT_GAME` messages from one socket start a game in which it plays both sides.
- A room's creator can join its own room.
- One `MOVE` goes to the first random game of the sender and also to the game of the first room that lists the sender.
- Random games are never removed. `Manager.EarlierGameKeepsMoves` shows that a socket's moves keep going to its first random game, even after it is paired into a new one.
- The winner named at game over is always "Black" or "White", never `null`, even after a draw.
- The move that ends the game is not added to `moveCount`. That player keeps the turn, so the game stops only when the engine rejects every further move. `Games.RunAccounting` proves that `moveCount` falls behind the number of moves played by exactly the number of game-over announcements.
- A closed socket leaves its rooms, but its games go on existing.
- Failed room replies carry no `roomId`.
- The code has no promotion handshake and no forfeit on disconnect.

## Model

| member | source | states |
|---|---|---|
| `Network.Outbox.Send` | backend/src/Game.ts:56-57 | one `socket.send`: the message is appended to the log for that recipient, after everything sent before |
| `Seqs.Without` | backend/src/GameManager.ts:32 | `filter(user => user !== socket)`: an element is kept exactly when it was there and is not the socket; the list shrinks exactly when the socket was in it, and an absent socket leaves the list unchanged |
| `Seqs.WithoutMultiset` | backend/src/GameManager.ts:32 | the filter removes every copy of the socket and keeps every other element exactly as often as it occurred |
| `Seqs.WithoutConcat` | backend/src/GameManager.ts:41 | filtering distributes over concatenation, so the remaining users keep their original order |
| `Seqs.FindFirst` | backend/src/GameManager.ts:118 | `Array.find`: the index found holds the first element satisfying the predicate; `None` exactly when no element does |
| `Games.Step` | backend/src/Game.ts:31-73 | an out-of-turn move (player1 on even `moveCount`, player2 on odd) or one the engine rejects changes nothing and sends nothing. An accepted move is added to the board and sent identically to player1 then player2, coloured "w"/"b" by the old parity. `moveCount` goes up by one exactly when the game is not over, and the turn then passes to the other player. When the game is over, `moveCount` stays as it was, both players get GAME_OVER naming the side not to move, and the mover keeps the turn. `moveCount` never decreases and never exceeds the moves played |
| `Games.Run` | backend/src/Game.ts:31-73 | over any sequence of `makeMove` calls, `moveCount` never decreases, the board only grows by appending, and every message goes to player1 or player2 |
| `Games.RunIsPaired` | backend/src/Game.ts:47-69 | over any sequence of calls, the messages sent come in pairs: each message to player1 is followed by the same message to player2 |
| `Games.RunAccounting` | backend/src/Game.ts:59-72 | over any sequence of calls, every accepted move is broadcast exactly once to each player. `moveCount` falls behind the accepted moves by exactly the number of GAME_OVER announcements |
| `Games.Game.constructor` | backend/src/Game.ts:12-29 | a new game has an empty board and `moveCount` 0. It sends "white" to player1, then "black" to player2 |
| `Games.Game.MakeMove` | backend/src/Game.ts:31-73 | the new board, the new `moveCount` and the messages sent are exactly those of `Step` from the old state |
| `Rooms.IndexOfId` | backend/src/GameManager.ts:118 | the room found by id carries that id; there is none exactly when the id is unused; with distinct ids it is the only such room |
| `Rooms.IndexOfMember` | backend/src/GameManager.ts:156 | the room found for a socket is the first that lists it among its users; none exactly when no room does |
| `Rooms.PruneRooms` | backend/src/GameManager.ts:40-49 | after the disconnect filter, no room lists the socket and no room is empty, and there are no more rooms than before |
| `Rooms.PruneRoomsWellFormed` | backend/src/GameManager.ts:40-49 | the filter invents no room id and no game, and well-formed rooms stay well formed: distinct ids, 1 or 2 users, a game when 2 |
| `Rooms.PruneRoomsLookup` | backend/src/GameManager.ts:40-49 | looking up any id after the filter gives nothing if the socket was that room's last user. Otherwise it gives the same room with the same game and the socket taken out of its users |
| `Rooms.PruneRoomsConcat` | backend/src/GameManager.ts:40-49 | the filter distributes over concatenation, so surviving rooms keep their order |
| `Rooms.PruneRoomsAbsent` | backend/src/GameManager.ts:40-49 | a socket that is in no room leaves the room list exactly as it was |
| `Rooms.WithNewRoom` | backend/src/GameManager.ts:97-98 | creation fails exactly when the id is already in use. Otherwise `{id, users: [socket]}` is appended, the ids grow by exactly that id, and well-formedness is kept |
| `Rooms.JoinDecision` | backend/src/GameManager.ts:118-142 | "not found" exactly when no room has the id. "Full" exactly when the room with that id holds 2 or more users. A join goes to that room, which, when well formed, holds exactly one user |
| `Rooms.WithMember` | backend/src/GameManager.ts:120-130 | a join appends the socket to that room only, keeps every other room and all ids, and attaches the game if one is given. Joining a one-user room with a game keeps the rooms well formed, with exactly 2 users in it |
| `Manager.Decode` | backend/src/GameManager.ts:56-116 | a message is acted on only with a truthy `type`. INIT_GAME is always acted on. A MOVE is acted on exactly when it has `payload.move` with truthy `from` and `to`, which are passed on unchanged. A room message is acted on exactly when it has a truthy `payload.roomId`, which is passed on unchanged. Other payload fields do not matter |
| `Manager.DecodeEncode` | backend/src/GameManager.ts:56-116 | every well-formed client message passes the handler's checks and yields the command it encodes |
| `Manager.IndexOfPlayer` | backend/src/GameManager.ts:82-84 | the game found for a socket is the first one in which it is player1 or player2; there is none exactly when it plays in no game |
| `Manager.EarlierGameKeepsMoves` | backend/src/GameManager.ts:82-87 | a game appended later never takes a socket's moves away from an earlier game it plays in, because games are never removed |
| `Manager.GameManager.constructor` | backend/src/GameManager.ts:17-22 | no games, no waiting socket, no users, no rooms |
| `Manager.GameManager.AddUser` | backend/src/GameManager.ts:25-28 | the socket is appended to `users`; nothing else changes |
| `Manager.GameManager.RemoveUser` | backend/src/GameManager.ts:31-50 | the socket is in neither `users` nor any room, and `pendingUser` is no longer the socket. The rooms are exactly what the filter leaves, the games are untouched, and a socket that was in no room leaves the rooms unchanged. The room invariant is kept |
| `Manager.GameManager.HandleMessage` | backend/src/GameManager.ts:53-165 | a message that fails the checks changes no state and sends nothing. Each other message has the effect of its handler below, and every message other than MOVE leaves the state of every game that existed before it unchanged, including a room game that a join replaces. Room invariants hold after every message, and a room game is never also a random game |
| `Manager.GameManager.OnInitGame` | backend/src/GameManager.ts:61-69 | with no socket waiting, the sender waits and nothing is sent or created. Otherwise one new game is appended, with the waiting socket as player1/white and the sender as player2/black. The slot is cleared and the two colour messages are sent. No existing game changes |
| `Manager.GameManager.OnMove` | backend/src/GameManager.ts:71-160 | both MOVE blocks: the first random game the sender plays in, and then the game of the first room listing the sender, each take `Step` of the move. No other game changes, and the messages are those two steps' messages in that order |
| `Manager.GameManager.OnCreateRoom` | backend/src/GameManager.ts:91-109 | a taken id gets "Room already exists" and leaves the rooms unchanged. Otherwise the room is appended and the sender gets success with the id. No game changes |
| `Manager.GameManager.OnJoinRoom` | backend/src/GameManager.ts:112-143 | a missing id gets "Room not found" and a full room gets "Room is full", and neither changes state. Otherwise the sender is appended to that room only, which then holds 2 users. The sender gets success, and a new game starts with `users[0]` as player1/white, sending its two colour messages. No existing game changes |

## Left out

- JSON parsing, the `try`/`catch` around the handler and `console.error`: messages arrive already decoded, and a message that fails to parse is one with no `type`.
- JSON values of other types (numbers, objects) in `type`, `roomId`, `from` and `to`: these fields are strings or absent.
- Move fields other than `from`, `to` and `promotion`: they would be passed through unchanged by `...move` and are not kept.
- The WebSocket server (`backend/src/index.ts`) and the listener registration in `addHandler`: `HandleMessage` is the listener's body, called once per message, and `RemoveUser` is called on close.
- `startTime`: it is written and never read.
- Delivery of sends: `send` only records the message. A send that fails is not modelled.
- The chess rules of chess.js: legality, game over and side to move are parameters of the model, not implemented.
- `moveCount` as a JavaScript number: it is unbounded here. Precision loss beyond 2^53 moves is not modelled.
- The promotion handshake and forfeit on disconnect: they are not in the code.
- The frontend: it is presentation only.
