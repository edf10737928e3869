/**
 * The wire protocol of the relay: sockets, moves, the inbound messages as
 * they look after JSON parsing, and the outbound messages the server sends.
 */
module Messages {
  import opened Wrappers

  /** A WebSocket connection. Only its identity matters: sockets are compared with `===`. */
  type Socket = nat

  /** Message type tags shared by client and server. */
  const INIT_GAME: string := "init_game"
  const MOVE: string := "move"
  const CREATE_ROOM: string := "create_room"
  const JOIN_ROOM: string := "join_room"

  /** A move as the client sends it and as it is broadcast back. */
  datatype Move = Move(from: string, to: string, promotion: Option<string>)

  /**
   * An inbound message after `JSON.parse`. A field the client left out (or
   * set to `null`) is `None`; a message that is not an object at all is
   * `Inbound(None, None)`. Only the fields the server reads are kept.
   */
  datatype Inbound = Inbound(tag: Option<string>, payload: Option<Payload>)

  datatype Payload = Payload(move: Option<RawMove>, roomId: Option<string>)

  datatype RawMove = RawMove(from: Option<string>, to: Option<string>, promotion: Option<string>)

  /** The messages the server sends, one constructor per distinct payload shape. */
  datatype Outbound =
    | InitGame(color: string)               // INIT_GAME { color: "white" | "black" }
    | MoveMade(move: Move, color: string)   // MOVE { ...move, color: "w" | "b" }
    | GameOver(winner: string)              // GAME_OVER { winner: "Black" | "White" }
    | CreateRoomOk(roomId: string)          // CREATE_ROOM { success: true, roomId }
    | CreateRoomFailed(error: string)       // CREATE_ROOM { success: false, error }
    | JoinRoomOk(roomId: string)            // JOIN_ROOM { success: true, roomId }
    | JoinRoomFailed(error: string)         // JOIN_ROOM { success: false, error }

  /** One `socket.send`: the recipient and what it was sent. */
  datatype Envelope = Envelope(to: Socket, msg: Outbound)
}
