/**
 * The chess rules engine (chess.js), left abstract. A position is identified
 * with the moves played from the standard starting position, and the engine
 * is any triple of functions over such histories: which move is legal, whether
 * the game is over (checkmate or any draw), and which side is to move.
 */
module Chess {
  import opened Messages

  /** chess.js `Color`: "w" or "b". */
  datatype Colour = White | Black

  /** The moves accepted so far, oldest first; `[]` is `new Chess()`. */
  type Board = seq<Move>

  const StartBoard: Board := []

  /**
   * `legal(b, m)`: `board.move(m)` succeeds on `b` (otherwise it throws);
   * `isGameOver(b)`: `board.isGameOver()`; `turn(b)`: `board.turn()`.
   */
  datatype Rules = Rules(legal: (Board, Move) -> bool, isGameOver: Board -> bool, turn: Board -> Colour)
}
