/**
 * One game between two sockets: the colour assignment sent on creation and
 * `makeMove`, which enforces the turn by the parity of `moveCount`, asks the
 * engine to play the move, broadcasts it and announces the end of the game.
 */
module Games {
  import opened Messages
  import opened Chess
  import opened Network
  import opened Seqs

  /** The part of a game that `makeMove` changes. */
  datatype GameState = GameState(board: Board, moveCount: nat)

  /** The game state after a call, and the messages the call sent, in order. */
  datatype Outcome = Outcome(state: GameState, sent: seq<Envelope>)

  /** One `makeMove(socket, move)` call. */
  datatype Attempt = Attempt(socket: Socket, move: Move)

  const Initial: GameState := GameState(StartBoard, 0)

  /** The same message to player1, then to player2. */
  function Broadcast(p1: Socket, p2: Socket, msg: Outbound): seq<Envelope>
  {
    [Envelope(p1, msg), Envelope(p2, msg)]
  }

  /** The colour assignment a new game sends. */
  function Opening(p1: Socket, p2: Socket): seq<Envelope>
  {
    [Envelope(p1, InitGame("white")), Envelope(p2, InitGame("black"))]
  }

  /** The only socket allowed to move: player1 when `moveCount` is even, player2 when odd. */
  function TurnHolder(p1: Socket, p2: Socket, moveCount: nat): Socket
  {
    if moveCount % 2 == 0 then p1 else p2
  }

  /** The `color` field of a move broadcast. */
  function ColourTag(moveCount: nat): string
  {
    if moveCount % 2 == 0 then "w" else "b"
  }

  /** The `winner` field of GAME_OVER: the side that is not to move, even after a draw. */
  function WinnerName(toMove: Colour): string
  {
    if toMove == White then "Black" else "White"
  }

  /** The move passes the turn check and the engine plays it. */
  predicate Accepts(rules: Rules, p1: Socket, p2: Socket, st: GameState, a: Attempt)
  {
    a.socket == TurnHolder(p1, p2, st.moveCount) && rules.legal(st.board, a.move)
  }

  /** `makeMove` on a game in state `st`. */
  function Step(rules: Rules, p1: Socket, p2: Socket, st: GameState, a: Attempt): (o: Outcome)
    // a move out of turn, or one the engine rejects, changes nothing and sends nothing
    ensures !Accepts(rules, p1, p2, st, a) <==> o == Outcome(st, [])
    // an accepted move is played on the board and sent identically to player1 then player2,
    // coloured by the parity of moveCount before the move
    ensures Accepts(rules, p1, p2, st, a) ==>
              && o.state.board == st.board + [a.move]
              && |o.sent| >= 2
              && o.sent[..2] == Broadcast(p1, p2, MoveMade(a.move, ColourTag(st.moveCount)))
    // moveCount goes up by one exactly when the game goes on
    ensures Accepts(rules, p1, p2, st, a) ==>
              (o.state.moveCount == st.moveCount + 1 <==> !rules.isGameOver(o.state.board))
    // when it goes on, the turn passes to the other player and nothing else is sent
    ensures Accepts(rules, p1, p2, st, a) && !rules.isGameOver(o.state.board) ==>
              |o.sent| == 2 && (p1 != p2 ==> TurnHolder(p1, p2, o.state.moveCount) != a.socket)
    // when it is over, both players hear who won, moveCount stays put, and the mover keeps the turn
    ensures Accepts(rules, p1, p2, st, a) && rules.isGameOver(o.state.board) ==>
              && o.state.moveCount == st.moveCount
              && o.sent[2..] == Broadcast(p1, p2, GameOver(WinnerName(rules.turn(o.state.board))))
              && TurnHolder(p1, p2, o.state.moveCount) == a.socket
    ensures st.moveCount <= o.state.moveCount
    ensures st.moveCount <= |st.board| ==> o.state.moveCount <= |o.state.board|
    ensures forall k :: 0 <= k < |o.sent| ==> o.sent[k].to == p1 || o.sent[k].to == p2
  {
    if a.socket != TurnHolder(p1, p2, st.moveCount) then Outcome(st, [])
    else if !rules.legal(st.board, a.move) then Outcome(st, [])
    else
      var board := st.board + [a.move];
      var moved := Broadcast(p1, p2, MoveMade(a.move, ColourTag(st.moveCount)));
      if rules.isGameOver(board) then
        Outcome(GameState(board, st.moveCount), moved + Broadcast(p1, p2, GameOver(WinnerName(rules.turn(board)))))
      else
        Outcome(GameState(board, st.moveCount + 1), moved)
  }

  /** A sequence of `makeMove` calls on one game, from state `st`. */
  function Run(rules: Rules, p1: Socket, p2: Socket, st: GameState, attempts: seq<Attempt>): (o: Outcome)
    ensures st.moveCount <= o.state.moveCount
    ensures st.board <= o.state.board
    ensures st.moveCount <= |st.board| ==> o.state.moveCount <= |o.state.board|
    ensures forall k :: 0 <= k < |o.sent| ==> o.sent[k].to == p1 || o.sent[k].to == p2
    decreases |attempts|
  {
    if attempts == [] then Outcome(st, [])
    else
      var first := Step(rules, p1, p2, st, attempts[0]);
      var rest := Run(rules, p1, p2, first.state, attempts[1..]);
      Outcome(rest.state, first.sent + rest.sent)
  }

  /** `out` is a series of broadcasts: pairs of one message to player1, then the same to player2. */
  predicate Paired(out: seq<Envelope>, p1: Socket, p2: Socket)
    decreases |out|
  {
    if |out| < 2 then out == []
    else out[..2] == Broadcast(p1, p2, out[0].msg) && Paired(out[2..], p1, p2)
  }

  lemma {:induction false} PairedConcat(a: seq<Envelope>, b: seq<Envelope>, p1: Socket, p2: Socket)
    requires Paired(a, p1, p2) && Paired(b, p1, p2)
    ensures Paired(a + b, p1, p2)
    decreases |a|
  {
    if a == [] {
      assert a + b == b;
    } else {
      assert (a + b)[..2] == a[..2];
      assert (a + b)[2..] == a[2..] + b;
      PairedConcat(a[2..], b, p1, p2);
    }
  }

  lemma BroadcastPaired(p1: Socket, p2: Socket, msg: Outbound)
    ensures Paired(Broadcast(p1, p2, msg), p1, p2)
  {
  }

  /** Whatever a sequence of moves does, both players receive the same messages in the same order. */
  lemma {:induction false} RunIsPaired(rules: Rules, p1: Socket, p2: Socket, st: GameState, attempts: seq<Attempt>)
    ensures Paired(Run(rules, p1, p2, st, attempts).sent, p1, p2)
    decreases |attempts|
  {
    if attempts != [] {
      var first := Step(rules, p1, p2, st, attempts[0]);
      var board := st.board + [attempts[0].move];
      if Accepts(rules, p1, p2, st, attempts[0]) {
        var moved := MoveMade(attempts[0].move, ColourTag(st.moveCount));
        BroadcastPaired(p1, p2, moved);
        if rules.isGameOver(board) {
          BroadcastPaired(p1, p2, GameOver(WinnerName(rules.turn(board))));
          PairedConcat(Broadcast(p1, p2, moved), Broadcast(p1, p2, GameOver(WinnerName(rules.turn(board)))), p1, p2);
        }
      }
      RunIsPaired(rules, p1, p2, first.state, attempts[1..]);
      PairedConcat(first.sent, Run(rules, p1, p2, first.state, attempts[1..]).sent, p1, p2);
    }
  }

  predicate IsMoveBroadcast(e: Envelope) { e.msg.MoveMade? }

  predicate IsGameOverNotice(e: Envelope) { e.msg.GameOver? }

  lemma CountBroadcast(p1: Socket, p2: Socket, msg: Outbound, p: Envelope -> bool)
    requires p(Envelope(p1, msg)) == p(Envelope(p2, msg))
    ensures Count(Broadcast(p1, p2, msg), p) == if p(Envelope(p1, msg)) then 2 else 0
  {
  }

  /** The bookkeeping of one `makeMove`, counted in messages. */
  lemma StepAccounting(rules: Rules, p1: Socket, p2: Socket, st: GameState, a: Attempt)
    ensures var o := Step(rules, p1, p2, st, a);
            && Count(o.sent, IsMoveBroadcast) == 2 * (|o.state.board| - |st.board|)
            && Count(o.sent, IsGameOverNotice) == 2 * ((|o.state.board| - o.state.moveCount) - (|st.board| - st.moveCount))
  {
    if Accepts(rules, p1, p2, st, a) {
      var board := st.board + [a.move];
      var moved := MoveMade(a.move, ColourTag(st.moveCount));
      CountBroadcast(p1, p2, moved, IsMoveBroadcast);
      CountBroadcast(p1, p2, moved, IsGameOverNotice);
      if rules.isGameOver(board) {
        var over := GameOver(WinnerName(rules.turn(board)));
        CountBroadcast(p1, p2, over, IsMoveBroadcast);
        CountBroadcast(p1, p2, over, IsGameOverNotice);
        CountConcat(Broadcast(p1, p2, moved), Broadcast(p1, p2, over), IsMoveBroadcast);
        CountConcat(Broadcast(p1, p2, moved), Broadcast(p1, p2, over), IsGameOverNotice);
      }
    }
  }

  /**
   * Over any sequence of moves, each accepted move is broadcast once to each
   * player, and moveCount falls behind the number of accepted moves by exactly
   * the number of games-over announced: the game-ending move is never counted.
   */
  lemma {:induction false} RunAccounting(rules: Rules, p1: Socket, p2: Socket, st: GameState, attempts: seq<Attempt>)
    ensures var o := Run(rules, p1, p2, st, attempts);
            && Count(o.sent, IsMoveBroadcast) == 2 * (|o.state.board| - |st.board|)
            && Count(o.sent, IsGameOverNotice) == 2 * ((|o.state.board| - o.state.moveCount) - (|st.board| - st.moveCount))
    decreases |attempts|
  {
    if attempts != [] {
      var first := Step(rules, p1, p2, st, attempts[0]);
      var rest := Run(rules, p1, p2, first.state, attempts[1..]);
      StepAccounting(rules, p1, p2, st, attempts[0]);
      RunAccounting(rules, p1, p2, first.state, attempts[1..]);
      CountConcat(first.sent, rest.sent, IsMoveBroadcast);
      CountConcat(first.sent, rest.sent, IsGameOverNotice);
    }
  }

  /** `class Game`: two players, a chess.js board and the move counter. */
  class Game {
    const player1: Socket
    const player2: Socket
    const rules: Rules
    var board: Board
    var moveCount: nat

    function State(): GameState
      reads this
    {
      GameState(board, moveCount)
    }

    /** `new Game(player1, player2)`: a fresh board, and each player told its colour. */
    constructor (player1: Socket, player2: Socket, rules: Rules, net: Outbox)
      modifies net
      ensures this.player1 == player1 && this.player2 == player2 && this.rules == rules
      ensures State() == Initial
      ensures net.sent == old(net.sent) + Opening(player1, player2)
    {
      this.player1 := player1;
      this.player2 := player2;
      this.rules := rules;
      board := StartBoard;
      moveCount := 0;
      new;
      net.Send(player1, InitGame("white"));
      net.Send(player2, InitGame("black"));
    }

    /** `makeMove(socket, move)` */
    method MakeMove(socket: Socket, move: Move, net: Outbox)
      modifies this, net
      ensures var o := Step(rules, player1, player2, old(State()), Attempt(socket, move));
              State() == o.state && net.sent == old(net.sent) + o.sent
    {
      if moveCount % 2 == 0 && socket != player1 {
        return;
      }
      if moveCount % 2 == 1 && socket != player2 {
        return;
      }
      if !rules.legal(board, move) {
        return;
      }
      board := board + [move];
      var details := MoveMade(move, if moveCount % 2 == 0 then "w" else "b");
      net.Send(player1, details);
      net.Send(player2, details);
      if rules.isGameOver(board) {
        var winner := if rules.turn(board) == White then "Black" else "White";
        net.Send(player1, GameOver(winner));
        net.Send(player2, GameOver(winner));
        return;
      }
      moveCount := moveCount + 1;
    }
  }
}
