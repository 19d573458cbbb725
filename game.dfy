/**
 * The game object `CheckersGame` of `www/game.js` and of `game.js`: its
 * fields, updated in place by its methods.  Every state-changing method is
 * proved to leave the fields as the matching transition of module `Rules`
 * says, so the lemmas proved there hold of the object.
 *
 * The board is a value (`copyBoard` deep-copies it, so assigning a copy back
 * restores it); the in-place writes `board[r][c] = …` are `Put`s on the
 * field.
 */
module Play {
  import opened Wrappers
  import opened Boards
  import opened Moves
  import opened Sides
  import opened Search
  import Rules

  class CheckersGame {
    /** `'www/game.js'` or `'game.js'`: the two files differ in soufflée, depths and move ordering. */
    const edition: Rules.Edition
    /** The options `startGame` reads from the welcome screen. */
    const gameMode: Rules.GameMode
    const aiDifficulty: Rules.Difficulty
    const mandatoryCapture: bool
    const souffleeRule: bool
    /** `evaluateBoard()`: the score of a position for white. */
    const evaluate: Board -> real

    var board: Board
    var currentPlayer: Color
    var selectedPiece: Option<Square>
    var validMoves: seq<Move>
    var captureSequence: bool
    var capturedPieces: Rules.Tally
    var mustCapture: seq<MoveData>
    var pieceThatMustCapture: Option<Square>
    var gameOver: bool
    /** The winner `endGame` announced. */
    var winner: Option<Color>
    /** The square the running 4-second timer watches. */
    var captureTimer: Option<Square>
    /** A `playAI` call whose deferred body has not yet run. */
    var aiPending: bool

    function Cfg(): Rules.Config {
      Rules.Config(edition, gameMode, aiDifficulty, mandatoryCapture, souffleeRule)
    }

    /** The fields as one value. */
    function Snapshot(): Rules.State
      reads this
    {
      Rules.State(board, currentPlayer, selectedPiece, validMoves, captureSequence, capturedPieces,
        mustCapture, pieceThatMustCapture, gameOver, winner, captureTimer, aiPending)
    }

    /** `constructor`, then `startGame` with the chosen options, then `init` and `createBoard`. */
    constructor (edition: Rules.Edition, gameMode: Rules.GameMode, aiDifficulty: Rules.Difficulty,
      mandatoryCapture: bool, souffleeRule: bool, evaluate: Board -> real)
      ensures Cfg() == Rules.Config(edition, gameMode, aiDifficulty, mandatoryCapture, souffleeRule)
      ensures this.evaluate == evaluate
      ensures IsInitial(board)
      ensures Snapshot() == Rules.State(board, Black, None, [], false, Rules.Tally(0, 0), [], None, false, None, None, false)
      ensures Rules.CapturesInSync(Snapshot())
    {
      this.edition := edition;
      this.gameMode := gameMode;
      this.aiDifficulty := aiDifficulty;
      this.mandatoryCapture := mandatoryCapture;
      this.souffleeRule := souffleeRule;
      this.evaluate := evaluate;
      currentPlayer := Black;
      selectedPiece := None;
      validMoves := [];
      captureSequence := false;
      capturedPieces := Rules.Tally(0, 0);
      mustCapture := [];
      gameOver := false;
      pieceThatMustCapture := None;
      winner := None;
      captureTimer := None;
      aiPending := false;
      new;
      board := CreateBoard();
      OpeningNoCaptures(board);
    }

    // ---------------------------------------------------------------- clicks

    /** `handleCellClick(row, col)` */
    method HandleCellClick(row: int, col: int)
      modifies this
      ensures Snapshot() == Rules.HandleCellClick(Cfg(), old(Snapshot()), Square(row, col))
    {
      if gameOver {
        return;
      }
      if gameMode == Rules.Ai && currentPlayer == White {
        return;
      }
      var sq := Square(row, col);
      var piece := At(board, sq);
      if captureSequence {
        var move := Rules.FindMove(validMoves, sq);
        if move.Some? {
          StopCaptureTimer();
          ExecuteMove(move.value);
        }
        return;
      }
      if piece.Some? && piece.value.color == currentPlayer {
        if mandatoryCapture && |mustCapture| > 0 && !souffleeRule {
          var canCapture := Rules.HasFrom(mustCapture, sq);
          if !canCapture {
            return;
          }
        }
        SelectPiece(row, col);
      } else if selectedPiece.Some? {
        var move := Rules.FindMove(validMoves, sq);
        if move.Some? {
          if edition == Rules.Web && souffleeRule && |mustCapture| > 0 && !move.value.Capture? {
            WebSoufflee(move.value);
            return;
          }
          if edition == Rules.Classic && souffleeRule && pieceThatMustCapture.Some? && |mustCapture| > 0 &&
            !move.value.Capture?
          {
            ClassicSoufflee(move.value);
            return;
          }
          ExecuteMove(move.value);
        }
      }
    }

    /** The soufflée branch of `handleCellClick` in `www/game.js`. */
    method WebSoufflee(move: Move)
      requires selectedPiece.Some?
      modifies this
      ensures Snapshot() == Rules.WebSoufflee(Cfg(), old(Snapshot()), move)
    {
      ghost var s0 := Snapshot();
      var moved := selectedPiece.value;
      var movedPieceCouldCapture := Rules.HasFrom(mustCapture, moved);
      var otherPieceToSoufflee := FindOtherPieceToSoufflee(moved);
      ExecuteMoveWithoutSwitch(move);
      ghost var s1 := Snapshot();
      assert s1 == Rules.ExecuteMoveWithoutSwitch(s0, move);
      if otherPieceToSoufflee.Some? {
        ApplySouffleeRule(otherPieceToSoufflee.value.row, otherPieceToSoufflee.value.col);
        assert Snapshot() == Rules.ApplySouffleeRule(Cfg(), s1, otherPieceToSoufflee.value);
      } else if movedPieceCouldCapture {
        ApplySouffleeRule(move.to.row, move.to.col);
        assert Snapshot() == Rules.ApplySouffleeRule(Cfg(), s1, move.to);
      } else {
        SwitchPlayer();
        assert Snapshot() == Rules.SwitchPlayer(Cfg(), s1);
      }
    }

    /** The soufflée branch of `handleCellClick` in `game.js`. */
    method ClassicSoufflee(move: Move)
      requires pieceThatMustCapture.Some?
      modifies this
      ensures Snapshot() == Rules.ClassicSoufflee(Cfg(), old(Snapshot()), move)
    {
      ghost var s0 := Snapshot();
      var soufflee := pieceThatMustCapture.value;
      ExecuteMoveWithoutSwitch(move);
      ghost var s1 := Snapshot();
      assert s1 == Rules.ExecuteMoveWithoutSwitch(s0, move);
      if At(board, soufflee).Some? {
        ApplySouffleeRule(soufflee.row, soufflee.col);
        assert Snapshot() == Rules.ApplySouffleeRule(Cfg(), s1, soufflee);
      } else {
        SwitchPlayer();
        assert Snapshot() == Rules.SwitchPlayer(Cfg(), s1);
      }
    }

    /** `findOtherPieceToSoufflee(movedPieceRow, movedPieceCol)` */
    method FindOtherPieceToSoufflee(moved: Square) returns (r: Option<Square>)
      ensures r == Rules.FirstOther(mustCapture, moved)
    {
      var i := 0;
      while i < |mustCapture|
        invariant 0 <= i <= |mustCapture|
        invariant forall j :: 0 <= j < i ==> mustCapture[j].from == moved
        invariant Rules.FirstOther(mustCapture[i..], moved) == Rules.FirstOther(mustCapture, moved)
      {
        assert mustCapture[i..][0] == mustCapture[i];
        assert mustCapture[i..][1..] == mustCapture[i + 1..];
        if mustCapture[i].from == moved {
          i := i + 1;
          continue;
        }
        return Some(mustCapture[i].from);
      }
      return None;
    }

    /** `applySouffleeRule(row, col)`, with its 1000 ms deferred body taken as one step. */
    method ApplySouffleeRule(row: int, col: int)
      modifies this
      ensures Snapshot() == Rules.ApplySouffleeRule(Cfg(), old(Snapshot()), Square(row, col))
    {
      ghost var s0 := Snapshot();
      var sq := Square(row, col);
      var piece := At(board, sq);
      if piece.None? {
        return;
      }
      board := Put(board, sq, None);
      capturedPieces := Rules.Bump(capturedPieces, piece.value.color);
      pieceThatMustCapture := None;
      ghost var s1 := Snapshot();
      assert s1 == s0.(board := Put(s0.board, sq, None), capturedPieces := Rules.Bump(s0.capturedPieces, piece.value.color),
        pieceThatMustCapture := None);
      CheckGameOver();
      ghost var s2 := Snapshot();
      assert s2 == Rules.CheckGameOver(s1);
      if !gameOver {
        SwitchPlayer();
        assert Snapshot() == Rules.SwitchPlayer(Cfg(), s2);
      }
    }

    /** `selectPiece(row, col)` */
    method SelectPiece(row: int, col: int)
      modifies this
      ensures Snapshot() == Rules.SelectPiece(Cfg(), old(Snapshot()), Square(row, col))
    {
      selectedPiece := Some(Square(row, col));
      validMoves := GetValidMovesForSoufflee(row, col);
    }

    /** `getValidMovesForSoufflee(row, col)` */
    method GetValidMovesForSoufflee(row: int, col: int) returns (r: seq<Move>)
      ensures r == Rules.ValidMovesForSoufflee(Cfg(), board, mustCapture, Square(row, col))
    {
      var piece := At(board, Square(row, col));
      if piece.None? {
        return [];
      }
      var moves, captures := GetPieceMoves(board, row, col, piece.value);
      if souffleeRule {
        return captures + moves;
      }
      if mandatoryCapture && |captures| > 0 {
        return captures;
      }
      if mandatoryCapture && |mustCapture| > 0 {
        var thisCanCapture := |captures| > 0;
        if !thisCanCapture {
          return [];
        }
      }
      r := if |captures| > 0 then captures else moves;
    }

    /** `getValidMoves(row, col)` */
    method GetValidMoves(row: int, col: int) returns (r: seq<Move>)
      ensures r == ValidMoves(board, Square(row, col), mandatoryCapture)
    {
      var piece := At(board, Square(row, col));
      if piece.None? {
        return [];
      }
      var moves, captures := GetPieceMoves(board, row, col, piece.value);
      if mandatoryCapture && |captures| > 0 {
        return captures;
      }
      r := if |captures| > 0 then captures else moves;
    }

    // ---------------------------------------------------------------- moving

    /**
     * `executeMove(move)`.  Without a selected piece the source fails on its
     * first line, and with an empty captured square when it reads that
     * piece's colour; the model stops at the same points.
     */
    method ExecuteMove(move: Move)
      modifies this
      ensures Snapshot() == Rules.ExecuteMove(Cfg(), old(Snapshot()), move)
    {
      ghost var s0 := Snapshot();
      if selectedPiece.None? {
        return;
      }
      var from := selectedPiece.value;
      var piece := At(board, from);
      board := Put(board, move.to, piece);
      board := Put(board, from, None);
      ghost var b1 := board;
      assert b1 == Rules.Shift(s0.board, from, move);
      if move.Capture? {
        var capturedPiece := At(board, move.captured);
        if capturedPiece.None? {
          assert Snapshot() == s0.(board := b1);
          return;
        }
        board := Put(board, move.captured, None);
        capturedPieces := Rules.Bump(capturedPieces, capturedPiece.value.color);
        selectedPiece := Some(move.to);
        CheckPromotion(move.to.row, move.to.col);
        ghost var s1 := Snapshot();
        assert s1 == s0.(board := Sides.CheckPromotion(Put(b1, move.captured, None), move.to),
          capturedPieces := Rules.Bump(s0.capturedPieces, capturedPiece.value.color), selectedPiece := Some(move.to));
        ContinueCapture(move.to);
        assert Snapshot() == Rules.ContinueCapture(Cfg(), s1, move.to);
        return;
      }
      ghost var s1 := Snapshot();
      assert s1 == s0.(board := b1);
      FinishTurn(move.to);
      assert Snapshot() == Rules.EndTurn(Cfg(), s1, move.to);
    }

    /** The capture branch of `executeMove(move)` from the search for further captures on. */
    method ContinueCapture(to: Square)
      modifies this
      ensures Snapshot() == Rules.ContinueCapture(Cfg(), old(Snapshot()), to)
    {
      var valid := GetValidMoves(to.row, to.col);
      var additionalCaptures := Rules.CapturesIn(valid);
      if |additionalCaptures| > 0 {
        captureSequence := true;
        validMoves := additionalCaptures;
        if souffleeRule {
          StartCaptureTimer(to.row, to.col);
        }
        return;
      }
      FinishTurn(to);
    }

    /** The last lines of `executeMove(move)`: the turn ends. */
    method FinishTurn(to: Square)
      modifies this
      ensures Snapshot() == Rules.EndTurn(Cfg(), old(Snapshot()), to)
    {
      captureSequence := false;
      pieceThatMustCapture := None;
      CheckPromotion(to.row, to.col);
      selectedPiece := None;
      validMoves := [];
      ghost var s1 := Snapshot();
      assert s1 == old(Snapshot()).(captureSequence := false, pieceThatMustCapture := None,
        board := Sides.CheckPromotion(old(board), to), selectedPiece := None, validMoves := []);
      SwitchPlayer();
      assert Snapshot() == Rules.SwitchPlayer(Cfg(), s1);
    }

    /** `executeMoveWithoutSwitch(move)` */
    method ExecuteMoveWithoutSwitch(move: Move)
      modifies this
      ensures Snapshot() == Rules.ExecuteMoveWithoutSwitch(old(Snapshot()), move)
    {
      if selectedPiece.None? {
        return;
      }
      var from := selectedPiece.value;
      var piece := At(board, from);
      board := Put(board, move.to, piece);
      board := Put(board, from, None);
      assert board == Rules.Shift(old(board), from, move);
      CheckPromotion(move.to.row, move.to.col);
      captureSequence := false;
      selectedPiece := None;
      validMoves := [];
    }

    /** `checkPromotion(row, col)` */
    method CheckPromotion(row: int, col: int)
      modifies this`board
      ensures board == Sides.CheckPromotion(old(board), Square(row, col))
    {
      var sq := Square(row, col);
      var piece := At(board, sq);
      if piece.None? || piece.value.isKing {
        return;
      }
      if (piece.value.color == Black && row == BoardSize - 1) || (piece.value.color == White && row == 0) {
        board := Put(board, sq, Some(Piece(piece.value.color, true)));
      }
    }

    // ---------------------------------------------------------------- the timer

    /** `startCaptureTimer(pieceRow, pieceCol)` */
    method StartCaptureTimer(row: int, col: int)
      modifies this`captureTimer
      ensures captureTimer == Some(Square(row, col))
    {
      captureTimer := Some(Square(row, col));
    }

    /** `stopCaptureTimer()` */
    method StopCaptureTimer()
      modifies this`captureTimer
      ensures captureTimer.None?
    {
      if captureTimer.Some? {
        captureTimer := None;
      }
    }

    /** The running timer fires: its handle is spent, then `handleTimerExpired` runs. */
    method Timeout()
      modifies this
      ensures Snapshot() == Rules.Timeout(Cfg(), old(Snapshot()))
    {
      if captureTimer.None? {
        return;
      }
      var sq := captureTimer.value;
      captureTimer := None;
      ghost var s1 := Snapshot();
      HandleTimerExpired(sq.row, sq.col);
      assert Snapshot() == Rules.HandleTimerExpired(Cfg(), s1, sq);
    }

    /** `handleTimerExpired(pieceRow, pieceCol)`, with its 1000 ms deferred body taken as one step. */
    method HandleTimerExpired(row: int, col: int)
      modifies this
      ensures Snapshot() == Rules.HandleTimerExpired(Cfg(), old(Snapshot()), Square(row, col))
    {
      ghost var s0 := Snapshot();
      var sq := Square(row, col);
      var piece := At(board, sq);
      if piece.None? {
        return;
      }
      board := Put(board, sq, None);
      capturedPieces := Rules.Bump(capturedPieces, piece.value.color);
      captureSequence := false;
      selectedPiece := None;
      validMoves := [];
      pieceThatMustCapture := None;
      ghost var s1 := Snapshot();
      assert s1 == s0.(board := Put(s0.board, sq, None), capturedPieces := Rules.Bump(s0.capturedPieces, piece.value.color),
        captureSequence := false, selectedPiece := None, validMoves := [], pieceThatMustCapture := None);
      CheckGameOver();
      ghost var s2 := Snapshot();
      assert s2 == Rules.CheckGameOver(s1);
      if !gameOver {
        SwitchPlayer();
        assert Snapshot() == Rules.SwitchPlayer(Cfg(), s2);
      }
    }

    // ---------------------------------------------------------------- turns

    /** `switchPlayer()`; the call to `playAI` schedules the computer's move. */
    method SwitchPlayer()
      modifies this
      ensures Snapshot() == Rules.SwitchPlayer(Cfg(), old(Snapshot()))
    {
      ghost var s := Snapshot();
      PassTurn();
      ghost var s1 := Snapshot();
      assert s1 == Rules.PassTurn(Cfg(), s);
      CheckGameOver();
      assert Snapshot() == Rules.CheckGameOver(s1);
      if !gameOver && gameMode == Rules.Ai && currentPlayer == White {
        aiPending := true;
      }
    }

    /** The first lines of `switchPlayer()`, up to the soufflée bookkeeping. */
    method PassTurn()
      modifies this
      ensures Snapshot() == Rules.PassTurn(Cfg(), old(Snapshot()))
    {
      currentPlayer := Opponent(currentPlayer);
      mustCapture := CalculateMustCapture(board, currentPlayer);
      if souffleeRule && |mustCapture| > 0 {
        pieceThatMustCapture := Some(mustCapture[0].from);
      } else {
        pieceThatMustCapture := None;
      }
    }

    /** `checkGameOver()` */
    method CheckGameOver()
      modifies this
      ensures Snapshot() == Rules.CheckGameOver(old(Snapshot()))
    {
      var w := Sides.CheckGameOver(board, currentPlayer);
      if w.Some? {
        EndGame(w.value);
      }
    }

    /** `endGame(winner, description)` */
    method EndGame(w: Color)
      modifies this
      ensures Snapshot() == old(Snapshot()).(gameOver := true, winner := Some(w), captureTimer := None)
    {
      gameOver := true;
      winner := Some(w);
      StopCaptureTimer();
    }

    /** `doRestart()` in `www/game.js`, `restart()` in `game.js`. */
    method Restart()
      modifies this
      ensures IsInitial(board)
      ensures Snapshot() == Rules.Restart(old(Snapshot()), board)
    {
      var b := CreateBoard();
      // the state the restart leads to, taken while the fields still hold the old one
      ghost var target := Rules.Restart(Snapshot(), b);
      StopCaptureTimer();
      currentPlayer, selectedPiece, validMoves, captureSequence := Black, None, [], false;
      capturedPieces, mustCapture, pieceThatMustCapture := Rules.Tally(0, 0), [], None;
      gameOver, winner := false, None;
      board := b;
      assert Snapshot() == target;
    }

    /** `backToMenu()` */
    method BackToMenu()
      modifies this
      ensures Snapshot() == Rules.BackToMenu(old(Snapshot()))
    {
      StopCaptureTimer();
      gameOver := false;
    }

    /** `startGame()` from the welcome screen after `backToMenu`: `init` runs `createBoard` and nothing more. */
    method StartGame()
      modifies this
      ensures IsInitial(board)
      ensures Snapshot() == Rules.StartGame(old(Snapshot()), board)
    {
      board := CreateBoard();
    }

    // ---------------------------------------------------------------- the computer

    /** The deferred body of `playAI()`; `pick` stands for the random draws of the easy level. */
    method PlayAI(pick: nat)
      modifies this
      ensures Snapshot() == Rules.PlayAI(Cfg(), old(Snapshot()), evaluate, pick)
    {
      if !aiPending {
        return;
      }
      aiPending := false;
      var move := GetBestMove(pick);
      if move.Some? {
        ExecuteAIMove(move.value);
      }
    }

    /** `executeAIMove(moveData)` */
    method ExecuteAIMove(moveData: MoveData)
      modifies this
      ensures Snapshot() == Rules.ExecuteMove(Cfg(), old(Snapshot()).(selectedPiece := Some(moveData.from)), moveData.move)
    {
      selectedPiece := Some(moveData.from);
      ExecuteMove(moveData.move);
    }

    /**
     * `getBestMove()`: the board is searched in place and restored after each
     * move, so it ends as it began.
     */
    method GetBestMove(pick: nat) returns (r: Option<MoveData>)
      modifies this`board
      ensures board == old(board)
      ensures r == Rules.BestMove(Cfg(), board, evaluate, pick)
    {
      var depth := Rules.SearchDepth(Cfg());
      var moves := GetAllMoves(board, White, mandatoryCapture);
      if |moves| == 0 {
        return None;
      }
      if aiDifficulty == Rules.Easy {
        var captures := CapturesOf(moves);
        if |captures| > 0 {
          return Some(captures[pick % |captures|]);
        }
        return Some(moves[pick % |moves|]);
      }
      var sortedMoves := Rules.RootOrder(Cfg(), moves);
      Rules.GameEngineFaithful(evaluate);
      r := SearchRoot(Rules.GameEngine(evaluate), sortedMoves, depth - 1);
    }

    /** The root loop of `getBestMove`: keep the first move of strictly best score. */
    method SearchRoot(ghost e: Search.Engine, sortedMoves: seq<MoveData>, d: nat) returns (bestMove: Option<MoveData>)
      requires Rules.Faithful(e, evaluate) && sortedMoves != []
      modifies this`board
      ensures board == old(board)
      ensures bestMove == RootChoice(e, board, sortedMoves, d, true)
    {
      bestMove := None;
      var bestScore: Ext := NegInf;
      for i := 0 to |sortedMoves|
        invariant board == old(board)
        invariant i == 0 ==> bestMove.None? && bestScore == RootStart(true)
        invariant i > 0 ==> RootStep(e, board, sortedMoves, d, true, i, bestMove, bestScore)
      {
        var boardCopy := board;
        SimulateMove(sortedMoves[i]);
        var score := Minimax(e, d, NegInf, PosInf, false);
        board := boardCopy;
        RootLoopStep(e, board, sortedMoves, d, true, i, bestMove, bestScore, score);
        if Lt(bestScore, Fin(score)) {
          bestScore := Fin(score);
          bestMove := Some(sortedMoves[i]);
        }
      }
      RootLoopDone(e, board, sortedMoves, d, true, bestMove, bestScore);
    }

    /**
     * `minimax(depth, alpha, beta, isMaximizing)` on the game's own board,
     * restored afterwards; `e` is the game's engine.
     */
    method Minimax(ghost e: Search.Engine, depth: nat, alpha: Ext, beta: Ext, isMaximizing: bool) returns (score: real)
      requires Rules.Faithful(e, evaluate)
      modifies this`board
      ensures board == old(board)
      ensures score == AlphaBeta(e, board, depth, alpha, beta, isMaximizing)
      decreases depth, 1
    {
      var color := if isMaximizing then White else Black;
      if depth == 0 {
        AlphaBetaLevel(e, board, depth, alpha, beta, isMaximizing, e.moves(board, color));
        return evaluate(board);
      }
      var moves := GetAllMoves(board, color, mandatoryCapture);
      AlphaBetaLevel(e, board, depth, alpha, beta, isMaximizing, moves);
      if |moves| == 0 {
        return if isMaximizing then -1000.0 else 1000.0;
      }
      if isMaximizing {
        score := MaxSearch(e, moves, depth, alpha, beta);
      } else {
        score := MinSearch(e, moves, depth, alpha, beta);
      }
    }

    /** The maximising branch of `minimax`: the loop over white's `moves` with its beta cut-off. */
    method MaxSearch(ghost e: Search.Engine, moves: seq<MoveData>, depth: nat, alpha: Ext, beta: Ext) returns (score: real)
      requires Rules.Faithful(e, evaluate)
      requires depth > 0 && moves != [] && moves == e.moves(board, White)
      modifies this`board
      ensures board == old(board)
      ensures score == MaxLoop(e, board, moves, depth - 1, 0, alpha, beta, NegInf).value
      decreases depth, 0
    {
      var maxScore: Ext := NegInf;
      var a := alpha;
      var i := 0;
      while i < |moves|
        invariant 0 <= i <= |moves| && board == old(board)
        invariant if i == 0 then maxScore == NegInf else maxScore.Fin?
        invariant MaxLoop(e, board, moves, depth - 1, i, a, beta, maxScore) == MaxLoop(e, board, moves, depth - 1, 0, alpha, beta, NegInf)
      {
        var boardCopy := board;
        SimulateMove(moves[i]);
        var s := Minimax(e, depth - 1, a, beta, false);
        board := boardCopy;
        MaxLoopStep(e, board, moves, depth - 1, i, a, beta, maxScore, s);
        maxScore := Max(maxScore, Fin(s));
        a := Max(a, Fin(s));
        if Le(beta, a) {
          break;
        }
        i := i + 1;
      }
      score := maxScore.value;
    }

    /** The minimising branch of `minimax`: the loop over black's `moves` with its alpha cut-off. */
    method MinSearch(ghost e: Search.Engine, moves: seq<MoveData>, depth: nat, alpha: Ext, beta: Ext) returns (score: real)
      requires Rules.Faithful(e, evaluate)
      requires depth > 0 && moves != [] && moves == e.moves(board, Black)
      modifies this`board
      ensures board == old(board)
      ensures score == MinLoop(e, board, moves, depth - 1, 0, alpha, beta, PosInf).value
      decreases depth, 0
    {
      var minScore: Ext := PosInf;
      var b := beta;
      var i := 0;
      while i < |moves|
        invariant 0 <= i <= |moves| && board == old(board)
        invariant if i == 0 then minScore == PosInf else minScore.Fin?
        invariant MinLoop(e, board, moves, depth - 1, i, alpha, b, minScore) == MinLoop(e, board, moves, depth - 1, 0, alpha, beta, PosInf)
      {
        var boardCopy := board;
        SimulateMove(moves[i]);
        var s := Minimax(e, depth - 1, alpha, b, true);
        board := boardCopy;
        MinLoopStep(e, board, moves, depth - 1, i, alpha, b, minScore, s);
        minScore := Min(minScore, Fin(s));
        b := Min(b, Fin(s));
        if Le(b, alpha) {
          break;
        }
        i := i + 1;
      }
      score := minScore.value;
    }

    /** `simulateMove(moveData)` */
    method SimulateMove(moveData: MoveData)
      modifies this`board
      ensures board == Apply(old(board), moveData)
    {
      var from := moveData.from;
      var move := moveData.move;
      var piece := At(board, from);
      board := Put(board, move.to, piece);
      board := Put(board, from, None);
      if move.Capture? {
        board := Put(board, move.captured, None);
      }
      if piece.Some? && !piece.value.isKing &&
        ((piece.value.color == Black && move.to.row == BoardSize - 1) || (piece.value.color == White && move.to.row == 0))
      {
        // `piece.isKing = true` crowns the object itself, which is on the board unless its square was emptied again
        if At(board, move.to).Some? {
          board := Put(board, move.to, Some(Piece(piece.value.color, true)));
        }
      }
    }
  }
}
