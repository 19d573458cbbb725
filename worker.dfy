/**
 * The AI worker `ai-worker.js`: black's move search run off the page.  It
 * receives a snapshot of the board with the level and the capture option,
 * and answers with the move `getBestMove` picks.
 *
 * Unlike the game files it plays black (the minimising side), searches 1, 4
 * and 8 plies deep, always sorts its moves, and undoes each trial move
 * incrementally: `saveState` records the few squares a move touches,
 * `applyMove` plays it on the module-global board and `restoreState` puts
 * those squares back.
 */
module Worker {
  import opened Wrappers
  import opened Boards
  import opened Moves
  import opened Sides
  import opened Search
  import opened Ordering
  import Rules

  /** The depths of the three levels: easy 1, medium 4, expert 8. */
  function Depth(level: Rules.Difficulty): nat {
    match level
      case Easy => 1
      case Medium => 4
      case Hard => 8
  }

  /**
   * The record `saveState` returns: the two squares of the move, copies of the
   * moving piece and of the captured one (`null` when absent or for a simple
   * move), the captured square of a capture, and whether the mover was a king.
   */
  datatype SavedState = SavedState(
    from: Square, to: Square,
    movedPiece: Cell, capturedPiece: Cell, captured: Option<Square>,
    wasKing: bool)

  /** `saveState(moveData)` on the board `b`. */
  function Save(b: Board, md: MoveData): SavedState {
    var moved := At(b, md.from);
    SavedState(md.from, md.move.to,
      moved,
      if md.move.Capture? then At(b, md.move.captured) else None,
      if md.move.Capture? then Some(md.move.captured) else None,
      moved.Some? && moved.value.isKing)
  }

  /** `restoreState(state)` on the board `b`. */
  function Restore(b: Board, s: SavedState): Board {
    var back := match s.movedPiece
      case None => None
      case Some(p) => Some(Piece(p.color, s.wasKing));
    var b1 := Put(Put(b, s.from, back), s.to, None);
    if s.capturedPiece.Some? && s.captured.Some? then Put(b1, s.captured.value, s.capturedPiece) else b1
  }

  /**
   * Undo is exact: for a move `getAllMoves` can return (its destination is
   * empty and a captured square holds an enemy), playing it and then
   * restoring what was saved before gives back the board cell for cell,
   * kings uncrowned and captured pieces returned.
   */
  lemma UndoRestores(b: Board, c: Color, md: MoveData)
    requires Legal(b, c, md)
    ensures Restore(Apply(b, md), Save(b, md)) == b
  {
    ApplyCells(b, c, md);
    var r := Restore(Apply(b, md), Save(b, md));
    forall q | IsValidPosition(q)
      ensures At(r, q) == At(b, q)
    {
      if q == md.from {
        assert q != md.move.to;
      }
    }
    SameCells(r, b);
  }

  /**
   * `sortMovesByPriority(moves)`: captures first, then higher destination
   * rows (black crowns on row 9), then destinations nearer the centre column;
   * a stable sort, so moves the comparator ties keep their order.
   */
  function SortMovesByPriority(moves: seq<MoveData>): (r: seq<MoveData>)
    ensures multiset(r) == multiset(moves)
    ensures forall i, j :: 0 <= i < j < |r| && r[j].move.Capture? ==> r[i].move.Capture?
    ensures forall i, j :: 0 <= i < j < |r| && r[i].move.Capture? == r[j].move.Capture? ==>
      r[i].move.to.row >= r[j].move.to.row &&
      (r[i].move.to.row == r[j].move.to.row ==> CenterDistance(r[i].move) <= CenterDistance(r[j].move))
    ensures forall k :: WithKey(Descending, r, k) == WithKey(Descending, moves, k)
  {
    SortMovesSorted(Descending, moves);
    CapturesFirst(Descending, moves);
    forall k {
      SortMovesStable(Descending, moves, k);
    }
    SortMoves(Descending, moves)
  }

  /**
   * `getBestMove()` for black: `null` without a move; on the easy level a
   * random capture, else a random move; otherwise the first move, in the
   * sorted order, whose reply (white to move) has the smallest score.
   */
  function BestMove(level: Rules.Difficulty, b: Board, evaluate: Board -> real, pick: nat): Option<MoveData> {
    var moves := SideMoves(b, Black);
    if moves == [] then None
    else if level == Rules.Easy then EasyChoice(moves, pick)
    else RootChoice(Rules.GameEngine(evaluate), b, SortMovesByPriority(moves), Depth(level) - 1, false)
  }

  /** The root search over a reordering of `moves` picks one of them whose value is the lowest. */
  lemma SearchedLeast(e: Engine, b: Board, moves: seq<MoveData>, ordered: seq<MoveData>, d: nat)
    requires moves != [] && multiset(ordered) == multiset(moves)
    ensures RootChoice(e, b, ordered, d, false).Some?
    ensures var r := RootChoice(e, b, ordered, d, false).value;
      r in moves &&
      (forall md :: md in moves ==> Minimax(e, e.apply(b, r), d, true) <= Minimax(e, e.apply(b, md), d, true)) &&
      exists k :: 0 <= k < |ordered| && ordered[k] == r &&
        forall j :: 0 <= j < k ==> Minimax(e, e.apply(b, r), d, true) < Minimax(e, e.apply(b, ordered[j]), d, true)
  {
    assert moves[0] in multiset(moves);
    RootChoiceBest(e, b, ordered, d, false);
    var r := RootChoice(e, b, ordered, d, false).value;
    var k :| 0 <= k < |ordered| && r == ordered[k] &&
      (forall j :: 0 <= j < |ordered| ==>
        !Better(Minimax(e, e.apply(b, ordered[j]), d, true), Minimax(e, e.apply(b, ordered[k]), d, true), false)) &&
      (forall j :: 0 <= j < k ==>
        Better(Minimax(e, e.apply(b, ordered[k]), d, true), Minimax(e, e.apply(b, ordered[j]), d, true), false));
    assert r in multiset(ordered);
    forall md | md in moves
      ensures Minimax(e, e.apply(b, r), d, true) <= Minimax(e, e.apply(b, md), d, true)
    {
      assert md in multiset(ordered);
      var j :| 0 <= j < |ordered| && ordered[j] == md;
    }
  }

  /**
   * `getBestMove()`: `null` exactly when black has no move; otherwise one of
   * black's legal moves; on the easy level a capture whenever there is one;
   * on the other levels a move whose reply has the lowest minimax value, the
   * first such in the sorted order.
   */
  lemma BestMoveSpec(level: Rules.Difficulty, b: Board, evaluate: Board -> real, pick: nat)
    ensures var r := BestMove(level, b, evaluate, pick);
      var moves := SideMoves(b, Black);
      var sorted := SortMovesByPriority(moves);
      var e := Rules.GameEngine(evaluate);
      var d := Depth(level) - 1;
      (r.None? <==> moves == []) &&
      (r.Some? ==> r.value in moves && Legal(b, Black, r.value)) &&
      (r.Some? && level == Rules.Easy && (exists md :: md in moves && md.move.Capture?) ==> r.value.move.Capture?) &&
      (r.Some? && level != Rules.Easy ==>
        (forall md :: md in moves ==> Minimax(e, Apply(b, r.value), d, true) <= Minimax(e, Apply(b, md), d, true)) &&
        exists k :: 0 <= k < |sorted| && sorted[k] == r.value &&
          forall j :: 0 <= j < k ==> Minimax(e, Apply(b, r.value), d, true) < Minimax(e, Apply(b, sorted[j]), d, true))
  {
    var moves := SideMoves(b, Black);
    SideMovesLegal(b, Black);
    if moves != [] {
      if level == Rules.Easy {
        EasyChoiceLegal(moves, pick);
      } else {
        SearchedLeast(Rules.GameEngine(evaluate), b, moves, SortMovesByPriority(moves), Depth(level) - 1);
      }
    }
  }

  /** The worker's globals: the board it searches in place and the options of the last request. */
  class AIWorker {
    const aiDifficulty: Rules.Difficulty
    const mandatoryCapture: bool
    /** `evaluateBoard()`: the score of a position for white. */
    const evaluate: Board -> real

    var board: Board

    /** A `calculate` message: the globals take the request's board and options. */
    constructor (board: Board, aiDifficulty: Rules.Difficulty, mandatoryCapture: bool, evaluate: Board -> real)
      ensures this.board == board && this.aiDifficulty == aiDifficulty
      ensures this.mandatoryCapture == mandatoryCapture && this.evaluate == evaluate
    {
      this.board := board;
      this.aiDifficulty := aiDifficulty;
      this.mandatoryCapture := mandatoryCapture;
      this.evaluate := evaluate;
    }

    /**
     * `getBestMove()`: the board is searched in place and ends as it began;
     * the answer is the one `BestMove` describes.
     */
    method GetBestMove(pick: nat) returns (r: Option<MoveData>)
      modifies this`board
      ensures board == old(board)
      ensures r == BestMove(aiDifficulty, board, evaluate, pick)
    {
      var depth := Depth(aiDifficulty);
      var moves := GetAllMoves(board, Black, mandatoryCapture);
      if |moves| == 0 {
        return None;
      }
      if aiDifficulty == Rules.Easy {
        var captures := CapturesOf(moves);
        if |captures| > 0 {
          return Some(captures[pick % |captures|]);
        }
        return Some(moves[pick % |moves|]);
      }
      var sortedMoves := SortMovesByPriority(moves);
      Rules.GameEngineFaithful(evaluate);
      r := SearchRoot(Rules.GameEngine(evaluate), sortedMoves, depth - 1);
    }

    /** The root loop of `getBestMove`: keep the first move of strictly lowest score. */
    method SearchRoot(ghost e: Engine, sortedMoves: seq<MoveData>, d: nat) returns (bestMove: Option<MoveData>)
      requires Rules.Faithful(e, evaluate) && sortedMoves != []
      requires multiset(sortedMoves) == multiset(SideMoves(board, Black))
      modifies this`board
      ensures board == old(board)
      ensures bestMove == RootChoice(e, board, sortedMoves, d, false)
    {
      bestMove := None;
      var bestScore: Ext := PosInf;
      for i := 0 to |sortedMoves|
        invariant board == old(board)
        invariant i == 0 ==> bestMove.None? && bestScore == RootStart(false)
        invariant i > 0 ==> RootStep(e, board, sortedMoves, d, false, i, bestMove, bestScore)
      {
        assert sortedMoves[i] in multiset(SideMoves(board, Black));
        var score := Trial(e, Black, sortedMoves[i], d, NegInf, PosInf, true);
        RootLoopStep(e, board, sortedMoves, d, false, i, bestMove, bestScore, score);
        if Lt(Fin(score), bestScore) {
          bestScore := Fin(score);
          bestMove := Some(sortedMoves[i]);
        }
      }
      RootLoopDone(e, board, sortedMoves, d, false, bestMove, bestScore);
    }

    /**
     * One trial of a search loop: `saveState`, `applyMove`, `minimax` on the
     * child, `restoreState`.  The move is one `getAllMoves` returned for `c`,
     * so the undo gives the board back.
     */
    method Trial(ghost e: Engine, ghost c: Color, md: MoveData, depth: nat, alpha: Ext, beta: Ext, isMaximizing: bool)
      returns (score: real)
      requires Rules.Faithful(e, evaluate) && md in SideMoves(board, c)
      modifies this`board
      ensures board == old(board)
      ensures score == AlphaBeta(e, e.apply(board, md), depth, alpha, beta, isMaximizing)
      decreases depth, 2
    {
      SideMovesLegal(board, c);
      var savedState := SaveState(md);
      ApplyMove(md);
      score := Minimax(e, depth, alpha, beta, isMaximizing);
      RestoreState(savedState);
      UndoRestores(old(board), c, md);
    }

    /** `minimax(depth, alpha, beta, isMaximizing)` on the worker's board, restored afterwards. */
    method Minimax(ghost e: Engine, depth: nat, alpha: Ext, beta: Ext, isMaximizing: bool) returns (score: real)
      requires Rules.Faithful(e, evaluate)
      modifies this`board
      ensures board == old(board)
      ensures score == AlphaBeta(e, board, depth, alpha, beta, isMaximizing)
      decreases depth, 1
    {
      var color := if isMaximizing then White else Black;
      if depth == 0 {
        AlphaBetaLevel(e, board, depth, alpha, beta, isMaximizing, e.moves(board, color));
        return evaluate(board);
      }
      var moves := GetAllMoves(board, color, mandatoryCapture);
      AlphaBetaLevel(e, board, depth, alpha, beta, isMaximizing, moves);
      if |moves| == 0 {
        return if isMaximizing then -1000.0 else 1000.0;
      }
      if isMaximizing {
        score := MaxSearch(e, moves, depth, alpha, beta);
      } else {
        score := MinSearch(e, moves, depth, alpha, beta);
      }
    }

    /** The maximising branch of `minimax`: white's moves with the beta cut-off. */
    method MaxSearch(ghost e: Engine, moves: seq<MoveData>, depth: nat, alpha: Ext, beta: Ext) returns (score: real)
      requires Rules.Faithful(e, evaluate)
      requires depth > 0 && moves != [] && moves == SideMoves(board, White)
      modifies this`board
      ensures board == old(board)
      ensures score == MaxLoop(e, board, moves, depth - 1, 0, alpha, beta, NegInf).value
      decreases depth, 0
    {
      var maxScore: Ext := NegInf;
      var a := alpha;
      var i := 0;
      while i < |moves|
        invariant 0 <= i <= |moves| && board == old(board)
        invariant if i == 0 then maxScore == NegInf else maxScore.Fin?
        invariant MaxLoop(e, board, moves, depth - 1, i, a, beta, maxScore) == MaxLoop(e, board, moves, depth - 1, 0, alpha, beta, NegInf)
      {
        assert moves[i] in moves;
        var s := Trial(e, White, moves[i], depth - 1, a, beta, false);
        MaxLoopStep(e, board, moves, depth - 1, i, a, beta, maxScore, s);
        maxScore := Max(maxScore, Fin(s));
        a := Max(a, Fin(s));
        if Le(beta, a) {
          break;
        }
        i := i + 1;
      }
      score := maxScore.value;
    }

    /** The minimising branch of `minimax`: black's moves with the alpha cut-off. */
    method MinSearch(ghost e: Engine, moves: seq<MoveData>, depth: nat, alpha: Ext, beta: Ext) returns (score: real)
      requires Rules.Faithful(e, evaluate)
      requires depth > 0 && moves != [] && moves == SideMoves(board, Black)
      modifies this`board
      ensures board == old(board)
      ensures score == MinLoop(e, board, moves, depth - 1, 0, alpha, beta, PosInf).value
      decreases depth, 0
    {
      var minScore: Ext := PosInf;
      var b := beta;
      var i := 0;
      while i < |moves|
        invariant 0 <= i <= |moves| && board == old(board)
        invariant if i == 0 then minScore == PosInf else minScore.Fin?
        invariant MinLoop(e, board, moves, depth - 1, i, alpha, b, minScore) == MinLoop(e, board, moves, depth - 1, 0, alpha, beta, PosInf)
      {
        assert moves[i] in moves;
        var s := Trial(e, Black, moves[i], depth - 1, alpha, b, true);
        MinLoopStep(e, board, moves, depth - 1, i, alpha, b, minScore, s);
        minScore := Min(minScore, Fin(s));
        b := Min(b, Fin(s));
        if Le(b, alpha) {
          break;
        }
        i := i + 1;
      }
      score := minScore.value;
    }

    /** `saveState(moveData)`: copies of the cells the move will touch. */
    method SaveState(moveData: MoveData) returns (s: SavedState)
      ensures s == Save(board, moveData)
    {
      var move := moveData.move;
      var movedPiece := At(board, moveData.from);
      var capturedPiece: Cell := None;
      var captured: Option<Square> := None;
      if move.Capture? {
        capturedPiece := At(board, move.captured);
        captured := Some(move.captured);
      }
      var wasKing := if movedPiece.Some? then movedPiece.value.isKing else false;
      s := SavedState(moveData.from, move.to, movedPiece, capturedPiece, captured, wasKing);
    }

    /** `applyMove(moveData)`: the move played on the worker's board, a man crowned on its far row. */
    method ApplyMove(moveData: MoveData)
      modifies this`board
      ensures board == Apply(old(board), moveData)
    {
      var from := moveData.from;
      var move := moveData.move;
      var piece := At(board, from);
      board := Put(board, move.to, piece);
      board := Put(board, from, None);
      if move.Capture? {
        board := Put(board, move.captured, None);
      }
      if piece.Some? && !piece.value.isKing &&
        ((piece.value.color == Black && move.to.row == BoardSize - 1) || (piece.value.color == White && move.to.row == 0))
      {
        // `piece.isKing = true` crowns the object itself, which is on the board unless its square was emptied again
        if At(board, move.to).Some? {
          board := Put(board, move.to, Some(Piece(piece.value.color, true)));
        }
      }
    }

    /** `restoreState(state)`: the mover back with its old rank, the destination emptied, the captured piece back. */
    method RestoreState(state: SavedState)
      modifies this`board
      ensures board == Restore(old(board), state)
    {
      var movedPiece := state.movedPiece;
      if movedPiece.Some? {
        movedPiece := Some(Piece(movedPiece.value.color, state.wasKing));
      }
      board := Put(board, state.from, movedPiece);
      board := Put(board, state.to, None);
      if state.capturedPiece.Some? && state.captured.Some? {
        board := Put(board, state.captured.value, state.capturedPiece);
      }
    }
  }
}
