/**
 * The game-tree search shared by both game files and the AI worker:
 * `minimax` with alpha-beta pruning, the root loop of `getBestMove`, and the
 * random pick of the easy level.
 *
 * Scores are JS numbers.  The bounds `alpha`, `beta` and the running best
 * start at `±Infinity`, so they are `Ext` values; everything a search returns
 * is finite.  The evaluator is an arbitrary function of the board.  The search is
 * written for any move list, move application and evaluator; the game plugs in
 * its own (`getAllMoves`, `simulateMove`/`applyMove`, `evaluateBoard`).
 */
module Search {
  import opened Wrappers
  import opened Boards
  import opened Moves

  /** A JS number as the search uses it: `-Infinity`, a finite value, or `Infinity`. */
  datatype Ext = NegInf | Fin(value: real) | PosInf

  predicate Le(a: Ext, b: Ext) {
    a.NegInf? || b.PosInf? || (a.Fin? && b.Fin? && a.value <= b.value)
  }

  predicate Lt(a: Ext, b: Ext) {
    !Le(b, a)
  }

  /** `Math.max` */
  function Max(a: Ext, b: Ext): (r: Ext)
    ensures Le(a, r) && Le(b, r) && (r == a || r == b)
  {
    if Le(a, b) then b else a
  }

  /** `Math.min` */
  function Min(a: Ext, b: Ext): (r: Ext)
    ensures Le(r, a) && Le(r, b) && (r == a || r == b)
  {
    if Le(a, b) then a else b
  }

  /** What the search needs from the game. */
  datatype Engine = Engine(
    moves: (Board, Color) -> seq<MoveData>,
    apply: (Board, MoveData) -> Board,
    eval: Board -> real)

  /** The side to move at a node: white maximises, black minimises. */
  function Mover(maximizing: bool): Color {
    if maximizing then White else Black
  }

  /** The score of a node whose side to move has no move: a loss for that side. */
  function NoMoveScore(maximizing: bool): real {
    if maximizing then -1000.0 else 1000.0
  }

  // ---------------------------------------------------------------- reference

  /** The plain minimax value of a node, searched `depth` plies deep. */
  function Minimax(e: Engine, b: Board, depth: nat, maximizing: bool): real
    decreases depth, 1, 0
  {
    if depth == 0 then e.eval(b)
    else
      var ms := e.moves(b, Mover(maximizing));
      if ms == [] then NoMoveScore(maximizing)
      else Best(e, b, ms, depth - 1, maximizing, |ms|).value
  }

  /** The best minimax value among the children reached by the first `n` moves of `ms`. */
  function Best(e: Engine, b: Board, ms: seq<MoveData>, d: nat, maximizing: bool, n: nat): (r: Ext)
    requires n <= |ms|
    ensures n == 0 ==> r == if maximizing then NegInf else PosInf
    ensures n > 0 ==> r.Fin?
    decreases d + 1, 0, n
  {
    if n == 0 then (if maximizing then NegInf else PosInf)
    else
      var v := Fin(Minimax(e, e.apply(b, ms[n - 1]), d, !maximizing));
      var prev := Best(e, b, ms, d, maximizing, n - 1);
      if maximizing then Max(prev, v) else Min(prev, v)
  }

  /** The best of all children is at least as good as any of them. */
  lemma {:induction false} BestBound(e: Engine, b: Board, ms: seq<MoveData>, d: nat, maximizing: bool, i: nat, n: nat)
    requires i < n <= |ms|
    ensures var v := Fin(Minimax(e, e.apply(b, ms[i]), d, !maximizing));
      if maximizing then Le(v, Best(e, b, ms, d, maximizing, n)) else Le(Best(e, b, ms, d, maximizing, n), v)
    decreases n
  {
    if i < n - 1 {
      BestBound(e, b, ms, d, maximizing, i, n - 1);
    }
  }

  /** With scores bounded by `bound` at the leaves, and `bound >= 1000`, every minimax value is bounded too. */
  lemma {:induction false} MinimaxBounded(e: Engine, b: Board, depth: nat, maximizing: bool, bound: real)
    requires bound >= 1000.0
    requires forall q :: -bound <= e.eval(q) <= bound
    ensures -bound <= Minimax(e, b, depth, maximizing) <= bound
    decreases depth, 1, 0
  {
    if depth > 0 {
      var ms := e.moves(b, Mover(maximizing));
      if ms != [] {
        BestBounded(e, b, ms, depth - 1, maximizing, |ms|, bound);
      }
    }
  }

  lemma {:induction false} BestBounded(e: Engine, b: Board, ms: seq<MoveData>, d: nat, maximizing: bool, n: nat, bound: real)
    requires 0 < n <= |ms|
    requires bound >= 1000.0
    requires forall q :: -bound <= e.eval(q) <= bound
    ensures -bound <= Best(e, b, ms, d, maximizing, n).value <= bound
    decreases d + 1, 0, n
  {
    MinimaxBounded(e, e.apply(b, ms[n - 1]), d, !maximizing, bound);
    if n > 1 {
      BestBounded(e, b, ms, d, maximizing, n - 1, bound);
    }
  }

  // ---------------------------------------------------------------- alpha-beta

  /** `minimax(depth, alpha, beta, isMaximizing)` */
  function AlphaBeta(e: Engine, b: Board, depth: nat, alpha: Ext, beta: Ext, maximizing: bool): real
    decreases depth, 1, 0
  {
    if depth == 0 then e.eval(b)
    else
      var ms := e.moves(b, Mover(maximizing));
      if ms == [] then NoMoveScore(maximizing)
      else if maximizing then MaxLoop(e, b, ms, depth - 1, 0, alpha, beta, NegInf).value
      else MinLoop(e, b, ms, depth - 1, 0, alpha, beta, PosInf).value
  }

  /**
   * The `for` loop of the maximising branch from move `i` on, with `alpha`
   * and `maxScore` as the earlier passes left them.
   */
  function MaxLoop(e: Engine, b: Board, ms: seq<MoveData>, d: nat, i: nat, alpha: Ext, beta: Ext, maxScore: Ext): (r: Ext)
    requires i <= |ms|
    ensures maxScore.Fin? || (maxScore.NegInf? && i < |ms|) ==> r.Fin?
    decreases d + 1, 0, |ms| - i
  {
    if i == |ms| then maxScore
    else
      var score := AlphaBeta(e, e.apply(b, ms[i]), d, alpha, beta, false);
      var maxScore' := Max(maxScore, Fin(score));
      var alpha' := Max(alpha, Fin(score));
      if Le(beta, alpha') then maxScore'
      else MaxLoop(e, b, ms, d, i + 1, alpha', beta, maxScore')
  }

  /** The `for` loop of the minimising branch from move `i` on. */
  function MinLoop(e: Engine, b: Board, ms: seq<MoveData>, d: nat, i: nat, alpha: Ext, beta: Ext, minScore: Ext): (r: Ext)
    requires i <= |ms|
    ensures minScore.Fin? || (minScore.PosInf? && i < |ms|) ==> r.Fin?
    decreases d + 1, 0, |ms| - i
  {
    if i == |ms| then minScore
    else
      var score := AlphaBeta(e, e.apply(b, ms[i]), d, alpha, beta, true);
      var minScore' := Min(minScore, Fin(score));
      var beta' := Min(beta, Fin(score));
      if Le(beta', alpha) then minScore'
      else MinLoop(e, b, ms, d, i + 1, alpha, beta', minScore')
  }

  /** One level of `minimax`: the leaf, the side without a move, or one of the two loops over `ms`. */
  lemma AlphaBetaLevel(e: Engine, b: Board, depth: nat, alpha: Ext, beta: Ext, maximizing: bool, ms: seq<MoveData>)
    requires ms == e.moves(b, Mover(maximizing))
    ensures AlphaBeta(e, b, depth, alpha, beta, maximizing) ==
      if depth == 0 then e.eval(b)
      else if ms == [] then NoMoveScore(maximizing)
      else if maximizing then MaxLoop(e, b, ms, depth - 1, 0, alpha, beta, NegInf).value
      else MinLoop(e, b, ms, depth - 1, 0, alpha, beta, PosInf).value
  {
  }

  /** One pass of the maximising loop: the cut-off returns the running best, otherwise the loop goes on. */
  lemma MaxLoopStep(e: Engine, b: Board, ms: seq<MoveData>, d: nat, i: nat, alpha: Ext, beta: Ext, maxScore: Ext, score: real)
    requires i < |ms| && !maxScore.PosInf? && score == AlphaBeta(e, e.apply(b, ms[i]), d, alpha, beta, false)
    ensures Max(maxScore, Fin(score)).Fin?
    ensures MaxLoop(e, b, ms, d, i, alpha, beta, maxScore) ==
      if Le(beta, Max(alpha, Fin(score))) then Max(maxScore, Fin(score))
      else MaxLoop(e, b, ms, d, i + 1, Max(alpha, Fin(score)), beta, Max(maxScore, Fin(score)))
  {
  }

  /** One pass of the minimising loop. */
  lemma MinLoopStep(e: Engine, b: Board, ms: seq<MoveData>, d: nat, i: nat, alpha: Ext, beta: Ext, minScore: Ext, score: real)
    requires i < |ms| && !minScore.NegInf? && score == AlphaBeta(e, e.apply(b, ms[i]), d, alpha, beta, true)
    ensures Min(minScore, Fin(score)).Fin?
    ensures MinLoop(e, b, ms, d, i, alpha, beta, minScore) ==
      if Le(Min(beta, Fin(score)), alpha) then Min(minScore, Fin(score))
      else MinLoop(e, b, ms, d, i + 1, alpha, Min(beta, Fin(score)), Min(minScore, Fin(score)))
  {
  }

  /**
   * What a fail-soft alpha-beta search promises about its result `r` for a
   * node of true value `v` searched with the window `(alpha, beta)`: exact
   * inside the window, an upper bound of `v` at or below `alpha`, a lower
   * bound of `v` at or above `beta`.
   */
  predicate FailSoft(v: Ext, r: Ext, alpha: Ext, beta: Ext) {
    (Lt(alpha, r) && Lt(r, beta) ==> r == v) &&
    (Le(r, alpha) ==> Le(v, r)) &&
    (Le(beta, r) ==> Le(r, v))
  }

  /** Pruning never changes a value that lands inside the window, and bounds it correctly outside. */
  lemma {:induction false} AlphaBetaSound(e: Engine, b: Board, depth: nat, alpha: Ext, beta: Ext, maximizing: bool)
    requires Lt(alpha, beta)
    ensures FailSoft(Fin(Minimax(e, b, depth, maximizing)), Fin(AlphaBeta(e, b, depth, alpha, beta, maximizing)), alpha, beta)
    decreases depth, 1, 0
  {
    if depth > 0 {
      var ms := e.moves(b, Mover(maximizing));
      if ms != [] {
        if maximizing {
          MaxLoopSound(e, b, ms, depth - 1, 0, alpha, beta, NegInf);
        } else {
          MinLoopSound(e, b, ms, depth - 1, 0, alpha, beta, PosInf);
        }
      }
    }
  }

  /**
   * The invariant of the maximising loop: `maxScore` bounds the true best of
   * the children seen so far from above, and equals it once above `alpha`.
   */
  lemma {:induction false} MaxLoopSound(e: Engine, b: Board, ms: seq<MoveData>, d: nat, i: nat, alpha0: Ext, beta: Ext, m: Ext)
    requires i <= |ms|
    requires m.Fin? || (m.NegInf? && i == 0)
    requires Lt(Max(alpha0, m), beta)
    requires Le(Best(e, b, ms, d, true, i), m)
    requires Lt(alpha0, m) ==> Best(e, b, ms, d, true, i) == m
    ensures FailSoft(Best(e, b, ms, d, true, |ms|), MaxLoop(e, b, ms, d, i, Max(alpha0, m), beta, m), alpha0, beta)
    decreases d + 1, 0, |ms| - i
  {
    if i < |ms| {
      var alpha := Max(alpha0, m);
      var child := e.apply(b, ms[i]);
      var score := AlphaBeta(e, child, d, alpha, beta, false);
      AlphaBetaSound(e, child, d, alpha, beta, false);
      var m' := Max(m, Fin(score));
      var alpha' := Max(alpha, Fin(score));
      assert alpha' == Max(alpha0, m');
      if Le(beta, alpha') {
        BestBound(e, b, ms, d, true, i, |ms|);
      } else {
        MaxLoopSound(e, b, ms, d, i + 1, alpha0, beta, m');
      }
    }
  }

  /** The invariant of the minimising loop, the mirror image of `MaxLoopSound`. */
  lemma {:induction false} MinLoopSound(e: Engine, b: Board, ms: seq<MoveData>, d: nat, i: nat, alpha: Ext, beta0: Ext, m: Ext)
    requires i <= |ms|
    requires m.Fin? || (m.PosInf? && i == 0)
    requires Lt(alpha, Min(beta0, m))
    requires Le(m, Best(e, b, ms, d, false, i))
    requires Lt(m, beta0) ==> Best(e, b, ms, d, false, i) == m
    ensures FailSoft(Best(e, b, ms, d, false, |ms|), MinLoop(e, b, ms, d, i, alpha, Min(beta0, m), m), alpha, beta0)
    decreases d + 1, 0, |ms| - i
  {
    if i < |ms| {
      var beta := Min(beta0, m);
      var child := e.apply(b, ms[i]);
      var score := AlphaBeta(e, child, d, alpha, beta, true);
      AlphaBetaSound(e, child, d, alpha, beta, true);
      var m' := Min(m, Fin(score));
      var beta' := Min(beta, Fin(score));
      assert beta' == Min(beta0, m');
      if Le(beta', alpha) {
        BestBound(e, b, ms, d, false, i, |ms|);
      } else {
        MinLoopSound(e, b, ms, d, i + 1, alpha, beta0, m');
      }
    }
  }

  /** Searched from the window `(-Infinity, Infinity)`, alpha-beta gives exactly the minimax value. */
  lemma RootWindow(e: Engine, b: Board, depth: nat, maximizing: bool)
    ensures AlphaBeta(e, b, depth, NegInf, PosInf, maximizing) == Minimax(e, b, depth, maximizing)
  {
    AlphaBetaSound(e, b, depth, NegInf, PosInf, maximizing);
  }

  // ---------------------------------------------------------------- root

  /** The scores the root loop of `getBestMove` computes, one child per move, from the full window. */
  function RootScores(e: Engine, b: Board, ms: seq<MoveData>, d: nat, childMaximizing: bool): (r: seq<real>)
    ensures |r| == |ms|
    ensures forall i :: 0 <= i < |ms| ==> r[i] == Minimax(e, e.apply(b, ms[i]), d, childMaximizing)
  {
    if ms == [] then []
    else
      var last := e.apply(b, ms[|ms| - 1]);
      RootWindow(e, last, d, childMaximizing);
      RootScores(e, b, ms[..|ms| - 1], d, childMaximizing) + [AlphaBeta(e, last, d, NegInf, PosInf, childMaximizing)]
  }

  /** `scores[j]` is strictly better than `scores[k]` for a maximising (or minimising) root. */
  predicate Better(x: real, y: real, maximizing: bool) {
    if maximizing then x > y else x < y
  }

  /**
   * The index the root loop keeps: `score > bestScore` (or `<`) replaces the
   * best only on a strict improvement, so it is the first best score.
   */
  function FirstBest(scores: seq<real>, maximizing: bool): (k: nat)
    requires |scores| > 0
    ensures k < |scores|
    ensures forall j :: 0 <= j < |scores| ==> !Better(scores[j], scores[k], maximizing)
    ensures forall j :: 0 <= j < k ==> Better(scores[k], scores[j], maximizing)
  {
    if |scores| == 1 then 0
    else
      var k := FirstBest(scores[..|scores| - 1], maximizing);
      assert forall j :: 0 <= j < |scores| - 1 ==> scores[..|scores| - 1][j] == scores[j];
      if Better(scores[|scores| - 1], scores[k], maximizing) then |scores| - 1 else k
  }

  /**
   * The move the root loop returns for the (already ordered) list `ms`, each
   * child searched `d` plies deep; `null` when there is no move.
   */
  function RootChoice(e: Engine, b: Board, ms: seq<MoveData>, d: nat, maximizing: bool): Option<MoveData> {
    if ms == [] then None
    else Some(ms[FirstBest(RootScores(e, b, ms, d, !maximizing), maximizing)])
  }

  /**
   * The root choice is `null` exactly when there is no move; otherwise it is
   * a move of the list whose child has the best minimax value, and the first
   * such move in the list.
   */
  lemma RootChoiceBest(e: Engine, b: Board, ms: seq<MoveData>, d: nat, maximizing: bool)
    ensures RootChoice(e, b, ms, d, maximizing).None? <==> ms == []
    ensures RootChoice(e, b, ms, d, maximizing).Some? ==>
      exists k :: 0 <= k < |ms| && RootChoice(e, b, ms, d, maximizing).value == ms[k] &&
        (forall j :: 0 <= j < |ms| ==>
          !Better(Minimax(e, e.apply(b, ms[j]), d, !maximizing), Minimax(e, e.apply(b, ms[k]), d, !maximizing), maximizing)) &&
        (forall j :: 0 <= j < k ==>
          Better(Minimax(e, e.apply(b, ms[k]), d, !maximizing), Minimax(e, e.apply(b, ms[j]), d, !maximizing), maximizing))
  {
    if ms != [] {
      var scores := RootScores(e, b, ms, d, !maximizing);
      var k := FirstBest(scores, maximizing);
      assert RootChoice(e, b, ms, d, maximizing).value == ms[k];
    }
  }

  /** The running best before the root loop: `-Infinity` for white's root, `Infinity` for black's. */
  function RootStart(maximizing: bool): Ext {
    if maximizing then NegInf else PosInf
  }

  /** `score > bestScore` at a maximising root, `score < bestScore` at a minimising one. */
  predicate Improves(score: real, bestScore: Ext, maximizing: bool) {
    if maximizing then Lt(bestScore, Fin(score)) else Lt(Fin(score), bestScore)
  }

  /** After the first `i` moves the root loop holds the first best of their scores, and that score. */
  ghost predicate RootStep(e: Engine, b: Board, ms: seq<MoveData>, d: nat, maximizing: bool, i: nat,
    bestMove: Option<MoveData>, bestScore: Ext)
    requires 0 < i <= |ms|
  {
    var scores := RootScores(e, b, ms[..i], d, !maximizing);
    var k := FirstBest(scores, maximizing);
    bestMove == Some(ms[k]) && bestScore == Fin(scores[k])
  }

  /** The scores of the first `i + 1` moves are those of the first `i` and one more. */
  lemma RootScoresStep(e: Engine, b: Board, ms: seq<MoveData>, d: nat, childMaximizing: bool, i: nat)
    requires i < |ms|
    ensures RootScores(e, b, ms[..i + 1], d, childMaximizing) ==
      RootScores(e, b, ms[..i], d, childMaximizing) + [Minimax(e, e.apply(b, ms[i]), d, childMaximizing)]
  {
    assert ms[..i + 1][..i] == ms[..i];
    assert ms[..i + 1][i] == ms[i];
    RootWindow(e, e.apply(b, ms[i]), d, childMaximizing);
  }

  /** A strictly better score replaces the best one; an equal one does not. */
  lemma FirstBestStep(scores: seq<real>, x: real, maximizing: bool)
    ensures FirstBest(scores + [x], maximizing) ==
      if scores == [] then 0
      else if Better(x, scores[FirstBest(scores, maximizing)], maximizing) then |scores| else FirstBest(scores, maximizing)
  {
    assert (scores + [x])[..|scores|] == scores;
  }

  /** One pass of the root loop keeps the first best move of the moves searched so far. */
  lemma RootLoopStep(e: Engine, b: Board, ms: seq<MoveData>, d: nat, maximizing: bool, i: nat,
    bestMove: Option<MoveData>, bestScore: Ext, score: real)
    requires i < |ms|
    requires if i == 0 then bestMove.None? && bestScore == RootStart(maximizing)
      else RootStep(e, b, ms, d, maximizing, i, bestMove, bestScore)
    requires score == AlphaBeta(e, e.apply(b, ms[i]), d, NegInf, PosInf, !maximizing)
    ensures var better := Improves(score, bestScore, maximizing);
      RootStep(e, b, ms, d, maximizing, i + 1, if better then Some(ms[i]) else bestMove, if better then Fin(score) else bestScore)
  {
    RootScoresStep(e, b, ms, d, !maximizing, i);
    FirstBestStep(RootScores(e, b, ms[..i], d, !maximizing), score, maximizing);
  }

  /** After the last move the root loop holds the root choice. */
  lemma RootLoopDone(e: Engine, b: Board, ms: seq<MoveData>, d: nat, maximizing: bool,
    bestMove: Option<MoveData>, bestScore: Ext)
    requires ms != [] && RootStep(e, b, ms, d, maximizing, |ms|, bestMove, bestScore)
    ensures bestMove == RootChoice(e, b, ms, d, maximizing)
  {
    assert ms[..|ms|] == ms;
  }

  // ---------------------------------------------------------------- easy level

  /** `moves.filter(m => m.move.isCapture)` */
  function CapturesOf(ms: seq<MoveData>): (r: seq<MoveData>)
    ensures forall md :: md in r <==> md in ms && md.move.Capture?
  {
    if ms == [] then []
    else (if ms[0].move.Capture? then [ms[0]] else []) + CapturesOf(ms[1..])
  }

  /**
   * The easy level: a random capture when there is one, else a random move.
   * `Math.floor(Math.random() * n)` is any index below `n`; it is `pick % n`.
   */
  function EasyChoice(ms: seq<MoveData>, pick: nat): Option<MoveData> {
    if ms == [] then None
    else
      var captures := CapturesOf(ms);
      if |captures| > 0 then Some(captures[pick % |captures|])
      else Some(ms[pick % |ms|])
  }

  /** The easy choice is a move of the list, a capture whenever the list has one, and `null` only for an empty list. */
  lemma EasyChoiceLegal(ms: seq<MoveData>, pick: nat)
    ensures EasyChoice(ms, pick).None? <==> ms == []
    ensures EasyChoice(ms, pick).Some? ==> EasyChoice(ms, pick).value in ms
    ensures (exists md :: md in ms && md.move.Capture?) ==> EasyChoice(ms, pick).value.move.Capture?
  {
    if ms != [] {
      var captures := CapturesOf(ms);
      if |captures| > 0 {
        assert captures[pick % |captures|] in captures;
      } else {
        assert ms[pick % |ms|] in ms;
      }
    }
  }
}
