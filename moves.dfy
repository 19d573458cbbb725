/**
 * Move generation for one piece: `getPawnMoves` (a man) and `getKingMoves`
 * (a flying king).  Both files of the game and the AI worker carry identical
 * copies of these two generators.
 */
module Moves {
  import opened Wrappers
  import opened Boards

  /**
   * A destination record as the generators push it: `{row, col, isCapture: false}`
   * or `{row, col, isCapture: true, capturedRow, capturedCol}`.
   */
  datatype Move = Simple(to: Square) | Capture(to: Square, captured: Square)

  /** `{fromRow, fromCol, move}`, and the flattened `mustCapture` entries. */
  datatype MoveData = MoveData(from: Square, move: Move)

  /** What a generator hands back: its `moves` and `captures` arrays. */
  datatype Found = Found(moves: seq<Move>, captures: seq<Move>)

  /** Both arrays of `b` pushed after those of `a`. */
  function Join(a: Found, b: Found): (r: Found)
    ensures |r.moves| == |a.moves| + |b.moves| && |r.captures| == |a.captures| + |b.captures|
  {
    Found(a.moves + b.moves, a.captures + b.captures)
  }

  lemma AppendAssoc<T>(a: seq<T>, b: seq<T>, c: seq<T>)
    ensures (a + b) + c == a + (b + c)
  {
  }

  /** A direction `(dRow, dCol)`. */
  datatype Dir = Dir(dr: int, dc: int)

  predicate Diagonal(d: Dir) {
    (d.dr == 1 || d.dr == -1) && (d.dc == 1 || d.dc == -1)
  }

  function Step(sq: Square, d: Dir): Square {
    Square(sq.row + d.dr, sq.col + d.dc)
  }

  function Leap(sq: Square, d: Dir): Square {
    Square(sq.row + 2 * d.dr, sq.col + 2 * d.dc)
  }

  /** The row direction a man walks in: `directions` is `[1]` for black and `[-1]` for white. */
  function Forward(c: Color): int {
    if c == Black then 1 else -1
  }

  /** The inner loops `for dCol of [-1, 1]` of `getPawnMoves`. */
  const ColSteps: seq<int> := [-1, 1]

  /** The row directions a man captures in: `captureDirections`. */
  const CaptureRows: seq<int> := [1, -1]

  /** The king's four rays, in the order of `getKingMoves`. */
  const KingDirs: seq<Dir> := [Dir(-1, -1), Dir(-1, 1), Dir(1, -1), Dir(1, 1)]

  // ---------------------------------------------------------------- men

  /** One simple-move test: the diagonal neighbour in direction `d`, if it is on the board and empty. */
  function StepIf(b: Board, from: Square, d: Dir): seq<Move> {
    var t := Step(from, d);
    if IsValidPosition(t) && At(b, t).None? then [Simple(t)] else []
  }

  /** One capture test: an enemy next door in direction `d` and an empty landing square behind it. */
  function JumpIf(b: Board, from: Square, c: Color, d: Dir): seq<Move> {
    var t := Leap(from, d);
    var over := Step(from, d);
    if IsValidPosition(t) && At(b, over).Some? && At(b, over).value.color != c && At(b, t).None?
    then [Capture(t, over)]
    else []
  }

  /** The simple-move tests of row direction `dRow` for the first `m` entries of `ColSteps`. */
  function StepsRow(b: Board, from: Square, dRow: int, m: int): seq<Move>
    requires 0 <= m <= |ColSteps|
  {
    if m == 0 then [] else StepsRow(b, from, dRow, m - 1) + StepIf(b, from, Dir(dRow, ColSteps[m - 1]))
  }

  lemma StepsRowNext(b: Board, from: Square, dRow: int, j: int)
    requires 0 <= j < |ColSteps|
    ensures StepsRow(b, from, dRow, j + 1) == StepsRow(b, from, dRow, j) + StepIf(b, from, Dir(dRow, ColSteps[j]))
  {
  }

  /** The simple-move tests of the first `n` row directions of `rows`. */
  function StepsGrid(b: Board, from: Square, rows: seq<int>, n: int): seq<Move>
    requires 0 <= n <= |rows|
  {
    if n == 0 then [] else StepsGrid(b, from, rows, n - 1) + StepsRow(b, from, rows[n - 1], |ColSteps|)
  }

  /** The capture tests of row direction `dRow` for the first `m` entries of `ColSteps`. */
  function JumpsRow(b: Board, from: Square, c: Color, dRow: int, m: int): seq<Move>
    requires 0 <= m <= |ColSteps|
  {
    if m == 0 then [] else JumpsRow(b, from, c, dRow, m - 1) + JumpIf(b, from, c, Dir(dRow, ColSteps[m - 1]))
  }

  lemma JumpsRowNext(b: Board, from: Square, c: Color, dRow: int, j: int)
    requires 0 <= j < |ColSteps|
    ensures JumpsRow(b, from, c, dRow, j + 1) == JumpsRow(b, from, c, dRow, j) + JumpIf(b, from, c, Dir(dRow, ColSteps[j]))
  {
  }

  /** The capture tests of the first `n` row directions of `rows`. */
  function JumpsGrid(b: Board, from: Square, c: Color, rows: seq<int>, n: int): seq<Move>
    requires 0 <= n <= |rows|
  {
    if n == 0 then [] else JumpsGrid(b, from, c, rows, n - 1) + JumpsRow(b, from, c, rows[n - 1], |ColSteps|)
  }

  /** What `getPawnMoves` pushes for a man of colour `c` on `from`. */
  function PawnMoves(b: Board, from: Square, c: Color): Found {
    Found(StepsGrid(b, from, [Forward(c)], 1), JumpsGrid(b, from, c, CaptureRows, 2))
  }

  /**
   * A man's simple moves are exactly the one-step forward diagonals (row + 1
   * for black, row - 1 for white) that are on the board and empty.
   */
  lemma PawnStepIff(b: Board, from: Square, c: Color, m: Move)
    ensures m in PawnMoves(b, from, c).moves <==>
      m.Simple? && m.to.row == from.row + Forward(c) &&
      (m.to.col == from.col - 1 || m.to.col == from.col + 1) &&
      IsValidPosition(m.to) && At(b, m.to).None?
  {
    var s0, s1 := StepIf(b, from, Dir(Forward(c), -1)), StepIf(b, from, Dir(Forward(c), 1));
    assert StepsRow(b, from, Forward(c), 1) == s0;
    assert StepsGrid(b, from, [Forward(c)], 1) == StepsRow(b, from, Forward(c), 2);
    assert PawnMoves(b, from, c).moves == s0 + s1;
    assert m in s0 <==> m == Simple(Step(from, Dir(Forward(c), -1))) && IsValidPosition(m.to) && At(b, m.to).None?;
    assert m in s1 <==> m == Simple(Step(from, Dir(Forward(c), 1))) && IsValidPosition(m.to) && At(b, m.to).None?;
  }

  lemma JumpIfIff(b: Board, from: Square, c: Color, d: Dir, m: Move)
    ensures m in JumpIf(b, from, c, d) <==>
      m == Capture(Leap(from, d), Step(from, d)) && IsValidPosition(m.to) && At(b, m.to).None? &&
      At(b, m.captured).Some? && At(b, m.captured).value.color != c
  {
  }

  /**
   * A man's captures are exactly the jumps, in any of the four diagonals, over
   * an adjacent enemy onto the empty on-board square two steps away; each
   * records the jumped square.
   */
  lemma PawnJumpIff(b: Board, from: Square, c: Color, m: Move)
    ensures m in PawnMoves(b, from, c).captures <==>
      m.Capture? && IsValidPosition(m.to) && At(b, m.to).None? &&
      (m.to.row == from.row + 2 || m.to.row == from.row - 2) &&
      (m.to.col == from.col + 2 || m.to.col == from.col - 2) &&
      2 * m.captured.row == from.row + m.to.row && 2 * m.captured.col == from.col + m.to.col &&
      At(b, m.captured).Some? && At(b, m.captured).value.color != c
  {
    PawnJumpsByDir(b, from, c, m);
    JumpIfIff(b, from, c, Dir(1, -1), m);
    JumpIfIff(b, from, c, Dir(1, 1), m);
    JumpIfIff(b, from, c, Dir(-1, -1), m);
    JumpIfIff(b, from, c, Dir(-1, 1), m);
    if m.Capture? && 2 * m.captured.row == from.row + m.to.row && 2 * m.captured.col == from.col + m.to.col {
      var dr := if m.to.row == from.row + 2 then 1 else -1;
      var dc := if m.to.col == from.col + 2 then 1 else -1;
      if (m.to.row == from.row + 2 || m.to.row == from.row - 2) && (m.to.col == from.col + 2 || m.to.col == from.col - 2) {
        assert m == Capture(Leap(from, Dir(dr, dc)), Step(from, Dir(dr, dc)));
      }
    }
  }

  /** A man's captures are those of the four diagonal tests. */
  lemma PawnJumpsByDir(b: Board, from: Square, c: Color, m: Move)
    ensures m in PawnMoves(b, from, c).captures <==>
      m in JumpIf(b, from, c, Dir(1, -1)) || m in JumpIf(b, from, c, Dir(1, 1)) ||
      m in JumpIf(b, from, c, Dir(-1, -1)) || m in JumpIf(b, from, c, Dir(-1, 1))
  {
    var j0, j1 := JumpIf(b, from, c, Dir(1, -1)), JumpIf(b, from, c, Dir(1, 1));
    var j2, j3 := JumpIf(b, from, c, Dir(-1, -1)), JumpIf(b, from, c, Dir(-1, 1));
    assert JumpsRow(b, from, c, 1, 1) == j0;
    assert JumpsRow(b, from, c, -1, 1) == j2;
    assert JumpsGrid(b, from, c, CaptureRows, 1) == j0 + j1;
    assert PawnMoves(b, from, c).captures == (j0 + j1) + (j2 + j3);
  }

  /** One pass of the inner loop of the first loop nest of `getPawnMoves`. */
  method TryStep(b: Board, row: int, col: int, dRow: int, dCol: int, moves: seq<Move>) returns (moves': seq<Move>)
    ensures moves' == moves + StepIf(b, Square(row, col), Dir(dRow, dCol))
  {
    moves' := moves;
    var newRow, newCol := row + dRow, col + dCol;
    if IsValidPosition(Square(newRow, newCol)) && At(b, Square(newRow, newCol)).None? {
      moves' := moves' + [Simple(Square(newRow, newCol))];
    }
  }

  /** One pass of the inner loop of the second loop nest of `getPawnMoves`. */
  method TryJump(b: Board, row: int, col: int, piece: Piece, dRow: int, dCol: int, captures: seq<Move>)
    returns (captures': seq<Move>)
    ensures captures' == captures + JumpIf(b, Square(row, col), piece.color, Dir(dRow, dCol))
  {
    captures' := captures;
    var captureRow, captureCol := row + dRow, col + dCol;
    var landRow, landCol := row + dRow * 2, col + dCol * 2;
    if IsValidPosition(Square(landRow, landCol)) {
      var capturedPiece := At(b, Square(captureRow, captureCol));
      var landingCell := At(b, Square(landRow, landCol));
      if capturedPiece.Some? && capturedPiece.value.color != piece.color && landingCell.None? {
        captures' := captures' + [Capture(Square(landRow, landCol), Square(captureRow, captureCol))];
      }
    }
  }

  /**
   * `getPawnMoves`: the simple moves of a man on `(row, col)` in `moves`, its
   * captures in `captures`.
   */
  method GetPawnMoves(b: Board, row: int, col: int, piece: Piece) returns (moves: seq<Move>, captures: seq<Move>)
    ensures Found(moves, captures) == PawnMoves(b, Square(row, col), piece.color)
  {
    var from := Square(row, col);
    var directions := [Forward(piece.color)];
    moves := [];
    for i := 0 to |directions|
      invariant moves == StepsGrid(b, from, directions, i)
    {
      ghost var grid := moves;
      for j := 0 to |ColSteps|
        invariant moves == grid + StepsRow(b, from, directions[i], j)
      {
        StepsRowNext(b, from, directions[i], j);
        AppendAssoc(grid, StepsRow(b, from, directions[i], j), StepIf(b, from, Dir(directions[i], ColSteps[j])));
        moves := TryStep(b, row, col, directions[i], ColSteps[j], moves);
      }
    }
    var captureDirections := CaptureRows;
    captures := [];
    for i := 0 to |captureDirections|
      invariant captures == JumpsGrid(b, from, piece.color, captureDirections, i)
    {
      ghost var grid := captures;
      for j := 0 to |ColSteps|
        invariant captures == grid + JumpsRow(b, from, piece.color, captureDirections[i], j)
      {
        JumpsRowNext(b, from, piece.color, captureDirections[i], j);
        AppendAssoc(grid, JumpsRow(b, from, piece.color, captureDirections[i], j),
          JumpIf(b, from, piece.color, Dir(captureDirections[i], ColSteps[j])));
        captures := TryJump(b, row, col, piece, captureDirections[i], ColSteps[j], captures);
      }
    }
  }

  // ---------------------------------------------------------------- kings

  /** How far a ray may still run from `sq` in direction `d`. */
  function RayRoom(sq: Square, d: Dir): int {
    if d.dr == 1 then BoardSize - sq.row else sq.row + 1
  }

  /** The squares `sq, sq + d, sq + 2d, …` for as long as they are on the board. */
  function Ray(sq: Square, d: Dir): (r: seq<Square>)
    requires Diagonal(d)
    ensures forall k :: 0 <= k < |r| ==> IsValidPosition(r[k])
    decreases RayRoom(sq, d)
  {
    if IsValidPosition(sq) then [sq] + Ray(Step(sq, d), d) else []
  }

  /** The index of the first occupied square of `s`, or `|s|` when all of them are empty. */
  function FirstOccupied(b: Board, s: seq<Square>): (k: nat)
    ensures k <= |s|
    ensures forall j :: 0 <= j < k ==> At(b, s[j]).None?
    ensures k < |s| ==> At(b, s[k]).Some?
    decreases |s|
  {
    if s == [] || At(b, s[0]).Some? then 0 else 1 + FirstOccupied(b, s[1..])
  }

  /** A simple move onto each square of `s`, in order. */
  function Simples(s: seq<Square>): (r: seq<Move>)
    ensures |r| == |s| && forall j :: 0 <= j < |s| ==> r[j] == Simple(s[j])
  {
    if s == [] then [] else [Simple(s[0])] + Simples(s[1..])
  }

  /** A capture of the piece on `e` landing on each square of `s`, in order. */
  function Landings(s: seq<Square>, e: Square): (r: seq<Move>)
    ensures |r| == |s| && forall j :: 0 <= j < |s| ==> r[j] == Capture(s[j], e)
  {
    if s == [] then [] else [Capture(s[0], e)] + Landings(s[1..], e)
  }

  /** An enemy of colour-`c` pieces stands on `sq`. */
  predicate EnemyAt(b: Board, c: Color, sq: Square) {
    At(b, sq).Some? && At(b, sq).value.color != c
  }

  /**
   * The `while` loop of one king ray over the squares `ray` still ahead of it,
   * `enemy` being the `foundEnemy` seen so far.
   */
  function ScanRay(b: Board, c: Color, ray: seq<Square>, enemy: Option<Square>): Found
    decreases |ray|
  {
    if ray == [] then Found([], [])
    else match At(b, ray[0])
      case Some(p) =>
        if p.color == c || enemy.Some? then Found([], [])
        else ScanRay(b, c, ray[1..], Some(ray[0]))
      case None =>
        var rest := ScanRay(b, c, ray[1..], enemy);
        if enemy.Some? then Found(rest.moves, [Capture(ray[0], enemy.value)] + rest.captures)
        else Found([Simple(ray[0])] + rest.moves, rest.captures)
  }

  /**
   * Past an enemy, a ray yields no simple move, and one capture of that enemy
   * onto each empty square up to the next occupied one.
   */
  lemma {:induction false} ScanPastEnemy(b: Board, c: Color, ray: seq<Square>, e: Square)
    ensures ScanRay(b, c, ray, Some(e)) == Found([], Landings(ray[..FirstOccupied(b, ray)], e))
    decreases |ray|
  {
    if ray != [] && At(b, ray[0]).None? {
      ScanPastEnemy(b, c, ray[1..], e);
      assert ray[..FirstOccupied(b, ray)] == [ray[0]] + ray[1..][..FirstOccupied(b, ray[1..])];
    }
  }

  /**
   * A fresh ray yields a simple move onto each empty square before its first
   * occupied square; when that square holds an enemy, a capture of it onto each
   * empty square behind it up to the next occupied one, and nothing otherwise.
   * A friendly piece, or a second piece of either colour, ends the ray.
   */
  lemma {:induction false} ScanFresh(b: Board, c: Color, ray: seq<Square>)
    ensures ScanRay(b, c, ray, None) == FreshScan(b, c, ray)
    decreases |ray|
  {
    if ray == [] {
      assert ray[..0] == [];
    } else if At(b, ray[0]).None? {
      ScanFresh(b, c, ray[1..]);
      ScanFreshEmpty(b, c, ray);
    } else {
      assert FirstOccupied(b, ray) == 0 && ray[..0] == [] && ray[1..] == ray[0 + 1..];
      if At(b, ray[0]).value.color != c {
        ScanPastEnemy(b, c, ray[1..], ray[0]);
      }
    }
  }

  /**
   * What a fresh ray yields: a simple move onto each empty square before its
   * first occupied square; when that square holds an enemy, a capture of it
   * onto each empty square behind it up to the next occupied one.
   */
  function FreshScan(b: Board, c: Color, ray: seq<Square>): Found {
    var f := FirstOccupied(b, ray);
    Found(Simples(ray[..f]),
          if f < |ray| && EnemyAt(b, c, ray[f]) then Landings(ray[f + 1..][..FirstOccupied(b, ray[f + 1..])], ray[f])
          else [])
  }

  /** The step of `ScanFresh` over an empty first square. */
  lemma ScanFreshEmpty(b: Board, c: Color, ray: seq<Square>)
    requires ray != [] && At(b, ray[0]).None?
    requires ScanRay(b, c, ray[1..], None) == FreshScan(b, c, ray[1..])
    ensures ScanRay(b, c, ray, None) == FreshScan(b, c, ray)
  {
    var tail := ray[1..];
    var g := FirstOccupied(b, tail);
    var f := FirstOccupied(b, ray);
    assert f == g + 1;
    assert ray[..f] == [ray[0]] + tail[..g];
    assert Simples(ray[..f]) == [Simple(ray[0])] + Simples(tail[..g]);
    if g < |tail| {
      assert ray[f] == tail[g];
      assert ray[f + 1..] == tail[g + 1..];
    }
  }

  /** The ray of `getKingMoves` in direction `d`: it starts next to `from`. */
  function KingRay(from: Square, d: Dir): seq<Square>
    requires Diagonal(d)
  {
    Ray(Step(from, d), d)
  }

  /** What the first `n` rays of `getKingMoves` push, in the order of `KingDirs`. */
  function KingRays(b: Board, from: Square, c: Color, n: int): Found
    requires 0 <= n <= |KingDirs|
  {
    if n == 0 then Found([], [])
    else Join(KingRays(b, from, c, n - 1), ScanRay(b, c, KingRay(from, KingDirs[n - 1]), None))
  }

  /** What `getKingMoves` pushes for a king of colour `c` on `from`. */
  function KingMoves(b: Board, from: Square, c: Color): Found {
    KingRays(b, from, c, |KingDirs|)
  }

  /** A king's moves and captures are those of its four rays, in turn. */
  lemma KingMovesByRay(b: Board, from: Square, c: Color, m: Move)
    ensures m in KingMoves(b, from, c).moves <==>
      exists i :: 0 <= i < |KingDirs| && m in ScanRay(b, c, KingRay(from, KingDirs[i]), None).moves
    ensures m in KingMoves(b, from, c).captures <==>
      exists i :: 0 <= i < |KingDirs| && m in ScanRay(b, c, KingRay(from, KingDirs[i]), None).captures
  {
    var r0, r1 := ScanRay(b, c, KingRay(from, KingDirs[0]), None), ScanRay(b, c, KingRay(from, KingDirs[1]), None);
    var r2, r3 := ScanRay(b, c, KingRay(from, KingDirs[2]), None), ScanRay(b, c, KingRay(from, KingDirs[3]), None);
    assert KingRays(b, from, c, 1) == r0;
    assert KingRays(b, from, c, 2) == Join(r0, r1);
    assert KingRays(b, from, c, 3) == Join(Join(r0, r1), r2);
    assert KingMoves(b, from, c) == Join(Join(Join(r0, r1), r2), r3);
  }

  /**
   * What every generated move satisfies: it lands on an empty on-board square,
   * and a capture names a square that holds an enemy.
   */
  predicate Lands(b: Board, c: Color, m: Move) {
    IsValidPosition(m.to) && At(b, m.to).None? && (m.Capture? ==> EnemyAt(b, c, m.captured))
  }

  lemma PawnMovesLand(b: Board, from: Square, c: Color)
    ensures forall m :: m in PawnMoves(b, from, c).moves ==> m.Simple? && Lands(b, c, m)
    ensures forall m :: m in PawnMoves(b, from, c).captures ==> m.Capture? && Lands(b, c, m)
  {
    forall m | m in PawnMoves(b, from, c).moves
      ensures m.Simple? && Lands(b, c, m)
    {
      PawnStepIff(b, from, c, m);
    }
    forall m | m in PawnMoves(b, from, c).captures
      ensures m.Capture? && Lands(b, c, m)
    {
      PawnJumpIff(b, from, c, m);
    }
  }

  /** Every move of a ray scan lands, once any enemy it has passed is an enemy. */
  lemma {:induction false} RayLands(b: Board, c: Color, ray: seq<Square>, enemy: Option<Square>)
    requires forall k :: 0 <= k < |ray| ==> IsValidPosition(ray[k])
    requires enemy.Some? ==> EnemyAt(b, c, enemy.value)
    ensures forall m :: m in ScanRay(b, c, ray, enemy).moves ==> m.Simple? && Lands(b, c, m)
    ensures forall m :: m in ScanRay(b, c, ray, enemy).captures ==> m.Capture? && Lands(b, c, m)
    decreases |ray|
  {
    if ray != [] {
      if At(b, ray[0]).None? {
        RayLands(b, c, ray[1..], enemy);
      } else if At(b, ray[0]).value.color != c && enemy.None? {
        RayLands(b, c, ray[1..], Some(ray[0]));
      }
    }
  }

  lemma KingMovesLand(b: Board, from: Square, c: Color)
    ensures forall m :: m in KingMoves(b, from, c).moves ==> m.Simple? && Lands(b, c, m)
    ensures forall m :: m in KingMoves(b, from, c).captures ==> m.Capture? && Lands(b, c, m)
  {
    forall i | 0 <= i < |KingDirs|
      ensures forall m :: m in ScanRay(b, c, KingRay(from, KingDirs[i]), None).moves ==> m.Simple? && Lands(b, c, m)
      ensures forall m :: m in ScanRay(b, c, KingRay(from, KingDirs[i]), None).captures ==> m.Capture? && Lands(b, c, m)
    {
      RayLands(b, c, KingRay(from, KingDirs[i]), None);
    }
    forall m | m in KingMoves(b, from, c).moves || m in KingMoves(b, from, c).captures
      ensures (m in KingMoves(b, from, c).moves ==> m.Simple? && Lands(b, c, m)) &&
        (m in KingMoves(b, from, c).captures ==> m.Capture? && Lands(b, c, m))
    {
      KingMovesByRay(b, from, c, m);
    }
  }

  /**
   * One pass of the `while` body of `getKingMoves` on the on-board square
   * `current`: `stop` is its `break`.
   */
  method KingScanStep(b: Board, c: Color, current: Square, d: Dir, foundEnemy: Option<Square>, moves: seq<Move>, captures: seq<Move>)
    returns (stop: bool, foundEnemy': Option<Square>, moves': seq<Move>, captures': seq<Move>)
    requires Diagonal(d) && IsValidPosition(current)
    ensures stop ==> Found(moves', captures') == Join(Found(moves, captures), ScanRay(b, c, Ray(current, d), foundEnemy))
    ensures !stop ==> (Join(Found(moves', captures'), ScanRay(b, c, Ray(Step(current, d), d), foundEnemy')) ==
      Join(Found(moves, captures), ScanRay(b, c, Ray(current, d), foundEnemy)))
  {
    assert Ray(current, d) == [current] + Ray(Step(current, d), d);
    ghost var rest := ScanRay(b, c, Ray(Step(current, d), d), foundEnemy);
    stop, foundEnemy', moves', captures' := false, foundEnemy, moves, captures;
    var currentPiece := At(b, current);
    if currentPiece.Some? {
      if currentPiece.value.color == c {
        stop := true;
      } else if foundEnemy.None? {
        foundEnemy' := Some(current);
      } else {
        stop := true;
      }
      if stop {
        assert moves' + [] == moves' && captures' + [] == captures';
      }
    } else {
      if foundEnemy.Some? {
        AppendAssoc(captures, [Capture(current, foundEnemy.value)], rest.captures);
        captures' := captures + [Capture(current, foundEnemy.value)];
      } else {
        AppendAssoc(moves, [Simple(current)], rest.moves);
        moves' := moves + [Simple(current)];
      }
    }
  }

  /** `getKingMoves`: the squares a flying king on `(row, col)` reaches along its four diagonals. */
  method GetKingMoves(b: Board, row: int, col: int, piece: Piece) returns (moves: seq<Move>, captures: seq<Move>)
    ensures Found(moves, captures) == KingMoves(b, Square(row, col), piece.color)
  {
    var from := Square(row, col);
    var directions := KingDirs;
    moves, captures := [], [];
    for i := 0 to |directions|
      invariant Found(moves, captures) == KingRays(b, from, piece.color, i)
    {
      var d := directions[i];
      var current := Step(from, d);
      var foundEnemy: Option<Square> := None;
      ghost var target := Join(Found(moves, captures), ScanRay(b, piece.color, Ray(current, d), None));
      while IsValidPosition(current)
        invariant Join(Found(moves, captures), ScanRay(b, piece.color, Ray(current, d), foundEnemy)) == target
        decreases RayRoom(current, d)
      {
        var stop;
        stop, foundEnemy, moves, captures := KingScanStep(b, piece.color, current, d, foundEnemy, moves, captures);
        if stop {
          break;
        }
        current := Step(current, d);
      }
      assert moves + [] == moves && captures + [] == captures;
    }
  }
}
