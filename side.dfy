/**
 * Everything the game does with all the pieces of one side: the move lists of
 * `getAllMoves` and `calculateMustCapture`, the mobility count, the lone-man
 * test `hasAdjacentFriend`, the end-of-game test of `checkGameOver`, and the
 * board update `simulateMove` (the same as `applyMove` in the AI worker and as
 * the board part of `executeMove`).
 */
module Sides {
  import opened Wrappers
  import opened Boards
  import opened Moves

  // ---------------------------------------------------------------- one piece

  /** The `moves` and `captures` arrays filled for the piece on `sq`: by `getKingMoves` for a king, `getPawnMoves` for a man. */
  function PieceMoves(b: Board, sq: Square): Found {
    match At(b, sq)
      case None => Found([], [])
      case Some(p) => if p.isKing then KingMoves(b, sq, p.color) else PawnMoves(b, sq, p.color)
  }

  /** The dispatch `if (piece.isKing) getKingMoves(…) else getPawnMoves(…)` repeated at every call site. */
  method GetPieceMoves(b: Board, row: int, col: int, piece: Piece) returns (moves: seq<Move>, captures: seq<Move>)
    requires At(b, Square(row, col)) == Some(piece)
    ensures Found(moves, captures) == PieceMoves(b, Square(row, col))
  {
    if piece.isKing {
      moves, captures := GetKingMoves(b, row, col, piece);
    } else {
      moves, captures := GetPawnMoves(b, row, col, piece);
    }
  }

  /**
   * Every move of the piece on `sq` lands on an empty on-board square, other
   * than `sq`, and every capture names a square, other than `sq` and the
   * landing square, that holds an enemy.
   */
  lemma PieceMovesLand(b: Board, sq: Square)
    ensures forall m :: m in PieceMoves(b, sq).moves ==> m.Simple? && Lands(b, At(b, sq).value.color, m) && m.to != sq
    ensures forall m :: m in PieceMoves(b, sq).captures ==>
      m.Capture? && Lands(b, At(b, sq).value.color, m) && m.to != sq && m.captured != sq && m.captured != m.to
  {
    if At(b, sq).Some? {
      var p := At(b, sq).value;
      if p.isKing {
        KingMovesLand(b, sq, p.color);
      } else {
        PawnMovesLand(b, sq, p.color);
      }
    }
  }

  /**
   * `getValidMoves`: the piece's captures if it has any, else its simple moves.
   * Both of its branches do this, so `mandatoryCapture` makes no difference.
   */
  function ValidMoves(b: Board, sq: Square, mandatoryCapture: bool): (r: seq<Move>)
    ensures r == if PieceMoves(b, sq).captures != [] then PieceMoves(b, sq).captures else PieceMoves(b, sq).moves
  {
    var f := PieceMoves(b, sq);
    if mandatoryCapture && |f.captures| > 0 then f.captures
    else if |f.captures| > 0 then f.captures else f.moves
  }

  // ---------------------------------------------------------------- one side

  /**
   * The moves and captures found for the piece on each square.  The scans
   * below are written for any such table; the game's own is `Gen(b)`.
   */
  type Generator = Square -> Found

  /** The generators of the game on board `b`. */
  function Gen(b: Board): Generator {
    sq => PieceMoves(b, sq)
  }

  /** `{fromRow, fromCol, move}` for each move of `ms`, in order. */
  function Tag(from: Square, ms: seq<Move>): (r: seq<MoveData>)
    ensures |r| == |ms| && forall j :: 0 <= j < |ms| ==> r[j] == MoveData(from, ms[j])
  {
    if ms == [] then [] else [MoveData(from, ms[0])] + Tag(from, ms[1..])
  }

  lemma TagIff(from: Square, ms: seq<Move>, md: MoveData)
    ensures md in Tag(from, ms) <==> md.from == from && md.move in ms
  {
    if md in Tag(from, ms) {
      var j :| 0 <= j < |Tag(from, ms)| && Tag(from, ms)[j] == md;
      assert ms[j] == md.move;
    }
    if md.from == from && md.move in ms {
      var j :| 0 <= j < |ms| && ms[j] == md.move;
      assert Tag(from, ms)[j] == md;
    }
  }

  /** The two arrays `getAllMoves` fills: `allMoves` (simple moves) and `captures`. */
  datatype Listed = Listed(simple: seq<MoveData>, captures: seq<MoveData>)

  /**
   * The row-major scan of `getAllMoves` up to the cell `(row, col)`: the
   * tagged moves and captures of each piece of colour `c`, appended cell by cell.
   */
  function SideScan(b: Board, c: Color, g: Generator, row: int, col: int): Listed
    requires 0 <= row <= BoardSize && 0 <= col <= BoardSize
    decreases row, col
  {
    if col == 0 then
      if row == 0 then Listed([], []) else SideScan(b, c, g, row - 1, BoardSize)
    else
      var prev := SideScan(b, c, g, row, col - 1);
      var sq := Square(row, col - 1);
      if Owns(b, c, sq) then
        Listed(prev.simple + Tag(sq, g(sq).moves), prev.captures + Tag(sq, g(sq).captures))
      else prev
  }

  /** The scan of the whole board. */
  function FullScan(b: Board, c: Color, g: Generator): Listed {
    SideScan(b, c, g, BoardSize, 0)
  }

  /** The captures if there are any, else the simple moves. */
  function Choose(l: Listed): seq<MoveData> {
    if l.captures != [] then l.captures else l.simple
  }

  /** What `getAllMoves(color)` returns: every capture of the side if it has one, else every simple move. */
  function SideMoves(b: Board, c: Color): seq<MoveData> {
    Choose(FullScan(b, c, Gen(b)))
  }

  /** Row-major order on squares, ties allowed. */
  predicate NotAfter(p: Square, q: Square) {
    p.row < q.row || (p.row == q.row && p.col <= q.col)
  }

  /**
   * An entry is listed by the scan up to `(row, col)` exactly when its origin
   * is a square before that cell, holds a piece of colour `c`, and the move is
   * one that piece's generator produces.
   */
  lemma {:induction false} SideScanIff(b: Board, c: Color, g: Generator, row: int, col: int, md: MoveData)
    requires 0 <= row <= BoardSize && 0 <= col <= BoardSize
    ensures md in SideScan(b, c, g, row, col).simple <==>
      IsValidPosition(md.from) && Before(md.from, row, col) && Owns(b, c, md.from) && md.move in g(md.from).moves
    ensures md in SideScan(b, c, g, row, col).captures <==>
      IsValidPosition(md.from) && Before(md.from, row, col) && Owns(b, c, md.from) && md.move in g(md.from).captures
    decreases row, col
  {
    if col == 0 {
      if row > 0 {
        SideScanIff(b, c, g, row - 1, BoardSize, md);
      }
    } else {
      SideScanIff(b, c, g, row, col - 1, md);
      var sq := Square(row, col - 1);
      TagIff(sq, g(sq).moves, md);
      TagIff(sq, g(sq).captures, md);
    }
  }

  /** The origins of the entries of `s` are in row-major order, all before `(row, col)`. */
  predicate OrderedBefore(s: seq<MoveData>, row: int, col: int) {
    (forall i, j :: 0 <= i < j < |s| ==> NotAfter(s[i].from, s[j].from)) &&
    (forall i :: 0 <= i < |s| ==> Before(s[i].from, row, col))
  }

  /** Appending the entries of the cell `(row, col - 1)` keeps the order. */
  lemma OrderedAppend(s: seq<MoveData>, row: int, col: int, ms: seq<Move>)
    requires OrderedBefore(s, row, col - 1)
    ensures OrderedBefore(s + Tag(Square(row, col - 1), ms), row, col)
  {
  }

  /** The entries of the scan are in row-major order of their origins, all before `(row, col)`. */
  lemma {:induction false} SideScanOrdered(b: Board, c: Color, g: Generator, row: int, col: int)
    requires 0 <= row <= BoardSize && 0 <= col <= BoardSize
    ensures OrderedBefore(SideScan(b, c, g, row, col).simple, row, col)
    ensures OrderedBefore(SideScan(b, c, g, row, col).captures, row, col)
    decreases row, col
  {
    if col == 0 {
      if row > 0 {
        SideScanOrdered(b, c, g, row - 1, BoardSize);
      }
    } else {
      SideScanOrdered(b, c, g, row, col - 1);
      var sq := Square(row, col - 1);
      var prev := SideScan(b, c, g, row, col - 1);
      OrderedAppend(prev.simple, row, col, g(sq).moves);
      OrderedAppend(prev.captures, row, col, g(sq).captures);
    }
  }

  /** The side has a piece with a capture. */
  ghost predicate HasCapture(b: Board, c: Color, g: Generator) {
    exists sq :: Owns(b, c, sq) && g(sq).captures != []
  }

  /** The full scan finds a capture exactly when some piece of the side has one. */
  lemma ScanCapturesIff(b: Board, c: Color, g: Generator)
    ensures FullScan(b, c, g).captures != [] <==> HasCapture(b, c, g)
  {
    var caps := FullScan(b, c, g).captures;
    if caps != [] {
      SideScanIff(b, c, g, BoardSize, 0, caps[0]);
    }
    if HasCapture(b, c, g) {
      var sq :| Owns(b, c, sq) && g(sq).captures != [];
      SideScanIff(b, c, g, BoardSize, 0, MoveData(sq, g(sq).captures[0]));
    }
  }

  /**
   * The choice of `getAllMoves`: when any piece of the side can capture,
   * exactly the captures of all its pieces; otherwise exactly the simple moves
   * of all its pieces.  Each entry carries the square of the piece that makes it.
   */
  lemma ChooseIff(b: Board, c: Color, g: Generator, md: MoveData)
    ensures md in Choose(FullScan(b, c, g)) <==>
      Owns(b, c, md.from) && if HasCapture(b, c, g) then md.move in g(md.from).captures else md.move in g(md.from).moves
  {
    ScanCapturesIff(b, c, g);
    SideScanIff(b, c, g, BoardSize, 0, md);
  }

  /** `getAllMoves` in terms of the generators of the game. */
  lemma SideMovesIff(b: Board, c: Color, md: MoveData)
    ensures md in SideMoves(b, c) <==>
      Owns(b, c, md.from) &&
      if HasCapture(b, c, Gen(b)) then md.move in PieceMoves(b, md.from).captures else md.move in PieceMoves(b, md.from).moves
  {
    ChooseIff(b, c, Gen(b), md);
  }

  /** The entries of `getAllMoves` come in row-major order of their origins. */
  lemma SideMovesOrdered(b: Board, c: Color)
    ensures OrderedBefore(SideMoves(b, c), BoardSize, 0)
  {
    SideScanOrdered(b, c, Gen(b), BoardSize, 0);
  }

  /** One pass of the inner `for (const move of …)` loops of `getAllMoves`: the piece's moves pushed with its square. */
  method PushTagged(from: Square, ms: seq<Move>, acc: seq<MoveData>) returns (acc': seq<MoveData>)
    ensures acc' == acc + Tag(from, ms)
  {
    acc' := acc;
    for k := 0 to |ms|
      invariant acc' == acc + Tag(from, ms[..k])
    {
      assert Tag(from, ms[..k + 1]) == Tag(from, ms[..k]) + [MoveData(from, ms[k])];
      acc' := acc' + [MoveData(from, ms[k])];
    }
    assert ms[..|ms|] == ms;
  }

  /** The loop body of `getAllMoves` for the cell `(row, col)`. */
  method ScanCell(b: Board, color: Color, row: int, col: int, allMoves: seq<MoveData>, captures: seq<MoveData>)
    returns (allMoves': seq<MoveData>, captures': seq<MoveData>)
    requires 0 <= row < BoardSize && 0 <= col < BoardSize
    requires Listed(allMoves, captures) == SideScan(b, color, Gen(b), row, col)
    ensures Listed(allMoves', captures') == SideScan(b, color, Gen(b), row, col + 1)
  {
    allMoves', captures' := allMoves, captures;
    var piece := At(b, Square(row, col));
    if piece.Some? && piece.value.color == color {
      var moves, pieceCaptures := GetPieceMoves(b, row, col, piece.value);
      captures' := PushTagged(Square(row, col), pieceCaptures, captures');
      allMoves' := PushTagged(Square(row, col), moves, allMoves');
    }
  }

  /** The nested row/col loops of `getAllMoves`: the whole scan. */
  method ScanSide(b: Board, color: Color) returns (allMoves: seq<MoveData>, captures: seq<MoveData>)
    ensures Listed(allMoves, captures) == FullScan(b, color, Gen(b))
  {
    allMoves, captures := [], [];
    for row := 0 to BoardSize
      invariant Listed(allMoves, captures) == SideScan(b, color, Gen(b), row, 0)
    {
      for col := 0 to BoardSize
        invariant Listed(allMoves, captures) == SideScan(b, color, Gen(b), row, col)
      {
        allMoves, captures := ScanCell(b, color, row, col, allMoves, captures);
      }
    }
  }

  /** `getAllMoves(color)`; `mandatoryCapture` is read but both branches return the captures when there are any. */
  method GetAllMoves(b: Board, color: Color, mandatoryCapture: bool) returns (r: seq<MoveData>)
    ensures r == SideMoves(b, color)
  {
    var allMoves, captures := ScanSide(b, color);
    if mandatoryCapture && |captures| > 0 {
      return captures;
    }
    r := if |captures| > 0 then captures else allMoves;
  }

  /** The loop body of `calculateMustCapture` for the cell `(row, col)`. */
  method MustCaptureCell(b: Board, currentPlayer: Color, row: int, col: int, mustCapture: seq<MoveData>)
    returns (mustCapture': seq<MoveData>)
    requires 0 <= row < BoardSize && 0 <= col < BoardSize
    requires mustCapture == SideScan(b, currentPlayer, Gen(b), row, col).captures
    ensures mustCapture' == SideScan(b, currentPlayer, Gen(b), row, col + 1).captures
  {
    mustCapture' := mustCapture;
    var piece := At(b, Square(row, col));
    if piece.Some? && piece.value.color == currentPlayer {
      var moves, captures := GetPieceMoves(b, row, col, piece.value);
      mustCapture' := PushTagged(Square(row, col), captures, mustCapture');
    }
  }

  /** What `calculateMustCapture` lists: every capture of the side, tagged with its origin, in row-major order. */
  function MustCapture(b: Board, c: Color): seq<MoveData> {
    FullScan(b, c, Gen(b)).captures
  }

  /** `calculateMustCapture`. */
  method CalculateMustCapture(b: Board, currentPlayer: Color) returns (mustCapture: seq<MoveData>)
    ensures mustCapture == MustCapture(b, currentPlayer)
  {
    mustCapture := [];
    for row := 0 to BoardSize
      invariant mustCapture == SideScan(b, currentPlayer, Gen(b), row, 0).captures
    {
      for col := 0 to BoardSize
        invariant mustCapture == SideScan(b, currentPlayer, Gen(b), row, col).captures
      {
        mustCapture := MustCaptureCell(b, currentPlayer, row, col, mustCapture);
      }
    }
  }

  /** An entry of `mustCapture` is exactly a capture of a piece of the side; when there is one, `getAllMoves` returns the same list. */
  lemma MustCaptureIff(b: Board, c: Color, md: MoveData)
    ensures md in MustCapture(b, c) <==> Owns(b, c, md.from) && md.move in PieceMoves(b, md.from).captures
    ensures MustCapture(b, c) != [] ==> SideMoves(b, c) == MustCapture(b, c)
  {
    SideScanIff(b, c, Gen(b), BoardSize, 0, md);
  }

  /** On the opening layout no man of either side stands diagonally next to an enemy, so no capture exists. */
  lemma OpeningNoCapture(b: Board, c: Color, md: MoveData)
    requires IsInitial(b)
    ensures md !in MustCapture(b, c)
  {
    MustCaptureIff(b, c, md);
    var from := md.from;
    if Owns(b, c, from) {
      assert At(b, from) == InitialCell(from);
      PawnJumpIff(b, from, c, md.move);
      if md.move.Capture? && At(b, md.move.captured).Some? {
        assert At(b, md.move.captured) == InitialCell(md.move.captured);
      }
    }
  }

  /** The opening position owes no capture: `calculateMustCapture` finds nothing for either side. */
  lemma OpeningNoCaptures(b: Board)
    requires IsInitial(b)
    ensures MustCapture(b, Black) == [] && MustCapture(b, White) == []
  {
    if MustCapture(b, Black) != [] {
      OpeningNoCapture(b, Black, MustCapture(b, Black)[0]);
    }
    if MustCapture(b, White) != [] {
      OpeningNoCapture(b, White, MustCapture(b, White)[0]);
    }
  }

  // ---------------------------------------------------------------- mobility

  /** The `countMobility` sum up to the cell `(row, col)`: simple moves count one, captures two. */
  function Mobility(b: Board, c: Color, g: Generator, row: int, col: int): int
    requires 0 <= row <= BoardSize && 0 <= col <= BoardSize
    decreases row, col
  {
    if col == 0 then
      if row == 0 then 0 else Mobility(b, c, g, row - 1, BoardSize)
    else
      var sq := Square(row, col - 1);
      Mobility(b, c, g, row, col - 1) + if Owns(b, c, sq) then |g(sq).moves| + 2 * |g(sq).captures| else 0
  }

  /** The mobility of a side is its number of simple moves plus twice its number of captures. */
  lemma {:induction false} MobilityCounts(b: Board, c: Color, g: Generator, row: int, col: int)
    requires 0 <= row <= BoardSize && 0 <= col <= BoardSize
    ensures Mobility(b, c, g, row, col) == |SideScan(b, c, g, row, col).simple| + 2 * |SideScan(b, c, g, row, col).captures|
    decreases row, col
  {
    if col == 0 {
      if row > 0 {
        MobilityCounts(b, c, g, row - 1, BoardSize);
      }
    } else {
      MobilityCounts(b, c, g, row, col - 1);
      var sq := Square(row, col - 1);
      var prev := SideScan(b, c, g, row, col - 1);
      if Owns(b, c, sq) {
        assert SideScan(b, c, g, row, col) == Listed(prev.simple + Tag(sq, g(sq).moves), prev.captures + Tag(sq, g(sq).captures));
      } else {
        assert SideScan(b, c, g, row, col) == prev;
      }
    }
  }

  /** A piece of the side before `(row, col)` with a move or a capture adds to the partial sum. */
  lemma MovableMobileBefore(b: Board, c: Color, g: Generator, row: int, col: int, sq: Square)
    requires 0 <= row <= BoardSize && 0 <= col <= BoardSize
    requires IsValidPosition(sq) && Before(sq, row, col)
    requires Owns(b, c, sq) && (g(sq).moves != [] || g(sq).captures != [])
    ensures Mobility(b, c, g, row, col) > 0
  {
    MobilityCounts(b, c, g, row, col);
    if g(sq).moves != [] {
      SideScanIff(b, c, g, row, col, MoveData(sq, g(sq).moves[0]));
    } else {
      SideScanIff(b, c, g, row, col, MoveData(sq, g(sq).captures[0]));
    }
  }

  /** A piece of the side with a move or a capture adds to its mobility. */
  lemma MovableMobile(b: Board, c: Color, g: Generator, sq: Square)
    requires Owns(b, c, sq) && (g(sq).moves != [] || g(sq).captures != [])
    ensures Mobility(b, c, g, BoardSize, 0) > 0
  {
    assert IsValidPosition(sq);
    MovableMobileBefore(b, c, g, BoardSize, 0, sq);
  }

  /** Partial mobility comes from some piece of the side before `(row, col)`. */
  lemma MobileMovableBefore(b: Board, c: Color, g: Generator, row: int, col: int)
    requires 0 <= row <= BoardSize && 0 <= col <= BoardSize
    requires Mobility(b, c, g, row, col) != 0
    ensures exists sq :: Owns(b, c, sq) && (g(sq).moves != [] || g(sq).captures != [])
  {
    MobilityCounts(b, c, g, row, col);
    var s := SideScan(b, c, g, row, col);
    var md := if s.simple != [] then s.simple[0] else s.captures[0];
    SideScanIff(b, c, g, row, col, md);
  }

  /** Mobility comes from some piece of the side with a move or a capture. */
  lemma MobileMovable(b: Board, c: Color, g: Generator)
    requires Mobility(b, c, g, BoardSize, 0) != 0
    ensures exists sq :: Owns(b, c, sq) && (g(sq).moves != [] || g(sq).captures != [])
  {
    MobileMovableBefore(b, c, g, BoardSize, 0);
  }

  /** A side has no mobility exactly when none of its pieces has a move or a capture. */
  lemma MobilityZero(b: Board, c: Color, g: Generator)
    ensures Mobility(b, c, g, BoardSize, 0) == 0 <==>
      forall sq :: Owns(b, c, sq) ==> g(sq).moves == [] && g(sq).captures == []
  {
    if Mobility(b, c, g, BoardSize, 0) != 0 {
      MobileMovable(b, c, g);
    } else {
      forall sq | Owns(b, c, sq)
        ensures g(sq).moves == [] && g(sq).captures == []
      {
        if g(sq).moves != [] || g(sq).captures != [] {
          MovableMobile(b, c, g, sq);
        }
      }
    }
  }

  /** The loop body of `countMobility` for the cell `(row, col)`. */
  method MobilityCell(b: Board, color: Color, row: int, col: int, mobility: int) returns (mobility': int)
    requires 0 <= row < BoardSize && 0 <= col < BoardSize
    requires mobility == Mobility(b, color, Gen(b), row, col)
    ensures mobility' == Mobility(b, color, Gen(b), row, col + 1)
  {
    mobility' := mobility;
    var piece := At(b, Square(row, col));
    if piece.Some? && piece.value.color == color {
      var moves, captures := GetPieceMoves(b, row, col, piece.value);
      mobility' := mobility' + |moves| + |captures| * 2;
    }
  }

  /** `countMobility(color)`. */
  method CountMobility(b: Board, color: Color) returns (mobility: int)
    ensures mobility == Mobility(b, color, Gen(b), BoardSize, 0)
  {
    mobility := 0;
    for row := 0 to BoardSize
      invariant mobility == Mobility(b, color, Gen(b), row, 0)
    {
      for col := 0 to BoardSize
        invariant mobility == Mobility(b, color, Gen(b), row, col)
      {
        mobility := MobilityCell(b, color, row, col, mobility);
      }
    }
  }

  // ---------------------------------------------------------------- lone men

  /**
   * `hasAdjacentFriend(row, col, color)`: some diagonal neighbour of the
   * square is on the board and holds a piece of that colour.
   */
  method HasAdjacentFriend(b: Board, row: int, col: int, color: Color) returns (r: bool)
    ensures r <==> exists i :: 0 <= i < |KingDirs| && Owns(b, color, Step(Square(row, col), KingDirs[i]))
  {
    var directions := KingDirs;
    for i := 0 to |directions|
      invariant forall j :: 0 <= j < i ==> !Owns(b, color, Step(Square(row, col), KingDirs[j]))
    {
      var newRow, newCol := row + directions[i].dr, col + directions[i].dc;
      if IsValidPosition(Square(newRow, newCol)) {
        var piece := At(b, Square(newRow, newCol));
        if piece.Some? && piece.value.color == color {
          assert Owns(b, color, Step(Square(row, col), KingDirs[i]));
          return true;
        }
      }
    }
    return false;
  }

  // ---------------------------------------------------------------- end of game

  /** The piece on `sq` has a simple move or a capture. */
  predicate Movable(g: Generator, sq: Square) {
    g(sq).moves != [] || g(sq).captures != []
  }

  /** One of the listed squares holds a piece with a move or a capture. */
  predicate AnyMove(g: Generator, pieces: seq<Square>) {
    exists k :: 0 <= k < |pieces| && Movable(g, pieces[k])
  }

  /** What `checkGameOver` decides: the winner, if the game is over. */
  function Winner(b: Board, currentPlayer: Color): Option<Color> {
    if |AllPieces(b, Black)| == 0 then Some(White)
    else if |AllPieces(b, White)| == 0 then Some(Black)
    else if !AnyMove(Gen(b), AllPieces(b, currentPlayer)) then Some(Opponent(currentPlayer))
    else None
  }

  /** A piece of the side that can move puts something in the choice of `getAllMoves`. */
  lemma MovableListed(b: Board, c: Color, g: Generator, sq: Square)
    requires Owns(b, c, sq) && Movable(g, sq)
    ensures Choose(FullScan(b, c, g)) != []
  {
    ScanCapturesIff(b, c, g);
    if HasCapture(b, c, g) {
      var q :| Owns(b, c, q) && g(q).captures != [];
      ChooseIff(b, c, g, MoveData(q, g(q).captures[0]));
    } else {
      ChooseIff(b, c, g, MoveData(sq, g(sq).moves[0]));
    }
  }

  /** Every move `getAllMoves` lists starts from a piece of the side that has a move or a capture. */
  lemma ListedMovable(b: Board, c: Color, g: Generator, md: MoveData)
    requires md in Choose(FullScan(b, c, g))
    ensures Owns(b, c, md.from) && Movable(g, md.from)
  {
    ChooseIff(b, c, g, md);
  }

  /** A listed piece with a move or a capture makes `getAllMoves` find something. */
  lemma AnyMoveListed(b: Board, c: Color, g: Generator)
    requires AnyMove(g, AllPieces(b, c))
    ensures Choose(FullScan(b, c, g)) != []
  {
    var ps := AllPieces(b, c);
    var k :| 0 <= k < |ps| && Movable(g, ps[k]);
    PiecesOfComplete(b, c, BoardSize, 0, ps[k]);
    MovableListed(b, c, g, ps[k]);
  }

  /** Whatever `getAllMoves` finds comes from a listed piece with a move or a capture. */
  lemma ListedAnyMove(b: Board, c: Color, g: Generator)
    requires Choose(FullScan(b, c, g)) != []
    ensures AnyMove(g, AllPieces(b, c))
  {
    var ps := AllPieces(b, c);
    var md := Choose(FullScan(b, c, g))[0];
    ListedMovable(b, c, g, md);
    PiecesOfComplete(b, c, BoardSize, 0, md.from);
    var k :| 0 <= k < |ps| && ps[k] == md.from;
    assert Movable(g, ps[k]);
  }

  /** A side is blocked exactly when `getAllMoves` finds nothing for it: the terminal test of the search. */
  lemma BlockedIff(b: Board, c: Color, g: Generator)
    ensures !AnyMove(g, AllPieces(b, c)) <==> Choose(FullScan(b, c, g)) == []
  {
    if AnyMove(g, AllPieces(b, c)) {
      AnyMoveListed(b, c, g);
    }
    if Choose(FullScan(b, c, g)) != [] {
      ListedAnyMove(b, c, g);
    }
  }

  /**
   * `checkGameOver`: a side without pieces loses, black's count being looked
   * at first; otherwise the side to move loses exactly when `getAllMoves`
   * finds nothing for it.
   */
  lemma WinnerCases(b: Board, currentPlayer: Color)
    ensures |AllPieces(b, Black)| == 0 ==> Winner(b, currentPlayer) == Some(White)
    ensures |AllPieces(b, Black)| > 0 && |AllPieces(b, White)| == 0 ==> Winner(b, currentPlayer) == Some(Black)
    ensures |AllPieces(b, Black)| > 0 && |AllPieces(b, White)| > 0 ==>
      (Winner(b, currentPlayer) == Some(Opponent(currentPlayer)) <==> SideMoves(b, currentPlayer) == []) &&
      (Winner(b, currentPlayer) == None <==> SideMoves(b, currentPlayer) != [])
  {
    BlockedIff(b, currentPlayer, Gen(b));
  }

  /** The loop body of the board scan of `checkGameOver` for the cell `(row, col)`. */
  method CollectCell(b: Board, row: int, col: int, blackPieces: seq<Square>, whitePieces: seq<Square>)
    returns (blackPieces': seq<Square>, whitePieces': seq<Square>)
    requires 0 <= row < BoardSize && 0 <= col < BoardSize
    requires blackPieces == PiecesOf(b, Black, row, col) && whitePieces == PiecesOf(b, White, row, col)
    ensures blackPieces' == PiecesOf(b, Black, row, col + 1) && whitePieces' == PiecesOf(b, White, row, col + 1)
  {
    blackPieces', whitePieces' := blackPieces, whitePieces;
    var piece := At(b, Square(row, col));
    if piece.Some? {
      if piece.value.color == Black {
        blackPieces' := blackPieces' + [Square(row, col)];
      } else {
        whitePieces' := whitePieces' + [Square(row, col)];
      }
    }
  }

  /** The nested row/col loops of `checkGameOver` that collect the squares of each side. */
  method CollectPieces(b: Board) returns (blackPieces: seq<Square>, whitePieces: seq<Square>)
    ensures blackPieces == AllPieces(b, Black) && whitePieces == AllPieces(b, White)
  {
    blackPieces, whitePieces := [], [];
    for row := 0 to BoardSize
      invariant blackPieces == PiecesOf(b, Black, row, 0) && whitePieces == PiecesOf(b, White, row, 0)
    {
      for col := 0 to BoardSize
        invariant blackPieces == PiecesOf(b, Black, row, col) && whitePieces == PiecesOf(b, White, row, col)
      {
        blackPieces, whitePieces := CollectCell(b, row, col, blackPieces, whitePieces);
      }
    }
  }

  /** The loop body of the `hasValidMove` loop of `checkGameOver`: the piece's generator finds something. */
  method PieceCanMove(b: Board, sq: Square) returns (r: bool)
    requires At(b, sq).Some?
    ensures r == Movable(Gen(b), sq)
  {
    var moves, captures := GetPieceMoves(b, sq.row, sq.col, At(b, sq).value);
    r := |moves| > 0 || |captures| > 0;
  }

  /** No piece among the first `k + 1` can move when none among the first `k` can and the next cannot. */
  lemma NoMoveStep(g: Generator, pieces: seq<Square>, k: nat)
    requires k < |pieces| && !AnyMove(g, pieces[..k]) && !Movable(g, pieces[k])
    ensures !AnyMove(g, pieces[..k + 1])
  {
    var next := pieces[..k + 1];
    forall j | 0 <= j < |next|
      ensures !Movable(g, next[j])
    {
      if j < k {
        assert next[j] == pieces[..k][j];
      }
    }
  }

  /** One piece that can move is enough. */
  lemma SomeMove(g: Generator, pieces: seq<Square>, k: nat)
    requires k < |pieces| && Movable(g, pieces[k])
    ensures AnyMove(g, pieces)
  {
  }

  /** The `hasValidMove` loop of `checkGameOver` over the pieces of the side to move. */
  method HasValidMove(b: Board, currentPieces: seq<Square>) returns (hasValidMove: bool)
    requires forall k :: 0 <= k < |currentPieces| ==> At(b, currentPieces[k]).Some?
    ensures hasValidMove <==> AnyMove(Gen(b), currentPieces)
  {
    hasValidMove := false;
    for k := 0 to |currentPieces|
      invariant !AnyMove(Gen(b), currentPieces[..k])
    {
      var canMove := PieceCanMove(b, currentPieces[k]);
      if canMove {
        SomeMove(Gen(b), currentPieces, k);
        return true;
      }
      NoMoveStep(Gen(b), currentPieces, k);
    }
    assert currentPieces[..|currentPieces|] == currentPieces;
  }

  /** `checkGameOver`, with `endGame` reduced to the winner it announces. */
  method CheckGameOver(b: Board, currentPlayer: Color) returns (winner: Option<Color>)
    ensures winner == Winner(b, currentPlayer)
  {
    var blackPieces, whitePieces := CollectPieces(b);
    if |blackPieces| == 0 {
      return Some(White);
    }
    if |whitePieces| == 0 {
      return Some(Black);
    }
    var currentPieces := if currentPlayer == Black then blackPieces else whitePieces;
    var hasValidMove := HasValidMove(b, currentPieces);
    if !hasValidMove {
      return Some(Opponent(currentPlayer));
    }
    return None;
  }

  // ---------------------------------------------------------------- moving

  /** The square on which a man of colour `c` is crowned: row 9 for black, row 0 for white. */
  function CrownRow(c: Color): int {
    if c == Black then BoardSize - 1 else 0
  }

  /**
   * `checkPromotion(row, col)`: a man standing on its crowning row becomes a
   * king; nothing else changes, and no piece ever loses its crown.
   */
  function CheckPromotion(b: Board, sq: Square): (r: Board)
    ensures forall q :: q != sq ==> At(r, q) == At(b, q)
    ensures At(r, sq) == match At(b, sq)
      case None => None
      case Some(p) => Some(Piece(p.color, p.isKing || sq.row == CrownRow(p.color)))
  {
    match At(b, sq)
      case None => b
      case Some(p) =>
        if p.isKing then b
        else if (p.color == Black && sq.row == BoardSize - 1) || (p.color == White && sq.row == 0) then
          Put(b, sq, Some(Piece(p.color, true)))
        else b
  }

  /**
   * `simulateMove(moveData)` (and the worker's `applyMove`, and the board part
   * of `executeMove`): the piece moves to the destination, its square empties,
   * a captured piece is removed, and a man reaching its crowning row is crowned.
   */
  function Apply(b: Board, md: MoveData): Board {
    var piece := At(b, md.from);
    var b1 := Put(Put(b, md.move.to, piece), md.from, None);
    var b2 := if md.move.Capture? then Put(b1, md.move.captured, None) else b1;
    CheckPromotion(b2, md.move.to)
  }

  /** A move a piece of colour `c` can make on `b`: the shape of every entry `getAllMoves` returns. */
  predicate Legal(b: Board, c: Color, md: MoveData) {
    Owns(b, c, md.from) && Lands(b, c, md.move)
  }

  /** Every entry `getAllMoves` returns is a legal move of that side. */
  lemma SideMovesLegal(b: Board, c: Color)
    ensures forall md :: md in SideMoves(b, c) ==> Legal(b, c, md)
  {
    forall md | md in SideMoves(b, c)
      ensures Legal(b, c, md)
    {
      SideMovesIff(b, c, md);
      PieceMovesLand(b, md.from);
    }
  }

  /**
   * A legal move changes exactly its origin (emptied), its destination (the
   * moving piece, crowned on its crowning row) and, for a capture, the captured
   * square (emptied).
   */
  lemma ApplyCells(b: Board, c: Color, md: MoveData)
    requires Legal(b, c, md)
    ensures var p := At(b, md.from).value;
      At(Apply(b, md), md.from).None? &&
      At(Apply(b, md), md.move.to) == Some(Piece(p.color, p.isKing || md.move.to.row == CrownRow(p.color))) &&
      (md.move.Capture? ==> At(Apply(b, md), md.move.captured).None?) &&
      forall q :: q != md.from && q != md.move.to && (md.move.Capture? ==> q != md.move.captured) ==>
        At(Apply(b, md), q) == At(b, q)
  {
  }
}
