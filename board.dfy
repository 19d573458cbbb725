/**
 * The 10×10 draughts board: colours, pieces, squares, cell access and the
 * starting layout built by `createBoard`.
 *
 * The source keeps the board as ten row arrays of cells, each cell `null` or a
 * `{color, isKing}` object.  Here it is one sequence of 100 cells in row-major
 * order (cell `row * 10 + col`); reading a square off the board gives an empty
 * cell and writing one changes nothing.
 */
module Boards {
  import opened Wrappers

  /** BOARD_SIZE: rows and columns of the board. */
  const BoardSize: int := 10

  datatype Color = Black | White

  /** The other side (the ternaries on `'black' : 'white'`). */
  function Opponent(c: Color): (o: Color)
    ensures o != c
  {
    if c == Black then White else Black
  }

  datatype Piece = Piece(color: Color, isKing: bool)

  type Cell = Option<Piece>

  datatype Square = Square(row: int, col: int)

  /** isValidPosition */
  predicate IsValidPosition(sq: Square) {
    0 <= sq.row < BoardSize && 0 <= sq.col < BoardSize
  }

  type Board = b: seq<Cell> | |b| == 100 witness seq(100, _ => None)

  /** The square whose cell is at position `i` in row-major order. */
  function SquareOf(i: int): Square {
    Square(i / 10, i % 10)
  }

  lemma SquareOfIndex(i: int)
    requires 0 <= i < 100
    ensures IsValidPosition(SquareOf(i)) && SquareOf(i).row * 10 + SquareOf(i).col == i
  {
  }

  lemma IndexOfSquare(sq: Square)
    requires IsValidPosition(sq)
    ensures SquareOf(sq.row * 10 + sq.col) == sq
  {
  }

  /** `board[row][col]`; off the board there is nothing. */
  function At(b: Board, sq: Square): Cell {
    if IsValidPosition(sq) then b[sq.row * 10 + sq.col] else None
  }

  lemma AtIndex(b: Board, i: int)
    requires 0 <= i < 100
    ensures At(b, SquareOf(i)) == b[i]
  {
    SquareOfIndex(i);
  }

  /** `board[row][col] = c`: exactly that square changes, and only when it is on the board. */
  function Put(b: Board, sq: Square, c: Cell): (r: Board)
    ensures forall q :: At(r, q) == if q == sq && IsValidPosition(sq) then c else At(b, q)
  {
    if IsValidPosition(sq) then b[sq.row * 10 + sq.col := c] else b
  }

  /** Two boards with the same cell on every square are the same board. */
  lemma SameCells(a: Board, b: Board)
    requires forall q :: IsValidPosition(q) ==> At(a, q) == At(b, q)
    ensures a == b
  {
    forall i | 0 <= i < 100
      ensures a[i] == b[i]
    {
      AtIndex(a, i);
      AtIndex(b, i);
    }
  }

  /** A piece of colour `c` stands on `sq`. */
  predicate Owns(b: Board, c: Color, sq: Square) {
    At(b, sq).Some? && At(b, sq).value.color == c
  }

  /** A dark square: the squares where `(row + col) % 2 === 1`. */
  predicate IsDark(sq: Square) {
    (sq.row + sq.col) % 2 == 1
  }

  /** What `createBoard` puts on a square: black men in rows 0-3, white men in rows 6-9, on dark squares only. */
  function InitialCell(sq: Square): Cell {
    if IsDark(sq) then
      if sq.row < 4 then Some(Piece(Black, false))
      else if sq.row > 5 then Some(Piece(White, false))
      else None
    else None
  }

  /** Every square of `b` holds what `createBoard` puts there. */
  ghost predicate IsInitial(b: Board) {
    forall sq {:trigger InitialCell(sq)} :: IsValidPosition(sq) ==> At(b, sq) == InitialCell(sq)
  }

  function InitialBoard(): (b: Board)
    ensures IsInitial(b)
  {
    var s := seq(100, i requires 0 <= i < 100 => InitialCell(SquareOf(i)));
    assert forall sq :: IsValidPosition(sq) ==> At(s, sq) == InitialCell(sq) by {
      forall sq | IsValidPosition(sq)
        ensures At(s, sq) == InitialCell(sq)
      {
        IndexOfSquare(sq);
      }
    }
    s
  }

  /** `sq` comes before the cell `(row, col)` in row-major order. */
  predicate Before(sq: Square, row: int, col: int) {
    sq.row < row || (sq.row == row && sq.col < col)
  }

  /**
   * The squares holding a piece of colour `c` that the row/col scans of
   * `checkGameOver` visit before reaching the cell `(row, col)`: the
   * `blackPieces` and `whitePieces` lists, in row-major order.
   */
  function PiecesOf(b: Board, c: Color, row: int, col: int): (r: seq<Square>)
    requires 0 <= row <= BoardSize && 0 <= col <= BoardSize
    ensures forall k :: 0 <= k < |r| ==> Owns(b, c, r[k])
    decreases row, col
  {
    if col == 0 then
      if row == 0 then [] else PiecesOf(b, c, row - 1, BoardSize)
    else
      var sq := Square(row, col - 1);
      PiecesOf(b, c, row, col - 1) + if Owns(b, c, sq) then [sq] else []
  }

  /** The squares of the whole board that hold a piece of colour `c`. */
  function AllPieces(b: Board, c: Color): seq<Square> {
    PiecesOf(b, c, BoardSize, 0)
  }

  /** The scan lists a square exactly when it is on the board, already visited, and holds a piece of colour `c`. */
  lemma {:induction false} PiecesOfComplete(b: Board, c: Color, row: int, col: int, sq: Square)
    requires 0 <= row <= BoardSize && 0 <= col <= BoardSize
    ensures sq in PiecesOf(b, c, row, col) <==> IsValidPosition(sq) && Before(sq, row, col) && Owns(b, c, sq)
    decreases row, col
  {
    if col == 0 {
      if row > 0 {
        PiecesOfComplete(b, c, row - 1, BoardSize, sq);
      }
    } else {
      PiecesOfComplete(b, c, row, col - 1, sq);
    }
  }

  /** Number of dark squares in row `r` among columns `0 .. c-1`. */
  function DarkBefore(r: int, c: int): int {
    (c + r % 2) / 2
  }

  /** Pieces of colour `c` on the starting board before the cell `(row, col)`. */
  function InitialCount(c: Color, row: int, col: int): int {
    if c == Black then
      if row >= 4 then 20 else 5 * row + DarkBefore(row, col)
    else
      if row < 6 then 0 else if row >= BoardSize then 20 else 5 * (row - 6) + DarkBefore(row, col)
  }

  lemma DarkStep(r: int, k: int)
    requires 0 <= r < 10 && 0 <= k < 10
    ensures DarkBefore(r, k + 1) == DarkBefore(r, k) + (if IsDark(Square(r, k)) then 1 else 0)
    ensures DarkBefore(r, 10) == 5 && DarkBefore(r, 0) == 0
  {
  }

  /** One cell of the scan over the starting board adds one to the count of its colour. */
  lemma InitialCellStep(b: Board, c: Color, row: int, col: int)
    requires IsInitial(b)
    requires 0 <= row < BoardSize && 0 < col <= BoardSize
    requires |PiecesOf(b, c, row, col - 1)| == InitialCount(c, row, col - 1)
    ensures |PiecesOf(b, c, row, col)| == InitialCount(c, row, col)
  {
    var sq := Square(row, col - 1);
    DarkStep(row, col - 1);
    assert At(b, sq) == InitialCell(sq);
    assert |PiecesOf(b, c, row, col)| ==
      |PiecesOf(b, c, row, col - 1)| + (if Owns(b, c, sq) then 1 else 0);
  }

  /** Moving on to the next row keeps the count. */
  lemma InitialRowStep(b: Board, c: Color, row: int)
    requires 0 < row <= BoardSize
    requires |PiecesOf(b, c, row - 1, BoardSize)| == InitialCount(c, row - 1, BoardSize)
    ensures |PiecesOf(b, c, row, 0)| == InitialCount(c, row, 0)
  {
    DarkStep(row - 1, 0);
    if row < BoardSize {
      DarkStep(row, 0);
    }
  }

  lemma {:induction false} InitialPrefixCount(b: Board, c: Color, row: int, col: int)
    requires IsInitial(b)
    requires 0 <= row <= BoardSize && 0 <= col <= BoardSize
    requires row == BoardSize ==> col == 0
    ensures |PiecesOf(b, c, row, col)| == InitialCount(c, row, col)
    decreases row, col
  {
    if col == 0 {
      if row > 0 {
        InitialPrefixCount(b, c, row - 1, BoardSize);
        InitialRowStep(b, c, row);
      }
    } else {
      InitialPrefixCount(b, c, row, col - 1);
      InitialCellStep(b, c, row, col);
    }
  }

  /** The branches of `createBoard`'s inner loop body for the cell `(row, col)`. */
  method FillCell(b: Board, row: int, col: int) returns (b': Board)
    ensures b' == Put(b, Square(row, col), InitialCell(Square(row, col)))
  {
    if (row + col) % 2 == 1 {
      if row < 4 {
        b' := Put(b, Square(row, col), Some(Piece(Black, false)));
      } else if row > 5 {
        b' := Put(b, Square(row, col), Some(Piece(White, false)));
      } else {
        b' := Put(b, Square(row, col), None);
      }
    } else {
      b' := Put(b, Square(row, col), None);
    }
  }

  /** `createBoard`: fill the board row by row with the starting layout. */
  method CreateBoard() returns (b: Board)
    ensures IsInitial(b)
  {
    b := seq(100, _ => None);
    for row := 0 to BoardSize
      invariant forall sq :: IsValidPosition(sq) ==> At(b, sq) == if sq.row < row then InitialCell(sq) else None
    {
      for col := 0 to BoardSize
        invariant forall sq :: IsValidPosition(sq) ==>
          At(b, sq) == if Before(sq, row, col) then InitialCell(sq) else None
      {
        b := FillCell(b, row, col);
      }
    }
  }

  /** The starting layout is one board. */
  lemma InitialUnique(a: Board, b: Board)
    requires IsInitial(a) && IsInitial(b)
    ensures a == b
  {
    forall q | IsValidPosition(q)
      ensures At(a, q) == At(b, q)
    {
      assert At(a, q) == InitialCell(q);
    }
    SameCells(a, b);
  }

  /**
   * The starting layout: 20 black men and 20 white men, each on a dark square,
   * the black ones in rows 0-3, the white ones in rows 6-9, no kings, and rows
   * 4 and 5 empty.
   */
  lemma InitialLayout(b: Board)
    requires IsInitial(b)
    ensures |AllPieces(b, Black)| == 20
    ensures |AllPieces(b, White)| == 20
    ensures forall sq :: IsValidPosition(sq) && At(b, sq).Some? ==>
      IsDark(sq) && !At(b, sq).value.isKing &&
      (At(b, sq).value.color == Black <==> sq.row < 4) &&
      (At(b, sq).value.color == White <==> sq.row > 5)
  {
    InitialPrefixCount(b, Black, BoardSize, 0);
    InitialPrefixCount(b, White, BoardSize, 0);
    forall sq | IsValidPosition(sq) && At(b, sq).Some?
      ensures IsDark(sq) && !At(b, sq).value.isKing &&
        (At(b, sq).value.color == Black <==> sq.row < 4) && (At(b, sq).value.color == White <==> sq.row > 5)
    {
      assert At(b, sq) == InitialCell(sq);
    }
  }
}
