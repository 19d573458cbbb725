/**
 * `sortMovesByPriority`: the move ordering the expert search uses to prune
 * more.  Captures come first, then moves closer to the side's crowning row,
 * then moves closer to the centre column.  The game's comparator prefers
 * small destination rows (white's crown is row 0); the worker's prefers large
 * ones (black's crown is row 9).
 *
 * `Array.prototype.sort` is stable, so the result is the stable sort of the
 * list by the comparator; it is written here as an insertion sort.
 */
module Ordering {
  import opened Boards
  import opened Moves

  /** Which way the comparator orders destination rows. */
  datatype RowOrder = Ascending | Descending

  /** `Math.abs(col - 4.5)`, doubled so that it is an integer. */
  function CenterDistance(m: Move): (r: int)
    ensures r >= 0
  {
    if 2 * m.to.col >= 9 then 2 * m.to.col - 9 else 9 - 2 * m.to.col
  }

  /** The row term of the comparator as a value to be kept small. */
  function RowRank(o: RowOrder, m: Move): int {
    if o == Ascending then m.to.row else -m.to.row
  }

  /**
   * The comparator `(a, b) => ...`, its sign as in the source: negative when
   * `a` goes first.  The centre term is doubled, which keeps its sign.
   */
  function Compare(o: RowOrder, a: MoveData, b: MoveData): int {
    if a.move.Capture? && !b.move.Capture? then -1
    else if !a.move.Capture? && b.move.Capture? then 1
    else if a.move.to.row != b.move.to.row then
      (if o == Ascending then a.move.to.row - b.move.to.row else b.move.to.row - a.move.to.row)
    else CenterDistance(a.move) - CenterDistance(b.move)
  }

  /** The three terms the comparator looks at, most significant first. */
  datatype Priority = Priority(capture: int, row: int, center: int)

  function Key(o: RowOrder, md: MoveData): Priority {
    Priority(if md.move.Capture? then 0 else 1, RowRank(o, md.move), CenterDistance(md.move))
  }

  /** Lexicographic order on priorities. */
  predicate KeyLt(p: Priority, q: Priority) {
    p.capture < q.capture ||
    (p.capture == q.capture && (p.row < q.row || (p.row == q.row && p.center < q.center)))
  }

  predicate KeyLe(p: Priority, q: Priority) {
    !KeyLt(q, p)
  }

  /** The comparator is the lexicographic order of the keys: it is a consistent total preorder. */
  lemma CompareIsKeyOrder(o: RowOrder, a: MoveData, b: MoveData)
    ensures Compare(o, a, b) < 0 <==> KeyLt(Key(o, a), Key(o, b))
    ensures Compare(o, a, b) == 0 <==> Key(o, a) == Key(o, b)
    ensures Compare(o, a, b) > 0 <==> KeyLt(Key(o, b), Key(o, a))
  {
  }

  /** No later element of `s` goes strictly before an earlier one. */
  predicate Sorted(o: RowOrder, s: seq<MoveData>) {
    forall i, j :: 0 <= i < j < |s| ==> KeyLe(Key(o, s[i]), Key(o, s[j]))
  }

  /** Put `x` after every element that does not come after it. */
  function Insert(o: RowOrder, x: MoveData, s: seq<MoveData>): (r: seq<MoveData>)
    ensures multiset(r) == multiset(s) + multiset{x}
  {
    if s == [] then [x]
    else if KeyLt(Key(o, x), Key(o, s[0])) then [x] + s
    else
      assert s == [s[0]] + s[1..];
      [s[0]] + Insert(o, x, s[1..])
  }

  /** `moves.sort(comparator)` */
  function SortMoves(o: RowOrder, s: seq<MoveData>): (r: seq<MoveData>)
    ensures multiset(r) == multiset(s)
  {
    if s == [] then []
    else
      assert s == s[..|s| - 1] + [s[|s| - 1]];
      Insert(o, s[|s| - 1], SortMoves(o, s[..|s| - 1]))
  }

  lemma {:induction false} InsertSorted(o: RowOrder, x: MoveData, s: seq<MoveData>)
    requires Sorted(o, s)
    ensures Sorted(o, Insert(o, x, s))
    decreases |s|
  {
    if s != [] && !KeyLt(Key(o, x), Key(o, s[0])) {
      var rest := Insert(o, x, s[1..]);
      InsertSorted(o, x, s[1..]);
      forall y | y in rest
        ensures KeyLe(Key(o, s[0]), Key(o, y))
      {
        assert y in multiset(rest);
        if y != x {
          assert y in multiset(s[1..]);
        }
      }
    }
  }

  /** The sorted list is ordered by the comparator. */
  lemma {:induction false} SortMovesSorted(o: RowOrder, s: seq<MoveData>)
    ensures Sorted(o, SortMoves(o, s))
    decreases |s|
  {
    if s != [] {
      SortMovesSorted(o, s[..|s| - 1]);
      InsertSorted(o, s[|s| - 1], SortMoves(o, s[..|s| - 1]));
    }
  }

  /** The elements of `s` with priority `k`, in their order in `s`. */
  function WithKey(o: RowOrder, s: seq<MoveData>, k: Priority): seq<MoveData> {
    if s == [] then []
    else (if Key(o, s[0]) == k then [s[0]] else []) + WithKey(o, s[1..], k)
  }

  lemma {:induction false} WithKeyAppend(o: RowOrder, s: seq<MoveData>, t: seq<MoveData>, k: Priority)
    ensures WithKey(o, s + t, k) == WithKey(o, s, k) + WithKey(o, t, k)
    decreases |s|
  {
    if s != [] {
      var head := if Key(o, s[0]) == k then [s[0]] else [];
      assert (s + t)[0] == s[0];
      assert (s + t)[1..] == s[1..] + t;
      WithKeyAppend(o, s[1..], t, k);
      calc {
        WithKey(o, s + t, k);
        head + WithKey(o, s[1..] + t, k);
        head + (WithKey(o, s[1..], k) + WithKey(o, t, k));
        (head + WithKey(o, s[1..], k)) + WithKey(o, t, k);
      }
    } else {
      assert s + t == t;
    }
  }

  lemma {:induction false} WithKeyNone(o: RowOrder, s: seq<MoveData>, k: Priority)
    requires forall y :: y in s ==> Key(o, y) != k
    ensures WithKey(o, s, k) == []
    decreases |s|
  {
    if s != [] {
      assert s[0] in s;
      WithKeyNone(o, s[1..], k);
    }
  }

  /** Inserting in front of a sorted list whose head comes strictly after `x`. */
  lemma InsertFront(o: RowOrder, x: MoveData, s: seq<MoveData>, k: Priority)
    requires Sorted(o, s) && s != [] && KeyLt(Key(o, x), Key(o, s[0]))
    ensures WithKey(o, [x] + s, k) == WithKey(o, s, k) + WithKey(o, [x], k)
  {
    WithKeyAppend(o, [x], s, k);
    if Key(o, x) == k {
      forall y | y in s
        ensures Key(o, y) != k
      {
        var i :| 0 <= i < |s| && s[i] == y;
        assert i == 0 || KeyLe(Key(o, s[0]), Key(o, s[i]));
      }
      WithKeyNone(o, s, k);
    } else {
      assert WithKey(o, [x], k) == [];
    }
  }

  /** Inserting past the head of the list: `rest` is the insertion into the tail. */
  lemma InsertPast(o: RowOrder, x: MoveData, s: seq<MoveData>, rest: seq<MoveData>, k: Priority)
    requires s != []
    requires WithKey(o, rest, k) == WithKey(o, s[1..], k) + WithKey(o, [x], k)
    ensures WithKey(o, [s[0]] + rest, k) == WithKey(o, s, k) + WithKey(o, [x], k)
  {
    var head := WithKey(o, [s[0]], k);
    calc {
      WithKey(o, [s[0]] + rest, k);
      { WithKeyAppend(o, [s[0]], rest, k); }
      head + (WithKey(o, s[1..], k) + WithKey(o, [x], k));
      (head + WithKey(o, s[1..], k)) + WithKey(o, [x], k);
      { WithKeyAppend(o, [s[0]], s[1..], k); assert [s[0]] + s[1..] == s; }
      WithKey(o, s, k) + WithKey(o, [x], k);
    }
  }

  lemma {:induction false} InsertStable(o: RowOrder, x: MoveData, s: seq<MoveData>, k: Priority)
    requires Sorted(o, s)
    ensures WithKey(o, Insert(o, x, s), k) == WithKey(o, s, k) + WithKey(o, [x], k)
    decreases |s|
  {
    if s == [] {
    } else if KeyLt(Key(o, x), Key(o, s[0])) {
      InsertFront(o, x, s, k);
    } else {
      InsertStable(o, x, s[1..], k);
      InsertPast(o, x, s, Insert(o, x, s[1..]), k);
    }
  }

  /** The sort is stable: moves of equal priority keep their relative order. */
  lemma {:induction false} SortMovesStable(o: RowOrder, s: seq<MoveData>, k: Priority)
    ensures WithKey(o, SortMoves(o, s), k) == WithKey(o, s, k)
    decreases |s|
  {
    if s != [] {
      var init := s[..|s| - 1];
      SortMovesStable(o, init, k);
      SortMovesSorted(o, init);
      InsertStable(o, s[|s| - 1], SortMoves(o, init), k);
      assert s == init + [s[|s| - 1]];
      WithKeyAppend(o, init, [s[|s| - 1]], k);
    }
  }

  /** Every capture comes before every simple move. */
  lemma CapturesFirst(o: RowOrder, s: seq<MoveData>)
    ensures forall i, j :: 0 <= i < j < |SortMoves(o, s)| && SortMoves(o, s)[j].move.Capture? ==>
      SortMoves(o, s)[i].move.Capture?
  {
    SortMovesSorted(o, s);
  }
}
