// The vocabulary both encoder scripts share: the board, its cells, the
// propositions "cell (x, y) holds num", and the targets of the exclusion
// implications that get_formula_for_entry emits, in the order it emits them.
module Sudoku {
  import opened Seqs

  const SideLength: int := 9
  const BoxLength: int := 3

  datatype Option<T> = None | Some(value: T)

  /** The proposition spot_entry(num, x, y): "cell (x, y) holds num". */
  datatype Prop = Prop(num: int, x: int, y: int)

  /** A row-major 9x9 board; None is a blank spot, Some(v) a given number. */
  type Board = seq<seq<Option<int>>>

  /** A completed grid of numbers, row-major. */
  type Grid = seq<seq<int>>

  type Cell = (int, int)

  predicate InRange(i: int)
  {
    0 <= i < SideLength
  }

  predicate IsBoard(b: Board)
  {
    |b| == SideLength && forall i :: 0 <= i < |b| ==> |b[i]| == SideLength
  }

  predicate IsGrid(g: Grid)
  {
    |g| == SideLength && forall i :: 0 <= i < |g| ==> |g[i]| == SideLength
  }

  // ---------------------------------------------------------------------
  // Cells in the order of the nested `for i ... for j ...` loops.

  /** The 81 cells in row-major order: cell (i, j) is at position 9 * i + j. */
  function AllCells(): (r: seq<Cell>)
    ensures |r| == 81 && CellsInRange(r)
  {
    CellAtFacts();
    seq(81, n requires 0 <= n => CellAt(n))
  }

  /** The cell at position n of the row-major order: row n / 9, column n % 9. */
  function CellAt(n: nat): (c: Cell)
  {
    if n < 9 then (0, n) else (CellAt(n - 9).0 + 1, CellAt(n - 9).1)
  }

  lemma {:induction false} CellAtIs(n: nat)
    ensures CellAt(n) == (n / 9, n % 9)
  {
    if n >= 9 {
      CellAtIs(n - 9);
    }
  }

  lemma CellAtFacts()
    ensures forall n :: 0 <= n < 81 ==> InRange(CellAt(n).0) && InRange(CellAt(n).1)
  {
    forall n | 0 <= n < 81
      ensures InRange(CellAt(n).0) && InRange(CellAt(n).1)
    {
      CellAtIs(n);
    }
  }

  predicate CellsInRange(cells: seq<Cell>)
  {
    forall k :: 0 <= k < |cells| ==> InRange(cells[k].0) && InRange(cells[k].1)
  }

  /** Position 9 * i + j of the row-major order is cell (i, j). */
  lemma AllCellsAt(i: int, j: int)
    requires InRange(i) && InRange(j)
    ensures 9 * i + j < 81 && AllCells()[9 * i + j] == (i, j)
  {
    CellAtIs(9 * i + j);
  }

  /** The loop `for i: for j:` has visited AllCells()[..9 * i + j] before (i, j). */
  lemma AllCellsStep(i: int, j: int)
    requires InRange(i) && InRange(j)
    ensures AllCells()[..9 * i + j + 1] == AllCells()[..9 * i + j] + [(i, j)]
  {
    AllCellsAt(i, j);
  }

  /** After the last iteration, the visited prefix is the whole order. */
  lemma AllCellsPrefix()
    ensures AllCells()[..9 * SideLength] == AllCells()
  {
  }

  lemma AllCellsMembers(c: Cell)
    ensures c in AllCells() <==> InRange(c.0) && InRange(c.1)
  {
    if InRange(c.0) && InRange(c.1) {
      AllCellsAt(c.0, c.1);
    }
  }

  lemma AllCellsInRange(n: nat)
    requires n <= 81
    ensures CellsInRange(AllCells()[..n])
  {
  }

  lemma AllCellsDistinct()
    ensures Distinct(AllCells())
  {
    forall m, n | 0 <= m < n < 81
      ensures AllCells()[m] != AllCells()[n]
    {
      CellAtIs(m);
      CellAtIs(n);
    }
  }

  // ---------------------------------------------------------------------
  // Boxes. Python 2's `x / BOX_LENGTH` on non-negative ints is floor
  // division, which agrees with Dafny's `/` there.

  /** box_x_min for a row (and box_y_min for a column): x / 3 * 3. */
  function BoxStart(i: int): int
  {
    i / BoxLength * BoxLength
  }

  predicate InBoxOf(a: int, i: int)
  {
    BoxStart(i) <= a < BoxStart(i) + BoxLength
  }

  lemma BoxStartFacts(i: int)
    requires InRange(i)
    ensures InBoxOf(i, i) && 0 <= BoxStart(i) && BoxStart(i) + BoxLength <= SideLength
  {
  }

  /** box_x_min and box_x_max of get_formula_for_entry. */
  lemma BoxBounds(i: int)
    ensures i / BoxLength * BoxLength == BoxStart(i)
    ensures (i / BoxLength + 1) * BoxLength == BoxStart(i) + BoxLength
  {
  }

  /** Being in the box rows of `i` is being in the same third of the board. */
  lemma InBoxOfIff(a: int, i: int)
    ensures InBoxOf(a, i) <==> a / BoxLength == i / BoxLength
  {
  }

  // ---------------------------------------------------------------------
  // Targets of the implications get_formula_for_entry(x, y, e) emits: each
  // target q yields "spot_entry(e, x, y) implies not q".

  /** The first n iterations of the row/column loop, interleaved as emitted. */
  function RowColTargets(x: int, y: int, e: int, n: nat): seq<Prop>
  {
    if n == 0 then []
    else RowColTargets(x, y, e, n - 1)
         + (if n - 1 != y then [Prop(e, x, n - 1)] else [])
         + (if n - 1 != x then [Prop(e, n - 1, y)] else [])
  }

  /** Box row i, columns box_y_min .. box_y_min + n - 1, skipping row x and column y. */
  function BoxRowTargets(x: int, y: int, e: int, i: int, n: nat): seq<Prop>
  {
    if n == 0 then []
    else BoxRowTargets(x, y, e, i, n - 1)
         + (var j := BoxStart(y) + n - 1; if i != x && j != y then [Prop(e, i, j)] else [])
  }

  /** The first m box rows. */
  function BoxTargets(x: int, y: int, e: int, m: nat): seq<Prop>
  {
    if m == 0 then [] else BoxTargets(x, y, e, m - 1) + BoxRowTargets(x, y, e, BoxStart(x) + m - 1, BoxLength)
  }

  /** The other digits 1 .. n of the same cell (the source stops at n = 8). */
  function CellTargets(x: int, y: int, e: int, n: nat): seq<Prop>
  {
    if n == 0 then [] else CellTargets(x, y, e, n - 1) + (if n != e then [Prop(n, x, y)] else [])
  }

  /** All targets of get_formula_for_entry(x, y, e): row/column, box, cell. */
  function EntryTargets(x: int, y: int, e: int): seq<Prop>
  {
    RowColTargets(x, y, e, SideLength) + BoxTargets(x, y, e, BoxLength) + CellTargets(x, y, e, SideLength - 1)
  }

  /** The propositions that placing e at (x, y) rules out, as a set. */
  predicate Excluded(x: int, y: int, e: int, q: Prop)
  {
    || (q.num == e && q.x == x && InRange(q.y) && q.y != y)
    || (q.num == e && q.y == y && InRange(q.x) && q.x != x)
    || (q.num == e && InBoxOf(q.x, x) && InBoxOf(q.y, y) && q.x != x && q.y != y)
    || (q.x == x && q.y == y && 1 <= q.num < SideLength && q.num != e)
  }

  /** Iteration i of the builder's row/column loop. */
  lemma RowColTargetsStep(x: int, y: int, e: int, i: nat)
    ensures RowColTargets(x, y, e, i + 1) ==
              if i != y && i != x then RowColTargets(x, y, e, i) + [Prop(e, x, i)] + [Prop(e, i, y)]
              else if i != y then RowColTargets(x, y, e, i) + [Prop(e, x, i)]
              else if i != x then RowColTargets(x, y, e, i) + [Prop(e, i, y)]
              else RowColTargets(x, y, e, i)
  {
    var s := RowColTargets(x, y, e, i);
    assert s + [] == s;
    assert s + [] + [] == s;
  }

  /** Column j of box row i, the next one the builder's inner box loop visits. */
  lemma BoxRowTargetsStep(x: int, y: int, e: int, i: int, j: int)
    requires BoxStart(y) <= j
    ensures BoxRowTargets(x, y, e, i, j - BoxStart(y) + 1) ==
              if i != x && j != y then BoxRowTargets(x, y, e, i, j - BoxStart(y)) + [Prop(e, i, j)]
              else BoxRowTargets(x, y, e, i, j - BoxStart(y))
  {
    var s := BoxRowTargets(x, y, e, i, j - BoxStart(y));
    assert s + [] == s;
  }

  /** Box row i, the next one the builder's outer box loop visits. */
  lemma BoxTargetsStep(x: int, y: int, e: int, i: int)
    requires BoxStart(x) <= i
    ensures BoxTargets(x, y, e, i - BoxStart(x) + 1)
            == BoxTargets(x, y, e, i - BoxStart(x)) + BoxRowTargets(x, y, e, i, BoxLength)
  {
  }

  /** Digit n + 1, the next one the builder's same-cell loop visits. */
  lemma CellTargetsStep(x: int, y: int, e: int, n: nat)
    ensures CellTargets(x, y, e, n + 1) ==
              if n + 1 != e then CellTargets(x, y, e, n) + [Prop(n + 1, x, y)] else CellTargets(x, y, e, n)
  {
    var s := CellTargets(x, y, e, n);
    assert s + [] == s;
  }

  lemma {:induction false} RowColTargetsCount(x: int, y: int, e: int, n: nat)
    ensures |RowColTargets(x, y, e, n)| == 2 * n - (if 0 <= y < n then 1 else 0) - (if 0 <= x < n then 1 else 0)
  {
    if n > 0 {
      RowColTargetsCount(x, y, e, n - 1);
    }
  }

  lemma {:induction false} RowColTargetsMembers(x: int, y: int, e: int, n: nat, q: Prop)
    ensures q in RowColTargets(x, y, e, n) <==>
              q.num == e && ((q.x == x && 0 <= q.y < n && q.y != y) || (q.y == y && 0 <= q.x < n && q.x != x))
  {
    if n > 0 {
      RowColTargetsMembers(x, y, e, n - 1, q);
    }
  }

  lemma {:induction false} BoxRowTargetsCount(x: int, y: int, e: int, i: int, n: nat)
    requires n <= BoxLength && InRange(y)
    ensures |BoxRowTargets(x, y, e, i, n)| ==
              if i == x then 0 else n - (if BoxStart(y) <= y < BoxStart(y) + n then 1 else 0)
  {
    if n > 0 {
      BoxRowTargetsCount(x, y, e, i, n - 1);
    }
  }

  lemma {:induction false} BoxRowTargetsMembers(x: int, y: int, e: int, i: int, n: nat, q: Prop)
    ensures q in BoxRowTargets(x, y, e, i, n) <==>
              q.num == e && q.x == i && i != x && BoxStart(y) <= q.y < BoxStart(y) + n && q.y != y
  {
    if n > 0 {
      BoxRowTargetsMembers(x, y, e, i, n - 1, q);
    }
  }

  lemma {:induction false} BoxTargetsCount(x: int, y: int, e: int, m: nat)
    requires m <= BoxLength && InRange(x) && InRange(y)
    ensures |BoxTargets(x, y, e, m)| == 2 * m - (if BoxStart(x) <= x < BoxStart(x) + m then 2 else 0)
  {
    if m > 0 {
      BoxTargetsCount(x, y, e, m - 1);
      BoxRowTargetsCount(x, y, e, BoxStart(x) + m - 1, BoxLength);
    }
  }

  lemma {:induction false} BoxTargetsMembers(x: int, y: int, e: int, m: nat, q: Prop)
    ensures q in BoxTargets(x, y, e, m) <==>
              q.num == e && BoxStart(x) <= q.x < BoxStart(x) + m && q.x != x && InBoxOf(q.y, y) && q.y != y
  {
    if m > 0 {
      BoxTargetsMembers(x, y, e, m - 1, q);
      BoxRowTargetsMembers(x, y, e, BoxStart(x) + m - 1, BoxLength, q);
    }
  }

  lemma {:induction false} CellTargetsCount(x: int, y: int, e: int, n: nat)
    ensures |CellTargets(x, y, e, n)| == n - (if 1 <= e <= n then 1 else 0)
  {
    if n > 0 {
      CellTargetsCount(x, y, e, n - 1);
    }
  }

  lemma {:induction false} CellTargetsMembers(x: int, y: int, e: int, n: nat, q: Prop)
    ensures q in CellTargets(x, y, e, n) <==> q.x == x && q.y == y && 1 <= q.num <= n && q.num != e
  {
    if n > 0 {
      CellTargetsMembers(x, y, e, n - 1, q);
    }
  }

  /**
   * get_formula_for_entry emits 16 row/column, 4 box and 7 or 8 cell
   * implications: the cell loop runs over 1 .. 8 only, so it skips one
   * more digit when e is one of them.
   */
  lemma EntryTargetsCount(x: int, y: int, e: int)
    requires InRange(x) && InRange(y)
    ensures |RowColTargets(x, y, e, SideLength)| == 16
    ensures |BoxTargets(x, y, e, BoxLength)| == 4
    ensures |CellTargets(x, y, e, SideLength - 1)| == if 1 <= e < SideLength then 7 else 8
    ensures |EntryTargets(x, y, e)| == if 1 <= e < SideLength then 27 else 28
  {
    RowColTargetsCount(x, y, e, SideLength);
    BoxTargetsCount(x, y, e, BoxLength);
    CellTargetsCount(x, y, e, SideLength - 1);
  }

  /** A proposition is a target exactly when placing e at (x, y) excludes it. */
  lemma EntryTargetsMembers(x: int, y: int, e: int, q: Prop)
    requires InRange(x) && InRange(y)
    ensures q in EntryTargets(x, y, e) <==> Excluded(x, y, e, q)
  {
    RowColTargetsMembers(x, y, e, SideLength, q);
    BoxTargetsMembers(x, y, e, BoxLength, q);
    CellTargetsMembers(x, y, e, SideLength - 1, q);
  }

  /** No implication has the same proposition on both sides. */
  lemma EntryTargetsAvoidAntecedent(x: int, y: int, e: int)
    requires InRange(x) && InRange(y)
    ensures Prop(e, x, y) !in EntryTargets(x, y, e)
  {
    EntryTargetsMembers(x, y, e, Prop(e, x, y));
  }

  // ---------------------------------------------------------------------
  // Given-value propositions.

  /** The given propositions of `cells`, in order: one per non-blank cell. */
  function GivenProps(board: Board, cells: seq<Cell>): seq<Prop>
    requires IsBoard(board)
    requires CellsInRange(cells)
    decreases |cells|
  {
    if cells == [] then []
    else
      var c := cells[|cells| - 1];
      GivenProps(board, cells[..|cells| - 1])
      + (match board[c.0][c.1] case Some(v) => [Prop(v, c.0, c.1)] case None => [])
  }

  lemma {:induction false} GivenPropsAppend(board: Board, s: seq<Cell>, t: seq<Cell>)
    requires IsBoard(board)
    requires CellsInRange(s) && CellsInRange(t)
    ensures GivenProps(board, s + t) == GivenProps(board, s) + GivenProps(board, t)
    decreases |t|
  {
    if t == [] {
      assert s + t == s;
    } else {
      assert (s + t)[..|s + t| - 1] == s + t[..|t| - 1];
      GivenPropsAppend(board, s, t[..|t| - 1]);
    }
  }

  /** A given proposition is exactly a non-blank cell of `cells` with its number. */
  lemma {:induction false} GivenPropsMembers(board: Board, cells: seq<Cell>, p: Prop)
    requires IsBoard(board)
    requires CellsInRange(cells)
    ensures p in GivenProps(board, cells) <==> (p.x, p.y) in cells && board[p.x][p.y] == Some(p.num)
    decreases |cells|
  {
    if cells != [] {
      GivenPropsMembers(board, cells[..|cells| - 1], p);
      assert cells == cells[..|cells| - 1] + [cells[|cells| - 1]];
    }
  }

  /** The number of non-blank cells in `cells`. */
  function CountGiven(board: Board, cells: seq<Cell>): nat
    requires IsBoard(board)
    requires CellsInRange(cells)
    decreases |cells|
  {
    if cells == [] then 0
    else
      var c := cells[|cells| - 1];
      CountGiven(board, cells[..|cells| - 1]) + (if board[c.0][c.1].Some? then 1 else 0)
  }

  lemma {:induction false} GivenPropsCount(board: Board, cells: seq<Cell>)
    requires IsBoard(board)
    requires CellsInRange(cells)
    ensures |GivenProps(board, cells)| == CountGiven(board, cells)
    decreases |cells|
  {
    if cells != [] {
      GivenPropsCount(board, cells[..|cells| - 1]);
    }
  }

  // ---------------------------------------------------------------------
  // Completed grids.

  /** Every cell holds 1..9, and rows, columns and boxes hold no digit twice. */
  ghost predicate IsSolution(g: Grid)
  {
    && IsGrid(g)
    && (forall r, c :: InRange(r) && InRange(c) ==> 1 <= g[r][c] <= SideLength)
    && (forall r, c1, c2 :: InRange(r) && InRange(c1) && InRange(c2) && c1 != c2 ==> g[r][c1] != g[r][c2])
    && (forall r1, r2, c :: InRange(r1) && InRange(r2) && InRange(c) && r1 != r2 ==> g[r1][c] != g[r2][c])
    && (forall r1, c1, r2, c2 ::
          InRange(r1) && InRange(c1) && InRange(r2) && InRange(c2) && (r1, c1) != (r2, c2)
          && r1 / BoxLength == r2 / BoxLength && c1 / BoxLength == c2 / BoxLength
          ==> g[r1][c1] != g[r2][c2])
  }

  /** The grid keeps every given number of the board. */
  ghost predicate Agrees(g: Grid, board: Board)
    requires IsGrid(g) && IsBoard(board)
  {
    forall r, c :: InRange(r) && InRange(c) && board[r][c].Some? ==> g[r][c] == board[r][c].value
  }

  /** The assignment a grid stands for: (d, r, c) is true iff g[r][c] == d. */
  function GridHolds(g: Grid): (a: Prop -> bool)
    requires IsGrid(g)
  {
    (p: Prop) => InRange(p.x) && InRange(p.y) && g[p.x][p.y] == p.num
  }
}
