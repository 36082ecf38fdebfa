// The formula's models are the board's solutions: a completed grid that
// keeps the givens satisfies the constraints (soundness), and every
// assignment that satisfies them puts exactly one digit in each cell and
// those digits form such a grid (completeness).
module Solutions {
  import opened Seqs
  import opened Sudoku
  import opened Correctness
  import D = DimacsEncoder
  import Z = Z3Encoder

  // ---------------------------------------------------------------------
  // Soundness.

  /** In a solved grid, the digit a cell holds excludes everything get_formula_for_entry negates. */
  lemma SolutionEntryHolds(g: Grid, x: int, y: int, e: int)
    requires IsSolution(g) && InRange(x) && InRange(y)
    ensures EntryHolds(x, y, e, GridHolds(g))
  {
    var a := GridHolds(g);
    if a(Prop(e, x, y)) {
      forall q | Excluded(x, y, e, q)
        ensures !a(q)
      {
        if q.num == e && InBoxOf(q.x, x) && InBoxOf(q.y, y) && q.x != x && q.y != y {
          InBoxOfIff(q.x, x);
          InBoxOfIff(q.y, y);
          BoxStartFacts(x);
          BoxStartFacts(y);
          assert InRange(q.x) && InRange(q.y);
        }
      }
    }
  }

  /** A solution that keeps the givens meets every constraint. */
  lemma SolutionMeetsConstraints(board: Board, g: Grid)
    requires IsBoard(board) && IsSolution(g) && Agrees(g, board)
    ensures Constraints(board, GridHolds(g))
  {
    var a := GridHolds(g);
    forall i, j | InRange(i) && InRange(j)
      ensures CellHolds(board, i, j, a)
    {
      forall d | 1 <= d <= SideLength
        ensures EntryHolds(i, j, d, a)
      {
        SolutionEntryHolds(g, i, j, d);
      }
      if board[i][j].Some? {
        SolutionEntryHolds(g, i, j, board[i][j].value);
      }
    }
    forall i, j | InRange(i) && InRange(j)
      ensures Filled(i, j, a)
    {
      assert a(Prop(g[i][j], i, j));
    }
  }

  /** Soundness of the DIMACS encoder: every solution satisfies its clauses. */
  lemma DimacsSound(board: Board, g: Grid)
    requires IsBoard(board) && IsSolution(g) && Agrees(g, board)
    ensures D.Satisfies(D.AllPartsClauses(board), GridHolds(g))
  {
    SolutionMeetsConstraints(board, g);
    DimacsMeaning(board, GridHolds(g));
  }

  /** Soundness of the z3 encoder: every solution makes its formula true. */
  lemma Z3Sound(board: Board, g: Grid)
    requires IsBoard(board) && IsSolution(g) && Agrees(g, board)
    ensures Z.Eval(Z.AllPartsFormula(board), GridHolds(g))
  {
    SolutionMeetsConstraints(board, g);
    Z3Meaning(board, GridHolds(g));
  }

  // ---------------------------------------------------------------------
  // Reading a grid off an assignment.

  /** The least digit from d up to 9 that `a` makes true at (i, j), or 0 if none. */
  function FirstTrue(a: Prop -> bool, i: int, j: int, d: int): int
    decreases SideLength + 1 - d
  {
    if d > SideLength then 0
    else if a(Prop(d, i, j)) then d
    else FirstTrue(a, i, j, d + 1)
  }

  /** The grid whose cell (i, j) holds the least true digit there. */
  function ModelGrid(a: Prop -> bool): (g: Grid)
    ensures IsGrid(g)
  {
    seq(SideLength, i => seq(SideLength, j => FirstTrue(a, i, j, 1)))
  }

  lemma {:induction false} FirstTrueFacts(a: Prop -> bool, i: int, j: int, d: int)
    requires 1 <= d
    ensures var r := FirstTrue(a, i, j, d);
            || (r == 0 && forall e :: d <= e <= SideLength ==> !a(Prop(e, i, j)))
            || (d <= r <= SideLength && a(Prop(r, i, j)) && forall e :: d <= e < r ==> !a(Prop(e, i, j)))
    decreases SideLength + 1 - d
  {
    if d <= SideLength && !a(Prop(d, i, j)) {
      FirstTrueFacts(a, i, j, d + 1);
    }
  }

  /** The board's numbers are the digits 1..9, as the board format prescribes. */
  predicate GivensAreDigits(board: Board)
    requires IsBoard(board)
  {
    forall i, j :: 0 <= i < SideLength && 0 <= j < SideLength && board[i][j].Some? ==> 1 <= board[i][j].value <= SideLength
  }

  /** The propositions the formula speaks about: a digit 1..9 at a cell of the board. */
  predicate OnBoard(p: Prop)
  {
    InRange(p.x) && InRange(p.y) && 1 <= p.num <= SideLength
  }

  /**
   * The digit read off cell (i, j) is true there, is the given number when
   * there is one, and its entry formula applies: it rules out everything
   * it excludes.
   */
  lemma ValueActive(board: Board, a: Prop -> bool, i: int, j: int)
    requires IsBoard(board) && GivensAreDigits(board) && Constraints(board, a)
    requires InRange(i) && InRange(j)
    ensures var v := FirstTrue(a, i, j, 1);
            && 1 <= v <= SideLength && a(Prop(v, i, j))
            && (board[i][j].Some? ==> v == board[i][j].value)
            && forall q :: Excluded(i, j, v, q) ==> !a(q)
  {
    var v := FirstTrue(a, i, j, 1);
    FirstTrueFacts(a, i, j, 1);
    assert Filled(i, j, a);
    assert CellHolds(board, i, j, a);
    match board[i][j]
    case None =>
      assert EntryHolds(i, j, v, a);
    case Some(g) =>
      assert GivenHolds(board, i, j, a);
      assert EntryHolds(i, j, g, a);
      if v != g {
        assert Excluded(i, j, g, Prop(v, i, j));
        assert false;
      }
  }

  /** Two cells of one row, column or box never read the same digit. */
  lemma ValuesDistinct(board: Board, a: Prop -> bool, i1: int, j1: int, i2: int, j2: int)
    requires IsBoard(board) && GivensAreDigits(board) && Constraints(board, a)
    requires InRange(i1) && InRange(j1) && InRange(i2) && InRange(j2) && (i1, j1) != (i2, j2)
    requires i1 == i2 || j1 == j2 || (i1 / BoxLength == i2 / BoxLength && j1 / BoxLength == j2 / BoxLength)
    ensures FirstTrue(a, i1, j1, 1) != FirstTrue(a, i2, j2, 1)
  {
    var e := FirstTrue(a, i1, j1, 1);
    if e == FirstTrue(a, i2, j2, 1) {
      ValueActive(board, a, i1, j1);
      ValueActive(board, a, i2, j2);
      InBoxOfIff(i2, i1);
      InBoxOfIff(j2, j1);
      assert Excluded(i1, j1, e, Prop(e, i2, j2));
      assert false;
    }
  }

  /** Nine different digits from 1..9 include 9. */
  lemma NineDigitsHaveNine(s: seq<int>)
    requires |s| == SideLength && Distinct(s)
    requires forall k :: 0 <= k < |s| ==> 1 <= s[k] <= SideLength
    ensures SideLength in s
  {
    if SideLength !in s {
      // Otherwise the nine different elements of s would lie among the eight digits 1..8.
      var low := seq(SideLength - 1, k => k + 1);
      DistinctCard(s);
      DistinctCard(low);
      forall x | x in s
        ensures x in low
      {
        assert low[x - 1] == x;
      }
      SubsetCard(set x | x in s, set x | x in low);
      assert false;
    }
  }

  /** Some cell of row i reads 9. */
  lemma RowHasNine(board: Board, a: Prop -> bool, i: int) returns (c: int)
    requires IsBoard(board) && GivensAreDigits(board) && Constraints(board, a) && InRange(i)
    ensures InRange(c) && FirstTrue(a, i, c, 1) == SideLength
  {
    var row := seq(SideLength, c => FirstTrue(a, i, c, 1));
    forall c1, c2 | 0 <= c1 < c2 < |row|
      ensures row[c1] != row[c2]
    {
      ValuesDistinct(board, a, i, c1, i, c2);
    }
    forall k | 0 <= k < |row|
      ensures 1 <= row[k] <= SideLength
    {
      ValueActive(board, a, i, k);
    }
    NineDigitsHaveNine(row);
    var k :| 0 <= k < |row| && row[k] == SideLength;
    c := k;
  }

  /** The digit read off a cell is the only digit 1..9 true there. */
  lemma OnlyValue(board: Board, a: Prop -> bool, i: int, j: int, d: int)
    requires IsBoard(board) && GivensAreDigits(board) && Constraints(board, a)
    requires InRange(i) && InRange(j) && 1 <= d <= SideLength && a(Prop(d, i, j))
    ensures d == FirstTrue(a, i, j, 1)
  {
    var v := FirstTrue(a, i, j, 1);
    ValueActive(board, a, i, j);
    if d != v {
      if d < SideLength {
        assert Excluded(i, j, v, Prop(d, i, j));
        assert false;
      } else {
        // A given cell other than 9 has no clause against 9; the 9 of its row does.
        var c := RowHasNine(board, a, i);
        ValueActive(board, a, i, c);
        assert Excluded(i, c, SideLength, Prop(SideLength, i, j));
        assert false;
      }
    }
  }

  /** The digits read off an assignment that meets the constraints are 1..9 and keep the givens. */
  lemma ModelGridDigits(board: Board, a: Prop -> bool)
    requires IsBoard(board) && GivensAreDigits(board) && Constraints(board, a)
    ensures forall r, c :: InRange(r) && InRange(c) ==> 1 <= ModelGrid(a)[r][c] <= SideLength
    ensures Agrees(ModelGrid(a), board)
  {
    var g := ModelGrid(a);
    forall r, c | InRange(r) && InRange(c)
      ensures 1 <= g[r][c] <= SideLength && (board[r][c].Some? ==> g[r][c] == board[r][c].value)
    {
      ValueActive(board, a, r, c);
    }
  }

  /** No row, column or box of the grid read off repeats a digit. */
  lemma ModelGridDistinct(board: Board, a: Prop -> bool)
    requires IsBoard(board) && GivensAreDigits(board) && Constraints(board, a)
    ensures var g := ModelGrid(a);
            && (forall r, c1, c2 :: InRange(r) && InRange(c1) && InRange(c2) && c1 != c2 ==> g[r][c1] != g[r][c2])
            && (forall r1, r2, c :: InRange(r1) && InRange(r2) && InRange(c) && r1 != r2 ==> g[r1][c] != g[r2][c])
            && (forall r1, c1, r2, c2 ::
                  InRange(r1) && InRange(c1) && InRange(r2) && InRange(c2) && (r1, c1) != (r2, c2)
                  && r1 / BoxLength == r2 / BoxLength && c1 / BoxLength == c2 / BoxLength
                  ==> g[r1][c1] != g[r2][c2])
  {
    var g := ModelGrid(a);
    forall r1, c1, r2, c2 |
      InRange(r1) && InRange(c1) && InRange(r2) && InRange(c2) && (r1, c1) != (r2, c2)
      && (r1 == r2 || c1 == c2 || (r1 / BoxLength == r2 / BoxLength && c1 / BoxLength == c2 / BoxLength))
      ensures g[r1][c1] != g[r2][c2]
    {
      ValuesDistinct(board, a, r1, c1, r2, c2);
    }
  }

  /**
   * Completeness: an assignment meeting the constraints reads as a solution
   * that keeps the givens, and it is true on a board proposition exactly
   * when that grid holds it.
   */
  lemma ConstraintsGiveSolution(board: Board, a: Prop -> bool)
    requires IsBoard(board) && GivensAreDigits(board) && Constraints(board, a)
    ensures IsSolution(ModelGrid(a)) && Agrees(ModelGrid(a), board)
    ensures forall p :: OnBoard(p) ==> (a(p) <==> GridHolds(ModelGrid(a))(p))
  {
    ModelGridDigits(board, a);
    ModelGridDistinct(board, a);
    var g := ModelGrid(a);
    forall p | OnBoard(p)
      ensures a(p) <==> GridHolds(g)(p)
    {
      ValueActive(board, a, p.x, p.y);
      if a(p) {
        OnlyValue(board, a, p.x, p.y, p.num);
      }
    }
  }

  /** Completeness of the DIMACS encoder. */
  lemma DimacsComplete(board: Board, a: Prop -> bool)
    requires IsBoard(board) && GivensAreDigits(board) && D.Satisfies(D.AllPartsClauses(board), a)
    ensures IsSolution(ModelGrid(a)) && Agrees(ModelGrid(a), board)
    ensures forall p :: OnBoard(p) ==> (a(p) <==> GridHolds(ModelGrid(a))(p))
  {
    DimacsMeaning(board, a);
    ConstraintsGiveSolution(board, a);
  }

  /** Completeness of the z3 encoder. */
  lemma Z3Complete(board: Board, a: Prop -> bool)
    requires IsBoard(board) && GivensAreDigits(board) && Z.Eval(Z.AllPartsFormula(board), a)
    ensures IsSolution(ModelGrid(a)) && Agrees(ModelGrid(a), board)
    ensures forall p :: OnBoard(p) ==> (a(p) <==> GridHolds(ModelGrid(a))(p))
  {
    Z3Meaning(board, a);
    ConstraintsGiveSolution(board, a);
  }

  /** Some assignment makes get_formula_all_parts(board) true. */
  ghost predicate Satisfiable(board: Board)
    requires IsBoard(board)
  {
    exists a :: Z.Eval(Z.AllPartsFormula(board), a)
  }

  /** Some completed grid keeps the board's givens. */
  ghost predicate Solvable(board: Board)
    requires IsBoard(board)
  {
    exists g :: IsSolution(g) && Agrees(g, board)
  }

  /** The formula handed to z3 is satisfiable exactly when the board can be completed. */
  lemma SatisfiableIffSolvable(board: Board)
    requires IsBoard(board) && GivensAreDigits(board)
    ensures Satisfiable(board) <==> Solvable(board)
  {
    if Satisfiable(board) {
      var a :| Z.Eval(Z.AllPartsFormula(board), a);
      Z3Complete(board, a);
    }
    if Solvable(board) {
      var g :| IsSolution(g) && Agrees(g, board);
      Z3Sound(board, g);
    }
  }
}
