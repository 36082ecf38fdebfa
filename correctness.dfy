// What the two encoders' formulas mean, stated once over propositions:
// both formulas hold under an assignment exactly when the assignment meets
// the Sudoku constraints below, every completed grid that keeps the givens
// satisfies them, and every satisfying assignment is such a grid.
module Correctness {
  import opened Seqs
  import opened Sudoku
  import D = DimacsEncoder
  import DS = DimacsShape
  import Z = Z3Encoder
  import ZS = Z3Shape

  // ---------------------------------------------------------------------
  // The constraints, one group per part of get_formula_all_parts.

  /** get_formula_for_entry(x, y, e) read as a sentence: e at (x, y) rules out every proposition it excludes. */
  ghost predicate EntryHolds(x: int, y: int, e: int, a: Prop -> bool)
  {
    a(Prop(e, x, y)) ==> forall q :: Excluded(x, y, e, q) ==> !a(q)
  }

  /** The part for cell (i, j): its given digit's entry formula, or all nine when blank. */
  ghost predicate CellHolds(board: Board, i: int, j: int, a: Prop -> bool)
    requires IsBoard(board) && InRange(i) && InRange(j)
  {
    match board[i][j]
    case Some(e) => EntryHolds(i, j, e, a)
    case None => forall d :: 1 <= d <= SideLength ==> EntryHolds(i, j, d, a)
  }

  /** initialize's unit for cell (i, j), when it has one. */
  ghost predicate GivenHolds(board: Board, i: int, j: int, a: Prop -> bool)
    requires IsBoard(board) && InRange(i) && InRange(j)
  {
    board[i][j].Some? ==> a(Prop(board[i][j].value, i, j))
  }

  /** get_formula_for_fill_all's clause for cell (i, j): some digit 1..9 is there. */
  ghost predicate Filled(i: int, j: int, a: Prop -> bool)
  {
    exists d :: 1 <= d <= SideLength && a(Prop(d, i, j))
  }

  ghost predicate SpotsHold(board: Board, a: Prop -> bool)
    requires IsBoard(board)
  {
    forall i, j :: InRange(i) && InRange(j) ==> CellHolds(board, i, j, a)
  }

  ghost predicate GivensHold(board: Board, a: Prop -> bool)
    requires IsBoard(board)
  {
    forall i, j :: InRange(i) && InRange(j) ==> GivenHolds(board, i, j, a)
  }

  ghost predicate AllFilled(a: Prop -> bool)
  {
    forall i, j :: InRange(i) && InRange(j) ==> Filled(i, j, a)
  }

  ghost predicate Constraints(board: Board, a: Prop -> bool)
    requires IsBoard(board)
  {
    SpotsHold(board, a) && GivensHold(board, a) && AllFilled(a)
  }

  // ---------------------------------------------------------------------
  // The DIMACS clause list means the constraints.

  lemma SatisfiesAppend(f: seq<D.Clause>, g: seq<D.Clause>, a: Prop -> bool)
    ensures D.Satisfies(f + g, a) <==> D.Satisfies(f, a) && D.Satisfies(g, a)
  {
    if D.Satisfies(f, a) && D.Satisfies(g, a) {
      forall k | 0 <= k < |f + g|
        ensures D.ClauseHolds((f + g)[k], a)
      {
        if k >= |f| {
          assert (f + g)[k] == g[k - |f|];
        }
      }
    }
    if D.Satisfies(f + g, a) {
      forall k | 0 <= k < |f|
        ensures D.ClauseHolds(f[k], a)
      {
        assert (f + g)[k] == f[k];
      }
      forall k | 0 <= k < |g|
        ensures D.ClauseHolds(g[k], a)
      {
        assert (f + g)[|f| + k] == g[k];
      }
    }
  }

  lemma {:induction false} SatisfiesConcat(ss: seq<seq<D.Clause>>, a: Prop -> bool)
    ensures D.Satisfies(Concat(ss), a) <==> forall k :: 0 <= k < |ss| ==> D.Satisfies(ss[k], a)
    decreases |ss|
  {
    if ss != [] {
      var init := ss[..|ss| - 1];
      SatisfiesConcat(init, a);
      SatisfiesAppend(Concat(init), ss[|ss| - 1], a);
      assert forall k :: 0 <= k < |init| ==> init[k] == ss[k];
    }
  }

  /** The clause [Neg(p), Neg(q)] holds exactly when p and q are not both true. */
  lemma ExclusionClauseHolds(p: Prop, q: Prop, a: Prop -> bool)
    ensures D.ClauseHolds([D.Neg(p), D.Neg(q)], a) <==> !(a(p) && a(q))
  {
    var c := [D.Neg(p), D.Neg(q)];
    if !a(p) {
      assert D.LitHolds(c[0], a);
    } else if !a(q) {
      assert D.LitHolds(c[1], a);
    }
  }

  /** The targets all false is the same as every excluded proposition false. */
  lemma TargetsFalse(x: int, y: int, e: int, a: Prop -> bool)
    requires InRange(x) && InRange(y)
    ensures (forall k :: 0 <= k < |EntryTargets(x, y, e)| ==> !a(EntryTargets(x, y, e)[k]))
            <==> (forall q :: Excluded(x, y, e, q) ==> !a(q))
  {
    var ts := EntryTargets(x, y, e);
    if forall k :: 0 <= k < |ts| ==> !a(ts[k]) {
      forall q | Excluded(x, y, e, q)
        ensures !a(q)
      {
        EntryTargetsMembers(x, y, e, q);
        var k :| 0 <= k < |ts| && ts[k] == q;
      }
    }
    if forall q :: Excluded(x, y, e, q) ==> !a(q) {
      forall k | 0 <= k < |ts|
        ensures !a(ts[k])
      {
        EntryTargetsMembers(x, y, e, ts[k]);
      }
    }
  }

  lemma DimacsEntryMeaning(x: int, y: int, e: int, a: Prop -> bool)
    requires InRange(x) && InRange(y)
    ensures D.Satisfies(D.EntryClauses(x, y, e), a) <==> EntryHolds(x, y, e, a)
  {
    var p := Prop(e, x, y);
    var ts := EntryTargets(x, y, e);
    var f := D.EntryClauses(x, y, e);
    DS.EntryClausesShape(x, y, e);
    TargetsFalse(x, y, e, a);
    forall k | 0 <= k < |f|
      ensures D.ClauseHolds(f[k], a) <==> !(a(p) && a(ts[k]))
    {
      ExclusionClauseHolds(p, ts[k], a);
    }
  }

  lemma DimacsCellMeaning(board: Board, i: int, j: int, a: Prop -> bool)
    requires IsBoard(board) && InRange(i) && InRange(j)
    ensures D.Satisfies(D.CellBlock(board, (i, j)), a) <==> CellHolds(board, i, j, a)
  {
    match board[i][j]
    case Some(e) =>
      DimacsEntryMeaning(i, j, e, a);
    case None =>
      DimacsBlankMeaning(i, j, a);
  }

  lemma DimacsBlankMeaning(i: int, j: int, a: Prop -> bool)
    requires InRange(i) && InRange(j)
    ensures D.Satisfies(D.GetFormulaForBlank(i, j), a) <==> forall d :: 1 <= d <= SideLength ==> EntryHolds(i, j, d, a)
  {
    var ss := D.BlankEntries(i, j, SideLength);
    SatisfiesConcat(ss, a);
    if forall d :: 1 <= d <= SideLength ==> EntryHolds(i, j, d, a) {
      DimacsBlankEntriesHold(i, j, a);
    }
    if forall k :: 0 <= k < |ss| ==> D.Satisfies(ss[k], a) {
      DimacsBlankEntriesMean(i, j, a);
    }
  }

  lemma DimacsBlankEntriesHold(i: int, j: int, a: Prop -> bool)
    requires InRange(i) && InRange(j)
    requires forall d :: 1 <= d <= SideLength ==> EntryHolds(i, j, d, a)
    ensures forall k :: 0 <= k < SideLength ==> D.Satisfies(D.BlankEntries(i, j, SideLength)[k], a)
  {
    var ss := D.BlankEntries(i, j, SideLength);
    forall k | 0 <= k < SideLength
      ensures D.Satisfies(ss[k], a)
    {
      assert ss[k] == D.EntryClauses(i, j, k + 1);
      DimacsEntryMeaning(i, j, k + 1, a);
    }
  }

  lemma DimacsBlankEntriesMean(i: int, j: int, a: Prop -> bool)
    requires InRange(i) && InRange(j)
    requires forall k :: 0 <= k < SideLength ==> D.Satisfies(D.BlankEntries(i, j, SideLength)[k], a)
    ensures forall d :: 1 <= d <= SideLength ==> EntryHolds(i, j, d, a)
  {
    var ss := D.BlankEntries(i, j, SideLength);
    forall d | 1 <= d <= SideLength
      ensures EntryHolds(i, j, d, a)
    {
      var k := d - 1;
      assert ss[k] == D.EntryClauses(i, j, k + 1);
      DimacsEntryMeaning(i, j, d, a);
    }
  }

  ghost predicate CellsHold(board: Board, cells: seq<Cell>, a: Prop -> bool)
    requires IsBoard(board) && CellsInRange(cells)
  {
    forall k :: 0 <= k < |cells| ==> CellHolds(board, cells[k].0, cells[k].1, a)
  }

  lemma CellsHoldStep(board: Board, cells: seq<Cell>, a: Prop -> bool)
    requires IsBoard(board) && CellsInRange(cells) && cells != []
    ensures CellsInRange(cells[..|cells| - 1])
    ensures CellsHold(board, cells, a) <==>
              CellsHold(board, cells[..|cells| - 1], a)
              && CellHolds(board, cells[|cells| - 1].0, cells[|cells| - 1].1, a)
  {
    var init := cells[..|cells| - 1];
    assert forall k :: 0 <= k < |init| ==> init[k] == cells[k];
  }

  lemma {:induction false} DimacsSpotsPrefix(board: Board, cells: seq<Cell>, a: Prop -> bool)
    requires IsBoard(board) && CellsInRange(cells)
    ensures D.Satisfies(D.SpotClauses(board, cells), a) <==> CellsHold(board, cells, a)
    decreases |cells|
  {
    if cells != [] {
      var init := cells[..|cells| - 1];
      var last := cells[|cells| - 1];
      CellsHoldStep(board, cells, a);
      DimacsSpotsPrefix(board, init, a);
      assert D.SpotClauses(board, cells) == D.SpotClauses(board, init) + D.CellBlock(board, last);
      SatisfiesAppend(D.SpotClauses(board, init), D.CellBlock(board, last), a);
      DimacsCellMeaning(board, last.0, last.1, a);
    }
  }

  /** A property of every cell in row-major order is a property of every in-range (i, j). */
  lemma AllCellsQuantifier(board: Board, a: Prop -> bool)
    requires IsBoard(board)
    ensures CellsInRange(AllCells())
    ensures CellsHold(board, AllCells(), a) <==> SpotsHold(board, a)
  {
    AllCellsInRange(81);
    if SpotsHold(board, a) {
      forall k | 0 <= k < |AllCells()|
        ensures CellHolds(board, AllCells()[k].0, AllCells()[k].1, a)
      {
      }
    }
    if forall k :: 0 <= k < |AllCells()| ==> CellHolds(board, AllCells()[k].0, AllCells()[k].1, a) {
      forall i, j | InRange(i) && InRange(j)
        ensures CellHolds(board, i, j, a)
      {
        AllCellsAt(i, j);
      }
    }
  }

  lemma DimacsSpotsMeaning(board: Board, a: Prop -> bool)
    requires IsBoard(board)
    ensures D.Satisfies(D.AllSpotsClauses(board), a) <==> SpotsHold(board, a)
  {
    AllCellsInRange(81);
    DimacsSpotsPrefix(board, AllCells(), a);
    AllCellsQuantifier(board, a);
  }

  /** The given propositions all true is the same as every given cell's unit holding. */
  lemma GivenPropsTrue(board: Board, a: Prop -> bool)
    requires IsBoard(board)
    ensures var g := GivenProps(board, AllCells());
            (forall k :: 0 <= k < |g| ==> a(g[k])) <==> GivensHold(board, a)
  {
    AllCellsInRange(81);
    var g := GivenProps(board, AllCells());
    if forall k :: 0 <= k < |g| ==> a(g[k]) {
      forall i, j | InRange(i) && InRange(j)
        ensures GivenHolds(board, i, j, a)
      {
        if board[i][j].Some? {
          var p := Prop(board[i][j].value, i, j);
          AllCellsMembers((i, j));
          GivenPropsMembers(board, AllCells(), p);
          var k :| 0 <= k < |g| && g[k] == p;
        }
      }
    }
    if GivensHold(board, a) {
      forall k | 0 <= k < |g|
        ensures a(g[k])
      {
        GivenPropsMembers(board, AllCells(), g[k]);
        AllCellsMembers((g[k].x, g[k].y));
        assert GivenHolds(board, g[k].x, g[k].y, a);
      }
    }
  }

  lemma DimacsInitMeaning(board: Board, a: Prop -> bool)
    requires IsBoard(board)
    ensures D.Satisfies(D.InitClauses(board), a) <==> GivensHold(board, a)
  {
    AllCellsInRange(81);
    var g := GivenProps(board, AllCells());
    GivenPropsTrue(board, a);
    forall k | 0 <= k < |g|
      ensures D.ClauseHolds(D.InitClauses(board)[k], a) <==> a(g[k])
    {
      var c := D.InitClauses(board)[k];
      assert c == [D.Pos(g[k])];
      if a(g[k]) {
        assert D.LitHolds(c[0], a);
      }
    }
  }

  lemma FillClauseMeaning(i: int, j: int, a: Prop -> bool)
    ensures D.ClauseHolds(D.FillClause((i, j)), a) <==> Filled(i, j, a)
  {
    var c := D.FillClause((i, j));
    if Filled(i, j, a) {
      var d :| 1 <= d <= SideLength && a(Prop(d, i, j));
      var k := d - 1;
      assert c[k] == D.SpotEntry(k + 1, i, j);
      assert D.LitHolds(c[k], a);
    }
    if D.ClauseHolds(c, a) {
      var k :| 0 <= k < |c| && D.LitHolds(c[k], a);
      assert c[k] == D.SpotEntry(k + 1, i, j);
    }
  }

  lemma DimacsFillMeaning(a: Prop -> bool)
    ensures D.Satisfies(D.FillAllClauses(), a) <==> AllFilled(a)
  {
    var f := D.FillAllClauses();
    if D.Satisfies(f, a) {
      forall i, j | InRange(i) && InRange(j)
        ensures Filled(i, j, a)
      {
        AllCellsAt(i, j);
        FillClauseMeaning(i, j, a);
        assert D.ClauseHolds(f[9 * i + j], a);
      }
    }
    if AllFilled(a) {
      forall k | 0 <= k < |f|
        ensures D.ClauseHolds(f[k], a)
      {
        AllCellsInRange(81);
        var c := AllCells()[k];
        FillClauseMeaning(c.0, c.1, a);
      }
    }
  }

  /** get_formula_all_parts of the DIMACS encoder holds exactly when the constraints do. */
  lemma DimacsMeaning(board: Board, a: Prop -> bool)
    requires IsBoard(board)
    ensures D.Satisfies(D.AllPartsClauses(board), a) <==> Constraints(board, a)
  {
    SatisfiesAppend(D.AllSpotsClauses(board), D.InitClauses(board), a);
    SatisfiesAppend(D.AllSpotsClauses(board) + D.InitClauses(board), D.FillAllClauses(), a);
    DimacsSpotsMeaning(board, a);
    DimacsInitMeaning(board, a);
    DimacsFillMeaning(a);
  }

  // ---------------------------------------------------------------------
  // The z3 formula tree means the same constraints.

  lemma Z3EntryMeaning(x: int, y: int, e: int, a: Prop -> bool)
    requires InRange(x) && InRange(y)
    ensures Z.Eval(Z.EntryFormula(x, y, e), a) <==> EntryHolds(x, y, e, a)
  {
    var p := Prop(e, x, y);
    var ts := EntryTargets(x, y, e);
    var fs := Z.EntryFormula(x, y, e).fs;
    ZS.EntryFormulaShape(x, y, e);
    TargetsFalse(x, y, e, a);
    forall k | 0 <= k < |fs|
      ensures Z.Eval(fs[k], a) <==> !(a(p) && a(ts[k]))
    {
      assert Z.Eval(Z.Not(Z.Var(ts[k])), a) <==> !a(ts[k]);
    }
  }

  lemma Z3CellMeaning(board: Board, i: int, j: int, a: Prop -> bool)
    requires IsBoard(board) && InRange(i) && InRange(j)
    ensures Z.Eval(Z.CellFormula(board, (i, j)), a) <==> CellHolds(board, i, j, a)
  {
    match board[i][j]
    case Some(e) =>
      Z3EntryMeaning(i, j, e, a);
    case None =>
      Z3BlankMeaning(i, j, a);
  }

  lemma Z3BlankMeaning(i: int, j: int, a: Prop -> bool)
    requires InRange(i) && InRange(j)
    ensures Z.Eval(Z.GetFormulaForBlank(i, j), a) <==> forall d :: 1 <= d <= SideLength ==> EntryHolds(i, j, d, a)
  {
    var fs := Z.BlankEntries(i, j, SideLength);
    if forall d :: 1 <= d <= SideLength ==> EntryHolds(i, j, d, a) {
      forall k | 0 <= k < |fs|
        ensures Z.Eval(fs[k], a)
      {
        assert EntryHolds(i, j, k + 1, a);
        Z3EntryMeaning(i, j, k + 1, a);
      }
    }
    if forall k :: 0 <= k < |fs| ==> Z.Eval(fs[k], a) {
      forall d | 1 <= d <= SideLength
        ensures EntryHolds(i, j, d, a)
      {
        assert Z.Eval(fs[d - 1], a);
        Z3EntryMeaning(i, j, d, a);
      }
    }
  }

  lemma Z3SpotsMeaning(board: Board, a: Prop -> bool)
    requires IsBoard(board)
    ensures Z.Eval(Z.AllSpotsFormula(board), a) <==> SpotsHold(board, a)
  {
    AllCellsInRange(81);
    var fs := Z.SpotFormulas(board, AllCells());
    forall k | 0 <= k < |fs|
      ensures Z.Eval(fs[k], a) <==> CellHolds(board, AllCells()[k].0, AllCells()[k].1, a)
    {
      Z3CellMeaning(board, AllCells()[k].0, AllCells()[k].1, a);
    }
    AllCellsQuantifier(board, a);
  }

  lemma Z3InitMeaning(board: Board, a: Prop -> bool)
    requires IsBoard(board)
    ensures Z.Eval(Z.InitFormula(board), a) <==> GivensHold(board, a)
  {
    AllCellsInRange(81);
    GivenPropsTrue(board, a);
  }

  lemma Z3FillMeaning(a: Prop -> bool)
    ensures Z.Eval(Z.FillAllFormula(), a) <==> AllFilled(a)
  {
    var fs := Z.FillAllFormula().fs;
    forall i, j | InRange(i) && InRange(j)
      ensures Z.Eval(Z.FillFormula((i, j)), a) <==> Filled(i, j, a)
    {
      var g := Z.FillFormula((i, j)).fs;
      if Filled(i, j, a) {
        var d :| 1 <= d <= SideLength && a(Prop(d, i, j));
        var k := d - 1;
        assert g[k] == Z.SpotEntry(k + 1, i, j);
        assert Z.Eval(g[k], a);
      }
      if Z.Eval(Z.FillFormula((i, j)), a) {
        var k :| 0 <= k < |g| && Z.Eval(g[k], a);
        assert g[k] == Z.SpotEntry(k + 1, i, j);
      }
    }
    if Z.Eval(Z.FillAllFormula(), a) {
      forall i, j | InRange(i) && InRange(j)
        ensures Filled(i, j, a)
      {
        AllCellsAt(i, j);
        assert Z.Eval(fs[9 * i + j], a);
      }
    }
    if AllFilled(a) {
      forall k | 0 <= k < |fs|
        ensures Z.Eval(fs[k], a)
      {
        AllCellsInRange(81);
        var c := AllCells()[k];
        assert Filled(c.0, c.1, a);
      }
    }
  }

  /** get_formula_all_parts of the z3 encoder holds exactly when the constraints do. */
  lemma Z3Meaning(board: Board, a: Prop -> bool)
    requires IsBoard(board)
    ensures Z.Eval(Z.AllPartsFormula(board), a) <==> Constraints(board, a)
  {
    Z3SpotsMeaning(board, a);
    Z3InitMeaning(board, a);
    Z3FillMeaning(a);
    EvalAnd3(Z.AllSpotsFormula(board), Z.InitFormula(board), Z.FillAllFormula(), a);
  }

  lemma EvalAnd3(f: Z.Formula, g: Z.Formula, h: Z.Formula, a: Prop -> bool)
    ensures Z.Eval(Z.And([f, g, h]), a) <==> Z.Eval(f, a) && Z.Eval(g, a) && Z.Eval(h, a)
  {
    var fs := [f, g, h];
    if Z.Eval(f, a) && Z.Eval(g, a) && Z.Eval(h, a) {
      assert forall k :: 0 <= k < 3 ==> Z.Eval(fs[k], a);
    }
    if Z.Eval(Z.And(fs), a) {
      assert Z.Eval(fs[0], a) && Z.Eval(fs[1], a) && Z.Eval(fs[2], a);
    }
  }

  /** The two scripts hand their solvers equivalent formulas. */
  lemma EncodingsAgree(board: Board, a: Prop -> bool)
    requires IsBoard(board)
    ensures D.Satisfies(D.AllPartsClauses(board), a) <==> Z.Eval(Z.AllPartsFormula(board), a)
  {
    DimacsMeaning(board, a);
    Z3Meaning(board, a);
  }
}
