// sudoku_solver.py: the encoder that hands z3 one formula tree built from
// Bool, Not, And, Or and Implies.
module Z3Encoder {
  import opened Seqs
  import opened Sudoku

  /** z3 Bool expressions; Var(p) is the Bool named Names.Name(p). */
  datatype Formula =
    | Var(p: Prop)
    | Not(f: Formula)
    | And(fs: seq<Formula>)
    | Or(fs: seq<Formula>)
    | Implies(a: Formula, b: Formula)

  /** The truth value of a formula; And([]) is true and Or([]) is false, as in z3. */
  function Eval(f: Formula, a: Prop -> bool): bool
  {
    match f
    case Var(p) => a(p)
    case Not(g) => !Eval(g, a)
    case And(fs) => forall k :: 0 <= k < |fs| ==> Eval(fs[k], a)
    case Or(fs) => exists k :: 0 <= k < |fs| && Eval(fs[k], a)
    case Implies(g, h) => Eval(g, a) ==> Eval(h, a)
  }

  /** spot_entry(num, x, y). */
  function SpotEntry(num: int, x: int, y: int): (f: Formula)
    ensures forall a :: Eval(f, a) <==> a(Prop(num, x, y))
  {
    Var(Prop(num, x, y))
  }

  function VarOf(p: Prop): Formula
  {
    SpotEntry(p.num, p.x, p.y)
  }

  /** Implies(spot_entry(p), Not(spot_entry(q))). */
  function ExclusionFormula(p: Prop, q: Prop): Formula
  {
    Implies(VarOf(p), Not(VarOf(q)))
  }

  function Exclusions(p: Prop, ts: seq<Prop>): (r: seq<Formula>)
    ensures |r| == |ts|
  {
    seq(|ts|, k requires 0 <= k < |ts| => ExclusionFormula(p, ts[k]))
  }

  lemma ExclusionsAppend(p: Prop, s: seq<Prop>, t: seq<Prop>)
    ensures Exclusions(p, s + t) == Exclusions(p, s) + Exclusions(p, t)
  {
  }

  lemma ExclusionsSnoc(p: Prop, s: seq<Prop>, q: Prop)
    ensures Exclusions(p, s + [q]) == Exclusions(p, s) + [ExclusionFormula(p, q)]
  {
    ExclusionsAppend(p, s, [q]);
  }

  // ---------------------------------------------------------------------
  // Specification functions of the builders.

  /** What get_formula_for_entry(x, y, e) returns: And(list1). */
  function EntryFormula(x: int, y: int, e: int): Formula
  {
    And(Exclusions(Prop(e, x, y), EntryTargets(x, y, e)))
  }

  function BlankEntries(x: int, y: int, n: nat): (r: seq<Formula>)
    ensures |r| == n
  {
    seq(n, k requires 0 <= k < n => EntryFormula(x, y, k + 1))
  }

  /** get_formula_for_blank(x, y): And of the entry formulas of digits 1..9. */
  function GetFormulaForBlank(x: int, y: int): (f: Formula)
    ensures forall a :: Eval(f, a) <==> forall e :: 1 <= e <= SideLength ==> Eval(EntryFormula(x, y, e), a)
  {
    BlankEntriesMeaning(x, y);
    And(BlankEntries(x, y, SideLength))
  }

  lemma BlankEntriesMeaning(x: int, y: int)
    ensures forall a :: Eval(And(BlankEntries(x, y, SideLength)), a) <==>
              forall e :: 1 <= e <= SideLength ==> Eval(EntryFormula(x, y, e), a)
  {
    var fs := BlankEntries(x, y, SideLength);
    forall a
      ensures Eval(And(fs), a) <==> forall e :: 1 <= e <= SideLength ==> Eval(EntryFormula(x, y, e), a)
    {
      if Eval(And(fs), a) {
        forall e | 1 <= e <= SideLength
          ensures Eval(EntryFormula(x, y, e), a)
        {
          assert fs[e - 1] == EntryFormula(x, y, e);
        }
      }
    }
  }

  function CellFormula(board: Board, c: Cell): Formula
    requires IsBoard(board) && InRange(c.0) && InRange(c.1)
  {
    match board[c.0][c.1]
    case Some(e) => EntryFormula(c.0, c.1, e)
    case None => GetFormulaForBlank(c.0, c.1)
  }

  /** The parts get_formula_for_all_spots appends for `cells`, in order. */
  function SpotFormulas(board: Board, cells: seq<Cell>): (r: seq<Formula>)
    requires IsBoard(board) && CellsInRange(cells)
    ensures |r| == |cells|
    ensures forall k :: 0 <= k < |cells| ==> r[k] == CellFormula(board, cells[k])
    decreases |cells|
  {
    if cells == [] then [] else SpotFormulas(board, cells[..|cells| - 1]) + [CellFormula(board, cells[|cells| - 1])]
  }

  /** What get_formula_for_all_spots(board) returns. */
  function AllSpotsFormula(board: Board): Formula
    requires IsBoard(board)
  {
    And(SpotFormulas(board, AllCells()))
  }

  /** What initialize(board) returns. */
  function InitFormula(board: Board): Formula
    requires IsBoard(board)
  {
    And(Map(VarOf, GivenProps(board, AllCells())))
  }

  /** Or(sublist) of get_formula_for_fill_all for cell c. */
  function FillFormula(c: Cell): Formula
  {
    Or(seq(SideLength, k => SpotEntry(k + 1, c.0, c.1)))
  }

  /** What get_formula_for_fill_all() returns. */
  function FillAllFormula(): Formula
  {
    And(Map(FillFormula, AllCells()))
  }

  /** What get_formula_all_parts(board) returns. */
  function AllPartsFormula(board: Board): Formula
    requires IsBoard(board)
  {
    And([AllSpotsFormula(board), InitFormula(board), FillAllFormula()])
  }

  lemma SpotFormulasStep(board: Board, i: int, j: int)
    requires IsBoard(board) && InRange(i) && InRange(j)
    ensures SpotFormulas(board, AllCells()[..9 * i + j + 1])
            == SpotFormulas(board, AllCells()[..9 * i + j]) + [CellFormula(board, (i, j))]
  {
    AllCellsStep(i, j);
    assert AllCells()[..9 * i + j + 1][..9 * i + j] == AllCells()[..9 * i + j];
  }

  // ---------------------------------------------------------------------
  // The builders, loop for loop.

  method GetFormulaForEntry(x: int, y: int, entry: int) returns (f: Formula)
    requires InRange(x) && InRange(y)
    ensures f == EntryFormula(x, y, entry)
  {
    // `done` holds the targets of the implications appended so far.
    ghost var p := Prop(entry, x, y);
    ghost var done: seq<Prop> := [];
    var list1 := [];
    for i := 0 to SideLength
      invariant done == RowColTargets(x, y, entry, i)
      invariant list1 == Exclusions(p, done)
    {
      RowColTargetsStep(x, y, entry, i);
      if i != y {
        ExclusionsSnoc(p, done, Prop(entry, x, i));
        list1 := list1 + [Implies(SpotEntry(entry, x, y), Not(SpotEntry(entry, x, i)))];
        done := done + [Prop(entry, x, i)];
      }
      if i != x {
        ExclusionsSnoc(p, done, Prop(entry, i, y));
        list1 := list1 + [Implies(SpotEntry(entry, x, y), Not(SpotEntry(entry, i, y)))];
        done := done + [Prop(entry, i, y)];
      }
    }
    ghost var rowCol := done;
    var boxXMin := x / BoxLength * BoxLength;
    var boxXMax := (x / BoxLength + 1) * BoxLength;
    var boxYMin := y / BoxLength * BoxLength;
    var boxYMax := (y / BoxLength + 1) * BoxLength;
    BoxBounds(x);
    BoxBounds(y);
    ghost var boxX, boxY := BoxStart(x), BoxStart(y);
    assert boxXMin == boxX && boxXMax == boxX + BoxLength && boxYMin == boxY && boxYMax == boxY + BoxLength;
    for i := boxXMin to boxXMax
      invariant done == rowCol + BoxTargets(x, y, entry, i - boxX)
      invariant list1 == Exclusions(p, done)
    {
      ghost var rowsBefore := done;
      ghost var row: seq<Prop> := [];
      for j := boxYMin to boxYMax
        invariant row == BoxRowTargets(x, y, entry, i, j - boxY)
        invariant done == rowsBefore + row
        invariant list1 == Exclusions(p, done)
      {
        BoxRowTargetsStep(x, y, entry, i, j);
        if i != x && j != y {
          ExclusionsSnoc(p, done, Prop(entry, i, j));
          AppendAssoc(rowsBefore, row, [Prop(entry, i, j)]);
          list1 := list1 + [Implies(SpotEntry(entry, x, y), Not(SpotEntry(entry, i, j)))];
          done := done + [Prop(entry, i, j)];
          row := row + [Prop(entry, i, j)];
        }
      }
      BoxTargetsStep(x, y, entry, i);
      AppendAssoc(rowCol, BoxTargets(x, y, entry, i - boxX), row);
    }
    ghost var rowColBox := done;
    ghost var cell: seq<Prop> := [];
    for i := 1 to SideLength
      invariant cell == CellTargets(x, y, entry, i - 1)
      invariant done == rowColBox + cell
      invariant list1 == Exclusions(p, done)
    {
      CellTargetsStep(x, y, entry, i - 1);
      if i != entry {
        ExclusionsSnoc(p, done, Prop(i, x, y));
        AppendAssoc(rowColBox, cell, [Prop(i, x, y)]);
        list1 := list1 + [Implies(SpotEntry(entry, x, y), Not(SpotEntry(i, x, y)))];
        done := done + [Prop(i, x, y)];
        cell := cell + [Prop(i, x, y)];
      }
    }
    f := And(list1);
  }

  method GetFormulaForAllSpots(board: Board) returns (f: Formula)
    requires IsBoard(board)
    ensures f == AllSpotsFormula(board)
  {
    var formulaForAllBoxes := [];
    for i := 0 to SideLength
      invariant formulaForAllBoxes == SpotFormulas(board, AllCells()[..9 * i])
    {
      for j := 0 to SideLength
        invariant formulaForAllBoxes == SpotFormulas(board, AllCells()[..9 * i + j])
      {
        var entry := board[i][j];
        var part;
        if entry.Some? {
          part := GetFormulaForEntry(i, j, entry.value);
        } else {
          part := GetFormulaForBlank(i, j);
        }
        assert part == CellFormula(board, (i, j));
        SpotFormulasStep(board, i, j);
        formulaForAllBoxes := formulaForAllBoxes + [part];
      }
    }
    AllCellsPrefix();
    f := And(formulaForAllBoxes);
  }

  method Initialize(board: Board) returns (f: Formula)
    requires IsBoard(board)
    ensures f == InitFormula(board)
  {
    var list1 := [];
    for i := 0 to SideLength
      invariant list1 == Map(VarOf, GivenProps(board, AllCells()[..9 * i]))
    {
      for j := 0 to SideLength
        invariant list1 == Map(VarOf, GivenProps(board, AllCells()[..9 * i + j]))
      {
        var num := board[i][j];
        AllCellsStep(i, j);
        assert AllCells()[..9 * i + j + 1][..9 * i + j] == AllCells()[..9 * i + j];
        ghost var given := match num case Some(v) => [Prop(v, i, j)] case None => [];
        MapAppend(VarOf, GivenProps(board, AllCells()[..9 * i + j]), given);
        if num.Some? {
          list1 := list1 + [SpotEntry(num.value, i, j)];
        }
      }
    }
    AllCellsPrefix();
    f := And(list1);
  }

  method GetFormulaForFillAll() returns (f: Formula)
    ensures f == FillAllFormula()
  {
    var mainList := [];
    for i := 0 to SideLength
      invariant mainList == Map(FillFormula, AllCells()[..9 * i])
    {
      for j := 0 to SideLength
        invariant mainList == Map(FillFormula, AllCells()[..9 * i + j])
      {
        var sublist := [];
        for num := 1 to SideLength + 1
          invariant |sublist| == num - 1
          invariant forall k :: 0 <= k < num - 1 ==> sublist[k] == SpotEntry(k + 1, i, j)
        {
          sublist := sublist + [SpotEntry(num, i, j)];
        }
        assert Or(sublist) == FillFormula((i, j));
        AllCellsStep(i, j);
        MapAppend(FillFormula, AllCells()[..9 * i + j], [(i, j)]);
        mainList := mainList + [Or(sublist)];
      }
    }
    AllCellsPrefix();
    f := And(mainList);
  }

  method GetFormulaAllParts(board: Board) returns (f: Formula)
    requires IsBoard(board)
    ensures f == AllPartsFormula(board)
  {
    var formulaForAllSpots := GetFormulaForAllSpots(board);
    var initialisation := Initialize(board);
    var atleastOne := GetFormulaForFillAll();
    f := And([formulaForAllSpots, initialisation, atleastOne]);
  }
}

// Shape of the formulas the builders return.
module Z3Shape {
  import opened Seqs
  import opened Sudoku
  import opened Z3Encoder

  /**
   * get_formula_for_entry(x, y, e) is an And of 27 implications when e is
   * 1..8 and 28 otherwise; each has antecedent spot_entry(e, x, y) and
   * negates a different proposition, one that e at (x, y) excludes.
   */
  lemma EntryFormulaShape(x: int, y: int, e: int)
    requires InRange(x) && InRange(y)
    ensures EntryFormula(x, y, e).And?
    ensures |EntryFormula(x, y, e).fs| == if 1 <= e < SideLength then 27 else 28
    ensures forall k :: 0 <= k < |EntryFormula(x, y, e).fs| ==>
              EntryFormula(x, y, e).fs[k] == Implies(Var(Prop(e, x, y)), Not(Var(EntryTargets(x, y, e)[k])))
              && EntryTargets(x, y, e)[k] != Prop(e, x, y)
  {
    EntryTargetsCount(x, y, e);
    EntryTargetsAvoidAntecedent(x, y, e);
  }

  /** get_formula_for_fill_all: an And of 81 disjunctions, cell (i, j) at 9 * i + j, over digits 1..9. */
  lemma FillAllFormulaShape(i: int, j: int)
    requires InRange(i) && InRange(j)
    ensures FillAllFormula().And? && |FillAllFormula().fs| == 81
    ensures var d := FillAllFormula().fs[9 * i + j];
              d.Or? && |d.fs| == SideLength && forall k :: 0 <= k < SideLength ==> d.fs[k] == Var(Prop(k + 1, i, j))
  {
    AllCellsAt(i, j);
    assert FillAllFormula().fs[9 * i + j] == FillFormula((i, j));
    forall k | 0 <= k < SideLength
      ensures FillFormula((i, j)).fs[k] == Var(Prop(k + 1, i, j))
    {
      assert FillFormula((i, j)).fs[k] == SpotEntry(k + 1, i, j);
    }
  }

  /** initialize: an And with one Bool per given cell, for that cell's number. */
  lemma InitFormulaShape(board: Board)
    requires IsBoard(board)
    ensures InitFormula(board).And?
    ensures |InitFormula(board).fs| == CountGiven(board, AllCells())
    ensures forall k :: 0 <= k < |InitFormula(board).fs| ==>
              exists p :: InitFormula(board).fs[k] == Var(p) && InRange(p.x) && InRange(p.y)
                          && board[p.x][p.y] == Some(p.num)
    ensures forall i, j :: InRange(i) && InRange(j) && board[i][j].Some? ==>
              Var(Prop(board[i][j].value, i, j)) in InitFormula(board).fs
  {
    var gs := GivenProps(board, AllCells());
    GivenPropsCount(board, AllCells());
    forall k | 0 <= k < |gs|
      ensures exists p :: InitFormula(board).fs[k] == Var(p) && InRange(p.x) && InRange(p.y)
                          && board[p.x][p.y] == Some(p.num)
    {
      GivenPropsMembers(board, AllCells(), gs[k]);
      AllCellsMembers((gs[k].x, gs[k].y));
      assert InitFormula(board).fs[k] == Var(gs[k]);
    }
    forall i, j | InRange(i) && InRange(j) && board[i][j].Some?
      ensures Var(Prop(board[i][j].value, i, j)) in InitFormula(board).fs
    {
      var p := Prop(board[i][j].value, i, j);
      AllCellsMembers((i, j));
      GivenPropsMembers(board, AllCells(), p);
      var k :| 0 <= k < |gs| && gs[k] == p;
      assert InitFormula(board).fs[k] == Var(p);
    }
  }
}
