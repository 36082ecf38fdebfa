// sudoku_solver_dimacs_output.py: the same encoding as sudoku_solver.py,
// built as one flat list of clauses for a DIMACS writer. A clause is a
// list of literals; the wrapper's Bool(name) and Not(Bool(name)) are the
// literals Pos(p) and Neg(p) of the proposition p the name stands for.
module DimacsEncoder {
  import opened Seqs
  import opened Sudoku

  datatype Literal = Pos(p: Prop) | Neg(p: Prop)

  /** A disjunction of literals: the wrapper's Or(...) or a plain list. */
  type Clause = seq<Literal>

  // ---------------------------------------------------------------------
  // Meaning of literals and clauses under an assignment.

  function LitHolds(l: Literal, a: Prop -> bool): bool
  {
    match l
    case Pos(p) => a(p)
    case Neg(p) => !a(p)
  }

  predicate ClauseHolds(c: Clause, a: Prop -> bool)
  {
    exists k :: 0 <= k < |c| && LitHolds(c[k], a)
  }

  /** The conjunction of a clause list: every clause has a true literal. */
  predicate Satisfies(f: seq<Clause>, a: Prop -> bool)
  {
    forall k :: 0 <= k < |f| ==> ClauseHolds(f[k], a)
  }

  // ---------------------------------------------------------------------
  // The script's constructors.

  /** spot_entry(num, x, y): the literal that is true exactly when the proposition is. */
  function SpotEntry(num: int, x: int, y: int): (l: Literal)
    ensures forall a :: LitHolds(l, a) <==> a(Prop(num, x, y))
  {
    Pos(Prop(num, x, y))
  }

  /** The wrapper's Not on a literal. */
  function Not(l: Literal): Literal
  {
    match l
    case Pos(p) => Neg(p)
    case Neg(p) => Pos(p)
  }

  /** Implies(a, b) = Or(Not(a), b): a clause that holds exactly when the implication does. */
  function Implies(a: Literal, b: Literal): (c: Clause)
    ensures forall v :: ClauseHolds(c, v) <==> (LitHolds(a, v) ==> LitHolds(b, v))
  {
    OrNotMeaning(a, b);
    [Not(a), b]
  }

  lemma OrNotMeaning(a: Literal, b: Literal)
    ensures forall v :: ClauseHolds([Not(a), b], v) <==> (LitHolds(a, v) ==> LitHolds(b, v))
  {
    forall v
      ensures ClauseHolds([Not(a), b], v) <==> (LitHolds(a, v) ==> LitHolds(b, v))
    {
      var c := [Not(a), b];
      if LitHolds(a, v) ==> LitHolds(b, v) {
        if LitHolds(a, v) {
          assert LitHolds(c[1], v);
        } else {
          assert LitHolds(c[0], v);
        }
      }
    }
  }

  /** Implies(spot_entry(p), Not(spot_entry(q))): "p excludes q". */
  function ExclusionClause(p: Prop, q: Prop): Clause
  {
    Implies(SpotEntry(p.num, p.x, p.y), Not(SpotEntry(q.num, q.x, q.y)))
  }

  /** The exclusion clauses of antecedent p, one per target, in order. */
  function Exclusions(p: Prop, ts: seq<Prop>): (r: seq<Clause>)
    ensures |r| == |ts|
  {
    seq(|ts|, k requires 0 <= k < |ts| => ExclusionClause(p, ts[k]))
  }

  lemma ExclusionsAppend(p: Prop, s: seq<Prop>, t: seq<Prop>)
    ensures Exclusions(p, s + t) == Exclusions(p, s) + Exclusions(p, t)
  {
  }

  lemma ExclusionsSnoc(p: Prop, s: seq<Prop>, q: Prop)
    ensures Exclusions(p, s + [q]) == Exclusions(p, s) + [ExclusionClause(p, q)]
  {
    ExclusionsAppend(p, s, [q]);
  }

  // ---------------------------------------------------------------------
  // Specification functions of the builders.

  /** What get_formula_for_entry(x, y, e) returns. */
  function EntryClauses(x: int, y: int, e: int): seq<Clause>
  {
    Exclusions(Prop(e, x, y), EntryTargets(x, y, e))
  }

  function BlankEntries(x: int, y: int, n: nat): (r: seq<seq<Clause>>)
    ensures |r| == n
  {
    seq(n, k requires 0 <= k < n => EntryClauses(x, y, k + 1))
  }

  /**
   * get_formula_for_blank(x, y): the entry lists for digits 1..9, flattened
   * by the list2 comprehension.
   */
  function GetFormulaForBlank(x: int, y: int): (r: seq<Clause>)
    ensures forall c :: c in r <==> exists e :: 1 <= e <= SideLength && c in EntryClauses(x, y, e)
  {
    BlankEntriesMembers(x, y);
    Concat(BlankEntries(x, y, SideLength))
  }

  lemma BlankEntriesMembers(x: int, y: int)
    ensures forall c :: c in Concat(BlankEntries(x, y, SideLength)) <==>
              exists e :: 1 <= e <= SideLength && c in EntryClauses(x, y, e)
  {
    var ss := BlankEntries(x, y, SideLength);
    forall c
      ensures c in Concat(ss) <==> exists e :: 1 <= e <= SideLength && c in EntryClauses(x, y, e)
    {
      ConcatMembers(ss, c);
      if exists e :: 1 <= e <= SideLength && c in EntryClauses(x, y, e) {
        var e :| 1 <= e <= SideLength && c in EntryClauses(x, y, e);
        assert c in ss[e - 1];
      }
    }
  }

  /** The part get_formula_for_all_spots adds for cell c. */
  function CellBlock(board: Board, c: Cell): seq<Clause>
    requires IsBoard(board) && InRange(c.0) && InRange(c.1)
  {
    match board[c.0][c.1]
    case Some(e) => EntryClauses(c.0, c.1, e)
    case None => GetFormulaForBlank(c.0, c.1)
  }

  /** The blocks of `cells`, joined in order. */
  function SpotClauses(board: Board, cells: seq<Cell>): seq<Clause>
    requires IsBoard(board) && CellsInRange(cells)
    decreases |cells|
  {
    if cells == [] then [] else SpotClauses(board, cells[..|cells| - 1]) + CellBlock(board, cells[|cells| - 1])
  }

  /** What get_formula_for_all_spots(board) returns. */
  function AllSpotsClauses(board: Board): seq<Clause>
    requires IsBoard(board)
  {
    SpotClauses(board, AllCells())
  }

  /** [spot_entry(p)], a positive unit clause. */
  function Unit(p: Prop): Clause
  {
    [SpotEntry(p.num, p.x, p.y)]
  }

  /** What initialize(board) returns. */
  function InitClauses(board: Board): seq<Clause>
    requires IsBoard(board)
  {
    Map(Unit, GivenProps(board, AllCells()))
  }

  /** The sublist of get_formula_for_fill_all for cell c: digits 1..9. */
  function FillClause(c: Cell): Clause
  {
    seq(SideLength, k => SpotEntry(k + 1, c.0, c.1))
  }

  /** What get_formula_for_fill_all() returns. */
  function FillAllClauses(): seq<Clause>
  {
    Map(FillClause, AllCells())
  }

  /** What get_formula_all_parts(board) hands to And(...). */
  function AllPartsClauses(board: Board): seq<Clause>
    requires IsBoard(board)
  {
    AllSpotsClauses(board) + InitClauses(board) + FillAllClauses()
  }

  /** One more cell of the row-major walk adds that cell's block. */
  lemma SpotClausesStep(board: Board, i: int, j: int, before: seq<Clause>, part: seq<Clause>)
    requires IsBoard(board) && InRange(i) && InRange(j)
    requires before == SpotClauses(board, AllCells()[..9 * i + j]) && part == CellBlock(board, (i, j))
    ensures before + part == SpotClauses(board, AllCells()[..9 * i + j + 1])
  {
    AllCellsStep(i, j);
    assert AllCells()[..9 * i + j + 1][..9 * i + j] == AllCells()[..9 * i + j];
  }

  // ---------------------------------------------------------------------
  // The builders, loop for loop.

  method GetFormulaForEntry(x: int, y: int, entry: int) returns (list1: seq<Clause>)
    requires InRange(x) && InRange(y)
    ensures list1 == EntryClauses(x, y, entry)
  {
    // `done` holds the targets of the implications appended so far.
    ghost var p := Prop(entry, x, y);
    ghost var done: seq<Prop> := [];
    list1 := [];
    for i := 0 to SideLength
      invariant done == RowColTargets(x, y, entry, i)
      invariant list1 == Exclusions(p, done)
    {
      RowColTargetsStep(x, y, entry, i);
      if i != y {
        ExclusionsSnoc(p, done, Prop(entry, x, i));
        list1 := list1 + [Implies(SpotEntry(entry, x, y), Not(SpotEntry(entry, x, i)))];
        done := done + [Prop(entry, x, i)];
      }
      if i != x {
        ExclusionsSnoc(p, done, Prop(entry, i, y));
        list1 := list1 + [Implies(SpotEntry(entry, x, y), Not(SpotEntry(entry, i, y)))];
        done := done + [Prop(entry, i, y)];
      }
    }
    ghost var rowCol := done;
    var boxXMin := x / BoxLength * BoxLength;
    var boxXMax := (x / BoxLength + 1) * BoxLength;
    var boxYMin := y / BoxLength * BoxLength;
    var boxYMax := (y / BoxLength + 1) * BoxLength;
    BoxBounds(x);
    BoxBounds(y);
    ghost var boxX, boxY := BoxStart(x), BoxStart(y);
    assert boxXMin == boxX && boxXMax == boxX + BoxLength && boxYMin == boxY && boxYMax == boxY + BoxLength;
    for i := boxXMin to boxXMax
      invariant done == rowCol + BoxTargets(x, y, entry, i - boxX)
      invariant list1 == Exclusions(p, done)
    {
      ghost var rowsBefore := done;
      ghost var row: seq<Prop> := [];
      for j := boxYMin to boxYMax
        invariant row == BoxRowTargets(x, y, entry, i, j - boxY)
        invariant done == rowsBefore + row
        invariant list1 == Exclusions(p, done)
      {
        BoxRowTargetsStep(x, y, entry, i, j);
        if i != x && j != y {
          ExclusionsSnoc(p, done, Prop(entry, i, j));
          AppendAssoc(rowsBefore, row, [Prop(entry, i, j)]);
          list1 := list1 + [Implies(SpotEntry(entry, x, y), Not(SpotEntry(entry, i, j)))];
          done := done + [Prop(entry, i, j)];
          row := row + [Prop(entry, i, j)];
        }
      }
      BoxTargetsStep(x, y, entry, i);
      AppendAssoc(rowCol, BoxTargets(x, y, entry, i - boxX), row);
    }
    ghost var rowColBox := done;
    ghost var cell: seq<Prop> := [];
    for i := 1 to SideLength
      invariant cell == CellTargets(x, y, entry, i - 1)
      invariant done == rowColBox + cell
      invariant list1 == Exclusions(p, done)
    {
      CellTargetsStep(x, y, entry, i - 1);
      if i != entry {
        ExclusionsSnoc(p, done, Prop(i, x, y));
        AppendAssoc(rowColBox, cell, [Prop(i, x, y)]);
        list1 := list1 + [Implies(SpotEntry(entry, x, y), Not(SpotEntry(i, x, y)))];
        done := done + [Prop(i, x, y)];
        cell := cell + [Prop(i, x, y)];
      }
    }
  }

  method GetFormulaForAllSpots(board: Board) returns (formulaForAllBoxes: seq<Clause>)
    requires IsBoard(board)
    ensures formulaForAllBoxes == AllSpotsClauses(board)
  {
    formulaForAllBoxes := [];
    for i := 0 to SideLength
      invariant formulaForAllBoxes == SpotClauses(board, AllCells()[..9 * i])
    {
      for j := 0 to SideLength
        invariant formulaForAllBoxes == SpotClauses(board, AllCells()[..9 * i + j])
      {
        var entry := board[i][j];
        var part;
        if entry.Some? {
          part := GetFormulaForEntry(i, j, entry.value);
        } else {
          part := GetFormulaForBlank(i, j);
        }
        SpotClausesStep(board, i, j, formulaForAllBoxes, part);
        formulaForAllBoxes := formulaForAllBoxes + part;
      }
    }
    AllCellsPrefix();
  }

  method Initialize(board: Board) returns (list1: seq<Clause>)
    requires IsBoard(board)
    ensures list1 == InitClauses(board)
  {
    list1 := [];
    for i := 0 to SideLength
      invariant list1 == Map(Unit, GivenProps(board, AllCells()[..9 * i]))
    {
      for j := 0 to SideLength
        invariant list1 == Map(Unit, GivenProps(board, AllCells()[..9 * i + j]))
      {
        var num := board[i][j];
        AllCellsStep(i, j);
        assert AllCells()[..9 * i + j + 1][..9 * i + j] == AllCells()[..9 * i + j];
        ghost var given := match num case Some(v) => [Prop(v, i, j)] case None => [];
        MapAppend(Unit, GivenProps(board, AllCells()[..9 * i + j]), given);
        if num.Some? {
          list1 := list1 + [[SpotEntry(num.value, i, j)]];
        }
      }
    }
    AllCellsPrefix();
  }

  method GetFormulaForFillAll() returns (mainList: seq<Clause>)
    ensures mainList == FillAllClauses()
  {
    mainList := [];
    for i := 0 to SideLength
      invariant mainList == Map(FillClause, AllCells()[..9 * i])
    {
      for j := 0 to SideLength
        invariant mainList == Map(FillClause, AllCells()[..9 * i + j])
      {
        var sublist := [];
        for num := 1 to SideLength + 1
          invariant |sublist| == num - 1
          invariant forall k :: 0 <= k < num - 1 ==> sublist[k] == SpotEntry(k + 1, i, j)
        {
          sublist := sublist + [SpotEntry(num, i, j)];
        }
        assert sublist == FillClause((i, j));
        AllCellsStep(i, j);
        MapAppend(FillClause, AllCells()[..9 * i + j], [(i, j)]);
        mainList := mainList + [sublist];
      }
    }
    AllCellsPrefix();
  }

  method GetFormulaAllParts(board: Board) returns (formula: seq<Clause>)
    requires IsBoard(board)
    ensures formula == AllPartsClauses(board)
  {
    var formulaForAllSpots := GetFormulaForAllSpots(board);
    var initialisation := Initialize(board);
    var fillAllConstraints := GetFormulaForFillAll();
    formulaForAllSpots := formulaForAllSpots + initialisation;
    formulaForAllSpots := formulaForAllSpots + fillAllConstraints;
    formula := formulaForAllSpots;
  }
}

// Shape of the clause lists the builders return.
module DimacsShape {
  import opened Seqs
  import opened Sudoku
  import opened DimacsEncoder

  /** An exclusion clause: not p or not q, for two different propositions. */
  predicate ExclusionShaped(c: Clause)
  {
    |c| == 2 && c[0].Neg? && c[1].Neg? && c[0].p != c[1].p
  }

  /** An exclusion clause mentions as antecedent spot_entry(e, x, y) and as consequent q. */
  lemma ExclusionClauseIs(p: Prop, q: Prop)
    ensures ExclusionClause(p, q) == [Neg(p), Neg(q)]
  {
  }

  /**
   * get_formula_for_entry(x, y, e): 27 clauses when e is 1..8, else 28;
   * each one is not spot_entry(e, x, y) or not q for its target q, which
   * is never the antecedent itself.
   */
  lemma EntryClausesShape(x: int, y: int, e: int)
    requires InRange(x) && InRange(y)
    ensures |EntryClauses(x, y, e)| == if 1 <= e < SideLength then 27 else 28
    ensures forall k :: 0 <= k < |EntryClauses(x, y, e)| ==>
              EntryClauses(x, y, e)[k] == [Neg(Prop(e, x, y)), Neg(EntryTargets(x, y, e)[k])]
              && ExclusionShaped(EntryClauses(x, y, e)[k])
  {
    EntryTargetsCount(x, y, e);
    EntryTargetsAvoidAntecedent(x, y, e);
  }

  /**
   * The order of get_formula_for_entry's clauses: 16 row/column clauses
   * first, then the 4 box clauses, then the same-cell clauses.
   */
  lemma EntryClausesOrder(x: int, y: int, e: int, k: int)
    requires InRange(x) && InRange(y) && 0 <= k < |EntryTargets(x, y, e)|
    ensures k < 16 ==>
              var q := EntryTargets(x, y, e)[k];
              q.num == e && ((q.x == x && q.y != y && InRange(q.y)) || (q.y == y && q.x != x && InRange(q.x)))
    ensures 16 <= k < 20 ==>
              var q := EntryTargets(x, y, e)[k];
              q.num == e && q.x != x && q.y != y && InBoxOf(q.x, x) && InBoxOf(q.y, y)
    ensures 20 <= k ==>
              var q := EntryTargets(x, y, e)[k];
              q.x == x && q.y == y && 1 <= q.num < SideLength && q.num != e
  {
    EntryTargetsCount(x, y, e);
    var rc := RowColTargets(x, y, e, SideLength);
    var bx := BoxTargets(x, y, e, BoxLength);
    var cl := CellTargets(x, y, e, SideLength - 1);
    var q := EntryTargets(x, y, e)[k];
    if k < 16 {
      assert q == rc[k];
      RowColTargetsMembers(x, y, e, SideLength, q);
    } else if k < 20 {
      assert q == bx[k - 16];
      BoxTargetsMembers(x, y, e, BoxLength, q);
    } else {
      assert q == cl[k - 20];
      CellTargetsMembers(x, y, e, SideLength - 1, q);
    }
  }

  /** not spot_entry(e, x, y) or not q is emitted exactly for the q that e at (x, y) excludes. */
  lemma EntryClausesMembers(x: int, y: int, e: int, q: Prop)
    requires InRange(x) && InRange(y)
    ensures [Neg(Prop(e, x, y)), Neg(q)] in EntryClauses(x, y, e) <==> Excluded(x, y, e, q)
  {
    EntryTargetsMembers(x, y, e, q);
    var ts := EntryTargets(x, y, e);
    if [Neg(Prop(e, x, y)), Neg(q)] in EntryClauses(x, y, e) {
      var k :| 0 <= k < |ts| && EntryClauses(x, y, e)[k] == [Neg(Prop(e, x, y)), Neg(q)];
      assert EntryClauses(x, y, e)[k][1] == Neg(ts[k]);
      assert ts[k] == q;
    }
    if Excluded(x, y, e, q) {
      var k :| 0 <= k < |ts| && ts[k] == q;
      assert EntryClauses(x, y, e)[k] == [Neg(Prop(e, x, y)), Neg(q)];
    }
  }

  lemma {:induction false} BlankEntriesPrefix(x: int, y: int, n: nat)
    requires 0 < n
    ensures BlankEntries(x, y, n)[..n - 1] == BlankEntries(x, y, n - 1)
  {
  }

  lemma {:induction false} BlankPrefixLength(x: int, y: int, n: nat)
    requires InRange(x) && InRange(y) && n <= SideLength
    ensures |Concat(BlankEntries(x, y, n))| == 27 * n + (if n == SideLength then 1 else 0)
  {
    if n > 0 {
      BlankEntriesPrefix(x, y, n);
      BlankPrefixLength(x, y, n - 1);
      EntryClausesShape(x, y, n);
    }
  }

  /** get_formula_for_blank: 8 * 27 + 28 = 244 clauses. */
  lemma BlankClausesCount(x: int, y: int)
    requires InRange(x) && InRange(y)
    ensures |GetFormulaForBlank(x, y)| == 244
  {
    BlankPrefixLength(x, y, SideLength);
  }

  lemma CellBlockShape(board: Board, c: Cell)
    requires IsBoard(board) && InRange(c.0) && InRange(c.1)
    ensures forall k :: 0 <= k < |CellBlock(board, c)| ==> ExclusionShaped(CellBlock(board, c)[k])
  {
    match board[c.0][c.1]
    case Some(e) =>
      EntryClausesShape(c.0, c.1, e);
    case None =>
      var blank := GetFormulaForBlank(c.0, c.1);
      assert CellBlock(board, c) == blank;
      forall k | 0 <= k < |blank|
        ensures ExclusionShaped(blank[k])
      {
        BlankClauseShaped(c.0, c.1, blank[k]);
      }
  }

  lemma BlankClauseShaped(x: int, y: int, cl: Clause)
    requires InRange(x) && InRange(y) && cl in GetFormulaForBlank(x, y)
    ensures ExclusionShaped(cl)
  {
    var e :| 1 <= e <= SideLength && cl in EntryClauses(x, y, e);
    EntryClausesShape(x, y, e);
  }

  /** The number of clauses a cell contributes to get_formula_for_all_spots. */
  function BlockSize(v: Option<int>): nat
  {
    match v
    case None => 244
    case Some(e) => if 1 <= e < SideLength then 27 else 28
  }

  function BlockSizes(board: Board, cells: seq<Cell>): nat
    requires IsBoard(board) && CellsInRange(cells)
    decreases |cells|
  {
    if cells == [] then 0
    else
      var c := cells[|cells| - 1];
      BlockSizes(board, cells[..|cells| - 1]) + BlockSize(board[c.0][c.1])
  }

  lemma {:induction false} SpotClausesFacts(board: Board, cells: seq<Cell>)
    requires IsBoard(board) && CellsInRange(cells)
    ensures |SpotClauses(board, cells)| == BlockSizes(board, cells)
    ensures forall k :: 0 <= k < |SpotClauses(board, cells)| ==> ExclusionShaped(SpotClauses(board, cells)[k])
    decreases |cells|
  {
    if cells != [] {
      var c := cells[|cells| - 1];
      SpotClausesFacts(board, cells[..|cells| - 1]);
      CellBlockShape(board, c);
      match board[c.0][c.1]
      case Some(e) => EntryClausesShape(c.0, c.1, e);
      case None => BlankClausesCount(c.0, c.1);
    }
  }

  /**
   * get_formula_for_all_spots: each cell in row-major order contributes 244
   * clauses when blank and 27 or 28 when given, and all of them are
   * exclusion clauses.
   */
  lemma AllSpotsShape(board: Board)
    requires IsBoard(board)
    ensures |AllSpotsClauses(board)| == BlockSizes(board, AllCells())
    ensures forall k :: 0 <= k < |AllSpotsClauses(board)| ==> ExclusionShaped(AllSpotsClauses(board)[k])
  {
    SpotClausesFacts(board, AllCells());
  }

  /**
   * initialize: one positive unit clause per given cell, asserting that
   * cell's number, and nothing for blank cells.
   */
  lemma InitShape(board: Board)
    requires IsBoard(board)
    ensures |InitClauses(board)| == CountGiven(board, AllCells())
    ensures forall k :: 0 <= k < |InitClauses(board)| ==>
              exists p :: InitClauses(board)[k] == [Pos(p)] && InRange(p.x) && InRange(p.y)
                          && board[p.x][p.y] == Some(p.num)
    ensures forall i, j :: InRange(i) && InRange(j) && board[i][j].Some? ==>
              [Pos(Prop(board[i][j].value, i, j))] in InitClauses(board)
  {
    var gs := GivenProps(board, AllCells());
    GivenPropsCount(board, AllCells());
    forall k | 0 <= k < |InitClauses(board)|
      ensures exists p :: InitClauses(board)[k] == [Pos(p)] && InRange(p.x) && InRange(p.y)
                          && board[p.x][p.y] == Some(p.num)
    {
      GivenPropsMembers(board, AllCells(), gs[k]);
      AllCellsMembers((gs[k].x, gs[k].y));
      assert InitClauses(board)[k] == [Pos(gs[k])];
    }
    forall i, j | InRange(i) && InRange(j) && board[i][j].Some?
      ensures [Pos(Prop(board[i][j].value, i, j))] in InitClauses(board)
    {
      var p := Prop(board[i][j].value, i, j);
      AllCellsMembers((i, j));
      GivenPropsMembers(board, AllCells(), p);
      var k :| 0 <= k < |gs| && gs[k] == p;
      assert InitClauses(board)[k] == [Pos(p)];
    }
  }

  /**
   * get_formula_for_fill_all: 81 lists of 9 positive literals; the list at
   * 9 * i + j is cell (i, j) and its element k is digit k + 1.
   */
  lemma FillAllShape(i: int, j: int)
    requires InRange(i) && InRange(j)
    ensures |FillAllClauses()| == 81
    ensures var cl := FillAllClauses()[9 * i + j];
              |cl| == SideLength && forall k :: 0 <= k < SideLength ==> cl[k] == Pos(Prop(k + 1, i, j))
  {
    AllCellsAt(i, j);
    assert FillAllClauses()[9 * i + j] == FillClause((i, j));
    forall k | 0 <= k < SideLength
      ensures FillClause((i, j))[k] == Pos(Prop(k + 1, i, j))
    {
      assert FillClause((i, j))[k] == SpotEntry(k + 1, i, j);
    }
  }

  /** No clause holds a literal and its negation. */
  predicate NotTautology(c: Clause)
  {
    forall i, j :: 0 <= i < |c| && 0 <= j < |c| && c[i].Pos? && c[j].Neg? ==> c[i].p != c[j].p
  }

  /** Every clause of `f` is non-empty and no tautology. */
  predicate Proper(f: seq<Clause>)
  {
    forall k :: 0 <= k < |f| ==> |f[k]| > 0 && NotTautology(f[k])
  }

  lemma ProperAppend(f: seq<Clause>, g: seq<Clause>)
    requires Proper(f) && Proper(g)
    ensures Proper(f + g)
  {
    forall k | 0 <= k < |f + g|
      ensures |(f + g)[k]| > 0 && NotTautology((f + g)[k])
    {
      if k < |f| {
        assert (f + g)[k] == f[k];
      } else {
        assert (f + g)[k] == g[k - |f|];
      }
    }
  }

  lemma FillAllProper()
    ensures Proper(FillAllClauses())
  {
    forall k | 0 <= k < |FillAllClauses()|
      ensures |FillAllClauses()[k]| > 0 && NotTautology(FillAllClauses()[k])
    {
      var c := AllCells()[k];
      assert FillAllClauses()[k] == FillClause(c);
      assert FillClause(c)[0] == SpotEntry(1, c.0, c.1);
      assert forall j :: 0 <= j < |FillClause(c)| ==> FillClause(c)[j] == SpotEntry(j + 1, c.0, c.1);
    }
  }

  lemma ShapedProper(c: Clause)
    requires ExclusionShaped(c)
    ensures |c| > 0 && NotTautology(c)
  {
    assert forall i :: 0 <= i < |c| ==> c[i].Neg?;
  }

  lemma AllSpotsProper(board: Board)
    requires IsBoard(board)
    ensures Proper(AllSpotsClauses(board))
  {
    AllSpotsShape(board);
    var s := AllSpotsClauses(board);
    forall k | 0 <= k < |s|
      ensures |s[k]| > 0 && NotTautology(s[k])
    {
      ShapedProper(s[k]);
    }
  }

  lemma InitProper(board: Board)
    requires IsBoard(board)
    ensures Proper(InitClauses(board))
  {
    var gs := GivenProps(board, AllCells());
    var u := InitClauses(board);
    forall k | 0 <= k < |u|
      ensures |u[k]| > 0 && NotTautology(u[k])
    {
      assert u[k] == [Pos(gs[k])];
    }
  }

  /**
   * get_formula_all_parts: the spot clauses, then the givens' units, then
   * the 81 at-least-one clauses; no clause is empty and none is a tautology.
   */
  lemma AllPartsShape(board: Board)
    requires IsBoard(board)
    ensures |AllPartsClauses(board)| == BlockSizes(board, AllCells()) + CountGiven(board, AllCells()) + 81
    ensures Proper(AllPartsClauses(board))
  {
    AllSpotsShape(board);
    InitShape(board);
    AllSpotsProper(board);
    InitProper(board);
    FillAllProper();
    ProperAppend(AllSpotsClauses(board), InitClauses(board));
    ProperAppend(AllSpotsClauses(board) + InitClauses(board), FillAllClauses());
  }
}
