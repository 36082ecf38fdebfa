// sudoku_solver(board): hand get_formula_all_parts(board) to z3 and, when
// z3 answers sat, read the grid back from the names of the true Bools.
module Decoder {
  import opened Sudoku
  import opened Names
  import Z = Z3Encoder

  /** One declaration of a z3 model: a Bool's name and the value the model gives it. */
  datatype Decl = Decl(name: string, value: bool)

  /** What s.check() answers; for sat, the declarations of s.model() in the order z3 lists them. */
  datatype CheckResult = Sat(decls: seq<Decl>) | Unsat | Unknown

  /**
   * What sudoku_solver does: return the grid, return None after printing
   * "Unsolvable Sudoku." or the more-settings error, or raise while reading
   * a name (IndexError or ValueError).
   */
  datatype Outcome = Solved(grid: Grid) | Unsolvable | WrongCount(counter: nat) | Raised

  // ---------------------------------------------------------------------
  // Reading the declarations.

  /** numpy accepts an index i of a length-9 axis when -9 <= i < 9. */
  predicate IndexOk(i: int)
  {
    -SideLength <= i < SideLength
  }

  /** The axis position numpy writes for an accepted index: negative ones count from the end. */
  function Wrap(i: int): (r: int)
    requires IndexOk(i)
    ensures InRange(r) && (r == i || r == i + SideLength)
  {
    if i < 0 then i + SideLength else i
  }

  /** What the loop body does with a declaration: skip it, write a number into ans, or raise. */
  datatype Reading = Skipped | Wrote(r: int, c: int, num: int) | Failed

  function Read(d: Decl): (rd: Reading)
    ensures rd.Wrote? ==> InRange(rd.r) && InRange(rd.c)
  {
    if !d.value then Skipped
    else
      match ParseName(d.name)
      case None => Failed
      case Some(p) => if IndexOk(p.x) && IndexOk(p.y) then Wrote(Wrap(p.x), Wrap(p.y), p.num) else Failed
  }

  function Readings(ds: seq<Decl>): (rs: seq<Reading>)
    ensures |rs| == |ds| && forall k :: 0 <= k < |ds| ==> rs[k] == Read(ds[k])
  {
    seq(|ds|, k requires 0 <= k < |ds| => Read(ds[k]))
  }

  /** Whether a reading writes into ans[r, c]. */
  predicate Writes(rd: Reading, r: int, c: int)
  {
    rd.Wrote? && rd.r == r && rd.c == c
  }

  /** counter: how many declarations are true. */
  function TrueCount(ds: seq<Decl>): nat
    decreases |ds|
  {
    if ds == [] then 0 else TrueCount(ds[..|ds| - 1]) + (if ds[|ds| - 1].value then 1 else 0)
  }

  /** ans[r, c] after the readings rs: the number of the last one writing there, else 0. */
  function LastAt(rs: seq<Reading>, r: int, c: int): int
    decreases |rs|
  {
    if rs == [] then 0
    else if Writes(rs[|rs| - 1], r, c) then rs[|rs| - 1].num
    else LastAt(rs[..|rs| - 1], r, c)
  }

  /** The answer grid after the readings rs. */
  function AnsAfter(rs: seq<Reading>): (g: Grid)
    ensures IsGrid(g)
  {
    seq(SideLength, r => seq(SideLength, c => LastAt(rs, r, c)))
  }

  /**
   * What sudoku_solver returns for the solver's answer: None (Unsolvable)
   * exactly when z3 does not answer sat; a grid only when every true name
   * parsed and exactly 81 declarations were true, and then ans after the loop.
   */
  function Decode(result: CheckResult): (r: Outcome)
    ensures r == Unsolvable <==> !result.Sat?
    ensures r.Solved? ==>
              && result.Sat?
              && (forall k :: 0 <= k < |result.decls| ==> !Read(result.decls[k]).Failed?)
              && TrueCount(result.decls) == SideLength * SideLength
              && r.grid == AnsAfter(Readings(result.decls))
    ensures r.WrongCount? ==>
              && result.Sat?
              && (forall k :: 0 <= k < |result.decls| ==> !Read(result.decls[k]).Failed?)
              && r.counter == TrueCount(result.decls) != SideLength * SideLength
    ensures r.Raised? <==> result.Sat? && exists k :: 0 <= k < |result.decls| && Read(result.decls[k]).Failed?
  {
    match result
    case Sat(ds) =>
      var rs := Readings(ds);
      if exists k :: 0 <= k < |rs| && rs[k].Failed? then Raised
      else if TrueCount(ds) != SideLength * SideLength then WrongCount(TrueCount(ds))
      else Solved(AnsAfter(rs))
    case _ => Unsolvable
  }

  /** The grid a 9x9 array holds. */
  function Snapshot(ans: array2<int>): (g: Grid)
    reads ans
    requires ans.Length0 == SideLength && ans.Length1 == SideLength
    ensures IsGrid(g)
    ensures forall r, c :: InRange(r) && InRange(c) ==> g[r][c] == ans[r, c]
  {
    seq(SideLength, r requires 0 <= r < SideLength reads ans =>
      seq(SideLength, c requires 0 <= c < SideLength reads ans => ans[r, c]))
  }

  // ---------------------------------------------------------------------
  // sudoku_solver.

  /**
   * `check` stands for z3's Solver: s.add(formula) followed by s.check()
   * and s.model().
   */
  method SudokuSolver(board: Board, check: Z.Formula -> CheckResult) returns (result: Outcome)
    requires IsBoard(board)
    ensures result == Decode(check(Z.AllPartsFormula(board)))
  {
    var formula := Z.GetFormulaAllParts(board);
    var answer := check(formula);
    var ans := new int[SideLength, SideLength]((r, c) => 0);
    if !answer.Sat? {
      return Unsolvable;
    }
    var decls := answer.decls;
    ghost var rs := Readings(decls);
    var counter := 0;
    for k := 0 to |decls|
      invariant counter == TrueCount(decls[..k])
      invariant forall m :: 0 <= m < k ==> !rs[m].Failed?
      invariant forall r, c :: InRange(r) && InRange(c) ==> ans[r, c] == LastAt(rs[..k], r, c)
    {
      var d := decls[k];
      TrueCountStep(decls, k);
      LastAtStep(rs, k);
      if d.value {
        counter := counter + 1;
        // s.split("_")[1:] and the three int() calls; None where Python raises.
        var p := ParseName(d.name);
        if p.None? || !IndexOk(p.value.x) || !IndexOk(p.value.y) {
          assert rs[k].Failed?;
          return Raised;
        }
        assert rs[k] == Wrote(Wrap(p.value.x), Wrap(p.value.y), p.value.num);
        ans[Wrap(p.value.x), Wrap(p.value.y)] := p.value.num;
      } else {
        assert rs[k] == Skipped;
      }
    }
    assert decls[..|decls|] == decls;
    assert rs[..|decls|] == rs;
    if counter != SideLength * SideLength {
      result := WrongCount(counter);
    } else {
      result := Solved(Snapshot(ans));
      assert Snapshot(ans) == AnsAfter(rs) by {
        forall r | 0 <= r < SideLength
          ensures Snapshot(ans)[r] == AnsAfter(rs)[r]
        {
        }
      }
    }
  }

  lemma TrueCountStep(ds: seq<Decl>, k: int)
    requires 0 <= k < |ds|
    ensures TrueCount(ds[..k + 1]) == TrueCount(ds[..k]) + (if ds[k].value then 1 else 0)
  {
    assert ds[..k + 1][..k] == ds[..k];
  }

  lemma LastAtStep(rs: seq<Reading>, k: int)
    requires 0 <= k < |rs|
    ensures forall r, c :: LastAt(rs[..k + 1], r, c) ==
              if Writes(rs[k], r, c) then rs[k].num else LastAt(rs[..k], r, c)
  {
    assert rs[..k + 1][..k] == rs[..k];
  }
}

// What the decoder reads back from a model of the formula.
module DecoderFacts {
  import opened Seqs
  import opened Sudoku
  import opened Names
  import opened Solutions
  import opened Decoder
  import Z = Z3Encoder

  /**
   * Each cell of ans keeps the number of the last reading that writes
   * there, and stays 0 when none does.
   */
  lemma {:induction false} LastAtMeaning(rs: seq<Reading>, r: int, c: int)
    ensures (forall k :: 0 <= k < |rs| ==> !Writes(rs[k], r, c)) ==> LastAt(rs, r, c) == 0
    ensures (exists k :: 0 <= k < |rs| && Writes(rs[k], r, c)) ==>
              exists k :: 0 <= k < |rs| && Writes(rs[k], r, c) && LastAt(rs, r, c) == rs[k].num
                          && forall m :: k < m < |rs| ==> !Writes(rs[m], r, c)
    decreases |rs|
  {
    if rs != [] {
      var init := rs[..|rs| - 1];
      LastAtMeaning(init, r, c);
      assert forall k :: 0 <= k < |init| ==> init[k] == rs[k];
      if !Writes(rs[|rs| - 1], r, c) && exists k :: 0 <= k < |rs| && Writes(rs[k], r, c) {
        var k :| 0 <= k < |rs| && Writes(rs[k], r, c);
        assert Writes(init[k], r, c);
      }
    }
  }

  lemma {:induction false} TrueCountAppend(s: seq<Decl>, t: seq<Decl>)
    ensures TrueCount(s + t) == TrueCount(s) + TrueCount(t)
    decreases |t|
  {
    if t == [] {
      assert s + t == s;
    } else {
      TrueCountAppend(s, t[..|t| - 1]);
      assert (s + t)[..|s + t| - 1] == s + t[..|t| - 1];
    }
  }

  /** counter does not depend on the order z3 lists the declarations in. */
  lemma {:induction false} TrueCountPermutation(s: seq<Decl>, t: seq<Decl>)
    requires multiset(s) == multiset(t)
    ensures TrueCount(s) == TrueCount(t)
    decreases |s|
  {
    if s != [] {
      var x := s[|s| - 1];
      assert x in multiset(t);
      var i :| 0 <= i < |t| && t[i] == x;
      var rest := t[..i] + t[i + 1..];
      assert t == t[..i] + [x] + t[i + 1..];
      assert s == s[..|s| - 1] + [x];
      assert multiset(t) == multiset(rest) + multiset{x};
      assert multiset(s) == multiset(s[..|s| - 1]) + multiset{x};
      assert multiset(s[..|s| - 1]) == multiset(s) - multiset{x};
      assert multiset(rest) == multiset(t) - multiset{x};
      TrueCountPermutation(s[..|s| - 1], rest);
      TrueCountAppend(s[..|s| - 1], [x]);
      TrueCountAppend(t[..i], [x]);
      TrueCountAppend(t[..i] + [x], t[i + 1..]);
      TrueCountAppend(t[..i], t[i + 1..]);
      assert TrueCount([x]) == TrueCount([] + [x]);
    }
  }

  lemma {:induction false} TrueCountConcat(ss: seq<seq<Decl>>)
    requires forall k :: 0 <= k < |ss| ==> TrueCount(ss[k]) == 1
    ensures TrueCount(Concat(ss)) == |ss|
    decreases |ss|
  {
    if ss != [] {
      TrueCountConcat(ss[..|ss| - 1]);
      TrueCountAppend(Concat(ss[..|ss| - 1]), ss[|ss| - 1]);
    }
  }

  /** One true declaration among false ones: counter is 1. */
  lemma {:induction false} TrueCountSingle(s: seq<Decl>, m: int)
    requires 0 <= m < |s| && s[m].value
    requires forall k :: 0 <= k < |s| && k != m ==> !s[k].value
    ensures TrueCount(s) == 1
    decreases |s|
  {
    var init := s[..|s| - 1];
    if m == |s| - 1 {
      TrueCountNone(init);
    } else {
      TrueCountSingle(init, m);
    }
  }

  lemma {:induction false} TrueCountNone(s: seq<Decl>)
    requires forall k :: 0 <= k < |s| ==> !s[k].value
    ensures TrueCount(s) == 0
    decreases |s|
  {
    if s != [] {
      TrueCountNone(s[..|s| - 1]);
    }
  }

  // ---------------------------------------------------------------------
  // The declarations of a model of the formula.

  /** The declaration z3 lists for proposition p under assignment a. */
  function DeclOf(a: Prop -> bool, p: Prop): Decl
  {
    Decl(Name(p), a(p))
  }

  /** Cell c's nine declarations, digits 1..9. */
  function CellDecls(a: Prop -> bool, c: Cell): (r: seq<Decl>)
    ensures |r| == SideLength
  {
    seq(SideLength, k => DeclOf(a, Prop(k + 1, c.0, c.1)))
  }

  /** The cells' declaration lists, in the row-major order of the cells. */
  function CellLists(a: Prop -> bool): (ss: seq<seq<Decl>>)
    ensures |ss| == 81 && forall n :: 0 <= n < 81 ==> ss[n] == CellDecls(a, AllCells()[n])
  {
    seq(81, n requires 0 <= n < 81 => CellDecls(a, AllCells()[n]))
  }

  /** The 729 declarations of the formula's Bools, cell by cell. */
  function ModelDecls(a: Prop -> bool): seq<Decl>
  {
    Concat(CellLists(a))
  }

  lemma ModelDeclsOnBoard(a: Prop -> bool, d: Decl)
    requires d in ModelDecls(a)
    ensures exists p :: OnBoard(p) && d == DeclOf(a, p)
  {
    var ss := CellLists(a);
    ConcatMembers(ss, d);
    var n :| 0 <= n < |ss| && d in ss[n];
    var c := AllCells()[n];
    AllCellsInRange(81);
    assert InRange(c.0) && InRange(c.1) by {
      assert AllCells()[..81][n] == c;
    }
    var k :| 0 <= k < SideLength && ss[n][k] == d;
    assert d == DeclOf(a, Prop(k + 1, c.0, c.1));
    assert OnBoard(Prop(k + 1, c.0, c.1));
  }

  lemma ModelDeclsHasAll(a: Prop -> bool, p: Prop)
    requires OnBoard(p)
    ensures DeclOf(a, p) in ModelDecls(a)
  {
    var ss := CellLists(a);
    var n := 9 * p.x + p.y;
    AllCellsAt(p.x, p.y);
    assert ss[n] == CellDecls(a, (p.x, p.y));
    var k := p.num - 1;
    assert ss[n][k] == DeclOf(a, Prop(k + 1, p.x, p.y));
    assert DeclOf(a, p) in ss[n];
    ConcatMembers(ss, DeclOf(a, p));
  }

  /** The model lists one declaration per board proposition and nothing else. */
  lemma ModelDeclsMembers(a: Prop -> bool, d: Decl)
    ensures d in ModelDecls(a) <==> exists p :: OnBoard(p) && d == DeclOf(a, p)
  {
    if d in ModelDecls(a) {
      ModelDeclsOnBoard(a, d);
    }
    if exists p :: OnBoard(p) && d == DeclOf(a, p) {
      var p :| OnBoard(p) && d == DeclOf(a, p);
      ModelDeclsHasAll(a, p);
    }
  }

  /** A cell where exactly digit m + 1 is true has one true declaration. */
  lemma CellTrueCount(a: Prop -> bool, c: Cell, m: int)
    requires 0 <= m < SideLength
    requires forall d :: 1 <= d <= SideLength ==> (a(Prop(d, c.0, c.1)) <==> d == m + 1)
    ensures TrueCount(CellDecls(a, c)) == 1
  {
    var s := CellDecls(a, c);
    forall k | 0 <= k < SideLength
      ensures s[k].value <==> k == m
    {
      assert s[k] == DeclOf(a, Prop(k + 1, c.0, c.1));
    }
    TrueCountSingle(s, m);
  }

  /** a makes true exactly the propositions of the solution g. */
  ghost predicate Encodes(a: Prop -> bool, g: Grid)
  {
    IsSolution(g) && forall p :: OnBoard(p) ==> (a(p) <==> GridHolds(g)(p))
  }

  /** Under a model of the formula each cell has exactly one true declaration. */
  lemma ModelDeclsCount(board: Board, a: Prop -> bool)
    requires IsBoard(board) && GivensAreDigits(board) && Z.Eval(Z.AllPartsFormula(board), a)
    ensures TrueCount(ModelDecls(a)) == SideLength * SideLength
  {
    Z3Complete(board, a);
    var g := ModelGrid(a);
    var ss := CellLists(a);
    forall n | 0 <= n < |ss|
      ensures TrueCount(ss[n]) == 1
    {
      EncodedCellCount(a, g, AllCells()[n]);
    }
    TrueCountConcat(ss);
  }

  lemma EncodedCellCount(a: Prop -> bool, g: Grid, c: Cell)
    requires Encodes(a, g) && InRange(c.0) && InRange(c.1)
    ensures TrueCount(CellDecls(a, c)) == 1
  {
    var m := g[c.0][c.1] - 1;
    forall d | 1 <= d <= SideLength
      ensures a(Prop(d, c.0, c.1)) <==> d == m + 1
    {
      assert OnBoard(Prop(d, c.0, c.1));
    }
    CellTrueCount(a, c, m);
  }

  /** The loop reads a board proposition's declaration as a write of its number into its own cell. */
  lemma ReadDeclOf(a: Prop -> bool, p: Prop)
    requires OnBoard(p)
    ensures Read(DeclOf(a, p)) == if a(p) then Wrote(p.x, p.y, p.num) else Skipped
  {
    NameRoundTrip(p);
  }

  /** Reading a model's declarations never raises, and each write puts the grid's own number. */
  lemma ModelReadings(a: Prop -> bool, g: Grid, ds: seq<Decl>)
    requires Encodes(a, g) && multiset(ds) == multiset(ModelDecls(a))
    ensures forall k :: 0 <= k < |ds| ==>
              !Read(ds[k]).Failed? && (Read(ds[k]).Wrote? ==> Read(ds[k]).num == g[Read(ds[k]).r][Read(ds[k]).c])
  {
    forall k | 0 <= k < |ds|
      ensures !Read(ds[k]).Failed? && (Read(ds[k]).Wrote? ==> Read(ds[k]).num == g[Read(ds[k]).r][Read(ds[k]).c])
    {
      assert ds[k] in multiset(ModelDecls(a));
      ModelDeclsOnBoard(a, ds[k]);
      var p :| OnBoard(p) && ds[k] == DeclOf(a, p);
      ReadDeclOf(a, p);
    }
  }

  /** Every write into ans puts the grid's own number there. */
  ghost predicate WritesAgree(rs: seq<Reading>, g: Grid)
    requires IsGrid(g)
  {
    forall k :: 0 <= k < |rs| && rs[k].Wrote? && InRange(rs[k].r) && InRange(rs[k].c) ==>
      rs[k].num == g[rs[k].r][rs[k].c]
  }

  /** Cell (r, c) of a solution is written by the reading of its true declaration, and ends as g[r][c]. */
  lemma ModelCell(a: Prop -> bool, g: Grid, ds: seq<Decl>, r: int, c: int)
    requires Encodes(a, g) && multiset(ds) == multiset(ModelDecls(a))
    requires WritesAgree(Readings(ds), g) && InRange(r) && InRange(c)
    ensures LastAt(Readings(ds), r, c) == g[r][c]
  {
    var rs := Readings(ds);
    var q := Prop(g[r][c], r, c);
    ModelDeclsHasAll(a, q);
    assert DeclOf(a, q) in multiset(ds);
    var i :| 0 <= i < |ds| && ds[i] == DeclOf(a, q);
    ReadDeclOf(a, q);
    assert Writes(rs[i], r, c);
    LastAtMeaning(rs, r, c);
  }

  /** After reading a model's declarations, ans holds the grid. */
  lemma ModelAnswer(a: Prop -> bool, g: Grid, ds: seq<Decl>)
    requires Encodes(a, g) && multiset(ds) == multiset(ModelDecls(a))
    ensures AnsAfter(Readings(ds)) == g
  {
    ModelReadings(a, g, ds);
    var rs := Readings(ds);
    assert WritesAgree(rs, g);
    forall r | 0 <= r < SideLength
      ensures AnsAfter(rs)[r] == g[r]
    {
      forall c | 0 <= c < SideLength
        ensures AnsAfter(rs)[r][c] == g[r][c]
      {
        ModelCell(a, g, ds, r, c);
      }
    }
  }

  /**
   * The decoder reads back the model's grid: when z3 lists the
   * declarations of a model of get_formula_all_parts(board), in any order,
   * sudoku_solver returns that model's grid, a solution keeping the givens.
   */
  lemma DecodeModel(board: Board, a: Prop -> bool, ds: seq<Decl>)
    requires IsBoard(board) && GivensAreDigits(board) && Z.Eval(Z.AllPartsFormula(board), a)
    requires multiset(ds) == multiset(ModelDecls(a))
    ensures Decode(Sat(ds)) == Solved(ModelGrid(a))
    ensures IsSolution(ModelGrid(a)) && Agrees(ModelGrid(a), board)
  {
    Z3Complete(board, a);
    var g := ModelGrid(a);
    ModelReadings(a, g, ds);
    ModelAnswer(a, g, ds);
    TrueCountPermutation(ds, ModelDecls(a));
    ModelDeclsCount(board, a);
    var rs := Readings(ds);
    assert !exists k :: 0 <= k < |rs| && rs[k].Failed?;
  }
}
