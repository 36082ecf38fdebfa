# Sudoku to SAT: encoder and decoder

This project is a Dafny model of the two scripts in the sudoku-solver-constraint-programming
repository: `sudoku_solver.py` and `sudoku_solver_dimacs_output.py`.

Both scripts encode a 9x9 Sudoku board as a propositional formula. Proposition `(num, x, y)`
says "cell (x, y) holds digit num". Its Bool is named `'_num_x_y'` by `spot_entry`.

The encoding has three groups:

- **Spots.** A given cell gets the implications that rule out the cells its digit conflicts with. A blank cell gets those implications for every digit 1..9.
- **Init.** One unit per given.
- **Fill-all.** One disjunction of digits 1..9 per cell.

The z3 script builds these as trees of `And`/`Or`/`Implies`/`Not`. The DIMACS script builds the
same encoding as a flat list of clauses, with `Implies(a, b)` written as `Or(Not(a), b)`. The
z3 script also reads a model back: it walks the declarations that are true, parses each name,
writes the digit into a zeroed 9x9 array and counts them. It returns the grid only when exactly
81 are true.

Modules:

- `Seqs` (seqs.dfy): helpers for sequences — `Map`, `Concat` and `Distinct`.
- `Sudoku` (sudoku.dfy): the sizes (`SIDE_LENGTH`, `BOX_LENGTH`), propositions and boards. It also holds:
  - the row-major cell walk of the nested `for i: for j:` loops;
  - the box bounds `x/3*3`;
  - the ordered target lists of `get_formula_for_entry`, which both scripts share.
- `Names` (names.dfy): `spot_entry`'s names and their parsing: Python's `str`, `int` and `split`.
- `DimacsEncoder` / `DimacsShape` (dimacs_encoder.dfy): the DIMACS script's builders, one method per Python builder function. Each is proved equal to a specification function, and the shapes of the clause lists are proved from those functions.
- `Z3Encoder` / `Z3Shape` (z3_encoder.dfy): the same for the z3 script's formula trees.
- `Correctness` (correctness.dfy): what the formulas mean. Both say, under any assignment:
  - every placed digit excludes its row, column, box and cell targets;
  - every given holds;
  - every cell has a digit.
- `Solutions` (solutions.dfy): soundness (a solution satisfies the formula) and completeness (a model yields a solution).
- `Decoder` / `DecoderFacts` (decoder.dfy): the reading loop of `sudoku_solver`, and the proof that it returns the model's grid.

Assignments are functions `Prop -> bool`. Modelling the Bools by triples is justified by
`Names.NameInjective`: different triples get different names.

The model follows the code as written:

- The same-cell loop is `range(1, SIDE_LENGTH)`, which covers digits 1..8 only.
- Variables are the Bools that `spot_entry` names.
- Givens are not validated.
- The decoder counts the true declarations of the whole model, and a later write to a cell overwrites an earlier one.

Even with the 1..8 loop the encoding stays complete for a board whose givens are digits 1..9.
`Solutions.RowHasNine` shows that, for such a board, in every model each row's 9 sits at a cell
of its own. From that, `Solutions.OnlyValue` shows that no cell can hold both some `v` and 9.

## Model

| member | source | states |
|---|---|---|
| Names.NameRoundTrip | sudoku_solver.py:55-59 | Reading back the name of spot_entry(num, x, y) gives exactly (num, x, y), for every int triple. |
| Names.Name | sudoku_solver.py:71-72 | The Bool name of (num, x, y) splits on '_' into "", str(num), str(x), str(y). |
| Names.NameInjective | sudoku_solver.py:71-72 | Two propositions get the same Bool name only if they are the same triple. |
| Names.IntRoundTrip | sudoku_solver.py:57-59 | int(str(n)) == n for every integer, negative ones included. |
| Names.NatToStringDigits | sudoku_solver.py:72 | str(n) of a natural is a non-empty digit string whose decimal value is n. |
| Names.IntToStringNoSeparator | sudoku_solver.py:72 | str(n) never contains '_', so the name has exactly three separators. |
| Names.SplitNoSeparator | sudoku_solver.py:56 | A string without '_' splits into itself alone. |
| Names.SplitJoin | sudoku_solver.py:56 | Splitting a + '_' + b, where a has no '_', gives a followed by the pieces of b. |
| Sudoku.AllCellsAt | sudoku_solver.py:103-104 | The nested loops visit cell (i, j) at position 9 * i + j. |
| Sudoku.AllCellsMembers | sudoku_solver.py:103-104 | The walk visits exactly the 81 cells with both coordinates in 0..8. |
| Sudoku.AllCellsDistinct | sudoku_solver.py:103-104 | The walk visits no cell twice. |
| Sudoku.BoxStartFacts | sudoku_solver.py:120-123 | x's box lies inside the board and contains x. |
| Sudoku.InBoxOfIff | sudoku_solver.py:120-123 | a is in the box of i exactly when a/3 == i/3. |
| Sudoku.RowColTargetsCount | sudoku_solver.py:115-119 | After n steps the row/column loop has one target per i < n for each of the two lists, minus the skipped i == y and i == x. |
| Sudoku.RowColTargetsMembers | sudoku_solver.py:115-119 | The row/column targets are digit e at (x, i) with i != y, and at (i, y) with i != x. |
| Sudoku.BoxRowTargetsCount | sudoku_solver.py:125-127 | One box row gives nothing on row x, and otherwise its columns minus column y. |
| Sudoku.BoxRowTargetsMembers | sudoku_solver.py:125-127 | One box row targets digit e at its cells off row x and column y. |
| Sudoku.BoxTargetsCount | sudoku_solver.py:124-127 | The box loop over m rows gives 2 per row, except row x, which gives none. |
| Sudoku.BoxTargetsMembers | sudoku_solver.py:124-127 | The box targets are digit e at the box cells that share neither row x nor column y. |
| Sudoku.CellTargetsCount | sudoku_solver.py:128-130 | The same-cell loop over digits 1..n gives n targets, minus one when e is among them. |
| Sudoku.CellTargetsMembers | sudoku_solver.py:128-130 | The same-cell targets are digits 1..n other than e, at (x, y). |
| Sudoku.EntryTargetsCount | sudoku_solver.py:113-131 | 16 row/column, 4 box and 7 or 8 cell targets: 27 in all when e is 1..8, 28 otherwise. |
| Sudoku.EntryTargetsMembers | sudoku_solver.py:113-131 | A proposition is a target of get_formula_for_entry(x, y, e) exactly when e at (x, y) excludes it. |
| Sudoku.EntryTargetsAvoidAntecedent | sudoku_solver.py:116-130 | No implication negates its own antecedent spot_entry(e, x, y). |
| Sudoku.GivenPropsMembers | sudoku_solver.py:92-99 | The givens listed for a walk are exactly the (num, i, j) with board[i][j] == num on it. |
| Sudoku.GivenPropsCount | sudoku_solver.py:92-99 | One given is listed per non-None cell of the walk. |
| Sudoku.GivenPropsAppend | sudoku_solver.py:94-95 | Walking s and then t lists the givens of s, then those of t. |
| DimacsEncoder.SpotEntry | sudoku_solver_dimacs_output.py:37-38 | spot_entry(num, x, y) is a literal true exactly when proposition (num, x, y) is. |
| DimacsEncoder.Implies | sudoku_solver_dimacs_output.py:24-25 | The clause Or(Not(a), b) holds under an assignment exactly when a implies b. |
| DimacsEncoder.GetFormulaForEntry | sudoku_solver_dimacs_output.py:79-97 | Its three loops return, in order, one exclusion clause per target of the row/column, box and same-cell loops. |
| DimacsEncoder.GetFormulaForAllSpots | sudoku_solver_dimacs_output.py:67-77 | It returns the blocks of the 81 cells in row-major order: a given's entry clauses, or a blank's 9 entry lists. |
| DimacsEncoder.Initialize | sudoku_solver_dimacs_output.py:58-65 | It returns the singleton [spot_entry(num, i, j)] of each given, in row-major order. |
| DimacsEncoder.GetFormulaForFillAll | sudoku_solver_dimacs_output.py:48-56 | It returns one 9-literal list per cell, in row-major order. |
| DimacsEncoder.GetFormulaAllParts | sudoku_solver_dimacs_output.py:40-46 | It returns the spot clauses, then the given units, then the fill-all clauses. |
| DimacsEncoder.SpotClausesStep | sudoku_solver_dimacs_output.py:76 | Extending by cell (i, j)'s part continues the row-major block list. |
| DimacsEncoder.ExclusionsSnoc | sudoku_solver_dimacs_output.py:83 | Appending one implication for target q extends the clause list by that clause. |
| DimacsShape.ExclusionClauseIs | sudoku_solver_dimacs_output.py:24-25 | Implies(spot_entry(p), Not(spot_entry(q))) is the clause [not p, not q]. |
| DimacsShape.EntryClausesShape | sudoku_solver_dimacs_output.py:79-97 | 27 clauses when e is 1..8, else 28. Clause k is [not (e, x, y), not target k], and its two propositions differ. |
| DimacsShape.EntryClausesOrder | sudoku_solver_dimacs_output.py:81-96 | Clauses 0..15 are row/column ones, 16..19 box ones off row x and column y, and the rest other digits 1..8 of the cell. |
| DimacsShape.EntryClausesMembers | sudoku_solver_dimacs_output.py:79-97 | [not (e, x, y), not q] is emitted exactly for the q that e at (x, y) excludes. |
| DimacsShape.BlankClausesCount | sudoku_solver_dimacs_output.py:99-102 | get_formula_for_blank has 8 * 27 + 28 = 244 clauses. |
| DimacsEncoder.GetFormulaForBlank | sudoku_solver_dimacs_output.py:99-102 | A clause is in get_formula_for_blank exactly when it is in the entry list of some digit 1..9. |
| DimacsShape.BlankPrefixLength | sudoku_solver_dimacs_output.py:100-101 | The first n entry lists flattened have 27 * n clauses, plus 1 once digit 9 is included. |
| DimacsShape.CellBlockShape | sudoku_solver_dimacs_output.py:71-76 | Every clause a cell contributes is an exclusion clause. |
| DimacsShape.SpotClausesFacts | sudoku_solver_dimacs_output.py:67-77 | Over any cell walk, the spot list has 244 clauses per blank and 27 or 28 per given, all exclusion clauses. |
| DimacsShape.AllSpotsShape | sudoku_solver_dimacs_output.py:67-77 | The same, for the full row-major walk of the board. |
| DimacsShape.InitShape | sudoku_solver_dimacs_output.py:58-65 | One positive unit per given cell, each asserting that cell's number, and nothing else. |
| DimacsShape.FillAllShape | sudoku_solver_dimacs_output.py:48-56 | 81 lists; the list at 9 * i + j is cell (i, j), and its element k is digit k + 1. |
| DimacsShape.ProperAppend | sudoku_solver_dimacs_output.py:44-45 | Extending a list of proper clauses by proper clauses keeps it proper. |
| DimacsShape.FillAllProper | sudoku_solver_dimacs_output.py:48-56 | No fill-all clause is empty or a tautology. |
| DimacsShape.InitProper | sudoku_solver_dimacs_output.py:58-65 | No given unit is empty or a tautology. |
| DimacsShape.AllSpotsProper | sudoku_solver_dimacs_output.py:67-77 | No spot clause is empty or a tautology. |
| DimacsShape.ShapedProper | sudoku_solver_dimacs_output.py:24-25 | An exclusion clause is non-empty and no tautology. |
| DimacsShape.AllPartsShape | sudoku_solver_dimacs_output.py:40-46 | The total is the spot sizes + one per given + 81, and no clause is empty or a tautology. |
| Z3Encoder.SpotEntry | sudoku_solver.py:71-72 | spot_entry(num, x, y) is a Bool true exactly when proposition (num, x, y) is. |
| Z3Encoder.GetFormulaForEntry | sudoku_solver.py:113-131 | It returns And of one Implies per target of the row/column, box and same-cell loops, in order. |
| Z3Encoder.GetFormulaForAllSpots | sudoku_solver.py:101-111 | It returns And of the 81 cell parts in row-major order: entry formula for a given, blank formula otherwise. |
| Z3Encoder.Initialize | sudoku_solver.py:92-99 | It returns And of spot_entry(num, i, j) for each given, in row-major order. |
| Z3Encoder.GetFormulaForFillAll | sudoku_solver.py:82-90 | It returns And of one Or over digits 1..9 per cell, in row-major order. |
| Z3Encoder.GetFormulaForBlank | sudoku_solver.py:133-136 | The blank formula is true exactly when the entry formula of every digit 1..9 is true. |
| Z3Encoder.GetFormulaAllParts | sudoku_solver.py:75-79 | It returns And([spots, init, fill-all]). |
| Z3Encoder.SpotFormulas | sudoku_solver.py:101-111 | One part per cell of the walk; part k is cell k's formula. |
| Z3Encoder.SpotFormulasStep | sudoku_solver.py:110 | Appending cell (i, j)'s part continues the row-major part list. |
| Z3Encoder.ExclusionsSnoc | sudoku_solver.py:117 | Appending one implication for target q extends the list by that implication. |
| Z3Shape.EntryFormulaShape | sudoku_solver.py:113-131 | And of 27 implications when e is 1..8, else 28; each has antecedent spot_entry(e, x, y) and negates a different proposition. |
| Z3Shape.FillAllFormulaShape | sudoku_solver.py:82-90 | And of 81 disjunctions; the one at 9 * i + j is Or of digits 1..9 in order at (i, j). |
| Z3Shape.InitFormulaShape | sudoku_solver.py:92-99 | And with one Bool per given, for that cell's number; each given appears. |
| Correctness.ExclusionClauseHolds | sudoku_solver_dimacs_output.py:24-25 | [not p, not q] holds exactly when p and q are not both true. |
| Correctness.TargetsFalse | sudoku_solver.py:113-131 | All targets are false exactly when every proposition e at (x, y) excludes is false. |
| Correctness.DimacsEntryMeaning | sudoku_solver_dimacs_output.py:79-97 | The entry clauses hold exactly when e at (x, y) rules out all it excludes. |
| Correctness.DimacsBlankMeaning | sudoku_solver_dimacs_output.py:99-102 | The blank clauses hold exactly when that holds for every digit 1..9. |
| Correctness.DimacsBlankEntriesHold | sudoku_solver_dimacs_output.py:100 | If every digit's exclusions hold at the cell, all nine entry lists are satisfied. |
| Correctness.DimacsBlankEntriesMean | sudoku_solver_dimacs_output.py:100 | If all nine entry lists are satisfied, every digit's exclusions hold at the cell. |
| Correctness.DimacsCellMeaning | sudoku_solver_dimacs_output.py:71-75 | A cell's block holds exactly when its cell constraint does: the given digit's, or all digits' for a blank. |
| Correctness.DimacsSpotsPrefix | sudoku_solver_dimacs_output.py:69-76 | The spot clauses of a cell walk hold exactly when every cell of the walk meets its constraint. |
| Correctness.DimacsSpotsMeaning | sudoku_solver_dimacs_output.py:67-77 | The spot clauses hold exactly when every cell meets its constraint. |
| Correctness.DimacsInitMeaning | sudoku_solver_dimacs_output.py:58-65 | The given units hold exactly when every given digit is true. |
| Correctness.FillClauseMeaning | sudoku_solver_dimacs_output.py:52-55 | A cell's fill clause holds exactly when some digit 1..9 is true there. |
| Correctness.DimacsFillMeaning | sudoku_solver_dimacs_output.py:48-56 | The fill-all clauses hold exactly when every cell has a true digit. |
| Correctness.DimacsMeaning | sudoku_solver_dimacs_output.py:40-46 | The whole clause list holds exactly when all three constraint groups do. |
| Correctness.Z3EntryMeaning | sudoku_solver.py:113-131 | The entry formula is true exactly when e at (x, y) rules out all it excludes. |
| Correctness.Z3BlankMeaning | sudoku_solver.py:133-136 | The blank formula is true exactly when that holds for every digit 1..9. |
| Correctness.Z3CellMeaning | sudoku_solver.py:105-109 | A cell's part is true exactly when its cell constraint holds. |
| Correctness.Z3SpotsMeaning | sudoku_solver.py:101-111 | The spots formula is true exactly when every cell meets its constraint. |
| Correctness.Z3InitMeaning | sudoku_solver.py:92-99 | The init formula is true exactly when every given digit is true. |
| Correctness.Z3FillMeaning | sudoku_solver.py:82-90 | The fill-all formula is true exactly when every cell has a true digit. |
| Correctness.Z3Meaning | sudoku_solver.py:75-79 | The whole formula is true exactly when all three constraint groups hold. |
| Correctness.EncodingsAgree | sudoku_solver_dimacs_output.py:40-46 | The DIMACS clause list and the z3 formula are true under exactly the same assignments. |
| Solutions.SolutionEntryHolds | sudoku_solver.py:32-42 | In a valid completed grid, each digit placed rules out all it excludes. |
| Solutions.SolutionMeetsConstraints | sudoku_solver.py:32-42 | A valid completed grid agreeing with the givens meets all three constraint groups. |
| Solutions.DimacsSound | sudoku_solver_dimacs_output.py:40-46 | Such a grid, read as "(d, r, c) iff grid[r][c] == d", satisfies the DIMACS clause list. |
| Solutions.Z3Sound | sudoku_solver.py:75-79 | Such a grid satisfies get_formula_all_parts(board). |
| Solutions.FirstTrueFacts | sudoku_solver.py:48-60 | FirstTrue is the least true digit from d on at a cell, or 0 when there is none. |
| Solutions.ValueActive | sudoku_solver.py:113-131 | For a board whose givens are digits 1..9, under a model each cell's least true digit is in 1..9, equals its given, and excludes what it rules out. |
| Solutions.ValuesDistinct | sudoku_solver.py:113-131 | For a board whose givens are digits 1..9, under a model two cells sharing a row, column or box have different least true digits. |
| Solutions.NineDigitsHaveNine | sudoku_solver.py:128 | Nine distinct digits from 1..9 include 9 (pigeonhole). |
| Solutions.RowHasNine | sudoku_solver.py:128 | For a board whose givens are digits 1..9, under a model every row has a cell whose digit is 9. |
| Solutions.OnlyValue | sudoku_solver.py:128-130 | For a board whose givens are digits 1..9, under a model a true digit at a cell is its only true digit, 9 included. |
| Solutions.ModelGridDigits | sudoku_solver.py:48-60 | For a board whose givens are digits 1..9, the grid read off a model has digits 1..9 and keeps every given. |
| Solutions.ModelGridDistinct | sudoku_solver.py:113-131 | For a board whose givens are digits 1..9, the grid read off a model has distinct digits in every row, column and box. |
| Solutions.ConstraintsGiveSolution | sudoku_solver.py:32-42 | For a board whose givens are digits 1..9, a model of the constraints gives a solution agreeing with the givens, true exactly on the grid's propositions. |
| Solutions.DimacsComplete | sudoku_solver_dimacs_output.py:40-46 | The same for every model of the DIMACS clause list. |
| Solutions.Z3Complete | sudoku_solver.py:75-79 | The same for every model of the z3 formula. |
| Solutions.SatisfiableIffSolvable | sudoku_solver.py:32-42 | The formula has a model exactly when the board has a solution keeping its givens. |
| Solutions.ModelGrid | sudoku_solver.py:45-69 | The proof's grid of least true digits per cell, read off an assignment, is 9x9; DecoderFacts.DecodeModel ties it to the ans the decoder returns. |
| Decoder.Wrap | sudoku_solver.py:60 | numpy writes an accepted index -9..8 at a position 0..8: the index itself, or index + 9. |
| Decoder.Read | sudoku_solver.py:53-60 | A reading that writes, writes inside the 9x9 array. |
| Decoder.AnsAfter | sudoku_solver.py:48 | ans after a run of readings is a 9x9 grid. |
| Decoder.SudokuSolver | sudoku_solver.py:45-69 | Its result is Decode of the solver's answer. Unsat gives None. A name that fails to parse or index raises. Otherwise the count of true declarations decides between the grid and None. |
| Decoder.Decode | sudoku_solver.py:49-69 | None exactly when not sat. Raised exactly when sat and some true name fails to parse or index. A grid only when all names parse and exactly 81 are true, and that grid is ans. The count error only when all names parse, carrying counter, which is not 81. |
| DecoderFacts.LastAtMeaning | sudoku_solver.py:48-60 | A cell of ans stays 0 when nothing writes it; otherwise it holds the number of its last write. |
| DecoderFacts.TrueCountAppend | sudoku_solver.py:51-54 | The count over s + t is the count over s plus the count over t. |
| DecoderFacts.TrueCountPermutation | sudoku_solver.py:51-54 | counter does not depend on the order of m.decls(). |
| DecoderFacts.TrueCountConcat | sudoku_solver.py:51-54 | Lists with one true declaration each count one apiece. |
| DecoderFacts.TrueCountSingle | sudoku_solver.py:51-54 | A list with exactly one true declaration counts 1. |
| DecoderFacts.TrueCountNone | sudoku_solver.py:51-54 | A list with no true declaration counts 0. |
| DecoderFacts.ModelDeclsOnBoard | sudoku_solver.py:52 | Every declaration of the model is the Bool of a board proposition. |
| DecoderFacts.ModelDeclsHasAll | sudoku_solver.py:52 | Every board proposition's Bool is among the model's declarations. |
| DecoderFacts.ModelDeclsMembers | sudoku_solver.py:52 | The model lists exactly the Bools of the 729 board propositions. |
| DecoderFacts.CellTrueCount | sudoku_solver.py:53-54 | A cell with exactly one true digit contributes 1 to counter. |
| DecoderFacts.EncodedCellCount | sudoku_solver.py:53-54 | Under an assignment that encodes a solution, each cell contributes 1 to counter. |
| DecoderFacts.ModelDeclsCount | sudoku_solver.py:61 | For a board whose givens are digits 1..9, under a model of the formula counter is 81, so the count check passes. |
| DecoderFacts.ReadDeclOf | sudoku_solver.py:55-60 | A board proposition's declaration is skipped when false, and written into its own cell when true. |
| DecoderFacts.ModelReadings | sudoku_solver.py:53-60 | For an assignment that encodes a solution grid, reading its 729 declarations in any order never raises, and each write puts the grid's own digit. |
| DecoderFacts.ModelCell | sudoku_solver.py:60 | For an assignment that encodes a solution grid, after the loop each cell of ans holds that grid's digit. |
| DecoderFacts.ModelAnswer | sudoku_solver.py:48-60 | For an assignment that encodes a solution grid, after the loop ans is that grid. |
| DecoderFacts.DecodeModel | sudoku_solver.py:45-66 | For a model's declarations in any order, sudoku_solver returns that model's grid: a solution keeping the givens. |

## Left out

- The z3 `Solver`, `s.add`, `s.check()` and `s.model()` are foreign code. `SudokuSolver` takes them as a `check` parameter that maps the formula to `Sat(declarations)`, `Unsat` or `Unknown`. The SAT search itself is not modelled.
- The `dimacsWrapper` module is not part of this model. This covers `Solver("lingeling")`, `print_formula`, its `Bool`/`Or`/`Not`/`And` types, the variable numbering and the DIMACS text. Its `Bool(name)` and `Not(Bool(name))` are the literals `Pos(p)` and `Neg(p)`. The final `And(...)` is the clause list itself.
- The `print` calls, `main()`, the module-level `sudoku_solver(board_layout)` call and the sample boards are I/O and glue.
- Decoder.SudokuSolver: `ans` is a numpy float array; the model uses an `int` array, so float rounding of very large numbers is not modelled, nor the OverflowError that `ans[x, y] = num` raises for a number beyond float range (the model writes such a number without raising). numpy's indexing is modelled: an index in -9..8 is accepted, and a negative one counts from the end.
- Decoder.SudokuSolver: IndexError (fewer than three parts, or an index outside -9..8) and ValueError (a part `int()` rejects) are one outcome, `Raised`. The model does not say which of them Python raises.
- Names.ParseInt: Python's `int()` also accepts surrounding whitespace. The model accepts only an optional sign and decimal digits. Names built by `spot_entry` never contain whitespace.
- The rebinding of `s` from the solver to the name string in `sudoku_solver` is not modelled; the solver is not used after that point.
- DecoderFacts.DecodeModel: assumes z3 lists each of the 729 Bools exactly once, in any order. It also assumes all givens are digits 1..9.
- Z3Encoder.Initialize: for a board with no givens it returns `And([])`, which `Eval` reads as true. Some z3py versions raise an exception on an `And` with no arguments; the model takes it as true. The z3 library is not part of this model.
- Solutions.SatisfiableIffSolvable: assumes every given is a digit 1..9 (`GivensAreDigits`). The source accepts any value. Soundness (`DimacsSound`, `Z3Sound`) needs no such assumption.
- Solutions.DimacsComplete: the same assumption about givens.
- Solutions.Z3Complete: the same assumption about givens.
