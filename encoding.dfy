/**
 * The Sudoku board -> CSP encoder: 81 variables named "row-col" in row-major
 * order, then 27 all-different groups (9 rows, 9 columns, 9 boxes).
 */
module Encoding {
  import opened Wrappers
  import opened Board
  import Engine

  /** `list(map(str, range(1, 10)))`: the domain of an empty ('0') cell. */
  function AllDigits(): seq<string> {
    seq(9, i requires 0 <= i < 9 => [DigitChar(i + 1)])
  }

  /** The initial domain of a cell holding character `ch`. */
  function CellDomain(ch: char): seq<string> {
    if ch == '0' then AllDigits() else [[ch]]
  }

  /** The names of the 81 variables in the order they are declared. */
  function VariableOrder(): seq<string> {
    seq(81, k requires 0 <= k < 81 => CellName(k / 9, k % 9))
  }

  /** `['%d-%d' % (row, col) for col in range(9)]` */
  function RowGroup(row: nat): seq<string>
    requires row < 9
  {
    seq(9, col requires 0 <= col < 9 => CellName(row, col))
  }

  /** `['%d-%d' % (row, col) for row in range(9)]` */
  function ColumnGroup(col: nat): seq<string>
    requires col < 9
  {
    seq(9, row requires 0 <= row < 9 => CellName(row, col))
  }

  /** The cells of box (boxRow, boxCol), row-major within the box. */
  function BoxGroup(boxRow: nat, boxCol: nat): seq<string>
    requires boxRow < 3 && boxCol < 3
  {
    seq(9, k requires 0 <= k < 9 => CellName(3 * boxRow + k / 3, 3 * boxCol + k % 3))
  }

  /** Group number g in declaration order: rows 0-8, columns 9-17, boxes 18-26. */
  function GroupAt(g: nat): seq<string>
    requires g < 27
  {
    if g < 9 then RowGroup(g)
    else if g < 18 then ColumnGroup(g - 9)
    else BoxGroup((g - 18) / 3, (g - 18) % 3)
  }

  /** All 27 all-different groups in declaration order. */
  function SudokuGroups(): seq<seq<string>> {
    seq(27, g requires 0 <= g < 27 => GroupAt(g))
  }

  /** Exactly 81 variables, cell (row, col) at position 9 * row + col. */
  lemma VariableOrderRowMajor(row: nat, col: nat)
    requires row < 9 && col < 9
    ensures |VariableOrder()| == 81
    ensures VariableOrder()[9 * row + col] == CellName(row, col)
  {
    RowMajorIndex(row, col);
  }

  /** The 81 declared names are pairwise distinct. */
  lemma VariableOrderDistinct(i: nat, j: nat)
    requires i < j < 81
    ensures VariableOrder()[i] != VariableOrder()[j]
  {
    assert ParseCellName(VariableOrder()[i]) == Some((i / 9, i % 9));
    assert ParseCellName(VariableOrder()[j]) == Some((j / 9, j % 9));
  }

  /** The declared names are exactly the names "r-c" with 0 <= r, c < 9. */
  lemma VariableOrderNames(name: string)
    ensures name in VariableOrder() <==> ParseCellName(name).Some?
  {
    if ParseCellName(name).Some? {
      ParsedNameIsCellName(name);
      var (row, col) := ParseCellName(name).value;
      VariableOrderRowMajor(row, col);
    }
  }

  /** An empty cell gets "1", ..., "9" in ascending order; any other character c gets exactly [c]. */
  lemma CellDomainValues(ch: char)
    ensures ch == '0' ==> CellDomain(ch) == ["1", "2", "3", "4", "5", "6", "7", "8", "9"]
    ensures ch != '0' ==> CellDomain(ch) == [[ch]]
  {
    if ch == '0' {
      assert forall i :: 0 <= i < 9 ==> AllDigits()[i] == [('1' as int + i) as char];
    }
  }

  /** Entry 3 * i + j of box (boxRow, boxCol) is the cell in row 3 * boxRow + i and column 3 * boxCol + j. */
  lemma BoxCell(boxRow: nat, boxCol: nat, i: nat, j: nat)
    requires boxRow < 3 && boxCol < 3 && i < 3 && j < 3
    ensures 3 * i + j < 9 && (3 * boxRow + i) / 3 == boxRow && (3 * boxCol + j) / 3 == boxCol
    ensures BoxGroup(boxRow, boxCol)[3 * i + j] == CellName(3 * boxRow + i, 3 * boxCol + j)
  {
    var k := 3 * i + j;
    assert k / 3 == i && k % 3 == j;
  }

  /** No cell occurs twice in a box. */
  lemma BoxDistinct(boxRow: nat, boxCol: nat, i: nat, j: nat)
    requires boxRow < 3 && boxCol < 3 && i < j < 9
    ensures BoxGroup(boxRow, boxCol)[i] != BoxGroup(boxRow, boxCol)[j]
  {
    BoxCell(boxRow, boxCol, i / 3, i % 3);
    BoxCell(boxRow, boxCol, j / 3, j % 3);
    var (ri, ci) := (3 * boxRow + i / 3, 3 * boxCol + i % 3);
    var (rj, cj) := (3 * boxRow + j / 3, 3 * boxCol + j % 3);
    assert i == 3 * (i / 3) + i % 3 && j == 3 * (j / 3) + j % 3;
    assert (ri, ci) != (rj, cj);
    assert ParseCellName(CellName(ri, ci)) != ParseCellName(CellName(rj, cj));
  }

  /** 27 groups of 9 names each; within a group no name occurs twice. */
  lemma GroupsDistinct(g: nat, i: nat, j: nat)
    requires g < 27 && i < j < 9
    ensures |SudokuGroups()| == 27 && |SudokuGroups()[g]| == 9
    ensures SudokuGroups()[g][i] != SudokuGroups()[g][j]
  {
    var group := SudokuGroups()[g];
    assert group == GroupAt(g);
    if g >= 18 {
      BoxDistinct((g - 18) / 3, (g - 18) % 3, i, j);
    } else {
      assert ParseCellName(group[i]) != ParseCellName(group[j]);
    }
  }

  /** Box (boxRow, boxCol) holds exactly the cells in rows 3*boxRow..3*boxRow+2 and columns 3*boxCol..3*boxCol+2. */
  lemma BoxGroupCells(boxRow: nat, boxCol: nat, row: nat, col: nat)
    requires boxRow < 3 && boxCol < 3 && row < 9 && col < 9
    ensures CellName(row, col) in BoxGroup(boxRow, boxCol) <==> row / 3 == boxRow && col / 3 == boxCol
  {
    var box := BoxGroup(boxRow, boxCol);
    if row / 3 == boxRow && col / 3 == boxCol {
      BoxCell(boxRow, boxCol, row % 3, col % 3);
    }
    if CellName(row, col) in box {
      var k :| 0 <= k < 9 && box[k] == CellName(row, col);
      BoxCell(boxRow, boxCol, k / 3, k % 3);
      assert ParseCellName(box[k]) == Some((3 * boxRow + k / 3, 3 * boxCol + k % 3));
    }
  }

  /**
   * Cell (row, col) lies in exactly three groups: row group `row`, column
   * group `9 + col` and box group `18 + 3 * (row / 3) + col / 3`.
   */
  lemma CellMembership(row: nat, col: nat, g: nat)
    requires row < 9 && col < 9 && g < 27
    ensures CellName(row, col) in SudokuGroups()[g] <==>
              g == row || g == 9 + col || g == 18 + 3 * (row / 3) + col / 3
  {
    var name := CellName(row, col);
    var group := SudokuGroups()[g];
    assert group == GroupAt(g);
    if g < 9 {
      if name in group {
        var k :| 0 <= k < 9 && group[k] == name;
        assert ParseCellName(group[k]) == Some((g, k));
      }
      if g == row {
        assert group[col] == name;
      }
    } else if g < 18 {
      if name in group {
        var k :| 0 <= k < 9 && group[k] == name;
        assert ParseCellName(group[k]) == Some((k, (g - 9) as nat));
      }
      if g == 9 + col {
        assert group[row] == name;
      }
    } else {
      BoxGroupCells((g - 18) / 3, (g - 18) % 3, row, col);
    }
  }

  /** The tables after the first n cells, in row-major order, have been declared. */
  predicate DeclaredUpTo(vars: seq<string>, doms: map<string, seq<string>>, board: seq<string>, n: nat)
    requires WellShaped(board) && n <= 81
  {
    && vars == VariableOrder()[..n]
    && doms.Keys == (set name | name in vars)
    && forall k :: 0 <= k < n ==>
         VariableOrder()[k] in doms && doms[VariableOrder()[k]] == CellDomain(board[k / 9][k % 9])
  }

  /** Declaring cell n keeps the domains of the earlier cells and adds its own. */
  lemma DeclareStepDomains(doms: map<string, seq<string>>, board: seq<string>, n: nat)
    requires WellShaped(board) && n < 81
    requires forall k :: 0 <= k < n ==>
               VariableOrder()[k] in doms && doms[VariableOrder()[k]] == CellDomain(board[k / 9][k % 9])
    ensures var doms' := doms[VariableOrder()[n] := CellDomain(board[n / 9][n % 9])];
            forall k :: 0 <= k < n + 1 ==>
              VariableOrder()[k] in doms' && doms'[VariableOrder()[k]] == CellDomain(board[k / 9][k % 9])
  {
    forall k | 0 <= k < n
      ensures VariableOrder()[k] != VariableOrder()[n]
    {
      VariableOrderDistinct(k, n);
    }
  }

  /** Declaring cell n keeps the earlier declarations and adds its own. */
  lemma DeclareStep(vars: seq<string>, doms: map<string, seq<string>>, board: seq<string>, n: nat)
    requires WellShaped(board) && n < 81
    requires DeclaredUpTo(vars, doms, board, n)
    ensures DeclaredUpTo(vars + [VariableOrder()[n]],
                         doms[VariableOrder()[n] := CellDomain(board[n / 9][n % 9])], board, n + 1)
  {
    var name := VariableOrder()[n];
    assert VariableOrder()[..n + 1] == VariableOrder()[..n] + [name];
    DeclareStepDomains(doms, board, n);
  }

  /** Once all 81 cells are declared, every cell (row, col) has its domain. */
  lemma DeclaredAll(vars: seq<string>, doms: map<string, seq<string>>, board: seq<string>)
    requires WellShaped(board)
    requires DeclaredUpTo(vars, doms, board, 81)
    ensures vars == VariableOrder()
    ensures doms.Keys == set name | name in VariableOrder()
    ensures forall row, col :: 0 <= row < 9 && 0 <= col < 9 ==>
              CellName(row, col) in doms && doms[CellName(row, col)] == CellDomain(board[row][col])
  {
    assert VariableOrder()[..81] == VariableOrder();
    forall row, col | 0 <= row < 9 && 0 <= col < 9
      ensures CellName(row, col) in doms && doms[CellName(row, col)] == CellDomain(board[row][col])
    {
      VariableOrderRowMajor(row, col);
      RowMajorIndex(row, col);
    }
  }

  /** The first nested loop of `Sudoku.__init__`: one variable per cell, row-major. */
  method DeclareVariables(c: Engine.Csp, board: seq<string>)
    requires WellShaped(board)
    requires c.variables == [] && c.domains == map[] && c.groups == [] && c.arcs == []
    modifies c
    ensures c.variables == VariableOrder()
    ensures c.domains.Keys == set name | name in VariableOrder()
    ensures forall row, col :: 0 <= row < 9 && 0 <= col < 9 ==>
              CellName(row, col) in c.domains && c.domains[CellName(row, col)] == CellDomain(board[row][col])
    ensures c.groups == [] && c.arcs == []
  {
    for row := 0 to 9
      invariant DeclaredUpTo(c.variables, c.domains, board, 9 * row)
      invariant c.groups == [] && c.arcs == []
    {
      for col := 0 to 9
        invariant DeclaredUpTo(c.variables, c.domains, board, 9 * row + col)
        invariant c.groups == [] && c.arcs == []
      {
        VariableOrderRowMajor(row, col);
        RowMajorIndex(row, col);
        DeclareStep(c.variables, c.domains, board, 9 * row + col);
        if board[row][col] == '0' {
          c.AddVariable(CellName(row, col), AllDigits());
        } else {
          c.AddVariable(CellName(row, col), [[board[row][col]]]);
        }
      }
    }
    DeclaredAll(c.variables, c.domains, board);
  }

  /** The cells of one box as the innermost loops of `Sudoku.__init__` append them. */
  method CollectBox(boxRow: nat, boxCol: nat) returns (cells: seq<string>)
    requires boxRow < 3 && boxCol < 3
    ensures cells == BoxGroup(boxRow, boxCol)
  {
    cells := [];
    for row := boxRow * 3 to (boxRow + 1) * 3
      invariant cells == BoxGroup(boxRow, boxCol)[..3 * (row - 3 * boxRow)]
    {
      for col := boxCol * 3 to (boxCol + 1) * 3
        invariant cells == BoxGroup(boxRow, boxCol)[..3 * (row - 3 * boxRow) + (col - 3 * boxCol)]
      {
        var k := 3 * (row - 3 * boxRow) + (col - 3 * boxCol);
        BoxCell(boxRow, boxCol, row - 3 * boxRow, col - 3 * boxCol);
        cells := cells + [CellName(row, col)];
        assert BoxGroup(boxRow, boxCol)[..k + 1] == BoxGroup(boxRow, boxCol)[..k] + [CellName(row, col)];
      }
    }
    assert BoxGroup(boxRow, boxCol)[..9] == BoxGroup(boxRow, boxCol);
  }

  /** Declaring group g extends the declared prefix by that group. */
  lemma GroupsPrefixStep(g: nat)
    requires g < 27
    ensures SudokuGroups()[..g + 1] == SudokuGroups()[..g] + [GroupAt(g)]
  {
  }

  /** Group 18 + 3 * boxRow + boxCol is box (boxRow, boxCol). */
  lemma BoxGroupAt(boxRow: nat, boxCol: nat)
    requires boxRow < 3 && boxCol < 3
    ensures GroupAt(18 + 3 * boxRow + boxCol) == BoxGroup(boxRow, boxCol)
  {
    var g := 18 + 3 * boxRow + boxCol;
    assert (g - 18) / 3 == boxRow && (g - 18) % 3 == boxCol;
  }

  /** The box loops of `Sudoku.__init__`, after the row and column groups. */
  method DeclareBoxGroups(c: Engine.Csp)
    requires c.groups == SudokuGroups()[..18]
    modifies c
    ensures c.groups == SudokuGroups()
    ensures c.variables == old(c.variables) && c.domains == old(c.domains) && c.arcs == old(c.arcs)
  {
    for boxRow := 0 to 3
      invariant c.groups == SudokuGroups()[..18 + 3 * boxRow]
      invariant c.variables == old(c.variables) && c.domains == old(c.domains) && c.arcs == old(c.arcs)
    {
      for boxCol := 0 to 3
        invariant c.groups == SudokuGroups()[..18 + 3 * boxRow + boxCol]
        invariant c.variables == old(c.variables) && c.domains == old(c.domains) && c.arcs == old(c.arcs)
      {
        var cells := CollectBox(boxRow, boxCol);
        BoxGroupAt(boxRow, boxCol);
        GroupsPrefixStep(18 + 3 * boxRow + boxCol);
        c.AddAllDifferentConstraint(cells);
      }
    }
    assert SudokuGroups()[..27] == SudokuGroups();
  }

  /** The group loops of `Sudoku.__init__`: rows, then columns, then boxes. */
  method DeclareGroups(c: Engine.Csp)
    requires c.groups == []
    modifies c
    ensures c.groups == SudokuGroups()
    ensures c.variables == old(c.variables) && c.domains == old(c.domains) && c.arcs == old(c.arcs)
  {
    for row := 0 to 9
      invariant c.groups == SudokuGroups()[..row]
      invariant c.variables == old(c.variables) && c.domains == old(c.domains) && c.arcs == old(c.arcs)
    {
      GroupsPrefixStep(row);
      c.AddAllDifferentConstraint(RowGroup(row));
    }
    for col := 0 to 9
      invariant c.groups == SudokuGroups()[..9 + col]
      invariant c.variables == old(c.variables) && c.domains == old(c.domains) && c.arcs == old(c.arcs)
    {
      GroupsPrefixStep(9 + col);
      c.AddAllDifferentConstraint(ColumnGroup(col));
    }
    DeclareBoxGroups(c);
  }

  /**
   * `Sudoku(filename)`: the puzzle as a CSP. `lines` are the lines of the file
   * named `filename`; only the first 9 characters of the first 9 stripped lines
   * are read, and nothing is validated beyond their being present.
   */
  class Sudoku {
    const filename: string
    const csp: Engine.Csp

    constructor (filename: string, lines: seq<string>)
      requires WellShaped(StripLines(lines))
      ensures this.filename == filename && fresh(csp)
      ensures csp.variables == VariableOrder()
      ensures csp.domains.Keys == set name | name in VariableOrder()
      ensures forall row, col :: 0 <= row < 9 && 0 <= col < 9 ==>
                CellName(row, col) in csp.domains &&
                csp.domains[CellName(row, col)] == CellDomain(StripLines(lines)[row][col])
      ensures csp.groups == SudokuGroups()
      ensures csp.arcs == []
    {
      var board := StripLines(lines);
      var c := new Engine.Csp();
      DeclareVariables(c, board);
      DeclareGroups(c);
      this.filename := filename;
      this.csp := c;
    }
  }
}
