/**
 * `print_solution`: the solved grid as console text. Each cell's value is
 * followed by a space, "| " follows columns 2 and 5, and the line
 * "------+-------+------" follows rows 2 and 5. The output is modelled as
 * the list of printed lines, without their newlines.
 */
module Console {
  import opened Wrappers
  import opened Board
  import opened Solutions

  const Separator: string := "------+-------+------"

  /** `solution['row-col'][0]`; "" for a cell that cannot be read (rendering reports that cell's fault instead). */
  function CellText(m: Solution, row: nat, col: nat): string
    requires row < 9 && col < 9
  {
    var name := CellName(row, col);
    if name in m && m[name] != [] then m[name][0] else ""
  }

  /** The values the renderer prints for one row. */
  function RowCells(m: Solution, row: nat): (cells: seq<string>)
    requires row < 9
    ensures |cells| == 9
  {
    seq(9, col requires 0 <= col < 9 => CellText(m, row, col))
  }

  /** The values the renderer prints, row by row. */
  function Grid(m: Solution): (g: seq<seq<string>>)
    ensures IsGrid(g)
  {
    seq(9, row requires 0 <= row < 9 => RowCells(m, row))
  }

  predicate IsGrid(g: seq<seq<string>>) {
    |g| == 9 && forall row :: 0 <= row < 9 ==> |g[row]| == 9
  }

  /**
   * The text printed for the first `n` values of a row: each value followed by
   * a space, and "| " after the third and sixth values.
   */
  function LinePrefix(cells: seq<string>, n: nat): string
    requires n <= |cells|
  {
    if n == 0 then ""
    else if n - 1 == 2 || n - 1 == 5 then LinePrefix(cells, n - 1) + cells[n - 1] + " " + "| "
    else LinePrefix(cells, n - 1) + cells[n - 1] + " "
  }

  /** The printed line of one grid row. */
  function DigitLine(cells: seq<string>): string
    requires |cells| == 9
  {
    LinePrefix(cells, 9)
  }

  /** The whole rendering: three bands of three rows, separated by two separator lines. */
  function Layout(g: seq<seq<string>>): seq<string>
    requires IsGrid(g)
  {
    [DigitLine(g[0]), DigitLine(g[1]), DigitLine(g[2]), Separator,
     DigitLine(g[3]), DigitLine(g[4]), DigitLine(g[5]), Separator,
     DigitLine(g[6]), DigitLine(g[7]), DigitLine(g[8])]
  }

  /**
   * What `print_solution` produces: AssertionError on an absent or empty
   * solution, the KeyError or IndexError of the first unreadable cell in
   * row-major order, or the printed lines.
   */
  function Render(sol: Option<Solution>): (r: Result<seq<string>, SolutionError>)
    ensures r.Success? ==> |r.value| == 11
    ensures r.Failure? ==> !r.error.NotSubscriptable? && !r.error.NotAnInteger?
  {
    if !Truthy(sol) then Failure(AssertionFailed)
    else
      var e := FirstError(sol.value, false);
      if e.Some? then Failure(e.value) else Success(Layout(Grid(sol.value)))
  }

  /** The lines printed for the first `n` rows as the outer loop prints them. */
  function RowLines(g: seq<seq<string>>, n: nat): seq<string>
    requires IsGrid(g) && n <= 9
  {
    if n == 0 then []
    else if n - 1 == 2 || n - 1 == 5 then RowLines(g, n - 1) + [DigitLine(g[n - 1]), Separator]
    else RowLines(g, n - 1) + [DigitLine(g[n - 1])]
  }

  lemma RowLinesComplete(g: seq<seq<string>>)
    requires IsGrid(g)
    ensures RowLines(g, 9) == Layout(g)
  {
    var d := seq(9, row requires 0 <= row < 9 => DigitLine(g[row]));
    assert RowLines(g, 1) == [d[0]];
    assert RowLines(g, 2) == [d[0], d[1]];
    assert RowLines(g, 3) == [d[0], d[1], d[2], Separator];
    assert RowLines(g, 4) == [d[0], d[1], d[2], Separator, d[3]];
    assert RowLines(g, 5) == [d[0], d[1], d[2], Separator, d[3], d[4]];
    assert RowLines(g, 6) == [d[0], d[1], d[2], Separator, d[3], d[4], d[5], Separator];
    assert RowLines(g, 7) == [d[0], d[1], d[2], Separator, d[3], d[4], d[5], Separator, d[6]];
    assert RowLines(g, 8) == [d[0], d[1], d[2], Separator, d[3], d[4], d[5], Separator, d[6], d[7]];
  }

  /**
   * The inner loop of `print_solution` for one row: the row's line, or the
   * fault of the first unreadable cell in it.
   */
  method PrintRow(m: Solution, row: nat) returns (r: Result<string, SolutionError>)
    requires row < 9
    ensures var c := RowFault(m, false, row, 0);
            if c < 9 then r == Failure(CellFault(m, row, c, false).value)
            else r == Success(DigitLine(RowCells(m, row)))
  {
    var cells := RowCells(m, row);
    var line := "";
    for col := 0 to 9
      invariant RowFault(m, false, row, 0) == RowFault(m, false, row, col)
      invariant line == LinePrefix(cells, col)
    {
      var name := CellName(row, col);
      if name !in m {
        RowFaultStops(m, false, row, col);
        return Failure(MissingCell(row, col));
      }
      if m[name] == [] {
        RowFaultStops(m, false, row, col);
        return Failure(EmptyDomain(row, col));
      }
      RowFaultPasses(m, false, row, col);
      assert cells[col] == m[name][0];
      line := line + m[name][0] + " ";
      if col == 2 || col == 5 {
        line := line + "| ";
      }
    }
    return Success(line);
  }

  /** `print_solution`, loop for loop. */
  method PrintSolution(sol: Option<Solution>) returns (r: Result<seq<string>, SolutionError>)
    ensures r == Render(sol)
  {
    if !Truthy(sol) {
      return Failure(AssertionFailed);
    }
    var m := sol.value;
    var g := Grid(m);
    var out: seq<string> := [];
    for row := 0 to 9
      invariant FaultRow(m, false, 0) == FaultRow(m, false, row)
      invariant out == RowLines(g, row)
    {
      var line := PrintRow(m, row);
      if line.Failure? {
        FaultRowHere(m, false, row);
        return Failure(line.error);
      }
      FaultRowSkip(m, false, row);
      assert g[row] == RowCells(m, row);
      if row == 2 || row == 5 {
        out := out + [line.value, Separator];
      } else {
        out := out + [line.value];
      }
    }
    RowLinesComplete(g);
    return Success(out);
  }

  /** The assertion fires exactly when the solution is absent or empty. */
  lemma RenderAssertion(sol: Option<Solution>)
    ensures Render(sol) == Failure(AssertionFailed) <==> !Truthy(sol)
  {
    if Truthy(sol) && FirstError(sol.value, false).Some? {
      assert FirstError(sol.value, false).value != AssertionFailed;
    }
  }

  /** Rendering succeeds exactly when the solution is present, non-empty and every cell can be read. */
  lemma RenderSucceeds(sol: Option<Solution>)
    ensures Render(sol).Success? <==> Truthy(sol) && AllReadable(sol.value, false)
  {
    if Truthy(sol) {
      FirstErrorNone(sol.value, false);
    }
  }

  /**
   * On a present, non-empty solution a failure is the KeyError or IndexError
   * of one cell, and every cell before it in row-major order was readable.
   */
  lemma RenderFault(sol: Option<Solution>)
    requires Truthy(sol) && Render(sol).Failure?
    ensures Render(sol).error.MissingCell? || Render(sol).error.EmptyDomain?
    ensures Render(sol).error.row < 9 && Render(sol).error.col < 9
    ensures CellFault(sol.value, Render(sol).error.row, Render(sol).error.col, false) == Some(Render(sol).error)
    ensures forall r, c :: 0 <= r < 9 && 0 <= c < 9 && 9 * r + c < 9 * Render(sol).error.row + Render(sol).error.col ==>
              CellFault(sol.value, r, c, false).None?
  {
    FirstErrorBefore(sol.value, false);
  }

  /**
   * With one-character values, a row's line is exactly 22 characters: each
   * value followed by a space, and "| " after the third and sixth values.
   */
  lemma DigitLineChars(cells: seq<string>)
    requires |cells| == 9 && forall col :: 0 <= col < 9 ==> |cells[col]| == 1
    ensures DigitLine(cells) ==
      [cells[0][0], ' ', cells[1][0], ' ', cells[2][0], ' ', '|', ' ',
       cells[3][0], ' ', cells[4][0], ' ', cells[5][0], ' ', '|', ' ',
       cells[6][0], ' ', cells[7][0], ' ', cells[8][0], ' ']
  {
    var c := seq(9, i requires 0 <= i < 9 => cells[i][0]);
    forall col | 0 <= col < 9
      ensures cells[col] == [c[col]]
    {
    }
    assert LinePrefix(cells, 1) == [c[0], ' '];
    assert LinePrefix(cells, 2) == [c[0], ' ', c[1], ' '];
    assert LinePrefix(cells, 3) == [c[0], ' ', c[1], ' ', c[2], ' ', '|', ' '];
    assert LinePrefix(cells, 4) == [c[0], ' ', c[1], ' ', c[2], ' ', '|', ' ', c[3], ' '];
    assert LinePrefix(cells, 5) == [c[0], ' ', c[1], ' ', c[2], ' ', '|', ' ', c[3], ' ', c[4], ' '];
    assert LinePrefix(cells, 6) == [c[0], ' ', c[1], ' ', c[2], ' ', '|', ' ', c[3], ' ', c[4], ' ',
                                    c[5], ' ', '|', ' '];
    assert LinePrefix(cells, 7) == [c[0], ' ', c[1], ' ', c[2], ' ', '|', ' ', c[3], ' ', c[4], ' ',
                                    c[5], ' ', '|', ' ', c[6], ' '];
    assert LinePrefix(cells, 8) == [c[0], ' ', c[1], ' ', c[2], ' ', '|', ' ', c[3], ' ', c[4], ' ',
                                    c[5], ' ', '|', ' ', c[6], ' ', c[7], ' '];
  }

  /** Column `col` of a rendered row is printed at character 2 * col + 2 * (col / 3). */
  lemma DigitLineAt(cells: seq<string>, col: nat)
    requires |cells| == 9 && forall c :: 0 <= c < 9 ==> |cells[c]| == 1
    requires col < 9
    ensures |DigitLine(cells)| == 22 && DigitLine(cells)[2 * col + 2 * (col / 3)] == cells[col][0]
  {
    DigitLineChars(cells);
    if col < 3 {
    } else if col < 6 {
    } else {
    }
  }

  /** Every cell's value is a single character (as the encoder's domains are). */
  predicate SingleChars(m: Solution) {
    forall row, col :: 0 <= row < 9 && 0 <= col < 9 ==> |Grid(m)[row][col]| == 1
  }

  /** Reads a 9x9 grid of characters back from printed console lines. */
  function ReadGrid(lines: seq<string>): Option<seq<seq<char>>> {
    if |lines| == 11 && forall i :: 0 <= i < 11 ==> |lines[i]| >= 21 then
      Some(seq(9, row requires 0 <= row < 9 =>
             seq(9, col requires 0 <= col < 9 => lines[row + row / 3][2 * col + 2 * (col / 3)])))
    else None
  }

  /** Grid row `row` is printed on line row + row / 3 (lines 3 and 7 are separators). */
  lemma LayoutLine(g: seq<seq<string>>, row: nat)
    requires IsGrid(g) && row < 9
    ensures |Layout(g)| == 11 && Layout(g)[row + row / 3] == DigitLine(g[row])
  {
    if row < 3 {
    } else if row < 6 {
    } else {
    }
  }

  /** Reading a layout of one-character values back gives those values. */
  lemma LayoutReadBack(g: seq<seq<string>>)
    requires IsGrid(g)
    requires forall row, col :: 0 <= row < 9 && 0 <= col < 9 ==> |g[row][col]| == 1
    ensures ReadGrid(Layout(g)).Some?
    ensures forall row, col :: 0 <= row < 9 && 0 <= col < 9 ==>
              ReadGrid(Layout(g)).value[row][col] == g[row][col][0]
  {
    var lines := Layout(g);
    forall i | 0 <= i < 11
      ensures |lines[i]| >= 21
    {
      if i != 3 && i != 7 {
        var row := if i < 3 then i else if i < 7 then i - 1 else i - 2;
        assert row + row / 3 == i;
        LayoutLine(g, row);
        DigitLineAt(g[row], 0);
      }
    }
    forall row, col | 0 <= row < 9 && 0 <= col < 9
      ensures ReadGrid(lines).value[row][col] == g[row][col][0]
    {
      LayoutLine(g, row);
      DigitLineAt(g[row], col);
    }
  }

  lemma RenderIsLayout(sol: Option<Solution>, lines: seq<string>)
    requires Render(sol) == Success(lines)
    ensures lines == Layout(Grid(sol.value))
  {
  }

  /** The layout has 11 lines, with the separators on lines 3 and 7. */
  lemma LayoutSeparators(g: seq<seq<string>>)
    requires IsGrid(g)
    ensures |Layout(g)| == 11 && Layout(g)[3] == Separator && Layout(g)[7] == Separator
  {
  }

  /**
   * The printed text determines the solution: reading the rendered lines back
   * gives every cell's value `solution['row-col'][0]`, and the separators sit
   * on lines 3 and 7.
   */
  lemma RenderReadBack(sol: Option<Solution>, lines: seq<string>)
    requires Render(sol) == Success(lines) && SingleChars(sol.value)
    ensures |lines| == 11 && lines[3] == Separator && lines[7] == Separator
    ensures ReadGrid(lines).Some?
    ensures forall row, col :: 0 <= row < 9 && 0 <= col < 9 ==>
              CellName(row, col) in sol.value && sol.value[CellName(row, col)] != [] &&
              sol.value[CellName(row, col)][0] == [ReadGrid(lines).value[row][col]]
  {
    RenderIsLayout(sol, lines);
    LayoutSeparators(Grid(sol.value));
    RenderSucceeds(sol);
    ReadableReadBack(sol.value, lines);
  }

  /** Reading back the layout of a readable solution with one-character values gives those values. */
  lemma ReadableReadBack(m: Solution, lines: seq<string>)
    requires AllReadable(m, false) && SingleChars(m) && lines == Layout(Grid(m))
    ensures ReadGrid(lines).Some?
    ensures forall row, col :: 0 <= row < 9 && 0 <= col < 9 ==>
              CellName(row, col) in m && m[CellName(row, col)] != [] &&
              m[CellName(row, col)][0] == [ReadGrid(lines).value[row][col]]
  {
    var g := Grid(m);
    LayoutReadBack(g);
    GridOfReadable(m);
    var read := ReadGrid(lines).value;
    forall row, col | 0 <= row < 9 && 0 <= col < 9
      ensures m[CellName(row, col)][0] == [read[row][col]]
    {
      var v := g[row][col];
      assert read[row][col] == v[0] && |v| == 1;
      assert v == [v[0]];
    }
  }

  /** When every cell can be read, the grid holds each cell's value `solution['row-col'][0]`. */
  lemma GridOfReadable(m: Solution)
    requires AllReadable(m, false)
    ensures forall row, col :: 0 <= row < 9 && 0 <= col < 9 ==>
              CellName(row, col) in m && m[CellName(row, col)] != [] && Grid(m)[row][col] == m[CellName(row, col)][0]
  {
    forall row, col | 0 <= row < 9 && 0 <= col < 9
      ensures CellName(row, col) in m && m[CellName(row, col)] != [] && Grid(m)[row][col] == m[CellName(row, col)][0]
    {
      assert CellFault(m, row, col, false).None?;
    }
  }
}
