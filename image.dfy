/**
 * `solution_as_img`: the integer geometry of the picture. Only the anchors and
 * texts passed to `draw.text` and the end points and widths passed to
 * `draw.line` are modelled; the canvas, fonts and file are not.
 */
module ImageLayout {
  import opened Wrappers
  import opened Board
  import opened Solutions
  import Console

  /** The two versions of `solution_as_img`. */
  datatype Style =
    | Large   // sudoku.py: 540 x 540 canvas, 60 px cells, lines 0..9, borders 8 px, no assert
    | Small   // Sudoku.py: 270 x 270 canvas, 30 px cells, lines 1..8, borders 3 px, asserts a solution

  function CanvasSize(style: Style): nat {
    if style.Large? then 540 else 270
  }

  function CellSize(style: Style): nat {
    if style.Large? then 60 else 30
  }

  /** Offset of a digit's anchor from its cell's top-left corner. */
  function TextOffset(style: Style): nat {
    if style.Large? then 20 else 10
  }

  /** The range of line numbers k drawn at k * CellSize. */
  function FirstLine(style: Style): nat {
    if style.Large? then 0 else 1
  }

  function LastLine(style: Style): nat {
    if style.Large? then 9 else 8
  }

  function BorderWidth(style: Style): nat {
    if style.Large? then 8 else 3
  }

  /** `border_width if k in [...] else line_width` */
  function LineWidth(style: Style, k: nat): nat {
    if (style.Large? && k in [0, 3, 6, 9]) || (style.Small? && k in [3, 6]) then BorderWidth(style) else 1
  }

  /** Within the drawn range, a line is a border exactly on a box boundary (k a multiple of 3). */
  lemma LineWidthOnBoxes(style: Style, k: nat)
    requires FirstLine(style) <= k <= LastLine(style)
    ensures LineWidth(style, k) == if k % 3 == 0 then BorderWidth(style) else 1
  {
  }

  /** Arguments of one `draw.text((x, y), text)` call. */
  datatype TextCmd = TextCmd(x: int, y: int, text: string)

  /** Arguments of one `draw.line([(x0, y0), (x1, y1)], width=width)` call. */
  datatype LineCmd = LineCmd(x0: int, y0: int, x1: int, y1: int, width: nat)

  datatype Drawing = Drawing(size: nat, texts: seq<TextCmd>, lines: seq<LineCmd>)

  /** `str(int(solution['row-col'][0]))`; "" for a cell that faults (drawing reports that cell's fault instead). */
  function CellDigit(m: Solution, row: nat, col: nat): string
    requires row < 9 && col < 9
  {
    var name := CellName(row, col);
    if name in m && m[name] != [] && PyInt(m[name][0]).Some? then PyStr(PyInt(m[name][0]).value) else ""
  }

  /** The text drawn for cell (row, col). */
  function DigitText(style: Style, m: Solution, row: nat, col: nat): TextCmd
    requires row < 9 && col < 9
  {
    TextCmd(col * CellSize(style) + TextOffset(style), row * CellSize(style) + TextOffset(style), CellDigit(m, row, col))
  }

  /** The texts of the first n rows in the order they are drawn: row by row, left to right. */
  function TextsUpTo(style: Style, m: Solution, n: nat): (ts: seq<TextCmd>)
    requires n <= 9
    ensures |ts| == 9 * n
  {
    if n == 0 then [] else TextsUpTo(style, m, n - 1) + RowTexts(style, m, n - 1)
  }

  /** The 81 texts in the order they are drawn. */
  function Texts(style: Style, m: Solution): (ts: seq<TextCmd>)
    ensures |ts| == 81
  {
    TextsUpTo(style, m, 9)
  }

  function HorizontalLine(style: Style, k: nat): LineCmd {
    LineCmd(0, k * CellSize(style), CanvasSize(style), k * CellSize(style), LineWidth(style, k))
  }

  function VerticalLine(style: Style, k: nat): LineCmd {
    LineCmd(k * CellSize(style), 0, k * CellSize(style), CanvasSize(style), LineWidth(style, k))
  }

  function LineCount(style: Style): nat {
    LastLine(style) - FirstLine(style) + 1
  }

  /** The horizontal lines top to bottom, then the vertical lines left to right. */
  function GridLines(style: Style): seq<LineCmd> {
    seq(LineCount(style), i requires 0 <= i < LineCount(style) => HorizontalLine(style, FirstLine(style) + i))
    + seq(LineCount(style), i requires 0 <= i < LineCount(style) => VerticalLine(style, FirstLine(style) + i))
  }

  /**
   * What `solution_as_img` draws: AssertionError (Small only) on an absent or
   * empty solution, TypeError on an absent one (Large), the KeyError,
   * IndexError or ValueError of the first faulty cell in row-major order, or
   * the drawing.
   */
  function Image(style: Style, sol: Option<Solution>): (r: Result<Drawing, SolutionError>)
    ensures r.Success? ==> r.value.size == CanvasSize(style) && |r.value.texts| == 81
                           && |r.value.lines| == 2 * LineCount(style)
  {
    if style.Small? && !Truthy(sol) then Failure(AssertionFailed)
    else if sol.None? then Failure(NotSubscriptable)
    else
      var e := FirstError(sol.value, true);
      if e.Some? then Failure(e.value)
      else Success(Drawing(CanvasSize(style), Texts(style, sol.value), GridLines(style)))
  }

  /** The nine texts of one row, left to right. */
  function RowTexts(style: Style, m: Solution, row: nat): (ts: seq<TextCmd>)
    requires row < 9
    ensures |ts| == 9
  {
    seq(9, col requires 0 <= col < 9 => DigitText(style, m, row, col))
  }

  /** Text 9 * row + col of the first n rows is the text of cell (row, col). */
  lemma {:induction false} TextsUpToAt(style: Style, m: Solution, n: nat, row: nat, col: nat)
    requires row < n <= 9 && col < 9
    ensures TextsUpTo(style, m, n)[9 * row + col] == DigitText(style, m, row, col)
  {
    if row < n - 1 {
      TextsUpToAt(style, m, n - 1, row, col);
    }
  }

  /** The text at position 9 * row + col is the text of cell (row, col). */
  lemma TextsAt(style: Style, m: Solution, row: nat, col: nat)
    requires row < 9 && col < 9
    ensures Texts(style, m)[9 * row + col] == DigitText(style, m, row, col)
  {
    TextsUpToAt(style, m, 9, row, col);
  }

  lemma RowTextsPrefix(style: Style, m: Solution, row: nat, col: nat)
    requires row < 9 && col < 9
    ensures RowTexts(style, m, row)[..col + 1] == RowTexts(style, m, row)[..col] + [DigitText(style, m, row, col)]
  {
  }

  /** The text placed for a cell whose value converts. */
  lemma DigitTextPlaced(style: Style, m: Solution, row: nat, col: nat)
    requires row < 9 && col < 9 && CellFault(m, row, col, true).None?
    ensures DigitText(style, m, row, col) ==
            TextCmd(col * CellSize(style) + TextOffset(style), row * CellSize(style) + TextOffset(style),
                    PyStr(PyInt(m[CellName(row, col)][0]).value))
  {
  }

  /** The digit loop of `solution_as_img` for one row. */
  method DrawRow(style: Style, m: Solution, row: nat) returns (r: Result<seq<TextCmd>, SolutionError>)
    requires row < 9
    ensures var c := RowFault(m, true, row, 0);
            if c < 9 then r == Failure(CellFault(m, row, c, true).value)
            else r == Success(RowTexts(style, m, row))
  {
    var texts: seq<TextCmd> := [];
    for col := 0 to 9
      invariant RowFault(m, true, row, 0) == RowFault(m, true, row, col)
      invariant texts == RowTexts(style, m, row)[..col]
    {
      var name := CellName(row, col);
      if name !in m {
        RowFaultStops(m, true, row, col);
        return Failure(MissingCell(row, col));
      }
      if m[name] == [] {
        RowFaultStops(m, true, row, col);
        return Failure(EmptyDomain(row, col));
      }
      var cellValue := PyInt(m[name][0]);
      if cellValue.None? {
        RowFaultStops(m, true, row, col);
        return Failure(NotAnInteger(row, col));
      }
      RowFaultPasses(m, true, row, col);
      DigitTextPlaced(style, m, row, col);
      var x := col * CellSize(style) + TextOffset(style);
      var y := row * CellSize(style) + TextOffset(style);
      texts := texts + [TextCmd(x, y, PyStr(cellValue.value))];
      RowTextsPrefix(style, m, row, col);
    }
    assert texts == RowTexts(style, m, row);
    return Success(texts);
  }

  /** The two line loops of `solution_as_img`. */
  method DrawLines(style: Style) returns (lines: seq<LineCmd>)
    ensures lines == GridLines(style)
  {
    var first, n := FirstLine(style), LineCount(style);
    var horizontal := seq(n, i requires 0 <= i < n => HorizontalLine(style, first + i));
    var vertical := seq(n, i requires 0 <= i < n => VerticalLine(style, first + i));
    lines := [];
    for row := first to first + n
      invariant lines == horizontal[..row - first]
    {
      var lineY := row * CellSize(style);
      lines := lines + [LineCmd(0, lineY, CanvasSize(style), lineY, LineWidth(style, row))];
      assert horizontal[row - first] == HorizontalLine(style, row);
      assert horizontal[..row - first + 1] == horizontal[..row - first] + [horizontal[row - first]];
    }
    for col := first to first + n
      invariant lines == horizontal + vertical[..col - first]
    {
      var lineX := col * CellSize(style);
      lines := lines + [LineCmd(lineX, 0, lineX, CanvasSize(style), LineWidth(style, col))];
      assert vertical[col - first] == VerticalLine(style, col);
      assert vertical[..col - first + 1] == vertical[..col - first] + [vertical[col - first]];
    }
  }

  /** The digit loops of `solution_as_img`: all 81 texts, or the first cell's fault. */
  method DrawTexts(style: Style, m: Solution) returns (r: Result<seq<TextCmd>, SolutionError>)
    ensures var e := FirstError(m, true);
            if e.Some? then r == Failure(e.value) else r == Success(Texts(style, m))
  {
    var texts: seq<TextCmd> := [];
    for row := 0 to 9
      invariant FaultRow(m, true, 0) == FaultRow(m, true, row)
      invariant texts == TextsUpTo(style, m, row)
    {
      var rowTexts := DrawRow(style, m, row);
      if rowTexts.Failure? {
        FaultRowHere(m, true, row);
        return Failure(rowTexts.error);
      }
      FaultRowSkip(m, true, row);
      texts := texts + rowTexts.value;
    }
    return Success(texts);
  }

  /** `solution_as_img`, loop for loop. */
  method SolutionAsImage(style: Style, sol: Option<Solution>) returns (r: Result<Drawing, SolutionError>)
    ensures r == Image(style, sol)
  {
    if style.Small? && !Truthy(sol) {
      return Failure(AssertionFailed);
    }
    if sol.None? {
      return Failure(NotSubscriptable);
    }
    var texts := DrawTexts(style, sol.value);
    if texts.Failure? {
      return Failure(texts.error);
    }
    var lines := DrawLines(style);
    return Success(Drawing(CanvasSize(style), texts.value, lines));
  }

  /** Each digit is anchored strictly inside its own cell, hence inside the canvas. */
  lemma {:induction false} TextInsideCell(style: Style, m: Solution, row: nat, col: nat)
    requires row < 9 && col < 9
    ensures var t := Texts(style, m)[9 * row + col];
            col * CellSize(style) < t.x < (col + 1) * CellSize(style)
            && row * CellSize(style) < t.y < (row + 1) * CellSize(style)
            && 0 < t.x < CanvasSize(style) && 0 < t.y < CanvasSize(style)
  {
    TextsAt(style, m, row, col);
  }

  /** The text drawn for a readable cell reads back as the cell's integer; a one-digit value is drawn as itself. */
  lemma {:induction false} TextReadsBack(style: Style, m: Solution, row: nat, col: nat)
    requires row < 9 && col < 9
    requires CellFault(m, row, col, true).None?
    ensures var t := Texts(style, m)[9 * row + col];
            PyInt(t.text) == PyInt(m[CellName(row, col)][0])
            && (forall d :: '0' <= d <= '9' && m[CellName(row, col)][0] == [d] ==> t.text == [d])
  {
    RowMajorIndex(row, col);
    var v := m[CellName(row, col)][0];
    TextsAt(style, m, row, col);
    PyIntOfPyStr(PyInt(v).value);
    forall d | '0' <= d <= '9' && v == [d]
      ensures PyStr(PyInt(v).value) == [d]
    {
      PyStrOfDigit(d);
    }
  }

  /** The coordinate a grid line is drawn at: x for a vertical line, y for a horizontal one. */
  function LinePosition(l: LineCmd): int {
    if l.x0 == l.x1 then l.x0 else l.y0
  }

  /** 20 lines in the large picture (10 each way), 16 in the small one (8 each way). */
  lemma LineCounts()
    ensures |GridLines(Large)| == 20 && |GridLines(Small)| == 16
  {
  }

  /**
   * Every line spans the canvas along one axis, lies on a cell boundary, and is
   * thick exactly on a box boundary; the small picture draws no outer border.
   */
  lemma {:induction false} GridLineShape(style: Style, i: nat)
    requires i < |GridLines(style)|
    ensures var l := GridLines(style)[i];
            var p := LinePosition(l);
            ((l.x0 == l.x1 && l.y0 == 0 && l.y1 == CanvasSize(style))
             || (l.y0 == l.y1 && l.x0 == 0 && l.x1 == CanvasSize(style)))
            && p % CellSize(style) == 0 && 0 <= p <= CanvasSize(style)
            && (style.Small? ==> 0 < p < CanvasSize(style))
            && (l.width == BorderWidth(style) <==> p % (3 * CellSize(style)) == 0)
            && (l.width == BorderWidth(style) || l.width == 1)
  {
    var n := LineCount(style);
    var k := FirstLine(style) + (if i < n then i else i - n);
    var l := GridLines(style)[i];
    if i < n {
      assert l == HorizontalLine(style, k);
    } else {
      assert l == VerticalLine(style, k);
    }
    assert LinePosition(l) == k * CellSize(style);
  }

  /** Every cell boundary the picture draws is drawn once in each direction. */
  lemma {:induction false} GridLinesCover(style: Style, k: nat)
    requires FirstLine(style) <= k <= LastLine(style)
    ensures var lines := GridLines(style);
            var n := LineCount(style);
            lines[k - FirstLine(style)].y0 == lines[k - FirstLine(style)].y1 == k * CellSize(style)
            && lines[n + k - FirstLine(style)].x0 == lines[n + k - FirstLine(style)].x1 == k * CellSize(style)
  {
    var n := LineCount(style);
    assert GridLines(style)[k - FirstLine(style)] == HorizontalLine(style, k);
    assert GridLines(style)[n + k - FirstLine(style)] == VerticalLine(style, k);
  }

  /**
   * The picture is drawn exactly when the solution is present, non-empty for
   * the small variant, and every cell holds an integer.
   */
  lemma ImageSucceeds(style: Style, sol: Option<Solution>)
    ensures Image(style, sol).Success? <==>
            sol.Some? && (style.Small? ==> sol.value != map[]) && AllReadable(sol.value, true)
  {
    if sol.Some? {
      FirstErrorNone(sol.value, true);
    }
  }

  /** Only the small variant raises AssertionError, and exactly on an absent or empty solution. */
  lemma ImageAssertion(style: Style, sol: Option<Solution>)
    ensures Image(style, sol) == Failure(AssertionFailed) <==> style.Small? && !Truthy(sol)
  {
    if sol.Some? && (style.Large? || Truthy(sol)) && FirstError(sol.value, true).Some? {
      assert FirstError(sol.value, true).value != AssertionFailed;
    }
  }

  /** Without the assertion, an empty solution fails on its first cell with a KeyError. */
  lemma ImageEmptyLarge()
    ensures Image(Large, Some(map[])) == Failure(MissingCell(0, 0))
  {
    assert CellFault(map[], 0, 0, true) == Some(MissingCell(0, 0));
    assert RowFault(map[], true, 0, 0) == 0;
    FaultRowHere(map[], true, 0);
  }

  /** A solution the small picture can draw can also be printed. */
  lemma ImageImpliesPrint(sol: Option<Solution>)
    ensures Image(Small, sol).Success? ==> Console.Render(sol).Success?
  {
    if Image(Small, sol).Success? {
      ImageSucceeds(Small, sol);
      ReadableWithoutConversion(sol.value);
      Console.RenderSucceeds(sol);
    }
  }
}
