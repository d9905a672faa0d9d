# Sudoku and map colouring as constraint satisfaction problems — a Dafny model

The repository solves Sudoku puzzles (and, as a test case, the colouring of
the map of Australia) with a generic backtracking CSP engine. This project
models the puzzle-specific code that surrounds that engine and proves what
it builds and prints:

- **Encoding** (`Sudoku.__init__`): a board file becomes a CSP. Each line is
  stripped, and each of the 81 cells becomes a variable named `"row-col"`, in
  row-major order. A `'0'` cell gets the domain `["1", ..., "9"]`; any other
  character `c` gets `[c]`. Then 27 all-different groups are declared: 9 rows,
  9 columns, then 9 boxes. `sudoku.py` and `Sudoku.py` hold the same encoder.
- **Console rendering** (`print_solution`): the 11 printed lines of a solved
  grid. Each value is followed by a space, `"| "` follows columns 2 and 5, and
  `------+-------+------` follows rows 2 and 5. It fails with AssertionError
  on an absent or empty solution, and with the KeyError or IndexError of the
  first unreadable cell. Both files hold the same code.
- **Image layout** (`solution_as_img`): the integer geometry of the picture.
  This is where each digit is anchored, which grid lines are drawn where, and
  how wide each line is. There are two variants:
  - `Large` (`sudoku.py`): 540 px, 60 px cells, lines 0..9, border width 8, no assertion.
  - `Small` (`Sudoku.py`): 270 px, 30 px cells, lines 1..8, border width 3, asserts a solution.
- **Map colouring** (`MapCSP.__init__`): 7 states over 3 colours. Every listed
  edge is added as two one-way inequality arcs.
- **Effort-trace padding** (`eval`, lines 25-28): every progress list is
  extended in place with `81` until it is as long as the longest one.

The generic engine (`CSP.py`) is not part of this model. Its three
declaration calls are modelled as table updates of the class `Engine.Csp`:
`add_variable` appends a name and sets its domain, `add_all_different_constraint`
appends a group, and `add_constraint_one_way` appends an arc. The solver's
result is an input: `Option<map<string, seq<string>>>`, read as
`solution['row-col'][0]`.

Files:
- `wrappers.dfy`: Option and Result.
- `board.dfy`: `str.strip`, cell names, board shape.
- `engine.dfy`: the engine's tables.
- `encoding.dfy`: the Sudoku encoder.
- `solution.dfy`: solution reads, `int(str)` and `str(int)`.
- `console.dfy`: `print_solution`.
- `image.dfy`: `solution_as_img`.
- `map_coloring.dfy`: `MapCSP`.
- `evaluation.dfy`: the padding loop.

Each imperative loop of the source is a method proved equal to a declarative
specification function:
- `PrintSolution` against `Render`;
- `SolutionAsImage` against `Image`;
- the encoder against `VariableOrder`, `CellDomain` and `SudokuGroups`;
- `PadProgresses` against `PadAll`.

The properties are proved about those functions.

## Model

| member | source | states |
|---|---|---|
| Board.Strip | sudoku.py:19 | `x.strip()` (blank set `StrBlanks`, Python's `str.isspace()`) leaves no blank at either end and never lengthens the line; the same holds for the blanks `int()` skips (`IntBlanks`) |
| Board.StripRemovesOnlySpace | sudoku.py:19 | strip keeps one contiguous slice of the line; everything removed before and after it is whitespace |
| Board.StripSkipsBlanks | sudoku.py:19 | stripping ignores any blanks added before or after a string |
| Board.StripUnchanged | sudoku.py:19 | a line that neither starts nor ends with whitespace is its own strip |
| Board.StripLines | sudoku.py:19 | the board has one stripped line per file line, in order |
| Board.FirstIndexError | sudoku.py:21-23 | `board[row][col]` fails for some row, col < 9 exactly when the board is not 9 lines of at least 9 characters; the reported cell is the first failing one in row-major order and every earlier index is in range |
| Board.CellNameParses | sudoku.py:24 | `'%d-%d' % (row, col)` parses back to (row, col), so distinct cells have distinct names |
| Board.ParsedNameIsCellName | sudoku.py:24 | every name of the form "r-c" with r, c < 9 is the name of cell (r, c) |
| Engine.Csp.constructor | sudoku.py:15 | a fresh engine has no variables, domains, groups or arcs |
| Engine.Csp.AddVariable | sudoku.py:24-27 | appends the name to the variable order and sets its domain; groups and arcs are unchanged |
| Engine.Csp.AddAllDifferentConstraint | sudoku.py:30-31 | appends one group; variables, domains and arcs are unchanged |
| Engine.Csp.AddConstraintOneWay | Sudoku.py:143-144 | appends one arc source -> target; the other tables are unchanged |
| Encoding.VariableOrderRowMajor | sudoku.py:21-27 | exactly 81 variables are declared, cell (row, col) at position 9 * row + col |
| Encoding.VariableOrderDistinct | sudoku.py:21-27 | the 81 names are pairwise distinct |
| Encoding.VariableOrderNames | sudoku.py:21-24 | the declared names are exactly the "r-c" names with 0 <= r, c < 9 |
| Encoding.CellDomainValues | sudoku.py:23-27 | a '0' cell gets ["1", ..., "9"] in ascending order; any other character c gets exactly [c], without validation |
| Encoding.BoxCell | sudoku.py:35-40 | cell (i, j) of box (br, bc) is the cell (3br + i, 3bc + j), at position 3i + j of the box's group |
| Encoding.BoxDistinct | sudoku.py:35-40 | a box's group names nine different cells |
| Encoding.GroupsDistinct | sudoku.py:29-41 | 27 groups of 9 names each, with no name twice in a group |
| Encoding.BoxGroupCells | sudoku.py:35-41 | box (br, bc) holds exactly the cells with row / 3 == br and col / 3 == bc |
| Encoding.CellMembership | sudoku.py:29-41 | cell (r, c) lies in group g exactly when g is r (its row), 9 + c (its column) or 18 + 3 * (r / 3) + c / 3 (its box) |
| Encoding.DeclareVariables | sudoku.py:21-27 | the nested loops declare the variables in row-major order, each with the domain of its board character |
| Encoding.CollectBox | sudoku.py:37-40 | the innermost loops collect a box's cells row-major within the box |
| Encoding.DeclareBoxGroups | sudoku.py:35-41 | the box loops append the nine box groups after the rows and columns and change nothing else |
| Encoding.DeclareGroups | sudoku.py:29-41 | the group loops declare rows 0-8, then columns, then boxes, and change nothing else |
| Encoding.Sudoku.constructor | sudoku.py:15-41 | the encoder yields the 81 variables in order, each cell's domain from its stripped character, the 27 groups in order, and no arcs; also Sudoku.py:15-41: the same encoder in the second file |
| Solutions.Decimal | sudoku.py:100 | `str(n)` of a natural number is decimal digits without a leading zero |
| Solutions.PyIntSkipsBlanks | sudoku.py:93 | `int()` gives the same result, value or ValueError, when the blanks it skips (the six ASCII C whitespace characters and the non-ASCII `str.isspace()` characters) surround the text |
| Solutions.PyIntChars | sudoku.py:93 | `int()` accepts only text made of ASCII digits, signs and those blanks; anything else raises ValueError |
| Solutions.PyIntRejectsSeparator | sudoku.py:93 | the characters 0x1c-0x1f count as whitespace for `str.isspace()`, but `int()` raises ValueError when one stands next to a digit |
| Solutions.PyStr | sudoku.py:100 | `str(n)` starts with a minus sign exactly when n is negative, and the rest is decimal digits |
| Solutions.PyIntOfDecimal | sudoku.py:93-100 | `int(str(n)) == n` for every natural number |
| Solutions.PyIntOfNegative | sudoku.py:93-100 | `int("-" + str(-n)) == n` for every negative number |
| Solutions.PyIntOfPyStr | sudoku.py:93-100 | `int(str(n)) == n` for every integer |
| Solutions.PyStrOfDigit | sudoku.py:93-100 | a one-digit value is converted and drawn back as the same character |
| Solutions.CellFault | sudoku.py:66 | reading `solution['r-c'][0]` raises KeyError (no entry) or IndexError (empty list) for that very cell; the conversion `int(...)` at sudoku.py:93 adds ValueError, and only when converting |
| Solutions.RowFaultScan | sudoku.py:65-66 | the scan of a row stops at its first faulty column and passes only readable cells before it |
| Solutions.FaultRowScan | sudoku.py:64-66 | the scan over rows passes only rows whose every cell is readable |
| Solutions.FaultRowFound | sudoku.py:64-66 | the row the scan stops at holds a faulty cell |
| Solutions.FirstError | sudoku.py:64-66 | the reported fault is a KeyError, IndexError or ValueError of one cell, and it is that cell's own fault |
| Solutions.FirstErrorNone | sudoku.py:64-66 | no fault is reported exactly when every cell can be read |
| Solutions.FirstErrorBefore | sudoku.py:64-66 | every cell before the faulty one in row-major order reads cleanly |
| Solutions.ReadableWithoutConversion | sudoku.py:93 | a solution whose every cell converts with `int` has every cell readable |
| Console.Render | sudoku.py:57-71 | the printed output is 11 lines; a failure is AssertionError, KeyError or IndexError, never TypeError or ValueError (no `int()` is applied) |
| Console.PrintRow | sudoku.py:65-69 | the inner loop yields the row's line, or the fault of the first unreadable cell in the row |
| Console.PrintSolution | sudoku.py:57-71 | the loops print exactly `Render(sol)`: AssertionError, the first cell's KeyError or IndexError, or the 11-line layout; also Sudoku.py:56-70: the same printer in the second file |
| Console.RenderAssertion | sudoku.py:62 | AssertionError exactly when the solution is absent or empty |
| Console.RenderSucceeds | sudoku.py:62-66 | printing completes exactly when the solution is non-empty and every cell can be read |
| Console.RenderFault | sudoku.py:64-66 | a failure on a non-empty solution is the KeyError or IndexError of one cell, that cell's own fault, and every cell before it in row-major order was readable |
| Console.DigitLineChars | sudoku.py:65-68 | with one-character values a row prints as the 22 characters "a b c \| d e f \| g h i " |
| Console.DigitLineAt | sudoku.py:65-68 | column c is printed at character 2c + 2(c / 3) of its line |
| Console.LayoutLine | sudoku.py:64-71 | grid row r is printed on line r + r / 3 of 11 |
| Console.LayoutSeparators | sudoku.py:70-71 | the separator lines are lines 3 and 7 |
| Console.LayoutReadBack | sudoku.py:64-71 | reading the printed layout back gives every one-character value |
| Console.ReadableReadBack | sudoku.py:64-71 | the layout of a readable solution with one-character values reads back as those values |
| Console.GridOfReadable | sudoku.py:66 | when every cell is readable, the printed value of a cell is `solution['r-c'][0]` |
| Console.RenderReadBack | sudoku.py:57-71 | the printed text determines the solution: 11 lines, separators at 3 and 7, and each cell's value read back from its position |
| ImageLayout.Image | sudoku.py:73-123 | a drawing has the canvas size, 81 texts and two lines for every drawn boundary k |
| ImageLayout.DrawRow | sudoku.py:92-100 | one row's nine texts, or the first faulty cell of the row |
| ImageLayout.DrawTexts | sudoku.py:91-100 | all 81 texts in row-major order, or the first faulty cell |
| ImageLayout.DrawLines | sudoku.py:106-120 | horizontal lines k = 0..9 at k * 60, then vertical lines, with width 8 at k in {0, 3, 6, 9} and 1 otherwise; also Sudoku.py:105-119: horizontal lines k = 1..8 at k * 30, then vertical lines, with width 3 at k in {3, 6} and 1 otherwise |
| ImageLayout.SolutionAsImage | sudoku.py:73-123 | the drawing loops produce exactly `Image(Large, sol)`; also Sudoku.py:72-122: the drawing loops produce exactly `Image(Small, sol)`, including the assertion |
| ImageLayout.TextsAt | sudoku.py:91-100 | the drawing order is row-major: text 9 * row + col is the text of cell (row, col) |
| ImageLayout.TextInsideCell | sudoku.py:96-97 | each digit is anchored strictly inside its own cell, hence inside the canvas; also Sudoku.py:96-97: the same for the 30 px grid |
| ImageLayout.TextReadsBack | sudoku.py:93-100 | the drawn text reads back as the cell's integer; a one-digit value is drawn as itself |
| ImageLayout.LineWidthOnBoxes | sudoku.py:106-120 | within the drawn range of k, `border_width if k in [...] else line_width` is the border width exactly when k is a multiple of 3 (also Sudoku.py:105-119) |
| ImageLayout.LineCounts | sudoku.py:106-120 | 20 lines in the large picture and 16 in the small one |
| ImageLayout.GridLineShape | sudoku.py:106-120 | every line spans the canvas along one axis, lies on a cell boundary, and is thick exactly on a box boundary; also Sudoku.py:105-119: the same, and the small picture draws no line on the canvas edge |
| ImageLayout.GridLinesCover | sudoku.py:106-120 | every drawn boundary k appears once horizontally and once vertically |
| ImageLayout.ImageSucceeds | Sudoku.py:81-100 | the picture is drawn exactly when the solution is present (non-empty for the small variant) and every cell holds an integer |
| ImageLayout.ImageAssertion | Sudoku.py:81 | only the small variant raises AssertionError, and exactly on an absent or empty solution |
| ImageLayout.ImageEmptyLarge | sudoku.py:91-93 | without the assertion, an empty solution fails with the KeyError of cell (0, 0) |
| ImageLayout.ImageImpliesPrint | Sudoku.py:81-93 | a solution the small picture can draw can also be printed |
| MapColoring.EntryArcs | Sudoku.py:142-144 | an edge entry adds two arcs per listed neighbour |
| MapColoring.EntryArcsPairs | Sudoku.py:142-144 | an entry's arcs are exactly the (state, neighbour) pairs, both ways |
| MapColoring.EntryArcEnds | Sudoku.py:142-144 | each arc of an entry joins the entry's state with one of its listed neighbours |
| MapColoring.ArcsAreAdjacency | Sudoku.py:141-144 | an arc a -> b is added exactly when a and b are listed as neighbours under either of them |
| MapColoring.SouthAustraliaArcs | Sudoku.py:136-144 | the entry under "SA" adds its 10 arcs in order |
| MapColoring.EdgesByEntry | Sudoku.py:136-144 | the arcs are the three entries' arcs, in the dictionary's insertion order |
| MapColoring.MapArcs | Sudoku.py:136-144 | the 18 arcs, in the order they are added |
| MapColoring.MapArcsSymmetric | Sudoku.py:143-144 | the arc relation is symmetric |
| MapColoring.MapArcEndpoints | Sudoku.py:135-144 | arcs join two different declared states, and "T" takes part in none |
| MapColoring.DeclareStates | Sudoku.py:135-140 | the first loop declares the 7 states in order, each with the three colours |
| MapColoring.AddEntry | Sudoku.py:142-144 | the inner loop appends exactly the entry's arcs and changes nothing else |
| MapColoring.AddEdges | Sudoku.py:141-144 | the outer loop appends the arcs of every entry, in order, and changes nothing else |
| MapColoring.MapCsp.constructor | Sudoku.py:133-144 | the 7 states in order, each with ["red", "green", "blue"], no groups, and exactly the edge arcs |
| Evaluation.MaxLength | evaluation.py:26 | the maximum length: no list is longer, and some list is exactly as long |
| Evaluation.Padded | evaluation.py:28 | padding keeps the list as a prefix, appends only 81s, and reaches the target length (or leaves a longer list alone) |
| Evaluation.PadAll | evaluation.py:25-28 | same number of lists; each is as long as the longest, with its original entries as a prefix and 81s after them |
| Evaluation.PadTo | evaluation.py:28 | the `while` loop appends 81 until the list reaches the target length |
| Evaluation.LongestLength | evaluation.py:26 | computes `max(len(p) for p in progresses)` |
| Evaluation.PadEach | evaluation.py:27-28 | every list is padded in place, even when the same list appears twice |
| Evaluation.PadProgresses | evaluation.py:25-28 | the lists afterwards are `PadAll` of the lists before; the result is `x_length`, or the ValueError of `max()` when there are no lists |
| Evaluation.PaddedTwice | evaluation.py:28 | padding an already padded list changes nothing |
| Evaluation.PadAllKeepsLongest | evaluation.py:27-28 | a list already at the maximum length is unchanged |
| Evaluation.PadAllIdempotent | evaluation.py:25-28 | padding twice is the same as padding once |
| Evaluation.PadAllBounded | evaluation.py:28 | counts of assigned variables stay within 0..81 after padding |

## Left out

- `CSP.py` is not part of this model. That covers backtracking search, inference, the solution it computes, and the `backtracks_called`, `backtrack_failures` and `progress` counters. The solution and the progress lists are inputs.
- Engine.Csp.AddVariable: assumed to append the name and set its domain. What `CSP.py` does with a name declared twice is not modelled; the modelled code never does that.
- The constraint functions (`lambda i, j: i != j`) are not stored. An arc records only its two endpoints, and an all-different group only its names.
- Whether a solution is correct or unique: nothing in the modelled code computes this.
- Reading the board file: the file's lines are a parameter. `str.strip()` is modelled with Python's whitespace set.
- Encoding.Sudoku.constructor: requires a board of at least 9 lines of at least 9 characters. On any other board the source raises IndexError partway through and the object is unusable. That crash point is described by `Board.FirstIndexError`; the partly filled tables are not modelled.
- The encoder does no validation of the board's characters. Any character other than '0' becomes a singleton domain, so a letter or a space in the file becomes a cell fixed to that character.
- Console.PrintSolution: the lines printed before a KeyError or IndexError are not modelled; the result is the error alone. Values are printed as the strings they are.
- Solutions.PyInt: does not model three behaviours of Python's `int()`. It also accepts single underscores between digits, and it accepts non-ASCII decimal digits. From Python 3.11 on, it raises ValueError on more than 4300 digits, and `str()` does the same. The model accepts only ASCII digits with an optional sign, surrounded by the blanks `int()` skips, and places no limit on length; the limit depends on the interpreter version and its configuration.
- PIL is left out: the canvas, colours, fonts (`truetype` at size 34, `load_default`), the rendered glyphs and `image.save`. Only the integer arguments of `draw.text` and `draw.line` are modelled.
- ImageLayout.SolutionAsImage: on an exception the partly drawn picture is never saved, so only the exception is modelled.
- `time.time()` and elapsed-time rounding, matplotlib and `np.arange` in `eval`, `solve`, `MapCSP.solve` and the `__main__` drivers are left out. They are I/O, floating point or a charting library, and only sequence the modelled pieces.
- Evaluation.PadProgresses: pads with the literal 81, as the code does. A trace that stopped below 81 therefore jumps to 81 in its padded part.
