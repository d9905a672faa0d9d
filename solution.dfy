/**
 * The solver's result as the rendering code reads it: a map from variable
 * name to its final domain, of which `solution['r-c'][0]` is the cell's value.
 * Also Python's `int(str)` and `str(int)`, used by the image renderer.
 */
module Solutions {
  import opened Wrappers
  import opened Board

  type Solution = map<string, seq<string>>

  /** The exceptions reading a solution can raise. */
  datatype SolutionError =
    | AssertionFailed               // `assert self.solution` on an absent or empty solution
    | NotSubscriptable              // subscripting an absent (None) solution
    | MissingCell(row: nat, col: nat)   // KeyError: no entry for "row-col"
    | EmptyDomain(row: nat, col: nat)   // IndexError: the entry's list is empty
    | NotAnInteger(row: nat, col: nat)  // ValueError from `int(...)`

  /** Python truthiness of the solution: present and non-empty. */
  predicate Truthy(sol: Option<Solution>) {
    sol.Some? && sol.value != map[]
  }

  predicate IsDecimal(s: string) {
    |s| > 0 && forall i :: 0 <= i < |s| ==> '0' <= s[i] <= '9'
  }

  /** The value of a string of decimal digits. */
  function DigitsValue(s: string): nat
    requires forall i :: 0 <= i < |s| ==> '0' <= s[i] <= '9'
  {
    if s == [] then 0 else 10 * DigitsValue(s[..|s| - 1]) + (s[|s| - 1] as int - '0' as int)
  }

  /** Python's `int(s)` for a string: surrounding whitespace, an optional sign, then decimal digits. */
  function PyInt(s: string): Option<int> {
    var t := Strip(IntBlanks, s);
    if |t| > 0 && (t[0] == '+' || t[0] == '-') then
      if IsDecimal(t[1..]) then
        var v: int := if t[0] == '-' then -(DigitsValue(t[1..]) as int) else DigitsValue(t[1..]);
        Some(v)
      else None
    else if IsDecimal(t) then Some(DigitsValue(t))
    else None
  }

  /** Decimal digits of n, without leading zeros. */
  function Decimal(n: nat): (s: string)
    ensures IsDecimal(s)
    ensures s[0] == '0' ==> n == 0
  {
    if n < 10 then [DigitChar(n)] else Decimal(n / 10) + [DigitChar(n % 10)]
  }

  /** Python's `str(n)` for an int: a minus sign exactly for a negative n, then decimal digits. */
  function PyStr(n: int): (s: string)
    ensures |s| > 0 && (s[0] == '-' <==> n < 0)
    ensures n >= 0 ==> IsDecimal(s)
    ensures n < 0 ==> IsDecimal(s[1..])
  {
    if n < 0 then "-" + Decimal(-n) else Decimal(n)
  }

  /** Reading the decimal digits of n gives n back. */
  lemma {:induction false} DecimalValue(n: nat)
    ensures DigitsValue(Decimal(n)) == n
  {
    if n >= 10 {
      var s := Decimal(n);
      assert s[..|s| - 1] == Decimal(n / 10);
      DecimalValue(n / 10);
    }
  }

  /** `int` reads the decimal digits of n back as n. */
  lemma PyIntOfDecimal(n: nat)
    ensures PyInt(Decimal(n)) == Some(n)
  {
    var s := Decimal(n);
    assert '0' <= s[0] <= '9' && '0' <= s[|s| - 1] <= '9';
    StripUnchanged(IntBlanks, s);
    DecimalValue(n);
  }

  /** `int` reads a minus sign followed by the decimal digits of v as -v. */
  lemma PyIntOfMinus(d: string, v: nat)
    requires IsDecimal(d) && DigitsValue(d) == v
    ensures PyInt("-" + d) == Some(-(v as int))
  {
    var s := "-" + d;
    assert s[0] == '-' && s[1..] == d && s[|s| - 1] == d[|d| - 1];
    StripUnchanged(IntBlanks, s);
  }

  /** `int` reads a minus sign followed by the decimal digits of -n back as n. */
  lemma PyIntOfNegative(n: int)
    requires n < 0
    ensures PyInt("-" + Decimal(-n)) == Some(n)
  {
    DecimalValue(-n);
    PyIntOfMinus(Decimal(-n), -n);
  }

  /** `int(str(n)) == n` for every integer. */
  lemma PyIntOfPyStr(n: int)
    ensures PyInt(PyStr(n)) == Some(n)
  {
    if n < 0 {
      PyIntOfNegative(n);
    } else {
      PyIntOfDecimal(n);
    }
  }

  /** `int` ignores the blanks it skips on either side of the number. */
  lemma PyIntSkipsBlanks(pre: string, s: string, post: string)
    requires forall k :: 0 <= k < |pre| ==> IsBlank(IntBlanks, pre[k])
    requires forall k :: 0 <= k < |post| ==> IsBlank(IntBlanks, post[k])
    ensures PyInt(pre + s + post) == PyInt(s)
  {
    StripSkipsBlanks(IntBlanks, pre, s, post);
  }

  /** `int` accepts nothing but digits, a sign and the blanks it skips. */
  lemma PyIntChars(s: string)
    requires PyInt(s).Some?
    ensures forall k :: 0 <= k < |s| ==>
              '0' <= s[k] <= '9' || s[k] == '+' || s[k] == '-' || IsBlank(IntBlanks, s[k])
  {
    var t := Strip(IntBlanks, s);
    var i := StripRemovesOnlySpace(IntBlanks, s);
    forall k | i <= k < i + |t|
      ensures '0' <= s[k] <= '9' || s[k] == '+' || s[k] == '-'
    {
      assert s[k] == t[k - i];
      if k > i {
        assert t[k - i] == t[1..][k - i - 1];
      }
    }
  }

  /** The separator characters 0x1c-0x1f are `str.isspace()` but not skipped by `int`. */
  lemma PyIntRejectsSeparator(c: char, d: char)
    requires 0x1c <= c as int <= 0x1f && '0' <= d <= '9'
    ensures IsSpace(c) && PyInt([c, d]).None? && PyInt([d, c]).None?
  {
    StripUnchanged(IntBlanks, [c, d]);
    StripUnchanged(IntBlanks, [d, c]);
    assert !IsDecimal([c, d]) && !IsDecimal([d, c]);
    assert [c, d][1..] == [d];
  }

  /** `int(d)` for a one-digit string is the digit's value. */
  lemma PyIntOfDigit(d: char)
    requires '0' <= d <= '9'
    ensures PyInt([d]) == Some(d as int - '0' as int)
  {
    StripUnchanged(IntBlanks, [d]);
    assert IsDecimal([d]);
    assert DigitsValue([d]) == d as int - '0' as int by {
      assert [d][..0] == [];
    }
  }

  /** A one-digit value is drawn as itself by `str(int(v))`. */
  lemma PyStrOfDigit(d: char)
    requires '0' <= d <= '9'
    ensures PyInt([d]).Some? && PyStr(PyInt([d]).value) == [d]
  {
    PyIntOfDigit(d);
    var v := d as int - '0' as int;
    assert PyStr(v) == [DigitChar(v)];
  }

  /**
   * The exception, if any, raised by reading `solution['row-col'][0]`
   * (and converting it with `int(...)` when `asInt`).
   */
  function CellFault(m: Solution, row: nat, col: nat, asInt: bool): (f: Option<SolutionError>)
    requires row < 9 && col < 9
    ensures f.Some? ==> (f.value.MissingCell? || f.value.EmptyDomain? || f.value.NotAnInteger?)
    ensures f.Some? ==> f.value.row == row && f.value.col == col
    ensures f.Some? && !asInt ==> !f.value.NotAnInteger?
  {
    var name := CellName(row, col);
    if name !in m then Some(MissingCell(row, col))
    else if m[name] == [] then Some(EmptyDomain(row, col))
    else if asInt && PyInt(m[name][0]).None? then Some(NotAnInteger(row, col))
    else None
  }

  /** The first column c >= col of `row` whose read faults; 9 when none does. */
  function RowFault(m: Solution, asInt: bool, row: nat, col: nat): (c: nat)
    requires row < 9 && col <= 9
    ensures col <= c <= 9
    ensures c < 9 ==> CellFault(m, row, c, asInt).Some?
    decreases 9 - col
  {
    if col == 9 then 9
    else if CellFault(m, row, col, asInt).Some? then col
    else RowFault(m, asInt, row, col + 1)
  }

  /** The row scan stops at a faulty column. */
  lemma RowFaultStops(m: Solution, asInt: bool, row: nat, col: nat)
    requires row < 9 && col < 9 && CellFault(m, row, col, asInt).Some?
    ensures RowFault(m, asInt, row, col) == col
  {
  }

  /** The row scan passes over a readable column. */
  lemma RowFaultPasses(m: Solution, asInt: bool, row: nat, col: nat)
    requires row < 9 && col < 9 && CellFault(m, row, col, asInt).None?
    ensures RowFault(m, asInt, row, col) == RowFault(m, asInt, row, col + 1)
  {
  }

  /** The scan of one row passes over readable cells only. */
  lemma {:induction false} RowFaultScan(m: Solution, asInt: bool, row: nat, col: nat)
    requires row < 9 && col <= 9
    ensures forall c :: col <= c < RowFault(m, asInt, row, col) ==> CellFault(m, row, c, asInt).None?
    decreases 9 - col
  {
    if col < 9 && CellFault(m, row, col, asInt).None? {
      RowFaultPasses(m, asInt, row, col);
      RowFaultScan(m, asInt, row, col + 1);
    }
  }

  /** A row whose scan finds no fault has no faulty cell. */
  lemma RowClear(m: Solution, asInt: bool, row: nat)
    requires row < 9 && RowFault(m, asInt, row, 0) == 9
    ensures forall c :: 0 <= c < 9 ==> CellFault(m, row, c, asInt).None?
  {
    RowFaultScan(m, asInt, row, 0);
  }

  /** The first row r >= row holding a faulty cell; 9 when none does. */
  function FaultRow(m: Solution, asInt: bool, row: nat): (r: nat)
    requires row <= 9
    ensures row <= r <= 9
    decreases 9 - row
  {
    if row == 9 then 9
    else if RowFault(m, asInt, row, 0) < 9 then row
    else FaultRow(m, asInt, row + 1)
  }

  /** A row without a faulty cell passes the scan over rows on. */
  lemma FaultRowSkip(m: Solution, asInt: bool, row: nat)
    requires row < 9 && RowFault(m, asInt, row, 0) == 9
    ensures FaultRow(m, asInt, row) == FaultRow(m, asInt, row + 1)
  {
  }

  /** The scan over rows stops at a row with a faulty cell, or at the end. */
  lemma FaultRowHere(m: Solution, asInt: bool, row: nat)
    requires row == 9 || (row < 9 && RowFault(m, asInt, row, 0) < 9)
    ensures FaultRow(m, asInt, row) == row
  {
  }

  /** The row the scan over rows stops at does hold a faulty cell. */
  lemma {:induction false} FaultRowFound(m: Solution, asInt: bool, row: nat)
    requires row <= 9
    ensures FaultRow(m, asInt, row) < 9 ==> RowFault(m, asInt, FaultRow(m, asInt, row), 0) < 9
    decreases 9 - row
  {
    if row < 9 && RowFault(m, asInt, row, 0) == 9 {
      FaultRowSkip(m, asInt, row);
      FaultRowFound(m, asInt, row + 1);
    } else {
      FaultRowHere(m, asInt, row);
    }
  }

  /** The scan over rows passes over rows without a faulty cell only. */
  lemma {:induction false} FaultRowScan(m: Solution, asInt: bool, row: nat)
    requires row <= 9
    ensures forall r, c :: row <= r < FaultRow(m, asInt, row) && 0 <= c < 9 ==> CellFault(m, r, c, asInt).None?
    decreases 9 - row
  {
    if row < 9 && RowFault(m, asInt, row, 0) == 9 {
      RowClear(m, asInt, row);
      FaultRowSkip(m, asInt, row);
      FaultRowScan(m, asInt, row + 1);
    } else {
      FaultRowHere(m, asInt, row);
    }
  }

  /**
   * The exception raised by the first faulty cell, scanning row by row and
   * left to right as the nested loops do; None when every cell can be read.
   */
  function FirstError(m: Solution, asInt: bool): (e: Option<SolutionError>)
    ensures e.Some? ==> (e.value.MissingCell? || e.value.EmptyDomain? || e.value.NotAnInteger?)
    ensures e.Some? ==> e.value.row < 9 && e.value.col < 9 && CellFault(m, e.value.row, e.value.col, asInt) == e
  {
    var row := FaultRow(m, asInt, 0);
    FaultRowFound(m, asInt, 0);
    if row < 9 then CellFault(m, row, RowFault(m, asInt, row, 0), asInt) else None
  }

  /** Every cell can be read (and, when `asInt`, converted). */
  predicate AllReadable(m: Solution, asInt: bool) {
    forall row, col :: 0 <= row < 9 && 0 <= col < 9 ==> CellFault(m, row, col, asInt).None?
  }

  /** A solution whose every cell converts to an integer has every cell readable. */
  lemma ReadableWithoutConversion(m: Solution)
    requires AllReadable(m, true)
    ensures AllReadable(m, false)
  {
    forall row, col | 0 <= row < 9 && 0 <= col < 9
      ensures CellFault(m, row, col, false).None?
    {
      assert CellFault(m, row, col, true).None?;
    }
  }

  /** No cell faults exactly when every cell is readable. */
  lemma FirstErrorNone(m: Solution, asInt: bool)
    ensures FirstError(m, asInt).None? <==> AllReadable(m, asInt)
  {
    FaultRowScan(m, asInt, 0);
    FaultRowFound(m, asInt, 0);
  }

  /** Every cell before the reported one, in row-major order, can be read. */
  lemma FirstErrorBefore(m: Solution, asInt: bool)
    requires FirstError(m, asInt).Some?
    ensures var e := FirstError(m, asInt).value;
            forall r, c :: 0 <= r < 9 && 0 <= c < 9 && 9 * r + c < 9 * e.row + e.col ==>
              CellFault(m, r, c, asInt).None?
  {
    var row := FaultRow(m, asInt, 0);
    var col := RowFault(m, asInt, row, 0);
    FaultRowScan(m, asInt, 0);
    RowFaultScan(m, asInt, row, 0);
    var e := CellFault(m, row, col, asInt);
    assert e.value.row == row && e.value.col == col;
    forall r, c | 0 <= r < 9 && 0 <= c < 9 && 9 * r + c < 9 * row + col
      ensures CellFault(m, r, c, asInt).None?
    {
      assert r < row || (r == row && c < col);
    }
  }
}
