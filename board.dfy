/**
 * Reading a puzzle file: each line is passed through Python's `str.strip()`,
 * and cell (row, col) is the character `board[row][col]`. Cells are named
 * `'%d-%d' % (row, col)`.
 */
module Board {
  import opened Wrappers

  /** Python's `str.isspace()` for one character (bidi classes WS, B, S and category Zs). */
  predicate IsSpace(ch: char) {
    var n := ch as int;
    n == 0x20 || 0x09 <= n <= 0x0d || 0x1c <= n <= 0x1f || n == 0x85 || n == 0xa0
    || n == 0x1680 || 0x2000 <= n <= 0x200a || n == 0x2028 || n == 0x2029
    || n == 0x202f || n == 0x205f || n == 0x3000
  }

  /**
   * The characters a strip removes. `str.strip()` removes every `str.isspace()`
   * character. `int()` skips only C's six ASCII blanks and the non-ASCII
   * `str.isspace()` characters, so it does not skip 0x1c-0x1f.
   */
  datatype Blanks = StrBlanks | IntBlanks

  predicate IsBlank(kind: Blanks, ch: char) {
    if kind.StrBlanks? then IsSpace(ch)
    else ch == ' ' || '\t' <= ch <= '\r' || (ch as int >= 0x80 && IsSpace(ch))
  }

  /** Drops leading blanks. */
  function TrimLeft(kind: Blanks, s: string): (r: string)
    ensures |r| <= |s|
    ensures r != [] ==> !IsBlank(kind, r[0])
  {
    if s != [] && IsBlank(kind, s[0]) then TrimLeft(kind, s[1..]) else s
  }

  /** TrimLeft removes a prefix made only of blanks. */
  lemma {:induction false} TrimLeftRemovesSpace(kind: Blanks, s: string)
    ensures TrimLeft(kind, s) == s[|s| - |TrimLeft(kind, s)|..]
    ensures forall k :: 0 <= k < |s| - |TrimLeft(kind, s)| ==> IsBlank(kind, s[k])
  {
    if s != [] && IsBlank(kind, s[0]) {
      TrimLeftRemovesSpace(kind, s[1..]);
    }
  }

  /** Drops trailing blanks. */
  function TrimRight(kind: Blanks, s: string): (r: string)
    ensures |r| <= |s|
    ensures r != [] ==> !IsBlank(kind, r[|r| - 1])
  {
    if s != [] && IsBlank(kind, s[|s| - 1]) then TrimRight(kind, s[..|s| - 1]) else s
  }

  /** TrimRight removes a suffix made only of blanks. */
  lemma {:induction false} TrimRightRemovesSpace(kind: Blanks, s: string)
    ensures TrimRight(kind, s) == s[..|TrimRight(kind, s)|]
    ensures forall k :: |TrimRight(kind, s)| <= k < |s| ==> IsBlank(kind, s[k])
  {
    if s != [] && IsBlank(kind, s[|s| - 1]) {
      TrimRightRemovesSpace(kind, s[..|s| - 1]);
    }
  }

  /** Python's `str.strip()` with no argument (for `StrBlanks`), or the blanks `int()` skips (for `IntBlanks`). */
  function Strip(kind: Blanks, s: string): (r: string)
    ensures |r| <= |s|
    ensures r == [] || (!IsBlank(kind, r[0]) && !IsBlank(kind, r[|r| - 1]))
  {
    var t := TrimLeft(kind, s);
    TrimRightRemovesSpace(kind, t);
    TrimRight(kind, t)
  }

  /**
   * Strip keeps one contiguous slice s[i..i + |Strip(kind, s)|] and everything it
   * removes on either side is blank.
   */
  lemma StripRemovesOnlySpace(kind: Blanks, s: string) returns (i: nat)
    ensures i + |Strip(kind, s)| <= |s| && Strip(kind, s) == s[i..i + |Strip(kind, s)|]
    ensures forall k :: 0 <= k < i ==> IsBlank(kind, s[k])
    ensures forall k :: i + |Strip(kind, s)| <= k < |s| ==> IsBlank(kind, s[k])
  {
    var t := TrimLeft(kind, s);
    TrimLeftRemovesSpace(kind, s);
    TrimRightRemovesSpace(kind, t);
    i := |s| - |t|;
  }

  /** A string that neither starts nor ends with a blank is its own strip. */
  lemma StripUnchanged(kind: Blanks, s: string)
    requires s == [] || (!IsBlank(kind, s[0]) && !IsBlank(kind, s[|s| - 1]))
    ensures Strip(kind, s) == s
  {
    assert TrimLeft(kind, s) == s;
    assert TrimRight(kind, s) == s;
  }

  /** Blanks in front of a string do not change what TrimLeft leaves. */
  lemma {:induction false} TrimLeftSkips(kind: Blanks, pre: string, x: string)
    requires forall k :: 0 <= k < |pre| ==> IsBlank(kind, pre[k])
    ensures TrimLeft(kind, pre + x) == TrimLeft(kind, x)
  {
    if pre == [] {
      assert pre + x == x;
    } else {
      assert (pre + x)[1..] == pre[1..] + x;
      TrimLeftSkips(kind, pre[1..], x);
    }
  }

  /** Blanks after a string do not change what TrimRight leaves. */
  lemma {:induction false} TrimRightSkips(kind: Blanks, x: string, post: string)
    requires forall k :: 0 <= k < |post| ==> IsBlank(kind, post[k])
    ensures TrimRight(kind, x + post) == TrimRight(kind, x)
  {
    if post == [] {
      assert x + post == x;
    } else {
      assert (x + post)[..|x + post| - 1] == x + post[..|post| - 1];
      TrimRightSkips(kind, x, post[..|post| - 1]);
    }
  }

  /** Once a non-blank character is reached, TrimLeft keeps everything after it. */
  lemma {:induction false} TrimLeftAppend(kind: Blanks, x: string, post: string)
    requires TrimLeft(kind, x) != []
    ensures TrimLeft(kind, x + post) == TrimLeft(kind, x) + post
  {
    if IsBlank(kind, x[0]) {
      assert (x + post)[1..] == x[1..] + post;
      TrimLeftAppend(kind, x[1..], post);
    }
  }

  /** Stripping ignores blanks added on either side. */
  lemma StripSkipsBlanks(kind: Blanks, pre: string, s: string, post: string)
    requires forall k :: 0 <= k < |pre| ==> IsBlank(kind, pre[k])
    requires forall k :: 0 <= k < |post| ==> IsBlank(kind, post[k])
    ensures Strip(kind, pre + s + post) == Strip(kind, s)
  {
    assert pre + s + post == pre + (s + post);
    TrimLeftSkips(kind, pre, s + post);
    if TrimLeft(kind, s) != [] {
      TrimLeftAppend(kind, s, post);
      TrimRightSkips(kind, TrimLeft(kind, s), post);
    } else {
      TrimLeftRemovesSpace(kind, s);
      TrimLeftSkips(kind, s, post);
      TrimLeftSkips(kind, post, []);
      assert post + [] == post;
    }
  }

  /** `list(map(lambda x: x.strip(), lines))` */
  function StripLines(lines: seq<string>): (board: seq<string>)
    ensures |board| == |lines|
    ensures forall i :: 0 <= i < |lines| ==> board[i] == Strip(StrBlanks, lines[i])
  {
    seq(|lines|, i requires 0 <= i < |lines| => Strip(StrBlanks, lines[i]))
  }

  /** Every index `board[row][col]` with `row, col < 9` is in range. */
  predicate WellShaped(board: seq<string>) {
    |board| >= 9 && forall row :: 0 <= row < 9 ==> |board[row]| >= 9
  }

  /**
   * The first (row, col), in the row-major order in which the encoder reads
   * the board, at which `board[row][col]` raises IndexError; None when it never does.
   */
  function FirstIndexError(board: seq<string>): (r: Option<(nat, nat)>)
    ensures r.None? <==> WellShaped(board)
    ensures r.Some? ==> r.value.0 < 9 && r.value.1 < 9
    ensures r.Some? ==> r.value.0 >= |board| || r.value.1 >= |board[r.value.0]|
    ensures r.Some? ==> forall k :: 0 <= k < 9 * r.value.0 + r.value.1 ==>
                          k / 9 < |board| && k % 9 < |board[k / 9]|
  {
    FirstIndexErrorFrom(board, 0)
  }

  function FirstIndexErrorFrom(board: seq<string>, row: nat): (r: Option<(nat, nat)>)
    requires row <= 9
    requires row <= |board| && forall i :: 0 <= i < row ==> |board[i]| >= 9
    ensures r.None? <==> WellShaped(board)
    ensures r.Some? ==> row <= r.value.0 < 9 && r.value.1 < 9
    ensures r.Some? ==> r.value.0 >= |board| || r.value.1 >= |board[r.value.0]|
    ensures r.Some? ==> forall k :: 0 <= k < 9 * r.value.0 + r.value.1 ==>
                          k / 9 < |board| && k % 9 < |board[k / 9]|
    decreases 9 - row
  {
    if row == 9 then None
    else if row == |board| then Some((row, 0))
    else if |board[row]| < 9 then Some((row, |board[row]|))
    else FirstIndexErrorFrom(board, row + 1)
  }

  /** Cell (row, col) is number 9 * row + col in row-major order. */
  lemma RowMajorIndex(row: nat, col: nat)
    requires row < 9 && col < 9
    ensures (9 * row + col) / 9 == row && (9 * row + col) % 9 == col
  {
  }

  /** The decimal digit character for `d`. */
  function DigitChar(d: nat): (ch: char)
    requires d < 10
    ensures '0' <= ch <= '9' && ch as int - '0' as int == d
  {
    ('0' as int + d) as char
  }

  /** Reads a name of the form "r-c" with single digits r, c below 9 back into its coordinates. */
  function ParseCellName(name: string): Option<(nat, nat)> {
    if |name| == 3 && name[1] == '-' && '0' <= name[0] <= '8' && '0' <= name[2] <= '8'
    then Some((name[0] as int - '0' as int, name[2] as int - '0' as int))
    else None
  }

  /** `'%d-%d' % (row, col)`: the name under which cell (row, col) is declared. */
  function CellName(row: nat, col: nat): (name: string)
    requires row < 9 && col < 9
  {
    [DigitChar(row), '-', DigitChar(col)]
  }

  /** A cell's name reads back as its coordinates, so distinct cells have distinct names. */
  lemma CellNameParses(row: nat, col: nat)
    requires row < 9 && col < 9
    ensures ParseCellName(CellName(row, col)) == Some((row, col))
  {
  }

  /** Every name the parser accepts is the name of the cell it denotes. */
  lemma ParsedNameIsCellName(name: string)
    requires ParseCellName(name).Some?
    ensures ParseCellName(name).value.0 < 9 && ParseCellName(name).value.1 < 9
    ensures CellName(ParseCellName(name).value.0, ParseCellName(name).value.1) == name
  {
    var (row, col) := ParseCellName(name).value;
    assert CellName(row, col)[0] == name[0];
    assert CellName(row, col)[2] == name[2];
  }
}
