/** `bb_to_string`: a bitboard as its 16-digit hexadecimal value on one line,
  * then the board drawn rank 8 first, one `1 ` or `. ` per square from the
  * a-file to the h-file, each rank ended by a newline. */
module BoardText {
  import opened Bitboard

  /** Lower-case hexadecimal digit, as `std::hex` prints it. */
  function HexDigit(v: int): (ch: char)
    requires 0 <= v < 16
  {
    "0123456789abcdef"[v]
  }

  /** The value of a lower-case hexadecimal digit. */
  function HexValue(ch: char): (v: int)
    ensures 0 <= v < 16
  {
    if '0' <= ch <= '9' then ch as int - '0' as int
    else if 'a' <= ch <= 'f' then ch as int - 'a' as int + 10
    else 0
  }

  lemma HexValueOfDigit(v: int)
    requires 0 <= v < 16
    ensures HexValue(HexDigit(v)) == v
  {
  }

  function Bit(flag: bool): int { if flag then 1 else 0 }

  /** Nibble `j` of the value: bits `4j` to `4j + 3`. */
  function Nibble(b: Bitboard, j: int): (v: int)
    requires 0 <= j < 16
    ensures 0 <= v < 16
  {
    Bit(b[4 * j]) + 2 * Bit(b[4 * j + 1]) + 4 * Bit(b[4 * j + 2]) + 8 * Bit(b[4 * j + 3])
  }

  /** `std::setw(16) << std::setfill('0') << std::hex`: sixteen digits, the most
    * significant nibble first, zero-padded. */
  function HexText(b: Bitboard): (s: string)
  {
    seq(16, k requires 0 <= k < 16 => HexDigit(Nibble(b, 15 - k)))
  }

  /** One square: `1 ` when its bit is set, `. ` otherwise. */
  function Cell(b: Bitboard, x: int, y: int): (s: string)
    requires 0 <= x < 8 && 0 <= y < 8
  {
    if b[Pos(x, y)] then "1 " else ". "
  }

  /** The first `n` squares of rank `y`, from the a-file on. */
  function RowText(b: Bitboard, y: int, n: int): (s: string)
    requires 0 <= y < 8 && 0 <= n <= 8
    ensures |s| == 2 * n
  {
    if n == 0 then [] else RowText(b, y, n - 1) + Cell(b, n - 1, y)
  }

  /** The first `m` ranks drawn, from rank 8 down, each ended by a newline. */
  function Rows(b: Bitboard, m: int): (s: string)
    requires 0 <= m <= 8
    ensures |s| == 17 * m
  {
    if m == 0 then [] else Rows(b, m - 1) + RowText(b, 8 - m, 8) + "\n"
  }

  function BoardString(b: Bitboard): string
  {
    "0x" + HexText(b) + "\n" + Rows(b, 8)
  }

  /** `bb_to_string`, with the stream writes of the two nested loops. */
  method BbToString(bb: Bitboard) returns (s: string)
    ensures s == BoardString(bb)
  {
    var head := "0x" + HexText(bb) + "\n";
    s := head;
    var y := BoardLength - 1;
    while y >= 0
      invariant -1 <= y <= 7
      invariant s == head + Rows(bb, 7 - y)
    {
      s := WriteRank(bb, y, s);
      RowsStep(bb, head, 8 - y);
      y := y - 1;
    }
  }

  /** The inner loop of `bb_to_string` and its newline: rank `y` appended. */
  method WriteRank(bb: Bitboard, y: int, s0: string) returns (s: string)
    requires 0 <= y < 8
    ensures s == s0 + RowText(bb, y, 8) + "\n"
  {
    s := s0;
    var x := 0;
    while x < BoardLength
      invariant 0 <= x <= 8
      invariant s == s0 + RowText(bb, y, x)
    {
      s := s + (if bb[Pos(x, y)] then "1 " else ". ");
      x := x + 1;
    }
    s := s + "\n";
  }

  /** One more rank drawn after the first `m - 1`. */
  lemma RowsStep(bb: Bitboard, head: string, m: int)
    requires 1 <= m <= 8
    ensures head + Rows(bb, m - 1) + RowText(bb, 8 - m, 8) + "\n" == head + Rows(bb, m)
  {
  }

  /** Square `x` of a drawn rank is `1` or `.` after its bit, followed by a space. */
  lemma {:induction false} RowTextCell(b: Bitboard, y: int, n: int, x: int)
    requires 0 <= y < 8 && 0 <= x < n <= 8
    ensures RowText(b, y, n)[2 * x] == (if Has(b, x, y) then '1' else '.')
    ensures RowText(b, y, n)[2 * x + 1] == ' '
    decreases n
  {
    if x < n - 1 {
      RowTextCell(b, y, n - 1, x);
    }
  }

  /** Character `k` of drawn line `r` (rank `7 - r`). */
  lemma {:induction false} RowsChar(b: Bitboard, m: int, r: int, k: int)
    requires 0 <= r < m <= 8 && 0 <= k < 17
    ensures Rows(b, m)[17 * r + k] == (RowText(b, 7 - r, 8) + "\n")[k]
    decreases m
  {
    if r < m - 1 {
      RowsChar(b, m - 1, r, k);
    }
  }

  /** The text is 155 characters: `0x`, sixteen digits, a newline and eight lines of 17. */
  lemma BoardStringLength(b: Bitboard)
    ensures |BoardString(b)| == 155
  {
  }

  /** Square `(x, y)` is drawn at column `2x` of line `7 - y` below the value:
    * `1` exactly when the board holds it. */
  lemma BoardStringSquare(b: Bitboard, x: int, y: int)
    requires OnBoard(x, y)
    ensures BoardString(b)[19 + 17 * (7 - y) + 2 * x] == (if Has(b, x, y) then '1' else '.')
    ensures BoardString(b)[19 + 17 * (7 - y) + 2 * x + 1] == ' '
  {
    RowsChar(b, 8, 7 - y, 2 * x);
    RowsChar(b, 8, 7 - y, 2 * x + 1);
    RowTextCell(b, y, 8, x);
  }

  /** Every line of the drawing ends with a newline. */
  lemma BoardStringLineEnds(b: Bitboard, r: int)
    requires 0 <= r < 8
    ensures BoardString(b)[19 + 17 * r + 16] == '\n'
  {
    RowsChar(b, 8, r, 16);
  }

  /** Digit `15 - j` of the value line is nibble `j` of the board. */
  lemma HexTextNibble(b: Bitboard, j: int)
    requires 0 <= j < 16
    ensures HexValue(BoardString(b)[17 - j]) == Nibble(b, j)
  {
    assert BoardString(b)[17 - j] == HexText(b)[15 - j];
    HexValueOfDigit(Nibble(b, j));
  }

  /** Different boards print differently: the drawing alone determines the board. */
  lemma BoardStringInjective(a: Bitboard, b: Bitboard)
    requires BoardString(a) == BoardString(b)
    ensures a == b
  {
    forall x, y | OnBoard(x, y)
      ensures Has(a, x, y) <==> Has(b, x, y)
    {
      BoardStringSquare(a, x, y);
      BoardStringSquare(b, x, y);
    }
    SameSquares(a, b);
  }
}
