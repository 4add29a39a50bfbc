/** `parse_FEN` of the viewer: the piece-placement field of a board, written as
  * in Forsyth-Edwards Notation (section 16.1.3.1 of the PGN Standard) with the
  * extended piece letters, split at `/` into rows of cells. An empty square is
  * the cell `'1'`; a digit `d` stands for `d` empty squares. */
module FenRows {
  import opened Wrappers
  import JsText
  import Text

  /** The piece letters the viewer draws: white upper case, black lower case. */
  const PieceLetters: string := "BCDKNPSQRUWYbcdknpsqruwy"

  /** A cell of a parsed row: the empty-square marker or a piece letter. */
  predicate IsCell(ch: char)
  {
    ch == '1' || ch in PieceLetters
  }

  /** `isNaN(ch)` for a one-character string: digits read as their value and
    * white space as 0; everything else is not a number. */
  predicate IsNaN(ch: char)
  {
    !Text.IsDigit(ch) && !JsText.IsSpace(ch)
  }

  function Ones(n: nat): (r: seq<char>)
    ensures |r| == n
    ensures forall i :: 0 <= i < n ==> r[i] == '1'
  {
    seq(n, i requires 0 <= i < n => '1')
  }

  /** What one character of a row contributes. A digit gives that many empty
    * squares; a white-space character reads as a number but `parseInt` makes it
    * `NaN`, and `Array(NaN)` throws a range error. */
  function Expand(ch: char): (r: Result<seq<char>>)
  {
    if IsNaN(ch) then
      if ch in PieceLetters then Ok([ch]) else Err("Invalid FEN format: invalid piece:" + [ch])
    else if Text.IsDigit(ch) then Ok(Ones(Text.DigitValue(ch)))
    else Err("Invalid array length")
  }

  /** `p` put in front of a successful result; an error passes through. */
  function Prepend<T>(p: seq<T>, r: Result<seq<T>>): Result<seq<T>>
  {
    match r
    case Err(e) => Err(e)
    case Ok(s) => Ok(p + s)
  }

  lemma PrependTwice<T>(p: seq<T>, q: seq<T>, r: Result<seq<T>>)
    ensures Prepend(p, Prepend(q, r)) == Prepend(p + q, r)
  {
    if r.Ok? {
      assert p + (q + r.value) == (p + q) + r.value;
    }
  }

  lemma PrependNothing<T>(r: Result<seq<T>>)
    ensures Prepend([], r) == r
  {
    if r.Ok? {
      assert [] + r.value == r.value;
    }
  }

  /** A piece letter is neither a digit nor white space, so it is read as a piece. */
  lemma PieceLetterExpands(ch: char)
    requires ch in PieceLetters
    ensures Expand(ch) == Ok([ch])
  {
    PieceLetterRange(ch);
    assert IsNaN(ch);
  }

  lemma PieceLetterRange(ch: char)
    requires ch in PieceLetters
    ensures 'B' <= ch <= 'y'
  {
  }

  /** The cells of a row read left to right; the first bad character stops it. */
  function RowCells(row: string): (r: Result<seq<char>>)
  {
    if row == [] then Ok([])
    else
      match Expand(row[0])
      case Err(e) => Err(e)
      case Ok(more) => Prepend(more, RowCells(row[1..]))
  }

  /** One row with its width check. */
  function ParsedRow(row: string, width: int): (r: Result<seq<char>>)
  {
    match RowCells(row)
    case Err(e) => Err(e)
    case Ok(cells) =>
      if |cells| != width then
        Err("Invalid FEN format: each row must have exactly " + Text.IntToString(width) + " squares. " + row)
      else Ok(cells)
  }

  /** The rows in order; the first failing row gives the error. */
  function ParsedRows(rows: seq<string>, width: int): (r: Result<seq<seq<char>>>)
  {
    if rows == [] then Ok([])
    else
      match ParsedRow(rows[0], width)
      case Err(e) => Err(e)
      case Ok(cells) => Prepend([cells], ParsedRows(rows[1..], width))
  }

  /** The whole field, expecting `rowCount` rows of `width` cells. */
  function Fen(fen: string, rowCount: int, width: int): (r: Result<seq<seq<char>>>)
  {
    var rows := JsText.Split(fen, '/');
    if |rows| != rowCount then
      Err("Invalid FEN format: input must have exactly " + Text.IntToString(rowCount) + " rows.")
    else ParsedRows(rows, width)
  }

  /** The loop building one row: `parsedRow` grows character by character. */
  method ParseRow(row: string, width: int) returns (r: Result<seq<char>>)
    ensures r == ParsedRow(row, width)
  {
    var parsedRow: seq<char> := [];
    var i := 0;
    assert row[0..] == row;
    PrependNothing(RowCells(row));
    while i < |row|
      invariant 0 <= i <= |row|
      invariant RowCells(row) == Prepend(parsedRow, RowCells(row[i..]))
    {
      var ch := row[i];
      assert row[i..][1..] == row[i + 1..];
      PrependTwice(parsedRow, [ch], RowCells(row[i + 1..]));
      PrependTwice(parsedRow, Ones(Text.DigitValue(if Text.IsDigit(ch) then ch else '0')), RowCells(row[i + 1..]));
      if IsNaN(ch) {
        if ch in PieceLetters {
          parsedRow := parsedRow + [ch];
        } else {
          return Err("Invalid FEN format: invalid piece:" + [ch]);
        }
      } else if Text.IsDigit(ch) {
        parsedRow := parsedRow + Ones(Text.DigitValue(ch));
      } else {
        return Err("Invalid array length");
      }
      i := i + 1;
    }
    assert parsedRow + [] == parsedRow;
    if |parsedRow| != width {
      return Err("Invalid FEN format: each row must have exactly " + Text.IntToString(width) + " squares. " + row);
    }
    return Ok(parsedRow);
  }

  /** `rows.map(...)` over the split field, after the row-count check. */
  method ParseBoard(fen: string, rowCount: int, width: int) returns (r: Result<seq<seq<char>>>)
    ensures r == Fen(fen, rowCount, width)
  {
    var rows := JsText.Split(fen, '/');
    if |rows| != rowCount {
      return Err("Invalid FEN format: input must have exactly " + Text.IntToString(rowCount) + " rows.");
    }
    var parsed: seq<seq<char>> := [];
    var i := 0;
    assert rows[0..] == rows;
    PrependNothing(ParsedRows(rows, width));
    while i < |rows|
      invariant 0 <= i <= |rows|
      invariant ParsedRows(rows, width) == Prepend(parsed, ParsedRows(rows[i..], width))
    {
      assert rows[i..][1..] == rows[i + 1..];
      var row := ParseRow(rows[i], width);
      if row.Err? {
        return Err(row.error);
      }
      PrependTwice(parsed, [row.value], ParsedRows(rows[i + 1..], width));
      parsed := parsed + [row.value];
      i := i + 1;
    }
    assert parsed + [] == parsed;
    return Ok(parsed);
  }

  /** `parse_FEN` as written: it expects `boardLengthX` rows of `boardLengthY` cells. */
  method ParseFenAsWritten(fen: string, boardLengthX: int, boardLengthY: int) returns (r: Result<seq<seq<char>>>)
    ensures r == Fen(fen, boardLengthX, boardLengthY)
  {
    r := ParseBoard(fen, boardLengthX, boardLengthY);
  }

  /** `parse_FEN` as its caller reads it: `boardLengthY` rows (ranks) of
    * `boardLengthX` cells (files). */
  method ParseFen(fen: string, boardLengthX: int, boardLengthY: int) returns (r: Result<seq<seq<char>>>)
    ensures r == Fen(fen, boardLengthY, boardLengthX)
  {
    r := ParseBoard(fen, boardLengthY, boardLengthX);
  }

  /** The shape the board drawer indexes: `parsedBoard[row][col]` for every
    * `row < boardLengthY` and `col < boardLengthX`. */
  ghost predicate Drawable(board: seq<seq<char>>, boardLengthX: int, boardLengthY: int)
  {
    |board| == boardLengthY && forall r :: 0 <= r < |board| ==> |board[r]| == boardLengthX
  }

  /** Every cell a row yields is `'1'` or a piece letter, and a row is accepted
    * exactly when its cells number `width`. */
  lemma {:induction false} RowCellsAreCells(row: string)
    ensures RowCells(row).Ok? ==> forall i :: 0 <= i < |RowCells(row).value| ==> IsCell(RowCells(row).value[i])
    decreases |row|
  {
    if row != [] {
      RowCellsAreCells(row[1..]);
    }
  }

  /** Each row of a parsed board has exactly `width` cells, all of them cells,
    * and there are exactly `rowCount` rows. */
  lemma {:induction false} ParsedRowsShape(rows: seq<string>, width: int)
    ensures ParsedRows(rows, width).Ok? ==>
      |ParsedRows(rows, width).value| == |rows|
      && forall r :: 0 <= r < |rows| ==> (
        |ParsedRows(rows, width).value[r]| == width
        && RowCells(rows[r]) == Ok(ParsedRows(rows, width).value[r]))
    decreases |rows|
  {
    if rows != [] && ParsedRows(rows, width).Ok? {
      ParsedRowsShape(rows[1..], width);
      var b := ParsedRows(rows, width).value;
      assert b[1..] == ParsedRows(rows[1..], width).value;
      forall r | 1 <= r < |rows|
        ensures |b[r]| == width && RowCells(rows[r]) == Ok(b[r])
      {
        assert b[r] == b[1..][r - 1] && rows[r] == rows[1..][r - 1];
      }
    }
  }

  /** A parsed board has the requested number of rows, each of the requested
    * width, made of cells only; the rows are those of the text in order. */
  lemma FenShape(fen: string, rowCount: int, width: int)
    ensures Fen(fen, rowCount, width).Ok? ==>
      var b := Fen(fen, rowCount, width).value;
      |b| == rowCount
      && forall r :: 0 <= r < |b| ==> (
        |b[r]| == width
        && (forall k :: 0 <= k < |b[r]| ==> IsCell(b[r][k]))
        && RowCells(JsText.Split(fen, '/')[r]) == Ok(b[r]))
  {
    var rows := JsText.Split(fen, '/');
    if Fen(fen, rowCount, width).Ok? {
      ParsedRowsShape(rows, width);
      forall r | 0 <= r < |rows| ensures forall k :: 0 <= k < |Fen(fen, rowCount, width).value[r]| ==> IsCell(Fen(fen, rowCount, width).value[r][k]) {
        RowCellsAreCells(rows[r]);
      }
    }
  }

  /** A row of cells read as text parses back to itself: `'1'` is one empty square. */
  lemma {:induction false} RowCellsOfCells(cells: seq<char>)
    requires forall i :: 0 <= i < |cells| ==> IsCell(cells[i])
    ensures RowCells(cells) == Ok(cells)
    decreases |cells|
  {
    if cells != [] {
      RowCellsOfCells(cells[1..]);
      if cells[0] == '1' {
        assert Ones(1) == ['1'];
      } else {
        PieceLetterExpands(cells[0]);
      }
      assert [cells[0]] + cells[1..] == cells;
    }
  }

  lemma {:induction false} ParsedRowsOfCells(board: seq<seq<char>>, width: int)
    requires forall r :: 0 <= r < |board| ==> |board[r]| == width
    requires forall r, k :: 0 <= r < |board| && 0 <= k < |board[r]| ==> IsCell(board[r][k])
    ensures ParsedRows(board, width) == Ok(board)
    decreases |board|
  {
    if board != [] {
      ParsedRowsOfCells(board[1..], width);
      RowCellsOfCells(board[0]);
      assert [board[0]] + board[1..] == board;
    }
  }

  /** Writing a board's rows as text, separated by `/`, and parsing it gives
    * the board back. */
  lemma FenRoundTrip(board: seq<seq<char>>, rowCount: int, width: int)
    requires |board| == rowCount >= 1
    requires forall r :: 0 <= r < |board| ==> |board[r]| == width
    requires forall r, k :: 0 <= r < |board| && 0 <= k < |board[r]| ==> IsCell(board[r][k])
    ensures Fen(JsText.JoinWith(board, '/'), rowCount, width) == Ok(board)
  {
    assert forall r :: 0 <= r < |board| ==> '/' !in board[r];
    JsText.SplitJoin(board, '/');
    ParsedRowsOfCells(board, width);
  }

  /** Whatever the board size, what `ParseFen` accepts is what the drawer indexes. */
  lemma ParseFenDrawable(fen: string, boardLengthX: int, boardLengthY: int)
    ensures Fen(fen, boardLengthY, boardLengthX).Ok? ==>
      Drawable(Fen(fen, boardLengthY, boardLengthX).value, boardLengthX, boardLengthY)
  {
    FenShape(fen, boardLengthY, boardLengthX);
  }

  /** As written, on a board 2 files wide and 3 ranks high, a well-formed
    * 3-rank field is rejected, and a 2-rank field 3 wide is accepted although
    * the drawer then reads a third row that is not there. */
  lemma ParseFenAsWrittenWrongShape()
    ensures Fen("11/11/11", 2, 3).Err?
    ensures Fen("111/111", 2, 3).Ok?
    ensures !Drawable(Fen("111/111", 2, 3).value, 2, 3)
    ensures Fen("11/11/11", 3, 2).Ok?
  {
    assert JsText.JoinWith(["11", "11", "11"], '/') == "11/11/11";
    assert JsText.JoinWith(["111", "111"], '/') == "111/111";
    FenRoundTrip(["11", "11", "11"], 3, 2);
    FenRoundTrip(["111", "111"], 2, 3);
  }
}
