/** The text inside a `[...]` metadata token of 5D PGN: either a header
  * `Key "value"` or, when it has no `"`, a starting board `fen:line:time:colour`. */
module PgnHeaders {
  import opened Wrappers
  import opened Text
  import opened PgnLexer
  import State
  import MultiverseBase
  import Action

  /* The texts of the errors `parse_game` throws on metadata. */
  const ExpectLine := "parse_game(): Expect line in board string:"
  const ExpectTime := "parse_game(): Expect time in board string:"
  const ExpectColour := "parse_game(): Expect color in board string:"
  const UnknownColour := "parse_game(): Unknown color:"
  const BoardTooLong := "parse_game(): Too many arguments in board string:"
  const ExpectSpace := "parse_game(): Expect space in header:"
  const ExpectQuote := "parse_game(): Expect '\"' in header:"
  const QuoteNotClosed := "parse_game(): '\"' not closed:"
  const HeaderTooLong := "parse_game(): Too many arguments in header:"
  const ExpectNumber := "parse_game(): Expect number after ':': "
  const DuplicateKey := "parse_game(): Duplicate header key: "

  /** `sign` is `Positive`, `Negative` or `Nil` (no sign before the line). */
  datatype BoardSpec = BoardSpec(fen: string, sign: Token, line: int, time: int, black: bool)

  datatype Header = Header(key: string, value: string)

  /** The headers (keys in lower case) and board strings read so far. */
  datatype Metadata = Metadata(headers: map<string, string>, boards: seq<BoardSpec>)

  /** The first index from `i` holding `c`, or the end; from past the end, `i`. */
  function ScanFor(s: string, i: nat, c: char): (r: nat)
    ensures i <= r
    ensures r == i || r <= |s|
    ensures forall k :: i <= k < r ==> s[k] != c
    ensures r < |s| ==> s[r] == c
    decreases |s| - i
  {
    if i >= |s| || s[i] == c then i else ScanFor(s, i + 1, c)
  }

  /** The first white-space index from `i` (as `isspace`), or the end. */
  function FindSpace(s: string, i: nat): (r: nat)
    requires i <= |s|
    ensures i <= r <= |s|
    ensures forall k :: i <= k < r ==> !IsCSpace(s[k])
    ensures r < |s| ==> IsCSpace(s[r])
    decreases |s| - i
  {
    if i == |s| || IsCSpace(s[i]) then i else FindSpace(s, i + 1)
  }

  /** `tolower` in the C locale. */
  function LowerChar(c: char): (r: char)
    ensures 'A' <= c <= 'Z' ==> r as int == c as int + 32
    ensures !('A' <= c <= 'Z') ==> r == c
  {
    if 'A' <= c <= 'Z' then (c as int + 32) as char else c
  }

  function Lower(s: string): (r: string)
    ensures |r| == |s|
    ensures forall i :: 0 <= i < |s| ==> r[i] == LowerChar(s[i])
  {
    seq(|s|, i requires 0 <= i < |s| => LowerChar(s[i]))
  }

  /** A key once lowered stays as it is. */
  lemma LowerIdempotent(s: string)
    ensures Lower(Lower(s)) == Lower(s)
  {
    assert forall i :: 0 <= i < |s| ==> LowerChar(LowerChar(s[i])) == LowerChar(s[i]);
  }

  /** What `stoi` reports when it finds no digit. */
  function NumberMessage(s: string): string
  {
    ExpectNumber + s + "\nstoi"
  }

  /** The `what()` of the `out_of_range` that `stoi` throws for a number
    * beyond `int`: only `invalid_argument` is caught and rethrown as a
    * `parse_error`, so this one leaves `parse_game` as it is. */
  const StoiOutOfRange := "stoi"

  /** The error a failed conversion of a board-string number gives. */
  function ConversionError(s: string, c: State.Conversion): string
    requires !c.Value?
  {
    if c.InvalidArgument? then NumberMessage(s) else StoiOutOfRange
  }

  function ColourOf(c: char): Option<bool>
  {
    if c == 'w' || c == 'W' then Some(false)
    else if c == 'b' || c == 'B' then Some(true)
    else None
  }

  /** A board string `fen:[+|-]line:time:colour`. */
  function BoardString(s: string): (r: Result<BoardSpec>)
  {
    var colon := ScanFor(s, 0, ':');
    var now := colon + 1;
    var sign := if At(s, now) == '+' then Positive else if At(s, now) == '-' then Negative else Nil;
    var prev := if sign == Nil then now else now + 1;
    var lineEnd := ScanFor(s, prev, ':');
    if lineEnd == |s| then Err(ExpectLine + s)
    else
      var line := State.Stoi(Slice(s, prev, lineEnd));
      if !line.Value? then Err(ConversionError(s, line))
      else BoardTime(s, s[..colon], sign, line.n, lineEnd)
  }

  /** The time and colour after the line's `:` at `lineEnd`. */
  function BoardTime(s: string, fen: string, sign: Token, line: int, lineEnd: nat): (r: Result<BoardSpec>)
    requires lineEnd < |s|
  {
    var timeEnd := ScanFor(s, lineEnd + 1, ':');
    if timeEnd == |s| then Err(ExpectTime + s)
    else
      var time := State.Stoi(s[lineEnd + 1..timeEnd]);
      if !time.Value? then Err(ConversionError(s, time))
      else BoardColour(s, fen, sign, line, time.n, timeEnd + 1)
  }

  /** The colour letter at `c`, which must end the board string. */
  function BoardColour(s: string, fen: string, sign: Token, line: int, time: int, c: nat): (r: Result<BoardSpec>)
    requires c <= |s|
  {
    if c == |s| then Err(ExpectColour + s)
    else if ColourOf(s[c]).None? then Err(UnknownColour + [s[c]] + " in " + s)
    else if c + 1 != |s| then Err(BoardTooLong + s)
    else Ok(BoardSpec(fen, sign, line, time, ColourOf(s[c]).value))
  }

  /** A header `Key "value"`: one white-space character after the key, and
    * the closing quote last. The key is lowered. */
  function HeaderString(s: string): (r: Result<Header>)
  {
    var now := FindSpace(s, 0);
    if now == |s| then Err(ExpectSpace + s)
    else if now + 1 == |s| || s[now + 1] != '"' then Err(ExpectQuote + s)
    else
      var close := ScanFor(s, now + 2, '"');
      if close == |s| then Err(QuoteNotClosed + s)
      else if close + 1 != |s| then Err(HeaderTooLong + s)
      else Ok(Header(Lower(s[..now]), s[now + 2..close]))
  }

  /** One metadata text: a header when it has a `"`, a board string otherwise;
    * a header key may appear once. */
  function AddMetadata(s: string, m: Metadata): (r: Result<Metadata>)
    ensures r.Ok? && '"' !in s ==>
              r.value.headers == m.headers && |r.value.boards| == |m.boards| + 1
              && r.value.boards[..|m.boards|] == m.boards
    ensures r.Ok? && '"' in s ==>
              r.value.boards == m.boards && |r.value.headers| == |m.headers| + 1
              && m.headers.Keys <= r.value.headers.Keys
    ensures r.Ok? && (forall k :: k in m.headers ==> Lower(k) == k) ==>
              forall k :: k in r.value.headers ==> Lower(k) == k
  {
    if '"' !in s then
      var b :- BoardString(s);
      Ok(m.(boards := m.boards + [b]))
    else
      var h :- HeaderString(s);
      LowerIdempotent(s[..FindSpace(s, 0)]);
      if h.key in m.headers then Err(DuplicateKey + h.key)
      else Ok(m.(headers := m.headers[h.key := h.value]))
  }

  /** A header key is found again, whatever its case. */
  lemma AddMetadataDuplicate(s: string, t: string, m: Metadata)
    requires AddMetadata(s, m).Ok? && '"' in s
    requires HeaderString(t).Ok? && '"' in t
    requires HeaderString(t).value.key == HeaderString(s).value.key
    ensures AddMetadata(t, AddMetadata(s, m).value).Err?
  {
  }

  function SignText(sign: Token): string
  {
    if sign == Positive then "+" else if sign == Negative then "-" else ""
  }

  /** The board string that reads back as `b`. */
  function ShowBoard(b: BoardSpec): string
  {
    b.fen + ":" + SignText(b.sign) + IntToString(b.line) + ":" + IntToString(b.time) + ":"
      + (if b.black then "b" else "w")
  }

  lemma {:induction false} ScanForAt(s: string, i: nat, c: char, k: nat)
    requires i <= k < |s| && s[k] == c
    requires forall m :: i <= m < k ==> s[m] != c
    ensures ScanFor(s, i, c) == k
    decreases k - i
  {
    if i < k {
      ScanForAt(s, i + 1, c, k);
    }
  }

  /** The positions of the parts of `fen:[sign]l:t:colour`. */
  /** `s` is laid out as `fen:[sign]l:t:colour`. */
  ghost predicate Laid(s: string, fen: string, sign: Token, l: string, t: string, black: bool)
  {
    var prev := |fen| + 1 + |SignText(sign)|;
    var lineEnd := prev + |l|;
    && |s| == lineEnd + |t| + 3 && s[..|fen|] == fen && s[|fen|] == ':'
    && (|SignText(sign)| == 1 ==> s[|fen| + 1] == SignText(sign)[0])
    && (forall m :: 0 <= m < |l| ==> s[prev + m] == l[m])
    && s[lineEnd] == ':'
    && (forall m :: 0 <= m < |t| ==> s[lineEnd + 1 + m] == t[m])
    && s[|s| - 2] == ':' && s[|s| - 1] == (if black then 'b' else 'w')
  }

  lemma BoardLayout(fen: string, sign: Token, l: string, t: string, black: bool)
    ensures Laid(fen + ":" + SignText(sign) + l + ":" + t + ":" + (if black then "b" else "w"), fen, sign, l, t, black)
  {
    var s := fen + ":" + SignText(sign) + l + ":" + t + ":" + (if black then "b" else "w");
    var head := fen + ":" + SignText(sign);
    var lineEnd := |head| + |l|;
    var tail := ":" + t + ":" + (if black then "b" else "w");
    assert s == head + l + tail;
    assert s[..|fen|] == fen;
    assert s[lineEnd..] == tail;
    forall m | 0 <= m < |t| ensures s[lineEnd + 1 + m] == t[m] {
      assert s[lineEnd + 1 + m] == tail[1 + m];
    }
  }

  /** Where the scans of `BoardString` stop in such a layout with colon-free parts. */
  lemma BoardScans(s: string, fen: string, sign: Token, l: string, t: string, black: bool, prev: nat, lineEnd: nat)
    requires ':' !in fen
    requires (forall m :: 0 <= m < |l| ==> l[m] != ':') && (forall m :: 0 <= m < |t| ==> t[m] != ':')
    requires prev == |fen| + 1 + |SignText(sign)| && lineEnd == prev + |l|
    requires Laid(s, fen, sign, l, t, black)
    ensures ScanFor(s, 0, ':') == |fen|
    ensures ScanFor(s, prev, ':') == lineEnd < |s|
    ensures Slice(s, prev, lineEnd) == l
    ensures ScanFor(s, lineEnd + 1, ':') == lineEnd + 1 + |t| == |s| - 2
    ensures s[lineEnd + 1..lineEnd + 1 + |t|] == t
  {
    forall m | 0 <= m < |fen| ensures s[0 + m] == fen[m] && fen[m] != ':' {
      assert s[m] == s[..|fen|][m];
    }
    ScanPart(s, 0, fen, ':');
    ScanPart(s, prev, l, ':');
    ScanPart(s, lineEnd + 1, t, ':');
  }

  /** The sign character after the first colon reads back as the sign written. */
  lemma BoardSign(s: string, fen: string, sign: Token, l: string, t: string, black: bool)
    requires sign == Positive || sign == Negative || sign == Nil
    requires |l| >= 1 && (sign == Nil ==> l[0] != '+' && l[0] != '-')
    requires Laid(s, fen, sign, l, t, black)
    ensures sign == (if At(s, |fen| + 1) == '+' then Positive else if At(s, |fen| + 1) == '-' then Negative else Nil)
  {
    if sign == Nil {
      assert s[|fen| + 1 + 0] == l[0];
    }
  }

  /** The scan for `c` from `i` stops right after `part` when `c` follows it. */
  lemma ScanPart(s: string, i: nat, part: string, c: char)
    requires i + |part| < |s| && s[i + |part|] == c
    requires forall m :: 0 <= m < |part| ==> s[i + m] == part[m] && part[m] != c
    ensures ScanFor(s, i, c) == i + |part|
    ensures s[i..i + |part|] == part
  {
    forall m | i <= m < i + |part| ensures s[m] != c {
      assert s[i + (m - i)] == part[m - i];
    }
    ScanForAt(s, i, c, i + |part|);
    assert forall m :: 0 <= m < |part| ==> s[i..i + |part|][m] == part[m];
  }

  /** `BoardString` once its scans are known: the board of the two numbers read. */
  lemma BoardFields(s: string, colon: nat, sign: Token, prev: nat, lineEnd: nat, timeEnd: nat,
                    l: string, t: string, line: int, time: int, black: bool)
    requires ScanFor(s, 0, ':') == colon <= |s|
    requires sign == (if At(s, colon + 1) == '+' then Positive else if At(s, colon + 1) == '-' then Negative else Nil)
    requires prev == (if sign == Nil then colon + 1 else colon + 2)
    requires ScanFor(s, prev, ':') == lineEnd < |s|
    requires Slice(s, prev, lineEnd) == l && State.Stoi(l) == State.Value(line)
    requires ScanFor(s, lineEnd + 1, ':') == timeEnd == |s| - 2
    requires s[lineEnd + 1..timeEnd] == t && State.Stoi(t) == State.Value(time)
    requires s[|s| - 1] == (if black then 'b' else 'w')
    ensures BoardString(s) == Ok(BoardSpec(s[..colon], sign, line, time, black))
  {
    BoardStringRead(s, colon, sign, prev, lineEnd, State.Value(line));
    BoardTimeFields(s, s[..colon], sign, line, lineEnd, timeEnd, time, black);
  }

  /** The time part once its scan and number are known. */
  lemma BoardTimeFields(s: string, fen: string, sign: Token, line: int, lineEnd: nat, timeEnd: nat,
                        time: int, black: bool)
    requires lineEnd < |s|
    requires ScanFor(s, lineEnd + 1, ':') == timeEnd == |s| - 2
    requires State.Stoi(s[lineEnd + 1..timeEnd]) == State.Value(time)
    requires s[|s| - 1] == (if black then 'b' else 'w')
    ensures BoardTime(s, fen, sign, line, lineEnd) == Ok(BoardSpec(fen, sign, line, time, black))
  {
    BoardTimeRead(s, fen, sign, line, lineEnd, timeEnd, State.Value(time));
  }

  /** `std::to_string` prints digits after an optional `-`. */
  lemma IntToStringChars(n: int)
    ensures forall m :: 0 <= m < |IntToString(n)| ==> IntToString(n)[m] == '-' || IsDigit(IntToString(n)[m])
    ensures n >= 0 ==> IsDigit(IntToString(n)[0])
  {
    if n < 0 {
      assert IntToString(n) == "-" + NatToString(-n);
    } else {
      assert IntToString(n) == NatToString(n);
    }
  }

  /** A board string laid out from colon-free parts whose numbers read back
    * as `line` and `time` reads back as that board. */
  lemma BoardReads(fen: string, sign: Token, l: string, t: string, line: int, time: int, black: bool)
    requires ':' !in fen
    requires sign == Positive || sign == Negative || sign == Nil
    requires |l| >= 1 && (sign == Nil ==> l[0] != '+' && l[0] != '-')
    requires (forall m :: 0 <= m < |l| ==> l[m] != ':') && (forall m :: 0 <= m < |t| ==> t[m] != ':')
    requires State.Stoi(l) == State.Value(line) && State.Stoi(t) == State.Value(time)
    ensures BoardString(fen + ":" + SignText(sign) + l + ":" + t + ":" + (if black then "b" else "w"))
         == Ok(BoardSpec(fen, sign, line, time, black))
  {
    BoardLayout(fen, sign, l, t, black);
    BoardReadsAt(fen + ":" + SignText(sign) + l + ":" + t + ":" + (if black then "b" else "w"),
                 fen, sign, l, t, line, time, black);
  }

  /** `BoardReads` on a string known only through its layout. */
  lemma BoardReadsAt(s: string, fen: string, sign: Token, l: string, t: string, line: int, time: int, black: bool)
    requires ':' !in fen
    requires sign == Positive || sign == Negative || sign == Nil
    requires |l| >= 1 && (sign == Nil ==> l[0] != '+' && l[0] != '-')
    requires (forall m :: 0 <= m < |l| ==> l[m] != ':') && (forall m :: 0 <= m < |t| ==> t[m] != ':')
    requires State.Stoi(l) == State.Value(line) && State.Stoi(t) == State.Value(time)
    requires Laid(s, fen, sign, l, t, black)
    ensures BoardString(s) == Ok(BoardSpec(fen, sign, line, time, black))
  {
    var prev := |fen| + 1 + |SignText(sign)|;
    var lineEnd := prev + |l|;
    BoardSign(s, fen, sign, l, t, black);
    BoardScans(s, fen, sign, l, t, black, prev, lineEnd);
    LaidEnds(s, fen, sign, l, t, black);
    BoardFields(s, |fen|, sign, prev, lineEnd, lineEnd + 1 + |t|, l, t, line, time, black);
  }

  /** The FEN and the colour letter of a laid-out string. */
  lemma LaidEnds(s: string, fen: string, sign: Token, l: string, t: string, black: bool)
    requires Laid(s, fen, sign, l, t, black)
    ensures |fen| <= |s| && s[..|fen|] == fen && s[|s| - 1] == (if black then 'b' else 'w')
  {
  }

  /** Every board with a colon-free FEN, a known sign and no doubled sign
    * reads back from its board string. */
  lemma BoardStringRoundTrip(b: BoardSpec)
    requires ':' !in b.fen
    requires b.sign == Positive || b.sign == Negative || b.sign == Nil
    requires b.sign == Nil ==> b.line >= 0
    requires MultiverseBase.IntMin <= b.line <= MultiverseBase.IntMax
    requires MultiverseBase.IntMin <= b.time <= MultiverseBase.IntMax
    ensures BoardString(ShowBoard(b)) == Ok(b)
  {
    IntToStringChars(b.line);
    IntToStringChars(b.time);
    StoiReadsBack(b.line);
    StoiReadsBack(b.time);
    BoardReads(b.fen, b.sign, IntToString(b.line), IntToString(b.time), b.line, b.time, b.black);
  }

  /** `stoi` reads back any `int` printed in decimal. */
  lemma StoiReadsBack(n: int)
    requires MultiverseBase.IntMin <= n <= MultiverseBase.IntMax
    ensures State.Stoi(IntToString(n)) == State.Value(n)
  {
    State.StoiShow(n, []);
    assert IntToString(n) + [] == IntToString(n);
  }

  /** A number beyond `int` in decimal is out of range for `stoi`. */
  lemma StoiBeyondInt(n: int)
    requires n > MultiverseBase.IntMax
    ensures State.Stoi(IntToString(n)) == State.OutOfRange
  {
    var l := IntToString(n);
    assert l == NatToString(n);
    Action.ReadDigitsShow(n, []);
    assert l + [] == l;
    State.SkipNoSpace(l);
  }

  /** `BoardString` once the line text is scanned and converted: the error
    * of its conversion, or the time part. */
  lemma BoardStringRead(s: string, colon: nat, sign: Token, prev: nat, lineEnd: nat, line: State.Conversion)
    requires ScanFor(s, 0, ':') == colon <= |s|
    requires sign == (if At(s, colon + 1) == '+' then Positive else if At(s, colon + 1) == '-' then Negative else Nil)
    requires prev == (if sign == Nil then colon + 1 else colon + 2)
    requires ScanFor(s, prev, ':') == lineEnd != |s|
    requires line == State.Stoi(Slice(s, prev, lineEnd))
    ensures line.Value? ==> lineEnd < |s|
    ensures BoardString(s)
         == if !line.Value? then Err(ConversionError(s, line)) else BoardTime(s, s[..colon], sign, line.n, lineEnd)
  {
    if lineEnd > |s| {
      assert Slice(s, prev, lineEnd) == [];
      State.StoiNeedsDigit([]);
    }
  }

  /** A line number beyond `int` fails the whole board string with the
    * `out_of_range` of `stoi`, not with a `parse_error`. */
  lemma BoardStringLineOutOfRange(fen: string, n: int)
    requires ':' !in fen
    requires n > MultiverseBase.IntMax
    ensures BoardString(fen + ":" + IntToString(n) + ":0:w") == Err(StoiOutOfRange)
  {
    var l := IntToString(n);
    var s := fen + ":" + SignText(Nil) + l + ":" + "0" + ":" + "w";
    assert s == fen + ":" + l + ":0:w";
    IntToStringChars(n);
    StoiBeyondInt(n);
    BoardLayout(fen, Nil, l, "0", false);
    BoardSign(s, fen, Nil, l, "0", false);
    BoardScans(s, fen, Nil, l, "0", false, |fen| + 1, |fen| + 1 + |l|);
    BoardStringRead(s, |fen|, Nil, |fen| + 1, |fen| + 1 + |l|, State.OutOfRange);
  }

  /** A board string is accepted only when it ends in a colour letter, and
    * black exactly when that letter is `b` or `B`. */
  lemma BoardStringColour(s: string)
    requires BoardString(s).Ok?
    ensures s[|s| - 1] in "wWbB"
    ensures BoardString(s).value.black <==> s[|s| - 1] in "bB"
  {
    var colon := ScanFor(s, 0, ':');
    var sign := if At(s, colon + 1) == '+' then Positive else if At(s, colon + 1) == '-' then Negative else Nil;
    var prev := if sign == Nil then colon + 1 else colon + 2;
    var lineEnd := ScanFor(s, prev, ':');
    var line := State.Stoi(Slice(s, prev, lineEnd));
    assert lineEnd < |s| && line.Value?;
    BoardStringRead(s, colon, sign, prev, lineEnd, line);
    BoardTimeColour(s, s[..colon], sign, line.n, lineEnd);
  }

  lemma BoardTimeColour(s: string, fen: string, sign: Token, line: int, lineEnd: nat)
    requires lineEnd < |s|
    requires BoardTime(s, fen, sign, line, lineEnd).Ok?
    ensures s[|s| - 1] in "wWbB"
    ensures BoardTime(s, fen, sign, line, lineEnd).value.black <==> s[|s| - 1] in "bB"
  {
    var timeEnd := ScanFor(s, lineEnd + 1, ':');
    var time := State.Stoi(s[lineEnd + 1..timeEnd]);
    assert timeEnd < |s| && time.Value?;
    assert BoardTime(s, fen, sign, line, lineEnd) == BoardColour(s, fen, sign, line, time.n, timeEnd + 1);
    BoardColourLetter(s, fen, sign, line, time.n, timeEnd + 1);
  }

  lemma BoardColourLetter(s: string, fen: string, sign: Token, line: int, time: int, c: nat)
    requires c <= |s|
    requires BoardColour(s, fen, sign, line, time, c).Ok?
    ensures s[|s| - 1] in "wWbB"
    ensures BoardColour(s, fen, sign, line, time, c).value.black <==> s[|s| - 1] in "bB"
  {
  }

  /** A space-free key and a quote-free value read back, the key lowered. */
  lemma HeaderRoundTrip(key: string, value: string)
    requires forall i :: 0 <= i < |key| ==> !IsCSpace(key[i])
    requires '"' !in value
    ensures HeaderString(key + " \"" + value + "\"") == Ok(Header(Lower(key), value))
  {
    var s := key + " \"" + value + "\"";
    var n := |key|;
    assert forall i :: 0 <= i < n ==> s[i] == key[i];
    assert s[n] == ' ' && s[n + 1] == '"';
    assert FindSpace(s, 0) == n;
    assert forall i :: 0 <= i < |value| ==> s[n + 2 + i] == value[i];
    ScanForAt(s, n + 2, '"', |s| - 1);
    assert s[..n] == key;
    assert s[n + 2..|s| - 1] == value;
  }

  /* The loops of `parse_game` that scan a metadata text. */

  /** The `saw_quote` loop. */
  method HasQuote(s: string) returns (saw: bool)
    ensures saw <==> '"' in s
  {
    saw := false;
    var i := 0;
    while i < |s|
      invariant 0 <= i <= |s|
      invariant '"' !in s[..i]
    {
      if s[i] == '"' {
        saw := true;
        return;
      }
      assert s[..i + 1] == s[..i] + [s[i]];
      i := i + 1;
    }
    assert s[..i] == s;
  }

  /** `next_colon`. */
  method NextColon(s: string, start: nat) returns (now: nat)
    ensures now == ScanFor(s, start, ':')
  {
    now := start;
    while now < |s| && s[now] != ':'
      invariant start <= now
      invariant now == start || now <= |s|
      invariant ScanFor(s, now, ':') == ScanFor(s, start, ':')
      decreases |s| - now
    {
      now := now + 1;
    }
  }

  /** The board-string branch of `parse_game`, up to the line number. */
  method ParseBoardString(s: string) returns (r: Result<BoardSpec>)
    ensures r == BoardString(s)
  {
    var colon := NextColon(s, 0);
    var fen := s[..colon];
    var now := colon + 1;
    var sign := Nil;
    if At(s, now) == '+' {
      sign := Positive;
      now := now + 1;
    } else if At(s, now) == '-' {
      sign := Negative;
      now := now + 1;
    }
    var prev := now;
    var lineEnd := NextColon(s, prev);
    if lineEnd == |s| {
      return Err(ExpectLine + s);
    }
    var line := State.Stoi(Slice(s, prev, lineEnd));
    BoardStringRead(s, colon, sign, prev, lineEnd, line);
    if !line.Value? {
      return Err(ConversionError(s, line));
    }
    r := ParseBoardTime(s, fen, sign, line.n, lineEnd);
  }

  /** The time and colour of a board string. */
  method ParseBoardTime(s: string, fen: string, sign: Token, line: int, lineEnd: nat) returns (r: Result<BoardSpec>)
    requires lineEnd < |s|
    ensures r == BoardTime(s, fen, sign, line, lineEnd)
  {
    var timeEnd := NextColon(s, lineEnd + 1);
    if timeEnd == |s| {
      return Err(ExpectTime + s);
    }
    var time := State.Stoi(s[lineEnd + 1..timeEnd]);
    BoardTimeRead(s, fen, sign, line, lineEnd, timeEnd, time);
    if !time.Value? {
      return Err(ConversionError(s, time));
    }
    r := ParseBoardColour(s, fen, sign, line, time.n, timeEnd + 1);
  }

  /** `BoardTime` once the time text is scanned and converted. */
  lemma BoardTimeRead(s: string, fen: string, sign: Token, line: int, lineEnd: nat, timeEnd: nat, time: State.Conversion)
    requires lineEnd < |s| && timeEnd == ScanFor(s, lineEnd + 1, ':') < |s|
    requires time == State.Stoi(s[lineEnd + 1..timeEnd])
    ensures BoardTime(s, fen, sign, line, lineEnd)
         == if !time.Value? then Err(ConversionError(s, time)) else BoardColour(s, fen, sign, line, time.n, timeEnd + 1)
  {
  }

  /** The colour letter that ends a board string. */
  method ParseBoardColour(s: string, fen: string, sign: Token, line: int, time: int, c: nat) returns (r: Result<BoardSpec>)
    requires c <= |s|
    ensures r == BoardColour(s, fen, sign, line, time, c)
  {
    var now := c;
    if now == |s| {
      return Err(ExpectColour + s);
    }
    var black;
    if s[now] == 'w' || s[now] == 'W' {
      black := false;
    } else if s[now] == 'b' || s[now] == 'B' {
      black := true;
    } else {
      return Err(UnknownColour + [s[now]] + " in " + s);
    }
    if now + 1 != |s| {
      return Err(BoardTooLong + s);
    }
    r := Ok(BoardSpec(fen, sign, line, time, black));
  }

  /** The body of the metadata loop of `parse_game`: the quote test, then
    * the board string or the header, and the duplicate key check. */
  method AddMetadataText(s: string, m: Metadata) returns (r: Result<Metadata>)
    ensures r == AddMetadata(s, m)
  {
    var saw := HasQuote(s);
    if !saw {
      var b := ParseBoardString(s);
      if b.Err? {
        return Err(b.error);
      }
      return Ok(m.(boards := m.boards + [b.value]));
    }
    var h := ParseHeader(s);
    if h.Err? {
      return Err(h.error);
    }
    if h.value.key in m.headers {
      return Err(DuplicateKey + h.value.key);
    }
    return Ok(m.(headers := m.headers[h.value.key := h.value.value]));
  }

  /** The `tolower` loop over the key. */
  method LowerInPlace(key: string) returns (r: string)
    ensures r == Lower(key)
  {
    r := key;
    var i := 0;
    while i < |r|
      invariant 0 <= i <= |r| == |key|
      invariant forall k :: 0 <= k < i ==> r[k] == LowerChar(key[k])
      invariant forall k :: i <= k < |r| ==> r[k] == key[k]
    {
      r := r[i := LowerChar(r[i])];
      i := i + 1;
    }
  }

  /** The header branch of `parse_game`. */
  method ParseHeader(s: string) returns (r: Result<Header>)
    ensures r == HeaderString(s)
  {
    var now := 0;
    while now < |s| && !IsCSpace(s[now])
      invariant now <= |s|
      invariant FindSpace(s, now) == FindSpace(s, 0)
    {
      now := now + 1;
    }
    if now == |s| {
      return Err(ExpectSpace + s);
    }
    var key := s[..now];
    now := now + 1;
    if now == |s| || s[now] != '"' {
      return Err(ExpectQuote + s);
    }
    now := now + 1;
    var prev := now;
    while now < |s| && s[now] != '"'
      invariant prev <= now <= |s|
      invariant ScanFor(s, now, '"') == ScanFor(s, prev, '"')
    {
      now := now + 1;
    }
    if now == |s| {
      return Err(QuoteNotClosed + s);
    }
    var value := s[prev..now];
    if now + 1 != |s| {
      return Err(HeaderTooLong + s);
    }
    key := LowerInPlace(key);
    r := Ok(Header(key, value));
  }
}
