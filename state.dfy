/** The game state of the engine: the `size` and `board` headers that set up
  * a multiverse, the even/odd labelling of 5DFEN timelines, and the state
  * proper (`present`, `player` and the timelines of its multiverse) with
  * `new_line`, `submit`, the three cases of `apply_move`, `can_submit` and
  * `can_apply`, `get_timeline_status` and the disambiguation rule of
  * `parse_move`. Boards themselves are not edited here: the state keeps, per
  * line, the turn its last board belongs to, which is all these operations
  * read. */
module State {
  import opened Wrappers
  import Text
  import Turn
  import CppInt
  import Action
  import MB = MultiverseBase
  import opened Coordinates

  // ---------------------------------------------------------------------------
  // The size header

  /** `isspace` in the C locale. */
  predicate IsSpace(ch: char)
  {
    ch == ' ' || ch == '\t' || ch == '\n' || ch == '\r' || ch as int == 11 || ch as int == 12
  }

  /** `s` without its leading white space. */
  function SkipSpaces(s: string): (r: string)
    ensures |r| <= |s| && r == s[|s| - |r|..]
    ensures r == [] || !IsSpace(r[0])
  {
    if s != [] && IsSpace(s[0]) then SkipSpaces(s[1..]) else s
  }

  lemma SkipNoSpace(s: string)
    requires s == [] || !IsSpace(s[0])
    ensures SkipSpaces(s) == s
  {
  }

  /** A string starting with '-' or a digit is read without skipping. */
  lemma StoiOfSigned(s: string)
    requires s != [] && (s[0] == '-' || Text.IsDigit(s[0]))
    ensures Stoi(s) == if s[0] == '-' then Digits(true, s[1..]) else Digits(false, s)
  {
    SkipNoSpace(s);
  }

  /** The outcome of `std::stoi`: a value, or the exception it throws. */
  datatype Conversion = Value(n: int) | InvalidArgument | OutOfRange

  /** `std::stoi(s)`: white space, an optional sign and at least one decimal
    * digit; whatever follows the digits is ignored, and a value outside
    * `int` is out of range. */
  function Stoi(s: string): (r: Conversion)
    ensures r.Value? ==> MB.IntMin <= r.n <= MB.IntMax
  {
    var u := SkipSpaces(s);
    if u != [] && u[0] == '-' then Digits(true, u[1..])
    else if u != [] && u[0] == '+' then Digits(false, u[1..])
    else Digits(false, u)
  }

  /** The digits after the sign: at least one, and the value in `int`. */
  function Digits(negative: bool, d: string): (r: Conversion)
    ensures r.Value? ==> MB.IntMin <= r.n <= MB.IntMax
  {
    var k := Action.DigitRun(d);
    if k == 0 then InvalidArgument
    else
      var n := Text.DigitsValue(d[..k]);
      var v := if negative then 0 - n else n;
      if v < MB.IntMin || MB.IntMax < v then OutOfRange else Value(v)
  }

  /** A number printed by `std::to_string` and followed by a non-digit
    * converts back to itself. */
  lemma {:induction false} StoiShow(n: int, rest: string)
    requires MB.IntMin <= n <= MB.IntMax
    requires rest == [] || !Text.IsDigit(rest[0])
    ensures Stoi(Text.IntToString(n) + rest) == Value(n)
  {
    var m: nat := if n < 0 then -n else n;
    StoiSign(n < 0, Text.NatToString(m) + rest);
    assert Text.IntToString(n) + rest == (if n < 0 then "-" else "") + (Text.NatToString(m) + rest);
    DigitsShow(n < 0, m, rest);
  }

  /** A `-` in front of a digit run makes it negative; no sign keeps it. */
  lemma StoiSign(negative: bool, u: string)
    requires u != [] && Text.IsDigit(u[0])
    ensures Stoi((if negative then "-" else "") + u) == Digits(negative, u)
  {
    var s := (if negative then "-" else "") + u;
    StoiOfSigned(s);
    if negative {
      assert s[1..] == u;
    } else {
      assert s == u;
    }
  }

  lemma {:induction false} DigitsShow(negative: bool, m: nat, rest: string)
    requires rest == [] || !Text.IsDigit(rest[0])
    requires if negative then m <= -MB.IntMin else m <= MB.IntMax
    ensures Digits(negative, Text.NatToString(m) + rest) == Value(if negative then 0 - m else m)
  {
    Action.ReadDigitsShow(m, rest);
  }

  /** Without a digit after the optional sign, `std::stoi` throws
    * `invalid_argument`. */
  lemma StoiNeedsDigit(s: string)
    requires forall i :: 0 <= i < |s| ==> !Text.IsDigit(s[i])
    ensures Stoi(s) == InvalidArgument
  {
    var u := SkipSpaces(s);
    var d := if u != [] && (u[0] == '-' || u[0] == '+') then u[1..] else u;
    assert d == [] || d[0] == s[|s| - |d|];
    assert Action.DigitRun(d) == 0;
  }

  const DefaultSize := "8x8"

  function SizeFormatMessage(s: string): string
  {
    "state(): Invalid board size format: " + s
  }

  function SizeNumberMessage(s: string): string
  {
    "state(): Expect number in size value: " + s
  }

  function SizeRangeMessage(s: string): string
  {
    "state(): Number out of range in size value: " + s + " (max board size allowed: "
      + Text.IntToString(MB.BoardLength) + ")"
  }

  /** `s.find(ch)`: the first position holding `ch`. */
  function FindChar(s: string, ch: char): (r: Option<nat>)
    ensures r.Some? ==> r.value < |s| && s[r.value] == ch && ch !in s[..r.value]
    ensures r.None? ==> ch !in s
  {
    if s == [] then None
    else if s[0] == ch then Some(0)
    else
      match FindChar(s[1..], ch)
      case None => None
      case Some(k) =>
        assert s[..k + 1] == [s[0]] + s[1..][..k];
        Some(k + 1)
  }

  /** The `size` header, or "8x8" when there is none. */
  function SizeValue(headers: map<string, string>): string
  {
    if "size" in headers then headers["size"] else DefaultSize
  }

  /** The board size: the numbers before and after the first 'x' of the
    * `size` header, each in `1..BOARD_LENGTH`. */
  function ParseSize(headers: map<string, string>): (r: Result<(int, int)>)
    ensures r.Ok? ==> 1 <= r.value.0 <= MB.BoardLength && 1 <= r.value.1 <= MB.BoardLength
    ensures r.Err? ==> var s := SizeValue(headers);
      r.error == SizeFormatMessage(s) || r.error == SizeNumberMessage(s) || r.error == SizeRangeMessage(s)
  {
    ParseSizeText(SizeValue(headers))
  }

  /** The size text read as the constructor reads it: the left number is
    * converted first, and the range is checked after both conversions. */
  function ParseSizeText(s: string): (r: Result<(int, int)>)
    ensures r.Ok? ==> 1 <= r.value.0 <= MB.BoardLength && 1 <= r.value.1 <= MB.BoardLength
    ensures r.Err? ==> r.error == SizeFormatMessage(s) || r.error == SizeNumberMessage(s) || r.error == SizeRangeMessage(s)
  {
    match FindChar(s, 'x')
    case None => Err(SizeFormatMessage(s))
    case Some(pos) =>
      match Stoi(s[..pos])
      case InvalidArgument => Err(SizeNumberMessage(s))
      case OutOfRange => Err(SizeRangeMessage(s))
      case Value(x) =>
        match Stoi(s[pos + 1..])
        case InvalidArgument => Err(SizeNumberMessage(s))
        case OutOfRange => Err(SizeRangeMessage(s))
        case Value(y) =>
          if x <= 0 || y <= 0 || x > MB.BoardLength || y > MB.BoardLength then Err(SizeRangeMessage(s))
          else Ok((x, y))
  }

  /** Writing a supported size as `<w>x<h>` reads back as `(w, h)`. */
  lemma ParseSizeTextShow(w: int, h: int)
    requires 1 <= w <= MB.BoardLength && 1 <= h <= MB.BoardLength
    ensures ParseSizeText(Text.IntToString(w) + "x" + Text.IntToString(h)) == Ok((w, h))
  {
    var sw, sh := Text.IntToString(w), Text.IntToString(h);
    var s := sw + "x" + sh;
    assert |sw| == 1 && |sh| == 1 && sw[0] != 'x' by {
      assert sw == [Text.DigitChar(w)] && sh == [Text.DigitChar(h)];
    }
    assert FindChar(s, 'x') == Some(1) by {
      assert s == [sw[0], 'x', sh[0]];
    }
    assert Stoi(s[..1]) == Value(w) by {
      assert s[..1] == sw + [];
      StoiShow(w, []);
    }
    assert Stoi(s[2..]) == Value(h) by {
      assert s[2..] == sh + [];
      StoiShow(h, []);
    }
    ParseSizeTextOf(s, 1, w, h);
  }

  lemma ParseSizeTextOf(s: string, pos: nat, x: int, y: int)
    requires FindChar(s, 'x') == Some(pos)
    requires Stoi(s[..pos]) == Value(x) && Stoi(s[pos + 1..]) == Value(y)
    requires 1 <= x <= MB.BoardLength && 1 <= y <= MB.BoardLength
    ensures ParseSizeText(s) == Ok((x, y))
  {
  }

  /** Without a `size` header the board is 8 by 8. */
  lemma ParseSizeDefault(headers: map<string, string>)
    requires "size" !in headers
    ensures ParseSize(headers) == Ok((8, 8))
  {
    assert Text.IntToString(8) + "x" + Text.IntToString(8) == DefaultSize by {
      assert Text.IntToString(8) == [Text.DigitChar(8)];
    }
    ParseSizeTextShow(8, 8);
  }

  /** A `size` header `<w>x<h>` gives back `(w, h)` for every size the
    * engine supports. */
  lemma ParseSizeShow(headers: map<string, string>, w: int, h: int)
    requires 1 <= w <= MB.BoardLength && 1 <= h <= MB.BoardLength
    requires "size" in headers && headers["size"] == Text.IntToString(w) + "x" + Text.IntToString(h)
    ensures ParseSize(headers) == Ok((w, h))
  {
    ParseSizeTextShow(w, h);
  }

  /** A size without 'x' is a format error, and only such a size is. */
  lemma ParseSizeFormat(headers: map<string, string>)
    ensures ParseSize(headers) == Err(SizeFormatMessage(SizeValue(headers))) <==> 'x' !in SizeValue(headers)
  {
    var s := SizeValue(headers);
    var p := "state(): ";
    assert SizeFormatMessage(s)[|p|] == 'I';
    assert SizeNumberMessage(s)[|p|] == 'E';
    assert SizeRangeMessage(s)[|p|] == 'N';
  }

  // ---------------------------------------------------------------------------
  // The board header and the labelling of lines

  /** The sign written before a 5DFEN line number, if any. */
  datatype Sign = NoSign | Positive | Negative

  /** A 5DFEN board: its FEN, the sign and number of its line, its turn. */
  datatype BoardSpec = BoardSpec(fen: string, sign: Sign, l: int, t: int, c: bool)

  /** A built-in variant: even timelines or not, the board size, the boards. */
  datatype Variant = Variant(even: bool, sizeX: int, sizeY: int, boards: seq<BoardSpec>)

  const StandardFen := "r*nbqk*bnr*/p*p*p*p*p*p*p*p*/8/8/8/8/P*P*P*P*P*P*P*P*/R*NBQK*BNR*"

  /** `default_variants`: the three variants known by name. */
  function DefaultVariant(name: string): (r: Option<Variant>)
    ensures r.Some? ==> !r.value.even && |r.value.boards| > 0
    ensures r.Some? ==> 1 <= r.value.sizeX <= MB.BoardLength && 1 <= r.value.sizeY <= MB.BoardLength
  {
    if name == "Standard" then
      Some(Variant(false, 8, 8, [BoardSpec(StandardFen, NoSign, 0, 1, false)]))
    else if name == "Standard - Turn Zero" then
      Some(Variant(false, 8, 8, [BoardSpec(StandardFen, NoSign, 0, 0, true), BoardSpec(StandardFen, NoSign, 0, 1, false)]))
    else if name == "Very Small - Open" then
      Some(Variant(false, 4, 4, [BoardSpec("nbrk/3p*/P*3/KRBN", NoSign, 0, 1, false)]))
    else None
  }

  /** What the headers settle before the lines are labelled: the even/odd
    * choice when one is made, the board size and the boards. */
  datatype Setup = Setup(even: Option<bool>, sizeX: int, sizeY: int, boards: seq<BoardSpec>)

  const UnspecificMessage := "state(): Variant is unspecific: no Board header or 5DFEN given"

  function UnknownVariantMessage(name: string): string
  {
    "state(): Unknown variant: " + name
  }

  predicate StartsWith(s: string, prefix: string)
  {
    |prefix| <= |s| && s[..|prefix|] == prefix
  }

  /** The even/odd choice a `board` header makes by name: "Custom - Even" and
    * "Even" choose even timelines, "Custom - Odd" and "Odd" odd ones. */
  function CustomParity(name: string): Option<bool>
  {
    if name == "Custom - Even" || name == "Even" then Some(true)
    else if name == "Custom - Odd" || name == "Odd" then Some(false)
    else None
  }

  /** The built-in names start with 'S' or 'V', the custom ones with 'C', 'E'
    * or 'O', so no name is both. */
  lemma CustomNotDefault(name: string)
    ensures CustomParity(name).Some? || StartsWith(name, "Custom") ==> DefaultVariant(name).None?
  {
    if CustomParity(name).Some? {
      assert name[0] in "CEO";
    } else if StartsWith(name, "Custom") {
      assert name[0] == "Custom"[0];
    }
  }

  /** The `board` header: a custom name only chooses the parity, and a known
    * variant supplies size and boards when the game lists no 5DFEN board;
    * with boards given, any other name is ignored. */
  function ChooseVariant(headers: map<string, string>, sizeX: int, sizeY: int, boards: seq<BoardSpec>): (r: Result<Setup>)
    ensures r.Err? <==> boards == [] && ("board" !in headers || DefaultVariant(headers["board"]).None?)
    ensures r.Ok? ==> |r.value.boards| > 0
    ensures boards != [] ==> r.Ok? && r.value.boards == boards && r.value.sizeX == sizeX && r.value.sizeY == sizeY
    ensures boards != [] ==> r.value.even == if "board" in headers then CustomParity(headers["board"]) else None
    ensures boards == [] && "board" in headers && DefaultVariant(headers["board"]).Some? ==>
      var v := DefaultVariant(headers["board"]).value;
      r == Ok(Setup(Some(v.even), v.sizeX, v.sizeY, v.boards))
    ensures r.Err? ==> r.error == UnspecificMessage || ("board" in headers && r.error == UnknownVariantMessage(headers["board"]))
  {
    if "board" !in headers then
      if boards == [] then Err(UnspecificMessage) else Ok(Setup(None, sizeX, sizeY, boards))
    else
      var name := headers["board"];
      var parity := CustomParity(name);
      CustomNotDefault(name);
      if parity.Some? || StartsWith(name, "Custom") || boards != [] then
        if boards == [] then Err(UnspecificMessage) else Ok(Setup(parity, sizeX, sizeY, boards))
      else
        match DefaultVariant(name)
        case None => Err(UnknownVariantMessage(name))
        case Some(v) => Ok(Setup(Some(v.even), v.sizeX, v.sizeY, v.boards))
  }

  /** A board written on an explicitly signed line 0 (`+0L` or `-0L`). */
  predicate SignedZero(b: BoardSpec)
  {
    b.sign != NoSign && b.l == 0
  }

  predicate HasSignedZero(boards: seq<BoardSpec>)
  {
    exists i :: 0 <= i < |boards| && SignedZero(boards[i])
  }

  /** The loop that decides the parity when no header chose it: even
    * timelines exactly when some board is on a signed line 0. */
  method DetectEven(boards: seq<BoardSpec>) returns (even: bool)
    ensures even == HasSignedZero(boards)
  {
    even := false;
    var i := 0;
    while i < |boards|
      invariant 0 <= i <= |boards|
      invariant !even && forall j :: 0 <= j < i ==> !SignedZero(boards[j])
    {
      var b := boards[i];
      even := even || (b.sign == Positive && b.l == 0);
      even := even || (b.sign == Negative && b.l == 0);
      if even {
        return;
      }
      i := i + 1;
    }
  }

  /** The line a 5DFEN board lands on: with even timelines a negative label
    * `-n` is `~n`, so that `-0` and `+0` are two lines; with odd timelines it
    * is `n * sign`, so that `-0` is line 0. */
  function LineLabel(even: bool, b: BoardSpec): (l: int)
    ensures b.l >= 0 ==> (l < 0 <==> b.sign == Negative && (even || b.l > 0))
    ensures b.l >= 0 ==> (if l < 0 && even then -l - 1 else if l < 0 then -l else l) == b.l
  {
    if b.sign == Negative then (if even then CppInt.BitNot(b.l) else 0 - b.l) else b.l
  }

  /** With even timelines two boards with non-negative numbers share a line
    * exactly when they have the same number and the same side of zero. */
  lemma EvenLabelsSeparate(a: BoardSpec, b: BoardSpec)
    requires a.l >= 0 && b.l >= 0
    ensures LineLabel(true, a) == LineLabel(true, b) <==> a.l == b.l && (a.sign == Negative) == (b.sign == Negative)
  {
  }

  /** With odd timelines the sign only matters away from zero: `-0`, `+0`
    * and `0` are all line 0. */
  lemma OddLabelsMergeZero(a: BoardSpec, b: BoardSpec)
    requires a.l >= 0 && b.l >= 0
    ensures LineLabel(false, a) == LineLabel(false, b) <==>
      a.l == b.l && (a.l == 0 || (a.sign == Negative) == (b.sign == Negative))
  {
  }

  /** The labelled boards handed to the multiverse constructor. */
  function BoardInfos(even: bool, boards: seq<BoardSpec>): seq<MB.BoardInfo>
  {
    seq(|boards|, i requires 0 <= i < |boards| =>
      MB.BoardInfo(LineLabel(even, boards[i]), boards[i].t, boards[i].c, boards[i].fen))
  }

  /** What the constructor builds its multiverse from. */
  datatype Prepared = Prepared(even: bool, sizeX: int, sizeY: int, boards: seq<MB.BoardInfo>)

  /** The header handling of `state(const game&)`: the size, then the board
    * header, then the parity, then the labels. */
  method ReadHeaders(headers: map<string, string>, boards: seq<BoardSpec>) returns (r: Result<Prepared>)
    ensures ParseSize(headers).Err? ==> r == Err(ParseSize(headers).error)
    ensures ParseSize(headers).Ok? ==>
      var v := ChooseVariant(headers, ParseSize(headers).value.0, ParseSize(headers).value.1, boards);
      && (v.Err? ==> r == Err(v.error))
      && (v.Ok? ==>
            && r.Ok? && r.value.sizeX == v.value.sizeX && r.value.sizeY == v.value.sizeY
            && r.value.even == (if v.value.even.Some? then v.value.even.value else HasSignedZero(v.value.boards))
            && r.value.boards == BoardInfos(r.value.even, v.value.boards))
  {
    var size := ParseSize(headers);
    if size.Err? {
      return Err(size.error);
    }
    var v := ChooseVariant(headers, size.value.0, size.value.1, boards);
    if v.Err? {
      return Err(v.error);
    }
    var setup := v.value;
    var even: bool;
    if setup.even.Some? {
      even := setup.even.value;
    } else {
      even := DetectEven(setup.boards);
    }
    r := Ok(Prepared(even, setup.sizeX, setup.sizeY, BoardInfos(even, setup.boards)));
  }

  // ---------------------------------------------------------------------------
  // The timelines of the state's multiverse

  /** What the state reads from its multiverse: the range of lines, the
    * range of the initial lines, the active range, and `timeline_end` of
    * each line as the column `2t + c`, stored at row `LToU(l)`; a row no
    * board has reached holds `INT_MIN`. */
  datatype Timelines = Timelines(lMin: int, lMax: int, l0Min: int, l0Max: int,
                                 activeMin: int, activeMax: int, ends: seq<int>)

  predicate ValidLines(tl: Timelines)
  {
    && tl.lMin <= tl.lMax
    && tl.lMin <= tl.activeMin && tl.activeMax <= tl.lMax
    && (forall l :: tl.lMin <= l <= tl.lMax ==> LToU(l) < |tl.ends| && tl.ends[LToU(l)] >= 0)
    && (forall u :: 0 <= u < |tl.ends| && !(tl.lMin <= UToL(u) <= tl.lMax) ==> tl.ends[u] == MB.IntMin)
  }

  predicate HasLine(tl: Timelines, l: int)
  {
    tl.lMin <= l <= tl.lMax
  }

  /** `get_timeline_end(l)`. */
  function TimelineEnd(tl: Timelines, l: int): Turn.Turn
    requires ValidLines(tl) && HasLine(tl, l)
  {
    VToTc(tl.ends[LToU(l)])
  }

  /** `get_present`: the earliest end among the active lines. */
  function Present(tl: Timelines): Turn.Turn
    requires ValidLines(tl)
  {
    VToTc(MB.MinEnd(tl.ends, tl.activeMin, tl.activeMax))
  }

  lemma VToTcIsFromIndex(v: int)
    ensures VToTc(v) == Turn.FromIndex(v) && Turn.Index(VToTc(v)) == v
  {
  }

  /** The present is no later than the end of any active line, and when
    * some line is active it is the end of one of them. */
  lemma PresentIsEarliest(tl: Timelines)
    requires ValidLines(tl)
    requires forall l :: tl.activeMin <= l <= tl.activeMax ==> tl.ends[LToU(l)] <= MB.IntMax
    ensures forall l :: tl.activeMin <= l <= tl.activeMax ==> !Turn.Less(TimelineEnd(tl, l), Present(tl))
    ensures tl.activeMin <= tl.activeMax ==>
      exists l :: tl.activeMin <= l <= tl.activeMax && Present(tl) == TimelineEnd(tl, l)
  {
    MB.MinEndIsMinimum(tl.ends, tl.activeMin, tl.activeMax);
    if tl.activeMin <= tl.activeMax {
      var l :| tl.activeMin <= l <= tl.activeMax && MB.MinEnd(tl.ends, tl.activeMin, tl.activeMax) == tl.ends[LToU(l)];
      assert Present(tl) == TimelineEnd(tl, l);
    }
    forall l | tl.activeMin <= l <= tl.activeMax
      ensures !Turn.Less(TimelineEnd(tl, l), Present(tl))
    {
      VToTcIsFromIndex(tl.ends[LToU(l)]);
      VToTcIsFromIndex(MB.MinEnd(tl.ends, tl.activeMin, tl.activeMax));
      Turn.LessIsIndexOrder(TimelineEnd(tl, l), Present(tl));
    }
  }

  /** `append_board(l, …)`: line `l` ends one turn later, and nothing else
    * changes. */
  function AppendLine(tl: Timelines, l: int): (r: Timelines)
    requires ValidLines(tl) && HasLine(tl, l)
    ensures ValidLines(r)
    ensures r.lMin == tl.lMin && r.lMax == tl.lMax && r.l0Min == tl.l0Min && r.l0Max == tl.l0Max
    ensures r.activeMin == tl.activeMin && r.activeMax == tl.activeMax
    ensures TimelineEnd(r, l) == Turn.NextTurn(TimelineEnd(tl, l))
    ensures forall k :: HasLine(tl, k) && k != l ==> TimelineEnd(r, k) == TimelineEnd(tl, k)
  {
    var u := LToU(l);
    VToTcIsFromIndex(tl.ends[u]);
    VToTcIsFromIndex(tl.ends[u] + 1);
    assert forall k :: HasLine(tl, k) && k != l ==> LToU(k) != u;
    assert forall w :: 0 <= w < |tl.ends| && w != u ==> UToL(w) != l by {
      forall w | 0 <= w < |tl.ends| && w != u
        ensures UToL(w) != l
      {
        UToLInverse(w);
      }
    }
    tl.(ends := tl.ends[u := tl.ends[u] + 1])
  }

  /** `insert_board` on a line no board has reached yet: its row is
    * created if need be and holds the given turn, the line range widens to
    * take it in, and the active range follows the rule of
    * `multiverse::insert_board`. */
  function InsertLine(tl: Timelines, l: int, t: int, c: bool): Timelines
  {
    var u := LToU(l);
    var ends := MB.Grow(tl.ends, if u >= |tl.ends| then u + 1 else |tl.ends|, MB.IntMin);
    var lMin, lMax := MB.Min(tl.lMin, l), MB.Max(tl.lMax, l);
    var active := MB.ActiveAfterInsert(l, lMin, lMax, tl.l0Min, tl.l0Max, tl.activeMin, tl.activeMax);
    Timelines(lMin, lMax, tl.l0Min, tl.l0Max, active.0, active.1, ends[u := TcToV(t, c)])
  }

  /** A line added next to the range ends at the given turn, every other
    * line keeps its end, and the timelines stay well formed. */
  lemma InsertLineEffect(tl: Timelines, l: int, t: int, c: bool)
    requires ValidLines(tl) && (l == tl.lMax + 1 || l == tl.lMin - 1)
    requires TcToV(t, c) >= 0
    ensures var r := InsertLine(tl, l, t, c);
      && ValidLines(r)
      && r.lMin == MB.Min(tl.lMin, l) && r.lMax == MB.Max(tl.lMax, l)
      && r.l0Min == tl.l0Min && r.l0Max == tl.l0Max
      && (r.activeMin, r.activeMax)
         == MB.ActiveAfterInsert(l, r.lMin, r.lMax, tl.l0Min, tl.l0Max, tl.activeMin, tl.activeMax)
      && (MB.Balanced(tl.lMin, tl.lMax, tl.l0Min, tl.l0Max, tl.activeMin, tl.activeMax)
          ==> MB.Balanced(r.lMin, r.lMax, r.l0Min, r.l0Max, r.activeMin, r.activeMax))
      && TimelineEnd(r, l) == (t, c)
      && forall k :: HasLine(tl, k) ==> TimelineEnd(r, k) == TimelineEnd(tl, k)
  {
    var r := InsertLine(tl, l, t, c);
    var u := LToU(l);
    if MB.Balanced(tl.lMin, tl.lMax, tl.l0Min, tl.l0Max, tl.activeMin, tl.activeMax) {
      MB.ActiveAfterInsertBalanced(l, tl.lMin, tl.lMax, tl.l0Min, tl.l0Max, tl.activeMin, tl.activeMax);
    }
    TcVInverse(t, c);
    LToUInverse(l);
    assert |r.ends| > u && r.ends[u] == TcToV(t, c);
    forall k | HasLine(tl, k)
      ensures LToU(k) != u && r.ends[LToU(k)] == tl.ends[LToU(k)]
    {
      if LToU(k) == u {
        LToUInjective(k, l);
      }
    }
    forall w | 0 <= w < |r.ends| && !(r.lMin <= UToL(w) <= r.lMax)
      ensures r.ends[w] == MB.IntMin
    {
      assert w != u;
      if w < |tl.ends| {
        assert !HasLine(tl, UToL(w));
      }
    }
    assert forall k :: r.lMin <= k <= r.lMax ==> HasLine(tl, k) || k == l;
  }

  // ---------------------------------------------------------------------------
  // The state

  /** A state as a value: what `can_submit` and `can_apply` return. */
  datatype Snapshot = Snapshot(present: int, player: bool, lines: Timelines)

  /** `new_line`: the line a branching move of the player to move creates,
    * past the last line for white and before the first for black. */
  function NewLine(s: Snapshot): (l: int)
    ensures !s.player ==> l == s.lines.lMax + 1
    ensures s.player ==> l == s.lines.lMin - 1
  {
    if !s.player then s.lines.lMax + 1 else s.lines.lMin - 1
  }

  /** The three cases of `apply_move`. */
  datatype MoveKind = Physical | NonBranching | Branching

  /** What `apply_move` relies on without checking it in a release build:
    * the moving piece stands on the last board of its line, and the target
    * is on an existing line at a turn no earlier than 0. */
  predicate Admissible(s: Snapshot, fm: Action.FullMove)
  {
    && ValidLines(s.lines)
    && HasLine(s.lines, fm.from.l) && HasLine(s.lines, fm.to.l)
    && (fm.from.t, s.player) == TimelineEnd(s.lines, fm.from.l)
    && TcToV(fm.to.t, s.player) >= 0
  }

  /** Physical when the move stays on its board's line and turn; otherwise
    * non-branching when it arrives at the end of the target line, and
    * branching when it arrives on an earlier board. */
  function Kind(s: Snapshot, fm: Action.FullMove): (k: MoveKind)
    requires ValidLines(s.lines) && HasLine(s.lines, fm.to.l)
  {
    if fm.to.l - fm.from.l == 0 && fm.to.t - fm.from.t == 0 then Physical
    else if (fm.to.t, s.player) == TimelineEnd(s.lines, fm.to.l) then NonBranching
    else Branching
  }

  /** A checked `apply_move`: `legal` says whether the move generator offers
    * the target square, and a move it does not offer changes nothing. */
  function ApplySpec(s: Snapshot, fm: Action.FullMove, legal: (Snapshot, Action.FullMove) -> bool): (r: Option<Snapshot>)
    ensures r.Some? ==> ValidLines(r.value.lines) && r.value.player == s.player && r.value.present <= s.present
  {
    if !(Admissible(s, fm) && legal(s, fm)) then None
    else
      var after := AppendLine(s.lines, fm.from.l);
      match Kind(s, fm)
      case Physical => Some(s.(lines := after))
      case NonBranching => Some(s.(lines := AppendLine(after, fm.to.l)))
      case Branching =>
        var next := Turn.NextTurn((fm.to.t, s.player));
        InsertLineEffect(after, NewLine(s), next.0, next.1);
        var lines := InsertLine(after, NewLine(s), next.0, next.1);
        var p := Present(lines).0;
        Some(Snapshot(if p < s.present then p else s.present, s.player, lines))
  }

  /** A checked `submit`: refused while the multiverse's present is still
    * the colour to move; otherwise the present becomes the state's. */
  function SubmitSpec(s: Snapshot): Option<Snapshot>
    requires ValidLines(s.lines)
  {
    var (t, c) := Present(s.lines);
    if s.player == c then None else Some(s.(present := t, player := c))
  }

  /** The moves of an action, applied in order; `None` once one is refused. */
  function ApplyAll(s: Snapshot, moves: seq<Action.FullMove>, legal: (Snapshot, Action.FullMove) -> bool): Option<Snapshot>
    decreases |moves|
  {
    if moves == [] then Some(s)
    else
      match ApplySpec(s, moves[0], legal)
      case None => None
      case Some(s') => ApplyAll(s', moves[1..], legal)
  }

  /** `can_apply(action)`: all the moves, then a submit. */
  function ActionSpec(s: Snapshot, moves: seq<Action.FullMove>, legal: (Snapshot, Action.FullMove) -> bool): Option<Snapshot>
    requires ValidLines(s.lines)
  {
    ApplyAllValid(s, moves, legal);
    match ApplyAll(s, moves, legal)
    case None => None
    case Some(s') => SubmitSpec(s')
  }

  lemma {:induction false} ApplyAllValid(s: Snapshot, moves: seq<Action.FullMove>, legal: (Snapshot, Action.FullMove) -> bool)
    requires ValidLines(s.lines)
    ensures ApplyAll(s, moves, legal).Some? ==> ValidLines(ApplyAll(s, moves, legal).value.lines)
    ensures ApplyAll(s, moves, legal).Some? ==> ApplyAll(s, moves, legal).value.player == s.player
    decreases |moves|
  {
    if moves != [] && ApplySpec(s, moves[0], legal).Some? {
      ApplyAllValid(ApplySpec(s, moves[0], legal).value, moves[1..], legal);
    }
  }

  /** A physical move puts one board on its own line; a non-branching jump
    * one on its source line and one on its target line. Every other line
    * keeps its end, and the line range stays. */
  lemma ApplyInPlace(s: Snapshot, fm: Action.FullMove, legal: (Snapshot, Action.FullMove) -> bool)
    requires ApplySpec(s, fm, legal).Some? && Kind(s, fm) != Branching
    ensures var s' := ApplySpec(s, fm, legal).value;
      && s'.present == s.present && s'.lines.lMin == s.lines.lMin && s'.lines.lMax == s.lines.lMax
      && TimelineEnd(s'.lines, fm.from.l) == Turn.NextTurn(TimelineEnd(s.lines, fm.from.l))
      && (Kind(s, fm) == NonBranching ==> TimelineEnd(s'.lines, fm.to.l) == Turn.NextTurn(TimelineEnd(s.lines, fm.to.l)))
      && forall k :: HasLine(s.lines, k) && k != fm.from.l && k != fm.to.l ==>
           TimelineEnd(s'.lines, k) == TimelineEnd(s.lines, k)
  {
    if Kind(s, fm) == NonBranching {
      assert fm.to.l != fm.from.l;
    }
  }

  /** A branching move adds the line `new_line()` on the mover's side, whose
    * one board follows the arrival turn; the source line gains a board and
    * the present drops to the new present when that is earlier. */
  lemma ApplyBranching(s: Snapshot, fm: Action.FullMove, legal: (Snapshot, Action.FullMove) -> bool)
    requires ApplySpec(s, fm, legal).Some? && Kind(s, fm) == Branching
    ensures var s' := ApplySpec(s, fm, legal).value;
      var nl := NewLine(s);
      && HasLine(s'.lines, nl) && !HasLine(s.lines, nl)
      && (if s.player then s'.lines.lMin == s.lines.lMin - 1 && s'.lines.lMax == s.lines.lMax
          else s'.lines.lMax == s.lines.lMax + 1 && s'.lines.lMin == s.lines.lMin)
      && TimelineEnd(s'.lines, nl) == Turn.NextTurn((fm.to.t, s.player))
      && TimelineEnd(s'.lines, fm.from.l) == Turn.NextTurn(TimelineEnd(s.lines, fm.from.l))
      && s'.present == MB.Min(s.present, Present(s'.lines).0)
  {
    var next := Turn.NextTurn((fm.to.t, s.player));
    var after := AppendLine(s.lines, fm.from.l);
    InsertLineEffect(after, NewLine(s), next.0, next.1);
    assert fm.from.l != NewLine(s);
  }

  /** A submit that succeeds hands the move to the other colour and makes
    * the state's present the multiverse's; submitting again at once is
    * refused. */
  lemma SubmitFlips(s: Snapshot)
    requires ValidLines(s.lines) && SubmitSpec(s).Some?
    ensures var s' := SubmitSpec(s).value;
      && s'.player == !s.player && (s'.present, s'.player) == Present(s.lines) && s'.lines == s.lines
      && SubmitSpec(s') == None
  {
  }

  /** An action without moves is a bare submit. */
  lemma ActionWithoutMoves(s: Snapshot, legal: (Snapshot, Action.FullMove) -> bool)
    requires ValidLines(s.lines)
    ensures ActionSpec(s, [], legal) == SubmitSpec(s)
  {
  }

  /** The status `get_timeline_status` gives a line. */
  datatype Status = Mandatory | Optional | Unplayable

  /** Mandatory when the line is active and ends at the present; otherwise
    * optional when its end has the present's colour, and unplayable. */
  function StatusOf(tl: Timelines, l: int, present: Turn.Turn): Status
    requires ValidLines(tl) && HasLine(tl, l)
  {
    var tc := TimelineEnd(tl, l);
    if tl.activeMin <= l <= tl.activeMax && tc == present then Mandatory
    else if present.1 == tc.1 then Optional
    else Unplayable
  }

  /** The lines `lo..hi` of status `want`, in increasing order. */
  function LinesWith(tl: Timelines, lo: int, hi: int, present: Turn.Turn, want: Status): seq<int>
    requires ValidLines(tl) && tl.lMin <= lo && hi <= tl.lMax
    decreases hi - lo
  {
    if hi < lo then []
    else LinesWith(tl, lo, hi - 1, present, want) + (if StatusOf(tl, hi, present) == want then [hi] else [])
  }

  /** A line is listed exactly when it lies in `lo..hi` and has the status,
    * and the list increases strictly. */
  lemma {:induction false} LinesWithExact(tl: Timelines, lo: int, hi: int, present: Turn.Turn, want: Status)
    requires ValidLines(tl) && tl.lMin <= lo && hi <= tl.lMax
    ensures forall l :: l in LinesWith(tl, lo, hi, present, want) <==> lo <= l <= hi && StatusOf(tl, l, present) == want
    ensures forall i, j :: 0 <= i < j < |LinesWith(tl, lo, hi, present, want)| ==>
      LinesWith(tl, lo, hi, present, want)[i] < LinesWith(tl, lo, hi, present, want)[j]
    decreases hi - lo
  {
    if lo <= hi {
      LinesWithExact(tl, lo, hi - 1, present, want);
      var p := LinesWith(tl, lo, hi - 1, present, want);
      assert forall i :: 0 <= i < |p| ==> p[i] < hi by {
        forall i | 0 <= i < |p|
          ensures p[i] < hi
        {
          assert p[i] in p;
        }
      }
    }
  }

  /** Every line of `lo..hi` is in exactly one of the three lists. */
  lemma {:induction false} LinesPartition(tl: Timelines, lo: int, hi: int, present: Turn.Turn)
    requires ValidLines(tl) && tl.lMin <= lo && hi <= tl.lMax
    ensures |LinesWith(tl, lo, hi, present, Mandatory)| + |LinesWith(tl, lo, hi, present, Optional)|
      + |LinesWith(tl, lo, hi, present, Unplayable)| == if hi < lo then 0 else hi - lo + 1
    decreases hi - lo
  {
    if lo <= hi {
      LinesPartition(tl, lo, hi - 1, present);
    }
  }

  /** The state as an object: `present`, `player` and its multiverse's
    * timelines. */
  class GameState {
    var present: int
    var player: bool
    var lines: Timelines

    function Snap(): Snapshot
      reads this
    {
      Snapshot(present, player, lines)
    }

    /** `state(multiverse&)`: the present of the multiverse. */
    constructor (tl: Timelines)
      requires ValidLines(tl)
      ensures Snap() == Snapshot(Present(tl).0, Present(tl).1, tl)
    {
      present, player := Present(tl).0, Present(tl).1;
      lines := tl;
    }

    /** The copy `can_submit` and `can_apply` work on. */
    constructor Copy(other: GameState)
      ensures Snap() == other.Snap()
    {
      present, player, lines := other.present, other.player, other.lines;
    }

    method Submit() returns (ok: bool)
      requires ValidLines(lines)
      modifies this
      ensures SubmitSpec(old(Snap())) == if ok then Some(Snap()) else None
      ensures !ok ==> Snap() == old(Snap())
    {
      var (t, c) := Present(lines);
      if player == c {
        return false;
      }
      present := t;
      player := c;
      ok := true;
    }

    /** The case split of `apply_move`; `legal` stands for the move
      * generator's check. */
    method ApplyMove(fm: Action.FullMove, legal: (Snapshot, Action.FullMove) -> bool) returns (ok: bool)
      modifies this
      ensures ApplySpec(old(Snap()), fm, legal) == if ok then Some(Snap()) else None
      ensures !ok ==> Snap() == old(Snap())
    {
      if !(Admissible(Snap(), fm) && legal(Snap(), fm)) {
        return false;
      }
      var p, q := fm.from, fm.to;
      var kind := Kind(Snap(), fm);
      var before := Snap();
      lines := AppendLine(lines, p.l);
      if kind == NonBranching {
        lines := AppendLine(lines, q.l);
      } else if kind == Branching {
        var next := Turn.NextTurn((q.t, player));
        InsertLineEffect(lines, NewLine(before), next.0, next.1);
        lines := InsertLine(lines, NewLine(before), next.0, next.1);
        var newPresent := Present(lines).0;
        if newPresent < present {
          present := newPresent;
        }
      }
      ok := true;
    }

    method CanSubmit() returns (r: Option<Snapshot>)
      requires ValidLines(lines)
      ensures r == SubmitSpec(Snap())
    {
      var copy := new GameState.Copy(this);
      var ok := copy.Submit();
      r := if ok then Some(copy.Snap()) else None;
    }

    method CanApply(fm: Action.FullMove, legal: (Snapshot, Action.FullMove) -> bool) returns (r: Option<Snapshot>)
      ensures r == ApplySpec(Snap(), fm, legal)
    {
      var copy := new GameState.Copy(this);
      var ok := copy.ApplyMove(fm, legal);
      r := if ok then Some(copy.Snap()) else None;
    }

    /** The loop of `can_apply(action)`: the moves one by one, stopping at
      * the first refused one. */
    method ApplyMoves(moves: seq<Action.FullMove>, legal: (Snapshot, Action.FullMove) -> bool) returns (ok: bool)
      requires ValidLines(lines)
      modifies this
      ensures ok ==> ApplyAll(old(Snap()), moves, legal) == Some(Snap())
      ensures !ok ==> ApplyAll(old(Snap()), moves, legal) == None
      ensures ValidLines(lines)
    {
      var i := 0;
      while i < |moves|
        invariant 0 <= i <= |moves|
        invariant ApplyAll(old(Snap()), moves, legal) == ApplyAll(Snap(), moves[i..], legal)
        invariant ValidLines(lines)
      {
        var before := Snap();
        ok := ApplyMove(moves[i], legal);
        if !ok {
          return;
        }
        assert moves[i..][1..] == moves[i + 1..];
        i := i + 1;
      }
      ok := true;
    }

    /** `can_apply(action)`: the moves on a copy, then a submit. */
    method CanApplyAction(moves: seq<Action.FullMove>, legal: (Snapshot, Action.FullMove) -> bool) returns (r: Option<Snapshot>)
      requires ValidLines(lines)
      ensures r == ActionSpec(Snap(), moves, legal)
    {
      var copy := new GameState.Copy(this);
      var ok := copy.ApplyMoves(moves, legal);
      if !ok {
        return None;
      }
      ok := copy.Submit();
      r := if ok then Some(copy.Snap()) else None;
    }

    /** `get_timeline_status(present_t, present_c)`: one pass over the
      * lines, sorting each into one of three lists. */
    method GetTimelineStatus(presentT: int, presentC: bool) returns (mandatory: seq<int>, optional: seq<int>, unplayable: seq<int>)
      requires ValidLines(lines)
      ensures mandatory == LinesWith(lines, lines.lMin, lines.lMax, (presentT, presentC), Mandatory)
      ensures optional == LinesWith(lines, lines.lMin, lines.lMax, (presentT, presentC), Optional)
      ensures unplayable == LinesWith(lines, lines.lMin, lines.lMax, (presentT, presentC), Unplayable)
    {
      var pt := (presentT, presentC);
      var tl := lines;
      mandatory, optional, unplayable := [], [], [];
      var l := tl.lMin;
      while l <= tl.lMax
        invariant tl.lMin <= l <= tl.lMax + 1
        invariant mandatory == LinesWith(tl, tl.lMin, l - 1, pt, Mandatory)
        invariant optional == LinesWith(tl, tl.lMin, l - 1, pt, Optional)
        invariant unplayable == LinesWith(tl, tl.lMin, l - 1, pt, Unplayable)
      {
        var tc := TimelineEnd(tl, l);
        if tl.activeMin <= l && tl.activeMax >= l && tc == pt {
          mandatory := mandatory + [l];
        } else if presentC == tc.1 {
          optional := optional + [l];
        } else {
          unplayable := unplayable + [l];
        }
        l := l + 1;
      }
    }
  }

  // ---------------------------------------------------------------------------
  // parse_move: choosing among the generated moves

  /** A move the generator offers: whether the moving piece is a pawn, and
    * whether the move's full notation matches the parsed move. */
  datatype Candidate = Candidate(fm: Action.FullMove, pawn: bool, matches: bool)

  /** The matching moves in generation order; with `pawnsOnly`, only those
    * of pawns. */
  function Matched(cands: seq<Candidate>, pawnsOnly: bool): seq<Action.FullMove>
  {
    if cands == [] then []
    else
      var c := cands[|cands| - 1];
      Matched(cands[..|cands| - 1], pawnsOnly) + if c.matches && (c.pawn || !pawnsOnly) then [c.fm] else []
  }

  /** Every pawn match is a match. */
  lemma {:induction false} PawnMatchesAreMatches(cands: seq<Candidate>)
    ensures forall m :: m in Matched(cands, true) ==> m in Matched(cands, false)
    ensures |Matched(cands, true)| <= |Matched(cands, false)|
  {
    if cands != [] {
      PawnMatchesAreMatches(cands[..|cands| - 1]);
    }
  }

  /** The loop of `parse_move`: the unique match, else the unique pawn
    * match, else nothing; the promotion piece goes with a chosen move, and
    * all matches are returned. */
  method ChooseMove(cands: seq<Candidate>, promoteTo: Option<char>)
    returns (fm: Option<Action.FullMove>, promotion: Option<char>, matched: seq<Action.FullMove>)
    ensures matched == Matched(cands, false)
    ensures |matched| == 1 ==> fm == Some(matched[0])
    ensures |matched| != 1 && |Matched(cands, true)| == 1 ==> fm == Some(Matched(cands, true)[0])
    ensures |matched| != 1 && |Matched(cands, true)| != 1 ==> fm == None
    ensures fm.Some? ==> fm.value in matched
    ensures promotion == if fm.Some? then promoteTo else None
  {
    matched := [];
    var pawnMatched := [];
    var i := 0;
    while i < |cands|
      invariant 0 <= i <= |cands|
      invariant matched == Matched(cands[..i], false)
      invariant pawnMatched == Matched(cands[..i], true)
    {
      assert cands[..i + 1][..i] == cands[..i];
      if cands[i].matches {
        matched := matched + [cands[i].fm];
        if cands[i].pawn {
          pawnMatched := pawnMatched + [cands[i].fm];
        }
      }
      i := i + 1;
    }
    assert cands[..|cands|] == cands;
    PawnMatchesAreMatches(cands);
    fm := None;
    if |matched| == 1 {
      fm := Some(matched[0]);
    } else if |pawnMatched| == 1 {
      fm := Some(pawnMatched[0]);
    }
    promotion := if fm.Some? then promoteTo else None;
  }
}
