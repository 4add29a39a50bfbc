/** The recursive-descent parser of 5D PGN as functions of the lexer buffer.
  * Each `Read...` function is what the matching `parse_...` member does to the
  * buffer: `Err` when it throws, `Step(None, b0)` when it fails and restores
  * the buffer it started from, and `Step(Some(tree), rest)` when it parses. */
module PgnGrammar {
  import opened Wrappers
  import opened PgnLexer
  import Turn
  import PgnHeaders
  import Text
  import Seqs

  datatype RelativeBoard = RelativeBoard(lineDiff: Option<int>, timeDiff: Option<int>)

  /** `sign` is `Positive`, `Negative` or `Nil`; `line` is the unsigned number. */
  datatype AbsoluteBoard = AbsoluteBoard(sign: Token, line: Option<int>, time: Option<int>)

  /** `castle` is `CastleKingside`, `CastleQueenside` or `Nil`; ranks are the
    * `char` values the numbers were stored as. */
  datatype PhysicalMove = PhysicalMove(board: Option<AbsoluteBoard>, castle: Token,
                                       piece: Option<char>, fromFile: Option<char>,
                                       fromRank: Option<int>, capture: bool,
                                       toFile: char, toRank: int, promote: Option<char>)

  datatype Destination = NoBoard | ToAbsolute(abs: AbsoluteBoard) | ToRelative(rel: RelativeBoard)

  /** `jump` is `NonBranchJump`, `BranchingJump` or `Nil`. */
  datatype SuperphysicalMove = SuperphysicalMove(fromBoard: Option<AbsoluteBoard>,
                                                 piece: Option<char>, fromFile: Option<char>,
                                                 fromRank: Option<int>, jump: Token,
                                                 capture: bool, toBoard: Destination,
                                                 toFile: char, toRank: int,
                                                 promote: Option<char>)

  datatype Move = Physical(pm: PhysicalMove) | Superphysical(sm: SuperphysicalMove)

  /** The moves after one turn serial and the comments after the last of them. */
  datatype Actions = Actions(moves: seq<Move>, comments: seq<string>)

  datatype GameTree = GameTree(variations: seq<Variation>)
  datatype Variation = Variation(actions: Actions, rest: GameTree)

  /** A whole game: the headers (keys lowered), the boards of the board
    * strings, the game tree and the comments after the metadata. */
  datatype Game = Game(headers: map<string, string>, boards: seq<PgnHeaders.BoardSpec>,
                       tree: GameTree, comments: seq<string>)

  /** What the metadata loop leaves: the metadata read, the comments
    * collected after each metadata and the buffer. */
  datatype MetaRead = MetaRead(meta: PgnHeaders.Metadata, comments: seq<string>, rest: Buffer)

  /** What a parse step returns: the parsed value, or `None` for a failure,
    * and the buffer it leaves. */
  datatype Step<T> = Step(got: Option<T>, rest: Buffer)

  /** The comments collected by a run of whitespace and comments. */
  datatype Collected = Collected(comments: seq<string>, rest: Buffer)

  /** The leading piece letter, file and rank shared by both move forms. */
  datatype Origin = Origin(piece: Option<char>, file: Option<char>, rank: Option<int>, rest: Buffer)

  /** A failed parse leaves the buffer where it started. */
  ghost predicate Restores<T>(b0: Buffer, r: Result<Step<T>>)
  {
    r.Ok? && r.value.got.None? ==> r.value.rest == b0
  }

  /** Tokens still to be read: two per character left, one more unless at END. */
  function Measure(ctx: Ctx, b: Buffer): nat
  {
    var n := |ctx.input| + 1;
    2 * (n - (if b.current <= n then b.current else n)) + (if b.token == End then 0 else 1)
  }

  /** Parsing never moves backwards, and a successful parse consumes a token. */
  ghost predicate Advances<T>(ctx: Ctx, b0: Buffer, r: Result<Step<T>>)
  {
    r.Ok? ==> Measure(ctx, r.value.rest) <= Measure(ctx, b0)
              && (r.value.got.Some? ==> Measure(ctx, r.value.rest) < Measure(ctx, b0))
  }

  /** Reading a token never increases the measure, and reading past any token
    * but END decreases it. */
  lemma LexDecreases(ctx: Ctx, b: Buffer)
    requires Lex(ctx, b).Ok?
    ensures Measure(ctx, Lex(ctx, b).value) <= Measure(ctx, b)
    ensures b.token != End ==> Measure(ctx, Lex(ctx, b).value) < Measure(ctx, b)
  {
  }

  /** `PARSED_MSG`: the text from where the parse began to the buffer. */
  function Parsed(ctx: Ctx, b0: Buffer, b: Buffer): string
  {
    Slice(ctx.input, b0.current, b.current)
  }

  /** The conversion of an `int` to a signed `char`. */
  function CharValue(n: int): (r: int)
    ensures -128 <= r < 128
    ensures (r - n) % 256 == 0
    ensures -128 <= n < 128 ==> r == n
  {
    (n + 128) % 256 - 128
  }

  /* The messages of the parser's exceptions. */

  const RelativeExpectLine := "parse_relative_board(): Expect line difference after 'L': "
  const RelativeNoNumber := "parse_relative_board(): No number should appear after '=': "
  const RelativeLineNumberExpected := "parse_relative_board(): Expect number after '+/-': "
  const RelativeExpectTime := "parse_relative_board(): Expect turn difference after 'L': "
  const RelativeTimeNumberExpected := "parse_relative_board(): Expect number after '+'/'-': "
  const RelativeNoInformation := "parse_relative_board(): Relative board without any LT information: "
  const RelativeExpectClose := "parse_relative_board(): Expect ')': "
  const AbsoluteExpectLine := "parse_absolute_board(): Expect line after 'L': "
  const AbsoluteExpectNumber := "parse_absolute_board(): Expect number after '+'/'-': "
  const AbsoluteExpectTime := "parse_absolute_board(): Expect number after 'T': "
  const TimelineExpectLine := "parse_timeline_comment(): Expect line after '(>L': "
  const TimelineExpectTime := "parse_timeline_comment(): Expect number after '(>T': "
  const TimelineExpectClose := "parse_timeline_comment(): Expect ')': "
  const ExpectDestination := "parse_superphysical_move(): Expect destination board/squre after '>'/'>>': "
  const ExpectDestinationFile := "parse_superphysical_move(): Expect destination file: "
  const ExpectDestinationRank := "parse_superphysical_move(): Expect destination rank: "
  const ExpectPromotion := ": Expect promotion piece after '=': "
  const PhysicalCaller := "parse_physical_move()"
  const InvalidBranch := "parse_gametree(): Invalid game tree branch: "
  const ExpectBranchClose := "parse_gametree(): Expect ')':"
  const InvalidContinuation := "parse_gametree(): !!This should not happen!! Invalid game tree continuation: "
  const SuperphysicalCaller := "parse_superphysical_move()"

  /* parse_relative_board */

  function ReadRelativeBoard(ctx: Ctx, b0: Buffer): (r: Result<Step<RelativeBoard>>)
    ensures Restores(b0, r) && Advances(ctx, b0, r)
  {
    if b0.token != RelativeSym then Ok(Step(None, b0))
    else
      var b1 :- Lex(ctx, b0);
      if b1.token != LeftParen then Ok(Step(None, b0))
      else
        var b2 :- Lex(ctx, b1);
        RelativeLine(ctx, b0, b2)
  }

  /** The optional `L` part: `L` requires a sign or `=` after it. */
  function RelativeLine(ctx: Ctx, b0: Buffer, b: Buffer): (r: Result<Step<RelativeBoard>>)
    requires b0.token != End && Measure(ctx, b) <= Measure(ctx, b0)
    ensures r.Ok? ==> r.value.got.Some? && Measure(ctx, r.value.rest) < Measure(ctx, b0)
  {
    var expectLine := b.token == Line;
    var c :- SkipOptional(ctx, b, Line);
    var t := c.token;
    var hasLine := t == Positive || t == Negative || t == Equal;
    if !hasLine && expectLine then
      Err(RelativeExpectLine + Parsed(ctx, b0, c))
    else if !hasLine then RelativeTime(ctx, b0, c, None, false)
    else
      var d :- Lex(ctx, c);
      RelativeLineNumber(ctx, b0, d, if t == Positive then 1 else if t == Negative then -1 else 0)
  }

  /** The number after the sign of the `L` part; `=` takes none. */
  function RelativeLineNumber(ctx: Ctx, b0: Buffer, b: Buffer, sign: int): (r: Result<Step<RelativeBoard>>)
    requires b0.token != End && Measure(ctx, b) <= Measure(ctx, b0)
    ensures r.Ok? ==> r.value.got.Some? && Measure(ctx, r.value.rest) < Measure(ctx, b0)
  {
    if sign == 0 && b.token == PositiveNumber then
      Err(RelativeNoNumber + Parsed(ctx, b0, b))
    else if sign != 0 && b.token != PositiveNumber then
      Err(RelativeLineNumberExpected + Parsed(ctx, b0, b))
    else if sign == 0 then RelativeTime(ctx, b0, b, Some(0), true)
    else
      var c :- Lex(ctx, b);
      RelativeTime(ctx, b0, c, Some(sign * b.number), true)
  }

  /** The `T` part, read like the `L` part: `=` takes no number, a sign needs one. */
  function RelativeTime(ctx: Ctx, b0: Buffer, b: Buffer, ldiff: Option<int>, hasLine: bool)
    : (r: Result<Step<RelativeBoard>>)
    requires b0.token != End && Measure(ctx, b) <= Measure(ctx, b0)
    ensures r.Ok? ==> r.value.got.Some? && Measure(ctx, r.value.rest) < Measure(ctx, b0)
  {
    if b.token == Time then
      var c :- Lex(ctx, b);
      var t := c.token;
      if t != Positive && t != Negative && t != Equal then
        Err(RelativeExpectTime + Parsed(ctx, b0, c))
      else
        var d :- Lex(ctx, c);
        RelativeTimeNumber(ctx, b0, d, ldiff, if t == Positive then 1 else if t == Negative then -1 else 0)
    else if !hasLine then
      Err(RelativeNoInformation + Parsed(ctx, b0, b))
    else
      RelativeClose(ctx, b0, b, ldiff, None)
  }

  function RelativeTimeNumber(ctx: Ctx, b0: Buffer, b: Buffer, ldiff: Option<int>, sign: int)
    : (r: Result<Step<RelativeBoard>>)
    requires b0.token != End && Measure(ctx, b) <= Measure(ctx, b0)
    ensures r.Ok? ==> r.value.got.Some? && Measure(ctx, r.value.rest) < Measure(ctx, b0)
  {
    if sign == 0 && b.token == PositiveNumber then
      Err(RelativeNoNumber + Parsed(ctx, b0, b))
    else if sign != 0 && b.token != PositiveNumber then
      Err(RelativeTimeNumberExpected + Parsed(ctx, b0, b))
    else if sign == 0 then RelativeClose(ctx, b0, b, ldiff, Some(0))
    else
      var c :- Lex(ctx, b);
      RelativeClose(ctx, b0, c, ldiff, Some(sign * b.number))
  }

  /** The `T` part as written: the sign of the `L` part survives a `T=`, and
    * the checks on the number only run when a number is there. */
  function RelativeTimeAsWritten(ctx: Ctx, b0: Buffer, b: Buffer, lineSign: int,
                                 ldiff: Option<int>, hasLine: bool)
    : (r: Result<Step<RelativeBoard>>)
    requires b0.token != End && Measure(ctx, b) <= Measure(ctx, b0)
    ensures r.Ok? ==> r.value.got.Some? && Measure(ctx, r.value.rest) < Measure(ctx, b0)
  {
    if b.token == Time then
      var c :- Lex(ctx, b);
      var t := c.token;
      if t != Positive && t != Negative && t != Equal then
        Err(RelativeExpectTime + Parsed(ctx, b0, c))
      else
        var d :- Lex(ctx, c);
        RelativeTimeNumberAsWritten(ctx, b0, d, ldiff,
                                    if t == Positive then 1 else if t == Negative then -1 else lineSign,
                                    if t == Equal then Some(0) else None)
    else if !hasLine then
      Err(RelativeNoInformation + Parsed(ctx, b0, b))
    else
      RelativeClose(ctx, b0, b, ldiff, None)
  }

  function RelativeTimeNumberAsWritten(ctx: Ctx, b0: Buffer, b: Buffer, ldiff: Option<int>,
                                       sign: int, tdiff: Option<int>)
    : (r: Result<Step<RelativeBoard>>)
    requires b0.token != End && Measure(ctx, b) <= Measure(ctx, b0)
    ensures r.Ok? ==> r.value.got.Some? && Measure(ctx, r.value.rest) < Measure(ctx, b0)
  {
    if b.token != PositiveNumber then RelativeClose(ctx, b0, b, ldiff, tdiff)
    else if sign == 0 then
      Err(RelativeNoNumber + Parsed(ctx, b0, b))
    else
      var c :- Lex(ctx, b);
      RelativeClose(ctx, b0, c, ldiff, Some(sign * b.number))
  }

  /** As written, `T=` followed by a number keeps the sign of the `L` part:
    * the turn difference is that sign times the number. */
  lemma TimeEqualAsWritten(ctx: Ctx, b0: Buffer, b: Buffer, c: Buffer, d: Buffer, e: Buffer,
                           lineSign: int, ldiff: Option<int>)
    requires b0.token != End && Measure(ctx, b) <= Measure(ctx, b0) && lineSign != 0
    requires b.token == Time && Lex(ctx, b) == Ok(c) && c.token == Equal
    requires Lex(ctx, c) == Ok(d) && d.token == PositiveNumber
    requires Lex(ctx, d) == Ok(e) && e.token == RightParen && Lex(ctx, e).Ok?
    ensures RelativeTimeAsWritten(ctx, b0, b, lineSign, ldiff, true)
         == Ok(Step(Some(RelativeBoard(ldiff, Some(lineSign * d.number))), Lex(ctx, e).value))
  {
    LexDecreases(ctx, b);
    LexDecreases(ctx, c);
    LexDecreases(ctx, d);
  }

  /** As written, `T` and a sign with no number after it give no turn difference. */
  lemma TimeSignAsWritten(ctx: Ctx, b0: Buffer, b: Buffer, c: Buffer, d: Buffer,
                          lineSign: int, ldiff: Option<int>, hasLine: bool)
    requires b0.token != End && Measure(ctx, b) <= Measure(ctx, b0)
    requires b.token == Time && Lex(ctx, b) == Ok(c) && (c.token == Positive || c.token == Negative)
    requires Lex(ctx, c) == Ok(d) && d.token == RightParen && Lex(ctx, d).Ok?
    ensures RelativeTimeAsWritten(ctx, b0, b, lineSign, ldiff, hasLine)
         == Ok(Step(Some(RelativeBoard(ldiff, None)), Lex(ctx, d).value))
  {
    LexDecreases(ctx, b);
    LexDecreases(ctx, c);
  }

  /** `$(+1T=5)`: as written, the `5` after `T=` is taken as the turn
    * difference `+5`. */
  lemma TimeEqualKeepsLineSign(ctx: Ctx, b0: Buffer)
    requires ctx.input == "$(+1T=5)"
    requires b0.token == RelativeSym && b0.current == 1
    ensures RelativeTimeAsWritten(ctx, b0, b0.(token := Time, current := 5), 1, Some(1), true)
         == Ok(Step(Some(RelativeBoard(Some(1), Some(5))), b0.(token := End, number := 5, current := 8)))
  {
    var b := b0.(token := Time, current := 5);
    LexSingle(ctx, b, Equal);
    var c := b.(token := Equal, current := 6);
    LexDigitFive(ctx, c);
    var d := c.(token := PositiveNumber, number := 5, current := 7);
    LexSingle(ctx, d, RightParen);
    TimeEqualAsWritten(ctx, b0, b, c, d, d.(token := RightParen, current := 8), 1, Some(1));
  }

  /** `$(T+)`: as written, it is accepted with neither difference. */
  lemma TimeSignWithoutNumber(ctx: Ctx, b0: Buffer)
    requires ctx.input == "$(T+)"
    requires b0.token == RelativeSym && b0.current == 1
    ensures RelativeTimeAsWritten(ctx, b0, b0.(token := Time, current := 3), 0, None, false)
         == Ok(Step(Some(RelativeBoard(None, None)), b0.(token := End, current := 5)))
  {
    var b := b0.(token := Time, current := 3);
    LexSingle(ctx, b, Positive);
    var c := b.(token := Positive, current := 4);
    LexSingle(ctx, c, RightParen);
    TimeSignAsWritten(ctx, b0, b, c, c.(token := RightParen, current := 5), 0, None, false);
  }

  /** In the `T` part, a number after `=` is an error. */
  lemma TimeEqualTakesNoNumber(ctx: Ctx, b0: Buffer, b: Buffer, ldiff: Option<int>, hasLine: bool)
    requires b0.token != End && Measure(ctx, b) <= Measure(ctx, b0)
    requires b.token == Time && Lex(ctx, b).Ok? && Lex(ctx, b).value.token == Equal
    requires Lex(ctx, Lex(ctx, b).value).Ok? && Lex(ctx, Lex(ctx, b).value).value.token == PositiveNumber
    ensures RelativeTime(ctx, b0, b, ldiff, hasLine).Err?
  {
    LexDecreases(ctx, b);
    LexDecreases(ctx, Lex(ctx, b).value);
  }

  /** In the `T` part, a sign must be followed by a number. */
  lemma TimeSignNeedsNumber(ctx: Ctx, b0: Buffer, b: Buffer, ldiff: Option<int>, hasLine: bool)
    requires b0.token != End && Measure(ctx, b) <= Measure(ctx, b0)
    requires b.token == Time && Lex(ctx, b).Ok?
    requires Lex(ctx, b).value.token == Positive || Lex(ctx, b).value.token == Negative
    requires Lex(ctx, Lex(ctx, b).value).Ok? && Lex(ctx, Lex(ctx, b).value).value.token != PositiveNumber
    ensures RelativeTime(ctx, b0, b, ldiff, hasLine).Err?
  {
    LexDecreases(ctx, b);
    LexDecreases(ctx, Lex(ctx, b).value);
  }

  /** A character of a single-character token lexes as that token. */
  lemma LexSingle(ctx: Ctx, b: Buffer, t: Token)
    requires b.current < |ctx.input| && Classify(ctx.input[b.current]) == Single(t)
    ensures Lex(ctx, b) == Ok(b.(token := t, current := b.current + 1))
  {
  }

  /** The digit `5` before `)` lexes as the number 5. */
  lemma LexDigitFive(ctx: Ctx, c: Buffer)
    requires ctx.input == "$(+1T=5)" && c.current == 6
    ensures Lex(ctx, c) == Ok(c.(token := PositiveNumber, number := 5, current := 7))
  {
    assert Text.NatToString(5) == "5";
    LexReadsNumber(ctx, c, 5);
  }

  function RelativeClose(ctx: Ctx, b0: Buffer, b: Buffer, ldiff: Option<int>, tdiff: Option<int>)
    : (r: Result<Step<RelativeBoard>>)
    requires b0.token != End && Measure(ctx, b) <= Measure(ctx, b0)
    ensures r.Ok? ==> r.value.got == Some(RelativeBoard(ldiff, tdiff))
    ensures r.Ok? ==> Measure(ctx, r.value.rest) < Measure(ctx, b0)
  {
    if b.token != RightParen then
      Err(RelativeExpectClose + Parsed(ctx, b0, b))
    else
      var c :- Lex(ctx, b);
      Ok(Step(Some(RelativeBoard(ldiff, tdiff)), c))
  }

  /* parse_absolute_board */

  function ReadAbsoluteBoard(ctx: Ctx, b0: Buffer): (r: Result<Step<AbsoluteBoard>>)
    ensures Restores(b0, r) && Advances(ctx, b0, r)
  {
    if b0.token != LeftParen then Ok(Step(None, b0))
    else
      var b1 :- Lex(ctx, b0);
      var expectLine := b1.token == Line;
      var b2 :- SkipOptional(ctx, b1, Line);
      var t := b2.token;
      var signed := t == Positive || t == Negative;
      var hasLine := signed || t == PositiveNumber || t == Zero;
      if !hasLine && expectLine then
        Err(AbsoluteExpectLine + Parsed(ctx, b0, b2))
      else
        var sign := if signed then t else Nil;
        var b3 :- SkipSign(ctx, b2);
        if !hasLine then AbsoluteTime(ctx, b0, b3, sign, None, false)
        else if b3.token == PositiveNumber || b3.token == Zero then
          var b4 :- Lex(ctx, b3);
          AbsoluteTime(ctx, b0, b4, sign, Some(if b3.token == Zero then 0 else b3.number), true)
        else if sign == Nil then Ok(Step(None, b0))
        else Err(AbsoluteExpectNumber + Parsed(ctx, b0, b3))
  }

  function AbsoluteTime(ctx: Ctx, b0: Buffer, b: Buffer, sign: Token, line: Option<int>, hasLine: bool)
    : (r: Result<Step<AbsoluteBoard>>)
    requires b0.token != End && Measure(ctx, b) < Measure(ctx, b0)
    ensures Restores(b0, r) && Advances(ctx, b0, r)
    ensures r.Ok? && r.value.got.Some? ==> r.value.got.value.sign == sign && r.value.got.value.line == line
  {
    if b.token == Time then
      var c :- Lex(ctx, b);
      if c.token != PositiveNumber && c.token != Zero then
        Err(AbsoluteExpectTime + Parsed(ctx, b0, c))
      else
        var d :- Lex(ctx, c);
        AbsoluteClose(ctx, b0, d, sign, line, Some(if c.token == Zero then 0 else c.number))
    else if !hasLine then Ok(Step(None, b0))
    else AbsoluteClose(ctx, b0, b, sign, line, None)
  }

  function AbsoluteClose(ctx: Ctx, b0: Buffer, b: Buffer, sign: Token, line: Option<int>, time: Option<int>)
    : (r: Result<Step<AbsoluteBoard>>)
    requires b0.token != End && Measure(ctx, b) < Measure(ctx, b0)
    ensures Restores(b0, r) && Advances(ctx, b0, r)
    ensures r.Ok? && r.value.got.Some? ==> r.value.got.value == AbsoluteBoard(sign, line, time)
  {
    if b.token != RightParen then Ok(Step(None, b0))
    else
      var c :- Lex(ctx, b);
      Ok(Step(Some(AbsoluteBoard(sign, line, time)), c))
  }

  /* the parts shared by parse_physical_move and parse_superphysical_move */

  /** The optional piece letter, file and rank. */
  function ReadOrigin(ctx: Ctx, b: Buffer): (r: Result<Origin>)
    ensures r.Ok? ==> Measure(ctx, r.value.rest) <= Measure(ctx, b)
    ensures r.Ok? && r.value.rank.Some? ==> Measure(ctx, r.value.rest) < Measure(ctx, b)
    ensures r.Ok? && r.value.piece.None? && r.value.file.None? && r.value.rank.None? ==> r.value.rest == b
  {
    var b1 :- SkipOptional(ctx, b, Piece);
    var b2 :- SkipOptional(ctx, b1, FileChar);
    var b3 :- SkipOptional(ctx, b2, PositiveNumber);
    Ok(Origin(if b.token == Piece then Some(b.piece) else None,
              if b1.token == FileChar then Some(b1.file) else None,
              if b2.token == PositiveNumber then Some(CharValue(b2.number)) else None,
              b3))
  }

  /** An optional `=` and the promotion piece, which must follow it. */
  function ReadPromotion(ctx: Ctx, caller: string, b0: Buffer, b: Buffer): (r: Result<Step<char>>)
    ensures Restores(b, r) && Advances(ctx, b, r)
  {
    if b.token != Equal then Ok(Step(None, b))
    else
      var c :- Lex(ctx, b);
      if c.token != Piece then
        Err(caller + ExpectPromotion + Parsed(ctx, b0, c))
      else
        var d :- Lex(ctx, c);
        Ok(Step(Some(c.piece), d))
  }

  /** An optional token of the given kind. */
  function SkipOptional(ctx: Ctx, b: Buffer, t: Token): (r: Result<Buffer>)
    ensures b.token != t ==> r == Ok(b)
    ensures r.Ok? ==> Measure(ctx, r.value) <= Measure(ctx, b)
    ensures r.Ok? && b.token == t && t != End ==> Measure(ctx, r.value) < Measure(ctx, b)
  {
    if b.token == t then Lex(ctx, b) else Ok(b)
  }

  /** An optional `+` or `-`. */
  function SkipSign(ctx: Ctx, b: Buffer): (r: Result<Buffer>)
    ensures b.token != Positive && b.token != Negative ==> r == Ok(b)
    ensures r.Ok? && (b.token == Positive || b.token == Negative) ==> Measure(ctx, r.value) < Measure(ctx, b)
  {
    if b.token == Positive || b.token == Negative then Lex(ctx, b) else Ok(b)
  }

  /** An optional check symbol (`+`, `*` or `#`). */
  function SkipCheck(ctx: Ctx, b: Buffer): (r: Result<Buffer>)
    ensures r.Ok? ==> Measure(ctx, r.value) <= Measure(ctx, b)
  {
    if b.token == Positive || b.token == Softmate || b.token == Checkmate then Lex(ctx, b) else Ok(b)
  }

  /** An optional jump symbol (`>` or `>>`). */
  function SkipJump(ctx: Ctx, b: Buffer): (r: Result<Buffer>)
    ensures b.token != NonBranchJump && b.token != BranchingJump ==> r == Ok(b)
    ensures r.Ok? ==> Measure(ctx, r.value) <= Measure(ctx, b)
  {
    if b.token == NonBranchJump || b.token == BranchingJump then Lex(ctx, b) else Ok(b)
  }

  /* parse_physical_move */

  function ReadPhysicalMove(ctx: Ctx, b0: Buffer): (r: Result<Step<PhysicalMove>>)
    ensures Restores(b0, r) && Advances(ctx, b0, r)
  {
    var ab :- ReadAbsoluteBoard(ctx, b0);
    var b1 := ab.rest;
    if b1.token == CastleKingside || b1.token == CastleQueenside then
      var b2 :- Lex(ctx, b1);
      Ok(Step(Some(PhysicalMove(ab.got, b1.token, None, None, None, false, '\0', 0, None)), b2))
    else
      var o :- ReadOrigin(ctx, b1);
      var b4 := o.rest;
      if o.file.Some? && o.rank.Some? && b4.token != Capture && b4.token != FileChar then
        PhysicalShort(ctx, b0, b4, PhysicalMove(ab.got, Nil, o.piece, None, None, false, o.file.value, o.rank.value, None))
      else
        PhysicalLong(ctx, b0, b4, ab.got, o.piece, o.file, o.rank)
  }

  /** A lone square is the destination, unless a jump or a board follows it. */
  function PhysicalShort(ctx: Ctx, b0: Buffer, b: Buffer, m: PhysicalMove): (r: Result<Step<PhysicalMove>>)
    requires Measure(ctx, b) < Measure(ctx, b0)
    ensures Restores(b0, r) && Advances(ctx, b0, r)
  {
    if b.token == NonBranchJump || b.token == BranchingJump then Ok(Step(None, b0))
    else
      var rel :- ReadRelativeBoard(ctx, b);
      if rel.got.Some? then Ok(Step(None, b0))
      else
        var abs :- ReadAbsoluteBoard(ctx, rel.rest);
        if abs.got.Some? then Ok(Step(None, b0))
        else PhysicalSuffix(ctx, b0, abs.rest, m)
  }

  /** An optional `x`, then the destination square. */
  function PhysicalLong(ctx: Ctx, b0: Buffer, b: Buffer, board: Option<AbsoluteBoard>,
                        piece: Option<char>, fromFile: Option<char>, fromRank: Option<int>)
    : (r: Result<Step<PhysicalMove>>)
    requires Measure(ctx, b) <= Measure(ctx, b0)
    ensures Restores(b0, r) && Advances(ctx, b0, r)
  {
    var c :- SkipOptional(ctx, b, Capture);
    if c.token != FileChar then Ok(Step(None, b0))
    else
      var d :- Lex(ctx, c);
      if d.token != PositiveNumber then Ok(Step(None, b0))
      else
        var e :- Lex(ctx, d);
        PhysicalSuffix(ctx, b0, e, PhysicalMove(board, Nil, piece, fromFile, fromRank, b.token == Capture,
                                                c.file, CharValue(d.number), None))
  }

  /** Promotion, check symbol and evaluation symbol after the destination. */
  function PhysicalSuffix(ctx: Ctx, b0: Buffer, b: Buffer, m: PhysicalMove): (r: Result<Step<PhysicalMove>>)
    requires Measure(ctx, b) < Measure(ctx, b0)
    ensures r.Ok? ==> r.value.got.Some? && Measure(ctx, r.value.rest) < Measure(ctx, b0)
  {
    var p :- ReadPromotion(ctx, PhysicalCaller, b0, b);
    var c :- SkipCheck(ctx, p.rest);
    var d :- SkipOptional(ctx, c, EvaluationSym);
    Ok(Step(Some(m.(promote := p.got)), d))
  }

  /* parse_timeline_comment */

  function ReadTimelineComment(ctx: Ctx, b0: Buffer): (r: Result<Step<()>>)
    ensures Restores(b0, r) && Advances(ctx, b0, r)
  {
    var b1 :- SkipOptional(ctx, b0, WhiteSpace);
    if b1.token != LeftParen then Ok(Step(None, b0))
    else
      var b2 :- Lex(ctx, b1);
      if b2.token == NonBranchJump then
        var b3 :- Lex(ctx, b2);
        if b3.token != Line then Ok(Step(None, b0))
        else TimelineLine(ctx, b0, b3)
      else if b2.token == PresentMoved then
        var b3 :- Lex(ctx, b2);
        if b3.token != Time then Ok(Step(None, b0))
        else TimelinePresent(ctx, b0, b3)
      else Ok(Step(None, b0))
  }

  /** `(>L`, an optional sign, then the line number. */
  function TimelineLine(ctx: Ctx, b0: Buffer, b: Buffer): (r: Result<Step<()>>)
    requires b.token == Line && Measure(ctx, b) < Measure(ctx, b0)
    ensures r.Ok? ==> r.value.got.Some? && Measure(ctx, r.value.rest) < Measure(ctx, b0)
  {
    var c :- Lex(ctx, b);
    var d :- SkipSign(ctx, c);
    if d.token != Zero && d.token != PositiveNumber then
      Err(TimelineExpectLine + Parsed(ctx, b0, d))
    else
      var e :- Lex(ctx, d);
      TimelineClose(ctx, b0, e)
  }

  /** `(>T` then the time number. */
  function TimelinePresent(ctx: Ctx, b0: Buffer, b: Buffer): (r: Result<Step<()>>)
    requires b.token == Time && Measure(ctx, b) < Measure(ctx, b0)
    ensures r.Ok? ==> r.value.got.Some? && Measure(ctx, r.value.rest) < Measure(ctx, b0)
  {
    var c :- Lex(ctx, b);
    if c.token != Zero && c.token != PositiveNumber then
      Err(TimelineExpectTime + Parsed(ctx, b0, c))
    else
      var d :- Lex(ctx, c);
      TimelineClose(ctx, b0, d)
  }

  function TimelineClose(ctx: Ctx, b0: Buffer, b: Buffer): (r: Result<Step<()>>)
    requires Measure(ctx, b) < Measure(ctx, b0)
    ensures r.Ok? ==> r.value.got.Some? && Measure(ctx, r.value.rest) < Measure(ctx, b0)
  {
    if b.token != RightParen then
      Err(TimelineExpectClose + Parsed(ctx, b0, b))
    else
      var c :- Lex(ctx, b);
      Ok(Step(Some(()), c))
  }

  /** `while(parse_timeline_comment());` */
  function ReadTimelineComments(ctx: Ctx, b: Buffer): (r: Result<Buffer>)
    ensures r.Ok? ==> Measure(ctx, r.value) <= Measure(ctx, b)
    decreases Measure(ctx, b)
  {
    var t :- ReadTimelineComment(ctx, b);
    if t.got.None? then Ok(b) else ReadTimelineComments(ctx, t.rest)
  }

  /* parse_superphysical_move */

  function ReadSuperphysicalMove(ctx: Ctx, b0: Buffer): (r: Result<Step<SuperphysicalMove>>)
    ensures Restores(b0, r) && Advances(ctx, b0, r)
  {
    var ab :- ReadAbsoluteBoard(ctx, b0);
    var o :- ReadOrigin(ctx, ab.rest);
    var b4 := o.rest;
    var jump := if b4.token == NonBranchJump || b4.token == BranchingJump then b4.token else Nil;
    var b5 :- SkipJump(ctx, b4);
    var b6 :- SkipOptional(ctx, b5, Capture);
    var to :- ReadDestination(ctx, b0, b6, jump);
    if to.got.None? then Ok(Step(None, b0))
    else
      SuperphysicalTail(ctx, b0, to.rest,
                        SuperphysicalMove(ab.got, o.piece, o.file, o.rank, jump, b5.token == Capture,
                                          to.got.value, '\0', 0, None))
  }

  /** The destination board: none after a jump straight to a file, else an
    * absolute or a relative board; after a jump one of them is required. */
  function ReadDestination(ctx: Ctx, b0: Buffer, b: Buffer, jump: Token): (r: Result<Step<Destination>>)
    ensures Restores(b, r)
    ensures r.Ok? ==> Measure(ctx, r.value.rest) <= Measure(ctx, b)
  {
    if jump != Nil && b.token == FileChar then Ok(Step(Some(NoBoard), b))
    else
      var abs :- ReadAbsoluteBoard(ctx, b);
      if abs.got.Some? then Ok(Step(Some(ToAbsolute(abs.got.value)), abs.rest))
      else
        var rel :- ReadRelativeBoard(ctx, b);
        if rel.got.Some? then Ok(Step(Some(ToRelative(rel.got.value)), rel.rest))
        else if jump == Nil then Ok(Step(None, b))
        else Err(ExpectDestination
                 + Parsed(ctx, b0, b))
  }

  /** Once the destination board is read the rest is required: file, rank,
    * then the optional symbols and timeline comments. */
  function SuperphysicalTail(ctx: Ctx, b0: Buffer, b: Buffer, m: SuperphysicalMove)
    : (r: Result<Step<SuperphysicalMove>>)
    requires Measure(ctx, b) <= Measure(ctx, b0)
    ensures r.Ok? ==> r.value.got.Some? && Measure(ctx, r.value.rest) < Measure(ctx, b0)
  {
    if b.token != FileChar then
      Err(ExpectDestinationFile + Parsed(ctx, b0, b))
    else
      var c :- Lex(ctx, b);
      if c.token != PositiveNumber then
        Err(ExpectDestinationRank + Parsed(ctx, b0, c))
      else
        var d :- Lex(ctx, c);
        var p :- ReadPromotion(ctx, SuperphysicalCaller, b0, d);
        var e :- SkipCheck(ctx, p.rest);
        var f :- SkipOptional(ctx, e, PresentMoved);
        var g :- SkipOptional(ctx, f, EvaluationSym);
        var h :- ReadTimelineComments(ctx, g);
        Ok(Step(Some(m.(toFile := b.file, toRank := CharValue(c.number), promote := p.got)), h))
  }

  /* parse_move */

  function ReadMove(ctx: Ctx, b0: Buffer): (r: Result<Step<Move>>)
    ensures Restores(b0, r) && Advances(ctx, b0, r)
  {
    var pm :- ReadPhysicalMove(ctx, b0);
    if pm.got.Some? then Ok(Step(Some(Physical(pm.got.value)), pm.rest))
    else
      var sm :- ReadSuperphysicalMove(ctx, b0);
      if sm.got.Some? then Ok(Step(Some(Superphysical(sm.got.value)), sm.rest))
      else Ok(Step(None, b0))
  }

  /* parse_comments */

  predicate SpaceOrComment(t: Token)
  {
    t == WhiteSpace || t == Comment
  }

  /** Skips whitespace and comments, appending the comment texts to `acc`. */
  function ReadComments(ctx: Ctx, b: Buffer, acc: seq<string>): (r: Result<Collected>)
    ensures !SpaceOrComment(b.token) ==> r == Ok(Collected(acc, b))
    ensures b.token == Comment && r.Ok? ==> |r.value.comments| > |acc| && r.value.comments[|acc|] == b.comment
    ensures r.Ok? ==> !SpaceOrComment(r.value.rest.token)
    ensures r.Ok? ==> acc <= r.value.comments
    ensures r.Ok? ==> Measure(ctx, r.value.rest) <= Measure(ctx, b)
    decreases Measure(ctx, b)
  {
    if !SpaceOrComment(b.token) then Ok(Collected(acc, b))
    else
      var c :- Lex(ctx, b);
      ReadComments(ctx, c, if b.token == Comment then acc + [b.comment] else acc)
  }

  /** Collecting onto `acc` gives `acc` followed by what collecting onto
    * nothing gives, and the same buffer or the same error. */
  ghost predicate AppendsTo(ctx: Ctx, b: Buffer, acc: seq<string>)
  {
    var r, r0 := ReadComments(ctx, b, acc), ReadComments(ctx, b, []);
    && (r0.Err? ==> r == r0)
    && (r0.Ok? ==> r == Ok(Collected(acc + r0.value.comments, r0.value.rest)))
  }

  lemma {:induction false} ReadCommentsAppend(ctx: Ctx, b: Buffer, acc: seq<string>)
    ensures AppendsTo(ctx, b, acc)
    decreases Measure(ctx, b)
  {
    if SpaceOrComment(b.token) && Lex(ctx, b).Ok? {
      var c := Lex(ctx, b).value;
      if b.token == Comment {
        ReadCommentsAppend(ctx, c, acc + [b.comment]);
        ReadCommentsAppend(ctx, c, [b.comment]);
        AppendComment(ctx, b, c, acc);
      } else {
        ReadCommentsAppend(ctx, c, acc);
      }
    } else if !SpaceOrComment(b.token) {
      assert acc + [] == acc;
    }
  }

  /** The step of `ReadCommentsAppend` over a comment token. */
  lemma AppendComment(ctx: Ctx, b: Buffer, c: Buffer, acc: seq<string>)
    requires b.token == Comment && Lex(ctx, b) == Ok(c)
    requires AppendsTo(ctx, c, acc + [b.comment]) && AppendsTo(ctx, c, [b.comment])
    ensures AppendsTo(ctx, b, acc)
  {
    var x := [b.comment];
    ReadCommentsStep(ctx, b, c, acc);
    ReadCommentsStep(ctx, b, c, []);
    assert [] + x == x;
    var q := ReadComments(ctx, c, []);
    if q.Ok? {
      assert ReadComments(ctx, b, []) == Ok(Collected(x + q.value.comments, q.value.rest));
      assert ReadComments(ctx, b, acc) == Ok(Collected(acc + x + q.value.comments, q.value.rest));
      Seqs.Assoc(acc, x, q.value.comments);
    } else {
      assert ReadComments(ctx, b, []) == q;
      assert ReadComments(ctx, b, acc) == q;
    }
  }

  /** One step of `ReadComments` over a comment. */
  lemma ReadCommentsStep(ctx: Ctx, b: Buffer, c: Buffer, acc: seq<string>)
    requires b.token == Comment && Lex(ctx, b) == Ok(c)
    ensures ReadComments(ctx, b, acc) == ReadComments(ctx, c, acc + [b.comment])
  {
  }

  /* parse_actions */

  /** A turn serial, then at least one move; moves are separated by
    * whitespace or comments, and only the comments after the last move are
    * kept. */
  function ReadActions(ctx: Ctx, b0: Buffer): (r: Result<Step<Actions>>)
    ensures Restores(b0, r) && Advances(ctx, b0, r)
    ensures r.Ok? && r.value.got.Some? ==> |r.value.got.value.moves| >= 1
    ensures b0.token != TurnSerial ==> r == Ok(Step(None, b0))
  {
    if b0.token != TurnSerial then Ok(Step(None, b0))
    else
      var b1 :- Lex(ctx, b0);
      var c :- ReadComments(ctx, b1, []);
      var m :- ReadMove(ctx, c.rest);
      if m.got.None? then Ok(Step(None, b0))
      else if !SpaceOrComment(m.rest.token) then Ok(Step(Some(Actions([m.got.value], [])), m.rest))
      else
        var cs :- ReadComments(ctx, m.rest, []);
        MoreMoves(ctx, cs.rest, [m.got.value], cs.comments)
  }

  /** The loop over the further moves, with the comments read since the last one. */
  function MoreMoves(ctx: Ctx, b: Buffer, moves: seq<Move>, comments: seq<string>)
    : (r: Result<Step<Actions>>)
    ensures r.Ok? ==> r.value.got.Some? && moves <= r.value.got.value.moves
    ensures r.Ok? ==> Measure(ctx, r.value.rest) <= Measure(ctx, b)
    decreases Measure(ctx, b)
  {
    var m :- ReadMove(ctx, b);
    if m.got.None? then Ok(Step(Some(Actions(moves, comments)), b))
    else if !SpaceOrComment(m.rest.token) then Ok(Step(Some(Actions(moves + [m.got.value], [])), m.rest))
    else
      var cs :- ReadComments(ctx, m.rest, []);
      MoreMoves(ctx, cs.rest, moves + [m.got.value], cs.comments)
  }

  /* parse_gametree */

  /** The parenthesised variations, then an optional main line; a
    * parenthesis not followed by actions fails the whole tree. */
  function ReadGameTree(ctx: Ctx, b0: Buffer): (r: Result<Step<GameTree>>)
    ensures Restores(b0, r)
    ensures r.Ok? ==> Measure(ctx, r.value.rest) <= Measure(ctx, b0)
    decreases Measure(ctx, b0), 2
  {
    ReadBranches(ctx, b0, b0, [])
  }

  /** The loop over the variations from `b`, with those read so far. */
  function ReadBranches(ctx: Ctx, b0: Buffer, b: Buffer, vs: seq<Variation>): (r: Result<Step<GameTree>>)
    requires Measure(ctx, b) <= Measure(ctx, b0)
    ensures Restores(b0, r)
    ensures r.Ok? && r.value.got.Some? ==> vs <= r.value.got.value.variations
    ensures r.Ok? && r.value.got.Some? ==> Measure(ctx, r.value.rest) <= Measure(ctx, b)
    ensures r.Ok? ==> Measure(ctx, r.value.rest) <= Measure(ctx, b0)
    decreases Measure(ctx, b), 1
  {
    if b.token == LeftParen then
      var v :- ReadVariation(ctx, b0, b);
      if v.got.None? then Ok(Step(None, b0))
      else ReadBranches(ctx, b0, v.rest, vs + [v.got.value])
    else MainLine(ctx, b0, b, vs)
  }

  /** One `(` actions tree `)` and the comments after it; the turn goes back
    * to the turn at the start of the tree `b0` before the next token. */
  function ReadVariation(ctx: Ctx, b0: Buffer, b: Buffer): (r: Result<Step<Variation>>)
    requires b.token == LeftParen
    ensures Restores(b, r)
    ensures r.Ok? && r.value.got.Some? ==> Measure(ctx, r.value.rest) < Measure(ctx, b)
    decreases Measure(ctx, b), 0
  {
    var c :- Lex(ctx, b);
    var cs :- ReadComments(ctx, c, []);
    var a :- ReadActions(ctx, cs.rest);
    if a.got.None? then Ok(Step(None, b))
    else
      var t :- ReadGameTree(ctx, a.rest);
      if t.got.None? then Err(InvalidBranch + Parsed(ctx, b0, t.rest))
      else CloseVariation(ctx, b0, t.rest, Variation(a.got.value, t.got.value))
  }

  /** The `)` that closes a variation, with the turn reset, and the comments after it. */
  function CloseVariation(ctx: Ctx, b0: Buffer, b: Buffer, v: Variation): (r: Result<Step<Variation>>)
    ensures r.Ok? ==> r.value.got == Some(v) && Measure(ctx, r.value.rest) < Measure(ctx, b)
    ensures r.Ok? ==> b.token == RightParen
  {
    if b.token != RightParen then Err(ExpectBranchClose + Parsed(ctx, b0, b))
    else
      var d :- Lex(ctx, b.(turn := b0.turn));
      var ds :- ReadComments(ctx, d, []);
      Ok(Step(Some(v), ds.rest))
  }

  /** The optional main line after the variations: actions, then the tree
    * after them, which cannot fail there. */
  function MainLine(ctx: Ctx, b0: Buffer, b: Buffer, vs: seq<Variation>): (r: Result<Step<GameTree>>)
    ensures r.Ok? ==> r.value.got.Some? && vs <= r.value.got.value.variations
    ensures r.Ok? ==> Measure(ctx, r.value.rest) <= Measure(ctx, b)
    ensures b.token != TurnSerial ==> r == Ok(Step(Some(GameTree(vs)), b))
    decreases Measure(ctx, b), 0
  {
    var a :- ReadActions(ctx, b);
    if a.got.None? then Ok(Step(Some(GameTree(vs)), b))
    else
      var t :- ReadGameTree(ctx, a.rest);
      if t.got.None? then Err(InvalidContinuation + Parsed(ctx, b0, t.rest))
      else Ok(Step(Some(GameTree(vs + [Variation(a.got.value, t.got.value)])), t.rest))
  }

  /* parse_game */

  /** The metadata loop: each metadata text is read as a header or a board
    * string, then the whitespace and comments after it are collected. */
  function ReadMetadata(ctx: Ctx, b: Buffer, m: PgnHeaders.Metadata, comments: seq<string>)
    : (r: Result<MetaRead>)
    ensures b.token != Metadata ==> r == Ok(MetaRead(m, comments, b))
    ensures r.Ok? ==> r.value.rest.token != Metadata && comments <= r.value.comments
    ensures r.Ok? ==> |m.boards| <= |r.value.meta.boards| && m.headers.Keys <= r.value.meta.headers.Keys
    ensures r.Ok? ==> Measure(ctx, r.value.rest) <= Measure(ctx, b)
    decreases Measure(ctx, b)
  {
    if b.token != Metadata then Ok(MetaRead(m, comments, b))
    else
      var m1 :- PgnHeaders.AddMetadata(b.comment, m);
      var c :- Lex(ctx, b);
      var cs :- ReadComments(ctx, c, comments);
      ReadMetadata(ctx, cs.rest, m1, cs.comments)
  }

  /** Comments before the first metadata are skipped; the game tree fails
    * only when a variation is not followed by actions. */
  function ReadGame(ctx: Ctx, b0: Buffer): (r: Result<Step<Game>>)
    ensures Restores(b0, r)
    ensures r.Ok? ==> Measure(ctx, r.value.rest) <= Measure(ctx, b0)
  {
    var c :- ReadComments(ctx, b0, []);
    var md :- ReadMetadata(ctx, c.rest, PgnHeaders.Metadata(map[], []), []);
    var cs :- ReadComments(ctx, md.rest, md.comments);
    var t :- ReadGameTree(ctx, cs.rest);
    if t.got.None? then Ok(Step(None, b0))
    else Ok(Step(Some(Game(md.meta.headers, md.meta.boards, t.got.value, cs.comments)), t.rest))
  }

  /** `pgnparser(input, checkTurn, start).parse_game()`: the constructor reads
    * the first token. */
  function GameOf(input: string, checkTurn: bool, start: Turn.Turn): Result<Option<Game>>
  {
    var ctx := Ctx(input, checkTurn);
    var b :- Lex(ctx, Initial(start));
    var g :- ReadGame(ctx, b);
    Ok(g.got)
  }

  /** At the end of the input the game reads as an empty one: no headers,
    * no boards and a tree without variations. */
  lemma GameAtEnd(ctx: Ctx, b: Buffer)
    requires b.token == End
    ensures ReadGame(ctx, b) == Ok(Step(Some(Game(map[], [], GameTree([]), [])), b))
  {
    MetadataAtEnd(ctx, b);
    assert ReadActions(ctx, b) == Ok(Step(None, b));
    assert ReadGameTree(ctx, b) == Ok(Step(Some(GameTree([])), b));
  }

  /** At the end of the input there is no metadata to read. */
  lemma MetadataAtEnd(ctx: Ctx, b: Buffer)
    requires b.token == End
    ensures ReadMetadata(ctx, b, PgnHeaders.Metadata(map[], []), [])
         == Ok(MetaRead(PgnHeaders.Metadata(map[], []), [], b))
  {
    assert ReadComments(ctx, b, []) == Ok(Collected([], b));
  }

  /** An empty text is an empty game. */
  lemma EmptyGame(checkTurn: bool, start: Turn.Turn)
    ensures GameOf("", checkTurn, start) == Ok(Some(Game(map[], [], GameTree([]), [])))
  {
    var ctx := Ctx("", checkTurn);
    var b := Initial(start).(token := End);
    assert Lex(ctx, Initial(start)) == Ok(b);
    GameAtEnd(ctx, b);
  }
}
