/** The `pgnparser` object: the input, the turn check flag and the lexer
  * buffer that `next_token` and the `parse_...` members advance in place.
  * Each method is proved to do to the buffer what the matching function of
  * `PgnLexer` or `PgnGrammar` says. */
module PgnParser {
  import opened Wrappers
  import opened PgnLexer
  import opened PgnGrammar
  import Text
  import Turn
  import PgnHeaders

  /* The scanning loops of `next_token`. */

  /** The digit loop: where the run of digits from `i` ends and its decimal value. */
  method ScanDigits(s: string, i: nat) returns (e: nat, n: nat)
    requires i <= |s|
    ensures e == DigitsEnd(s, i)
    ensures n == Text.DigitsValue(s[i..e])
  {
    e, n := i, 0;
    while e < |s| && Text.IsDigit(s[e])
      invariant i <= e <= |s|
      invariant DigitsEnd(s, e) == DigitsEnd(s, i)
      invariant forall k :: i <= k < e ==> Text.IsDigit(s[k])
      invariant n == Text.DigitsValue(s[i..e])
      decreases |s| - e
    {
      assert s[i..e + 1][..e - i] == s[i..e];
      n := n * 10 + Text.DigitValue(s[e]);
      e := e + 1;
    }
  }

  /** The whitespace loop. */
  method ScanSpaces(s: string, i: nat) returns (e: nat)
    requires i <= |s|
    ensures e == SpaceEnd(s, i)
  {
    e := i;
    while e < |s| && IsCSpace(s[e])
      invariant i <= e <= |s|
      invariant SpaceEnd(s, e) == SpaceEnd(s, i)
      decreases |s| - e
    {
      e := e + 1;
    }
  }

  /** The loop over further `?` and `!`. */
  method ScanEval(s: string, i: nat) returns (e: nat)
    requires i <= |s|
    ensures e == EvalEnd(s, i)
  {
    e := i;
    while e < |s| && (s[e] == '?' || s[e] == '!')
      invariant i <= e <= |s|
      invariant EvalEnd(s, e) == EvalEnd(s, i)
      decreases |s| - e
    {
      e := e + 1;
    }
  }

  /** The `[` loop: from the `[` at `i` to the first `]`, `None` when the
    * input ends first. */
  method ScanBracket(s: string, i: nat) returns (r: Option<nat>)
    requires i < |s| && s[i] == '['
    ensures r == CloseBracket(s, i + 1)
  {
    var j := i;
    while s[j] != ']'
      invariant i <= j < |s|
      invariant s[j] != ']' ==> CloseBracket(s, j + 1) == CloseBracket(s, i + 1)
      invariant s[j] == ']' ==> CloseBracket(s, i + 1) == Some(j)
      decreases |s| - j
    {
      j := j + 1;
      if j == |s| {
        return None;
      }
    }
    return Some(j);
  }

  /** The `{` loop: the nesting level goes up at `{` and down at `}`, and
    * the comment ends where it reaches zero. */
  method ScanBrace(s: string, i: nat) returns (r: Option<nat>)
    requires i < |s| && s[i] == '{'
    ensures r == CloseBrace(s, i + 1, 1)
  {
    var j := i;
    var level: nat := 1;
    while level > 0
      invariant i <= j < |s|
      invariant level > 0 ==> CloseBrace(s, j + 1, level) == CloseBrace(s, i + 1, 1)
      invariant level == 0 ==> CloseBrace(s, i + 1, 1) == Some(j)
      decreases |s| - j
    {
      j := j + 1;
      if j == |s| {
        return None;
      } else if s[j] == '{' {
        level := level + 1;
      } else if s[j] == '}' {
        level := level - 1;
      }
    }
    return Some(j);
  }

  /** The digit branch once the run of digits is read: a turn serial or a number. */
  method NumberToken(ctx: Ctx, b: Buffer, e: nat, n: nat) returns (r: Result<Buffer>)
    requires b.current < |ctx.input|
    requires e == DigitsEnd(ctx.input, b.current) && n == Text.DigitsValue(ctx.input[b.current..e])
    ensures r == LexNumber(ctx, b)
  {
    var s := ctx.input;
    if e + 1 < |s| && (s[e] == 'w' || s[e] == 'b') && s[e + 1] == '.' {
      r := TurnToken(ctx, b, n, s[e] == 'b', e + 2);
    } else if e < |s| && s[e] == '.' {
      r := TurnToken(ctx, b, n, false, e + 1);
    } else {
      r := Ok(b.(token := PositiveNumber, number := n, current := e));
    }
  }

  /** A turn serial, checked against the previous turn when asked to. */
  method TurnToken(ctx: Ctx, b: Buffer, n: int, black: bool, next: nat) returns (r: Result<Buffer>)
    ensures r == LexTurn(ctx, b, n, black, next)
  {
    var newTurn := (n, black);
    if ctx.checkTurn && newTurn != Turn.NextTurn(b.turn) {
      return Err(TurnMessage(b.turn, n, black));
    }
    return Ok(b.(token := TurnSerial, number := n, turn := newTurn, current := next));
  }

  /** The `[` branch: the text up to `]`, or the error when there is none. */
  method MetadataToken(s: string, b: Buffer) returns (r: Result<Buffer>)
    requires b.current < |s| && s[b.current] == '['
    ensures r == LexMetadata(s, b)
  {
    var i := b.current;
    var k := ScanBracket(s, i);
    if k.None? {
      r := Err("next_token(): expect ']' after '[': " + s[i..]);
    } else {
      r := Ok(b.(token := Metadata, comment := s[i + 1..k.value], current := k.value + 1));
    }
  }

  /** The `{` branch: the text up to the matching `}`, or the error when there is none. */
  method CommentToken(s: string, b: Buffer) returns (r: Result<Buffer>)
    requires b.current < |s| && s[b.current] == '{'
    ensures r == LexComment(s, b)
  {
    var i := b.current;
    var k := ScanBrace(s, i);
    if k.None? {
      r := Err("next_token(): comment not closed: " + s[i..]);
    } else {
      r := Ok(b.(token := Comment, comment := s[i + 1..k.value], current := k.value + 1));
    }
  }

  /** `next_token` on a buffer value: the token at `b.current`. */
  method Scan(ctx: Ctx, b: Buffer) returns (r: Result<Buffer>)
    ensures r == Lex(ctx, b)
  {
    var s, i := ctx.input, b.current;
    if i == |s| {
      return Ok(b.(token := End));
    } else if i > |s| {
      return Err(UnknownMessage('\0'));
    }
    var c := Classify(s[i]);
    if c.CastleO? || c.NonZeroDigit? || c.EvalMark? {
      r := ScanRun(ctx, b);
    } else if c.Bracket? || c.Brace? || c.Space? {
      r := ScanBlock(ctx, b);
    } else {
      r := ScanOne(ctx, b);
    }
  }

  /** The branches of `next_token` that read one or two characters. */
  method ScanOne(ctx: Ctx, b: Buffer) returns (r: Result<Buffer>)
    requires b.current < |ctx.input|
    requires var c := Classify(ctx.input[b.current]);
      !(c.CastleO? || c.NonZeroDigit? || c.EvalMark? || c.Bracket? || c.Brace? || c.Space?)
    ensures r == Lex(ctx, b)
  {
    var s, i := ctx.input, b.current;
    match Classify(s[i])
    case Single(t) => r := Ok(b.(token := t, current := i + 1));
    case PieceLetter => r := Ok(b.(token := Piece, piece := s[i], current := i + 1));
    case FileLetter => r := Ok(b.(token := FileChar, file := s[i], current := i + 1));
    case Slash => r := Ok(b.(token := TurnSerial, turn := Turn.NextTurn(b.turn), current := i + 1));
    case Jump =>
      if At(s, i + 1) == '>' {
        r := Ok(b.(token := BranchingJump, current := i + 2));
      } else {
        r := Ok(b.(token := NonBranchJump, current := i + 1));
      }
    case Unknown => r := Err(UnknownMessage(s[i]));
  }

  /** The branches of `next_token` that scan castling, a number or an
    * evaluation mark. */
  method ScanRun(ctx: Ctx, b: Buffer) returns (r: Result<Buffer>)
    requires b.current < |ctx.input|
    requires var c := Classify(ctx.input[b.current]);
      c.CastleO? || c.NonZeroDigit? || c.EvalMark?
    ensures r == Lex(ctx, b)
  {
    var s, i := ctx.input, b.current;
    match Classify(s[i])
    case CastleO =>
      assert Lex(ctx, b) == LexCastle(s, b);
      r := LexCastle(s, b);
    case NonZeroDigit =>
      assert Lex(ctx, b) == LexNumber(ctx, b);
      var e, n := ScanDigits(s, i);
      r := NumberToken(ctx, b, e, n);
    case EvalMark =>
      var e := ScanEval(s, i + 1);
      assert Lex(ctx, b) == Ok(b.(token := EvaluationSym, comment := Slice(s, i, e + 1), current := e));
      r := Ok(b.(token := EvaluationSym, comment := Slice(s, i, e + 1), current := e));
  }

  /** The branches of `next_token` that scan a bracket, a brace or white
    * space. */
  method ScanBlock(ctx: Ctx, b: Buffer) returns (r: Result<Buffer>)
    requires b.current < |ctx.input|
    requires var c := Classify(ctx.input[b.current]);
      c.Bracket? || c.Brace? || c.Space?
    ensures r == Lex(ctx, b)
  {
    var s, i := ctx.input, b.current;
    match Classify(s[i])
    case Bracket => r := MetadataToken(s, b);
    case Brace => r := CommentToken(s, b);
    case Space =>
      var e := ScanSpaces(s, i);
      r := Ok(b.(token := WhiteSpace, current := e));
  }

  /** A parse method's result and buffer are those of the function that
    * specifies it: the same error, or the same value and the buffer it leaves. */
  ghost predicate Follows<T>(r: Result<Option<T>>, f: Result<Step<T>>, buffer: Buffer)
  {
    && (f.Err? ==> r == Err(f.error))
    && (f.Ok? ==> r == Ok(f.value.got) && buffer == f.value.rest)
  }

  class Parser {
    const ctx: Ctx
    var buffer: Buffer

    /** The fields before the first `next_token`. */
    constructor (input: string, checkTurn: bool, start: Turn.Turn)
      ensures ctx == Ctx(input, checkTurn) && buffer == Initial(start)
    {
      ctx := Ctx(input, checkTurn);
      buffer := Initial(start);
    }

    /** `pgnparser(msg, ck, start_turn)`: the constructor reads the first
      * token, and throws what `next_token` throws. */
    static method Open(input: string, checkTurn: bool, start: Turn.Turn) returns (r: Result<Parser>)
      ensures var f := Lex(Ctx(input, checkTurn), Initial(start));
        && (f.Err? ==> r == Err(f.error))
        && (f.Ok? ==> r.Ok? && fresh(r.value) && r.value.ctx == Ctx(input, checkTurn)
                      && r.value.buffer == f.value)
    {
      var p := new Parser(input, checkTurn, start);
      var t := p.NextToken();
      if t.Err? {
        return Err(t.error);
      }
      return Ok(p);
    }

    /** `next_token`. */
    method NextToken() returns (r: Result<()>)
      modifies this
      ensures Lex(ctx, old(buffer)).Err? ==> r == Err(Lex(ctx, old(buffer)).error)
      ensures Lex(ctx, old(buffer)).Ok? ==> r == Ok(()) && buffer == Lex(ctx, old(buffer)).value
    {
      var t := Scan(ctx, buffer);
      if t.Err? {
        return Err(t.error);
      }
      buffer := t.value;
      return Ok(());
    }

    /** `parse_comments`. */
    method ParseComments() returns (r: Result<seq<string>>)
      modifies this
      ensures var f := ReadComments(ctx, old(buffer), []);
        && (f.Err? ==> r == Err(f.error))
        && (f.Ok? ==> r == Ok(f.value.comments) && buffer == f.value.rest)
    {
      var comments: seq<string> := [];
      while buffer.token == WhiteSpace || buffer.token == Comment
        invariant ReadComments(ctx, buffer, comments) == ReadComments(ctx, old(buffer), [])
        decreases Measure(ctx, buffer)
      {
        var b := buffer;
        var t := NextToken();
        if t.Err? {
          return Err(t.error);
        }
        if b.token == Comment {
          comments := comments + [b.comment];
        }
      }
      return Ok(comments);
    }

    /** `parse_move`: the straight-line parsers, as their functions. */
    method ParseMove() returns (r: Result<Option<Move>>)
      modifies this
      ensures Follows(r, ReadMove(ctx, old(buffer)), buffer)
    {
      var f := ReadMove(ctx, buffer);
      if f.Err? {
        return Err(f.error);
      }
      buffer := f.value.rest;
      return Ok(f.value.got);
    }

    /** `parse_actions`. */
    method ParseActions() returns (r: Result<Option<Actions>>)
      modifies this
      ensures Follows(r, ReadActions(ctx, old(buffer)), buffer)
    {
      var start := buffer;
      if buffer.token != TurnSerial {
        return Ok(None);
      }
      var t := NextToken();
      if t.Err? {
        return Err(t.error);
      }
      var skipped := ParseComments();
      if skipped.Err? {
        return Err(skipped.error);
      }
      var m := ParseMove();
      if m.Err? {
        return Err(m.error);
      }
      if m.value.None? {
        buffer := start;
        return Ok(None);
      }
      if !SpaceOrComment(buffer.token) {
        return Ok(Some(Actions([m.value.value], [])));
      }
      var cs := ParseComments();
      if cs.Err? {
        return Err(cs.error);
      }
      r := ParseMoreMoves([m.value.value], cs.value);
    }

    /** The `while((mv_buffer = parse_move()))` loop of `parse_actions`. */
    method ParseMoreMoves(moves0: seq<Move>, comments0: seq<string>) returns (r: Result<Option<Actions>>)
      modifies this
      ensures Follows(r, MoreMoves(ctx, old(buffer), moves0, comments0), buffer)
    {
      var moves, comments := moves0, comments0;
      while true
        invariant MoreMoves(ctx, buffer, moves, comments) == MoreMoves(ctx, old(buffer), moves0, comments0)
        decreases Measure(ctx, buffer)
      {
        var m := ParseMove();
        if m.Err? {
          return Err(m.error);
        }
        if m.value.None? {
          return Ok(Some(Actions(moves, comments)));
        }
        moves := moves + [m.value.value];
        if !SpaceOrComment(buffer.token) {
          return Ok(Some(Actions(moves, [])));
        }
        var cs := ParseComments();
        if cs.Err? {
          return Err(cs.error);
        }
        comments := cs.value;
      }
    }

    /** `parse_gametree`. */
    method ParseGametree() returns (r: Result<Option<GameTree>>)
      modifies this
      ensures Follows(r, ReadGameTree(ctx, old(buffer)), buffer)
      decreases Measure(ctx, buffer), 2
    {
      var start := buffer;
      var variations: seq<Variation> := [];
      while buffer.token == LeftParen
        invariant Measure(ctx, buffer) <= Measure(ctx, start)
        invariant ReadBranches(ctx, start, buffer, variations) == ReadGameTree(ctx, start)
        decreases Measure(ctx, buffer)
      {
        var v := ParseVariation(start);
        if v.Err? {
          return Err(v.error);
        }
        if v.value.None? {
          buffer := start;
          return Ok(None);
        }
        variations := variations + [v.value.value];
      }
      r := ParseMainLine(start, variations);
    }

    /** One turn of the variation loop of `parse_gametree` started at `start`. */
    method ParseVariation(start: Buffer) returns (r: Result<Option<Variation>>)
      requires buffer.token == LeftParen
      modifies this
      ensures Follows(r, ReadVariation(ctx, start, old(buffer)), buffer)
      decreases Measure(ctx, buffer), 1
    {
      var open := buffer;
      var t := NextToken();
      if t.Err? {
        return Err(t.error);
      }
      var skipped := ParseComments();
      if skipped.Err? {
        return Err(skipped.error);
      }
      var a := ParseActions();
      if a.Err? {
        return Err(a.error);
      }
      if a.value.None? {
        buffer := open;
        return Ok(None);
      }
      var g := ParseGametree();
      if g.Err? {
        return Err(g.error);
      }
      if g.value.None? {
        return Err(InvalidBranch + Parsed(ctx, start, buffer));
      }
      r := CloseBranch(start, Variation(a.value.value, g.value.value));
    }

    /** The `)` of a variation: the turn goes back to the turn at `start`. */
    method CloseBranch(start: Buffer, v: Variation) returns (r: Result<Option<Variation>>)
      modifies this
      ensures Follows(r, CloseVariation(ctx, start, old(buffer), v), buffer)
    {
      if buffer.token != RightParen {
        return Err(ExpectBranchClose + Parsed(ctx, start, buffer));
      }
      buffer := buffer.(turn := start.turn);
      var t := NextToken();
      if t.Err? {
        return Err(t.error);
      }
      var skipped := ParseComments();
      if skipped.Err? {
        return Err(skipped.error);
      }
      return Ok(Some(v));
    }

    /** The main line after the variations of `parse_gametree`. */
    method ParseMainLine(start: Buffer, vs: seq<Variation>) returns (r: Result<Option<GameTree>>)
      modifies this
      ensures Follows(r, MainLine(ctx, start, old(buffer), vs), buffer)
      decreases Measure(ctx, buffer), 1
    {
      var a := ParseActions();
      if a.Err? {
        return Err(a.error);
      }
      if a.value.None? {
        return Ok(Some(GameTree(vs)));
      }
      var g := ParseGametree();
      if g.Err? {
        return Err(g.error);
      }
      if g.value.None? {
        return Err(InvalidContinuation + Parsed(ctx, start, buffer));
      }
      return Ok(Some(GameTree(vs + [Variation(a.value.value, g.value.value)])));
    }

    /** The `while(buffer.token == METADATA)` loop of `parse_game`: each
      * metadata is read by `AddMetadataText` and the comments after it are
      * appended (`append_vectors`). */
    method ParseMetadata() returns (r: Result<(PgnHeaders.Metadata, seq<string>)>)
      modifies this
      ensures var f := ReadMetadata(ctx, old(buffer), PgnHeaders.Metadata(map[], []), []);
        && (f.Err? ==> r == Err(f.error))
        && (f.Ok? ==> r == Ok((f.value.meta, f.value.comments)) && buffer == f.value.rest)
    {
      var meta := PgnHeaders.Metadata(map[], []);
      var comments: seq<string> := [];
      while buffer.token == Metadata
        invariant ReadMetadata(ctx, buffer, meta, comments)
               == ReadMetadata(ctx, old(buffer), PgnHeaders.Metadata(map[], []), [])
        decreases Measure(ctx, buffer)
      {
        var m1 := PgnHeaders.AddMetadataText(buffer.comment, meta);
        if m1.Err? {
          return Err(m1.error);
        }
        var t := NextToken();
        if t.Err? {
          return Err(t.error);
        }
        ReadCommentsAppend(ctx, buffer, comments);
        var cs := ParseComments();
        if cs.Err? {
          return Err(cs.error);
        }
        meta, comments := m1.value, comments + cs.value;
      }
      return Ok((meta, comments));
    }

    /** `parse_game`: a game tree that fails puts the buffer back where the
      * game started. */
    method ParseGame() returns (r: Result<Option<Game>>)
      modifies this
      ensures Follows(r, ReadGame(ctx, old(buffer)), buffer)
    {
      var start := buffer;
      var skipped := ParseComments();
      if skipped.Err? {
        return Err(skipped.error);
      }
      var md := ParseMetadata();
      if md.Err? {
        return Err(md.error);
      }
      var (meta, comments) := md.value;
      ReadCommentsAppend(ctx, buffer, comments);
      var cs := ParseComments();
      if cs.Err? {
        return Err(cs.error);
      }
      var g := ParseGametree();
      if g.Err? {
        return Err(g.error);
      }
      if g.value.None? {
        buffer := start;
        return Ok(None);
      }
      return Ok(Some(Game(meta.headers, meta.boards, g.value.value, comments + cs.value)));
    }
  }

  /** `pgnparser(input, ck, start).parse_game()`, as called when a game is
    * loaded: the method and the function give the same game or error. */
  method LoadGame(input: string, checkTurn: bool, start: Turn.Turn) returns (r: Result<Option<Game>>)
    ensures r == GameOf(input, checkTurn, start)
  {
    var p := Parser.Open(input, checkTurn, start);
    if p.Err? {
      return Err(p.error);
    }
    var parser := p.value;
    r := parser.ParseGame();
  }
}
