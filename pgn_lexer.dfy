/** The tokens of the 5D PGN notation and the lexer `next_token`, as a
  * function from the input and the current buffer to the next buffer. The
  * `Parser` class in `PgnParser` advances its buffer by this function. */
module PgnLexer {
  import opened Wrappers
  import Text
  import Turn

  datatype Token =
    | Nil
    | WhiteSpace | Comment | Metadata
    | TurnSerial
    | Line | Time | RelativeSym | Capture
    | Piece | CastleKingside | CastleQueenside
    | FileChar
    | Equal | Zero | PositiveNumber
    | Positive | Negative
    | NonBranchJump | BranchingJump
    | Softmate | Checkmate | EvaluationSym
    | PresentMoved
    | LeftParen | RightParen
    | End

  /** The lexer state: the read position, the last token and the values it
    * carried (piece letter, file letter, number, comment text) and the turn
    * reached by the turn serials read so far. */
  datatype Buffer = Buffer(current: nat, token: Token, piece: char, file: char,
                           number: int, comment: string, turn: Turn.Turn)

  /** The text being lexed and whether turn serials must be consecutive. */
  datatype Ctx = Ctx(input: string, checkTurn: bool)

  /** The buffer before the first token: `previous_turn(start)`, so that the
    * first turn serial is expected to be `start`. */
  function Initial(start: Turn.Turn): (b: Buffer)
    ensures Turn.NextTurn(b.turn) == start
  {
    Turn.NextPreviousInverse(start);
    Buffer(0, Nil, '\0', '\0', 0, "", Turn.PreviousTurn(start))
  }

  /** The character at `i`, with the string terminator `'\0'` at and past the end. */
  function At(s: string, i: nat): (ch: char)
    ensures i < |s| ==> ch == s[i]
  {
    if i < |s| then s[i] else '\0'
  }

  /** `s[a..b]` with both ends clipped to the string. */
  function Slice(s: string, a: nat, b: nat): (r: string)
    ensures a <= b <= |s| ==> r == s[a..b]
  {
    var lo := if a <= |s| then a else |s|;
    var hi := if b <= |s| then b else |s|;
    if lo <= hi then s[lo..hi] else ""
  }

  /** `isspace` in the C locale. */
  predicate IsCSpace(ch: char)
  {
    ch == ' ' || ch == '\t' || ch == '\n' || ch == '\U{B}' || ch == '\U{C}' || ch == '\r'
  }

  /** The piece letters `P W K C Q Y S N R B U D`. */
  predicate IsPieceLetter(ch: char)
  {
    ch == 'P' || ch == 'W' || ch == 'K' || ch == 'C' || ch == 'Q' || ch == 'Y'
    || ch == 'S' || ch == 'N' || ch == 'R' || ch == 'B' || ch == 'U' || ch == 'D'
  }

  /** The branches of the lexer's `switch` on the current character. */
  datatype CharClass =
    | Single(token: Token)
    | PieceLetter | FileLetter | CastleO | NonZeroDigit | Slash | EvalMark
    | Jump | Bracket | Brace | Space | Unknown

  /** The branch of `next_token` that a character selects. */
  function Classify(ch: char): (c: CharClass)
    ensures c.Single? ==> c.token != End && c.token != TurnSerial
  {
    match ch
    case 'L' => Single(Line)
    case 'T' => Single(Time)
    case '$' => Single(RelativeSym)
    case 'x' => Single(Capture)
    case '=' => Single(Equal)
    case '0' => Single(Zero)
    case '+' => Single(Positive)
    case '-' => Single(Negative)
    case '*' => Single(Softmate)
    case '#' => Single(Checkmate)
    case '~' => Single(PresentMoved)
    case '(' => Single(LeftParen)
    case ')' => Single(RightParen)
    case 'O' => CastleO
    case '/' => Slash
    case '!' => EvalMark
    case '?' => EvalMark
    case '>' => Jump
    case '[' => Bracket
    case '{' => Brace
    case _ =>
      if IsPieceLetter(ch) then PieceLetter
      else if 'a' <= ch <= 'h' then FileLetter
      else if '1' <= ch <= '9' then NonZeroDigit
      else if IsCSpace(ch) then Space
      else Unknown
  }

  lemma ClassifyDigit(ch: char)
    requires '1' <= ch <= '9'
    ensures Classify(ch) == NonZeroDigit
  {
  }

  function UnknownMessage(ch: char): string
  {
    "next_token(): unknown buffer.token: " + [ch]
  }

  function CastleMessage(s: string, stop: nat): string
    requires stop <= |s|
  {
    "next_token(): expected castling after O, got " + s[..stop] + "{<<-this}" + s[stop..]
  }

  function TurnMessage(prev: Turn.Turn, n: int, black: bool): string
  {
    "next_token(): non-consecutive turn number: " + Turn.ShowTurn(prev)
    + " followed by " + Turn.ShowTurn((n, black)) + "\n"
  }

  /** The end of the run of decimal digits starting at `i`. */
  function DigitsEnd(s: string, i: nat): (e: nat)
    requires i <= |s|
    ensures i <= e <= |s|
    ensures forall k :: i <= k < e ==> Text.IsDigit(s[k])
    ensures e == |s| || !Text.IsDigit(s[e])
    decreases |s| - i
  {
    if i < |s| && Text.IsDigit(s[i]) then DigitsEnd(s, i + 1) else i
  }

  /** The end of the run of C whitespace starting at `i`. */
  function SpaceEnd(s: string, i: nat): (e: nat)
    requires i <= |s|
    ensures i <= e <= |s|
    ensures forall k :: i <= k < e ==> IsCSpace(s[k])
    ensures e == |s| || !IsCSpace(s[e])
    decreases |s| - i
  {
    if i < |s| && IsCSpace(s[i]) then SpaceEnd(s, i + 1) else i
  }

  /** The end of the run of `?` and `!` starting at `i`. */
  function EvalEnd(s: string, i: nat): (e: nat)
    requires i <= |s|
    ensures i <= e <= |s|
    ensures forall k :: i <= k < e ==> s[k] == '?' || s[k] == '!'
    ensures e == |s| || (s[e] != '?' && s[e] != '!')
    decreases |s| - i
  {
    if i < |s| && (s[i] == '?' || s[i] == '!') then EvalEnd(s, i + 1) else i
  }

  /** The first `]` at or after `j`, if any. */
  function CloseBracket(s: string, j: nat): (r: Option<nat>)
    requires j <= |s|
    ensures r.Some? ==> j <= r.value < |s| && s[r.value] == ']'
    ensures r.Some? ==> forall m :: j <= m < r.value ==> s[m] != ']'
    ensures r.None? ==> forall m :: j <= m < |s| ==> s[m] != ']'
    decreases |s| - j
  {
    if j == |s| then None
    else if s[j] == ']' then Some(j)
    else CloseBracket(s, j + 1)
  }

  /** The brace that brings the nesting `level` back to zero, scanning from `j`. */
  function CloseBrace(s: string, j: nat, level: nat): (r: Option<nat>)
    requires j <= |s|
    ensures r.Some? ==> j <= r.value < |s| && s[r.value] == '}'
    decreases |s| - j
  {
    if j == |s| then None
    else if s[j] == '{' then CloseBrace(s, j + 1, level + 1)
    else if s[j] == '}' then (if level <= 1 then Some(j) else CloseBrace(s, j + 1, level - 1))
    else CloseBrace(s, j + 1, level)
  }

  /** `'O'` at the position: `O-O-O` or `O-O`, and anything else is an error. */
  function LexCastle(s: string, b: Buffer): (r: Result<Buffer>)
    requires b.current < |s|
  {
    var i := b.current;
    if !(i + 2 < |s| && s[i + 1] == '-' && s[i + 2] == 'O') then
      var stop := if i + 1 == |s| then i else if s[i + 1] != '-' then i + 1 else i + 2;
      Err(CastleMessage(s, stop))
    else if i + 4 < |s| && s[i + 3] == '-' && s[i + 4] == 'O' then
      Ok(b.(token := CastleQueenside, current := i + 5))
    else
      Ok(b.(token := CastleKingside, current := i + 3))
  }

  /** The castling branch as written: the second `*++current` test has
    * already advanced past the character after `O-O` when it fails, and the
    * kingside branch then steps one further. */
  function LexCastleAsWritten(s: string, b: Buffer): (r: Result<Buffer>)
    requires b.current < |s|
  {
    var i := b.current;
    if !(i + 2 < |s| && s[i + 1] == '-' && s[i + 2] == 'O') then
      var stop := if i + 1 == |s| then i else if s[i + 1] != '-' then i + 1 else i + 2;
      Err(CastleMessage(s, stop))
    else if i + 4 <= |s| && s[i + 3] == '-' && At(s, i + 4) == 'O' then
      Ok(b.(token := CastleQueenside, current := i + 5))
    else
      var stop := if i + 4 > |s| then i + 2 else if s[i + 3] != '-' then i + 3 else i + 4;
      Ok(b.(token := CastleKingside, current := stop + 1))
  }

  /** A digit run starting with 1-9: a turn serial when followed by `w.`,
    * `b.` or `.`, otherwise a positive number. */
  function LexNumber(ctx: Ctx, b: Buffer): (r: Result<Buffer>)
    requires b.current < |ctx.input|
  {
    var s, i := ctx.input, b.current;
    var e := DigitsEnd(s, i);
    var n := Text.DigitsValue(s[i..e]);
    if e + 1 < |s| && (s[e] == 'w' || s[e] == 'b') && s[e + 1] == '.' then
      LexTurn(ctx, b, n, s[e] == 'b', e + 2)
    else if e < |s| && s[e] == '.' then
      LexTurn(ctx, b, n, false, e + 1)
    else
      Ok(b.(token := PositiveNumber, number := n, current := e))
  }

  function LexTurn(ctx: Ctx, b: Buffer, n: int, black: bool, next: nat): (r: Result<Buffer>)
  {
    if ctx.checkTurn && (n, black) != Turn.NextTurn(b.turn) then
      Err(TurnMessage(b.turn, n, black))
    else
      Ok(b.(token := TurnSerial, number := n, turn := (n, black), current := next))
  }

  /** `[...]`: the text up to the first `]`. */
  function LexMetadata(s: string, b: Buffer): (r: Result<Buffer>)
    requires b.current < |s|
  {
    var i := b.current;
    match CloseBracket(s, i + 1)
    case None => Err("next_token(): expect ']' after '[': " + s[i..])
    case Some(k) => Ok(b.(token := Metadata, comment := s[i + 1..k], current := k + 1))
  }

  /** `{...}`: the text up to the brace that closes the opening one. */
  function LexComment(s: string, b: Buffer): (r: Result<Buffer>)
    requires b.current < |s|
  {
    var i := b.current;
    match CloseBrace(s, i + 1, 1)
    case None => Err("next_token(): comment not closed: " + s[i..])
    case Some(k) => Ok(b.(token := Comment, comment := s[i + 1..k], current := k + 1))
  }

  /** `next_token`: the token starting at `b.current`, or the error it throws. */
  function Lex(ctx: Ctx, b: Buffer): (r: Result<Buffer>)
    ensures b.current == |ctx.input| <==> r.Ok? && r.value.token == End
    ensures r.Ok? && r.value.token == End ==> r.value == b.(token := End)
    ensures r.Ok? && r.value.token != End ==> b.current < r.value.current <= |ctx.input|
  {
    var s, i := ctx.input, b.current;
    if i == |s| then Ok(b.(token := End))
    else if i > |s| then Err(UnknownMessage('\0'))
    else
      match Classify(s[i])
      case Single(t) => Ok(b.(token := t, current := i + 1))
      case PieceLetter => Ok(b.(token := Piece, piece := s[i], current := i + 1))
      case FileLetter => Ok(b.(token := FileChar, file := s[i], current := i + 1))
      case CastleO => LexCastle(s, b)
      case NonZeroDigit => LexNumber(ctx, b)
      case Slash => Ok(b.(token := TurnSerial, turn := Turn.NextTurn(b.turn), current := i + 1))
      case EvalMark =>
        var e := EvalEnd(s, i + 1);
        Ok(b.(token := EvaluationSym, comment := Slice(s, i, e + 1), current := e))
      case Jump =>
        if At(s, i + 1) == '>' then Ok(b.(token := BranchingJump, current := i + 2))
        else Ok(b.(token := NonBranchJump, current := i + 1))
      case Bracket => LexMetadata(s, b)
      case Brace => LexComment(s, b)
      case Space => Ok(b.(token := WhiteSpace, current := SpaceEnd(s, i)))
      case Unknown => Err(UnknownMessage(s[i]))
  }

  /* Properties of the lexer */

  lemma {:induction false} DigitsEndAt(s: string, i: nat, e: nat)
    requires i <= e <= |s|
    requires forall k :: i <= k < e ==> Text.IsDigit(s[k])
    requires e == |s| || !Text.IsDigit(s[e])
    ensures DigitsEnd(s, i) == e
    decreases e - i
  {
    if i < e {
      DigitsEndAt(s, i + 1, e);
    }
  }

  /** The decimal rendering of `n >= 1` starts with 1-9 and reads back as `n`. */
  lemma DigitsRead(s: string, i: nat, n: nat)
    requires n >= 1
    requires i + |Text.NatToString(n)| <= |s|
    requires s[i..i + |Text.NatToString(n)|] == Text.NatToString(n)
    requires var e := i + |Text.NatToString(n)|; e == |s| || !Text.IsDigit(s[e])
    ensures '1' <= s[i] <= '9'
    ensures DigitsEnd(s, i) == i + |Text.NatToString(n)|
    ensures Text.DigitsValue(s[i..i + |Text.NatToString(n)|]) == n
  {
    var d := Text.NatToString(n);
    var e := i + |d|;
    assert s[i] == d[0];
    assert '1' <= d[0] <= '9' by {
      if |d| == 1 { assert d == [Text.DigitChar(n)]; }
    }
    assert forall k :: i <= k < e ==> Text.IsDigit(s[k]) by {
      forall k | i <= k < e ensures Text.IsDigit(s[k]) { assert s[k] == d[k - i]; }
    }
    DigitsEndAt(s, i, e);
    Text.DigitsValueOfNatToString(n);
  }

  lemma LexDigitCase(ctx: Ctx, b: Buffer)
    requires b.current < |ctx.input| && '1' <= ctx.input[b.current] <= '9'
    ensures Lex(ctx, b) == LexNumber(ctx, b)
  {
    ClassifyDigit(ctx.input[b.current]);
  }

  lemma LexBracketCase(ctx: Ctx, b: Buffer)
    requires b.current < |ctx.input| && ctx.input[b.current] == '['
    ensures Lex(ctx, b) == LexMetadata(ctx.input, b)
  {
    assert Classify('[') == Bracket;
  }

  lemma LexBraceCase(ctx: Ctx, b: Buffer)
    requires b.current < |ctx.input| && ctx.input[b.current] == '{'
    ensures Lex(ctx, b) == LexComment(ctx.input, b)
  {
    var s, i := ctx.input, b.current;
    assert Classify(s[i]) == Brace by {
      assert s[i] == '{';
      assert Classify('{') == Brace;
    }
  }

  lemma NumberReads(ctx: Ctx, b: Buffer, n: nat)
    requires n >= 1
    requires b.current + |Text.NatToString(n)| <= |ctx.input|
    requires ctx.input[b.current..b.current + |Text.NatToString(n)|] == Text.NatToString(n)
    requires var s, e := ctx.input, b.current + |Text.NatToString(n)|;
      e == |s| || (!Text.IsDigit(s[e]) && s[e] != '.'
                   && !(e + 1 < |s| && (s[e] == 'w' || s[e] == 'b') && s[e + 1] == '.'))
    ensures '1' <= ctx.input[b.current] <= '9'
    ensures LexNumber(ctx, b) == Ok(b.(token := PositiveNumber, number := n,
                                       current := b.current + |Text.NatToString(n)|))
  {
    var s, e := ctx.input, b.current + |Text.NatToString(n)|;
    DigitsRead(s, b.current, n);
    assert DigitsEnd(s, b.current) == e;
    assert Text.DigitsValue(s[b.current..e]) == n;
    assert e == |s| || (s[e] != '.' && !(e + 1 < |s| && (s[e] == 'w' || s[e] == 'b') && s[e + 1] == '.'));
    NumberWithoutTurn(ctx, b, e, n);
  }

  /** A run of digits that no turn mark follows is a plain number. */
  lemma NumberWithoutTurn(ctx: Ctx, b: Buffer, e: nat, n: nat)
    requires b.current < |ctx.input|
    requires DigitsEnd(ctx.input, b.current) == e && Text.DigitsValue(ctx.input[b.current..e]) == n
    requires var s := ctx.input;
      e == |s| || (s[e] != '.' && !(e + 1 < |s| && (s[e] == 'w' || s[e] == 'b') && s[e + 1] == '.'))
    ensures LexNumber(ctx, b) == Ok(b.(token := PositiveNumber, number := n, current := e))
  {
  }

  /** The decimal rendering of `n` followed by a character that continues
    * neither the number nor a turn serial reads back as the number `n`. */
  lemma LexReadsNumber(ctx: Ctx, b: Buffer, n: nat)
    requires n >= 1
    requires b.current + |Text.NatToString(n)| <= |ctx.input|
    requires ctx.input[b.current..b.current + |Text.NatToString(n)|] == Text.NatToString(n)
    requires var s, e := ctx.input, b.current + |Text.NatToString(n)|;
      e == |s| || (!Text.IsDigit(s[e]) && s[e] != '.'
                   && !(e + 1 < |s| && (s[e] == 'w' || s[e] == 'b') && s[e + 1] == '.'))
    ensures Lex(ctx, b) == Ok(b.(token := PositiveNumber, number := n,
                                 current := b.current + |Text.NatToString(n)|))
  {
    NumberReads(ctx, b, n);
    LexDigitCase(ctx, b);
  }

  lemma TurnReads(ctx: Ctx, b: Buffer, n: nat, mark: string)
    requires n >= 1
    requires mark == "." || mark == "w." || mark == "b."
    requires b.current + |Text.NatToString(n)| + |mark| <= |ctx.input|
    requires ctx.input[b.current..b.current + |Text.NatToString(n)|] == Text.NatToString(n)
    requires var e := b.current + |Text.NatToString(n)|; ctx.input[e..e + |mark|] == mark
    ensures '1' <= ctx.input[b.current] <= '9'
    ensures var black := mark == "b.";
      LexNumber(ctx, b) == LexTurn(ctx, b, n, black, b.current + |Text.NatToString(n)| + |mark|)
  {
    var s, e := ctx.input, b.current + |Text.NatToString(n)|;
    assert s[e] == mark[0];
    assert |mark| == 2 ==> s[e + 1] == mark[1];
    DigitsRead(s, b.current, n);
    assert DigitsEnd(s, b.current) == e && Text.DigitsValue(s[b.current..e]) == n;
    NumberWithTurn(ctx, b, e, n, |mark|);
    assert (mark == "b.") == (|mark| == 2 && mark[0] == 'b');
  }

  /** A run of digits followed by `w.`, `b.` (`k == 2`) or `.` (`k == 1`) is
    * a turn serial. */
  lemma NumberWithTurn(ctx: Ctx, b: Buffer, e: nat, n: nat, k: nat)
    requires b.current < |ctx.input| && (k == 1 || k == 2) && e + k <= |ctx.input|
    requires DigitsEnd(ctx.input, b.current) == e && Text.DigitsValue(ctx.input[b.current..e]) == n
    requires var s := ctx.input;
      if k == 2 then (s[e] == 'w' || s[e] == 'b') && s[e + 1] == '.' else s[e] == '.'
    ensures LexNumber(ctx, b) == LexTurn(ctx, b, n, k == 2 && ctx.input[e] == 'b', e + k)
  {
    var s := ctx.input;
    var turn := e + 1 < |s| && (s[e] == 'w' || s[e] == 'b') && s[e + 1] == '.';
    assert turn <==> k == 2;
  }

  /** A number followed by `.`, `w.` or `b.` is a turn serial; with
    * `check_turn_number` it is an error exactly when it is not the turn
    * after the previous one. */
  lemma LexReadsTurn(ctx: Ctx, b: Buffer, n: nat, mark: string)
    requires n >= 1
    requires mark == "." || mark == "w." || mark == "b."
    requires b.current + |Text.NatToString(n)| + |mark| <= |ctx.input|
    requires ctx.input[b.current..b.current + |Text.NatToString(n)|] == Text.NatToString(n)
    requires var e := b.current + |Text.NatToString(n)|; ctx.input[e..e + |mark|] == mark
    ensures var black := mark == "b.";
      && (Lex(ctx, b).Err? <==> ctx.checkTurn && (n, black) != Turn.NextTurn(b.turn))
      && (Lex(ctx, b).Ok? ==>
            Lex(ctx, b).value == b.(token := TurnSerial, number := n, turn := (n, black),
                                    current := b.current + |Text.NatToString(n)| + |mark|))
  {
    TurnReads(ctx, b, n, mark);
    LexDigitCase(ctx, b);
  }

  /** The turn changes only on a turn serial; with `check_turn_number` every
    * turn serial is the turn after the previous one. */
  lemma LexTurnStep(ctx: Ctx, b: Buffer)
    requires Lex(ctx, b).Ok?
    ensures Lex(ctx, b).value.token != TurnSerial ==> Lex(ctx, b).value.turn == b.turn
    ensures Lex(ctx, b).value.token == TurnSerial && ctx.checkTurn ==>
              Lex(ctx, b).value.turn == Turn.NextTurn(b.turn)
  {
    var s, i := ctx.input, b.current;
    if i < |s| && Classify(s[i]) == NonZeroDigit {
      assert Lex(ctx, b) == LexNumber(ctx, b);
    }
  }

  /** A `0` is a token of its own, even when digits follow it. */
  lemma LexZeroAlone(ctx: Ctx, b: Buffer)
    requires b.current < |ctx.input| && ctx.input[b.current] == '0'
    ensures Lex(ctx, b) == Ok(b.(token := Zero, current := b.current + 1))
  {
  }

  /** `'O'` lexes only as `O-O` or `O-O-O`; the kingside token ends right after `O-O`. */
  lemma LexCastleForms(ctx: Ctx, b: Buffer)
    requires b.current < |ctx.input| && ctx.input[b.current] == 'O'
    ensures var s, i := ctx.input, b.current;
      && (Lex(ctx, b).Ok? <==> i + 3 <= |s| && s[i..i + 3] == "O-O")
      && (Lex(ctx, b).Ok? && Lex(ctx, b).value.token == CastleQueenside <==>
            i + 5 <= |s| && s[i..i + 5] == "O-O-O")
      && (Lex(ctx, b).Ok? && Lex(ctx, b).value.token == CastleKingside ==>
            Lex(ctx, b).value.current == i + 3)
  {
    var s, i := ctx.input, b.current;
    if i + 3 <= |s| {
      assert s[i..i + 3] == "O-O" <==> s[i + 1] == '-' && s[i + 2] == 'O' by {
        assert s[i..i + 3] == [s[i], s[i + 1], s[i + 2]];
      }
    }
    if i + 5 <= |s| {
      assert s[i..i + 5] == [s[i], s[i + 1], s[i + 2], s[i + 3], s[i + 4]];
    }
  }

  /** As written, `O-O` directly followed by `)` also consumes the `)`, so
    * the next token is END instead of RIGHT_PAREN. */
  lemma CastleAsWrittenSwallows()
    ensures var s := "O-O)";
      var b := Initial((1, false));
      && LexCastleAsWritten(s, b) == Ok(b.(token := CastleKingside, current := 4))
      && Lex(Ctx(s, false), LexCastleAsWritten(s, b).value).value.token == End
      && LexCastle(s, b) == Ok(b.(token := CastleKingside, current := 3))
      && Lex(Ctx(s, false), LexCastle(s, b).value).value.token == RightParen
  {
    var s := "O-O)";
    assert s[0] == 'O' && s[1] == '-' && s[2] == 'O' && s[3] == ')';
  }

  lemma MetadataReads(s: string, b: Buffer)
    requires b.current < |s|
    ensures var i := b.current;
      && (LexMetadata(s, b).Ok? <==> exists k :: i < k < |s| && s[k] == ']')
      && (LexMetadata(s, b).Ok? ==>
            var r := LexMetadata(s, b).value;
            && r.token == Metadata && i + 1 < r.current && s[r.current - 1] == ']'
            && r.comment == s[i + 1..r.current - 1] && ']' !in r.comment)
  {
    var i := b.current;
    match CloseBracket(s, i + 1)
    case None =>
    case Some(k) =>
      var c := s[i + 1..k];
      assert forall m :: 0 <= m < |c| ==> c[m] == s[i + 1 + m];
  }

  /** The first `]` after `[` ends the metadata; without one the lexer throws. */
  lemma LexMetadataText(ctx: Ctx, b: Buffer)
    requires b.current < |ctx.input| && ctx.input[b.current] == '['
    ensures var s, i := ctx.input, b.current;
      && (Lex(ctx, b).Ok? <==> exists k :: i < k < |s| && s[k] == ']')
      && (Lex(ctx, b).Ok? ==>
            var r := Lex(ctx, b).value;
            && r.token == Metadata && i + 1 < r.current && s[r.current - 1] == ']'
            && r.comment == s[i + 1..r.current - 1] && ']' !in r.comment)
  {
    LexBracketCase(ctx, b);
    MetadataReads(ctx.input, b);
  }

  function Delta(ch: char): int
  {
    if ch == '{' then 1 else if ch == '}' then -1 else 0
  }

  /** The nesting a string adds: one per `{`, minus one per `}`. */
  function Depth(s: string): int
  {
    if s == [] then 0 else Delta(s[0]) + Depth(s[1..])
  }

  /** Braces balance in `c` and no prefix closes more than it opens. */
  predicate Nested(c: string)
  {
    Depth(c) == 0 && forall m :: 0 <= m <= |c| ==> Depth(c[..m]) >= 0
  }

  /** Inside `level` open braces, `c` ends one brace short of closing them
    * all and never closes the last one on the way. */
  predicate ClosesTo(c: string, level: int)
  {
    level + Depth(c) == 1 && forall m :: 0 <= m <= |c| ==> level + Depth(c[..m]) >= 1
  }

  lemma ClosesToCons(ch: char, c: string, level: int)
    ensures ClosesTo([ch] + c, level) <==> level >= 1 && ClosesTo(c, level + Delta(ch))
  {
    var w := [ch] + c;
    assert w[1..] == c;
    assert w[..0] == [];
    forall m | 1 <= m <= |w| ensures Depth(w[..m]) == Delta(ch) + Depth(c[..m - 1]) {
      assert w[..m][0] == ch && w[..m][1..] == c[..m - 1];
    }
    if level >= 1 && ClosesTo(c, level + Delta(ch)) {
      forall m | 0 <= m <= |w| ensures level + Depth(w[..m]) >= 1 {
        if m >= 1 { assert level + Delta(ch) + Depth(c[..m - 1]) >= 1; }
      }
    }
    if ClosesTo(w, level) {
      forall m | 0 <= m <= |c| ensures level + Delta(ch) + Depth(c[..m]) >= 1 {
        assert level + Depth(w[..m + 1]) >= 1;
      }
    }
  }

  /** `CloseBrace` stops at the first `}` that brings the nesting back to zero. */
  lemma {:induction false} CloseBraceFinds(s: string, j: nat, level: nat, k: nat)
    requires 1 <= level && j <= k < |s|
    ensures CloseBrace(s, j, level) == Some(k) <==> s[k] == '}' && ClosesTo(s[j..k], level)
    decreases k - j
  {
    if j == k {
      assert s[j..k] == [] && s[j..k][..0] == [];
    } else {
      assert s[j..k] == [s[j]] + s[j + 1..k];
      ClosesToCons(s[j], s[j + 1..k], level);
      if level + Delta(s[j]) == 0 {
        assert s[j + 1..k][..0] == [];
      } else {
        CloseBraceFinds(s, j + 1, level + Delta(s[j]), k);
      }
    }
  }

  lemma CommentReads(s: string, b: Buffer, k: nat)
    requires b.current < k < |s|
    ensures var i := b.current;
      LexComment(s, b) == Ok(b.(token := Comment, comment := s[i + 1..k], current := k + 1)) <==>
        s[k] == '}' && Nested(s[i + 1..k])
  {
    var i := b.current;
    CloseBraceFinds(s, i + 1, 1, k);
    assert ClosesTo(s[i + 1..k], 1) <==> Nested(s[i + 1..k]);
    assert LexComment(s, b).Ok? ==> LexComment(s, b).value.current == CloseBrace(s, i + 1, 1).value + 1;
  }

  lemma CommentUnclosed(s: string, b: Buffer)
    requires b.current < |s|
    requires forall k :: b.current < k < |s| && s[k] == '}' ==> !Nested(s[b.current + 1..k])
    ensures LexComment(s, b) == Err("next_token(): comment not closed: " + s[b.current..])
  {
    var i := b.current;
    if CloseBrace(s, i + 1, 1).Some? {
      CommentReads(s, b, CloseBrace(s, i + 1, 1).value);
    }
  }

  /** A comment is the text up to the `}` that closes its `{`: the braces in
    * it are nested, and any nested text closed by `}` is read whole. */
  lemma LexCommentNested(ctx: Ctx, b: Buffer, k: nat)
    requires b.current < k < |ctx.input| && ctx.input[b.current] == '{'
    ensures var s, i := ctx.input, b.current;
      Lex(ctx, b) == Ok(b.(token := Comment, comment := s[i + 1..k], current := k + 1)) <==>
        s[k] == '}' && Nested(s[i + 1..k])
  {
    LexBraceCase(ctx, b);
    CommentReads(ctx.input, b, k);
  }

  /** A `{` with no closing `}` for its nesting throws. */
  lemma LexCommentUnclosed(ctx: Ctx, b: Buffer)
    requires b.current < |ctx.input| && ctx.input[b.current] == '{'
    requires forall k :: b.current < k < |ctx.input| && ctx.input[k] == '}' ==>
               !Nested(ctx.input[b.current + 1..k])
    ensures Lex(ctx, b) == Err("next_token(): comment not closed: " + ctx.input[b.current..])
  {
    LexBraceCase(ctx, b);
    CommentUnclosed(ctx.input, b);
  }

  /** Errors come only from castling, brackets, braces, checked turn serials,
    * reading past the end and unknown characters, and every unknown
    * character is an error. */
  lemma LexErrors(ctx: Ctx, b: Buffer)
    requires b.current < |ctx.input|
    ensures var c := Classify(ctx.input[b.current]);
      && (c == Unknown ==> Lex(ctx, b) == Err(UnknownMessage(ctx.input[b.current])))
      && (Lex(ctx, b).Err? ==>
            c == Unknown || c == CastleO || c == Bracket || c == Brace
            || (c == NonZeroDigit && ctx.checkTurn))
  {
  }
}
