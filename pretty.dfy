/** The move printer of the game state: `pretty_move_impl` builds the
  * notation of one move (board, piece letter, squares, the jump marker, the
  * capture mark, the promotion and the check symbol), `pretty_move` picks
  * the check symbol, and `pretty_action` joins the moves of an action. What
  * the printer reads from the state (the `pretty_lt` texts of the two
  * boards, the moving piece, whether the target is occupied, the end of the
  * target line) is handed in as a context. */
module Pretty {
  import Seqs
  import opened Wrappers
  import Text
  import Turn
  import Action
  import MB = MultiverseBase

  /** The flags of `pretty_move`. Every combination lies within `SHOW_ALL`,
    * which the source checks statically. */
  datatype Flags = Flags(pawn: bool, capture: bool, promotion: bool, mate: bool, relative: bool)

  /** `SHOW_CAPTURE` alone, the flags `pretty_action` prints with. */
  const CaptureOnly := Flags(false, true, false, false, false)

  /** The letter of the white pawn. */
  const PawnW: char := 'P'

  /** What the printer reads from the state: `pretty_lt` of the source and
    * target boards, the white letter of the moving piece, whether the target
    * square holds a piece, the end of the target line, the board height and
    * the player to move. */
  datatype Context = Context(fromLT: string, toLT: string, piece: char, targetOccupied: bool,
                             targetEnd: Turn.Turn, sizeY: int, player: bool)

  /** The move leaves its board: `p.tl() != q.tl()`. */
  predicate Superphysical(fm: Action.FullMove)
  {
    fm.from.t != fm.to.t || fm.from.l != fm.to.l
  }

  /** The piece letter: left out for a pawn unless `SHOW_PAWN`. */
  function PieceText(flags: Flags, ctx: Context): (r: string)
    ensures r == [] <==> !flags.pawn && ctx.piece == PawnW
    ensures r != [] ==> r == [ctx.piece]
  {
    if flags.pawn || ctx.piece != PawnW then [ctx.piece] else []
  }

  /** `'x'` with `SHOW_CAPTURE` on an occupied target. */
  function CaptureText(flags: Flags, ctx: Context): string
  {
    if flags.capture && ctx.targetOccupied then "x" else ""
  }

  /** `show_diff`: the sign and the size of a difference, `=` for none. */
  function Diff(w: int): string
  {
    if w > 0 then "+" + Text.IntToString(w)
    else if w < 0 then "-" + Text.IntToString(-w)
    else "="
  }

  /** The two differences of a relative target, apart at the `T`. */
  function Differences(d1: int, d2: int): string
  {
    Diff(d1) + "T" + Diff(d2)
  }

  /** The relative target `$(L<dl>T<dt>)`: the differences of line and time. */
  function Relative(fm: Action.FullMove): string
  {
    "$(L" + Differences(fm.to.l - fm.from.l, fm.to.t - fm.from.t) + ")"
  }

  /** The relative target as the source prints it: the differences of the
    * file and the rank under the `L` and `T` labels. */
  function RelativeAsWritten(fm: Action.FullMove): string
  {
    "$(L" + Differences(fm.to.x - fm.from.x, fm.to.y - fm.from.y) + ")"
  }

  /** The arrival turn comes before the end of the target line. */
  predicate Branches(ctx: Context, fm: Action.FullMove)
  {
    Turn.Less((fm.to.t, ctx.player), ctx.targetEnd)
  }

  /** After a jump: `>>` when it branches, `>` otherwise, the capture mark,
    * and the target board, relative or as `pretty_lt`. */
  function JumpText(flags: Flags, ctx: Context, fm: Action.FullMove, relative: string): string
  {
    (if Branches(ctx, fm) then ">>" else ">") + (CaptureText(flags, ctx) + (if flags.relative then relative else ctx.toLT))
  }

  /** `=<piece>` with `SHOW_PROMOTION` when a pawn reaches the far rank of
    * the mover. */
  function PromotionText(flags: Flags, ctx: Context, fm: Action.FullMove, pt: int): string
  {
    if flags.promotion && ctx.piece == PawnW && fm.to.y == (if ctx.player then 0 else ctx.sizeY - 1)
    then ['=', Action.ByteChar(pt)] else ""
  }

  /** The check symbol, with `SHOW_MATE` and when it is not the zero char. */
  function CheckText(flags: Flags, check: char): string
  {
    if flags.mate && check != 0 as char then [check] else ""
  }

  function Lead(flags: Flags, ctx: Context, fm: Action.FullMove): string
  {
    ctx.fromLT + PieceText(flags, ctx) + Action.ShowSquare(fm.from)
  }

  function Tail(flags: Flags, ctx: Context, fm: Action.FullMove, pt: int, check: char): string
  {
    Action.ShowSquare(fm.to) + PromotionText(flags, ctx, fm, pt) + CheckText(flags, check)
  }

  /** The text of one move, given how its relative target reads. */
  function Render(flags: Flags, ctx: Context, fm: Action.FullMove, pt: int, check: char, relative: string): string
  {
    Lead(flags, ctx, fm)
      + ((if Superphysical(fm) then JumpText(flags, ctx, fm, relative) else CaptureText(flags, ctx))
         + Tail(flags, ctx, fm, pt, check))
  }

  /** The text of `pretty_move_impl` as the source has it, with the file and
    * rank differences in the relative target. */
  function MoveTextAsWritten(flags: Flags, ctx: Context, fm: Action.FullMove, pt: int, check: char): string
  {
    Render(flags, ctx, fm, pt, check, RelativeAsWritten(fm))
  }

  /** The text of `pretty_move_impl`. */
  function MoveText(flags: Flags, ctx: Context, fm: Action.FullMove, pt: int, check: char): string
  {
    Render(flags, ctx, fm, pt, check, Relative(fm))
  }

  /** `pretty_move_impl`: the output stream, appended to piece by piece. */
  method PrettyMoveImpl(flags: Flags, ctx: Context, fm: Action.FullMove, pt: int, check: char) returns (oss: string)
    ensures oss == MoveText(flags, ctx, fm, pt, check)
  {
    var p, q := fm.from, fm.to;
    oss := ctx.fromLT;
    var letter := "";
    if flags.pawn || ctx.piece != PawnW {
      letter := [ctx.piece];
    }
    assert letter == PieceText(flags, ctx);
    oss := oss + letter + Action.ShowSquare(p);
    var middle := "";
    if p.t != q.t || p.l != q.l {
      middle := if Turn.Less((q.t, ctx.player), ctx.targetEnd) then ">>" else ">";
    }
    assert middle == (if !Superphysical(fm) then "" else if Branches(ctx, fm) then ">>" else ">");
    var capture := "";
    if flags.capture && ctx.targetOccupied {
      capture := "x";
    }
    assert capture == CaptureText(flags, ctx);
    var target := "";
    if p.t != q.t || p.l != q.l {
      target := if flags.relative then "$(L" + Differences(q.l - p.l, q.t - p.t) + ")" else ctx.toLT;
    }
    TargetText(flags, ctx, fm, target);
    var promotion := "";
    if flags.promotion && ctx.piece == PawnW && q.y == (if ctx.player then 0 else ctx.sizeY - 1) {
      promotion := ['=', Action.ByteChar(pt)];
    }
    assert promotion == PromotionText(flags, ctx, fm, pt);
    var checkText := "";
    if flags.mate && check != 0 as char {
      checkText := [check];
    }
    assert checkText == CheckText(flags, check);
    oss := oss + (middle + (capture + target) + (Action.ShowSquare(q) + promotion + checkText));
    MoveTextPieces(flags, ctx, fm, pt, check, letter, middle, capture, target, promotion, checkText);
  }

  /** The target `pretty_move_impl` writes is the relative or absolute board
    * of a jump, and nothing for a physical move. */
  lemma TargetText(flags: Flags, ctx: Context, fm: Action.FullMove, target: string)
    requires !Superphysical(fm) ==> target == ""
    requires Superphysical(fm) ==> target == if flags.relative then
      "$(L" + Differences(fm.to.l - fm.from.l, fm.to.t - fm.from.t) + ")" else ctx.toLT
    ensures target == (if !Superphysical(fm) then "" else if flags.relative then Relative(fm) else ctx.toLT)
  {
    if Superphysical(fm) && flags.relative {
      assert target == Relative(fm);
    }
  }

  /** The pieces `pretty_move_impl` writes, put together, give the text. */
  lemma MoveTextPieces(flags: Flags, ctx: Context, fm: Action.FullMove, pt: int, check: char,
                       letter: string, marker: string, capture: string, target: string,
                       promotion: string, checkText: string)
    requires letter == PieceText(flags, ctx) && capture == CaptureText(flags, ctx)
    requires marker == (if !Superphysical(fm) then "" else if Branches(ctx, fm) then ">>" else ">")
    requires target == (if !Superphysical(fm) then "" else if flags.relative then Relative(fm) else ctx.toLT)
    requires promotion == PromotionText(flags, ctx, fm, pt) && checkText == CheckText(flags, check)
    ensures ctx.fromLT + letter + Action.ShowSquare(fm.from)
              + (marker + (capture + target) + (Action.ShowSquare(fm.to) + promotion + checkText))
            == MoveText(flags, ctx, fm, pt, check)
  {
    if !Superphysical(fm) {
      assert marker + (capture + target) == capture;
    }
  }

  /** `check_symbol` as the source computes it: `checking && '+'` is a
    * `bool`, which becomes the char 1 or 0. */
  function CheckSymbolAsWritten(checking: bool): char
  {
    if checking then 1 as char else 0 as char
  }

  /** The check symbol: `+` for a move that checks the opponent. */
  function CheckSymbol(checking: bool): char
  {
    if checking then '+' else 0 as char
  }

  /** The text of `pretty_move`: with `SHOW_MATE`, the check symbol from
    * whether the move checks the opponent. */
  function CheckedMoveText(flags: Flags, ctx: Context, fm: Action.FullMove, pt: int, checking: bool): string
  {
    MoveText(flags, ctx, fm, pt, if flags.mate then CheckSymbol(checking) else 0 as char)
  }

  /** `pretty_move`. */
  method PrettyMove(flags: Flags, ctx: Context, fm: Action.FullMove, pt: int, checking: bool) returns (r: string)
    ensures r == CheckedMoveText(flags, ctx, fm, pt, checking)
  {
    var check := 0 as char;
    if flags.mate {
      check := CheckSymbol(checking);
    }
    r := PrettyMoveImpl(flags, ctx, fm, pt, check);
  }

  // ---------------------------------------------------------------------------
  // What the text says

  lemma ByteCharSmall(v: int)
    requires 0 <= v < 256
    ensures Action.ByteChar(v) as int == v
  {
  }

  /** Squares on the board print as `a`-`h` and `1`-`8`, and two squares
    * print alike only when they are the same. */
  lemma SquareText(a: Action.Vec4, b: Action.Vec4)
    requires Action.OnBoard(a) && Action.OnBoard(b)
    ensures 'a' <= Action.ShowSquare(a)[0] <= 'h' && '1' <= Action.ShowSquare(a)[1] <= '8'
    ensures Action.ShowSquare(a) == Action.ShowSquare(b) <==> a.x == b.x && a.y == b.y
  {
    ByteCharSmall(a.x + 'a' as int);
    ByteCharSmall(a.y + '1' as int);
    ByteCharSmall(b.x + 'a' as int);
    ByteCharSmall(b.y + '1' as int);
    if Action.ShowSquare(a) == Action.ShowSquare(b) {
      assert Action.ShowSquare(a)[0] == Action.ShowSquare(b)[0];
      assert Action.ShowSquare(a)[1] == Action.ShowSquare(b)[1];
    }
  }

  /** The text starts with the source board, the piece letter (none for a
    * pawn without `SHOW_PAWN`) and the source square. */
  lemma RenderStart(flags: Flags, ctx: Context, fm: Action.FullMove, pt: int, check: char, relative: string)
    ensures var r := Render(flags, ctx, fm, pt, check, relative);
      var k := |ctx.fromLT|;
      var n := if !flags.pawn && ctx.piece == PawnW then 0 else 1;
      && |r| >= k + n + 2
      && r[..k] == ctx.fromLT
      && (n == 1 ==> r[k] == ctx.piece)
      && r[k + n..k + n + 2] == Action.ShowSquare(fm.from)
  {
    var lead := Lead(flags, ctx, fm);
    var r := Render(flags, ctx, fm, pt, check, relative);
    assert r[..|lead|] == lead;
  }

  /** A move on one board prints its two squares apart from the rest, so
    * equal texts (same flags, same state) mean the same squares. */
  lemma PhysicalSquaresDetermined(flags: Flags, ctx: Context, a: Action.FullMove, b: Action.FullMove,
                                  pt: int, check: char, relative: string)
    requires !Superphysical(a) && !Superphysical(b)
    requires Action.OnBoard(a.from) && Action.OnBoard(a.to) && Action.OnBoard(b.from) && Action.OnBoard(b.to)
    requires Render(flags, ctx, a, pt, check, relative) == Render(flags, ctx, b, pt, check, relative)
    ensures a.from.x == b.from.x && a.from.y == b.from.y && a.to.x == b.to.x && a.to.y == b.to.y
  {
    var capture := CaptureText(flags, ctx);
    var ta, tb := Tail(flags, ctx, a, pt, check), Tail(flags, ctx, b, pt, check);
    SplitEqual(Lead(flags, ctx, a), capture + ta, Lead(flags, ctx, b), capture + tb);
    SplitEqual(ctx.fromLT + PieceText(flags, ctx), Action.ShowSquare(a.from),
               ctx.fromLT + PieceText(flags, ctx), Action.ShowSquare(b.from));
    SquareText(a.from, b.from);
    SplitEqual(capture, ta, capture, tb);
    TailSquare(flags, ctx, a, pt, check);
    TailSquare(flags, ctx, b, pt, check);
    SquareText(a.to, b.to);
  }

  /** Two joins of equal texts, cut at the same length, have the same parts. */
  lemma SplitEqual(x1: string, y1: string, x2: string, y2: string)
    requires x1 + y1 == x2 + y2 && |x1| == |x2|
    ensures x1 == x2 && y1 == y2
  {
    assert x1 == (x1 + y1)[..|x1|] && x2 == (x2 + y2)[..|x2|];
    assert y1 == (x1 + y1)[|x1|..] && y2 == (x2 + y2)[|x2|..];
  }

  /** The part after the capture mark starts with the target square. */
  lemma TailSquare(flags: Flags, ctx: Context, fm: Action.FullMove, pt: int, check: char)
    ensures Tail(flags, ctx, fm, pt, check)[..2] == Action.ShowSquare(fm.to)
  {
  }

  /** On a move within its board, the character after the source square is
    * `x` exactly when captures are shown and the target is occupied. */
  lemma PhysicalCaptureMark(flags: Flags, ctx: Context, fm: Action.FullMove, pt: int, check: char, relative: string)
    requires !Superphysical(fm) && Action.OnBoard(fm.to)
    ensures var r := Render(flags, ctx, fm, pt, check, relative);
      var k := |Lead(flags, ctx, fm)|;
      |r| > k && (r[k] == 'x' <==> flags.capture && ctx.targetOccupied)
  {
    var lead := Lead(flags, ctx, fm);
    var r := Render(flags, ctx, fm, pt, check, relative);
    SquareText(fm.to, fm.to);
    assert r[|lead|..] == CaptureText(flags, ctx) + Tail(flags, ctx, fm, pt, check);
  }

  /** A jump prints `>>` after the source square exactly when it branches,
    * provided the target board's text does not itself start with `>`. */
  lemma JumpMarker(flags: Flags, ctx: Context, fm: Action.FullMove, pt: int, check: char, relative: string)
    requires Superphysical(fm) && Action.OnBoard(fm.to)
    requires ctx.toLT == [] || ctx.toLT[0] != '>'
    requires relative == [] || relative[0] != '>'
    ensures var r := Render(flags, ctx, fm, pt, check, relative);
      var k := |Lead(flags, ctx, fm)|;
      |r| > k + 1 && r[k] == '>' && (r[k + 1] == '>' <==> Branches(ctx, fm))
  {
    var tail := Tail(flags, ctx, fm, pt, check);
    var marker := if Branches(ctx, fm) then ">>" else ">";
    var rest := CaptureText(flags, ctx) + (if flags.relative then relative else ctx.toLT);
    AfterMarker(flags, ctx, fm, pt, check, relative);
    Seqs.Assoc(marker, rest, tail);
    MarkerAt(Lead(flags, ctx, fm), marker, rest + tail);
  }

  /** What follows the jump marker never starts with `>`. */
  lemma AfterMarker(flags: Flags, ctx: Context, fm: Action.FullMove, pt: int, check: char, relative: string)
    requires Action.OnBoard(fm.to)
    requires ctx.toLT == [] || ctx.toLT[0] != '>'
    requires relative == [] || relative[0] != '>'
    ensures var rest := CaptureText(flags, ctx) + (if flags.relative then relative else ctx.toLT)
                        + Tail(flags, ctx, fm, pt, check);
      |rest| > 0 && rest[0] != '>'
  {
    var tail := Tail(flags, ctx, fm, pt, check);
    var front := CaptureText(flags, ctx) + (if flags.relative then relative else ctx.toLT);
    TailStart(flags, ctx, fm, pt, check);
    if front != [] {
      assert (front + tail)[0] == front[0];
    } else {
      assert front + tail == tail;
    }
  }


  /** A marker of one or two `>` followed by something else. */
  lemma MarkerAt(lead: string, marker: string, rest: string)
    requires marker == ">>" || marker == ">"
    requires |rest| > 0 && rest[0] != '>'
    ensures var r := lead + (marker + rest);
      |r| > |lead| + 1 && r[|lead|] == '>' && (r[|lead| + 1] == '>' <==> marker == ">>")
  {
    var r := lead + (marker + rest);
    assert r[|lead|] == marker[0];
    assert r[|lead| + 1] == (marker + rest)[1];
  }

  /** The part after the jump or capture starts with the target square. */
  lemma TailStart(flags: Flags, ctx: Context, fm: Action.FullMove, pt: int, check: char)
    requires Action.OnBoard(fm.to)
    ensures var tail := Tail(flags, ctx, fm, pt, check);
      |tail| >= 2 && 'a' <= tail[0] <= 'h' && '1' <= tail[1] <= '8'
  {
    SquareText(fm.to, fm.to);
  }

  /** Without `SHOW_MATE` the check symbol is never printed. */
  lemma CheckIgnoredWithoutMate(flags: Flags, ctx: Context, fm: Action.FullMove, pt: int, c1: char, c2: char, relative: string)
    requires !flags.mate
    ensures Render(flags, ctx, fm, pt, c1, relative) == Render(flags, ctx, fm, pt, c2, relative)
  {
  }

  /** The last character of a move's text when no check symbol follows: a
    * rank digit, or the promotion piece. */
  lemma LastWithoutCheck(flags: Flags, ctx: Context, fm: Action.FullMove, pt: int, relative: string)
    requires Action.OnBoard(fm.to)
    ensures var r := Render(flags, ctx, fm, pt, 0 as char, relative);
      |r| > 0 && (('1' <= r[|r| - 1] <= '8') || r[|r| - 1] == Action.ByteChar(pt))
  {
    SquareText(fm.to, fm.to);
  }

  /** With `SHOW_MATE`, a move's text ends in `+` exactly when the move
    * checks the opponent (a promotion piece is a letter, never `+`). */
  lemma CheckSuffix(flags: Flags, ctx: Context, fm: Action.FullMove, pt: int, checking: bool)
    requires flags.mate && Action.OnBoard(fm.to) && Action.ByteChar(pt) != '+'
    ensures var r := CheckedMoveText(flags, ctx, fm, pt, checking);
      |r| > 0 && (r[|r| - 1] == '+' <==> checking)
  {
    if !checking {
      LastWithoutCheck(flags, ctx, fm, pt, Relative(fm));
    }
  }

  /** `pretty_move` as the source has it, with the check symbol of
    * `CheckSymbolAsWritten`. */
  function CheckedMoveTextAsWritten(flags: Flags, ctx: Context, fm: Action.FullMove, pt: int, checking: bool): string
  {
    MoveText(flags, ctx, fm, pt, if flags.mate then CheckSymbolAsWritten(checking) else 0 as char)
  }

  /** As the source computes it, the check symbol of a checking move is the
    * char 1: printed, but not `+`. */
  lemma CheckSymbolAsWrittenIsOne(flags: Flags, ctx: Context, fm: Action.FullMove, pt: int)
    requires flags.mate
    ensures var r := CheckedMoveTextAsWritten(flags, ctx, fm, pt, true);
      |r| > 0 && r[|r| - 1] == 1 as char && r[|r| - 1] != '+'
  {
  }

  // ---------------------------------------------------------------------------
  // The relative target

  lemma DiffChars(w: int)
    ensures |Diff(w)| > 0 && 'T' !in Diff(w)
    ensures Diff(w)[0] == (if w > 0 then '+' else if w < 0 then '-' else '=')
  {
    var s := Text.IntToString(if w < 0 then -w else w);
    assert forall i :: 0 <= i < |s| ==> Text.IsDigit(s[i]);
  }

  lemma DiffInjective(a: int, b: int)
    requires Diff(a) == Diff(b)
    ensures a == b
  {
    DiffChars(a);
    DiffChars(b);
    if a > 0 {
      assert Diff(a)[1..] == Text.IntToString(a) && Diff(b)[1..] == Text.IntToString(b);
      Text.IntToStringInjective(a, b);
    } else if a < 0 {
      assert Diff(a)[1..] == Text.IntToString(-a) && Diff(b)[1..] == Text.IntToString(-b);
      Text.IntToStringInjective(-a, -b);
    }
  }

  /** Two texts cut at their first `T` cut at the same place. */
  lemma SplitAtT(a1: string, b1: string, a2: string, b2: string)
    requires 'T' !in a1 && 'T' !in a2
    requires a1 + "T" + b1 == a2 + "T" + b2
    ensures a1 == a2 && b1 == b2
  {
    var s := a1 + "T" + b1;
    assert s[|a1|] == 'T' && (a2 + "T" + b2)[|a2|] == 'T';
    assert |a1| == |a2|;
    assert a1 == s[..|a1|] && a2 == s[..|a2|];
    assert b1 == s[|a1| + 1..] && b2 == s[|a2| + 1..];
  }

  /** Equal texts with the same frame have the same middle. */
  lemma Unwrap(pre: string, x: string, y: string, post: string)
    requires pre + x + post == pre + y + post
    ensures x == y
  {
    var s := pre + x + post;
    assert x == s[|pre|..|pre| + |x|];
    assert y == s[|pre|..|pre| + |y|];
  }

  /** The relative target gives back the differences of line and time. */
  lemma RelativeDetermines(a: Action.FullMove, b: Action.FullMove)
    requires Relative(a) == Relative(b)
    ensures a.to.l - a.from.l == b.to.l - b.from.l && a.to.t - a.from.t == b.to.t - b.from.t
  {
    var dla, dta := a.to.l - a.from.l, a.to.t - a.from.t;
    var dlb, dtb := b.to.l - b.from.l, b.to.t - b.from.t;
    Unwrap("$(L", Differences(dla, dta), Differences(dlb, dtb), ")");
    DiffChars(dla);
    DiffChars(dlb);
    SplitAtT(Diff(dla), Diff(dta), Diff(dlb), Diff(dtb));
    DiffInjective(dla, dlb);
    DiffInjective(dta, dtb);
  }

  /** As the source prints it, the relative target of a jump to the next
    * line on the same square reads `$(L=T=)` and so does the jump to the
    * previous line: two different moves print alike. */
  lemma RelativeAsWrittenLosesJump()
    ensures var p := MB.Vec4(0, 0, 1, 0);
      var up := Action.FullMove(p, MB.Vec4(0, 0, 1, 1));
      var down := Action.FullMove(p, MB.Vec4(0, 0, 1, -1));
      && RelativeAsWritten(up) == "$(L=T=)" == RelativeAsWritten(down)
      && Relative(up) != Relative(down)
  {
    var p := MB.Vec4(0, 0, 1, 0);
    var up := Action.FullMove(p, MB.Vec4(0, 0, 1, 1));
    var down := Action.FullMove(p, MB.Vec4(0, 0, 1, -1));
    if Relative(up) == Relative(down) {
      RelativeDetermines(up, down);
    }
  }

  // ---------------------------------------------------------------------------
  // pretty_action

  datatype MateType = NoMate | Softmate | Checkmate

  /** `+` for a plain check, `*` for a softmate, `#` for a checkmate. */
  function MateSymbol(m: MateType): char
  {
    match m
    case NoMate => '+'
    case Softmate => '*'
    case Checkmate => '#'
  }

  const InvalidAction := "---INVALID ACTION---"

  /** `last_check_pos`: the last move that checks the opponent, or the
    * number of moves when none does. */
  function LastCheck(checking: seq<bool>): (k: nat)
    ensures k <= |checking|
    ensures k < |checking| ==> checking[k] && forall j :: k < j < |checking| ==> !checking[j]
    ensures k == |checking| ==> forall j :: 0 <= j < |checking| ==> !checking[j]
    decreases |checking|
  {
    if checking == [] then 0
    else if checking[|checking| - 1] then |checking| - 1
    else
      var k := LastCheck(checking[..|checking| - 1]);
      if k == |checking| - 1 then |checking| else k
  }

  /** Whether each move, as `get_move_info` reports it, checks the opponent. */
  function Checking(infos: seq<Option<bool>>): (r: seq<bool>)
    ensures |r| == |infos|
  {
    seq(|infos|, i requires 0 <= i < |infos| => infos[i].Some? && infos[i].value)
  }

  /** The check symbols `pretty_action` hands to the printer: the mate
    * symbol for the last checking move, `+` for every other. */
  function CheckSymbols(checking: seq<bool>, mate: MateType): (r: seq<char>)
    ensures |r| == |checking|
  {
    SymbolsAt(|checking|, LastCheck(checking), mate)
  }

  /** `n` check symbols, the mate symbol at `last` and `+` elsewhere. */
  function SymbolsAt(n: nat, last: nat, mate: MateType): (r: seq<char>)
    ensures |r| == n
  {
    seq(n, i requires 0 <= i < n => if i == last then MateSymbol(mate) else '+')
  }

  /** The texts of the moves of an action, each on its own state. */
  function ActionTexts(mvs: seq<Action.ExtMove>, ctxs: seq<Context>, symbols: seq<char>): (r: seq<string>)
    requires |ctxs| == |mvs| && |symbols| == |mvs|
    ensures |r| == |mvs|
  {
    TextsUpTo(mvs, ctxs, symbols, |mvs|)
  }

  /** The texts of the first `n` moves. */
  function TextsUpTo(mvs: seq<Action.ExtMove>, ctxs: seq<Context>, symbols: seq<char>, n: nat): (r: seq<string>)
    requires |ctxs| == |mvs| && |symbols| == |mvs| && n <= |mvs|
    ensures |r| == n
  {
    if n == 0 then []
    else TextsUpTo(mvs, ctxs, symbols, n - 1) + [MoveText(CaptureOnly, ctxs[n - 1], mvs[n - 1].fm, mvs[n - 1].promote, symbols[n - 1])]
  }

  /** `pretty_action` prints with `SHOW_CAPTURE` only, so the check symbols
    * it works out never reach the text. */
  lemma ActionTextsIgnoreChecks(mvs: seq<Action.ExtMove>, ctxs: seq<Context>, s1: seq<char>, s2: seq<char>)
    requires |ctxs| == |mvs| && |s1| == |mvs| && |s2| == |mvs|
    ensures ActionTexts(mvs, ctxs, s1) == ActionTexts(mvs, ctxs, s2)
  {
    TextsIgnoreChecks(mvs, ctxs, s1, s2, |mvs|);
  }

  lemma {:induction false} TextsIgnoreChecks(mvs: seq<Action.ExtMove>, ctxs: seq<Context>, s1: seq<char>, s2: seq<char>, n: nat)
    requires |ctxs| == |mvs| && |s1| == |mvs| && |s2| == |mvs| && n <= |mvs|
    ensures TextsUpTo(mvs, ctxs, s1, n) == TextsUpTo(mvs, ctxs, s2, n)
  {
    if n > 0 {
      TextsIgnoreChecks(mvs, ctxs, s1, s2, n - 1);
      CheckIgnoredWithoutMate(CaptureOnly, ctxs[n - 1], mvs[n - 1].fm, mvs[n - 1].promote, s1[n - 1], s2[n - 1], Relative(mvs[n - 1].fm));
    }
  }

  /** One more part joined onto the join so far, each part followed by the
    * separator. */
  lemma JoinAppend(parts: seq<string>, x: string, acc: string, sep: string)
    requires parts == [] ==> acc == []
    requires parts != [] ==> acc == Text.Join(parts, sep) + sep
    ensures acc + x + sep == Text.Join(parts + [x], sep) + sep
  {
    if parts == [] {
      assert parts + [x] == [x];
      assert acc + x == x;
    } else {
      Text.JoinSnoc(parts, x, sep);
    }
  }

  /** Dropping the trailing one-character separator leaves the join. */
  lemma DropSeparator(parts: seq<string>, s: string, sep: string)
    requires |sep| == 1 && s == Text.Join(parts, sep) + sep
    ensures s[..|s| - 1] == Text.Join(parts, sep)
  {
  }

  /** The first loop of `pretty_action`: every move can be made, and where
    * the last checking move is (the number of moves when none checks). */
  method FindLastCheck(infos: seq<Option<bool>>) returns (valid: bool, lastCheck: nat)
    ensures valid <==> forall i :: 0 <= i < |infos| ==> infos[i].Some?
    ensures valid ==> lastCheck == LastCheck(Checking(infos))
  {
    lastCheck := |infos|;
    var i := 0;
    while i < |infos|
      invariant 0 <= i <= |infos|
      invariant forall j :: 0 <= j < i ==> infos[j].Some?
      invariant var k := LastCheck(Checking(infos)[..i]); lastCheck == if k == i then |infos| else k
    {
      assert Checking(infos)[..i + 1][..i] == Checking(infos)[..i];
      if infos[i].None? {
        return false, lastCheck;
      }
      if infos[i].value {
        lastCheck := i;
      }
      i := i + 1;
    }
    assert Checking(infos)[..|infos|] == Checking(infos);
    valid := true;
  }

  /** `pretty_action`: `infos[i]` is what `get_move_info` reports for move
    * `i` on the state reached so far (`None` when the move cannot be made),
    * `ctxs[i]` is what the printer reads from that state, and `mate` is
    * `get_mate_type()`. Any move that cannot be made gives the invalid
    * marker; otherwise the texts are joined with single spaces. */
  method PrettyAction(mvs: seq<Action.ExtMove>, infos: seq<Option<bool>>, ctxs: seq<Context>, mate: MateType)
    returns (pgn: string)
    requires |infos| == |mvs| && |ctxs| == |mvs|
    ensures (exists i :: 0 <= i < |infos| && infos[i].None?) ==> pgn == InvalidAction
    ensures (forall i :: 0 <= i < |infos| ==> infos[i].Some?) ==>
      pgn == Text.Join(ActionTexts(mvs, ctxs, CheckSymbols(Checking(infos), mate)), " ")
  {
    var valid, lastCheck := FindLastCheck(infos);
    if !valid {
      return InvalidAction;
    }
    pgn := WriteMoves(mvs, ctxs, lastCheck, mate);
  }

  /** What the second loop of `pretty_action` has written after `n` moves:
    * each text followed by a space. */
  function Written(mvs: seq<Action.ExtMove>, ctxs: seq<Context>, symbols: seq<char>, n: nat): (r: string)
    requires |ctxs| == |mvs| && |symbols| == |mvs| && n <= |mvs|
  {
    if n == 0 then ""
    else Written(mvs, ctxs, symbols, n - 1) + MoveText(CaptureOnly, ctxs[n - 1], mvs[n - 1].fm, mvs[n - 1].promote, symbols[n - 1]) + " "
  }

  /** The texts written so far are their join followed by a space. */
  lemma {:induction false} WrittenIsJoin(mvs: seq<Action.ExtMove>, ctxs: seq<Context>, symbols: seq<char>, n: nat)
    requires |ctxs| == |mvs| && |symbols| == |mvs| && 0 < n <= |mvs|
    ensures Written(mvs, ctxs, symbols, n) == Text.Join(TextsUpTo(mvs, ctxs, symbols, n), " ") + " "
  {
    var text := MoveText(CaptureOnly, ctxs[n - 1], mvs[n - 1].fm, mvs[n - 1].promote, symbols[n - 1]);
    if n > 1 {
      WrittenIsJoin(mvs, ctxs, symbols, n - 1);
    }
    JoinAppend(TextsUpTo(mvs, ctxs, symbols, n - 1), text, Written(mvs, ctxs, symbols, n - 1), " ");
  }

  /** One turn of the second loop of `pretty_action` writes the next text. */
  lemma WrittenStep(mvs: seq<Action.ExtMove>, ctxs: seq<Context>, n: nat, lastCheck: nat, mate: MateType,
                    pgn: string, text: string)
    requires |ctxs| == |mvs| && n < |mvs|
    requires pgn == Written(mvs, ctxs, SymbolsAt(|mvs|, lastCheck, mate), n)
    requires text == MoveText(CaptureOnly, ctxs[n], mvs[n].fm, mvs[n].promote,
                              if n == lastCheck then MateSymbol(mate) else '+')
    ensures pgn + text + " " == Written(mvs, ctxs, SymbolsAt(|mvs|, lastCheck, mate), n + 1)
  {
    var symbols := SymbolsAt(|mvs|, lastCheck, mate);
    assert symbols[n] == if n == lastCheck then MateSymbol(mate) else '+';
  }

  /** Dropping the last space of what the loop wrote leaves the join. */
  lemma WrittenDrop(mvs: seq<Action.ExtMove>, ctxs: seq<Context>, symbols: seq<char>, pgn: string)
    requires |ctxs| == |mvs| && |symbols| == |mvs|
    requires pgn == Written(mvs, ctxs, symbols, |mvs|)
    ensures pgn != "" <==> |mvs| > 0
    ensures pgn == "" ==> pgn == Text.Join(ActionTexts(mvs, ctxs, symbols), " ")
    ensures pgn != "" ==> pgn[..|pgn| - 1] == Text.Join(ActionTexts(mvs, ctxs, symbols), " ")
  {
    if |mvs| > 0 {
      WrittenIsJoin(mvs, ctxs, symbols, |mvs|);
      DropSeparator(TextsUpTo(mvs, ctxs, symbols, |mvs|), pgn, " ");
    }
  }

  /** The body of the second loop of `pretty_action`: the `n`-th text and a
    * space, with the mate symbol on the last checking move. */
  method WriteNext(mvs: seq<Action.ExtMove>, ctxs: seq<Context>, n: nat, lastCheck: nat, mate: MateType,
                   pgn: string) returns (r: string)
    requires |ctxs| == |mvs| && n < |mvs|
    requires pgn == Written(mvs, ctxs, SymbolsAt(|mvs|, lastCheck, mate), n)
    ensures r == Written(mvs, ctxs, SymbolsAt(|mvs|, lastCheck, mate), n + 1)
  {
    var checkSymbol := if n == lastCheck then MateSymbol(mate) else '+';
    var text := PrettyMoveImpl(CaptureOnly, ctxs[n], mvs[n].fm, mvs[n].promote, checkSymbol);
    WrittenStep(mvs, ctxs, n, lastCheck, mate, pgn, text);
    r := pgn + text + " ";
  }

  /** The second loop of `pretty_action`: each move's text followed by a
    * space, and the last space dropped. */
  method WriteMoves(mvs: seq<Action.ExtMove>, ctxs: seq<Context>, lastCheck: nat, mate: MateType) returns (pgn: string)
    requires |ctxs| == |mvs|
    ensures pgn == Text.Join(ActionTexts(mvs, ctxs, SymbolsAt(|mvs|, lastCheck, mate)), " ")
  {
    pgn := "";
    var i := 0;
    while i < |mvs|
      invariant 0 <= i <= |mvs|
      invariant pgn == Written(mvs, ctxs, SymbolsAt(|mvs|, lastCheck, mate), i)
    {
      pgn := WriteNext(mvs, ctxs, i, lastCheck, mate, pgn);
      i := i + 1;
    }
    WrittenDrop(mvs, ctxs, SymbolsAt(|mvs|, lastCheck, mate), pgn);
    if pgn != "" {
      pgn := pgn[..|pgn| - 1];
    }
  }
}
