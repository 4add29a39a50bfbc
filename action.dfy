/** Moves as text and the ordering of an action's moves (`action.cpp`).
  * A full move is a pair of 4D squares. `to_string` prints `(lTt)` and the
  * two squares for a physical move, and both `(lTt)` prefixes otherwise; the
  * string constructor reads that text back, also accepting a piece letter
  * and the `>`/`>>` jump marks. `action::sort` moves the branching moves
  * behind the others and orders the others by target line. */
module Action {
  import opened Wrappers
  import Text
  import Seqs
  import Turn
  import MultiverseBase

  type Vec4 = MultiverseBase.Vec4

  datatype FullMove = FullMove(from: Vec4, to: Vec4)

  /** An `ext_move`: a full move and the piece a pawn promotes to. */
  datatype ExtMove = ExtMove(fm: FullMove, promote: int)

  predicate OnBoard(a: Vec4)
  {
    0 <= a.x < 8 && 0 <= a.y < 8
  }

  // ---------------------------------------------------------------------------
  // to_string

  /** `(char)v` written to a stream: the low byte of `v`. */
  function ByteChar(v: int): char
  {
    (v % 256) as char
  }

  function ShowLT(l: int, t: int): string
  {
    "(" + (Text.IntToString(l) + ("T" + (Text.IntToString(t) + ")")))
  }

  /** File `'a' + x`, then rank `'1' + y`. */
  function ShowSquare(a: Vec4): string
  {
    [ByteChar(a.x + 'a' as int), ByteChar(a.y + '1' as int)]
  }

  /** `full_move::to_string`: the short form when the move stays on its board
    * (no change of time or line), the long form with the target's `(lTt)`
    * otherwise. */
  function ToString(m: FullMove): string
  {
    if m.to.t - m.from.t == 0 && m.to.l - m.from.l == 0 then
      ShowLT(m.from.l, m.from.t) + ShowSquare(m.from) + ShowSquare(m.to)
    else
      ShowLT(m.from.l, m.from.t) + ShowSquare(m.from) + ShowLT(m.to.l, m.to.t) + ShowSquare(m.to)
  }

  // ---------------------------------------------------------------------------
  // The string constructor: the two regular expressions, read by hand

  /** The length of the run of decimal digits at the start of `s`. */
  function DigitRun(s: string): (k: nat)
    ensures k <= |s|
    ensures forall i :: 0 <= i < k ==> Text.IsDigit(s[i])
    ensures k == |s| || !Text.IsDigit(s[k])
    decreases |s|
  {
    if s != [] && Text.IsDigit(s[0]) then 1 + DigitRun(s[1..]) else 0
  }

  /** `-?\d+` at the start of `s`, read as `std::stoi` reads it, and the rest. */
  function ReadInt(s: string): Option<(int, string)>
  {
    var neg := |s| > 0 && s[0] == '-';
    var u := if neg then s[1..] else s;
    var k := DigitRun(u);
    if k == 0 then None
    else
      var n := Text.DigitsValue(u[..k]);
      Some((if neg then 0 - n else n, u[k..]))
  }

  /** `\((-?\d+)T(-?\d+)\)`: the line, the time and the rest. */
  function ReadLT(s: string): Option<(int, int, string)>
  {
    if s == [] || s[0] != '(' then None else ReadLine(s[1..])
  }

  /** `(-?\d+)T(-?\d+)\)`, after the opening parenthesis. */
  function ReadLine(s: string): Option<(int, int, string)>
  {
    match ReadInt(s)
    case None => None
    case Some((l, r)) => if r == [] || r[0] != 'T' then None else ReadTime(l, r[1..])
  }

  /** `(-?\d+)\)`, after the `T`. */
  function ReadTime(l: int, s: string): Option<(int, int, string)>
  {
    match ReadInt(s)
    case None => None
    case Some((t, r)) => if r == [] || r[0] != ')' then None else Some((l, t, r[1..]))
  }

  /** `([a-h])([1-8])`: `x = file - 'a'`, `y = rank - '1'`, and the rest. */
  function ReadSquare(s: string): Option<(int, int, string)>
  {
    if |s| >= 2 && 'a' <= s[0] <= 'h' && '1' <= s[1] <= '8' then
      Some((s[0] as int - 'a' as int, s[1] as int - '1' as int, s[2..]))
    else None
  }

  /** `[A-Z]?` */
  function SkipPiece(s: string): string
  {
    if s != [] && 'A' <= s[0] <= 'Z' then s[1..] else s
  }

  /** `>?>?` */
  function SkipJump(s: string): string
  {
    var s1 := if s != [] && s[0] == '>' then s[1..] else s;
    if s1 != [] && s1[0] == '>' then s1[1..] else s1
  }

  const NoPatternMessage := "Cannot match this move in any known pattern: "

  /** `full_move(std::string)`: the first pattern (one board, the target
    * takes the source's line and time), then the second (an explicit target
    * board after optional jump marks); anything else throws. Both patterns
    * only admit files a-h and ranks 1-8. */
  function Parse(s: string): (r: Result<FullMove>)
    ensures r.Err? ==> r.error == NoPatternMessage + s
    ensures r.Ok? ==> OnBoard(r.value.from) && OnBoard(r.value.to)
    ensures s == [] || s[0] != '(' ==> r.Err?
  {
    match ReadLT(s)
    case None => Err(NoPatternMessage + s)
    case Some((l1, t1, r1)) => ParseSource(s, l1, t1, SkipPiece(r1))
  }

  /** The source square, after `(lTt)` and the optional piece letter. */
  function ParseSource(s: string, l1: int, t1: int, r: string): (res: Result<FullMove>)
    ensures res.Err? ==> res.error == NoPatternMessage + s
    ensures res.Ok? ==> OnBoard(res.value.from) && OnBoard(res.value.to)
  {
    match ReadSquare(r)
    case None => Err(NoPatternMessage + s)
    case Some((x1, y1, r2)) => ParseTarget(s, MultiverseBase.Vec4(x1, y1, t1, l1), r2)
  }

  /** After the source square: a bare target square (first pattern), or
    * jump marks and a target board (second pattern). */
  function ParseTarget(s: string, from: Vec4, r: string): (res: Result<FullMove>)
    requires OnBoard(from)
    ensures res.Err? ==> res.error == NoPatternMessage + s
    ensures res.Ok? ==> res.value.from == from && OnBoard(res.value.to)
  {
    var short := ReadSquare(r);
    if short.Some? && short.value.2 == [] then
      Ok(FullMove(from, MultiverseBase.Vec4(short.value.0, short.value.1, from.t, from.l)))
    else
      match ReadLT(SkipJump(r))
      case None => Err(NoPatternMessage + s)
      case Some((l2, t2, r3)) =>
        match ReadSquare(r3)
        case None => Err(NoPatternMessage + s)
        case Some((x2, y2, r4)) =>
          if r4 == [] then Ok(FullMove(from, MultiverseBase.Vec4(x2, y2, t2, l2)))
          else Err(NoPatternMessage + s)
  }

  // ---------------------------------------------------------------------------
  // The round trip

  lemma {:induction false} DigitRunOf(d: string, rest: string)
    requires forall i :: 0 <= i < |d| ==> Text.IsDigit(d[i])
    requires rest == [] || !Text.IsDigit(rest[0])
    ensures DigitRun(d + rest) == |d|
    decreases |d|
  {
    if d != [] {
      assert (d + rest)[1..] == d[1..] + rest;
      DigitRunOf(d[1..], rest);
    } else {
      assert d + rest == rest;
    }
  }

  /** A printed natural number followed by a non-digit: its digits are the
    * whole digit run, and they read back as the number. */
  lemma ReadDigitsShow(m: nat, rest: string)
    requires rest == [] || !Text.IsDigit(rest[0])
    ensures var d := Text.NatToString(m); var u := d + rest;
      DigitRun(u) == |d| > 0 && u[..|d|] == d && u[|d|..] == rest && Text.DigitsValue(d) == m
  {
    var d := Text.NatToString(m);
    DigitRunOf(d, rest);
    assert (d + rest)[..|d|] == d && (d + rest)[|d|..] == rest;
    Text.DigitsValueOfNatToString(m);
  }

  /** A printed integer followed by a non-digit reads back as itself. */
  lemma ReadIntShow(n: int, rest: string)
    requires rest == [] || !Text.IsDigit(rest[0])
    ensures ReadInt(Text.IntToString(n) + rest) == Some((n, rest))
  {
    var m: nat := if n < 0 then -n else n;
    var u := Text.NatToString(m) + rest;
    ReadDigitsShow(m, rest);
    if n < 0 {
      assert Text.IntToString(n) + rest == "-" + u;
      assert ("-" + u)[1..] == u;
    } else {
      assert Text.IntToString(n) + rest == u;
    }
  }

  lemma ReadLTShow(l: int, t: int, rest: string)
    ensures ReadLT(ShowLT(l, t) + rest) == Some((l, t, rest))
  {
    var sl, st := Text.IntToString(l), Text.IntToString(t);
    var r2 := ")" + rest;
    var r1 := "T" + (st + r2);
    ReadIntShow(t, r2);
    assert r2[1..] == rest;
    assert ReadTime(l, st + r2) == Some((l, t, rest));
    ReadIntShow(l, r1);
    assert r1[1..] == st + r2;
    assert ReadLine(sl + r1) == Some((l, t, rest));
    Seqs.Assoc(st, ")", rest);
    Seqs.Assoc("T", st + ")", rest);
    Seqs.Assoc(sl, "T" + (st + ")"), rest);
    Seqs.Assoc("(", sl + ("T" + (st + ")")), rest);
  }


  lemma ReadSquareShow(a: Vec4, rest: string)
    requires OnBoard(a)
    ensures ReadSquare(ShowSquare(a) + rest) == Some((a.x, a.y, rest))
  {
    assert (ShowSquare(a) + rest)[2..] == rest;
  }

  /** Reading back the text `to_string` prints gives the same move, for
    * every move whose files and ranks are on the board. */
  lemma ParseToString(m: FullMove)
    requires OnBoard(m.from) && OnBoard(m.to)
    ensures Parse(ToString(m)) == Ok(m)
  {
    var p, q := m.from, m.to;
    var lt1, sq1, sq2 := ShowLT(p.l, p.t), ShowSquare(p), ShowSquare(q);
    if q.t - p.t == 0 && q.l - p.l == 0 {
      Seqs.Assoc(lt1, sq1, sq2);
      ParseShort(m, ToString(m));
    } else {
      var lt2 := ShowLT(q.l, q.t);
      Seqs.Assoc(lt1 + sq1, lt2, sq2);
      Seqs.Assoc(lt1, sq1, lt2 + sq2);
      ParseLong(m, ToString(m));
    }
  }

  /** The short form reads back through the first pattern. */
  lemma ParseShort(m: FullMove, s: string)
    requires OnBoard(m.from) && OnBoard(m.to)
    requires m.to.t == m.from.t && m.to.l == m.from.l
    requires s == ShowLT(m.from.l, m.from.t) + (ShowSquare(m.from) + ShowSquare(m.to))
    ensures Parse(s) == Ok(m)
  {
    var p, q := m.from, m.to;
    var sq1, sq2 := ShowSquare(p), ShowSquare(q);
    ReadSquareShow(q, []);
    assert sq2 + [] == sq2;
    ReadLTShow(p.l, p.t, sq1 + sq2);
    ReadSquareShow(p, sq2);
    assert SkipPiece(sq1 + sq2) == sq1 + sq2;
    assert ParseTarget(s, p, sq2) == Ok(m);
  }

  /** The long form fails the first pattern and reads back through the
    * second. */
  lemma ParseLong(m: FullMove, s: string)
    requires OnBoard(m.from) && OnBoard(m.to)
    requires s == ShowLT(m.from.l, m.from.t) + (ShowSquare(m.from) + (ShowLT(m.to.l, m.to.t) + ShowSquare(m.to)))
    ensures Parse(s) == Ok(m)
  {
    var p, q := m.from, m.to;
    var sq1, lt2, sq2 := ShowSquare(p), ShowLT(q.l, q.t), ShowSquare(q);
    ReadLTShow(p.l, p.t, sq1 + (lt2 + sq2));
    ReadSquareShow(p, lt2 + sq2);
    assert SkipPiece(sq1 + (lt2 + sq2)) == sq1 + (lt2 + sq2);
    ReadSquareShow(q, []);
    assert sq2 + [] == sq2;
    ReadLTShow(q.l, q.t, sq2);
    ParseLongTarget(m, s, lt2, sq2);
  }

  lemma ParseLongTarget(m: FullMove, s: string, lt2: string, sq2: string)
    requires OnBoard(m.from)
    requires |lt2| > 0 && lt2[0] == '('
    requires ReadLT(lt2 + sq2) == Some((m.to.l, m.to.t, sq2))
    requires ReadSquare(sq2) == Some((m.to.x, m.to.y, []))
    ensures ParseTarget(s, m.from, lt2 + sq2) == Ok(m)
  {
    var r := lt2 + sq2;
    assert r[0] == '(';
    assert SkipJump(r) == r;
    TargetOnOtherBoard(s, m.from, r, m.to, sq2);
  }

  /** A target that is not a bare square is read as `(lTt)` and a square. */
  lemma TargetOnOtherBoard(s: string, from: Vec4, r: string, to: Vec4, sq: string)
    requires OnBoard(from) && r != [] && r[0] == '('
    requires ReadLT(SkipJump(r)) == Some((to.l, to.t, sq))
    requires ReadSquare(sq) == Some((to.x, to.y, []))
    ensures ParseTarget(s, from, r) == Ok(FullMove(from, to))
  {
    assert ReadSquare(r).None?;
  }

  // ---------------------------------------------------------------------------
  // Comparisons

  /** A strict total order on squares (the `vec4` order is given). */
  ghost predicate StrictTotal(lt: (Vec4, Vec4) -> bool)
  {
    (forall a :: !lt(a, a))
    && (forall a, b, c :: lt(a, b) && lt(b, c) ==> lt(a, c))
    && (forall a, b :: a != b ==> lt(a, b) || lt(b, a))
  }

  /** `std::tie(from, to) < std::tie(other.from, other.to)`. */
  predicate TieLess(lt: (Vec4, Vec4) -> bool, a: FullMove, b: FullMove)
  {
    lt(a.from, b.from) || (!lt(b.from, a.from) && lt(a.to, b.to))
  }

  /** Over a strict total order on squares, `operator<` orders moves by source
    * square and then by target square, and is itself a strict total order
    * whose equivalence is `operator==`. */
  lemma TieLessLexicographic(lt: (Vec4, Vec4) -> bool, a: FullMove, b: FullMove, c: FullMove)
    requires StrictTotal(lt)
    ensures TieLess(lt, a, b) <==> lt(a.from, b.from) || (a.from == b.from && lt(a.to, b.to))
    ensures !TieLess(lt, a, a)
    ensures TieLess(lt, a, b) && TieLess(lt, b, c) ==> TieLess(lt, a, c)
    ensures a != b ==> TieLess(lt, a, b) || TieLess(lt, b, a)
  {
    if a.from != b.from {
      assert lt(a.from, b.from) || lt(b.from, a.from);
    }
    if TieLess(lt, a, b) && TieLess(lt, b, c) {
      if lt(a.from, b.from) && lt(b.from, c.from) {
        assert lt(a.from, c.from);
      }
    }
  }

  // ---------------------------------------------------------------------------
  // action::sort

  /** Whether move `m` branches when `moved` holds the lines already moved
    * on: its arrival `(to.t, player)` comes before the end of the target
    * line, or meets it on a line some earlier move already used. */
  predicate BranchesGiven(moved: set<int>, m: ExtMove, player: bool, timelineEnd: int -> Turn.Turn)
  {
    var tc1 := (m.fm.to.t, player);
    var tc2 := timelineEnd(m.fm.to.l);
    Turn.Less(tc1, tc2) || (tc1 == tc2 && m.fm.to.l in moved)
  }

  /** `moved_lines` after move `m`: its source line, and its target line
    * unless it branches. */
  function NextMoved(moved: set<int>, m: ExtMove, player: bool, timelineEnd: int -> Turn.Turn): set<int>
  {
    moved + {m.fm.from.l} + (if BranchesGiven(moved, m, player, timelineEnd) then {} else {m.fm.to.l})
  }

  /** `moved_lines` after the moves `ms`, starting from `moved`. */
  function MovedLines(moved: set<int>, ms: seq<ExtMove>, player: bool, timelineEnd: int -> Turn.Turn): set<int>
    decreases |ms|
  {
    if ms == [] then moved
    else MovedLines(NextMoved(moved, ms[0], player, timelineEnd), ms[1..], player, timelineEnd)
  }

  /** The branching flag of each move of `ms`, in order, starting from
    * `moved`. */
  function Flags(ms: seq<ExtMove>, moved: set<int>, player: bool, timelineEnd: int -> Turn.Turn): (r: seq<bool>)
    ensures |r| == |ms|
    decreases |ms|
  {
    if ms == [] then []
    else
      [BranchesGiven(moved, ms[0], player, timelineEnd)]
        + Flags(ms[1..], NextMoved(moved, ms[0], player, timelineEnd), player, timelineEnd)
  }

  /** Move `i` branches exactly when `BranchesGiven` holds for it with the
    * `moved_lines` left by the moves before it. */
  lemma {:induction false} FlagsAt(ms: seq<ExtMove>, moved: set<int>, i: nat, player: bool, timelineEnd: int -> Turn.Turn)
    requires i < |ms|
    ensures Flags(ms, moved, player, timelineEnd)[i]
      == BranchesGiven(MovedLines(moved, ms[..i], player, timelineEnd), ms[i], player, timelineEnd)
    decreases i
  {
    if i > 0 {
      var next := NextMoved(moved, ms[0], player, timelineEnd);
      FlagsAt(ms[1..], next, i - 1, player, timelineEnd);
      assert ms[..i][1..] == ms[1..][..i - 1];
    }
  }

  /** The moves of `ms` whose flag is `want`, in their order in `ms`. */
  function Pick(ms: seq<ExtMove>, flags: seq<bool>, want: bool): seq<ExtMove>
    requires |flags| == |ms|
    decreases |ms|
  {
    if ms == [] then []
    else (if flags[0] == want then [ms[0]] else []) + Pick(ms[1..], flags[1..], want)
  }

  /** The `i`-th move of `ms` is branching. */
  predicate IsBranching(ms: seq<ExtMove>, i: nat, player: bool, timelineEnd: int -> Turn.Turn)
    requires i < |ms|
  {
    Flags(ms, {}, player, timelineEnd)[i]
  }

  /** The branching (`want`) or non-branching (`!want`) moves of `ms`, in
    * their order in `ms`. */
  function Select(ms: seq<ExtMove>, want: bool, player: bool, timelineEnd: int -> Turn.Turn): seq<ExtMove>
  {
    Pick(ms, Flags(ms, {}, player, timelineEnd), want)
  }

  /** Every move is either picked or not: the two picks split `ms`. */
  lemma {:induction false} PickPartition(ms: seq<ExtMove>, flags: seq<bool>)
    requires |flags| == |ms|
    ensures |Pick(ms, flags, true)| + |Pick(ms, flags, false)| == |ms|
    ensures multiset(Pick(ms, flags, true)) + multiset(Pick(ms, flags, false)) == multiset(ms)
    decreases |ms|
  {
    if ms != [] {
      PickPartition(ms[1..], flags[1..]);
      var t, f := Pick(ms[1..], flags[1..], true), Pick(ms[1..], flags[1..], false);
      assert multiset(ms) == multiset{ms[0]} + multiset(ms[1..]) by { assert ms == [ms[0]] + ms[1..]; }
      if flags[0] {
        assert Pick(ms, flags, true) == [ms[0]] + t;
        assert Pick(ms, flags, false) == f;
      } else {
        assert Pick(ms, flags, false) == [ms[0]] + f;
        assert Pick(ms, flags, true) == t;
      }
    }
  }

  /** With every flag set, everything is picked and nothing is left. */
  lemma {:induction false} PickAll(ms: seq<ExtMove>, flags: seq<bool>)
    requires |flags| == |ms|
    requires forall i :: 0 <= i < |flags| ==> flags[i]
    ensures Pick(ms, flags, true) == ms
    ensures Pick(ms, flags, false) == []
    decreases |ms|
  {
    if ms != [] {
      PickAll(ms[1..], flags[1..]);
      assert [ms[0]] + ms[1..] == ms;
    }
  }

  /** Picking distributes over concatenation. */
  lemma {:induction false} PickAppend(m1: seq<ExtMove>, f1: seq<bool>, m2: seq<ExtMove>, f2: seq<bool>, want: bool)
    requires |f1| == |m1| && |f2| == |m2|
    ensures Pick(m1 + m2, f1 + f2, want) == Pick(m1, f1, want) + Pick(m2, f2, want)
    decreases |m1|
  {
    if m1 == [] {
      assert m1 + m2 == m2 && f1 + f2 == f2;
    } else {
      assert (m1 + m2)[1..] == m1[1..] + m2 && (f1 + f2)[1..] == f1[1..] + f2;
      PickAppend(m1[1..], f1[1..], m2, f2, want);
      var h := if f1[0] == want then [m1[0]] else [];
      assert Pick(m1 + m2, f1 + f2, want) == h + Pick(m1[1..] + m2, f1[1..] + f2, want);
      assert Pick(m1, f1, want) == h + Pick(m1[1..], f1[1..], want);
    }
  }

  /** One more move: the pick grows by it when its flag is `want`. */
  lemma PickStep(ms: seq<ExtMove>, flags: seq<bool>, i: nat, want: bool)
    requires |flags| == |ms| && i < |ms|
    ensures Pick(ms[..i + 1], flags[..i + 1], want)
      == Pick(ms[..i], flags[..i], want) + (if flags[i] == want then [ms[i]] else [])
  {
    assert ms[..i + 1] == ms[..i] + [ms[i]];
    assert flags[..i + 1] == flags[..i] + [flags[i]];
    PickAppend(ms[..i], flags[..i], [ms[i]], [flags[i]], want);
  }

  /** The key the non-branching moves are sorted by: `sign * to.l`, with
    * `sign = -1` when black is to move. */
  function LineKey(player: bool): ExtMove -> int
  {
    (m: ExtMove) => (if player then -1 else 1) * m.fm.to.l
  }

  /** Writes `s` over `a[lo..lo + |s|]`. */
  method Overwrite(a: array<ExtMove>, lo: nat, s: seq<ExtMove>)
    requires lo + |s| <= a.Length
    modifies a
    ensures a[..] == old(a[..lo]) + s + old(a[lo + |s|..])
  {
    ghost var orig := a[..];
    var k := 0;
    while k < |s|
      invariant 0 <= k <= |s|
      invariant a[..] == orig[..lo] + s[..k] + orig[lo + k..]
    {
      ghost var pre := a[..];
      a[lo + k] := s[k];
      assert a[..] == pre[lo + k := s[k]];
      OverwriteStep(orig, pre, a[..], lo, s, k);
      k := k + 1;
    }
    assert s[..k] == s;
  }

  /** Writing `s[k]` at `lo + k` extends the written part by one. */
  lemma OverwriteStep<T>(orig: seq<T>, pre: seq<T>, post: seq<T>, lo: nat, s: seq<T>, k: nat)
    requires k < |s| && lo + |s| <= |orig|
    requires pre == orig[..lo] + s[..k] + orig[lo + k..]
    requires post == pre[lo + k := s[k]]
    ensures post == orig[..lo] + s[..k + 1] + orig[lo + k + 1..]
  {
    assert s[..k + 1] == s[..k] + [s[k]];
    var want := orig[..lo] + s[..k + 1] + orig[lo + k + 1..];
    assert |want| == |post|;
    forall j | 0 <= j < |post| ensures post[j] == want[j] {
      if j < lo + k {
        assert post[j] == pre[j];
      }
    }
  }

  /** `std::swap(mvs[i], mvs[b])` with `b <= i`: the prefix is kept, `mvs[i]`
    * lands at `b`, and the stretch `b+1..i` holds what `b..i-1` held. */
  lemma SwapFacts<T>(pre: seq<T>, post: seq<T>, b: nat, i: nat)
    requires b <= i < |pre|
    requires post == pre[i := pre[b]][b := pre[i]]
    ensures post[..b + 1] == pre[..b] + [pre[i]]
    ensures multiset(post[b + 1..i + 1]) == multiset(pre[b..i])
    ensures post[i + 1..] == pre[i + 1..]
  {
    if b < i {
      assert post[b + 1..i + 1] == pre[b + 1..i] + [pre[b]];
      assert pre[b..i] == [pre[b]] + pre[b + 1..i];
    }
  }

  /** The state of the swap loop after the first `i` moves of `orig`, whose
    * flags are `flags`: the branching moves sit in `cur[..b]` in order, the
    * others in `cur[b..i]`, and the rest is untouched. */
  ghost predicate Arranged(cur: seq<ExtMove>, orig: seq<ExtMove>, flags: seq<bool>, b: nat, i: nat)
  {
    b <= i <= |cur| == |orig| == |flags|
    && cur[..b] == Pick(orig[..i], flags[..i], true)
    && multiset(cur[b..i]) == multiset(Pick(orig[..i], flags[..i], false))
    && forall k :: i <= k < |cur| ==> cur[k] == orig[k]
  }

  /** One turn of the swap loop keeps the arrangement: a branching move is
    * swapped to `b`, a non-branching one stays where it is. */
  lemma ArrangedStep(cur: seq<ExtMove>, orig: seq<ExtMove>, flags: seq<bool>, b: nat, i: nat)
    requires Arranged(cur, orig, flags, b, i) && i < |cur|
    ensures flags[i] ==> Arranged(cur[i := cur[b]][b := cur[i]], orig, flags, b + 1, i + 1)
    ensures !flags[i] ==> Arranged(cur, orig, flags, b, i + 1)
  {
    if flags[i] {
      ArrangedSwap(cur, orig, flags, b, i);
    } else {
      ArrangedKeep(cur, orig, flags, b, i);
    }
  }

  lemma ArrangedSwap(cur: seq<ExtMove>, orig: seq<ExtMove>, flags: seq<bool>, b: nat, i: nat)
    requires Arranged(cur, orig, flags, b, i) && i < |cur| && flags[i]
    ensures Arranged(cur[i := cur[b]][b := cur[i]], orig, flags, b + 1, i + 1)
  {
    PickStep(orig, flags, i, true);
    PickStep(orig, flags, i, false);
    SwapFacts(cur, cur[i := cur[b]][b := cur[i]], b, i);
  }

  lemma ArrangedKeep(cur: seq<ExtMove>, orig: seq<ExtMove>, flags: seq<bool>, b: nat, i: nat)
    requires Arranged(cur, orig, flags, b, i) && i < |cur| && !flags[i]
    ensures Arranged(cur, orig, flags, b, i + 1)
  {
    PickStep(orig, flags, i, true);
    PickStep(orig, flags, i, false);
    assert cur[b..i + 1] == cur[b..i] + [cur[i]];
  }

  /** The flags of the moves from `i` on, given `moved_lines` before move
    * `i`: the first is `BranchesGiven` of move `i`, and the rest follow from
    * `NextMoved`. */
  lemma FlagsSuffix(orig: seq<ExtMove>, flags: seq<bool>, i: nat, moved: set<int>,
                    player: bool, timelineEnd: int -> Turn.Turn)
    requires i < |orig| == |flags|
    requires Flags(orig[i..], moved, player, timelineEnd) == flags[i..]
    ensures flags[i] == BranchesGiven(moved, orig[i], player, timelineEnd)
    ensures Flags(orig[i + 1..], NextMoved(moved, orig[i], player, timelineEnd), player, timelineEnd) == flags[i + 1..]
  {
    var next := NextMoved(moved, orig[i], player, timelineEnd);
    assert orig[i..][0] == orig[i] && orig[i..][1..] == orig[i + 1..];
    var rest := Flags(orig[i + 1..], next, player, timelineEnd);
    assert Flags(orig[i..], moved, player, timelineEnd) == [flags[i]] + rest;
    assert flags[i + 1..] == flags[i..][1..] == ([flags[i]] + rest)[1..] == rest;
  }

  /** The whole state of the swap loop: the arrangement so far, and the
    * flags still to come follow from `moved`. */
  ghost predicate SwapState(cur: seq<ExtMove>, orig: seq<ExtMove>, flags: seq<bool>, b: nat, i: nat, moved: set<int>,
                            player: bool, timelineEnd: int -> Turn.Turn)
  {
    Arranged(cur, orig, flags, b, i) && Flags(orig[i..], moved, player, timelineEnd) == flags[i..]
  }

  /** One turn of the swap loop, for move `i`. */
  lemma SwapLoopStep(cur: seq<ExtMove>, orig: seq<ExtMove>, flags: seq<bool>, b: nat, i: nat, moved: set<int>,
                     player: bool, timelineEnd: int -> Turn.Turn)
    requires SwapState(cur, orig, flags, b, i, moved, player, timelineEnd) && i < |cur|
    ensures var next := NextMoved(moved, cur[i], player, timelineEnd);
      if BranchesGiven(moved, cur[i], player, timelineEnd) then
        SwapState(cur[i := cur[b]][b := cur[i]], orig, flags, b + 1, i + 1, next, player, timelineEnd)
      else
        SwapState(cur, orig, flags, b, i + 1, next, player, timelineEnd)
  {
    assert cur[i] == orig[i];
    FlagsSuffix(orig, flags, i, moved, player, timelineEnd);
    ArrangedStep(cur, orig, flags, b, i);
  }

  /** The swap loop run from move `i` with `b` branching moves already at
    * the front and `moved` as `moved_lines`: the final arrangement and
    * `branching_index`. */
  function SwapLoop(cur: seq<ExtMove>, b: nat, i: nat, moved: set<int>,
                    player: bool, timelineEnd: int -> Turn.Turn): (r: (seq<ExtMove>, nat))
    requires b <= i <= |cur|
    ensures |r.0| == |cur| && r.1 <= |cur|
    decreases |cur| - i
  {
    if i == |cur| then (cur, b)
    else
      var m := cur[i];
      var next := NextMoved(moved, m, player, timelineEnd);
      if BranchesGiven(moved, m, player, timelineEnd) then
        SwapLoop(cur[i := cur[b]][b := m], b + 1, i + 1, next, player, timelineEnd)
      else
        SwapLoop(cur, b, i + 1, next, player, timelineEnd)
  }

  /** Run to the end from an arranged state, the swap loop leaves the
    * branching moves in order at the front and the others behind them. */
  lemma {:induction false} SwapLoopArranges(cur: seq<ExtMove>, orig: seq<ExtMove>, flags: seq<bool>, b: nat, i: nat,
                                            moved: set<int>, player: bool, timelineEnd: int -> Turn.Turn)
    requires SwapState(cur, orig, flags, b, i, moved, player, timelineEnd)
    ensures var r := SwapLoop(cur, b, i, moved, player, timelineEnd);
      r.0[..r.1] == Pick(orig, flags, true) && multiset(r.0[r.1..]) == multiset(Pick(orig, flags, false))
    decreases |cur| - i
  {
    if i == |cur| {
      assert orig[..i] == orig && flags[..i] == flags && cur[b..i] == cur[b..];
    } else {
      SwapLoopStep(cur, orig, flags, b, i, moved, player, timelineEnd);
      var next := NextMoved(moved, cur[i], player, timelineEnd);
      if BranchesGiven(moved, cur[i], player, timelineEnd) {
        SwapLoopArranges(cur[i := cur[b]][b := cur[i]], orig, flags, b + 1, i + 1, next, player, timelineEnd);
      } else {
        SwapLoopArranges(cur, orig, flags, b, i + 1, next, player, timelineEnd);
      }
    }
  }

  /** The swap loop from the start puts `Select(orig, true)` at the front and
    * the non-branching moves, in some order, behind it. */
  lemma SwapLoopResult(orig: seq<ExtMove>, player: bool, timelineEnd: int -> Turn.Turn)
    ensures var r := SwapLoop(orig, 0, 0, {}, player, timelineEnd);
      r.0[..r.1] == Select(orig, true, player, timelineEnd)
      && multiset(r.0[r.1..]) == multiset(Select(orig, false, player, timelineEnd))
  {
    var flags := Flags(orig, {}, player, timelineEnd);
    assert orig[0..] == orig && flags[0..] == flags;
    SwapLoopArranges(orig, orig, flags, 0, 0, {}, player, timelineEnd);
  }

  /** The swap loop of `action::sort`: each branching move is swapped to the
    * front, after the branching moves before it. Returns `branching_index`. */
  method SwapBranchingForward(a: array<ExtMove>, player: bool, timelineEnd: int -> Turn.Turn) returns (b: nat)
    modifies a
    ensures (a[..], b) == SwapLoop(old(a[..]), 0, 0, {}, player, timelineEnd)
  {
    ghost var orig := a[..];
    var moved: set<int> := {};
    b := 0;
    var i := 0;
    while i < a.Length
      invariant b <= i <= a.Length
      invariant SwapLoop(a[..], b, i, moved, player, timelineEnd) == SwapLoop(orig, 0, 0, {}, player, timelineEnd)
    {
      var m := a[i];
      var branching := BranchesGiven(moved, m, player, timelineEnd);
      ghost var next := NextMoved(moved, m, player, timelineEnd);
      ghost var cur := a[..];
      SwapLoopUnfold(cur, b, i, moved, player, timelineEnd);
      moved := moved + {m.fm.from.l};
      if branching {
        a[i], a[b] := a[b], a[i];
        assert a[..] == cur[i := cur[b]][b := m];
        b := b + 1;
      } else {
        moved := moved + {m.fm.to.l};
      }
      assert moved == next;
      i := i + 1;
    }
  }

  /** One turn of the swap loop, unfolded. */
  lemma SwapLoopUnfold(cur: seq<ExtMove>, b: nat, i: nat, moved: set<int>,
                       player: bool, timelineEnd: int -> Turn.Turn)
    requires b <= i < |cur|
    ensures var next := NextMoved(moved, cur[i], player, timelineEnd);
      SwapLoop(cur, b, i, moved, player, timelineEnd)
      == if BranchesGiven(moved, cur[i], player, timelineEnd)
         then SwapLoop(cur[i := cur[b]][b := cur[i]], b + 1, i + 1, next, player, timelineEnd)
         else SwapLoop(cur, b, i + 1, next, player, timelineEnd)
  {
  }

  /** `final` is `swapped` with the moves behind `b` sorted by `key` and
    * rotated to the front, and the moves before `b` behind them. */
  ghost predicate RotatedSorted(final: seq<ExtMove>, swapped: seq<ExtMove>, b: nat, key: ExtMove -> int)
  {
    b <= |swapped| && |final| == |swapped|
    && final[|swapped| - b..] == swapped[..b]
    && multiset(final[..|swapped| - b]) == multiset(swapped[b..])
    && Seqs.SortedBy(final[..|swapped| - b], key)
  }

  /** A sorted rearrangement of the moves behind `b`, followed by the moves
    * before `b`, is such a rotation. */
  lemma RotateTail(before: seq<ExtMove>, b: nat, tail: seq<ExtMove>, key: ExtMove -> int)
    requires b <= |before| && multiset(tail) == multiset(before[b..]) && Seqs.SortedBy(tail, key)
    ensures RotatedSorted(tail + before[..b], before, b, key)
  {
    assert |tail| == |before[b..]| by {
      assert |multiset(tail)| == |tail| && |multiset(before[b..])| == |before[b..]|;
    }
    var final := tail + before[..b];
    assert final[|before| - b..] == before[..b];
    assert final[..|before| - b] == tail;
  }

  /** The tail of `action::sort`: `std::sort` of `a[b..]` by `LineKey`, then
    * `std::rotate` bringing that sorted tail to the front. */
  method SortTailAndRotate(a: array<ExtMove>, b: nat, player: bool)
    requires b < a.Length
    modifies a
    ensures RotatedSorted(a[..], old(a[..]), b, LineKey(player))
  {
    ghost var before := a[..];
    var tail := Seqs.SortBy(a[b..], LineKey(player));
    Overwrite(a, b, tail);
    OverwriteTail(before, b, tail, a[..]);
    var front := a[b..] + a[..b];
    Overwrite(a, 0, front);
    OverwriteTail(tail + before[..b], 0, front, a[..]);
    RotateTail(before, b, tail, LineKey(player));
  }

  /** Overwriting everything from `lo` on keeps the front and leaves `s`. */
  lemma OverwriteTail(pre: seq<ExtMove>, lo: nat, s: seq<ExtMove>, post: seq<ExtMove>)
    requires lo + |s| == |pre| && post == pre[..lo] + s + pre[lo + |s|..]
    ensures post[..lo] == pre[..lo] && post[lo..] == s && post == pre[..lo] + s
  {
    assert pre[lo + |s|..] == [];
  }

  /** What `action::sort` promises of its result `r` for the moves `ms`: the
    * non-branching moves first, ordered by `sign * to.l` (`std::sort` does
    * not fix the order among equal keys), then the branching moves in their
    * original order. */
  predicate SortedAction(r: seq<ExtMove>, ms: seq<ExtMove>, player: bool, timelineEnd: int -> Turn.Turn)
  {
    var nb := Select(ms, false, player, timelineEnd);
    |nb| <= |r|
    && r[|nb|..] == Select(ms, true, player, timelineEnd)
    && multiset(r[..|nb|]) == multiset(nb)
    && Seqs.SortedBy(r[..|nb|], LineKey(player))
  }

  /** Rotating a sorted rearrangement of the moves behind `b` to the front
    * (or leaving everything in place when `b` is at the end) puts the moves
    * before `b` at the back. */
  lemma RotateFacts(swapped: seq<ExtMove>, b: nat, final: seq<ExtMove>, t: seq<ExtMove>, f: seq<ExtMove>,
                    key: ExtMove -> int)
    requires b <= |swapped| && swapped[..b] == t && multiset(swapped[b..]) == multiset(f)
    requires |final| == |swapped|
    requires b == |swapped| ==> final == swapped
    requires b < |swapped| ==> RotatedSorted(final, swapped, b, key)
    ensures |f| <= |final| && final[|f|..] == t
    ensures multiset(final[..|f|]) == multiset(f) && Seqs.SortedBy(final[..|f|], key)
    ensures multiset(final) == multiset(t) + multiset(f)
  {
    var n := |swapped| - b;
    assert |f| == n by {
      assert |multiset(swapped[b..])| == |swapped[b..]|;
    }
    assert final == final[..n] + final[n..];
    if b == |swapped| {
      assert swapped[b..] == [] && final[..n] == [];
    }
  }

  /** The swap loop followed by the sort-and-rotate of the moves behind
    * `branching_index` (or nothing, when every move branches) arranges the
    * moves as `action::sort` promises, and only permutes them. */
  lemma SortSteps(orig: seq<ExtMove>, swapped: seq<ExtMove>, b: nat, final: seq<ExtMove>,
                  player: bool, timelineEnd: int -> Turn.Turn)
    requires (swapped, b) == SwapLoop(orig, 0, 0, {}, player, timelineEnd)
    requires |final| == |swapped|
    requires b == |swapped| ==> final == swapped
    requires b < |swapped| ==> RotatedSorted(final, swapped, b, LineKey(player))
    ensures SortedAction(final, orig, player, timelineEnd)
    ensures multiset(final) == multiset(orig)
  {
    SwapLoopResult(orig, player, timelineEnd);
    PickPartition(orig, Flags(orig, {}, player, timelineEnd));
    RotateFacts(swapped, b, final, Select(orig, true, player, timelineEnd),
                Select(orig, false, player, timelineEnd), LineKey(player));
  }

  /** `action::sort`: arranges the moves as `SortedAction` describes. */
  method Sort(a: array<ExtMove>, player: bool, timelineEnd: int -> Turn.Turn)
    modifies a
    ensures SortedAction(a[..], old(a[..]), player, timelineEnd)
    ensures multiset(a[..]) == multiset(old(a[..]))
  {
    ghost var orig := a[..];
    var b := SwapBranchingForward(a, player, timelineEnd);
    ghost var swapped := a[..];
    if b < a.Length {
      SortTailAndRotate(a, b, player);
    }
    SortSteps(orig, swapped, b, a[..], player, timelineEnd);
  }

  /** `action::from_vector`: the moves copied, then sorted; when every move
    * branches, the order is kept as given. */
  method FromVector(ms: seq<ExtMove>, player: bool, timelineEnd: int -> Turn.Turn) returns (r: seq<ExtMove>)
    ensures multiset(r) == multiset(ms)
    ensures SortedAction(r, ms, player, timelineEnd)
    ensures (forall i :: 0 <= i < |ms| ==> IsBranching(ms, i, player, timelineEnd)) ==> r == ms
  {
    var a := new ExtMove[|ms|](i requires 0 <= i < |ms| => ms[i]);
    assert a[..] == ms;
    Sort(a, player, timelineEnd);
    r := a[..];
    if forall i :: 0 <= i < |ms| ==> IsBranching(ms, i, player, timelineEnd) {
      var flags := Flags(ms, {}, player, timelineEnd);
      assert forall i :: 0 <= i < |flags| ==> flags[i] by {
        forall i | 0 <= i < |flags| ensures flags[i] {
          assert IsBranching(ms, i, player, timelineEnd);
        }
      }
      PickAll(ms, flags);
      assert r[0..] == r;
    }
  }

  /** `operator<<` for an action: each move's text followed by one space. */
  function ShowAction(ms: seq<ExtMove>, show: ExtMove -> string): (r: string)
    ensures ms != [] ==> |r| > 0 && r[|r| - 1] == ' '
    decreases |ms|
  {
    if ms == [] then "" else ShowAction(ms[..|ms| - 1], show) + show(ms[|ms| - 1]) + " "
  }

  /** The text of an action is the texts of its parts, one after the other. */
  lemma {:induction false} ShowActionAppend(a: seq<ExtMove>, b: seq<ExtMove>, show: ExtMove -> string)
    ensures ShowAction(a + b, show) == ShowAction(a, show) + ShowAction(b, show)
    decreases |b|
  {
    if b == [] {
      assert a + b == a;
    } else {
      var n := |b| - 1;
      assert (a + b)[..|a + b| - 1] == a + b[..n];
      ShowActionAppend(a, b[..n], show);
    }
  }
}
