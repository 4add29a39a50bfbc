/** The earlier revision of the multiverse class: the same table of boards with
  * odd-numbered lines only, an active range derived from `l_min`/`l_max`,
  * `get_board` returning `nullptr` instead of throwing, and
  * `insert_board` overwriting an occupied slot. */
module OldMultiverse {
  import opened Wrappers
  import opened Coordinates
  import MB = MultiverseBase
  import Text

  /** `number_activated`: the shorter side's line count, plus one when the sides differ. */
  function NumberActivated(lMin: int, lMax: int): int
  {
    var tmp := MB.Min(-lMin, lMax);
    if tmp < MB.Max(-lMin, lMax) then tmp + 1 else tmp
  }

  function ActiveLo(lMin: int, lMax: int): int { MB.Max(lMin, -NumberActivated(lMin, lMax)) }
  function ActiveHi(lMin: int, lMax: int): int { MB.Min(lMax, NumberActivated(lMin, lMax)) }

  /** The active lines are all lines of the side with fewer lines and, of the
    * other side, at most one line more than that side has. */
  lemma ActiveRangeBalance(lMin: int, lMax: int)
    requires lMin <= 0 <= lMax
    ensures ActiveLo(lMin, lMax) <= 0 <= ActiveHi(lMin, lMax)
    ensures lMax == -lMin ==> ActiveLo(lMin, lMax) == lMin && ActiveHi(lMin, lMax) == lMax
    ensures lMax > -lMin ==> ActiveLo(lMin, lMax) == lMin && ActiveHi(lMin, lMax) == -lMin + 1
    ensures lMax < -lMin ==> ActiveHi(lMin, lMax) == lMax && ActiveLo(lMin, lMax) == -(lMax + 1)
  {
  }

  /** With the single initial line 0, `number_activated`'s range is the
    * balanced range that `insert_board` keeps in the later revision. */
  lemma ActiveRangeIsBalanced(lMin: int, lMax: int)
    requires lMin <= 0 <= lMax
    ensures MB.BalancedRange(lMin, lMax, 0, 0) == (ActiveLo(lMin, lMax), ActiveHi(lMin, lMax))
  {
  }

  /** `is_active` as written: it takes component 0 of `get_present()`, which in
    * this revision is the present turn number, not the number of active lines. */
  predicate IsActiveAsWritten(lMin: int, lMax: int, presentT: int, l: int)
  {
    MB.Max(lMin, -presentT) <= l && l <= MB.Min(lMax, presentT)
  }

  /** `is_active` as evidently intended: `l` lies in the range `get_present` scans. */
  predicate IsActive(lMin: int, lMax: int, l: int)
  {
    ActiveLo(lMin, lMax) <= l <= ActiveHi(lMin, lMax)
  }

  /** With lines 0..3 (white has branched three times, black never) and the
    * present at turn 10, the written test calls lines 2 and 3 active although
    * only lines 0 and 1 are. */
  lemma IsActiveAsWrittenDisagrees()
    ensures IsActiveAsWritten(0, 3, 10, 3) && !IsActive(0, 3, 3)
  {
  }

  /** The intended test agrees with the balance rule: a line is active iff the
    * other side has at least as many lines, or it is the first extra one. */
  lemma {:induction false} IsActiveMeansBalanced(lMin: int, lMax: int, l: int)
    requires lMin <= l <= lMax && lMin <= 0 <= lMax
    ensures IsActive(lMin, lMax, l) <==> (l >= 0 ==> l <= -lMin + 1) && (l < 0 ==> -l <= lMax + 1)
  {
    ActiveRangeBalance(lMin, lMax);
  }

  /** `v >= timeline.size()` with `v` converted to a 64-bit `size_t`. */
  function AsSizeT(v: int): nat
    requires MB.IntMin <= v
  {
    if v >= 0 then v else v + 0x1_0000_0000_0000_0000
  }

  /** What the written column step of `insert_board` does with column `v` and a
    * row of `size` slots. */
  datatype ColumnStep =
    | Store                   // the slot exists or the row is grown to reach it
    | NegativeTimeThrown      // the intended `runtime_error("Negative time is not supported.")`
    | LengthErrorThrown       // `resize` of a converted negative size throws `length_error`
    | ClearedThenOutOfBounds  // `resize(0)` empties the row, then `timeline[-1]` is written

  function ColumnStepAsWritten(size: nat, v: int): ColumnStep
    requires MB.IntMin <= v <= MB.IntMax && size < 0x8000_0000_0000_0000
  {
    if AsSizeT(v) >= size then
      if v + 1 < 0 then LengthErrorThrown
      else if v + 1 == 0 then ClearedThenOutOfBounds
      else Store
    else if v < 0 then NegativeTimeThrown
    else Store
  }

  /** The signed/unsigned comparison makes the negative-time branch dead: no
    * column and no row size reaches it. */
  lemma NegativeTimeCheckUnreachable(size: nat, v: int)
    requires MB.IntMin <= v <= MB.IntMax && size < 0x8000_0000_0000_0000
    ensures ColumnStepAsWritten(size, v) != NegativeTimeThrown
    ensures v < 0 ==> ColumnStepAsWritten(size, v) in {LengthErrorThrown, ClearedThenOutOfBounds}
  {
  }

  /** Turn -1 black (`v = -1`) empties the row and writes before its start. */
  lemma BlackAtTurnMinusOneClearsRow()
    ensures ColumnStepAsWritten(5, TcToV(-1, true)) == ClearedThenOutOfBounds
  {
  }

  /** `insert_board` as evidently intended, with the comparison done on
    * signed integers (the cast to `int` that `multiverse_base.cpp:146` has):
    * a negative column throws, anything else is stored, overwriting whatever
    * the slot held. */
  function Insert(m: MB.Mv, l: int, t: int, c: bool, b: MB.Board): (res: (MB.Mv, Option<string>))
    requires |m.start| == |m.boards| && |m.end| == |m.boards|
  {
    var w := MB.Widen(m, l);
    var u := LToU(l);
    var v := TcToV(t, c);
    if v < 0 then (w, Some("Negative time is not supported."))
    else
      var row := if v >= |w.boards[u]| then MB.Grow(w.boards[u], v + 1, None) else w.boards[u];
      (w.(boards := w.boards[u := row[v := Some(b)]], start := w.start[u := MB.Min(w.start[u], v)],
          end := w.end[u := MB.Max(w.end[u], v)]), None)
  }

  lemma InsertEffect(m: MB.Mv, l: int, t: int, c: bool, b: MB.Board)
    requires MB.WellFormed(m) && TcToV(t, c) <= MB.IntMax
    ensures var (m', err) := Insert(m, l, t, c, b);
      var u := LToU(l);
      var v := TcToV(t, c);
      && MB.WellFormed(m')
      && (err.None? <==> v >= 0)
      && (err.None? ==> m'.boards[u][v] == Some(b) && m'.start[u] <= v <= m'.end[u])
      && m'.lMin == MB.Min(m.lMin, l) && m'.lMax == MB.Max(m.lMax, l)
  {
    var w := MB.Widen(m, l);
    var u := LToU(l);
    var v := TcToV(t, c);
    MB.WidenEffect(m, l);
    if v >= 0 {
      var (m', _) := Insert(m, l, t, c, b);
      assert MB.RowOk(w.boards[u], w.start[u], w.end[u]);
      var row := if v >= |w.boards[u]| then MB.Grow(w.boards[u], v + 1, None) else w.boards[u];
      var row' := row[v := Some(b)];
      assert m'.boards[u] == row';
      if w.boards[u] == [] {
        assert m'.start[u] == v && m'.end[u] == v && |row'| == v + 1;
      } else {
        assert m'.start[u] == v || row'[m'.start[u]] == w.boards[u][w.start[u]];
        assert m'.end[u] == v || row'[m'.end[u]] == w.boards[u][w.end[u]];
      }
      assert MB.RowOk(m'.boards[u], m'.start[u], m'.end[u]);
      forall k | 0 <= k < |m'.boards|
        ensures MB.RowOk(m'.boards[k], m'.start[k], m'.end[k])
      {
        if k != u {
          assert MB.RowOk(w.boards[k], w.start[k], w.end[k]);
        }
      }
    }
  }

  /** `get_board`: an empty result instead of an exception for a missing row or column. */
  function GetBoard(m: MB.Mv, l: int, t: int, c: bool): (r: Option<MB.Board>)
    ensures MB.GetBoard(m, l, t, c).Ok? ==> r == MB.GetBoard(m, l, t, c).value
    ensures MB.GetBoard(m, l, t, c).Err? ==> r.None?
  {
    var u := LToU(l);
    var v := TcToV(t, c);
    if u < |m.boards| && 0 <= v < |m.boards[u]| then m.boards[u][v] else None
  }

  /** The constructor's colour letter: `w`/`W` is white, `b`/`B` black, anything else throws. */
  function ColourOf(ch: char, block: string): (r: Result<bool>)
    ensures r.Ok? <==> ch in "wWbB"
    ensures r.Ok? ==> (r.value <==> ch in "bB")
  {
    match ch
    case 'w' => Ok(false)
    case 'W' => Ok(false)
    case 'b' => Ok(true)
    case 'B' => Ok(true)
    case _ => Err("Unknown color:" + [ch] + " in " + block)
  }

  /** One `[fen:l:t:c]` block, as matched by the constructor's board pattern. */
  datatype Block = Block(fen: string, l: int, t: int, colour: char, text: string)

  const LineGapMessage := "Error: There is a gap between timelines."

  function BoardGapMessage(l: int): string
  {
    "Error: There is a gap between boards on timeline L" + Text.IntToString(l) + "."
  }

  /** The gap checks of this revision, with its own messages. */
  function GapError(m: MB.Mv, l: int): (r: Option<string>)
    requires MB.WellFormed(m) && |m.boards| > 0 && m.lMin <= l
    decreases m.lMax - l
  {
    if l > m.lMax then None
    else
      LToUBounded(m.lMin, m.lMax, l);
      var u := LToU(l);
      if m.boards[u] == [] then Some(LineGapMessage)
      else if MB.FirstHole(m.boards[u], m.start[u], m.end[u]).Some? then Some(BoardGapMessage(UToL(u)))
      else GapError(m, l + 1)
  }

  lemma {:induction false} GapErrorExact(m: MB.Mv, l: int)
    requires MB.WellFormed(m) && |m.boards| > 0 && m.lMin <= l
    ensures GapError(m, l).None? <==> forall k :: l <= k <= m.lMax ==> MB.LineComplete(m, k)
    decreases m.lMax - l
  {
    if l <= m.lMax {
      GapErrorExact(m, l + 1);
      MB.GapErrorExact(m, l);
      MB.GapErrorExact(m, l + 1);
    }
  }

  predicate BlocksFit(bs: seq<Block>)
  {
    forall i :: 0 <= i < |bs| ==> TcToV(bs[i].t, true) <= MB.IntMax
  }

  /** The constructor's insertions, in order, stopping at the first that throws. */
  function InsertAll(m: MB.Mv, bs: seq<Block>): (res: (MB.Mv, Option<string>))
    requires MB.WellFormed(m) && BlocksFit(bs)
    ensures MB.WellFormed(res.0)
    ensures res.1.None? && bs != [] ==> |res.0.boards| > 0
    decreases |bs|
  {
    if bs == [] then (m, None)
    else
      var e := bs[0];
      match ColourOf(e.colour, e.text)
      case Err(msg) => (m, Some(msg))
      case Ok(c) =>
        InsertEffect(m, e.l, e.t, c, MB.Board(e.fen));
        var (m1, err) := Insert(m, e.l, e.t, c, MB.Board(e.fen));
        if err.Some? then (m1, err) else InsertAll(m1, bs[1..])
  }

  /** The steps of `insert_board` on the table `m`: the rows grown to reach
    * line `l` and the line range widened, then the negative-time check, then
    * the column grown and the board stored. */
  method InsertRows(m: MB.Mv, l: int, t: int, c: bool, b: MB.Board) returns (m': MB.Mv, err: Option<string>)
    requires |m.start| == |m.boards| && |m.end| == |m.boards|
    ensures (m', err) == Insert(m, l, t, c, b)
  {
    var rows, starts, ends := m.boards, m.start, m.end;
    var u := LToU(l);
    var v := TcToV(t, c);
    if u >= |rows| {
      rows := MB.Grow(rows, u + 1, []);
      starts := MB.Grow(starts, u + 1, MB.IntMax);
      ends := MB.Grow(ends, u + 1, MB.IntMin);
    }
    var lo, hi := MB.Min(m.lMin, l), MB.Max(m.lMax, l);
    assert MB.Mv(rows, starts, ends, lo, hi) == MB.Widen(m, l);
    err := None;
    if v < 0 {
      err := Some("Negative time is not supported.");
    } else {
      var timeline := rows[u];
      if v >= |timeline| {
        timeline := MB.Grow(timeline, v + 1, None);
      }
      rows, starts, ends := rows[u := timeline[v := Some(b)]], starts[u := MB.Min(starts[u], v)], ends[u := MB.Max(ends[u], v)];
    }
    m' := MB.Mv(rows, starts, ends, lo, hi);
  }

  class Multiverse {
    var boards: seq<MB.Timeline>
    var timelineStart: seq<int>
    var timelineEnd: seq<int>
    var lMin: int
    var lMax: int

    function Abs(): MB.Mv
      reads this
    {
      MB.Mv(boards, timelineStart, timelineEnd, lMin, lMax)
    }

    ghost predicate Valid()
      reads this
    {
      MB.WellFormed(Abs())
    }

    constructor Init()
      ensures Valid() && Abs() == MB.Empty
    {
      boards, timelineStart, timelineEnd := [], [], [];
      lMin, lMax := 0, 0;
    }

    method InsertBoard(l: int, t: int, c: bool, b: MB.Board) returns (err: Option<string>)
      requires Valid() && TcToV(t, c) <= MB.IntMax
      modifies this
      ensures Valid()
      ensures (Abs(), err) == Insert(old(Abs()), l, t, c, b)
    {
      InsertEffect(Abs(), l, t, c, b);
      var m;
      m, err := InsertRows(Abs(), l, t, c, b);
      boards, timelineStart, timelineEnd, lMin, lMax := m.boards, m.start, m.end, m.lMin, m.lMax;
    }

    method AppendBoard(l: int, b: MB.Board)
      requires Valid()
      requires LToU(l) < |boards| && boards[LToU(l)] != []
      modifies this
      ensures Valid()
      ensures Abs() == MB.Append(old(Abs()), l, b)
    {
      MB.AppendEffect(Abs(), l, b);
      var u := LToU(l);
      boards := boards[u := boards[u] + [Some(b)]];
      timelineEnd := timelineEnd[u := timelineEnd[u] + 1];
    }

    /** `get_present`: the earliest end over the lines the balance rule activates. */
    method GetPresent() returns (present: (int, bool))
      requires Valid() && |boards| > 0
      ensures present == VToTc(MB.MinEnd(timelineEnd, ActiveLo(lMin, lMax), ActiveHi(lMin, lMax)))
    {
      var na := NumberActivated(lMin, lMax);
      var lo := MB.Max(lMin, -na);
      var hi := MB.Min(lMax, na);
      forall k | lo <= k <= hi ensures LToU(k) < |timelineEnd| {
        LToUBounded(lMin, lMax, k);
      }
      var presentV := MB.IntMax;
      var l := lo;
      while l <= hi
        invariant lo <= l <= MB.Max(lo, hi + 1)
        invariant presentV == MB.MinEnd(timelineEnd, lo, l - 1)
        decreases hi - l
      {
        presentV := MB.Min(presentV, timelineEnd[LToU(l)]);
        l := l + 1;
      }
      present := VToTc(presentV);
    }

    method CheckGaps() returns (err: Option<string>)
      requires Valid() && |boards| > 0
      ensures err == GapError(Abs(), lMin)
    {
      err := FindGap(Abs());
    }
  }

  /** The gap checks, over the abstract table `m`. */
  method FindGap(m: MB.Mv) returns (err: Option<string>)
    requires MB.WellFormed(m) && |m.boards| > 0
    ensures err == GapError(m, m.lMin)
  {
    var l := m.lMin;
    while l <= m.lMax
      invariant m.lMin <= l <= m.lMax + 1
      invariant GapError(m, m.lMin) == GapError(m, l)
      decreases m.lMax - l
    {
      LToUBounded(m.lMin, m.lMax, l);
      var u := LToU(l);
      if m.boards[u] == [] {
        return Some(LineGapMessage);
      }
      assert MB.RowOk(m.boards[u], m.start[u], m.end[u]);
      var hole := MB.RowHasHole(m.boards[u], m.start[u], m.end[u]);
      if hole {
        return Some(BoardGapMessage(UToL(u)));
      }
      l := l + 1;
    }
    err := None;
  }

  /** The constructor's loop over the blocks: each colour read and each
    * board inserted in order, stopping at the first that throws. */
  method InsertEach(mv: Multiverse, bs: seq<Block>) returns (err: Option<string>)
    requires mv.Valid() && BlocksFit(bs)
    modifies mv
    ensures mv.Valid()
    ensures err == InsertAll(old(mv.Abs()), bs).1
    ensures err.None? ==> mv.Abs() == InsertAll(old(mv.Abs()), bs).0
  {
    ghost var start := mv.Abs();
    var i := 0;
    while i < |bs|
      invariant 0 <= i <= |bs|
      invariant mv.Valid()
      invariant InsertAll(start, bs) == InsertAll(mv.Abs(), bs[i..])
    {
      var e := bs[i];
      var colour := ColourOf(e.colour, e.text);
      if colour.Err? {
        return Some(colour.error);
      }
      InsertEffect(mv.Abs(), e.l, e.t, colour.value, MB.Board(e.fen));
      err := mv.InsertBoard(e.l, e.t, colour.value, MB.Board(e.fen));
      if err.Some? {
        return;
      }
      assert bs[i..][1..] == bs[i + 1..];
      i := i + 1;
    }
    assert bs[i..] == [];
    err := None;
  }

  /** The string constructor after its block scan: each matched block's colour
    * letter is decoded and its board inserted, then the gap checks run. With no
    * block at all the checks would read row 0 of an empty table. */
  method Build(bs: seq<Block>) returns (r: Result<Multiverse>)
    requires |bs| > 0 && BlocksFit(bs)
    ensures r.Ok? <==>
      InsertAll(MB.Empty, bs).1.None?
      && var m := InsertAll(MB.Empty, bs).0; |m.boards| > 0 && MB.NoGaps(m)
    ensures r.Ok? ==> fresh(r.value) && r.value.Valid() && r.value.Abs() == InsertAll(MB.Empty, bs).0
  {
    var mv := new Multiverse.Init();
    var err := InsertEach(mv, bs);
    if err.Some? {
      return Err(err.value);
    }
    var gap := mv.CheckGaps();
    GapErrorExact(mv.Abs(), mv.lMin);
    if gap.Some? {
      return Err(gap.value);
    }
    r := Ok(mv);
  }
}
