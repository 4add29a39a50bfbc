/** The multiverse container of the current engine: a table of boards indexed by
  * row `u` (from the line `l`) and column `v` (from the turn `(t, c)`), with the
  * per-row first and last occupied columns and the range of lines in use. */
module MultiverseBase {
  import opened Wrappers
  import opened Coordinates
  import Text

  const IntMax: int := 0x7fff_ffff
  const IntMin: int := -0x8000_0000
  const BoardLength: int := 8

  /** Stand-in for a board object, known here only by the FEN it was built from. */
  datatype Board = Board(fen: string)

  datatype Vec4 = Vec4(x: int, y: int, t: int, l: int)

  /** `vec4::outbound`: the square lies off the 8x8 bitboard. */
  predicate Outbound(a: Vec4) { !(0 <= a.x < BoardLength && 0 <= a.y < BoardLength) }

  type Timeline = seq<Option<Board>>

  /** One `(l, t, c, fen)` tuple, as taken by the constructor and returned by `get_boards`. */
  datatype BoardInfo = BoardInfo(l: int, t: int, c: bool, fen: string)

  /** The value of a multiverse: `boards`, `timeline_start`, `timeline_end`, `l_min`, `l_max`. */
  datatype Mv = Mv(boards: seq<Timeline>, start: seq<int>, end: seq<int>, lMin: int, lMax: int)

  function Min(a: int, b: int): int { if a <= b then a else b }
  function Max(a: int, b: int): int { if a >= b then a else b }

  /** `vector::resize(n, fill)`, used here only to grow. */
  function Grow<T>(s: seq<T>, n: nat, fill: T): (r: seq<T>)
    requires |s| <= n
    ensures |r| == n && r[..|s|] == s
    ensures forall i :: |s| <= i < n ==> r[i] == fill
  {
    s + seq(n - |s|, _ => fill)
  }

  /** A row is empty with the sentinels, or its first and last occupied columns
    * are `start` and `end`, the last column being the row's last slot. */
  ghost predicate RowOk(row: Timeline, s: int, e: int)
  {
    if row == [] then s == IntMax && e == IntMin
    else 0 <= s <= e && e == |row| - 1 && row[s].Some? && row[e].Some?
  }

  ghost predicate WellFormed(m: Mv)
  {
    && |m.start| == |m.boards| && |m.end| == |m.boards|
    && m.lMin <= 0 <= m.lMax
    && (|m.boards| > 0 ==> LToU(m.lMin) < |m.boards| && LToU(m.lMax) < |m.boards|)
    && (|m.boards| == 0 ==> m.lMin == 0 == m.lMax)
    && (forall u :: 0 <= u < |m.boards| ==> RowOk(m.boards[u], m.start[u], m.end[u]))
  }

  const Empty: Mv := Mv([], [], [], 0, 0)

  predicate Occupied(m: Mv, u: int, v: int)
  {
    0 <= u < |m.boards| && 0 <= v < |m.boards[u]| && m.boards[u][v].Some?
  }

  /** The first half of `insert_board_impl`: the rows are grown to reach row `u`
    * and `[l_min, l_max]` is widened to include `l`, before either check. */
  function Widen(m: Mv, l: int): (w: Mv)
    requires |m.start| == |m.boards| && |m.end| == |m.boards|
  {
    var u := LToU(l);
    var n := if u >= |m.boards| then u + 1 else |m.boards|;
    Mv(Grow(m.boards, n, []), Grow(m.start, n, IntMax), Grow(m.end, n, IntMin), Min(m.lMin, l), Max(m.lMax, l))
  }

  /** The second half: the column is grown to reach `v` if needed, an occupied
    * slot is refused, and a free one is filled and widens the row's start and end. */
  function Place(w: Mv, u: int, v: int, b: Board): (res: (Mv, bool))
    requires |w.start| == |w.boards| && |w.end| == |w.boards|
    requires 0 <= u < |w.boards| && 0 <= v
  {
    var row := if v >= |w.boards[u]| then Grow(w.boards[u], v + 1, None) else w.boards[u];
    if row[v].Some? then (w, false)
    else (w.(boards := w.boards[u := row[v := Some(b)]], start := w.start[u := Min(w.start[u], v)],
             end := w.end[u := Max(w.end[u], v)]), true)
  }

  function DuplicateMessage(l: int, t: int, c: bool): string
  {
    "multiverse::insert_board_impl(): Duplicate definition of the board on L="
    + Text.IntToString(l) + " (plain notation), T=" + Text.IntToString(t)
    + " C=" + (if c then "b" else "w")
  }

  const NegativeTimeMessage := "multiverse::insert_board_impl(): Negative time is not supported."

  /** `insert_board_impl`. A rejected insertion keeps the grown rows and the
    * widened line range. The error, if any, is the message of the `runtime_error`. */
  function Insert(m: Mv, l: int, t: int, c: bool, b: Board): (res: (Mv, Option<string>))
    requires |m.start| == |m.boards| && |m.end| == |m.boards|
  {
    var w := Widen(m, l);
    var v := TcToV(t, c);
    if v < 0 then (w, Some(NegativeTimeMessage))
    else
      var (m', placed) := Place(w, LToU(l), v, b);
      (m', if placed then None else Some(DuplicateMessage(l, t, c)))
  }

  lemma WidenEffect(m: Mv, l: int)
    requires WellFormed(m)
    ensures var w := Widen(m, l);
      && WellFormed(w)
      && LToU(l) < |w.boards| && |w.boards| >= |m.boards|
      && w.boards[..|m.boards|] == m.boards && w.start[..|m.boards|] == m.start && w.end[..|m.boards|] == m.end
      && w.lMin == Min(m.lMin, l) && w.lMax == Max(m.lMax, l)
  {
    var w := Widen(m, l);
    forall k | 0 <= k < |w.boards|
      ensures RowOk(w.boards[k], w.start[k], w.end[k])
    {
      if k < |m.boards| {
        assert w.boards[k] == m.boards[k] && w.start[k] == m.start[k] && w.end[k] == m.end[k];
      }
    }
    if |m.boards| == 0 {
      assert LToU(0) == 0;
    }
  }

  lemma PlaceEffect(w: Mv, u: int, v: int, b: Board)
    requires WellFormed(w) && 0 <= u < |w.boards| && 0 <= v <= IntMax
    ensures var (m', placed) := Place(w, u, v, b);
      && WellFormed(m')
      && m'.lMin == w.lMin && m'.lMax == w.lMax && |m'.boards| == |w.boards|
      && (placed <==> !Occupied(w, u, v))
      && (placed ==> m'.boards[u][v] == Some(b) && m'.start[u] <= v <= m'.end[u])
      && (!placed ==> m' == w)
      && (forall k :: 0 <= k < |w.boards| && k != u ==>
            m'.boards[k] == w.boards[k] && m'.start[k] == w.start[k] && m'.end[k] == w.end[k])
      && (forall k :: 0 <= k < |w.boards[u]| && k != v ==> m'.boards[u][k] == w.boards[u][k])
  {
    var (m', placed) := Place(w, u, v, b);
    assert RowOk(w.boards[u], w.start[u], w.end[u]);
    if placed {
      var row := if v >= |w.boards[u]| then Grow(w.boards[u], v + 1, None) else w.boards[u];
      var row' := row[v := Some(b)];
      assert m'.boards[u] == row';
      if w.boards[u] == [] {
        assert w.start[u] == IntMax && w.end[u] == IntMin;
        assert m'.start[u] == v && m'.end[u] == v && |row'| == v + 1;
      } else {
        assert |row'| == Max(|w.boards[u]|, v + 1);
        assert m'.start[u] == v || row'[m'.start[u]] == w.boards[u][w.start[u]];
        assert m'.end[u] == v || row'[m'.end[u]] == w.boards[u][w.end[u]];
      }
      assert RowOk(m'.boards[u], m'.start[u], m'.end[u]);
      forall k | 0 <= k < |m'.boards|
        ensures RowOk(m'.boards[k], m'.start[k], m'.end[k])
      {
        if k != u {
          assert RowOk(w.boards[k], w.start[k], w.end[k]);
        }
      }
    }
  }

  lemma InsertKeepsWellFormed(m: Mv, l: int, t: int, c: bool, b: Board)
    requires WellFormed(m) && TcToV(t, c) <= IntMax
    ensures WellFormed(Insert(m, l, t, c, b).0)
  {
    WidenEffect(m, l);
    if TcToV(t, c) >= 0 {
      PlaceEffect(Widen(m, l), LToU(l), TcToV(t, c), b);
    }
  }

  /** What one insertion does: it succeeds exactly when the time is non-negative
    * and the slot is free; on success the slot holds the board and lies between
    * the row's start and end; an occupied slot is never overwritten; every other
    * slot and row is left as it was; `[l_min, l_max]` grows to include `l`. */
  lemma InsertEffect(m: Mv, l: int, t: int, c: bool, b: Board)
    requires WellFormed(m) && TcToV(t, c) <= IntMax
    ensures var (m', err) := Insert(m, l, t, c, b);
      var u := LToU(l);
      var v := TcToV(t, c);
      && u < |m'.boards| && |m'.boards| >= |m.boards|
      && m'.lMin == Min(m.lMin, l) && m'.lMax == Max(m.lMax, l)
      && (err.None? <==> v >= 0 && !Occupied(m, u, v))
      && (err.None? ==> m'.boards[u][v] == Some(b) && m'.start[u] <= v <= m'.end[u])
      && (err.Some? && v >= 0 ==> Occupied(m, u, v) && m'.boards[u][v] == m.boards[u][v])
      && (forall k :: 0 <= k < |m.boards| && k != u ==>
            m'.boards[k] == m.boards[k] && m'.start[k] == m.start[k] && m'.end[k] == m.end[k])
      && (u < |m.boards| ==> forall k :: 0 <= k < |m.boards[u]| && k != v ==>
            m'.boards[u][k] == m.boards[u][k])
  {
    var w := Widen(m, l);
    var u := LToU(l);
    var v := TcToV(t, c);
    WidenEffect(m, l);
    assert forall k :: 0 <= k < |m.boards| ==>
      w.boards[k] == m.boards[k] && w.start[k] == m.start[k] && w.end[k] == m.end[k];
    assert Occupied(w, u, v) <==> Occupied(m, u, v);
    if v >= 0 {
      PlaceEffect(w, u, v, b);
    }
  }

  /** `append_board`: one more board at the end of row `u`, and `timeline_end[u]` one later. */
  function Append(m: Mv, l: int, b: Board): (m': Mv)
    requires |m.start| == |m.boards| && |m.end| == |m.boards|
    requires LToU(l) < |m.boards|
  {
    var u := LToU(l);
    m.(boards := m.boards[u := m.boards[u] + [Some(b)]], end := m.end[u := m.end[u] + 1])
  }

  lemma {:induction false} AppendEffect(m: Mv, l: int, b: Board)
    requires WellFormed(m)
    requires LToU(l) < |m.boards| && m.boards[LToU(l)] != []
    ensures var m' := Append(m, l, b);
      var u := LToU(l);
      && WellFormed(m')
      && |m'.boards[u]| == |m.boards[u]| + 1 && m'.end[u] == m.end[u] + 1
      && m'.boards[u][m'.end[u]] == Some(b)
  {
    var m' := Append(m, l, b);
    var u := LToU(l);
    assert RowOk(m.boards[u], m.start[u], m.end[u]);
    assert RowOk(m'.boards[u], m'.start[u], m'.end[u]);
    forall w | 0 <= w < |m'.boards|
      ensures RowOk(m'.boards[w], m'.start[w], m'.end[w])
    {
      if w != u {
        assert RowOk(m.boards[w], m.start[w], m.end[w]);
      }
    }
  }

  /** `get_board`: `vector::at` throws `out_of_range` for a row or column that
    * does not exist, which is rethrown as a `runtime_error`; an existing slot may
    * be empty. */
  function GetBoard(m: Mv, l: int, t: int, c: bool): (r: Result<Option<Board>>)
  {
    var u := LToU(l);
    var v := TcToV(t, c);
    if u < |m.boards| && 0 <= v < |m.boards[u]| then Ok(m.boards[u][v])
    else Err("Error: Out of range in multiverse::get_board(" + Text.IntToString(l) + ", "
             + Text.IntToString(t) + ", " + (if c then "1" else "0") + ")")
  }

  /** After a successful insertion, `get_board` finds the board; after a
    * rejected one, the slot still holds what it held. */
  lemma InsertThenGetBoard(m: Mv, l: int, t: int, c: bool, b: Board)
    requires WellFormed(m) && TcToV(t, c) <= IntMax
    ensures var (m', err) := Insert(m, l, t, c, b);
      && (err.None? ==> GetBoard(m', l, t, c) == Ok(Some(b)))
      && (err.Some? && TcToV(t, c) >= 0 ==> GetBoard(m', l, t, c) == GetBoard(m, l, t, c))
  {
    var (m', err) := Insert(m, l, t, c, b);
    var u, v := LToU(l), TcToV(t, c);
    InsertSlot(m, l, t, c, b);
    if err.None? {
      assert GetBoard(m', l, t, c) == Ok(m'.boards[u][v]);
    } else if v >= 0 {
      assert GetBoard(m', l, t, c) == Ok(m'.boards[u][v]);
      assert GetBoard(m, l, t, c) == Ok(m.boards[u][v]);
    }
  }

  /** The slot an insertion aims at: filled with the board, or, when the
    * insertion is refused at a valid column, occupied before and after alike. */
  lemma InsertSlot(m: Mv, l: int, t: int, c: bool, b: Board)
    requires WellFormed(m) && TcToV(t, c) <= IntMax
    ensures var (m', err) := Insert(m, l, t, c, b);
      var u := LToU(l);
      var v := TcToV(t, c);
      && (err.None? ==> u < |m'.boards| && 0 <= v < |m'.boards[u]| && m'.boards[u][v] == Some(b))
      && (err.Some? && v >= 0 ==> Occupied(m, u, v) && Occupied(m', u, v) && m'.boards[u][v] == m.boards[u][v])
  {
    InsertEffect(m, l, t, c, b);
    var (m', err) := Insert(m, l, t, c, b);
    var u, v := LToU(l), TcToV(t, c);
    if err.Some? && v >= 0 {
      assert Occupied(m, u, v);
    }
  }

  /** `inbound`: on the board, on an existing line, and between the line's first
    * and last board. Reading `timeline_start[u]` needs at least one row. */
  predicate Inbound(m: Mv, a: Vec4, color: bool)
    requires WellFormed(m) && |m.boards| > 0
  {
    var u := LToU(a.l);
    var v := TcToV(a.t, color);
    if Outbound(a) || a.l < m.lMin || a.l > m.lMax then false
    else
      LToUBounded(m.lMin, m.lMax, a.l);
      m.start[u] <= v <= m.end[u]
  }

  /** An in-bound square has its slot in the table, so `get_board` does not throw. */
  lemma InboundHasSlot(m: Mv, a: Vec4, color: bool)
    requires WellFormed(m) && |m.boards| > 0
    requires Inbound(m, a, color)
    ensures GetBoard(m, a.l, a.t, color).Ok?
  {
    var u := LToU(a.l);
    LToUBounded(m.lMin, m.lMax, a.l);
    assert RowOk(m.boards[u], m.start[u], m.end[u]);
  }

  /** After a successful insertion every on-board square of that board is in bound. */
  lemma InsertThenInbound(m: Mv, x: int, y: int, l: int, t: int, c: bool, b: Board)
    requires WellFormed(m) && TcToV(t, c) <= IntMax
    requires 0 <= x < BoardLength && 0 <= y < BoardLength
    requires Insert(m, l, t, c, b).1.None?
    ensures var m' := Insert(m, l, t, c, b).0;
      WellFormed(m') && |m'.boards| > 0 && Inbound(m', Vec4(x, y, t, l), c)
  {
    InsertEffect(m, l, t, c, b);
    InsertKeepsWellFormed(m, l, t, c, b);
  }

  /** The minimum of `timeline_end` over the lines `lo..hi`, starting from `INT_MAX`. */
  function MinEnd(ends: seq<int>, lo: int, hi: int): int
    requires forall l :: lo <= l <= hi ==> LToU(l) < |ends|
    decreases hi - lo
  {
    if hi < lo then IntMax else Min(MinEnd(ends, lo, hi - 1), ends[LToU(hi)])
  }

  lemma {:induction false} MinEndIsMinimum(ends: seq<int>, lo: int, hi: int)
    requires forall l :: lo <= l <= hi ==> LToU(l) < |ends|
    requires forall l :: lo <= l <= hi ==> ends[LToU(l)] <= IntMax
    ensures forall l :: lo <= l <= hi ==> MinEnd(ends, lo, hi) <= ends[LToU(l)]
    ensures lo <= hi ==> exists l :: lo <= l <= hi && MinEnd(ends, lo, hi) == ends[LToU(l)]
    ensures hi < lo ==> MinEnd(ends, lo, hi) == IntMax
    decreases hi - lo
  {
    if lo <= hi {
      MinEndIsMinimum(ends, lo, hi - 1);
      if lo == hi {
        assert MinEnd(ends, lo, hi) == ends[LToU(hi)];
      }
    }
  }

  function EntryAt(l: int, v: int, bd: Board): BoardInfo
  {
    BoardInfo(l, VToTc(v).0, VToTc(v).1, bd.fen)
  }

  /** The tuples `get_boards` collects from one row, in column order. */
  function RowEntries(l: int, row: Timeline): seq<BoardInfo>
  {
    if row == [] then []
    else RowEntries(l, row[..|row| - 1])
         + (match row[|row| - 1] case Some(bd) => [EntryAt(l, |row| - 1, bd)] case None => [])
  }

  /** The tuples `get_boards` collects from the rows, in row order. */
  function Entries(rows: seq<Timeline>): seq<BoardInfo>
  {
    if rows == [] then [] else Entries(rows[..|rows| - 1]) + RowEntries(UToL(|rows| - 1), rows[|rows| - 1])
  }

  predicate Stored(rows: seq<Timeline>, e: BoardInfo)
  {
    var u := LToU(e.l);
    var v := TcToV(e.t, e.c);
    u < |rows| && 0 <= v < |rows[u]| && rows[u][v] == Some(Board(e.fen))
  }

  lemma {:induction false} RowEntriesExact(l: int, row: Timeline, e: BoardInfo)
    ensures e in RowEntries(l, row) <==>
      e.l == l && 0 <= TcToV(e.t, e.c) < |row| && row[TcToV(e.t, e.c)] == Some(Board(e.fen))
  {
    if row != [] {
      var n := |row| - 1;
      RowEntriesExact(l, row[..n], e);
      TcVInverse(e.t, e.c);
      VTcInverse(n);
    }
  }

  /** `get_boards` lists exactly the stored boards: a tuple is in the list iff its
    * board sits at the row and column its `l`, `t`, `c` map to. */
  lemma {:induction false} EntriesExact(rows: seq<Timeline>, e: BoardInfo)
    ensures e in Entries(rows) <==> Stored(rows, e)
  {
    if rows != [] {
      var n := |rows| - 1;
      EntriesExact(rows[..n], e);
      RowEntriesExact(UToL(n), rows[n], e);
      UToLInverse(n);
      LToUInverse(e.l);
      StoredLast(rows, e);
    }
  }

  /** A board is stored in `rows` iff it is stored in all rows but the last,
    * or in the last row. */
  lemma StoredLast(rows: seq<Timeline>, e: BoardInfo)
    requires rows != []
    ensures var n := |rows| - 1;
      Stored(rows, e) <==>
        Stored(rows[..n], e)
        || (LToU(e.l) == n && 0 <= TcToV(e.t, e.c) < |rows[n]| && rows[n][TcToV(e.t, e.c)] == Some(Board(e.fen)))
  {
  }

  /** Whether every line in `[l_min, l_max]` has a board and no board is missing
    * between any line's first and last board. */
  ghost predicate NoGaps(m: Mv)
  {
    forall l :: m.lMin <= l <= m.lMax ==> LineComplete(m, l)
  }

  /** Line `l` has a row holding a board, with no missing board between its first and last. */
  ghost predicate LineComplete(m: Mv, l: int)
  {
    var u := LToU(l);
    && u < |m.boards| && u < |m.start| && u < |m.end|
    && m.boards[u] != []
    && forall v :: m.start[u] <= v <= m.end[u] ==> 0 <= v < |m.boards[u]| && m.boards[u][v].Some?
  }

  /** The first missing column in `start..e` of a row, if any. */
  function FirstHole(row: Timeline, s: int, e: int): (r: Option<int>)
    requires 0 <= s && e < |row|
    ensures r.Some? ==> s <= r.value <= e && row[r.value].None?
    ensures r.None? ==> forall v :: s <= v <= e ==> row[v].Some?
    decreases e - s
  {
    if s > e then None else if row[s].None? then Some(s) else FirstHole(row, s + 1, e)
  }

  const LineGapMessage := "multiverse(): There is a gap between timelines."

  function BoardGapMessage(l: int): string
  {
    "multiverse(): There is a gap between boards on timeline L" + Text.IntToString(l) + "."
  }

  /** The constructor's gap checks for lines `l..l_max`, in order: the message of
    * the first `runtime_error` thrown. */
  function GapError(m: Mv, l: int): (r: Option<string>)
    requires WellFormed(m) && |m.boards| > 0 && m.lMin <= l
    decreases m.lMax - l
  {
    if l > m.lMax then None
    else
      LToUBounded(m.lMin, m.lMax, l);
      var u := LToU(l);
      if m.boards[u] == [] then Some(LineGapMessage)
      else if FirstHole(m.boards[u], m.start[u], m.end[u]).Some? then Some(BoardGapMessage(UToL(u)))
      else GapError(m, l + 1)
  }

  lemma {:induction false} GapErrorExact(m: Mv, l: int)
    requires WellFormed(m) && |m.boards| > 0 && m.lMin <= l
    ensures GapError(m, l).None? <==> forall k :: l <= k <= m.lMax ==> LineComplete(m, k)
    decreases m.lMax - l
  {
    if l <= m.lMax {
      GapErrorExact(m, l + 1);
      LToUBounded(m.lMin, m.lMax, l);
      var u := LToU(l);
      assert RowOk(m.boards[u], m.start[u], m.end[u]);
      if m.boards[u] != [] {
        var hole := FirstHole(m.boards[u], m.start[u], m.end[u]);
        assert hole.Some? ==> !LineComplete(m, l);
        assert hole.None? ==> LineComplete(m, l);
      }
      assert (forall k :: l <= k <= m.lMax ==> LineComplete(m, k)) <==>
        LineComplete(m, l) && (forall k :: l + 1 <= k <= m.lMax ==> LineComplete(m, k));
    }
  }

  /** Every column index fits a C++ `int`. */
  predicate AllIntTurns(bds: seq<BoardInfo>)
  {
    forall i :: 0 <= i < |bds| ==> TcToV(bds[i].t, bds[i].c) <= IntMax
  }

  /** The constructor's insertions, in order, stopping at the first that throws. */
  function InsertAll(m: Mv, bds: seq<BoardInfo>): (res: (Mv, Option<string>))
    requires WellFormed(m) && AllIntTurns(bds)
    ensures WellFormed(res.0)
    decreases |bds|
  {
    if bds == [] then (m, None)
    else
      var e := bds[0];
      var r := Insert(m, e.l, e.t, e.c, Board(e.fen));
      InsertKeepsWellFormed(m, e.l, e.t, e.c, Board(e.fen));
      if r.1.Some? then r else InsertAll(r.0, bds[1..])
  }

  lemma InsertAllStep(m: Mv, bds: seq<BoardInfo>)
    requires WellFormed(m) && AllIntTurns(bds) && bds != []
    ensures var e := bds[0]; var r := Insert(m, e.l, e.t, e.c, Board(e.fen));
      WellFormed(r.0) && AllIntTurns(bds[1..])
      && InsertAll(m, bds) == if r.1.Some? then r else InsertAll(r.0, bds[1..])
  {
    var e := bds[0];
    InsertKeepsWellFormed(m, e.l, e.t, e.c, Board(e.fen));
  }

  /** The active range after a board is inserted on line `l`, given the
    * widened line range `[lMin, lMax]` and the initial one `[l0Min, l0Max]`:
    * a new white line is activated while white has made at most one line more
    * than black (the other side's newest line with it, if there is one), and
    * symmetrically for black. */
  function ActiveAfterInsert(l: int, lMin: int, lMax: int, l0Min: int, l0Max: int,
                             activeMin: int, activeMax: int): (int, int)
  {
    var whites := lMax - l0Max;
    var blacks := l0Min - lMin;
    if l > l0Max && whites <= blacks + 1 && l > activeMax then
      (if lMin < activeMin then activeMin - 1 else activeMin, activeMax + 1)
    else if l < l0Min && blacks <= whites + 1 && l < activeMin then
      (activeMin - 1, if lMax > activeMax then activeMax + 1 else activeMax)
    else (activeMin, activeMax)
  }

  /** The range `calculate_active_range` gives for lines `[lMin, lMax]`
    * grown from the initial `[l0Min, l0Max]`: every line of the side that
    * has made fewer, and of the other side at most one line more. */
  function BalancedRange(lMin: int, lMax: int, l0Min: int, l0Max: int): (int, int)
  {
    var whites := lMax - l0Max;
    var blacks := l0Min - lMin;
    (l0Min - Min(blacks, whites + 1), l0Max + Min(whites, blacks + 1))
  }

  /** The lines `[lMin, lMax]` hold the initial ones and the active range is balanced. */
  predicate Balanced(lMin: int, lMax: int, l0Min: int, l0Max: int, activeMin: int, activeMax: int)
  {
    && lMin <= l0Min <= l0Max <= lMax
    && (activeMin, activeMax) == BalancedRange(lMin, lMax, l0Min, l0Max)
  }

  /** The promise of the closing `assert` of `insert_board`: from a balanced
    * range, a board on an existing line or on a new line next to the range
    * leaves the active range balanced for the widened lines. */
  lemma ActiveAfterInsertBalanced(l: int, lMin: int, lMax: int, l0Min: int, l0Max: int,
                                  activeMin: int, activeMax: int)
    requires Balanced(lMin, lMax, l0Min, l0Max, activeMin, activeMax)
    requires lMin - 1 <= l <= lMax + 1
    ensures var lMin', lMax' := Min(lMin, l), Max(lMax, l);
      var r := ActiveAfterInsert(l, lMin', lMax', l0Min, l0Max, activeMin, activeMax);
      Balanced(lMin', lMax', l0Min, l0Max, r.0, r.1)
  {
  }

  class Multiverse {
    const sizeX: int
    const sizeY: int
    var boards: seq<Timeline>
    var timelineStart: seq<int>
    var timelineEnd: seq<int>
    var lMin: int
    var lMax: int
    var activeMin: int
    var activeMax: int

    function Abs(): Mv
      reads this
    {
      Mv(boards, timelineStart, timelineEnd, lMin, lMax)
    }

    ghost predicate Valid()
      reads this
    {
      WellFormed(Abs())
    }

    /** The member initialisers of the constructor, before any board is inserted. */
    constructor Init(sizeX: int, sizeY: int)
      ensures Valid() && Abs() == Empty
      ensures this.sizeX == sizeX && this.sizeY == sizeY
    {
      this.sizeX, this.sizeY := sizeX, sizeY;
      boards, timelineStart, timelineEnd := [], [], [];
      lMin, lMax := 0, 0;
      activeMin, activeMax := 0, 0;
    }

    method InsertBoardImpl(l: int, t: int, c: bool, b: Board) returns (err: Option<string>)
      requires Valid() && TcToV(t, c) <= IntMax
      modifies this
      ensures Valid()
      ensures (Abs(), err) == Insert(old(Abs()), l, t, c, b)
      ensures activeMin == old(activeMin) && activeMax == old(activeMax)
    {
      InsertKeepsWellFormed(Abs(), l, t, c, b);
      WidenEffect(Abs(), l);
      WidenRows(l);
      var u := LToU(l);
      var v := TcToV(t, c);
      var timeline := boards[u];
      if v >= |timeline| {
        timeline := Grow(timeline, v + 1, None);
      } else if v < 0 {
        return Some(NegativeTimeMessage);
      }
      var placed := PlaceSlot(u, v, timeline, b);
      err := if placed then None else Some(DuplicateMessage(l, t, c));
    }

    /** The rows grown to reach line `l`, and `[l_min, l_max]` widened to include it. */
    method WidenRows(l: int)
      requires Valid()
      modifies this
      ensures Abs() == Widen(old(Abs()), l)
      ensures activeMin == old(activeMin) && activeMax == old(activeMax)
    {
      var u := LToU(l);
      if u >= |boards| {
        boards := Grow(boards, u + 1, []);
        timelineStart := Grow(timelineStart, u + 1, IntMax);
        timelineEnd := Grow(timelineEnd, u + 1, IntMin);
      }
      lMin := Min(lMin, l);
      lMax := Max(lMax, l);
    }

    /** The slot `v` of row `u`, given the row already grown to reach it:
      * refused when occupied, otherwise filled. */
    method PlaceSlot(u: int, v: int, timeline: Timeline, b: Board) returns (placed: bool)
      requires Valid() && 0 <= u < |boards| && 0 <= v <= IntMax
      requires timeline == if v >= |boards[u]| then Grow(boards[u], v + 1, None) else boards[u]
      modifies this
      ensures (Abs(), placed) == Place(old(Abs()), u, v, b)
      ensures activeMin == old(activeMin) && activeMax == old(activeMax)
    {
      if timeline[v].Some? {
        return false;
      }
      placed := true;
      boards := boards[u := timeline[v := Some(b)]];
      timelineStart := timelineStart[u := Min(timelineStart[u], v)];
      timelineEnd := timelineEnd[u := Max(timelineEnd[u], v)];
    }

    /** `insert_board`: the insertion, then the active range follows a new line
      * on either side when that side is not more than one line ahead. */
    method InsertBoard(l: int, t: int, c: bool, b: Board, l0Min: int, l0Max: int)
      returns (err: Option<string>)
      requires Valid() && TcToV(t, c) <= IntMax
      modifies this
      ensures Valid()
      ensures (Abs(), err) == Insert(old(Abs()), l, t, c, b)
      ensures err.Some? ==> activeMin == old(activeMin) && activeMax == old(activeMax)
      ensures err.None? ==>
        (activeMin, activeMax) == ActiveAfterInsert(l, lMin, lMax, l0Min, l0Max, old(activeMin), old(activeMax))
      ensures err.None? && old(Balanced(lMin, lMax, l0Min, l0Max, activeMin, activeMax))
        && old(lMin) - 1 <= l <= old(lMax) + 1
        ==> Balanced(lMin, lMax, l0Min, l0Max, activeMin, activeMax)
    {
      ghost var lMin0, lMax0, aMin0, aMax0 := lMin, lMax, activeMin, activeMax;
      err := InsertBoardImpl(l, t, c, b);
      if err.Some? {
        return;
      }
      FollowNewLine(l, l0Min, l0Max);
      if Balanced(lMin0, lMax0, l0Min, l0Max, aMin0, aMax0) && lMin0 - 1 <= l <= lMax0 + 1 {
        ActiveAfterInsertBalanced(l, lMin0, lMax0, l0Min, l0Max, aMin0, aMax0);
      }
    }

    /** The tail of `insert_board`: the active range follows a new line on
      * either side when that side is not more than one line ahead. */
    method FollowNewLine(l: int, l0Min: int, l0Max: int)
      modifies this
      ensures (activeMin, activeMax) == ActiveAfterInsert(l, lMin, lMax, l0Min, l0Max, old(activeMin), old(activeMax))
      ensures Abs() == old(Abs())
    {
      var whitesLines := lMax - l0Max;
      var blacksLines := l0Min - lMin;
      if l > l0Max && whitesLines <= blacksLines + 1 && l > activeMax {
        activeMax := activeMax + 1;
        if lMin < activeMin {
          activeMin := activeMin - 1;
        }
      } else if l < l0Min && blacksLines <= whitesLines + 1 && l < activeMin {
        activeMin := activeMin - 1;
        if lMax > activeMax {
          activeMax := activeMax + 1;
        }
      }
    }

    /** `update_active_range`, given the value of the variant's `calculate_active_range`. */
    method UpdateActiveRange(range: (int, int))
      modifies this
      ensures activeMin == range.0 && activeMax == range.1
      ensures Abs() == old(Abs())
    {
      activeMin, activeMax := range.0, range.1;
    }

    method AppendBoard(l: int, b: Board)
      requires Valid()
      requires LToU(l) < |boards| && boards[LToU(l)] != []
      modifies this
      ensures Valid()
      ensures Abs() == Append(old(Abs()), l, b)
      ensures activeMin == old(activeMin) && activeMax == old(activeMax)
    {
      AppendEffect(Abs(), l, b);
      var u := LToU(l);
      boards := boards[u := boards[u] + [Some(b)]];
      timelineEnd := timelineEnd[u := timelineEnd[u] + 1];
    }

    /** `get_present`: the earliest end over the active lines, as a turn. */
    method GetPresent() returns (present: (int, bool))
      requires forall l :: activeMin <= l <= activeMax ==> LToU(l) < |timelineEnd|
      ensures present == VToTc(MinEnd(timelineEnd, activeMin, activeMax))
    {
      var presentV := IntMax;
      var l := activeMin;
      while l <= activeMax
        invariant activeMin <= l <= Max(activeMin, activeMax + 1)
        invariant presentV == MinEnd(timelineEnd, activeMin, l - 1)
        decreases activeMax - l
      {
        presentV := Min(presentV, timelineEnd[LToU(l)]);
        l := l + 1;
      }
      assert l - 1 == activeMax || MinEnd(timelineEnd, activeMin, activeMax) == IntMax;
      present := VToTc(presentV);
    }

    /** `get_boards`: every stored board as `(l, t, c, fen)`, row by row. */
    method GetBoards() returns (result: seq<BoardInfo>)
      ensures result == Entries(boards)
      ensures forall e :: e in result <==> Stored(boards, e)
    {
      result := [];
      var u := 0;
      while u < |boards|
        invariant 0 <= u <= |boards|
        invariant result == Entries(boards[..u])
      {
        var timeline := boards[u];
        var l := UToL(u);
        var v := 0;
        while v < |timeline|
          invariant 0 <= v <= |timeline|
          invariant result == Entries(boards[..u]) + RowEntries(l, timeline[..v])
        {
          var tc := VToTc(v);
          if timeline[v].Some? {
            result := result + [BoardInfo(l, tc.0, tc.1, timeline[v].value.fen)];
          }
          assert timeline[..v + 1][..v] == timeline[..v];
          v := v + 1;
        }
        assert timeline[..v] == timeline;
        assert boards[..u + 1][..u] == boards[..u];
        u := u + 1;
      }
      assert boards[..u] == boards;
      forall e ensures e in result <==> Stored(boards, e) {
        EntriesExact(boards, e);
      }
    }

    /** The constructor's loop over `[l_min, l_max]`: the first gap found, if any. */
    method CheckGaps() returns (err: Option<string>)
      requires Valid() && |boards| > 0
      ensures err == GapError(Abs(), lMin)
    {
      err := FindGap(Abs());
    }
  }

  /** One line of the gap checks: its row exists and is well formed, and the
    * check either stops there or goes on with the next line. */
  lemma GapStep(m: Mv, l: int)
    requires WellFormed(m) && |m.boards| > 0 && m.lMin <= l <= m.lMax
    ensures var u := LToU(l);
      && 0 <= u < |m.boards| && u < |m.start| && u < |m.end|
      && RowOk(m.boards[u], m.start[u], m.end[u])
      && GapError(m, l) ==
         if m.boards[u] == [] then Some(LineGapMessage)
         else if FirstHole(m.boards[u], m.start[u], m.end[u]).Some? then Some(BoardGapMessage(UToL(u)))
         else GapError(m, l + 1)
  {
    LToUBounded(m.lMin, m.lMax, l);
  }

  /** The gap checks, over the abstract table `m`. */
  method FindGap(m: Mv) returns (err: Option<string>)
    requires WellFormed(m) && |m.boards| > 0
    ensures err == GapError(m, m.lMin)
  {
    var l := m.lMin;
    while l <= m.lMax
      invariant m.lMin <= l <= m.lMax + 1
      invariant GapError(m, m.lMin) == GapError(m, l)
      decreases m.lMax - l
    {
      err := LineGap(m, l);
      if err.Some? {
        return;
      }
      l := l + 1;
    }
    err := None;
  }

  /** One turn of the constructor's loop: the error line `l` shows, if any. */
  method LineGap(m: Mv, l: int) returns (err: Option<string>)
    requires WellFormed(m) && |m.boards| > 0 && m.lMin <= l <= m.lMax
    ensures err.Some? ==> err == GapError(m, l)
    ensures err.None? ==> GapError(m, l) == GapError(m, l + 1)
  {
    GapStep(m, l);
    var u := LToU(l);
    if m.boards[u] == [] {
      return Some(LineGapMessage);
    }
    var hole := RowHasHole(m.boards[u], m.start[u], m.end[u]);
    if hole {
      return Some(BoardGapMessage(UToL(u)));
    }
    return None;
  }

  /** The constructor's inner loop over one row: whether a board is missing
    * between columns `s` and `e`. */
  method RowHasHole(row: Timeline, s: int, e: int) returns (hole: bool)
    requires 0 <= s <= e < |row|
    ensures hole == FirstHole(row, s, e).Some?
  {
    var v := s;
    while v <= e
      invariant s <= v <= e + 1
      invariant FirstHole(row, s, e) == FirstHole(row, v, e)
      decreases e - v
    {
      if row[v].None? {
        return true;
      }
      v := v + 1;
    }
    return false;
  }

  /** An insertion, even a rejected one, leaves at least one row. */
  lemma InsertHasRows(m: Mv, l: int, t: int, c: bool, b: Board)
    requires |m.start| == |m.boards| && |m.end| == |m.boards|
    ensures |Insert(m, l, t, c, b).0.boards| > LToU(l)
  {
    var u := LToU(l);
    var w := Widen(m, l);
    assert |w.boards| > u;
    if TcToV(t, c) >= 0 {
      assert |Place(w, u, TcToV(t, c), b).0.boards| == |w.boards|;
    }
  }

  /** The constructor's loop: every board inserted in order, stopping at the
    * first insertion that throws. */
  method InsertEach(mv: Multiverse, bds: seq<BoardInfo>) returns (err: Option<string>)
    requires mv.Valid() && AllIntTurns(bds)
    modifies mv
    ensures mv.Valid() && (mv.Abs(), err) == InsertAll(old(mv.Abs()), bds)
    ensures err.None? && |bds| > 0 ==> |mv.boards| > 0
  {
    ghost var start := mv.Abs();
    var i := 0;
    while i < |bds|
      invariant 0 <= i <= |bds|
      invariant mv.Valid()
      invariant InsertAll(start, bds) == InsertAll(mv.Abs(), bds[i..])
      invariant i > 0 ==> |mv.boards| > 0
    {
      var e := bds[i];
      InsertHasRows(mv.Abs(), e.l, e.t, e.c, Board(e.fen));
      InsertAllStep(mv.Abs(), bds[i..]);
      err := mv.InsertBoardImpl(e.l, e.t, e.c, Board(e.fen));
      if err.Some? {
        return;
      }
      assert bds[i..][1..] == bds[i + 1..];
      i := i + 1;
    }
    assert bds[i..] == [];
    err := None;
  }

  /** The constructor: it throws on empty input, inserts every board in order
    * (any insertion may throw), then runs the gap checks. */
  method Build(bds: seq<BoardInfo>, sizeX: int, sizeY: int) returns (r: Result<Multiverse>)
    requires AllIntTurns(bds)
    ensures r.Ok? <==>
      |bds| > 0 && InsertAll(Empty, bds).1.None?
      && var m := InsertAll(Empty, bds).0; |m.boards| > 0 && NoGaps(m)
    ensures r.Ok? ==> fresh(r.value) && r.value.Valid() && r.value.Abs() == InsertAll(Empty, bds).0
    ensures |bds| == 0 ==> r == Err("multiverse(): Empty input")
  {
    if |bds| == 0 {
      return Err("multiverse(): Empty input");
    }
    var mv := new Multiverse.Init(sizeX, sizeY);
    var err := InsertEach(mv, bds);
    if err.Some? {
      return Err(err.value);
    }
    var gap := mv.CheckGaps();
    GapErrorExact(mv.Abs(), mv.lMin);
    if gap.Some? {
      return Err(gap.value);
    }
    r := Ok(mv);
  }
}
