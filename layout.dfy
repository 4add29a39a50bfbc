/** The board viewer's layout: where each board and square of the multiverse
  * sits in world pixels, which board a world point falls on, which boards and
  * highlights are visible through an integer window of lines and columns
  * (with a cache), and cycling through focus points. A board of line `l` at
  * turn `(t, c)` sits in row `l` and column `v = t<<1 | c`; ranks are drawn
  * top to bottom, so the y axis is flipped within a board. */
module Layout {
  import opened Wrappers
  import Coordinates
  import Seqs
  import Viewport

  /** A board of the data: its place and its FEN text (`null` in the source
    * when the board is only a placeholder). */
  datatype BoardEntry = BoardEntry(l: int, t: int, c: bool, fen: Option<string>)

  /** A board place, as in focus points and board highlights. */
  datatype BoardRef = BoardRef(l: int, t: int, c: bool)

  /** A square of a board, as in coordinate highlights and arrow ends. */
  datatype Square = Square(l: int, t: int, c: bool, x: int, y: int)

  datatype Arrow = Arrow(from: Square, to: Square)

  /** One colour block of `data.highlights`; each list may be absent. */
  datatype Block = Block(
    color: string,
    coordinates: Option<seq<Square>>,
    arrows: Option<seq<Arrow>>,
    timelines: Option<seq<int>>,
    boards: Option<seq<BoardRef>>)

  datatype Size = Size(x: int, y: int)

  /** The data handed to `setData`; `fade` is the saturation fade the page
    * sets on it when phantom boards are shown. */
  datatype Data = Data(
    boards: seq<BoardEntry>,
    highlights: Option<seq<Block>>,
    size: Option<Size>,
    focus: Option<seq<BoardRef>>,
    fade: Option<real>)

  /** The integer window `[lMin, lMax] x [vMin, vMax]` of rows and columns. */
  datatype Window = Window(lMin: int, lMax: int, vMin: int, vMax: int)

  /** The numbers the pixel maps depend on. */
  datatype Geometry = Geometry(
    boardLengthX: int, boardLengthY: int, squareSize: int, boardSkipX: int, boardSkipY: int)

  /** Boards do not overlap: each pitch holds a whole board. */
  predicate GeometryOk(g: Geometry)
  {
    g.boardLengthX >= 1 && g.boardLengthY >= 1 && g.squareSize >= 1
    && g.boardSkipX >= g.boardLengthX * g.squareSize
    && g.boardSkipY >= g.boardLengthY * g.squareSize
  }

  /** The column of a turn: `t<<1 | c`. */
  function Column(t: int, c: bool): int
  {
    Coordinates.TcToV(t, c)
  }

  // ---------------------------------------------------------------------------
  // The window tests of `_filterBoardData`

  predicate InWindow(w: Window, l: int, t: int, c: bool)
  {
    !(l < w.lMin || l > w.lMax || Column(t, c) < w.vMin || Column(t, c) > w.vMax)
  }

  predicate KeepBoard(w: Window, b: BoardEntry)
  {
    InWindow(w, b.l, b.t, b.c) && b.fen.Some?
  }

  predicate KeepSquare(w: Window, s: Square)
  {
    InWindow(w, s.l, s.t, s.c)
  }

  predicate KeepArrow(w: Window, a: Arrow)
  {
    KeepSquare(w, a.from) || KeepSquare(w, a.to)
  }

  predicate KeepTimeline(w: Window, l: int)
  {
    !(l < w.lMin || l > w.lMax)
  }

  predicate KeepBoardRef(w: Window, b: BoardRef)
  {
    InWindow(w, b.l, b.t, b.c)
  }

  function VisibleBoards(bs: seq<BoardEntry>, w: Window): (r: seq<BoardEntry>)
    ensures forall i :: 0 <= i < |r| ==> r[i] in bs && KeepBoard(w, r[i])
    ensures forall i :: 0 <= i < |bs| && KeepBoard(w, bs[i]) ==> bs[i] in r
  {
    Seqs.Filter(bs, b => KeepBoard(w, b))
  }

  function VisibleSquares(ss: seq<Square>, w: Window): seq<Square>
  {
    Seqs.Filter(ss, s => KeepSquare(w, s))
  }

  function VisibleArrows(arrows: seq<Arrow>, w: Window): seq<Arrow>
  {
    Seqs.Filter(arrows, a => KeepArrow(w, a))
  }

  function VisibleTimelines(ls: seq<int>, w: Window): seq<int>
  {
    Seqs.Filter(ls, l => KeepTimeline(w, l))
  }

  function VisibleBoardRefs(bs: seq<BoardRef>, w: Window): seq<BoardRef>
  {
    Seqs.Filter(bs, r => KeepBoardRef(w, r))
  }

  /** The per-colour maps the highlight loop builds, for a list a block may
    * carry (`field`) and its visible part (`visible`): block by block, a block
    * carrying the list replaces whatever an earlier block of its colour left. */
  function Latest<T>(blocks: seq<Block>, field: Block -> Option<seq<T>>, visible: seq<T> -> seq<T>)
    : map<string, seq<T>>
    decreases |blocks|
  {
    if blocks == [] then map[]
    else LatestStep(Latest(blocks[..|blocks| - 1], field, visible), blocks[|blocks| - 1], field, visible)
  }

  /** One block's effect on a map. */
  function LatestStep<T>(m: map<string, seq<T>>, b: Block, field: Block -> Option<seq<T>>, visible: seq<T> -> seq<T>)
    : map<string, seq<T>>
  {
    if field(b).Some? then m[b.color := visible(field(b).value)] else m
  }

  /** A colour has an entry exactly when some block of that colour carries the
    * list. */
  lemma {:induction false} LatestDomain<T>(blocks: seq<Block>, field: Block -> Option<seq<T>>,
                                           visible: seq<T> -> seq<T>, color: string)
    ensures color in Latest(blocks, field, visible) <==>
      exists i :: 0 <= i < |blocks| && blocks[i].color == color && field(blocks[i]).Some?
    decreases |blocks|
  {
    if blocks != [] {
      var n := |blocks| - 1;
      var init := blocks[..n];
      LatestDomain(init, field, visible, color);
      if i :| 0 <= i < n && init[i].color == color && field(init[i]).Some? {
        assert blocks[i] == init[i];
      }
      if i :| 0 <= i < |blocks| && blocks[i].color == color && field(blocks[i]).Some? {
        if i < n {
          assert init[i] == blocks[i];
        }
      }
    }
  }

  /** The entry of a colour is the visible part of the list of the last block
    * of that colour that carries one. */
  lemma {:induction false} LatestValue<T>(blocks: seq<Block>, field: Block -> Option<seq<T>>,
                                          visible: seq<T> -> seq<T>, color: string)
    requires color in Latest(blocks, field, visible)
    ensures exists i :: (0 <= i < |blocks| && blocks[i].color == color && field(blocks[i]).Some?
      && (forall j :: i < j < |blocks| && blocks[j].color == color ==> field(blocks[j]).None?)
      && Latest(blocks, field, visible)[color] == visible(field(blocks[i]).value))
    decreases |blocks|
  {
    var n := |blocks| - 1;
    var init := blocks[..n];
    var b := blocks[n];
    if !(b.color == color && field(b).Some?) {
      var m := Latest(init, field, visible);
      assert color in m && Latest(blocks, field, visible)[color] == m[color];
      LatestValue(init, field, visible, color);
      var i :| 0 <= i < n && init[i].color == color && field(init[i]).Some?
        && (forall j :: i < j < n && init[j].color == color ==> field(init[j]).None?)
        && m[color] == visible(field(init[i]).value);
      assert blocks[i] == init[i];
      assert forall j :: i < j < n ==> blocks[j] == init[j];
    }
  }

  function CoordinatesOf(b: Block): Option<seq<Square>> { b.coordinates }
  function ArrowsOf(b: Block): Option<seq<Arrow>> { b.arrows }
  function TimelinesOf(b: Block): Option<seq<int>> { b.timelines }
  function BoardsOf(b: Block): Option<seq<BoardRef>> { b.boards }

  function SquareFilter(w: Window): seq<Square> -> seq<Square> { ss => VisibleSquares(ss, w) }
  function ArrowFilter(w: Window): seq<Arrow> -> seq<Arrow> { arrows => VisibleArrows(arrows, w) }
  function TimelineFilter(w: Window): seq<int> -> seq<int> { ls => VisibleTimelines(ls, w) }
  function BoardRefFilter(w: Window): seq<BoardRef> -> seq<BoardRef> { bs => VisibleBoardRefs(bs, w) }

  function CoordinateHighlights(blocks: seq<Block>, w: Window): map<string, seq<Square>>
  {
    Latest(blocks, CoordinatesOf, SquareFilter(w))
  }

  function ArrowHighlights(blocks: seq<Block>, w: Window): map<string, seq<Arrow>>
  {
    Latest(blocks, ArrowsOf, ArrowFilter(w))
  }

  function TimelineHighlights(blocks: seq<Block>, w: Window): map<string, seq<int>>
  {
    Latest(blocks, TimelinesOf, TimelineFilter(w))
  }

  function BoardHighlights(blocks: seq<Block>, w: Window): map<string, seq<BoardRef>>
  {
    Latest(blocks, BoardsOf, BoardRefFilter(w))
  }

  /** Coordinate highlights: a colour is present exactly when one of its blocks
    * carries squares, and it keeps the squares of the last such block that lie
    * inside the window (the board test without the FEN condition), in order. */
  lemma CoordinateHighlightsExact(blocks: seq<Block>, w: Window, color: string)
    ensures color in CoordinateHighlights(blocks, w) <==>
      exists i :: 0 <= i < |blocks| && blocks[i].color == color && blocks[i].coordinates.Some?
    ensures color in CoordinateHighlights(blocks, w) ==>
      exists i :: (0 <= i < |blocks| && blocks[i].color == color && blocks[i].coordinates.Some?
        && (forall j :: i < j < |blocks| && blocks[j].color == color ==> blocks[j].coordinates.None?)
        && CoordinateHighlights(blocks, w)[color] == VisibleSquares(blocks[i].coordinates.value, w))
    ensures color in CoordinateHighlights(blocks, w) ==>
      forall k :: 0 <= k < |CoordinateHighlights(blocks, w)[color]| ==> KeepSquare(w, CoordinateHighlights(blocks, w)[color][k])
  {
    LatestDomain(blocks, CoordinatesOf, SquareFilter(w), color);
    if color in CoordinateHighlights(blocks, w) {
      LatestValue(blocks, CoordinatesOf, SquareFilter(w), color);
    }
  }

  /** Arrow highlights: the same, keeping the arrows with an end in the window. */
  lemma ArrowHighlightsExact(blocks: seq<Block>, w: Window, color: string)
    ensures color in ArrowHighlights(blocks, w) <==>
      exists i :: 0 <= i < |blocks| && blocks[i].color == color && blocks[i].arrows.Some?
    ensures color in ArrowHighlights(blocks, w) ==>
      exists i :: (0 <= i < |blocks| && blocks[i].color == color && blocks[i].arrows.Some?
        && (forall j :: i < j < |blocks| && blocks[j].color == color ==> blocks[j].arrows.None?)
        && ArrowHighlights(blocks, w)[color] == VisibleArrows(blocks[i].arrows.value, w))
    ensures color in ArrowHighlights(blocks, w) ==>
      forall k :: 0 <= k < |ArrowHighlights(blocks, w)[color]| ==> KeepArrow(w, ArrowHighlights(blocks, w)[color][k])
  {
    LatestDomain(blocks, ArrowsOf, ArrowFilter(w), color);
    if color in ArrowHighlights(blocks, w) {
      LatestValue(blocks, ArrowsOf, ArrowFilter(w), color);
    }
  }

  /** Timeline highlights: the same, keeping the lines within `[lMin, lMax]`. */
  lemma TimelineHighlightsExact(blocks: seq<Block>, w: Window, color: string)
    ensures color in TimelineHighlights(blocks, w) <==>
      exists i :: 0 <= i < |blocks| && blocks[i].color == color && blocks[i].timelines.Some?
    ensures color in TimelineHighlights(blocks, w) ==>
      exists i :: (0 <= i < |blocks| && blocks[i].color == color && blocks[i].timelines.Some?
        && (forall j :: i < j < |blocks| && blocks[j].color == color ==> blocks[j].timelines.None?)
        && TimelineHighlights(blocks, w)[color] == VisibleTimelines(blocks[i].timelines.value, w))
    ensures color in TimelineHighlights(blocks, w) ==>
      forall k :: 0 <= k < |TimelineHighlights(blocks, w)[color]| ==> w.lMin <= TimelineHighlights(blocks, w)[color][k] <= w.lMax
  {
    LatestDomain(blocks, TimelinesOf, TimelineFilter(w), color);
    if color in TimelineHighlights(blocks, w) {
      LatestValue(blocks, TimelinesOf, TimelineFilter(w), color);
    }
  }

  /** Board highlights: the same, keeping the boards inside the window. */
  lemma BoardHighlightsExact(blocks: seq<Block>, w: Window, color: string)
    ensures color in BoardHighlights(blocks, w) <==>
      exists i :: 0 <= i < |blocks| && blocks[i].color == color && blocks[i].boards.Some?
    ensures color in BoardHighlights(blocks, w) ==>
      exists i :: (0 <= i < |blocks| && blocks[i].color == color && blocks[i].boards.Some?
        && (forall j :: i < j < |blocks| && blocks[j].color == color ==> blocks[j].boards.None?)
        && BoardHighlights(blocks, w)[color] == VisibleBoardRefs(blocks[i].boards.value, w))
    ensures color in BoardHighlights(blocks, w) ==>
      forall k :: 0 <= k < |BoardHighlights(blocks, w)[color]| ==> KeepBoardRef(w, BoardHighlights(blocks, w)[color][k])
  {
    LatestDomain(blocks, BoardsOf, BoardRefFilter(w), color);
    if color in BoardHighlights(blocks, w) {
      LatestValue(blocks, BoardsOf, BoardRefFilter(w), color);
    }
  }

  // ---------------------------------------------------------------------------
  // Pixel maps

  /** `_getCoordinate`: the top-left pixel of a square. */
  function Pixel(g: Geometry, s: Square): (int, int)
  {
    (s.x * g.squareSize + Column(s.t, s.c) * g.boardSkipX,
     (g.boardLengthY - 1 - s.y) * g.squareSize + s.l * g.boardSkipY)
  }

  /** `worldToBoard`: the line, turn, colour and square a world point falls on
    * (the square may lie outside the board, in the margin). */
  function ToBoard(g: Geometry, wx: real, wy: real): Square
    requires GeometryOk(g)
  {
    var l := (wy / g.boardSkipY as real).Floor;
    var v := (wx / g.boardSkipX as real).Floor;
    var x := ((wx - (v * g.boardSkipX) as real) / g.squareSize as real).Floor;
    var y := g.boardLengthY - 1 - ((wy - (l * g.boardSkipY) as real) / g.squareSize as real).Floor;
    Square(l, v / 2, v % 2 != 0, x, y)
  }

  lemma MulLe(x: real, y: real, b: real)
    requires x <= y && b > 0.0
    ensures x * b <= y * b
  {
  }

  lemma Between(r: real, b: real, a: real, lo: real, hi: real)
    requires b > 0.0 && r * b == a && lo * b <= a < hi * b
    ensures lo <= r < hi
  {
    if r < lo { MulLe(r, lo, b); }
    if r >= hi { MulLe(hi, r, b); }
  }

  /** `q` is the floor of `a / b` when `a` lies in `[q b, (q + 1) b)`. */
  lemma FloorOfQuotient(a: real, b: real, q: int)
    requires b > 0.0 && (q as real) * b <= a < ((q + 1) as real) * b
    ensures (a / b).Floor == q
  {
    Between(a / b, b, a, q as real, (q + 1) as real);
  }

  /** A point `c` past the start of a pitch of width `skip` floors to the
    * pitch's index. */
  lemma PitchFloor(skip: int, idx: int, c: real)
    requires skip >= 1 && 0.0 <= c < skip as real
    ensures (((idx * skip) as real + c) / skip as real).Floor == idx
  {
    assert (idx * skip) as real == (idx as real) * (skip as real);
    assert ((idx + 1) * skip) as real == (idx * skip) as real + skip as real;
    FloorOfQuotient((idx * skip) as real + c, skip as real, idx);
  }

  /** A point `d` into cell `cell` lies within the board's squares. */
  lemma CellOffset(sq: int, len: int, cell: int, d: real)
    requires sq >= 1 && 0 <= cell < len && 0.0 <= d < sq as real
    ensures 0.0 <= (cell * sq) as real + d < (len * sq) as real
  {
    assert (cell + 1) * sq <= len * sq;
    assert 0 <= cell * sq;
  }

  /** Along one axis: a point `d` into cell `cell` of the board at pitch index
    * `idx` is read back as that index and that cell. */
  lemma AxisFloor(skip: int, sq: int, len: int, idx: int, cell: int, d: real)
    requires sq >= 1 && skip >= len * sq && 0 <= cell < len && 0.0 <= d < sq as real
    ensures var w := (cell * sq + idx * skip) as real + d;
      (w / skip as real).Floor == idx
      && ((w - (idx * skip) as real) / sq as real).Floor == cell
  {
    var c := (cell * sq) as real + d;
    CellOffset(sq, len, cell, d);
    assert (cell * sq + idx * skip) as real + d == (idx * skip) as real + c;
    PitchFloor(skip, idx, c);
    PitchFloor(sq, cell, d);
  }

  /** Any point of the cell of an on-board square, as `_getCoordinate` places
    * it, is read back by `worldToBoard` as that very square. */
  lemma ToBoardOfPixel(g: Geometry, s: Square, dx: real, dy: real)
    requires GeometryOk(g)
    requires 0 <= s.x < g.boardLengthX && 0 <= s.y < g.boardLengthY
    requires 0.0 <= dx < g.squareSize as real && 0.0 <= dy < g.squareSize as real
    ensures ToBoard(g, Pixel(g, s).0 as real + dx, Pixel(g, s).1 as real + dy) == s
  {
    var v := Column(s.t, s.c);
    var ry := g.boardLengthY - 1 - s.y;
    AxisFloor(g.boardSkipX, g.squareSize, g.boardLengthX, v, s.x, dx);
    AxisFloor(g.boardSkipY, g.squareSize, g.boardLengthY, s.l, ry, dy);
    Coordinates.TcVInverse(s.t, s.c);
  }

  /** What a click dispatches: the board callback with the square it lands on. */
  datatype Dispatch = NoCall | OnClickSquare(sq: Square) | OnRightClickSquare(sq: Square)

  /** `handleBoardClick`: one of the two callbacks, and only for a point that
    * falls on the squares of a board (not its margin). */
  function HandleBoardClick(g: Geometry, wx: real, wy: real, isRightClick: bool): (d: Dispatch)
    requires GeometryOk(g)
  {
    var pos := ToBoard(g, wx, wy);
    if pos.x >= 0 && pos.x < g.boardLengthX && pos.y >= 0 && pos.y < g.boardLengthY then
      if isRightClick then OnRightClickSquare(pos) else OnClickSquare(pos)
    else NoCall
  }

  /** A click calls back exactly when `worldToBoard` finds an on-board square,
    * the right callback for the right button, with that square. */
  lemma HandleBoardClickExact(g: Geometry, wx: real, wy: real, isRightClick: bool)
    requires GeometryOk(g)
    ensures var pos := ToBoard(g, wx, wy);
      var d := HandleBoardClick(g, wx, wy, isRightClick);
      (d != NoCall <==> 0 <= pos.x < g.boardLengthX && 0 <= pos.y < g.boardLengthY)
      && (d.OnClickSquare? ==> !isRightClick && d.sq == pos)
      && (d.OnRightClickSquare? ==> isRightClick && d.sq == pos)
  {
  }

  /** Clicking anywhere in the cell of a square calls back with that square. */
  lemma ClickOnSquare(g: Geometry, s: Square, dx: real, dy: real, isRightClick: bool)
    requires GeometryOk(g)
    requires 0 <= s.x < g.boardLengthX && 0 <= s.y < g.boardLengthY
    requires 0.0 <= dx < g.squareSize as real && 0.0 <= dy < g.squareSize as real
    ensures HandleBoardClick(g, Pixel(g, s).0 as real + dx, Pixel(g, s).1 as real + dy, isRightClick)
      == if isRightClick then OnRightClickSquare(s) else OnClickSquare(s)
  {
    ToBoardOfPixel(g, s, dx, dy);
  }

  /** `renderBoards`: the integer window covering the visible rectangle. */
  function RenderWindow(g: Geometry, b: Viewport.WorldBounds): Window
    requires GeometryOk(g)
  {
    Window((b.top / g.boardSkipY as real).Floor,
           -((-b.bottom / g.boardSkipY as real).Floor),
           (b.left / g.boardSkipX as real).Floor,
           -((-b.right / g.boardSkipX as real).Floor))
  }

  lemma FloorMonotone(a: real, b: real)
    requires a <= b
    ensures a.Floor <= b.Floor
  {
  }

  lemma DivMonotone(a: real, b: real, d: real)
    requires a <= b && d > 0.0
    ensures a / d <= b / d
  {
  }

  /** Every world point in the visible rectangle falls on a line and column
    * of the window, so the boards the filter drops are not on screen. */
  lemma RenderWindowCovers(g: Geometry, b: Viewport.WorldBounds, wx: real, wy: real)
    requires GeometryOk(g)
    requires b.left <= wx <= b.right && b.top <= wy <= b.bottom
    ensures var w := RenderWindow(g, b);
      var pos := ToBoard(g, wx, wy);
      w.lMin <= pos.l <= w.lMax && w.vMin <= Column(pos.t, pos.c) <= w.vMax
  {
    AxisCovers(b.top, wy, b.bottom, g.boardSkipY as real);
    AxisCovers(b.left, wx, b.right, g.boardSkipX as real);
    Coordinates.VTcInverse((wx / g.boardSkipX as real).Floor);
  }

  /** Along one axis: the pitch index of a point between `lo` and `hi` lies
    * between the floor of `lo` and the ceiling of `hi`, in pitches. */
  lemma AxisCovers(lo: real, x: real, hi: real, skip: real)
    requires lo <= x <= hi && skip > 0.0
    ensures (lo / skip).Floor <= (x / skip).Floor <= -((-hi / skip).Floor)
  {
    DivMonotone(lo, x, skip);
    DivMonotone(x, hi, skip);
    assert -hi / skip == -(hi / skip);
    FloorMonotone(lo / skip, x / skip);
  }

  // ---------------------------------------------------------------------------
  // The viewer object

  /** The viewer's filter cache: the window it was built for (`None` matches
    * no window) and what was visible through it. */
  datatype FilterCache = FilterCache(
    bounds: Option<Window>,
    filteredBoards: seq<BoardEntry>,
    filteredCoordinateHighlight: map<string, seq<Square>>,
    filteredArrowHighlight: map<string, seq<Arrow>>,
    filteredTimelineHighlight: map<string, seq<int>>,
    filteredBoardHighlight: map<string, seq<BoardRef>>)

  /** The cache built for data `d` through window `w`. */
  function Filtered(d: Data, w: Window): FilterCache
  {
    var hs := if d.highlights.Some? then d.highlights.value else [];
    FilterCache(Some(w), VisibleBoards(d.boards, w), CoordinateHighlights(hs, w), ArrowHighlights(hs, w),
      TimelineHighlights(hs, w), BoardHighlights(hs, w))
  }

  /** The highlight loop of `_filterBoardData`: one pass over the colour
    * blocks, each block's lists filtered to the window and stored under its
    * colour. */
  method FilterHighlights(blocks: seq<Block>, w: Window)
    returns (coordinates: map<string, seq<Square>>, arrows: map<string, seq<Arrow>>,
             timelines: map<string, seq<int>>, boards: map<string, seq<BoardRef>>)
    ensures coordinates == CoordinateHighlights(blocks, w)
    ensures arrows == ArrowHighlights(blocks, w)
    ensures timelines == TimelineHighlights(blocks, w)
    ensures boards == BoardHighlights(blocks, w)
  {
    coordinates, arrows, timelines, boards := map[], map[], map[], map[];
    var i := 0;
    while i < |blocks|
      invariant 0 <= i <= |blocks|
      invariant coordinates == CoordinateHighlights(blocks[..i], w)
      invariant arrows == ArrowHighlights(blocks[..i], w)
      invariant timelines == TimelineHighlights(blocks[..i], w)
      invariant boards == BoardHighlights(blocks[..i], w)
    {
      var b := blocks[i];
      assert blocks[..i + 1][..i] == blocks[..i];
      if b.coordinates.Some? {
        coordinates := coordinates[b.color := VisibleSquares(b.coordinates.value, w)];
      }
      if b.arrows.Some? {
        arrows := arrows[b.color := VisibleArrows(b.arrows.value, w)];
      }
      if b.timelines.Some? {
        timelines := timelines[b.color := VisibleTimelines(b.timelines.value, w)];
      }
      if b.boards.Some? {
        boards := boards[b.color := VisibleBoardRefs(b.boards.value, w)];
      }
      i := i + 1;
    }
    assert blocks[..i] == blocks;
  }

  /** What `goToNextFocus` asks the camera for: centre on `(x, y)` at `zoom`. */
  datatype MoveTo = MoveTo(x: real, y: real, zoom: real)

  /** The board viewer's state: board geometry, focus points, the data and the
    * filter cache. A `focusIndex` of `None` is JavaScript's `NaN`, which the
    * index becomes when the focus list is empty. */
  class ChessBoardCanvas {
    var boardLengthX: int
    var boardLengthY: int
    var squareSize: int
    var boardSkipX: int
    var boardSkipY: int
    var focusPoints: seq<BoardRef>
    var focusIndex: Option<nat>
    var data: Option<Data>
    var filterCache: FilterCache

    function Geom(): Geometry
      reads this
    {
      Geometry(boardLengthX, boardLengthY, squareSize, boardSkipX, boardSkipY)
    }

    ghost predicate Valid()
      reads this
    {
      GeometryOk(Geom()) && squareSize == 10
    }

    /** The initial configuration: 8 by 8 boards of 10-pixel squares, pitches
      * of 100 and 122 pixels, one focus point at the origin, no data, and an
      * empty cache whose bounds match no window. */
    constructor ()
      ensures Valid()
      ensures Geom() == Geometry(8, 8, 10, 100, 122)
      ensures focusPoints == [BoardRef(0, 0, false)] && focusIndex == Some(0)
      ensures data == None
      ensures filterCache == FilterCache(None, [], map[], map[], map[], map[])
    {
      boardLengthX, boardLengthY := 8, 8;
      squareSize := 10;
      boardSkipX, boardSkipY := 100, 122;
      focusPoints := [BoardRef(0, 0, false)];
      focusIndex := Some(0);
      data := None;
      filterCache := FilterCache(None, [], map[], map[], map[], map[]);
    }

    /** `setData`: stores the data; a size resizes the boards and recomputes
      * both pitches; a focus list replaces the focus points; the cache bounds
      * are always cleared. */
    method SetData(d: Data)
      requires Valid()
      requires d.size.Some? ==> d.size.value.x >= 1 && d.size.value.y >= 1
      modifies this
      ensures Valid()
      ensures data == Some(d)
      ensures filterCache == old(filterCache).(bounds := None)
      ensures d.size.Some? ==>
        boardLengthX == d.size.value.x && boardLengthY == d.size.value.y
        && boardSkipX == boardLengthX * squareSize + 20
        && boardSkipY == Max(boardLengthY * squareSize + 20, ((boardSkipX as real) * 1.12).Floor)
      ensures d.size.None? ==> Geom() == old(Geom())
      ensures squareSize == old(squareSize)
      ensures focusPoints == (if d.focus.Some? then d.focus.value else old(focusPoints))
      ensures focusIndex == old(focusIndex)
    {
      data := Some(d);
      if d.size.Some? {
        boardLengthX := d.size.value.x;
        boardLengthY := d.size.value.y;
        boardSkipX := boardLengthX * squareSize + 20;
        boardSkipY := Max(boardLengthY * squareSize + 20, ((boardSkipX as real) * 1.12).Floor);
      }
      if d.focus.Some? {
        focusPoints := d.focus.value;
      }
      filterCache := filterCache.(bounds := None);
    }

    /** `_filterBoardData`: a window equal to the cached bounds changes nothing;
      * otherwise the window is cached and, when there is data, the visible
      * boards and the per-colour highlight maps are rebuilt. */
    method FilterBoardData(w: Window)
      modifies this
      ensures old(filterCache).bounds == Some(w) ==> filterCache == old(filterCache)
      ensures old(filterCache).bounds != Some(w) && data.None? ==>
        filterCache == old(filterCache).(bounds := Some(w))
      ensures old(filterCache).bounds != Some(w) && data.Some? ==>
        filterCache == Filtered(data.value, w)
      ensures Geom() == old(Geom())
      ensures focusPoints == old(focusPoints) && focusIndex == old(focusIndex)
      ensures data == old(data)
    {
      if filterCache.bounds == Some(w) {
        return;
      }
      filterCache := filterCache.(bounds := Some(w));
      if data.None? {
        return;
      }
      var boards := VisibleBoards(data.value.boards, w);
      var coordinates, arrows, timelines, boardHighlights;
      if data.value.highlights.Some? {
        coordinates, arrows, timelines, boardHighlights := FilterHighlights(data.value.highlights.value, w);
      } else {
        coordinates, arrows, timelines, boardHighlights := map[], map[], map[], map[];
      }
      filterCache := FilterCache(Some(w), boards, coordinates, arrows, timelines, boardHighlights);
    }

    /** `goToNextFocus`: the index moves one step round the focus list (it
      * becomes `NaN` on an empty list) and the camera is sent to the middle of
      * the focused board. */
    method GoToNextFocus(targetScale: real) returns (move: Option<MoveTo>)
      requires Valid()
      modifies this
      ensures focusIndex == (if old(focusIndex).Some? && |focusPoints| > 0
        then Some((old(focusIndex).value + 1) % |focusPoints|) else None)
      ensures move.Some? <==> focusIndex.Some?
      ensures move.Some? ==> (0 <= focusIndex.value < |focusPoints|
        && move.value == FocusTarget(Geom(), focusPoints[focusIndex.value], targetScale))
      ensures Geom() == old(Geom()) && Valid()
      ensures focusPoints == old(focusPoints) && data == old(data) && filterCache == old(filterCache)
    {
      if focusIndex.Some? && |focusPoints| > 0 {
        focusIndex := Some((focusIndex.value + 1) % |focusPoints|);
      } else {
        focusIndex := None;
      }
      if focusIndex.Some? {
        var focus := focusPoints[focusIndex.value];
        move := Some(FocusTarget(Geom(), focus, targetScale));
      } else {
        move := None;
      }
    }

    /** `addFocusPoint`: appends, leaving the index alone. */
    method AddFocusPoint(l: int, t: int, c: bool)
      modifies this
      ensures focusPoints == old(focusPoints) + [BoardRef(l, t, c)]
      ensures focusIndex == old(focusIndex)
      ensures Geom() == old(Geom()) && data == old(data) && filterCache == old(filterCache)
    {
      focusPoints := focusPoints + [BoardRef(l, t, c)];
    }

    /** `setFocusPoints`: replaces the list and restarts at its first point. */
    method SetFocusPoints(points: seq<BoardRef>)
      modifies this
      ensures focusPoints == points && focusIndex == Some(0)
      ensures Geom() == old(Geom()) && data == old(data) && filterCache == old(filterCache)
    {
      focusPoints := points;
      focusIndex := Some(0);
    }
  }

  function Max(a: int, b: int): int { if a >= b then a else b }

  /** The camera target for a focus point: the middle of its board. */
  function FocusTarget(g: Geometry, f: BoardRef, zoom: real): MoveTo
  {
    MoveTo((g.boardSkipX * Column(f.t, f.c)) as real + (g.boardLengthX * g.squareSize) as real / 2.0,
           (g.boardSkipY * f.l) as real + (g.boardLengthY * g.squareSize) as real / 2.0,
           zoom)
  }

  /** The focus target lies on the focused board: `worldToBoard` reads it back
    * as that line, turn and colour, on a square of the board. */
  lemma FocusTargetOnBoard(g: Geometry, f: BoardRef, zoom: real)
    requires GeometryOk(g)
    ensures var m := FocusTarget(g, f, zoom);
      var pos := ToBoard(g, m.x, m.y);
      pos.l == f.l && pos.t == f.t && pos.c == f.c
      && 0 <= pos.x < g.boardLengthX && 0 <= pos.y < g.boardLengthY
  {
    FocusAxis(g.boardSkipX, g.squareSize, g.boardLengthX, Column(f.t, f.c));
    FocusAxis(g.boardSkipY, g.squareSize, g.boardLengthY, f.l);
    Coordinates.TcVInverse(f.t, f.c);
  }

  /** Along one axis, the middle of the board at pitch index `idx` lies in that
    * pitch and in cell `len / 2` of it. */
  lemma FocusAxis(skip: int, sq: int, len: int, idx: int)
    requires sq >= 1 && len >= 1 && skip >= len * sq
    ensures var w := (skip * idx) as real + (len * sq) as real / 2.0;
      (w / skip as real).Floor == idx
      && ((w - (idx * skip) as real) / sq as real).Floor == len / 2
  {
    var d := (len * sq) as real / 2.0 - ((len / 2) * sq) as real;
    HalfCell(len, sq);
    AxisFloor(skip, sq, len, idx, len / 2, d);
    assert (skip * idx) as real + (len * sq) as real / 2.0 == ((len / 2) * sq + idx * skip) as real + d;
  }

  /** Half a board of `n` squares is `n / 2` whole squares and less than one more. */
  lemma HalfCell(n: int, sq: int)
    requires n >= 1 && sq >= 1
    ensures 0.0 <= (n * sq) as real / 2.0 - ((n / 2) * sq) as real < sq as real
    ensures 0 <= n / 2 < n
  {
    var h := n / 2;
    assert n * sq == 2 * (h * sq) + (n % 2) * sq;
  }
}
