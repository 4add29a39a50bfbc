/** The page script of the board viewer: the square-selection state machine
  * driven by clicks and by the engine worker's replies, and the merge of
  * extra highlight lists into the data handed to the board canvas. Messages
  * to the worker are recorded, in order, in `outbox`. */
module Selection {
  import opened Wrappers
  import Layout

  /** A destination square as the worker reports it for a selected piece. */
  datatype MoveTarget = MoveTarget(l: int, t: int, x: int, y: int)

  /** The messages the page posts to the worker. */
  datatype Request =
    | ApplyMove(from: Layout.Square, to: Layout.Square)
    | GenMoveIfPlayable(pos: Layout.Square)
    | View

  /** `generatedMoves.some(...)`: some generated move ends on the square's
    * `l`, `t`, `x` and `y` (its colour is not compared). */
  predicate IsTarget(moves: seq<MoveTarget>, to: Layout.Square)
  {
    exists i :: 0 <= i < |moves| && moves[i] == MoveTarget(to.l, to.t, to.x, to.y)
  }

  // ---------------------------------------------------------------------------
  // addHighlight

  /** The values appended under one field name of a colour block. */
  datatype Values =
    | Squares(squares: seq<Layout.Square>)
    | Arrows(arrows: seq<Layout.Arrow>)
    | Timelines(lines: seq<int>)
    | Boards(boards: seq<Layout.BoardRef>)

  function OrEmpty<T>(o: Option<seq<T>>): seq<T>
  {
    if o.Some? then o.value else []
  }

  /** `highlights.find(h => h.color === color)`: the index of the first
    * block of that colour, if any. */
  function FindColor(blocks: seq<Layout.Block>, color: string): (r: Option<nat>)
    ensures r.None? <==> forall i :: 0 <= i < |blocks| ==> blocks[i].color != color
    ensures r.Some? ==> (r.value < |blocks| && blocks[r.value].color == color
      && forall j :: 0 <= j < r.value ==> blocks[j].color != color)
    decreases |blocks|
  {
    if blocks == [] then None
    else if blocks[0].color == color then Some(0)
    else
      match FindColor(blocks[1..], color)
      case None => None
      case Some(i) => Some(i + 1)
  }

  /** `{color, [field]: [...values]}`: a block holding only the new list. */
  function NewBlock(color: string, v: Values): Layout.Block
  {
    var b := Layout.Block(color, None, None, None, None);
    match v
    case Squares(ss) => b.(coordinates := Some(ss))
    case Arrows(arrows) => b.(arrows := Some(arrows))
    case Timelines(ls) => b.(timelines := Some(ls))
    case Boards(bs) => b.(boards := Some(bs))
  }

  /** The block's list under the field `v` names, empty when absent. */
  function FieldOf(b: Layout.Block, v: Values): Values
  {
    match v
    case Squares(_) => Squares(OrEmpty(b.coordinates))
    case Arrows(_) => Arrows(OrEmpty(b.arrows))
    case Timelines(_) => Timelines(OrEmpty(b.timelines))
    case Boards(_) => Boards(OrEmpty(b.boards))
  }

  /** Two lists of the same field, one after the other. */
  function Concat(a: Values, b: Values): Values
    requires a.Squares? == b.Squares? && a.Arrows? == b.Arrows? && a.Timelines? == b.Timelines?
  {
    match a
    case Squares(ss) => Squares(ss + b.squares)
    case Arrows(arrows) => Arrows(arrows + b.arrows)
    case Timelines(ls) => Timelines(ls + b.lines)
    case Boards(bs) => Boards(bs + b.boards)
  }

  /** The two blocks agree on every field except the one `v` names. */
  predicate OtherFieldsSame(b1: Layout.Block, b2: Layout.Block, v: Values)
  {
    b1.color == b2.color
    && (v.Squares? || b1.coordinates == b2.coordinates)
    && (v.Arrows? || b1.arrows == b2.arrows)
    && (v.Timelines? || b1.timelines == b2.timelines)
    && (v.Boards? || b1.boards == b2.boards)
  }

  /** `colorBlock[field].push(...values)`, creating the list when absent. */
  function Extend(b: Layout.Block, v: Values): Layout.Block
  {
    match v
    case Squares(ss) => b.(coordinates := Some(OrEmpty(b.coordinates) + ss))
    case Arrows(arrows) => b.(arrows := Some(OrEmpty(b.arrows) + arrows))
    case Timelines(ls) => b.(timelines := Some(OrEmpty(b.timelines) + ls))
    case Boards(bs) => b.(boards := Some(OrEmpty(b.boards) + bs))
  }

  /** `addHighlight`: creates the highlight list if missing, then adds the
    * values to the first block of that colour, or appends a new block when
    * there is none. */
  function AddHighlight(d: Layout.Data, color: string, v: Values): Layout.Data
  {
    var blocks := OrEmpty(d.highlights);
    match FindColor(blocks, color)
    case None => d.(highlights := Some(blocks + [NewBlock(color, v)]))
    case Some(i) => d.(highlights := Some(blocks[i := Extend(blocks[i], v)]))
  }

  /** No two blocks share a colour. */
  predicate UniqueColors(blocks: seq<Layout.Block>)
  {
    forall i, j :: 0 <= i < j < |blocks| ==> blocks[i].color != blocks[j].color
  }

  /** Only the highlights change, and they are always present afterwards. */
  lemma AddHighlightKeepsRest(d: Layout.Data, color: string, v: Values)
    ensures var r := AddHighlight(d, color, v);
      r.boards == d.boards && r.size == d.size && r.focus == d.focus && r.fade == d.fade && r.highlights.Some?
  {
  }

  /** A new colour appends one block holding exactly the values. */
  lemma AddHighlightNewColor(d: Layout.Data, color: string, v: Values)
    requires forall i :: 0 <= i < |OrEmpty(d.highlights)| ==> OrEmpty(d.highlights)[i].color != color
    ensures var blocks, hs := OrEmpty(d.highlights), AddHighlight(d, color, v).highlights.value;
      |hs| == |blocks| + 1 && hs[..|blocks|] == blocks && hs[|blocks|].color == color
      && FieldOf(hs[|blocks|], v) == v && OtherFieldsSame(hs[|blocks|], Layout.Block(color, None, None, None, None), v)
  {
    var blocks := OrEmpty(d.highlights);
    var hs := AddHighlight(d, color, v).highlights.value;
    assert hs == blocks + [NewBlock(color, v)];
    assert hs[..|blocks|] == blocks;
  }

  /** A known colour keeps the number and order of blocks, extends the first
    * block of that colour by the values and leaves every other list and
    * block alone. */
  lemma AddHighlightKnownColor(d: Layout.Data, color: string, v: Values)
    requires exists i :: 0 <= i < |OrEmpty(d.highlights)| && OrEmpty(d.highlights)[i].color == color
    ensures var blocks, hs := OrEmpty(d.highlights), AddHighlight(d, color, v).highlights.value;
      |hs| == |blocks| && exists i :: (0 <= i < |blocks| && blocks[i].color == color
        && FieldOf(hs[i], v) == Concat(FieldOf(blocks[i], v), v) && OtherFieldsSame(hs[i], blocks[i], v)
        && forall j :: 0 <= j < |blocks| && j != i ==> hs[j] == blocks[j])
  {
    var blocks := OrEmpty(d.highlights);
    var i := FindColor(blocks, color).value;
    var hs := AddHighlight(d, color, v).highlights.value;
    assert hs == blocks[i := Extend(blocks[i], v)];
    assert FieldOf(hs[i], v) == Concat(FieldOf(blocks[i], v), v);
  }

  /** Adding a highlight never creates a second block of one colour, so after
    * any number of additions every colour has at most one block, and the
    * colour added has exactly one. */
  lemma AddHighlightKeepsColorsUnique(d: Layout.Data, color: string, v: Values)
    requires UniqueColors(OrEmpty(d.highlights))
    ensures var hs := AddHighlight(d, color, v).highlights.value;
      UniqueColors(hs) && exists i :: 0 <= i < |hs| && hs[i].color == color
  {
    var blocks := OrEmpty(d.highlights);
    var hs := AddHighlight(d, color, v).highlights.value;
    match FindColor(blocks, color)
    case None =>
      assert hs == blocks + [NewBlock(color, v)];
      assert hs[|blocks|].color == color;
    case Some(i) =>
      assert hs == blocks[i := Extend(blocks[i], v)];
      assert forall j :: 0 <= j < |hs| ==> hs[j].color == blocks[j].color;
  }

  // ---------------------------------------------------------------------------
  // The selection state machine

  /** A `data` message from the worker: the board data, the present's colour,
    * the phantom boards (absent is empty) and the checks drawn on them. */
  datatype DataMessage = DataMessage(
    data: Layout.Data,
    presentC: bool,
    phantom: seq<Layout.BoardEntry>,
    phantomChecks: seq<Layout.Arrow>)

  /** The generated-move highlight: each target on the present's colour. */
  function TargetSquares(moves: seq<MoveTarget>, c: bool): (r: seq<Layout.Square>)
    ensures |r| == |moves|
    ensures forall i :: 0 <= i < |r| ==> r[i] == Layout.Square(moves[i].l, moves[i].t, c, moves[i].x, moves[i].y)
  {
    seq(|moves|, i requires 0 <= i < |moves| => Layout.Square(moves[i].l, moves[i].t, c, moves[i].x, moves[i].y))
  }

  /** The phantom-board highlight: each phantom board on the other colour. */
  function PhantomRefs(phantom: seq<Layout.BoardEntry>, c: bool): (r: seq<Layout.BoardRef>)
    ensures |r| == |phantom|
    ensures forall i :: 0 <= i < |r| ==> r[i] == Layout.BoardRef(phantom[i].l, phantom[i].t, c)
  {
    seq(|phantom|, i requires 0 <= i < |phantom| => Layout.BoardRef(phantom[i].l, phantom[i].t, c))
  }

  /** The check arrows: both ends moved onto the other colour. */
  function RecolorArrows(arrows: seq<Layout.Arrow>, c: bool): (r: seq<Layout.Arrow>)
    ensures |r| == |arrows|
    ensures forall i :: 0 <= i < |r| ==> r[i] == Layout.Arrow(arrows[i].from.(c := c), arrows[i].to.(c := c))
  {
    seq(|arrows|, i requires 0 <= i < |arrows| => Layout.Arrow(arrows[i].from.(c := c), arrows[i].to.(c := c)))
  }

  /** The data shown for a `data` message: the generated-move highlight, and
    * with phantoms shown, the phantom boards, their highlight, the check
    * arrows and a fade of one half. */
  function Shown(msg: DataMessage, moves: seq<MoveTarget>, showPhantom: bool): Layout.Data
  {
    var c := msg.presentC;
    var d := AddHighlight(msg.data, "--highlight-generated-move", Squares(TargetSquares(moves, c)));
    if |msg.phantom| > 0 && showPhantom then
      var d1 := AddHighlight(d, "--highlight-phantom-board", Boards(PhantomRefs(msg.phantom, !c)));
      var d2 := d1.(boards := d1.boards + msg.phantom);
      AddHighlight(d2, "--highlight-check", Arrows(RecolorArrows(msg.phantomChecks, !c))).(fade := Some(0.5))
    else d
  }

  /** The page's selection state; `presentC` is `None` until the first
    * `data` message. */
  class Page {
    var clicking: bool
    var clickedPos: Option<Layout.Square>
    var generatedMoves: seq<MoveTarget>
    var presentC: Option<bool>
    var showPhantom: bool
    var hudLight: bool
    var outbox: seq<Request>
    var canvas: Layout.ChessBoardCanvas

    ghost predicate Valid()
      reads this, canvas
    {
      canvas.Valid()
    }

    constructor (canvas: Layout.ChessBoardCanvas)
      requires canvas.Valid()
      ensures Valid() && this.canvas == canvas
      ensures !clicking && clickedPos.None? && generatedMoves == [] && presentC.None?
      ensures showPhantom && !hudLight && outbox == []
    {
      clicking := false;
      clickedPos := None;
      generatedMoves := [];
      presentC := None;
      showPhantom := true;
      hudLight := false;
      outbox := [];
      this.canvas := canvas;
    }

    /** `deselect`: drops the selection and the generated moves and asks the
      * worker for a fresh view. */
    method Deselect()
      modifies this
      ensures clickedPos.None? && generatedMoves == []
      ensures outbox == old(outbox) + [View]
      ensures clicking == old(clicking) && presentC == old(presentC) && canvas == old(canvas)
      ensures showPhantom == old(showPhantom) && hudLight == old(hudLight)
    {
      clickedPos := None;
      generatedMoves := [];
      outbox := outbox + [View];
    }

    /** `handle_click`: ignored while a move request is outstanding; a square
      * of the other colour only drops an existing selection; a second click
      * on a generated target applies the move, any other second click
      * deselects; a first click selects and asks for the piece's moves. */
    method HandleClick(pos: Layout.Square)
      modifies this
      ensures old(clicking) ==> (outbox == old(outbox) && clickedPos == old(clickedPos)
        && generatedMoves == old(generatedMoves) && clicking)
      ensures !old(clicking) && Some(pos.c) != presentC ==>
        !clicking && clickedPos.None?
        && (old(clickedPos).Some? ==> (generatedMoves == [] && outbox == old(outbox) + [View]))
        && (old(clickedPos).None? ==> (generatedMoves == old(generatedMoves) && outbox == old(outbox)))
      ensures !old(clicking) && Some(pos.c) == presentC && old(clickedPos).Some? ==>
        !clicking && clickedPos.None? && generatedMoves == []
        && outbox == old(outbox) + [if IsTarget(old(generatedMoves), pos)
                                    then ApplyMove(old(clickedPos).value, pos) else View]
      ensures !old(clicking) && Some(pos.c) == presentC && old(clickedPos).None? ==>
        clicking && clickedPos == Some(pos) && generatedMoves == old(generatedMoves)
        && outbox == old(outbox) + [GenMoveIfPlayable(pos)]
      ensures presentC == old(presentC) && canvas == old(canvas)
      ensures showPhantom == old(showPhantom) && hudLight == old(hudLight)
    {
      if clicking {
        return;
      }
      if Some(pos.c) != presentC {
        if clickedPos.Some? {
          Deselect();
        }
        return;
      }
      if clickedPos.Some? {
        var from := clickedPos.value;
        clickedPos := None;
        if IsTarget(generatedMoves, pos) {
          outbox := outbox + [ApplyMove(from, pos)];
          generatedMoves := [];
        } else {
          Deselect();
        }
      } else {
        clicking := true;
        outbox := outbox + [GenMoveIfPlayable(pos)];
        clickedPos := Some(pos);
      }
    }

    /** A `moves` message: the moves are stored; an empty list drops the
      * selection and ends the request, a non-empty one asks for a view that
      * shows them (the request stays outstanding until the `data` reply). */
    method OnMoves(moves: seq<MoveTarget>)
      modifies this
      ensures generatedMoves == moves
      ensures moves == [] ==> clickedPos.None? && !clicking && outbox == old(outbox)
      ensures moves != [] ==> (clickedPos == old(clickedPos) && clicking == old(clicking)
        && outbox == old(outbox) + [View])
      ensures presentC == old(presentC) && canvas == old(canvas)
      ensures showPhantom == old(showPhantom) && hudLight == old(hudLight)
    {
      generatedMoves := moves;
      if |moves| == 0 {
        clickedPos := None;
        clicking := false;
      } else {
        outbox := outbox + [View];
      }
    }

    /** A `data` message: records the present's colour, hands the data with
      * its extra highlights to the canvas and ends any outstanding request.
      * The HUD light shows whether there are phantoms. */
    method OnData(msg: DataMessage)
      requires Valid()
      requires msg.data.size.Some? ==> msg.data.size.value.x >= 1 && msg.data.size.value.y >= 1
      modifies this, canvas
      ensures Valid() && canvas == old(canvas)
      ensures presentC == Some(msg.presentC) && !clicking
      ensures canvas.data == Some(Shown(msg, old(generatedMoves), old(showPhantom)))
      ensures hudLight == (|msg.phantom| > 0)
      ensures clickedPos == old(clickedPos) && generatedMoves == old(generatedMoves)
      ensures outbox == old(outbox) && showPhantom == old(showPhantom)
    {
      presentC := Some(msg.presentC);
      var shown := Shown(msg, generatedMoves, showPhantom);
      ShownKeepsSizeAndFocus(msg, generatedMoves, showPhantom);
      hudLight := |msg.phantom| > 0;
      canvas.SetData(shown);
      clicking := false;
    }
  }

  /** The size check of `setData` sees the message's own size: the highlight
    * merge never touches it. */
  lemma ShownKeepsSizeAndFocus(msg: DataMessage, moves: seq<MoveTarget>, showPhantom: bool)
    ensures Shown(msg, moves, showPhantom).size == msg.data.size
    ensures Shown(msg, moves, showPhantom).focus == msg.data.focus
    ensures Shown(msg, moves, showPhantom).boards
         == msg.data.boards + (if |msg.phantom| > 0 && showPhantom then msg.phantom else [])
    ensures Shown(msg, moves, showPhantom).fade
         == if |msg.phantom| > 0 && showPhantom then Some(0.5) else msg.data.fade
  {
    var c := msg.presentC;
    var d := AddHighlight(msg.data, "--highlight-generated-move", Squares(TargetSquares(moves, c)));
    AddHighlightKeepsRest(msg.data, "--highlight-generated-move", Squares(TargetSquares(moves, c)));
    if |msg.phantom| > 0 && showPhantom {
      var d1 := AddHighlight(d, "--highlight-phantom-board", Boards(PhantomRefs(msg.phantom, !c)));
      AddHighlightKeepsRest(d, "--highlight-phantom-board", Boards(PhantomRefs(msg.phantom, !c)));
      var d2 := d1.(boards := d1.boards + msg.phantom);
      AddHighlightKeepsRest(d2, "--highlight-check", Arrows(RecolorArrows(msg.phantomChecks, !c)));
    } else {
      assert msg.data.boards + [] == msg.data.boards;
    }
  }
}
