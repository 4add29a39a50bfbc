/** The game (`game`): a game tree, the node being viewed, and the undo/redo
  * history of the moves made on that node's state since it was reached.
  *
  * The history `cached` starts with the node's state and no move; every
  * later entry is the state after one more move. `now` points at the entry
  * being shown. Submitting turns the moves into an action and moves to the
  * child for that action. */
module Game {
  import opened Wrappers
  import Action
  import Text
  import GT = GameTree

  type Comments = seq<string>

  /** The state operations the game uses: the state's `can_apply` of one
    * move and `can_submit`, its `can_apply` of a whole action (what the tree
    * computes a child's state with), and `action::from_vector`. */
  datatype Ops<!S> = Ops(
    applyMove: (S, Action.ExtMove) -> Option<S>,
    canSubmit: S -> Option<S>,
    applyAction: (S, GT.Act) -> Option<S>,
    fromVector: (S, seq<Action.ExtMove>) -> GT.Act)

  /** An entry of `cached`: a state and the move that produced it. */
  datatype Entry<S> = Entry(state: S, move: Option<Action.ExtMove>)

  datatype History<S> = History(cached: seq<Entry<S>>, now: nat)

  /** The history `fresh` makes: the node's state alone. */
  function Start<S>(s: S): History<S>
  {
    History([Entry(s, None)], 0)
  }

  /** `now` points into the history, the first entry has no move, and every
    * other entry is its predecessor's state after its move. */
  ghost predicate Chained<S>(h: History<S>, applyMove: (S, Action.ExtMove) -> Option<S>)
  {
    && h.now < |h.cached|
    && h.cached[0].move.None?
    && forall i :: 0 < i < |h.cached| ==>
         h.cached[i].move.Some? && applyMove(h.cached[i - 1].state, h.cached[i].move.value) == Some(h.cached[i].state)
  }

  predicate Undoable<S>(h: History<S>)
  {
    h.now != 0
  }

  predicate Redoable<S>(h: History<S>)
  {
    h.now + 1 != |h.cached|
  }

  /** `undo`: one entry back when there is one. */
  function StepBack<S>(h: History<S>): History<S>
  {
    if Undoable(h) then h.(now := h.now - 1) else h
  }

  /** `redo`: one entry on when there is one. */
  function StepForward<S>(h: History<S>): History<S>
  {
    if Redoable(h) then h.(now := h.now + 1) else h
  }

  /** `apply_move`: when the shown state takes the move, the entries after
    * it are dropped and the new state is appended and shown. */
  function Advance<S>(h: History<S>, m: Action.ExtMove, applyMove: (S, Action.ExtMove) -> Option<S>): Option<History<S>>
    requires h.now < |h.cached|
  {
    match applyMove(h.cached[h.now].state, m)
    case None => None
    case Some(s) => Some(History(h.cached[..h.now + 1] + [Entry(s, Some(m))], h.now + 1))
  }

  /** The moves of the entries that have one, in order. */
  function Moves<S>(es: seq<Entry<S>>): seq<Action.ExtMove>
  {
    if es == [] then []
    else Moves(es[..|es| - 1]) + (if es[|es| - 1].move.Some? then [es[|es| - 1].move.value] else [])
  }

  /** The moves applied one after another; `None` once one is refused. */
  function Replay<S>(s: S, ms: seq<Action.ExtMove>, applyMove: (S, Action.ExtMove) -> Option<S>): Option<S>
  {
    if ms == [] then Some(s)
    else
      match Replay(s, ms[..|ms| - 1], applyMove)
      case None => None
      case Some(s') => applyMove(s', ms[|ms| - 1])
  }

  /** Undo and redo each reverse the other, and both keep the history
    * chained. */
  lemma UndoRedo<S>(h: History<S>, applyMove: (S, Action.ExtMove) -> Option<S>)
    requires Chained(h, applyMove)
    ensures Chained(StepBack(h), applyMove) && Chained(StepForward(h), applyMove)
    ensures Undoable(h) ==> Redoable(StepBack(h)) && StepForward(StepBack(h)) == h
    ensures Redoable(h) ==> Undoable(StepForward(h)) && StepBack(StepForward(h)) == h
    ensures StepBack(h).cached == h.cached && StepForward(h).cached == h.cached
  {
  }

  /** Every entry's state is the first state with the moves up to that entry
    * replayed. */
  lemma {:induction false} ChainReplay<S>(h: History<S>, applyMove: (S, Action.ExtMove) -> Option<S>, i: nat)
    requires Chained(h, applyMove) && i < |h.cached|
    ensures Replay(h.cached[0].state, Moves(h.cached[..i + 1]), applyMove) == Some(h.cached[i].state)
  {
    var es := h.cached[..i + 1];
    if i == 0 {
      assert es[..0] == [];
    } else {
      assert es[..|es| - 1] == h.cached[..i];
      ChainReplay(h, applyMove, i - 1);
      var ms := Moves(h.cached[..i]);
      assert Moves(es) == ms + [h.cached[i].move.value];
      assert (ms + [h.cached[i].move.value])[..|ms|] == ms;
    }
  }

  /** A move that is taken leaves the history chained, drops the redo
    * entries, shows the new state with nothing left to redo, and adds the
    * move after the moves up to the old shown state. */
  lemma ApplyMoveEffect<S>(h: History<S>, m: Action.ExtMove, applyMove: (S, Action.ExtMove) -> Option<S>)
    requires Chained(h, applyMove)
    ensures Advance(h, m, applyMove).Some? <==> applyMove(h.cached[h.now].state, m).Some?
    ensures Advance(h, m, applyMove).Some? ==>
      var h' := Advance(h, m, applyMove).value;
      && Chained(h', applyMove)
      && !Redoable(h') && Undoable(h')
      && h'.cached[h'.now].state == applyMove(h.cached[h.now].state, m).value
      && h'.cached[..h.now + 1] == h.cached[..h.now + 1] && h'.cached[0] == h.cached[0]
      && Moves(h'.cached) == Moves(h.cached[..h.now + 1]) + [m]
  {
    if applyMove(h.cached[h.now].state, m).Some? {
      var s := applyMove(h.cached[h.now].state, m).value;
      AdvanceChained(h, m, applyMove, s);
      AdvanceMoves(h.cached[..h.now + 1], Entry(s, Some(m)));
    }
  }

  /** The history with the shown prefix kept and one taken move appended is
    * chained. */
  lemma AdvanceChained<S>(h: History<S>, m: Action.ExtMove, applyMove: (S, Action.ExtMove) -> Option<S>, s: S)
    requires Chained(h, applyMove) && applyMove(h.cached[h.now].state, m) == Some(s)
    ensures Chained(History(h.cached[..h.now + 1] + [Entry(s, Some(m))], h.now + 1), applyMove)
  {
    var c := h.cached[..h.now + 1] + [Entry(s, Some(m))];
    forall i | 0 < i < |c|
      ensures c[i].move.Some? && applyMove(c[i - 1].state, c[i].move.value) == Some(c[i].state)
    {
      if i <= h.now {
        assert c[i] == h.cached[i] && c[i - 1] == h.cached[i - 1];
      } else {
        assert c[i - 1] == h.cached[h.now];
      }
    }
  }

  /** Appending an entry with a move appends that move. */
  lemma AdvanceMoves<S>(es: seq<Entry<S>>, e: Entry<S>)
    requires e.move.Some?
    ensures Moves(es + [e]) == Moves(es) + [e.move.value]
  {
    assert (es + [e])[..|es|] == es;
  }

  // ---------------------------------------------------------------------------
  // submit

  /** The moves `submit` collects as written: those of every cached entry,
    * including the entries after `now` that were undone. */
  function SubmittedMovesAsWritten<S>(h: History<S>): seq<Action.ExtMove>
  {
    Moves(h.cached)
  }

  /** The moves that lead to the shown state: those up to `now`. */
  function SubmittedMoves<S>(h: History<S>): seq<Action.ExtMove>
    requires h.now < |h.cached|
  {
    Moves(h.cached[..h.now + 1])
  }

  /** The submitted moves are exactly the ones that lead from the node's
    * state to the shown state, whose `can_submit` was checked. */
  lemma SubmittedMovesReachShown<S>(h: History<S>, applyMove: (S, Action.ExtMove) -> Option<S>)
    requires Chained(h, applyMove)
    ensures Replay(h.cached[0].state, SubmittedMoves(h), applyMove) == Some(h.cached[h.now].state)
  {
    ChainReplay(h, applyMove, h.now);
  }

  /** Two moves made, one undone: as written, `submit` hands on both moves,
    * although only the first leads to the shown state it checked. */
  lemma SubmitAsWrittenTakesUndone(m1: Action.ExtMove, m2: Action.ExtMove)
    ensures var step := (s: int, m: Action.ExtMove) => Some(s + 1);
      var h := StepBack(History([Entry(0, None), Entry(1, Some(m1)), Entry(2, Some(m2))], 2));
      && Chained(h, step) && h.now == 1
      && SubmittedMovesAsWritten(h) == [m1, m2]
      && Replay(0, SubmittedMovesAsWritten(h), step) != Some(h.cached[h.now].state)
      && SubmittedMoves(h) == [m1]
  {
    var step := (s: int, m: Action.ExtMove) => Some(s + 1);
    var es := [Entry(0, None), Entry(1, Some(m1)), Entry(2, Some(m2))];
    assert es[..2][..1] == [Entry(0, None)];
    assert es[..2] == [Entry(0, None), Entry(1, Some(m1))];
    assert es[..1][..0] == [];
    assert Moves(es[..1]) == [];
    assert Moves(es[..2]) == [m1];
    assert Moves(es) == [m1, m2];
    assert [m1, m2][..1] == [m1];
    assert [m1][..0] == [];
    assert Replay(0, [m1], step) == Some(1);
    assert Replay(0, [m1, m2], step) == Some(2);
  }

  // ---------------------------------------------------------------------------
  // visit_child

  /** Where `visit_child` goes for `act` from the node at `p`: to the first
    * child with those moves (found), or to a new last child without a
    * state. */
  function ChildStep<S>(t: GT.Node<S, Comments>, p: GT.Path, act: GT.Act): (GT.Node<S, Comments>, GT.Path, bool)
    requires GT.ValidPath(t, p)
  {
    var children := GT.At(t, p).children;
    match GT.FirstWith(children, act, 0)
    case Some(i) => (t, p + [i], true)
    case None => (GT.Graft(t, p, GT.CreateChild(None, act, [])), p + [|children|], false)
  }

  /** `visit_child` reaches a child of the node, and that child has the
    * requested moves. */
  lemma ChildStepPlace<S>(t: GT.Node<S, Comments>, p: GT.Path, act: GT.Act)
    requires GT.ValidPath(t, p)
    ensures var (t1, p1, found) := ChildStep(t, p, act);
      && GT.ValidPath(t1, p1) && p1 != [] && GT.Parent(p1) == p
      && GT.At(t1, p1).act == act
  {
    var children := GT.At(t, p).children;
    var f := GT.FirstWith(children, act, 0);
    if f.Some? {
      GT.AtChild(t, p, f.value);
      assert ChildStep(t, p, act) == (t, p + [f.value], true);
      assert GT.Parent(p + [f.value]) == p;
    } else {
      var c := GT.CreateChild(None, act, []);
      var g := GT.Graft(t, p, c);
      GT.GraftEffect(t, p, c);
      GT.AtChild(g, p, |children|);
      assert ChildStep(t, p, act) == (g, p + [|children|], false);
      assert GT.Parent(p + [|children|]) == p;
    }
  }

  /** An existing child is visited exactly when one has the requested
    * moves, and then the tree is unchanged. */
  lemma ChildStepFound<S>(t: GT.Node<S, Comments>, p: GT.Path, act: GT.Act)
    requires GT.ValidPath(t, p)
    ensures var (t1, p1, found) := ChildStep(t, p, act);
      && (found <==> exists i :: 0 <= i < |GT.At(t, p).children| && GT.At(t, p).children[i].act == act)
      && (found ==> t1 == t)
  {
  }

  /** Every node that existed keeps its state, whether a child is added or
    * not. */
  lemma ChildStepStates<S>(apply: (S, GT.Act) -> Option<S>, t: GT.Node<S, Comments>, p: GT.Path, act: GT.Act)
    requires GT.ValidPath(t, p)
    ensures var (t1, p1, found) := ChildStep(t, p, act);
      forall q :: GT.ValidPath(t, q) ==> GT.ValidPath(t1, q) && GT.StateAt(apply, t1, q) == GT.StateAt(apply, t, q)
  {
    if GT.FirstWith(GT.At(t, p).children, act, 0).None? {
      GT.GraftKeepsStates(apply, t, p, GT.CreateChild(None, act, []));
    }
  }

  /** Visiting the same moves again from the same node finds the child the
    * first visit reached and adds nothing. */
  lemma ChildStepAgain<S>(t: GT.Node<S, Comments>, p: GT.Path, act: GT.Act)
    requires GT.ValidPath(t, p)
    ensures var (t1, p1, found) := ChildStep(t, p, act);
      GT.ValidPath(t1, p) && ChildStep(t1, p, act) == (t1, p1, true)
  {
    var children := GT.At(t, p).children;
    if GT.FirstWith(children, act, 0).None? {
      var t1 := GT.Graft(t, p, GT.CreateChild(None, act, []));
      GT.GraftEffect(t, p, GT.CreateChild(None, act, []));
      var r := GT.FirstWith(GT.At(t1, p).children, act, 0);
      assert GT.At(t1, p).children[|children|].act == act;
      assert forall j :: 0 <= j < |children| ==> GT.At(t1, p).children[j] == children[j];
    }
  }

  // ---------------------------------------------------------------------------
  // show_comments

  function Braced(comments: seq<string>): seq<string>
  {
    seq(|comments|, i requires 0 <= i < |comments| => "{" + comments[i] + "}")
  }

  /** `show_comments`: each comment in braces, one space between
    * neighbours. */
  method ShowComments(comments: seq<string>) returns (result: string)
    ensures result == Text.Join(Braced(comments), " ")
  {
    result := "";
    var first := true;
    for i := 0 to |comments|
      invariant first <==> i == 0
      invariant result == Text.Join(Braced(comments[..i]), " ")
    {
      assert Braced(comments[..i + 1]) == Braced(comments[..i]) + ["{" + comments[i] + "}"];
      if !first {
        Text.JoinSnoc(Braced(comments[..i]), "{" + comments[i] + "}", " ");
        result := result + " ";
      } else {
        assert Braced(comments[..i + 1]) == ["{" + comments[i] + "}"];
      }
      result := result + ("{" + comments[i] + "}");
      first := false;
    }
    assert comments[..|comments|] == comments;
  }

  // ---------------------------------------------------------------------------
  // The game's invariant and the outcome of a visit

  /** The current node exists, the history is chained, and it starts at the
    * state cached in the current node (which `fresh` put there). */
  ghost predicate Consistent<S>(ops: Ops<S>, t: GT.Node<S, Comments>, p: GT.Path, h: History<S>)
  {
    && GT.ValidPath(t, p)
    && Chained(h, ops.applyMove)
    && GT.At(t, p).s == Some(h.cached[0].state)
  }

  /** The history starts at what `get_state` gives for the current node. */
  lemma ConsistentState<S>(ops: Ops<S>, t: GT.Node<S, Comments>, p: GT.Path, h: History<S>)
    requires Consistent(ops, t, p, h)
    ensures GT.StateAt(ops.applyAction, t, p) == Ok(h.cached[0].state)
  {
  }

  /** The state on show. */
  function Shown<S>(h: History<S>): S
    requires h.now < |h.cached|
  {
    h.cached[h.now].state
  }

  /** The action `submit` builds from the history (as corrected: the moves
    * up to the shown entry). */
  function SubmitAction<S>(ops: Ops<S>, h: History<S>): GT.Act
    requires h.now < |h.cached|
  {
    ops.fromVector(h.cached[0].state, SubmittedMoves(h))
  }

  /** `submit` returns true once the visit is made, and passes on what
    * `get_state` throws during it. */
  function Submitted(v: Result<bool>): Result<bool>
  {
    if v.Ok? then Ok(true) else v
  }

  /** What `visit_child` returns: whether the child existed, or the error
    * `get_state` throws for it. */
  function VisitResult<S>(ops: Ops<S>, t0: GT.Node<S, Comments>, p0: GT.Path, act: GT.Act): Result<bool>
    requires GT.ValidPath(t0, p0)
  {
    ChildStepPlace(t0, p0, act);
    var (t1, p1, found) := ChildStep(t0, p0, act);
    match GT.StateAt(ops.applyAction, t1, p1)
    case Ok(_) => Ok(found)
    case Err(e) => Err(e)
  }

  /** The game after `visit_child` from the node at `p0`: at the node
    * `ChildStep` picks, in a tree that differs from the one `ChildStep`
    * gives only by cached states, with the history restarted at the node's
    * state, or emptied when `get_state` throws. */
  ghost predicate Visited<S>(ops: Ops<S>, t0: GT.Node<S, Comments>, p0: GT.Path, act: GT.Act,
                             t: GT.Node<S, Comments>, p: GT.Path, h: History<S>)
    requires GT.ValidPath(t0, p0)
  {
    ChildStepPlace(t0, p0, act);
    var (t1, p1, found) := ChildStep(t0, p0, act);
    && p == p1 && GT.SameStates(ops.applyAction, t1, t)
    && match GT.StateAt(ops.applyAction, t1, p1)
       case Ok(s) => Consistent(ops, t, p, h) && h == Start(s)
       case Err(_) => h.cached == [] && h.now == 0
  }

  // ---------------------------------------------------------------------------
  // The game object

  class Game<S> {
    const ops: Ops<S>
    var tree: GT.Node<S, Comments>
    var current: GT.Path
    var cached: seq<Entry<S>>
    var now: nat

    function Hist(): History<S>
      reads this
    {
      History(cached, now)
    }

    ghost predicate Valid()
      reads this
    {
      Consistent(ops, tree, current, Hist())
    }

    /** The constructor: the root is current and its state the only entry. */
    constructor (o: Ops<S>, gt: GT.Node<S, Comments>)
      requires gt.s.Some?
      ensures Valid() && ops == o && tree == gt && current == [] && Hist() == Start(gt.s.value)
    {
      ops := o;
      tree := gt;
      current := [];
      cached := [Entry(gt.s.value, None)];
      now := 0;
    }

    /** `fresh`: the history restarts from the current node's state, which
      * `get_state` computes and caches; when that throws, the history is
      * left empty. */
    method Fresh() returns (r: Result<S>)
      requires GT.ValidPath(tree, current)
      modifies this
      ensures current == old(current)
      ensures GT.SameStates(ops.applyAction, old(tree), tree)
      ensures r == GT.StateAt(ops.applyAction, old(tree), current)
      ensures r.Ok? ==> Valid() && Hist() == Start(r.value)
      ensures r.Err? ==> cached == [] && now == 0
    {
      var t;
      r, t := GT.GetState(ops.applyAction, tree, current);
      tree := t;
      if r.Ok? {
        cached := [Entry(r.value, None)];
      } else {
        cached := [];
      }
      now := 0;
    }

    method CanUndo() returns (b: bool)
      requires Valid()
      ensures b == Undoable(Hist())
    {
      b := now != 0;
    }

    method CanRedo() returns (b: bool)
      requires Valid()
      ensures b == Redoable(Hist())
    {
      b := now + 1 != |cached|;
    }

    method Undo() returns (flag: bool)
      requires Valid()
      modifies this
      ensures Valid() && flag == Undoable(old(Hist())) && Hist() == StepBack(old(Hist()))
      ensures tree == old(tree) && current == old(current)
    {
      UndoRedo(Hist(), ops.applyMove);
      flag := now != 0;
      if flag {
        now := now - 1;
      }
    }

    method Redo() returns (flag: bool)
      requires Valid()
      modifies this
      ensures Valid() && flag == Redoable(old(Hist())) && Hist() == StepForward(old(Hist()))
      ensures tree == old(tree) && current == old(current)
    {
      UndoRedo(Hist(), ops.applyMove);
      flag := now + 1 != |cached|;
      if flag {
        now := now + 1;
      }
    }

    method ApplyMove(m: Action.ExtMove) returns (ok: bool)
      requires Valid()
      modifies this
      ensures Valid() && tree == old(tree) && current == old(current)
      ensures ok == Advance(old(Hist()), m, ops.applyMove).Some?
      ensures Hist() == if ok then Advance(old(Hist()), m, ops.applyMove).value else old(Hist())
    {
      var h := Hist();
      var next := Advance(h, m, ops.applyMove);
      ok := next.Some?;
      if ok {
        ApplyMoveEffect(h, m, ops.applyMove);
        cached := next.value.cached;
        now := next.value.now;
      }
    }

    method CanSubmit() returns (b: bool)
      requires Valid()
      ensures b == ops.canSubmit(cached[now].state).Some?
    {
      b := ops.canSubmit(cached[now].state).Some?;
    }

    /** `visit_child`: to the first child with the action's moves, or to a
      * new child without a state; either way the history restarts there.
      * Returns whether the child existed, or the error `get_state` throws. */
    method VisitChild(act: GT.Act) returns (r: Result<bool>)
      requires GT.ValidPath(tree, current)
      modifies this
      ensures r == VisitResult(ops, old(tree), old(current), act)
      ensures Visited(ops, old(tree), old(current), act, tree, current, Hist())
    {
      var found := ToChild(act);
      var s := Fresh();
      r := if s.Ok? then Ok(found) else Err(s.error);
    }

    /** The first half of `visit_child`: the child found or added. */
    method ToChild(act: GT.Act) returns (found: bool)
      requires GT.ValidPath(tree, current)
      modifies this
      ensures (tree, current, found) == ChildStep(old(tree), old(current), act)
      ensures GT.ValidPath(tree, current)
      ensures cached == old(cached) && now == old(now)
    {
      ChildStepPlace(tree, current, act);
      var i := GT.FindChild(GT.At(tree, current), act);
      found := i.Some?;
      if found {
        current := current + [i.value];
      } else {
        var k := |GT.At(tree, current).children|;
        tree := GT.Graft(tree, current, GT.CreateChild(None, act, []));
        current := current + [k];
      }
    }

    /** `submit`: refused unless the shown state can submit; otherwise the
      * moves leading to the shown state become an action (ordered by
      * `from_vector` against the node's state) and the game visits that
      * child. */
    method Submit() returns (r: Result<bool>)
      requires Valid()
      modifies this
      ensures var h := old(Hist());
        if ops.canSubmit(Shown(h)).None? then
          r == Ok(false) && tree == old(tree) && current == old(current) && Hist() == h
        else
          && r == Submitted(VisitResult(ops, old(tree), old(current), SubmitAction(ops, h)))
          && Visited(ops, old(tree), old(current), SubmitAction(ops, h), tree, current, Hist())
    {
      ghost var h := Hist();
      var ans := ops.canSubmit(cached[now].state);
      if ans.None? {
        return Ok(false);
      }
      var mvs := CollectMoves(cached, now);
      var act := ops.fromVector(cached[0].state, mvs);
      assert act == SubmitAction(ops, h);
      var v := VisitChild(act);
      r := Submitted(v);
    }

    /** `visit_parent`: nothing at the root; otherwise the parent becomes
      * current and the history restarts there. */
    method VisitParent() returns (r: Result<S>)
      requires Valid()
      modifies this
      ensures old(current) == [] ==>
        && r == Ok(old(cached[0].state)) && Valid()
        && tree == old(tree) && current == old(current) && Hist() == old(Hist())
      ensures old(current) != [] ==>
        && current == GT.Parent(old(current)) && GT.ValidPath(old(tree), current)
        && GT.SameStates(ops.applyAction, old(tree), tree)
        && r == GT.StateAt(ops.applyAction, old(tree), current)
        && (r.Ok? ==> Valid() && Hist() == Start(r.value))
    {
      if current == [] {
        return Ok(cached[0].state);
      }
      GT.AtParent(tree, current);
      current := GT.Parent(current);
      r := Fresh();
    }
  }

  /** The loop of `submit` over the history, stopping at the shown entry. */
  method CollectMoves<S>(cached: seq<Entry<S>>, now: nat) returns (mvs: seq<Action.ExtMove>)
    requires now < |cached|
    ensures mvs == Moves(cached[..now + 1])
  {
    mvs := [];
    for i := 0 to now + 1
      invariant mvs == Moves(cached[..i])
    {
      assert cached[..i + 1][..i] == cached[..i];
      if cached[i].move.Some? {
        mvs := mvs + [cached[i].move.value];
      }
    }
  }
}
