/** The game tree (`gnode`): every node owns its children, keeps the action
  * that leads to it from its parent, an annotation, and a state that is
  * either stored or computed on demand from the parent's state and cached.
  *
  * A node is a value here: owning `unique_ptr`s make a tree of values, and
  * the parent link of a node is the node reached by dropping the last
  * step of its path from the root. */
module GameTree {
  import Seqs
  import opened Wrappers
  import Action
  import Turn
  import Text

  /** An action as the tree stores and compares it: its moves, in order. */
  type Act = seq<Action.ExtMove>

  datatype Node<S, T> = Node(s: Option<S>, act: Act, info: T, children: seq<Node<S, T>>)

  /** Child indices from the root down to a node; `[]` is the root, the one
    * node whose parent is null. */
  type Path = seq<nat>

  /** `create_root`: a stored state, the empty action and no children. */
  function CreateRoot<S, T>(s: S, info: T): Node<S, T>
  {
    Node(Some(s), [], info, [])
  }

  /** `create_child`: a node for `act`, with or without a state of its own. */
  function CreateChild<S, T>(s: Option<S>, act: Act, info: T): Node<S, T>
  {
    Node(s, act, info, [])
  }

  // ---------------------------------------------------------------------------
  // Paths

  predicate ValidPath<S, T>(t: Node<S, T>, p: Path)
    decreases |p|
  {
    p == [] || (p[0] < |t.children| && ValidPath(t.children[p[0]], p[1..]))
  }

  function At<S, T>(t: Node<S, T>, p: Path): Node<S, T>
    requires ValidPath(t, p)
    decreases |p|
  {
    if p == [] then t else At(t.children[p[0]], p[1..])
  }

  function Parent(p: Path): Path
    requires p != []
  {
    p[..|p| - 1]
  }

  /** The parent of a node on a valid path is on a valid path, and the node
    * is the parent's child at the last index of the path. */
  lemma {:induction false} AtParent<S, T>(t: Node<S, T>, p: Path)
    requires ValidPath(t, p) && p != []
    ensures ValidPath(t, Parent(p))
    ensures p[|p| - 1] < |At(t, Parent(p)).children|
    ensures At(t, p) == At(t, Parent(p)).children[p[|p| - 1]]
    decreases |p|
  {
    if |p| > 1 {
      AtParent(t.children[p[0]], p[1..]);
      assert p[1..][..|p[1..]| - 1] == Parent(p)[1..];
    }
  }

  /** One step down from a node on a valid path. */
  lemma {:induction false} AtChild<S, T>(t: Node<S, T>, p: Path, i: nat)
    requires ValidPath(t, p) && i < |At(t, p).children|
    ensures ValidPath(t, p + [i]) && At(t, p + [i]) == At(t, p).children[i]
    decreases |p|
  {
    if p != [] {
      assert (p + [i])[1..] == p[1..] + [i];
      AtChild(t.children[p[0]], p[1..], i);
    }
  }

  // ---------------------------------------------------------------------------
  // get_state

  function RootMessage(): string
  {
    "gnode::get_state(): Root gnode has no state"
  }

  /** The source dereferences the empty optional `can_apply` returns when
    * the action does not apply to the parent's state; this is that case. */
  function RefusedMessage(): string
  {
    "gnode::get_state(): action does not apply to the parent's state"
  }

  /** A node without a state of its own: its parent's state with its
    * action applied, or the parent's error. */
  function Derive<S>(parent: Result<S>, apply: (S, Act) -> Option<S>, act: Act): Result<S>
  {
    match parent
    case Err(e) => Err(e)
    case Ok(ps) => if apply(ps, act).Some? then Ok(apply(ps, act).value) else Err(RefusedMessage())
  }

  /** What `get_state` returns for the node at `p`: its stored state, or the
    * parent's state with the node's action applied (`apply` is the state's
    * `can_apply(action)`); a root without a state is an error. */
  function StateAt<S, T>(apply: (S, Act) -> Option<S>, t: Node<S, T>, p: Path): Result<S>
    requires ValidPath(t, p)
    decreases |p|
  {
    var n := At(t, p);
    if n.s.Some? then Ok(n.s.value)
    else if p == [] then Err(RootMessage())
    else
      AtParent(t, p);
      Derive(StateAt(apply, t, Parent(p)), apply, n.act)
  }

  /** The tree without its states: what caching may not change. */
  function Erase<S, T>(t: Node<S, T>): Node<S, T>
  {
    Node(None, t.act, t.info, seq(|t.children|, i requires 0 <= i < |t.children| => Erase(t.children[i])))
  }

  /** Both trees have the same nodes, and every node has the same state in
    * both. */
  ghost predicate SameStates<S, T>(apply: (S, Act) -> Option<S>, a: Node<S, T>, b: Node<S, T>)
  {
    Erase(a) == Erase(b)
    && forall q :: ValidPath(a, q) ==> ValidPath(b, q) && StateAt(apply, b, q) == StateAt(apply, a, q)
  }

  /** Stores `v` as the state of the node at `p` (the assignment `s = ...`). */
  function SetState<S, T>(t: Node<S, T>, p: Path, v: S): Node<S, T>
    requires ValidPath(t, p)
    decreases |p|
  {
    if p == [] then t.(s := Some(v))
    else t.(children := t.children[p[0] := SetState(t.children[p[0]], p[1..], v)])
  }

  lemma {:induction false} SetStateErase<S, T>(t: Node<S, T>, p: Path, v: S)
    requires ValidPath(t, p)
    ensures Erase(SetState(t, p, v)) == Erase(t)
    decreases |p|
  {
    if p != [] {
      SetStateErase(t.children[p[0]], p[1..], v);
      assert Erase(SetState(t, p, v)).children == Erase(t).children;
    }
  }

  /** Every path of `t` is a path of the tree with a state set, leading to a
    * node with the same action, and the same state except at `p`. */
  lemma {:induction false} SetStateAt<S, T>(t: Node<S, T>, p: Path, v: S, q: Path)
    requires ValidPath(t, p) && ValidPath(t, q)
    ensures ValidPath(SetState(t, p, v), q)
    ensures At(SetState(t, p, v), q).act == At(t, q).act
    ensures At(SetState(t, p, v), q).s == if q == p then Some(v) else At(t, q).s
    decreases |q|
  {
    if q != [] && p != [] {
      if q[0] != p[0] {
        assert q != p;
      } else {
        SetStateAt(t.children[p[0]], p[1..], v, q[1..]);
        if q[1..] == p[1..] {
          assert q == p[..1] + p[1..];
        } else {
          assert q != p;
        }
      }
    }
  }

  /** Caching a node's own state changes no node's state. */
  lemma {:induction false} SetStatePreserves<S, T>(apply: (S, Act) -> Option<S>, t: Node<S, T>, p: Path, v: S, q: Path)
    requires ValidPath(t, p) && StateAt(apply, t, p) == Ok(v) && ValidPath(t, q)
    ensures ValidPath(SetState(t, p, v), q)
    ensures StateAt(apply, SetState(t, p, v), q) == StateAt(apply, t, q)
    decreases |q|
  {
    var t' := SetState(t, p, v);
    SetStateAt(t, p, v, q);
    if q != p && At(t, q).s.None? && q != [] {
      AtParent(t, q);
      SetStatePreserves(apply, t, p, v, Parent(q));
    }
  }

  /** `get_state`: returns the stored state, or computes it from the
    * parent's (itself computed and cached first), stores it and returns it.
    * The result is what `StateAt` says, the node keeps the state it was
    * given, and caching changes no node's answer. */
  method GetState<S, T>(apply: (S, Act) -> Option<S>, t: Node<S, T>, p: Path) returns (r: Result<S>, t': Node<S, T>)
    requires ValidPath(t, p)
    ensures r == StateAt(apply, t, p)
    ensures SameStates(apply, t, t')
    ensures r.Ok? ==> ValidPath(t', p) && At(t', p).s == Some(r.value)
    decreases |p|
  {
    var n := At(t, p);
    if n.s.Some? {
      SameStatesRefl(apply, t);
      return Ok(n.s.value), t;
    }
    if p == [] {
      SameStatesRefl(apply, t);
      return Err(RootMessage()), t;
    }
    AtParent(t, p);
    var pr, t1 := GetState(apply, t, Parent(p));
    if pr.Err? {
      return Err(pr.error), t1;
    }
    var s := apply(pr.value, n.act);
    if s.None? {
      return Err(RefusedMessage()), t1;
    }
    r := Ok(s.value);
    assert StateAt(apply, t1, p) == r;
    t' := SetState(t1, p, s.value);
    SetStateErase(t1, p, s.value);
    forall q | ValidPath(t, q)
      ensures ValidPath(t', q) && StateAt(apply, t', q) == StateAt(apply, t, q)
    {
      SetStatePreserves(apply, t1, p, s.value, q);
    }
    SetStateAt(t1, p, s.value, p);
  }

  lemma SameStatesRefl<S, T>(apply: (S, Act) -> Option<S>, t: Node<S, T>)
    ensures SameStates(apply, t, t)
  {
  }

  // ---------------------------------------------------------------------------
  // add_child

  /** Growing a tree: every node of `a` is in `b` with the same state,
    * action and annotation, and possibly more children after its own. */
  ghost predicate Extends<S, T>(a: Node<S, T>, b: Node<S, T>)
  {
    a.s == b.s && a.act == b.act && a.info == b.info && |a.children| <= |b.children|
    && forall i :: 0 <= i < |a.children| ==> Extends(a.children[i], b.children[i])
  }

  lemma {:induction false} ExtendsRefl<S, T>(a: Node<S, T>)
    ensures Extends(a, a)
  {
    forall i | 0 <= i < |a.children| {
      ExtendsRefl(a.children[i]);
    }
  }

  lemma {:induction false} ExtendsAt<S, T>(a: Node<S, T>, b: Node<S, T>, q: Path)
    requires Extends(a, b) && ValidPath(a, q)
    ensures ValidPath(b, q) && Extends(At(a, q), At(b, q))
    decreases |q|
  {
    if q != [] {
      ExtendsAt(a.children[q[0]], b.children[q[0]], q[1..]);
    }
  }

  /** A grown tree gives every old node the state it had. */
  lemma {:induction false} ExtendsStates<S, T>(apply: (S, Act) -> Option<S>, a: Node<S, T>, b: Node<S, T>, q: Path)
    requires Extends(a, b) && ValidPath(a, q)
    ensures ValidPath(b, q) && StateAt(apply, b, q) == StateAt(apply, a, q)
    decreases |q|
  {
    ExtendsAt(a, b, q);
    if q != [] && At(a, q).s.None? {
      AtParent(a, q);
      ExtendsStates(apply, a, b, Parent(q));
    }
  }

  /** `add_child` on the node at `p`: the child goes after its siblings. */
  function Graft<S, T>(t: Node<S, T>, p: Path, c: Node<S, T>): Node<S, T>
    requires ValidPath(t, p)
    decreases |p|
  {
    if p == [] then t.(children := t.children + [c])
    else t.(children := t.children[p[0] := Graft(t.children[p[0]], p[1..], c)])
  }

  /** After `add_child` the returned child is the last child of the node at
    * `p`, its earlier children are untouched, and the old tree is kept
    * whole. */
  lemma {:induction false} GraftEffect<S, T>(t: Node<S, T>, p: Path, c: Node<S, T>)
    requires ValidPath(t, p)
    ensures ValidPath(Graft(t, p, c), p)
    ensures At(Graft(t, p, c), p).children == At(t, p).children + [c]
    ensures Extends(t, Graft(t, p, c))
    decreases |p|
  {
    if p == [] {
      forall i | 0 <= i < |t.children| {
        ExtendsRefl(t.children[i]);
      }
    } else {
      GraftEffect(t.children[p[0]], p[1..], c);
      forall i | 0 <= i < |t.children| && i != p[0] {
        ExtendsRefl(t.children[i]);
      }
    }
  }

  /** A child created without a state and added under `p` has the state of
    * the node at `p` with the child's action applied. */
  lemma NewChildState<S, T>(apply: (S, Act) -> Option<S>, t: Node<S, T>, p: Path, act: Act, info: T)
    requires ValidPath(t, p)
    ensures var k := |At(t, p).children|;
      var g := Graft(t, p, CreateChild(None, act, info));
      && ValidPath(g, p + [k])
      && StateAt(apply, g, p + [k]) == Derive(StateAt(apply, t, p), apply, act)
  {
    var k := |At(t, p).children|;
    var c := CreateChild(None, act, info);
    var g := Graft(t, p, c);
    GraftEffect(t, p, c);
    assert At(g, p).children[k] == c;
    ChildStateAt(apply, g, p, k);
    ExtendsStates(apply, t, g, p);
  }

  /** A child without a stored state has its parent's state with its own
    * action applied. */
  lemma ChildStateAt<S, T>(apply: (S, Act) -> Option<S>, g: Node<S, T>, p: Path, k: nat)
    requires ValidPath(g, p) && k < |At(g, p).children| && At(g, p).children[k].s.None?
    ensures ValidPath(g, p + [k])
    ensures StateAt(apply, g, p + [k]) == Derive(StateAt(apply, g, p), apply, At(g, p).children[k].act)
  {
    AtChild(g, p, k);
    AtParent(g, p + [k]);
    assert Parent(p + [k]) == p;
  }

  /** Adding a child changes no existing node's state. */
  lemma GraftKeepsStates<S, T>(apply: (S, Act) -> Option<S>, t: Node<S, T>, p: Path, c: Node<S, T>)
    requires ValidPath(t, p)
    ensures forall q :: ValidPath(t, q) ==>
      ValidPath(Graft(t, p, c), q) && StateAt(apply, Graft(t, p, c), q) == StateAt(apply, t, q)
  {
    GraftEffect(t, p, c);
    forall q | ValidPath(t, q)
      ensures ValidPath(Graft(t, p, c), q) && StateAt(apply, Graft(t, p, c), q) == StateAt(apply, t, q)
    {
      ExtendsStates(apply, t, Graft(t, p, c), q);
    }
  }

  // ---------------------------------------------------------------------------
  // find_child and clone

  /** The first of `children` from `i` on whose action is `a`. */
  function FirstWith<S, T>(children: seq<Node<S, T>>, a: Act, i: nat): (r: Option<nat>)
    requires i <= |children|
    ensures r.Some? ==>
      && i <= r.value < |children| && children[r.value].act == a
      && forall j :: i <= j < r.value ==> children[j].act != a
    ensures r.None? ==> forall j :: i <= j < |children| ==> children[j].act != a
    decreases |children| - i
  {
    if i == |children| then None
    else if children[i].act == a then Some(i)
    else FirstWith(children, a, i + 1)
  }

  /** `find_child`: the index of the first child whose action equals `a`,
    * or `None` for `nullptr`. */
  method FindChild<S, T>(n: Node<S, T>, a: Act) returns (r: Option<nat>)
    ensures r == FirstWith(n.children, a, 0)
  {
    var i := 0;
    while i < |n.children|
      invariant i <= |n.children|
      invariant FirstWith(n.children, a, 0) == FirstWith(n.children, a, i)
    {
      if n.children[i].act == a {
        return Some(i);
      }
      i := i + 1;
    }
    return None;
  }

  /** `clone`: copies the node and, one by one, its children. The copy is the
    * same tree; a copied child's parent is the copy it is reached from. */
  method Clone<S, T>(n: Node<S, T>) returns (r: Node<S, T>)
    ensures r == n
    decreases n
  {
    var kids: seq<Node<S, T>> := [];
    for i := 0 to |n.children|
      invariant kids == n.children[..i]
    {
      var c := Clone(n.children[i]);
      kids := kids + [c];
    }
    r := Node(n.s, n.act, n.info, kids);
  }

  // ---------------------------------------------------------------------------
  // to_string

  /** The turn before a move: the number and colour in full, or only `/`
    * for black and the number for white. */
  function TurnText(start: Turn.Turn, full: bool): string
  {
    if full then Text.IntToString(start.0) + [if start.1 then 'b' else 'w'] + ". "
    else if start.1 then "/ "
    else Text.IntToString(start.0) + ". "
  }

  /** What a node prints before its children. `moveText(p)` is the parent's
    * `pretty_action` of the node's action and `show` the annotation's text. */
  function Head<S, T>(n: Node<S, T>, p: Path, moveText: Path -> string, show: T -> string, start: Turn.Turn, full: bool): string
  {
    if p == [] then show(n.info) + "\n"
    else TurnText(start, full) + moveText(p) + " " + show(n.info) + (if start.1 && |n.children| > 0 then "\n" else "")
  }

  /** The turn the children are printed from. */
  function ChildTurn(p: Path, start: Turn.Turn): Turn.Turn
  {
    if p == [] then start else Turn.NextTurn(start)
  }

  /** `to_string` of the node at `p`. */
  function Show<S, T>(n: Node<S, T>, p: Path, moveText: Path -> string, show: T -> string, start: Turn.Turn, full: bool): string
    decreases n, 1, 0
  {
    Head(n, p, moveText, show, start, full) + Variations(n, p, moveText, show, ChildTurn(p, start), 0)
  }

  /** The children from `i` on: each but the last in parentheses with a full
    * turn display, then the last, in full only when there are several. */
  function Variations<S, T>(n: Node<S, T>, p: Path, moveText: Path -> string, show: T -> string, st: Turn.Turn, i: nat): string
    decreases n, 0, |n.children| - i
  {
    var k := |n.children|;
    if i >= k then ""
    else if i + 1 < k then "(" + Show(n.children[i], p + [i], moveText, show, st, true) + ")\n" + Variations(n, p, moveText, show, st, i + 1)
    else Show(n.children[i], p + [i], moveText, show, st, k > 1)
  }


  /** `to_string`: writes the node's own line, then its children. */
  method ToString<S, T>(n: Node<S, T>, p: Path, moveText: Path -> string, show: T -> string, start: Turn.Turn, full: bool)
    returns (oss: string)
    ensures oss == Show(n, p, moveText, show, start, full)
    decreases n, 1
  {
    oss := Head(n, p, moveText, show, start, full);
    var rest := WriteChildren(n, p, moveText, show, ChildTurn(p, start));
    oss := oss + rest;
  }

  /** One parenthesised variation written: the rest still to write starts
    * one child later. */
  lemma VariationsNext<S, T>(n: Node<S, T>, p: Path, moveText: Path -> string, show: T -> string, st: Turn.Turn,
                             i: nat, out: string, sub: string)
    requires i + 1 < |n.children|
    requires sub == Show(n.children[i], p + [i], moveText, show, st, true)
    requires out + Variations(n, p, moveText, show, st, i) == Variations(n, p, moveText, show, st, 0)
    ensures (out + ("(" + sub + ")\n")) + Variations(n, p, moveText, show, st, i + 1)
         == Variations(n, p, moveText, show, st, 0)
  {
    Seqs.Assoc(out, "(" + sub + ")\n", Variations(n, p, moveText, show, st, i + 1));
  }

  /** The last child written: nothing is left to write. */
  lemma VariationsLast<S, T>(n: Node<S, T>, p: Path, moveText: Path -> string, show: T -> string, st: Turn.Turn,
                             out: string, sub: string)
    requires 0 < |n.children|
    requires sub == Show(n.children[|n.children| - 1], p + [|n.children| - 1], moveText, show, st, |n.children| > 1)
    requires out + Variations(n, p, moveText, show, st, |n.children| - 1) == Variations(n, p, moveText, show, st, 0)
    ensures out + sub == Variations(n, p, moveText, show, st, 0)
  {
  }

  /** The children of `to_string`: every child but the last as a
    * parenthesised variation, then the last child. */
  method WriteChildren<S, T>(n: Node<S, T>, p: Path, moveText: Path -> string, show: T -> string, st: Turn.Turn)
    returns (out: string)
    ensures out == Variations(n, p, moveText, show, st, 0)
    decreases n, 0
  {
    var k := |n.children|;
    out := "";
    assert out + Variations(n, p, moveText, show, st, 0) == Variations(n, p, moveText, show, st, 0);
    var i := 0;
    if k > 1 {
      while i + 1 < k
        invariant i <= k - 1
        invariant out + Variations(n, p, moveText, show, st, i) == Variations(n, p, moveText, show, st, 0)
      {
        var sub := ToString(n.children[i], p + [i], moveText, show, st, true);
        VariationsNext(n, p, moveText, show, st, i, out, sub);
        out := out + ("(" + sub + ")\n");
        i := i + 1;
      }
    }
    if k > 0 {
      var sub := ToString(n.children[k - 1], p + [k - 1], moveText, show, st, k > 1);
      VariationsLast(n, p, moveText, show, st, out, sub);
      out := out + sub;
    }
  }

  /** No node has more than one child. */
  predicate Linear<S, T>(n: Node<S, T>)
  {
    |n.children| <= 1 && forall i :: 0 <= i < |n.children| ==> Linear(n.children[i])
  }

  /** Move and annotation texts that contain no opening parenthesis. */
  ghost predicate Plain<T(!new)>(moveText: Path -> string, show: T -> string)
  {
    (forall q :: '(' !in moveText(q)) && (forall x :: '(' !in show(x))
  }

  lemma NoParenInInt(v: int)
    ensures '(' !in Text.IntToString(v)
  {
  }

  lemma HeadPlain<S, T(!new)>(n: Node<S, T>, p: Path, moveText: Path -> string, show: T -> string, start: Turn.Turn, full: bool)
    requires Plain(moveText, show)
    ensures '(' !in Head(n, p, moveText, show, start, full)
  {
    NoParenInInt(start.0);
  }

  /** With plain move texts, the printed tree holds a parenthesis exactly
    * when some node has more than one child, i.e. when there is a
    * variation. */
  lemma {:induction false} VariationsParenthesised<S, T(!new)>(n: Node<S, T>, p: Path, moveText: Path -> string, show: T -> string, start: Turn.Turn, full: bool)
    requires Plain(moveText, show)
    ensures '(' in Show(n, p, moveText, show, start, full) <==> !Linear(n)
    decreases n, 1, 0
  {
    HeadPlain(n, p, moveText, show, start, full);
    VariationsFrom(n, p, moveText, show, ChildTurn(p, start), 0);
  }

  lemma {:induction false} VariationsFrom<S, T(!new)>(n: Node<S, T>, p: Path, moveText: Path -> string, show: T -> string, st: Turn.Turn, i: nat)
    requires Plain(moveText, show)
    ensures '(' in Variations(n, p, moveText, show, st, i) <==>
      i + 1 < |n.children| || exists j :: i <= j < |n.children| && !Linear(n.children[j])
    decreases n, 0, |n.children| - i
  {
    var k := |n.children|;
    if i + 1 < k {
      VariationsOpen(n, p, moveText, show, st, i);
    } else if i + 1 == k {
      VariationsParenthesised(n.children[i], p + [i], moveText, show, st, k > 1);
      VariationsOfLast(n, p, moveText, show, st, i);
      LastNonLinear(n, i);
    } else {
      assert Variations(n, p, moveText, show, st, i) == "";
    }
  }

  /** Before the last child, what is written opens a parenthesis. */
  lemma VariationsOpen<S, T>(n: Node<S, T>, p: Path, moveText: Path -> string, show: T -> string, st: Turn.Turn, i: nat)
    requires i + 1 < |n.children|
    ensures '(' in Variations(n, p, moveText, show, st, i)
  {
    var v := Variations(n, p, moveText, show, st, i);
    assert v == "(" + Show(n.children[i], p + [i], moveText, show, st, true) + ")\n" + Variations(n, p, moveText, show, st, i + 1);
    assert v[0] == '(';
  }

  /** At the last child, what is written is that child's text. */
  lemma VariationsOfLast<S, T>(n: Node<S, T>, p: Path, moveText: Path -> string, show: T -> string, st: Turn.Turn, i: nat)
    requires i + 1 == |n.children|
    ensures Variations(n, p, moveText, show, st, i) == Show(n.children[i], p + [i], moveText, show, st, |n.children| > 1)
  {
  }

  /** The only child from the last one on is the last one. */
  lemma LastNonLinear<S, T>(n: Node<S, T>, i: nat)
    requires i + 1 == |n.children|
    ensures (exists j :: i <= j < |n.children| && !Linear(n.children[j])) <==> !Linear(n.children[i])
  {
    if !Linear(n.children[i]) {
      assert i <= i < |n.children| && !Linear(n.children[i]);
    }
  }
}
