/** The hypercuboid search for legal actions (`hypercuboid.cpp`).
  * Every playable line, and every possible new line, is an axis; the
  * coordinates of an axis are the semimoves that may be played there, with
  * the null move at coordinate 0. A point picks one semimove per axis. The
  * search takes points out of a worklist of hypercuboids, asks three tests
  * for a problem, removes the problem's slice or, for a sound point, yields
  * its action and removes the point.
  * Boards, the check tests, `take_point` and the hypercuboid geometry are
  * parameters here. */
module Hypercuboid {
  import opened Wrappers
  import MB = MultiverseBase
  import Action

  type Vec4 = MB.Vec4
  type FullMove = Action.FullMove

  /** A `semimove`, without the board it leaves behind. `Arriving` keeps the
    * coordinate of its departing semimove in `idx` (-1 until filled in). */
  datatype Semimove =
    | Physical(m: FullMove)
    | Arriving(m: FullMove, idx: int)
    | Departing(from: Vec4)
    | Null(tl: Vec4)

  /** `extract_tl`: the `(t, l)` of the board a semimove is played on. */
  function ExtractTl(loc: Semimove): (int, int)
  {
    match loc
    case Physical(m) => (m.from.t, m.from.l)
    case Arriving(m, _) => (m.to.t, m.to.l)
    case Departing(p) => (p.t, p.l)
    case Null(p) => (p.t, p.l)
  }

  // ---------------------------------------------------------------------------
  // get_move_path

  function Signum(v: int): int { if v > 0 then 1 else if v < 0 then -1 else 0 }
  function Abs(v: int): nat { if v < 0 then -v else v }

  function Plus(a: Vec4, b: Vec4): Vec4 { MB.Vec4(a.x + b.x, a.y + b.y, a.t + b.t, a.l + b.l) }
  function Minus(a: Vec4, b: Vec4): Vec4 { MB.Vec4(a.x - b.x, a.y - b.y, a.t - b.t, a.l - b.l) }
  function Times(k: int, a: Vec4): Vec4 { MB.Vec4(k * a.x, k * a.y, k * a.t, k * a.l) }

  /** The componentwise signum: the unit step of a sliding move. */
  function Dir(d: Vec4): Vec4 { MB.Vec4(Signum(d.x), Signum(d.y), Signum(d.t), Signum(d.l)) }

  /** The largest absolute component: the number of steps of a sliding move. */
  function Steps(d: Vec4): nat { MB.Max(MB.Max(Abs(d.x), Abs(d.y)), MB.Max(Abs(d.t), Abs(d.l))) }

  /** The number of nonzero components of `d`. */
  function Axes(d: Vec4): int
  {
    (if d.x != 0 then 1 else 0) + (if d.y != 0 then 1 else 0)
    + (if d.t != 0 then 1 else 0) + (if d.l != 0 then 1 else 0)
  }

  /** The move's debug assertions: `from != to` and every nonzero component of
    * the displacement has the same absolute value. */
  predicate Slides(d: Vec4)
  {
    d != MB.Vec4(0, 0, 0, 0)
    && (d.x == 0 || Abs(d.x) == Steps(d)) && (d.y == 0 || Abs(d.y) == Steps(d))
    && (d.t == 0 || Abs(d.t) == Steps(d)) && (d.l == 0 || Abs(d.l) == Steps(d))
  }

  /** The squares `p + c`, `p + 2c`, ..., `p + k*c`. */
  function Walk(p: Vec4, c: Vec4, k: nat): (r: seq<Vec4>)
  {
    seq(k, i requires 0 <= i < k => Plus(p, Times(i + 1, c)))
  }

  /** `k` unit steps cover a sliding displacement exactly when `k` is its
    * number of steps. */
  lemma StepsCover(d: Vec4, k: nat)
    requires Slides(d)
    ensures Times(k, Dir(d)) == d <==> k == Steps(d)
  {
    var n := Steps(d);
    if k == n {
      assert d.x != 0 ==> k * Signum(d.x) == d.x;
      assert d.y != 0 ==> k * Signum(d.y) == d.y;
      assert d.t != 0 ==> k * Signum(d.t) == d.t;
      assert d.l != 0 ==> k * Signum(d.l) == d.l;
    } else if d.x != 0 {
      assert k * Signum(d.x) != d.x;
    } else if d.y != 0 {
      assert k * Signum(d.y) != d.y;
    } else if d.t != 0 {
      assert k * Signum(d.t) != d.t;
    } else {
      assert k * Signum(d.l) != d.l;
    }
  }

  /** `get_move_path`: for a sliding piece, the squares strictly between the
    * two ends of the move and the kind of slide (1 rook, 2 bishop, 3 unicorn,
    * 4 dragon); for any other piece, no path and kind 0. `sliding` stands for
    * the board's sliding mask at the moving piece. */
  method GetMovePath(fm: FullMove, sliding: bool) returns (path: seq<Vec4>, slidingType: int)
    requires sliding ==> Slides(Minus(fm.to, fm.from))
    ensures !sliding ==> path == [] && slidingType == 0
    ensures sliding ==> 1 <= slidingType <= 4 && slidingType == Axes(Minus(fm.to, fm.from))
    ensures sliding ==> path == Walk(fm.from, Dir(Minus(fm.to, fm.from)), Steps(Minus(fm.to, fm.from)) - 1)
  {
    var p, q := fm.from, fm.to;
    var d := Minus(q, p);
    if !sliding {
      return [], 0;
    }
    var c := Dir(d);
    slidingType := Dot(c, c);
    DirSquares(d);
    path := Between(p, q);
  }

  /** The stepping loop of `get_move_path`: `p + c`, `p + 2c`, ... up to,
    * and without, `q`. */
  method Between(p: Vec4, q: Vec4) returns (path: seq<Vec4>)
    requires Slides(Minus(q, p))
    ensures path == Walk(p, Dir(Minus(q, p)), Steps(Minus(q, p)) - 1)
  {
    var d := Minus(q, p);
    var c := Dir(d);
    var n := Steps(d);
    path := [];
    var r := Plus(p, c);
    StepsCover(d, 1);
    NextStep(p, c, 0);
    while r != q
      invariant |path| < n
      invariant r == Plus(p, Times(|path| + 1, c))
      invariant path == Walk(p, c, |path|)
      decreases n - |path|
    {
      StepsCover(d, |path| + 1);
      NextStep(p, c, |path| + 1);
      WalkSnoc(p, c, |path|);
      path := path + [r];
      r := Plus(r, c);
    }
    StepsCover(d, |path| + 1);
  }

  lemma WalkSnoc(p: Vec4, c: Vec4, k: nat)
    ensures Walk(p, c, k + 1) == Walk(p, c, k) + [Plus(p, Times(k + 1, c))]
  {
  }

  /** One more unit step from `p + k*c` is `p + (k+1)*c`. */
  lemma NextStep(p: Vec4, c: Vec4, k: int)
    ensures Plus(Plus(p, Times(k, c)), c) == Plus(p, Times(k + 1, c))
    ensures Times(0, c) == MB.Vec4(0, 0, 0, 0)
  {
    assert (k + 1) * c.x == k * c.x + c.x;
    assert (k + 1) * c.y == k * c.y + c.y;
    assert (k + 1) * c.t == k * c.t + c.t;
    assert (k + 1) * c.l == k * c.l + c.l;
  }

  /** The dot product of the unit step with itself counts the moving axes. */
  function Dot(a: Vec4, b: Vec4): int { a.x * b.x + a.y * b.y + a.t * b.t + a.l * b.l }

  lemma DirSquares(d: Vec4)
    ensures Dot(Dir(d), Dir(d)) == Axes(d)
  {
  }

  /** The path of a sliding move lies strictly between its ends, never repeats
    * a square, and one more step from its last square reaches the target. */
  lemma WalkBetween(p: Vec4, q: Vec4)
    requires Slides(Minus(q, p))
    ensures var path := Walk(p, Dir(Minus(q, p)), Steps(Minus(q, p)) - 1);
      && (forall i :: 0 <= i < |path| ==> path[i] != p && path[i] != q)
      && (forall i, j :: 0 <= i < j < |path| ==> path[i] != path[j])
      && Plus(p, Times(|path| + 1, Dir(Minus(q, p)))) == q
  {
    var d := Minus(q, p);
    var c := Dir(d);
    var path := Walk(p, c, Steps(d) - 1);
    StepsCover(d, Steps(d));
    forall i | 0 <= i < |path|
      ensures path[i] != p && path[i] != q
    {
      StepsCover(d, i + 1);
      assert c != MB.Vec4(0, 0, 0, 0);
    }
    forall i, j | 0 <= i < j < |path|
      ensures path[i] != path[j]
    {
      if c.x != 0 { assert (i + 1) * c.x != (j + 1) * c.x; }
      else if c.y != 0 { assert (i + 1) * c.y != (j + 1) * c.y; }
      else if c.t != 0 { assert (i + 1) * c.t != (j + 1) * c.t; }
      else { assert (i + 1) * c.l != (j + 1) * c.l; }
    }
  }

  // ---------------------------------------------------------------------------
  // find_problem and search

  /** The abstract pieces of the search: `takePoint` (which may shrink the
    * hypercuboid it is given), the three tests that `find_problem` chains,
    * `remove_slice` and `remove_point` (each gives the remaining pieces),
    * `to_action`, and a point count used only to show the search ends. */
  datatype SearchOps<!H, !P, !L, A> = SearchOps(
    takePoint: H -> (H, Option<P>),
    jumpOrder: (P, H) -> Option<L>,
    present: (P, H) -> Option<L>,
    checks: (P, H) -> Option<L>,
    removeSlice: (H, L) -> seq<H>,
    removePoint: (H, P) -> seq<H>,
    toAction: P -> A,
    size: H -> nat)

  /** `find_problem`: the problem reported by `jump_order_consistent`, else by
    * `test_present`, else by `find_checks`. */
  function FindProblem<H, P, L, A>(o: SearchOps<H, P, L, A>, pt: P, hc: H): (r: Option<L>)
    ensures r.None? <==> o.jumpOrder(pt, hc).None? && o.present(pt, hc).None? && o.checks(pt, hc).None?
    ensures o.jumpOrder(pt, hc).Some? ==> r == o.jumpOrder(pt, hc)
    ensures o.jumpOrder(pt, hc).None? && o.present(pt, hc).Some? ==> r == o.present(pt, hc)
    ensures o.jumpOrder(pt, hc).None? && o.present(pt, hc).None? ==> r == o.checks(pt, hc)
  {
    match o.jumpOrder(pt, hc)
    case Some(s) => Some(s)
    case None =>
      match o.present(pt, hc)
      case Some(s) => Some(s)
      case None => o.checks(pt, hc)
  }

  /** The number of points left in a worklist. */
  function Total<H>(size: H -> nat, w: seq<H>): nat
  {
    if w == [] then 0 else Total(size, w[..|w| - 1]) + size(w[|w| - 1])
  }

  lemma {:induction false} TotalAppend<H>(size: H -> nat, a: seq<H>, b: seq<H>)
    ensures Total(size, a + b) == Total(size, a) + Total(size, b)
    decreases |b|
  {
    if b == [] {
      assert a + b == a;
    } else {
      assert (a + b)[..|a + b| - 1] == a + b[..|b| - 1];
      TotalAppend(size, a, b[..|b| - 1]);
    }
  }

  /** Why the search ends: removing the point taken from a hypercuboid, or the
    * slice of the problem found at it, leaves fewer points than it had. */
  ghost predicate Shrinks<H(!new), P, L, A>(o: SearchOps<H, P, L, A>)
  {
    forall h: H :: o.takePoint(h).1.Some? ==>
      var h', pt := o.takePoint(h).0, o.takePoint(h).1.value;
      match FindProblem(o, pt, h')
      case Some(s) => Total(o.size, o.removeSlice(h', s)) < o.size(h)
      case None => Total(o.size, o.removePoint(h', pt)) < o.size(h)
  }

  /** The actions `search` yields from the worklist `w`, whose last hypercuboid
    * is taken first and whose remaining pieces are appended at the end. */
  function Yields<H(!new), P, L, A>(o: SearchOps<H, P, L, A>, w: seq<H>): seq<A>
    requires Shrinks(o)
    decreases Total(o.size, w), |w|
  {
    if w == [] then []
    else
      var rest := w[..|w| - 1];
      var h := w[|w| - 1];
      assert w == rest + [h];
      TotalAppend(o.size, rest, [h]);
      assert Total(o.size, [h]) == o.size(h) by { assert [h][..0] == []; }
      var (h', opt) := o.takePoint(h);
      match opt
      case None => Yields(o, rest)
      case Some(pt) =>
        match FindProblem(o, pt, h')
        case Some(s) =>
          TotalAppend(o.size, rest, o.removeSlice(h', s));
          Yields(o, rest + o.removeSlice(h', s))
        case None =>
          TotalAppend(o.size, rest, o.removePoint(h', pt));
          [o.toAction(pt)] + Yields(o, rest + o.removePoint(h', pt))
  }

  /** A point the search accepts: taken from some hypercuboid `h`, with no
    * problem found at it in what `take_point` left of `h`. */
  ghost predicate Sound<H(!new), P, L, A>(o: SearchOps<H, P, L, A>, a: A)
  {
    exists h: H :: o.takePoint(h).1.Some?
      && FindProblem(o, o.takePoint(h).1.value, o.takePoint(h).0).None?
      && a == o.toAction(o.takePoint(h).1.value)
  }

  /** `search`: the worklist loop. It stops exactly when the worklist is
    * empty, and the actions it yields are those of `Yields`. */
  method Search<H(!new), P, L, A>(o: SearchOps<H, P, L, A>, ss: seq<H>) returns (out: seq<A>)
    requires Shrinks(o)
    ensures out == Yields(o, ss)
  {
    out := [];
    var w := ss;
    while w != []
      invariant out + Yields(o, w) == Yields(o, ss)
      decreases Total(o.size, w), |w|
    {
      var h := w[|w| - 1];
      var rest := w[..|w| - 1];
      assert w == rest + [h];
      TotalAppend(o.size, rest, [h]);
      assert Total(o.size, [h]) == o.size(h) by { assert [h][..0] == []; }
      w := rest;
      var (h', opt) := o.takePoint(h);
      if opt.Some? {
        var pt := opt.value;
        var problem := FindProblem(o, pt, h');
        if problem.Some? {
          var next := o.removeSlice(h', problem.value);
          TotalAppend(o.size, w, next);
          w := w + next;
        } else {
          out := out + [o.toAction(pt)];
          var next := o.removePoint(h', pt);
          TotalAppend(o.size, w, next);
          w := w + next;
        }
      }
    }
  }

  /** Every action the search yields comes from a point with no problem. */
  lemma {:induction false} YieldsSound<H(!new), P, L, A>(o: SearchOps<H, P, L, A>, w: seq<H>)
    requires Shrinks(o)
    ensures forall i :: 0 <= i < |Yields(o, w)| ==> Sound(o, Yields(o, w)[i])
    decreases Total(o.size, w), |w|
  {
    if w != [] {
      var rest := w[..|w| - 1];
      var h := w[|w| - 1];
      assert w == rest + [h];
      TotalAppend(o.size, rest, [h]);
      assert Total(o.size, [h]) == o.size(h) by { assert [h][..0] == []; }
      var (h', opt) := o.takePoint(h);
      if opt.Some? {
        var pt := opt.value;
        match FindProblem(o, pt, h')
        case Some(s) =>
          TotalAppend(o.size, rest, o.removeSlice(h', s));
          YieldsSound(o, rest + o.removeSlice(h', s));
        case None =>
          TotalAppend(o.size, rest, o.removePoint(h', pt));
          YieldsSound(o, rest + o.removePoint(h', pt));
          assert Sound(o, o.toAction(pt));
      } else {
        YieldsSound(o, rest);
      }
    }
  }

  // ---------------------------------------------------------------------------
  // to_action

  predicate Increasing(r: seq<int>)
  {
    forall i, j :: 0 <= i < j < |r| ==> r[i] < r[j]
  }

  lemma Inhabited(s: set<int>)
    requires s != {}
    ensures exists y :: y in s
  {
    if forall y :: y !in s {
      assert false;
    }
  }

  /** Some element of a nonempty set. */
  method Member(s: set<int>) returns (y: int)
    requires s != {}
    ensures y in s
  {
    Inhabited(s);
    y :| y in s;
  }

  lemma {:induction false} MaxExists(s: set<int>)
    requires s != {}
    ensures exists m :: m in s && forall x :: x in s ==> x <= m
    decreases |s|
  {
    Inhabited(s);
    var y :| y in s;
    if s - {y} != {} {
      MaxExists(s - {y});
      var m' :| m' in s - {y} && forall x :: x in s - {y} ==> x <= m';
      var m := if y <= m' then m' else y;
      forall x | x in s
        ensures x <= m
      {
        if x != y {
          assert x in s - {y};
        }
      }
      assert m in s;
    } else {
      assert forall x :: x in s ==> x == y;
    }
  }

  /** The keys of an ordered map in the order `std::map` visits them. */
  ghost function SortedKeys(s: set<int>): seq<int>
    decreases |s|
  {
    if s == {} then []
    else
      MaxExists(s);
      var m :| m in s && forall x :: x in s ==> x <= m;
      SortedKeys(s - {m}) + [m]
  }

  /** The visiting order lists every key once, in increasing order. */
  lemma {:induction false} SortedKeysSound(s: set<int>)
    ensures Increasing(SortedKeys(s))
    ensures forall x :: x in SortedKeys(s) <==> x in s
    decreases |s|
  {
    if s != {} {
      MaxExists(s);
      var m :| m in s && forall x :: x in s ==> x <= m;
      SortedKeysLast(s, m);
      SortedKeysSound(s - {m});
      var init := SortedKeys(s - {m});
      forall i | 0 <= i < |init|
        ensures init[i] < m
      {
        assert init[i] in init;
      }
      assert forall x :: x in s ==> x in s - {m} || x == m;
    }
  }

  /** The largest key is visited last. */
  lemma SortedKeysLast(s: set<int>, m: int)
    requires m in s && forall x :: x in s ==> x <= m
    ensures SortedKeys(s) == SortedKeys(s - {m}) + [m]
  {
    MaxExists(s);
    var m' :| m' in s && forall x :: x in s ==> x <= m';
    assert m' == m;
  }

  method MaxOf(s: set<int>) returns (m: int)
    requires s != {}
    ensures m in s && forall x :: x in s ==> x <= m
  {
    m := Member(s);
    var rest := s - {m};
    while rest != {}
      invariant m in s && rest <= s
      invariant forall x :: x in s && x !in rest ==> x <= m
      decreases |rest|
    {
      var y := Member(rest);
      if y > m {
        m := y;
      }
      rest := rest - {y};
    }
  }

  /** Visiting a set of lines in increasing order. */
  method AscendingKeys(s: set<int>) returns (r: seq<int>)
    ensures r == SortedKeys(s)
    ensures forall i :: 0 <= i < |r| ==> r[i] in s
  {
    r := [];
    var rest := s;
    while rest != {}
      invariant rest <= s
      invariant SortedKeys(rest) + r == SortedKeys(s)
      decreases |rest|
    {
      var m := MaxOf(rest);
      SortedKeysLast(rest, m);
      assert SortedKeys(rest - {m}) + ([m] + r) == SortedKeys(s);
      r := [m] + r;
      rest := rest - {m};
    }
    SortedKeysSound(s);
  }

  /** A point lies inside the axes: it picks an existing semimove on the axis
    * of every line. */
  predicate PointIn(lineToAxis: map<int, int>, axes: seq<seq<Semimove>>, pt: seq<int>)
  {
    forall l :: l in lineToAxis ==>
      0 <= lineToAxis[l] < |axes| && lineToAxis[l] < |pt|
      && 0 <= pt[lineToAxis[l]] < |axes[lineToAxis[l]]|
  }

  /** The semimove a point plays on line `l`. */
  function Played(lineToAxis: map<int, int>, axes: seq<seq<Semimove>>, pt: seq<int>, l: int): Semimove
    requires PointIn(lineToAxis, axes, pt) && l in lineToAxis
  {
    axes[lineToAxis[l]][pt[lineToAxis[l]]]
  }

  predicate Moves(loc: Semimove) { loc.Physical? || loc.Arriving? }

  /** The moves of the physical and arriving semimoves on `lines`, in order. */
  function Picked(lineToAxis: map<int, int>, axes: seq<seq<Semimove>>, pt: seq<int>, lines: seq<int>): seq<FullMove>
    requires PointIn(lineToAxis, axes, pt) && forall i :: 0 <= i < |lines| ==> lines[i] in lineToAxis
  {
    if lines == [] then []
    else
      var loc := Played(lineToAxis, axes, pt, lines[|lines| - 1]);
      Picked(lineToAxis, axes, pt, lines[..|lines| - 1]) + (if Moves(loc) then [loc.m] else [])
  }

  function Reversed<T>(s: seq<T>): (r: seq<T>)
    ensures |r| == |s| && forall i :: 0 <= i < |s| ==> r[i] == s[|s| - 1 - i]
  {
    if s == [] then [] else [s[|s| - 1]] + Reversed(s[..|s| - 1])
  }

  /** The loop of `to_action` over the lines. */
  method PickMoves(lineToAxis: map<int, int>, axes: seq<seq<Semimove>>, pt: seq<int>, lines: seq<int>)
    returns (mvs: seq<FullMove>)
    requires PointIn(lineToAxis, axes, pt) && forall i :: 0 <= i < |lines| ==> lines[i] in lineToAxis
    ensures mvs == Picked(lineToAxis, axes, pt, lines)
  {
    mvs := [];
    for i := 0 to |lines|
      invariant mvs == Picked(lineToAxis, axes, pt, lines[..i])
    {
      var loc := Played(lineToAxis, axes, pt, lines[i]);
      assert lines[..i + 1][..i] == lines[..i];
      if loc.Physical? || loc.Arriving? {
        mvs := mvs + [loc.m];
      }
    }
    assert lines[..|lines|] == lines;
  }

  /** The action of a point: its picked moves over the lines in increasing
    * order, reversed when black moves. */
  ghost function ActionOf(lineToAxis: map<int, int>, axes: seq<seq<Semimove>>, pt: seq<int>, black: bool): seq<FullMove>
    requires PointIn(lineToAxis, axes, pt)
  {
    SortedKeysSound(lineToAxis.Keys);
    var picked := Picked(lineToAxis, axes, pt, SortedKeys(lineToAxis.Keys));
    if black then Reversed(picked) else picked
  }

  /** `to_action`: one move per line whose semimove is physical or arriving,
    * lines in increasing order, the whole list reversed when black moves. */
  method ToAction(lineToAxis: map<int, int>, axes: seq<seq<Semimove>>, pt: seq<int>, black: bool)
    returns (mvs: seq<FullMove>)
    requires PointIn(lineToAxis, axes, pt)
    ensures mvs == ActionOf(lineToAxis, axes, pt, black)
  {
    var lines := AscendingKeys(lineToAxis.Keys);
    mvs := PickMoves(lineToAxis, axes, pt, lines);
    if black {
      mvs := Reversed(mvs);
    }
  }

  /** The moves picked are exactly those of the physical and arriving
    * semimoves on the given lines, one for each. */
  lemma {:induction false} PickedMoves(lineToAxis: map<int, int>, axes: seq<seq<Semimove>>, pt: seq<int>, lines: seq<int>)
    requires PointIn(lineToAxis, axes, pt) && forall i :: 0 <= i < |lines| ==> lines[i] in lineToAxis
    ensures |Picked(lineToAxis, axes, pt, lines)| <= |lines|
    ensures forall i :: 0 <= i < |lines| && Moves(Played(lineToAxis, axes, pt, lines[i])) ==>
      Played(lineToAxis, axes, pt, lines[i]).m in Picked(lineToAxis, axes, pt, lines)
    ensures forall mv :: mv in Picked(lineToAxis, axes, pt, lines) ==>
      exists i :: (0 <= i < |lines| && Moves(Played(lineToAxis, axes, pt, lines[i]))
        && mv == Played(lineToAxis, axes, pt, lines[i]).m)
    decreases |lines|
  {
    if lines != [] {
      var init := lines[..|lines| - 1];
      PickedMoves(lineToAxis, axes, pt, init);
      forall mv | mv in Picked(lineToAxis, axes, pt, lines)
        ensures exists i :: (0 <= i < |lines| && Moves(Played(lineToAxis, axes, pt, lines[i]))
          && mv == Played(lineToAxis, axes, pt, lines[i]).m)
      {
        if mv in Picked(lineToAxis, axes, pt, init) {
          var i :| 0 <= i < |init| && Moves(Played(lineToAxis, axes, pt, init[i]))
            && mv == Played(lineToAxis, axes, pt, init[i]).m;
          assert init[i] == lines[i];
        } else {
          assert Moves(Played(lineToAxis, axes, pt, lines[|lines| - 1]));
        }
      }
      forall i | 0 <= i < |lines| && Moves(Played(lineToAxis, axes, pt, lines[i]))
        ensures Played(lineToAxis, axes, pt, lines[i]).m in Picked(lineToAxis, axes, pt, lines)
      {
        if i < |init| {
          assert init[i] == lines[i];
        }
      }
    }
  }

  /** The action of a point holds, for every line whose semimove is physical
    * or arriving, that semimove's move, and nothing else; black's order is
    * the reverse of white's. */
  lemma ActionOfMoves(lineToAxis: map<int, int>, axes: seq<seq<Semimove>>, pt: seq<int>, black: bool)
    requires PointIn(lineToAxis, axes, pt)
    ensures forall l :: l in lineToAxis && Moves(Played(lineToAxis, axes, pt, l)) ==>
      Played(lineToAxis, axes, pt, l).m in ActionOf(lineToAxis, axes, pt, black)
    ensures forall mv :: mv in ActionOf(lineToAxis, axes, pt, black) ==>
      exists l :: l in lineToAxis && Moves(Played(lineToAxis, axes, pt, l)) && mv == Played(lineToAxis, axes, pt, l).m
    ensures ActionOf(lineToAxis, axes, pt, true) == Reversed(ActionOf(lineToAxis, axes, pt, false))
  {
    SortedKeysSound(lineToAxis.Keys);
    var lines := SortedKeys(lineToAxis.Keys);
    var picked := Picked(lineToAxis, axes, pt, lines);
    PickedMoves(lineToAxis, axes, pt, lines);
    ReversedMembers(picked);
    forall l | l in lineToAxis && Moves(Played(lineToAxis, axes, pt, l))
      ensures Played(lineToAxis, axes, pt, l).m in picked
    {
      var i :| 0 <= i < |lines| && lines[i] == l;
    }
  }

  lemma ReversedMembers<T>(s: seq<T>)
    ensures forall x :: x in Reversed(s) <==> x in s
  {
    var r := Reversed(s);
    forall x | x in r
      ensures x in s
    {
      var i :| 0 <= i < |r| && r[i] == x;
      assert s[|s| - 1 - i] == x;
    }
    forall x | x in s
      ensures x in r
    {
      var i :| 0 <= i < |s| && s[i] == x;
      assert r[|s| - 1 - i] == x;
    }
  }

  // ---------------------------------------------------------------------------
  // build_HC: grouping the generated moves by line

  /** A move leaves its board when the two ends differ in `(t, l)`. */
  predicate Jumps(m: FullMove) { m.from.t != m.to.t || m.from.l != m.to.l }

  /** The movable pieces, each with its targets, in the order the move
    * generator lists them. */
  type Gen = seq<(Vec4, seq<Vec4>)>

  /** The move generator lists every movable piece once. */
  predicate GenDistinct(gen: Gen)
  {
    forall i, j :: 0 <= i < j < |gen| ==> gen[i].0 != gen[j].0
  }

  /** `operator[]` on a map of vectors read as a value: a missing key holds
    * the empty vector. */
  function Get<K, V>(m: map<K, seq<V>>, k: K): seq<V>
  {
    if k in m then m[k] else []
  }

  /** `m[k].push_back(v)`. */
  function Push<K, V>(m: map<K, seq<V>>, k: K, v: V): map<K, seq<V>>
  {
    m[k := Get(m, k) + [v]]
  }

  lemma PushGet<K, V>(m: map<K, seq<V>>, k: K, v: V, j: K)
    ensures Get(Push(m, k, v), j) == Get(m, j) + (if j == k then [v] else [])
  {
  }

  /** `stays_on`, `departs_from` and `arrives_to`. */
  datatype Groups = Groups(stays: map<int, seq<FullMove>>, departs: map<int, seq<Vec4>>, arrives: map<int, seq<FullMove>>)

  /** Some target of `from` lies on another board. */
  function HasJump(from: Vec4, tos: seq<Vec4>): bool
  {
    if tos == [] then false
    else HasJump(from, tos[..|tos| - 1]) || Jumps(Action.FullMove(from, tos[|tos| - 1]))
  }

  /** The grouping of one piece's moves: a move on its own board stays on the
    * piece's line, a jump arrives on the target's line, and the first jump
    * also records the piece as departing from its line. */
  function GroupPiece(g: Groups, from: Vec4, tos: seq<Vec4>): Groups
    decreases |tos|
  {
    if tos == [] then g
    else
      var init := tos[..|tos| - 1];
      var g' := GroupPiece(g, from, init);
      var m := Action.FullMove(from, tos[|tos| - 1]);
      if Jumps(m) then
        g'.(departs := if HasJump(from, init) then g'.departs else Push(g'.departs, from.l, from),
            arrives := Push(g'.arrives, m.to.l, m))
      else g'.(stays := Push(g'.stays, from.l, m))
  }

  function Grouped(gen: Gen): Groups
  {
    if gen == [] then Groups(map[], map[], map[])
    else GroupPiece(Grouped(gen[..|gen| - 1]), gen[|gen| - 1].0, gen[|gen| - 1].1)
  }

  /** The grouping loop of `build_HC`. */
  method Group(gen: Gen) returns (g: Groups)
    ensures g == Grouped(gen)
  {
    g := Groups(map[], map[], map[]);
    for i := 0 to |gen|
      invariant g == Grouped(gen[..i])
    {
      var (from, tos) := gen[i];
      var hasDepart := false;
      var g0 := g;
      for j := 0 to |tos|
        invariant hasDepart == HasJump(from, tos[..j])
        invariant g == GroupPiece(g0, from, tos[..j])
      {
        var m := Action.FullMove(from, tos[j]);
        assert tos[..j + 1][..j] == tos[..j];
        if m.from.t != m.to.t || m.from.l != m.to.l {
          if !hasDepart {
            g := g.(departs := Push(g.departs, from.l, from));
            hasDepart := true;
          }
          g := g.(arrives := Push(g.arrives, m.to.l, m));
        } else {
          g := g.(stays := Push(g.stays, from.l, m));
        }
      }
      assert tos[..|tos|] == tos;
      assert gen[..i + 1][..i] == gen[..i];
    }
    assert gen[..|gen|] == gen;
  }

  /** The moves of `from` to `tos` that stay on their board, if `from` is on line `l`. */
  function StaysOf(from: Vec4, tos: seq<Vec4>, l: int): seq<FullMove>
  {
    if tos == [] then []
    else
      var m := Action.FullMove(from, tos[|tos| - 1]);
      StaysOf(from, tos[..|tos| - 1], l) + (if !Jumps(m) && from.l == l then [m] else [])
  }

  /** The jumps of `from` to `tos` that land on line `l`. */
  function ArrivesOf(from: Vec4, tos: seq<Vec4>, l: int): seq<FullMove>
  {
    if tos == [] then []
    else
      var m := Action.FullMove(from, tos[|tos| - 1]);
      ArrivesOf(from, tos[..|tos| - 1], l) + (if Jumps(m) && m.to.l == l then [m] else [])
  }

  /** Every move on a board of line `l`, in generation order. */
  function StaysOn(gen: Gen, l: int): seq<FullMove>
  {
    if gen == [] then []
    else StaysOn(gen[..|gen| - 1], l) + StaysOf(gen[|gen| - 1].0, gen[|gen| - 1].1, l)
  }

  /** Every jump landing on line `l`, in generation order. */
  function ArrivesTo(gen: Gen, l: int): seq<FullMove>
  {
    if gen == [] then []
    else ArrivesTo(gen[..|gen| - 1], l) + ArrivesOf(gen[|gen| - 1].0, gen[|gen| - 1].1, l)
  }

  /** Every piece of line `l` with at least one jump, in generation order. */
  function DepartsFrom(gen: Gen, l: int): seq<Vec4>
  {
    if gen == [] then []
    else
      var (from, tos) := gen[|gen| - 1];
      DepartsFrom(gen[..|gen| - 1], l) + (if HasJump(from, tos) && from.l == l then [from] else [])
  }

  lemma {:induction false} GroupPieceStays(g: Groups, from: Vec4, tos: seq<Vec4>, l: int)
    ensures Get(GroupPiece(g, from, tos).stays, l) == Get(g.stays, l) + StaysOf(from, tos, l)
    decreases |tos|
  {
    if tos != [] {
      var init := tos[..|tos| - 1];
      GroupPieceStays(g, from, init, l);
      PushGet(GroupPiece(g, from, init).stays, from.l, Action.FullMove(from, tos[|tos| - 1]), l);
    }
  }

  lemma {:induction false} GroupPieceArrives(g: Groups, from: Vec4, tos: seq<Vec4>, l: int)
    ensures Get(GroupPiece(g, from, tos).arrives, l) == Get(g.arrives, l) + ArrivesOf(from, tos, l)
    decreases |tos|
  {
    if tos != [] {
      var init := tos[..|tos| - 1];
      GroupPieceArrives(g, from, init, l);
      var m := Action.FullMove(from, tos[|tos| - 1]);
      PushGet(GroupPiece(g, from, init).arrives, m.to.l, m, l);
    }
  }

  lemma {:induction false} GroupPieceDeparts(g: Groups, from: Vec4, tos: seq<Vec4>, l: int)
    ensures Get(GroupPiece(g, from, tos).departs, l)
      == Get(g.departs, l) + (if HasJump(from, tos) && from.l == l then [from] else [])
    ensures l in GroupPiece(g, from, tos).departs <==> l in g.departs || (HasJump(from, tos) && from.l == l)
    decreases |tos|
  {
    if tos != [] {
      var init := tos[..|tos| - 1];
      GroupPieceDeparts(g, from, init, l);
      PushGet(GroupPiece(g, from, init).departs, from.l, from, l);
    }
  }

  /** The grouping splits the generated moves by line, keeping generation
    * order: `stays_on[l]` holds the moves on boards of line `l`,
    * `arrives_to[l]` the jumps landing on `l`, `departs_from[l]` each jumping
    * piece of `l` once; no line of `departs_from` is empty. */
  lemma {:induction false} GroupedMeaning(gen: Gen, l: int)
    ensures Get(Grouped(gen).stays, l) == StaysOn(gen, l)
    ensures Get(Grouped(gen).arrives, l) == ArrivesTo(gen, l)
    ensures Get(Grouped(gen).departs, l) == DepartsFrom(gen, l)
    ensures l in Grouped(gen).departs ==> Grouped(gen).departs[l] != []
    decreases |gen|
  {
    if gen != [] {
      var init := gen[..|gen| - 1];
      var (from, tos) := gen[|gen| - 1];
      GroupedMeaning(init, l);
      GroupPieceStays(Grouped(init), from, tos, l);
      GroupPieceArrives(Grouped(init), from, tos, l);
      GroupPieceDeparts(Grouped(init), from, tos, l);
    }
  }

  /** The movable pieces, in generation order. */
  function Pieces(gen: Gen): seq<Vec4>
  {
    seq(|gen|, i requires 0 <= i < |gen| => gen[i].0)
  }

  /** The pieces departing from line `l` are movable pieces standing on line
    * `l`, and none is listed twice when the generator lists every piece once. */
  lemma {:induction false} DepartsFromLine(gen: Gen, l: int)
    requires GenDistinct(gen)
    ensures forall k :: 0 <= k < |DepartsFrom(gen, l)| ==> DepartsFrom(gen, l)[k].l == l
    ensures forall k :: 0 <= k < |DepartsFrom(gen, l)| ==> DepartsFrom(gen, l)[k] in Pieces(gen)
    ensures forall a, b :: 0 <= a < b < |DepartsFrom(gen, l)| ==> DepartsFrom(gen, l)[a] != DepartsFrom(gen, l)[b]
    decreases |gen|
  {
    if gen != [] {
      var init := gen[..|gen| - 1];
      assert GenDistinct(init) by {
        forall i, j | 0 <= i < j < |init| ensures init[i].0 != init[j].0 {
          assert init[i] == gen[i] && init[j] == gen[j];
        }
      }
      DepartsFromLine(init, l);
      var ds := DepartsFrom(gen, l);
      var di := DepartsFrom(init, l);
      assert forall i :: 0 <= i < |init| ==> Pieces(init)[i] == Pieces(gen)[i];
      forall k | 0 <= k < |ds|
        ensures ds[k] in Pieces(gen)
      {
        if k < |di| {
          var i :| 0 <= i < |init| && di[k] == Pieces(init)[i];
          assert ds[k] == Pieces(gen)[i];
        } else {
          assert ds[k] == Pieces(gen)[|gen| - 1];
        }
      }
      forall a, b | 0 <= a < b < |ds|
        ensures ds[a] != ds[b]
      {
        if b >= |di| {
          var i :| 0 <= i < |init| && di[a] == Pieces(init)[i];
          assert gen[i] == init[i];
        }
      }
    }
  }

  // ---------------------------------------------------------------------------
  // build_HC: the axes of the playable lines

  /** Whether the board left by a semimove keeps the moving side out of
    * physical check (`has_physical_check` is false there): for a move on one
    * board, for a departure, and for an arrival. */
  datatype Safe = Safe(physical: FullMove -> bool, departure: Vec4 -> bool, arrival: FullMove -> bool)

  function PhysicalLocs(ms: seq<FullMove>, safe: Safe): seq<Semimove>
  {
    if ms == [] then []
    else
      var m := ms[|ms| - 1];
      PhysicalLocs(ms[..|ms| - 1], safe) + (if safe.physical(m) then [Physical(m)] else [])
  }

  function DepartLocs(ps: seq<Vec4>, safe: Safe): seq<Semimove>
  {
    if ps == [] then []
    else
      var p := ps[|ps| - 1];
      DepartLocs(ps[..|ps| - 1], safe) + (if safe.departure(p) then [Departing(p)] else [])
  }

  /** A jump lands on the last board of its target line, on the side to move:
    * it does not branch. `lineEnd(l)` is `get_timeline_end(l)`. */
  predicate NonBranching(m: FullMove, player: bool, lineEnd: int -> (int, bool))
  {
    m.to.t == lineEnd(m.to.l).0 && player == lineEnd(m.to.l).1
  }

  function ArriveLocs(ms: seq<FullMove>, safe: Safe, player: bool, lineEnd: int -> (int, bool)): seq<Semimove>
  {
    if ms == [] then []
    else
      var m := ms[|ms| - 1];
      ArriveLocs(ms[..|ms| - 1], safe, player, lineEnd)
        + (if NonBranching(m, player, lineEnd) && safe.arrival(m) then [Arriving(m, -1)] else [])
  }

  /** The axis of playable line `l`: the null move, the safe moves staying on
    * the line, the safe departures from it, and the safe non-branching
    * arrivals on it (their departure index still -1). */
  function LineAxis(l: int, presentT: int, g: Groups, safe: Safe, player: bool, lineEnd: int -> (int, bool)): seq<Semimove>
  {
    [Null(MB.Vec4(0, 0, presentT, l))] + PhysicalLocs(Get(g.stays, l), safe)
      + DepartLocs(Get(g.departs, l), safe) + ArriveLocs(Get(g.arrives, l), safe, player, lineEnd)
  }

  /** The safe moves staying on one line, appended to `locs0`. */
  method AddPhysical(locs0: seq<Semimove>, stays: seq<FullMove>, safe: Safe) returns (locs: seq<Semimove>)
    ensures locs == locs0 + PhysicalLocs(stays, safe)
  {
    locs := locs0;
    for k := 0 to |stays|
      invariant locs == locs0 + PhysicalLocs(stays[..k], safe)
    {
      assert stays[..k + 1][..k] == stays[..k];
      if safe.physical(stays[k]) {
        locs := locs + [Physical(stays[k])];
      }
    }
    assert stays[..|stays|] == stays;
  }

  /** The safe departures from one line, appended to `locs0`, each
    * registered in `jumps` with its coordinate. */
  method AddDepartures(locs0: seq<Semimove>, departs: seq<Vec4>, safe: Safe, jumps: map<Vec4, int>)
    returns (locs: seq<Semimove>, jumps': map<Vec4, int>)
    requires forall k :: 0 <= k < |departs| ==> departs[k] !in jumps
    requires forall a, b :: 0 <= a < b < |departs| ==> departs[a] != departs[b]
    ensures locs == locs0 + DepartLocs(departs, safe)
    ensures forall p :: p in jumps' <==> p in jumps || (p in departs && safe.departure(p))
    ensures forall p :: p in jumps ==> jumps'[p] == jumps[p]
    ensures forall p :: p in jumps' && p !in jumps ==> 0 <= jumps'[p] < |locs| && locs[jumps'[p]] == Departing(p)
  {
    locs := locs0;
    jumps' := jumps;
    for k := 0 to |departs|
      invariant locs == locs0 + DepartLocs(departs[..k], safe)
      invariant forall p :: p in jumps' <==> p in jumps || (p in departs[..k] && safe.departure(p))
      invariant forall p :: p in jumps ==> jumps'[p] == jumps[p]
      invariant forall p :: p in jumps' && p !in jumps ==> 0 <= jumps'[p] < |locs| && locs[jumps'[p]] == Departing(p)
    {
      var p := departs[k];
      assert departs[..k + 1] == departs[..k] + [p];
      assert p !in departs[..k];
      assert p !in jumps';
      if safe.departure(p) {
        jumps' := jumps'[p := |locs|];
        locs := locs + [Departing(p)];
      }
    }
    assert departs[..|departs|] == departs;
  }

  /** The safe non-branching arrivals on one line, appended to `locs0`. */
  method AddArrivals(locs0: seq<Semimove>, arrives: seq<FullMove>, safe: Safe, player: bool, lineEnd: int -> (int, bool))
    returns (locs: seq<Semimove>)
    ensures locs == locs0 + ArriveLocs(arrives, safe, player, lineEnd)
  {
    locs := locs0;
    for k := 0 to |arrives|
      invariant locs == locs0 + ArriveLocs(arrives[..k], safe, player, lineEnd)
    {
      assert arrives[..k + 1][..k] == arrives[..k];
      var m := arrives[k];
      var (lastT, lastC) := lineEnd(m.to.l);
      if m.to.t == lastT && player == lastC && safe.arrival(m) {
        locs := locs + [Arriving(m, -1)];
      }
    }
    assert arrives[..|arrives|] == arrives;
  }

  /** One playable line's axis, registering each safe departure's coordinate
    * in `jumps` (`jump_indices`). No departure is registered twice. */
  method BuildLineAxis(l: int, presentT: int, g: Groups, safe: Safe, player: bool, lineEnd: int -> (int, bool), jumps: map<Vec4, int>)
    returns (locs: seq<Semimove>, jumps': map<Vec4, int>)
    requires forall k :: 0 <= k < |Get(g.departs, l)| ==> Get(g.departs, l)[k] !in jumps
    requires forall a, b :: 0 <= a < b < |Get(g.departs, l)| ==> Get(g.departs, l)[a] != Get(g.departs, l)[b]
    ensures locs == LineAxis(l, presentT, g, safe, player, lineEnd)
    ensures forall p :: p in jumps' <==> p in jumps || (p in Get(g.departs, l) && safe.departure(p))
    ensures forall p :: p in jumps ==> jumps'[p] == jumps[p]
    ensures forall p :: p in jumps' && p !in jumps ==> 0 <= jumps'[p] < |locs| && locs[jumps'[p]] == Departing(p)
  {
    var withPhysical := AddPhysical([Null(MB.Vec4(0, 0, presentT, l))], Get(g.stays, l), safe);
    var withDepartures;
    withDepartures, jumps' := AddDepartures(withPhysical, Get(g.departs, l), safe, jumps);
    locs := AddArrivals(withDepartures, Get(g.arrives, l), safe, player, lineEnd);
    assert forall i :: 0 <= i < |withDepartures| ==> locs[i] == withDepartures[i];
  }

  /** Each listed departure sits at its registered coordinate on the axis of
    * its own line. */
  ghost predicate Registered(lineToAxis: map<int, int>, axes: seq<seq<Semimove>>, jumps: map<Vec4, int>)
  {
    forall p :: p in jumps ==>
      p.l in lineToAxis && 0 <= lineToAxis[p.l] < |axes|
      && 0 <= jumps[p] < |axes[lineToAxis[p.l]]| && axes[lineToAxis[p.l]][jumps[p]] == Departing(p)
  }

  predicate Distinct(s: seq<int>)
  {
    forall a, b :: 0 <= a < b < |s| ==> s[a] != s[b]
  }

  /** The departures listed for line `l` stand on `l`, none twice. */
  lemma DepartsOnLine(gen: Gen, l: int)
    requires GenDistinct(gen)
    ensures forall k :: 0 <= k < |Get(Grouped(gen).departs, l)| ==> Get(Grouped(gen).departs, l)[k].l == l
    ensures forall a, b :: 0 <= a < b < |Get(Grouped(gen).departs, l)| ==>
      Get(Grouped(gen).departs, l)[a] != Get(Grouped(gen).departs, l)[b]
  {
    GroupedMeaning(gen, l);
    DepartsFromLine(gen, l);
  }

  /** The departures registered for line `l` stand on `l`. */
  lemma AddedOnLine(departs: seq<Vec4>, safe: Safe, jumps: map<Vec4, int>, jumps': map<Vec4, int>, l: int)
    requires forall k :: 0 <= k < |departs| ==> departs[k].l == l
    requires forall p :: p in jumps' <==> p in jumps || (p in departs && safe.departure(p))
    ensures forall p :: p in jumps' && p !in jumps ==> p.l == l
  {
    forall p | p in jumps' && p !in jumps
      ensures p.l == l
    {
      var k :| 0 <= k < |departs| && departs[k] == p;
    }
  }

  /** Adding the axis of a new line keeps every registered departure where it
    * was, and places the new ones on the new axis. */
  lemma KeepRegistered(lineToAxis: map<int, int>, axes: seq<seq<Semimove>>, jumps: map<Vec4, int>, l: int, locs: seq<Semimove>, jumps': map<Vec4, int>)
    requires Registered(lineToAxis, axes, jumps)
    requires l !in lineToAxis
    requires forall p :: p in jumps ==> p in jumps' && jumps'[p] == jumps[p]
    requires forall p :: p in jumps' && p !in jumps ==> p.l == l && 0 <= jumps'[p] < |locs| && locs[jumps'[p]] == Departing(p)
    ensures Registered(lineToAxis[l := |axes|], axes + [locs], jumps')
  {
    var lineToAxis', axes' := lineToAxis[l := |axes|], axes + [locs];
    forall p | p in jumps'
      ensures p.l in lineToAxis' && 0 <= lineToAxis'[p.l] < |axes'|
        && 0 <= jumps'[p] < |axes'[lineToAxis'[p.l]]| && axes'[lineToAxis'[p.l]][jumps'[p]] == Departing(p)
    {
      if p in jumps {
        assert p.l != l;
        assert axes'[lineToAxis[p.l]] == axes[lineToAxis[p.l]];
      } else {
        assert axes'[|axes|] == locs;
      }
    }
  }

  /** No departure of a line not yet visited is registered. */
  lemma FreshDeparts(g: Groups, seen: seq<int>, l: int, safe: Safe, jumps: map<Vec4, int>)
    requires forall k :: 0 <= k < |Get(g.departs, l)| ==> Get(g.departs, l)[k].l == l
    requires forall p :: p in jumps <==> p.l in seen && p in Get(g.departs, p.l) && safe.departure(p)
    requires l !in seen
    ensures forall k :: 0 <= k < |Get(g.departs, l)| ==> Get(g.departs, l)[k] !in jumps
  {
  }

  /** Visiting line `l` registers exactly its safe departures. */
  lemma JumpsStep(g: Groups, seen: seq<int>, l: int, safe: Safe, jumps: map<Vec4, int>, jumps': map<Vec4, int>)
    requires forall k :: 0 <= k < |Get(g.departs, l)| ==> Get(g.departs, l)[k].l == l
    requires forall p :: p in jumps <==> p.l in seen && p in Get(g.departs, p.l) && safe.departure(p)
    requires forall p :: p in jumps' <==> p in jumps || (p in Get(g.departs, l) && safe.departure(p))
    ensures forall p :: p in jumps' <==> p.l in seen + [l] && p in Get(g.departs, p.l) && safe.departure(p)
  {
    forall p
      ensures p in jumps' <==> p.l in seen + [l] && p in Get(g.departs, p.l) && safe.departure(p)
    {
      if p in Get(g.departs, l) {
        var k :| 0 <= k < |Get(g.departs, l)| && Get(g.departs, l)[k] == p;
      }
    }
  }

  /** One round of the loop over the playable lines: line `l`, not yet seen,
    * gets the next axis. */
  method AddLine(gen: Gen, g: Groups, seen: seq<int>, l: int, presentT: int, player: bool, safe: Safe, lineEnd: int -> (int, bool),
                 lineToAxis: map<int, int>, axes: seq<seq<Semimove>>, jumps: map<Vec4, int>)
    returns (lineToAxis': map<int, int>, axes': seq<seq<Semimove>>, jumps': map<Vec4, int>)
    requires g == Grouped(gen) && GenDistinct(gen) && l !in seen
    requires forall x :: x in lineToAxis <==> x in seen
    requires Registered(lineToAxis, axes, jumps)
    requires forall p :: p in jumps <==> p.l in seen && p in Get(g.departs, p.l) && safe.departure(p)
    ensures lineToAxis' == lineToAxis[l := |axes|]
    ensures axes' == axes + [LineAxis(l, presentT, g, safe, player, lineEnd)]
    ensures forall x :: x in lineToAxis' <==> x in seen + [l]
    ensures Registered(lineToAxis', axes', jumps')
    ensures forall p :: p in jumps' <==> p.l in seen + [l] && p in Get(g.departs, p.l) && safe.departure(p)
  {
    DepartsOnLine(gen, l);
    FreshDeparts(g, seen, l, safe, jumps);
    var locs;
    locs, jumps' := BuildLineAxis(l, presentT, g, safe, player, lineEnd, jumps);
    AddedOnLine(Get(g.departs, l), safe, jumps, jumps', l);
    JumpsStep(g, seen, l, safe, jumps, jumps');
    KeepRegistered(lineToAxis, axes, jumps, l, locs, jumps');
    lineToAxis' := lineToAxis[l := |axes|];
    axes' := axes + [locs];
  }

  /** The loop of `build_HC` over the playable lines: line `playable[k]` gets
    * axis `k`, and every safe departure is registered where it lies. */
  method BuildLineAxes(gen: Gen, g: Groups, playable: seq<int>, presentT: int, player: bool, safe: Safe, lineEnd: int -> (int, bool))
    returns (lineToAxis: map<int, int>, axes: seq<seq<Semimove>>, jumps: map<Vec4, int>)
    requires g == Grouped(gen) && GenDistinct(gen) && Distinct(playable)
    ensures |axes| == |playable|
    ensures forall l :: l in lineToAxis <==> l in playable
    ensures forall k :: 0 <= k < |playable| ==> (playable[k] in lineToAxis
      && lineToAxis[playable[k]] == k && axes[k] == LineAxis(playable[k], presentT, g, safe, player, lineEnd))
    ensures Registered(lineToAxis, axes, jumps)
    ensures forall p :: p in jumps <==> p.l in playable && p in Get(g.departs, p.l) && safe.departure(p)
  {
    lineToAxis, axes, jumps := map[], [], map[];
    for i := 0 to |playable|
      invariant |axes| == i
      invariant forall l :: l in lineToAxis <==> l in playable[..i]
      invariant forall k :: 0 <= k < i ==> (playable[k] in lineToAxis
        && lineToAxis[playable[k]] == k && axes[k] == LineAxis(playable[k], presentT, g, safe, player, lineEnd))
      invariant Registered(lineToAxis, axes, jumps)
      invariant forall p :: p in jumps <==> p.l in playable[..i] && p in Get(g.departs, p.l) && safe.departure(p)
    {
      var l := playable[i];
      assert playable[..i + 1] == playable[..i] + [l];
      assert l !in playable[..i];
      lineToAxis, axes, jumps := AddLine(gen, g, playable[..i], l, presentT, player, safe, lineEnd, lineToAxis, axes, jumps);
    }
    assert playable[..|playable|] == playable;
  }

  // ---------------------------------------------------------------------------
  // build_HC: the axes of the new lines

  /** The lines whose list of departing pieces is not empty. */
  function NonEmptyLines(m: map<int, seq<Vec4>>): set<int>
  {
    set l | l in m && m[l] != []
  }

  /** `max_branch`. */
  method CountBranches(departs: map<int, seq<Vec4>>) returns (n: nat)
    ensures n == |NonEmptyLines(departs)|
  {
    n := 0;
    var rest := departs.Keys;
    assert NonEmptyLines(departs) - rest == {};
    while rest != {}
      invariant rest <= departs.Keys
      invariant n == |NonEmptyLines(departs) - rest|
      decreases |rest|
    {
      var l := Member(rest);
      if departs[l] != [] {
        assert NonEmptyLines(departs) - (rest - {l}) == (NonEmptyLines(departs) - rest) + {l};
        n := n + 1;
      } else {
        assert NonEmptyLines(departs) - (rest - {l}) == NonEmptyLines(departs) - rest;
      }
      rest := rest - {l};
    }
    assert NonEmptyLines(departs) - rest == NonEmptyLines(departs);
  }

  /** The number of new-line axes is the number of lines with a piece that
    * can jump. */
  lemma BranchLines(gen: Gen)
    ensures forall l :: l in NonEmptyLines(Grouped(gen).departs) <==> DepartsFrom(gen, l) != []
  {
    forall l
      ensures l in NonEmptyLines(Grouped(gen).departs) <==> DepartsFrom(gen, l) != []
    {
      GroupedMeaning(gen, l);
    }
  }

  function BranchOf(ms: seq<FullMove>, jumps: map<Vec4, int>, safe: Safe): seq<Semimove>
  {
    if ms == [] then []
    else
      var m := ms[|ms| - 1];
      BranchOf(ms[..|ms| - 1], jumps, safe)
        + (if m.from in jumps && safe.arrival(m) then [Arriving(m, jumps[m.from])] else [])
  }

  function BranchLocs(lines: seq<int>, arrives: map<int, seq<FullMove>>, jumps: map<Vec4, int>, safe: Safe): seq<Semimove>
  {
    if lines == [] then []
    else BranchLocs(lines[..|lines| - 1], arrives, jumps, safe) + BranchOf(Get(arrives, lines[|lines| - 1]), jumps, safe)
  }

  /** The list every new-line axis copies: the null move on the new line,
    * then every safe jump whose departure is registered, by target line in
    * increasing order, its `idx` already that departure's coordinate. */
  ghost function BranchAxis(presentT: int, newLine: int, arrives: map<int, seq<FullMove>>, jumps: map<Vec4, int>, safe: Safe): seq<Semimove>
  {
    [Null(MB.Vec4(0, 0, presentT, newLine))] + BranchLocs(SortedKeys(arrives.Keys), arrives, jumps, safe)
  }

  /** The safe jumps of one target line whose departure is registered,
    * appended to `locs0`. */
  method AddBranchArrivals(locs0: seq<Semimove>, ms: seq<FullMove>, jumps: map<Vec4, int>, safe: Safe) returns (locs: seq<Semimove>)
    ensures locs == locs0 + BranchOf(ms, jumps, safe)
  {
    locs := locs0;
    for k := 0 to |ms|
      invariant locs == locs0 + BranchOf(ms[..k], jumps, safe)
    {
      assert ms[..k + 1][..k] == ms[..k];
      var m := ms[k];
      if m.from in jumps && safe.arrival(m) {
        locs := locs + [Arriving(m, jumps[m.from])];
      }
    }
    assert ms[..|ms|] == ms;
  }

  /** The loop of `build_HC` over the target lines of the jumps. */
  method AddBranchLines(locs0: seq<Semimove>, lines: seq<int>, arrives: map<int, seq<FullMove>>, jumps: map<Vec4, int>, safe: Safe)
    returns (locs: seq<Semimove>)
    ensures locs == locs0 + BranchLocs(lines, arrives, jumps, safe)
  {
    locs := locs0;
    for i := 0 to |lines|
      invariant locs == locs0 + BranchLocs(lines[..i], arrives, jumps, safe)
    {
      assert lines[..i + 1][..i] == lines[..i];
      ghost var before := BranchLocs(lines[..i], arrives, jumps, safe);
      ghost var piece := BranchOf(Get(arrives, lines[i]), jumps, safe);
      assert BranchLocs(lines[..i + 1], arrives, jumps, safe) == before + piece;
      locs := AddBranchArrivals(locs, Get(arrives, lines[i]), jumps, safe);
      assert locs == (locs0 + before) + piece;
    }
    assert lines[..|lines|] == lines;
  }

  method BuildBranchAxis(presentT: int, newLine: int, arrives: map<int, seq<FullMove>>, jumps: map<Vec4, int>, safe: Safe)
    returns (locs: seq<Semimove>)
    ensures locs == BranchAxis(presentT, newLine, arrives, jumps, safe)
  {
    var lines := AscendingKeys(arrives.Keys);
    locs := AddBranchLines([Null(MB.Vec4(0, 0, presentT, newLine))], lines, arrives, jumps, safe);
  }

  /** The `k`-th new line: `new_line() + sign * k`. */
  function NewLine(newLine: int, k: int): int
  {
    newLine + Signum(newLine) * k
  }

  /** The debug assertion of the replication loop: no new line is a playable
    * line or an earlier new line. */
  predicate NewLinesFree(newLine: int, count: nat, playable: seq<int>)
  {
    (forall k :: 0 <= k < count ==> NewLine(newLine, k) !in playable) && (count > 1 ==> newLine != 0)
  }

  lemma NewLineInjective(newLine: int, a: int, b: int)
    requires newLine != 0 && a != b
    ensures NewLine(newLine, a) != NewLine(newLine, b)
  {
    if newLine > 0 {
      assert NewLine(newLine, a) == newLine + a;
    } else {
      assert NewLine(newLine, a) == newLine - a;
    }
  }

  /** The replication loop: `count` copies of the branching list, the `k`-th
    * on axis `|axes0| + k` for line `NewLine(newLine, k)`. */
  method AddBranchAxes(lineToAxis0: map<int, int>, axes0: seq<seq<Semimove>>, branch: seq<Semimove>, newLine: int, count: nat, playable: seq<int>)
    returns (lineToAxis: map<int, int>, axes: seq<seq<Semimove>>)
    requires forall l :: l in lineToAxis0 <==> l in playable
    requires NewLinesFree(newLine, count, playable)
    ensures axes == axes0 + seq(count, _ => branch)
    ensures |axes| == |axes0| + count
    ensures forall n :: 0 <= n < |axes0| ==> axes[n] == axes0[n]
    ensures forall n :: |axes0| <= n < |axes| ==> axes[n] == branch
    ensures forall l :: l in lineToAxis0 ==> l in lineToAxis && lineToAxis[l] == lineToAxis0[l]
    ensures forall k :: 0 <= k < count ==> NewLine(newLine, k) in lineToAxis && lineToAxis[NewLine(newLine, k)] == |axes0| + k
    ensures forall l :: l in lineToAxis ==> l in lineToAxis0 || exists k :: 0 <= k < count && l == NewLine(newLine, k)
  {
    lineToAxis, axes := lineToAxis0, axes0;
    for i := 0 to count
      invariant axes == axes0 + seq(i, _ => branch)
      invariant forall l :: l in lineToAxis0 ==> l in lineToAxis && lineToAxis[l] == lineToAxis0[l]
      invariant forall k :: 0 <= k < i ==> NewLine(newLine, k) in lineToAxis && lineToAxis[NewLine(newLine, k)] == |axes0| + k
      invariant forall l :: l in lineToAxis ==> l in lineToAxis0 || exists k :: 0 <= k < i && l == NewLine(newLine, k)
    {
      var l := NewLine(newLine, i);
      forall k | 0 <= k < i
        ensures NewLine(newLine, k) != l
      {
        NewLineInjective(newLine, k, i);
      }
      assert l !in lineToAxis;
      lineToAxis := lineToAxis[l := |axes0| + i];
      axes := axes + [branch];
    }
  }

  // ---------------------------------------------------------------------------
  // build_HC: the universe and the arrivals' departure indices

  /** An arrival whose departure was registered gets that departure's
    * coordinate as its `idx`. */
  function Fill(loc: Semimove, jumps: map<Vec4, int>): Semimove
  {
    if loc.Arriving? && loc.m.from in jumps then Arriving(loc.m, jumps[loc.m.from]) else loc
  }

  /** A semimove stays in the universe unless it arrives from an unregistered
    * departure. */
  predicate Live(loc: Semimove, jumps: map<Vec4, int>)
  {
    !(loc.Arriving? && loc.m.from !in jumps)
  }

  function Filled(row: seq<Semimove>, jumps: map<Vec4, int>): seq<Semimove>
  {
    seq(|row|, i requires 0 <= i < |row| => Fill(row[i], jumps))
  }

  /** The coordinates `0, 1, ..., |row| - 1` of one axis. */
  method Coordinates(row: seq<Semimove>) returns (coords: set<int>)
    ensures forall i :: i in coords <==> 0 <= i < |row|
  {
    coords := {};
    for i := 0 to |row|
      invariant forall j :: j in coords <==> 0 <= j < i
    {
      coords := coords + {i};
    }
  }

  /** The fill loop on one axis: registered arrivals get their index, the
    * others leave the universe (each was in it). */
  method FillAxis(row: seq<Semimove>, coords: set<int>, jumps: map<Vec4, int>) returns (row': seq<Semimove>, coords': set<int>)
    requires forall i :: i in coords <==> 0 <= i < |row|
    ensures row' == Filled(row, jumps)
    ensures forall i :: i in coords' <==> 0 <= i < |row| && Live(row[i], jumps)
  {
    row', coords' := row, coords;
    for i := 0 to |row|
      invariant |row'| == |row|
      invariant forall j :: 0 <= j < i ==> row'[j] == Fill(row[j], jumps)
      invariant forall j :: i <= j < |row| ==> row'[j] == row[j]
      invariant forall j :: j in coords' <==> 0 <= j < |row| && (j >= i || Live(row[j], jumps))
    {
      var loc := row'[i];
      if loc.Arriving? {
        if loc.m.from in jumps {
          row' := row'[i := Arriving(loc.m, jumps[loc.m.from])];
        } else {
          assert i in coords';
          coords' := coords' - {i};
        }
      }
    }
  }

  method FillAxes(axes: seq<seq<Semimove>>, jumps: map<Vec4, int>) returns (filled: seq<seq<Semimove>>, universe: seq<set<int>>)
    ensures |filled| == |axes| == |universe|
    ensures forall n :: 0 <= n < |axes| ==> filled[n] == Filled(axes[n], jumps)
    ensures forall n, i :: 0 <= n < |axes| ==> (i in universe[n] <==> 0 <= i < |axes[n]| && Live(axes[n][i], jumps))
  {
    universe := [];
    for n := 0 to |axes|
      invariant |universe| == n
      invariant forall k, i :: 0 <= k < n ==> (i in universe[k] <==> 0 <= i < |axes[k]|)
    {
      var coords := Coordinates(axes[n]);
      universe := universe + [coords];
    }
    filled := axes;
    for n := 0 to |axes|
      invariant |filled| == |axes| == |universe|
      invariant forall k :: 0 <= k < n ==> filled[k] == Filled(axes[k], jumps)
      invariant forall k :: n <= k < |axes| ==> filled[k] == axes[k]
      invariant forall k, i :: 0 <= k < n ==> (i in universe[k] <==> 0 <= i < |axes[k]| && Live(axes[k][i], jumps))
      invariant forall k, i :: n <= k < |axes| ==> (i in universe[k] <==> 0 <= i < |axes[k]|)
    {
      var row, coords := FillAxis(filled[n], universe[n], jumps);
      filled := filled[n := row];
      universe := universe[n := coords];
    }
  }

  /** Every live arrival names, in `idx`, the coordinate of its departure on
    * the axis of the line it departs from (the debug assertion of the fill
    * loop). */
  ghost predicate ArrivalsLinked(lineToAxis: map<int, int>, axes: seq<seq<Semimove>>, universe: seq<set<int>>)
    requires |universe| == |axes|
  {
    forall n, i :: 0 <= n < |axes| && 0 <= i < |axes[n]| && i in universe[n] && axes[n][i].Arriving? ==>
      var a := axes[n][i];
      a.m.from.l in lineToAxis && 0 <= lineToAxis[a.m.from.l] < |axes|
      && 0 <= a.idx < |axes[lineToAxis[a.m.from.l]]| && axes[lineToAxis[a.m.from.l]][a.idx] == Departing(a.m.from)
  }

  lemma LinkedAfterFill(lineToAxis: map<int, int>, raw: seq<seq<Semimove>>, axes: seq<seq<Semimove>>, universe: seq<set<int>>, jumps: map<Vec4, int>)
    requires Registered(lineToAxis, raw, jumps)
    requires |axes| == |raw| == |universe|
    requires forall n :: 0 <= n < |raw| ==> axes[n] == Filled(raw[n], jumps)
    requires forall n, i :: 0 <= n < |raw| ==> (i in universe[n] <==> 0 <= i < |raw[n]| && Live(raw[n][i], jumps))
    ensures ArrivalsLinked(lineToAxis, axes, universe)
  {
    forall n, i | 0 <= n < |axes| && 0 <= i < |axes[n]| && i in universe[n] && axes[n][i].Arriving?
      ensures var a := axes[n][i];
        a.m.from.l in lineToAxis && 0 <= lineToAxis[a.m.from.l] < |axes|
        && 0 <= a.idx < |axes[lineToAxis[a.m.from.l]]| && axes[lineToAxis[a.m.from.l]][a.idx] == Departing(a.m.from)
    {
      var a := axes[n][i];
      assert a == Fill(raw[n][i], jumps);
      var p := a.m.from;
      assert p in jumps && a.idx == jumps[p];
      var n' := lineToAxis[p.l];
      assert axes[n'][a.idx] == Fill(raw[n'][a.idx], jumps);
    }
  }

  /** A row whose arrivals already carry their registered index. */
  predicate FillFixed(row: seq<Semimove>, jumps: map<Vec4, int>)
  {
    forall i :: 0 <= i < |row| ==> Fill(row[i], jumps) == row[i]
  }

  lemma {:induction false} BranchOfFixed(ms: seq<FullMove>, jumps: map<Vec4, int>, safe: Safe)
    ensures FillFixed(BranchOf(ms, jumps, safe), jumps)
    decreases |ms|
  {
    if ms != [] {
      BranchOfFixed(ms[..|ms| - 1], jumps, safe);
    }
  }

  lemma {:induction false} BranchLocsFixed(lines: seq<int>, arrives: map<int, seq<FullMove>>, jumps: map<Vec4, int>, safe: Safe)
    ensures FillFixed(BranchLocs(lines, arrives, jumps, safe), jumps)
    decreases |lines|
  {
    if lines != [] {
      BranchLocsFixed(lines[..|lines| - 1], arrives, jumps, safe);
      BranchOfFixed(Get(arrives, lines[|lines| - 1]), jumps, safe);
    }
  }

  /** The fill loop leaves the new-line axes as they are. */
  lemma BranchAxisFixed(presentT: int, newLine: int, arrives: map<int, seq<FullMove>>, jumps: map<Vec4, int>, safe: Safe)
    ensures Filled(BranchAxis(presentT, newLine, arrives, jumps, safe), jumps) == BranchAxis(presentT, newLine, arrives, jumps, safe)
  {
    BranchLocsFixed(SortedKeys(arrives.Keys), arrives, jumps, safe);
  }

  /** The new-line axes do not move a registered departure. */
  lemma RegisteredWithBranches(lineToAxis0: map<int, int>, axes0: seq<seq<Semimove>>, lineToAxis: map<int, int>, axes: seq<seq<Semimove>>, jumps: map<Vec4, int>)
    requires Registered(lineToAxis0, axes0, jumps)
    requires |axes0| <= |axes| && forall n :: 0 <= n < |axes0| ==> axes[n] == axes0[n]
    requires forall l :: l in lineToAxis0 ==> l in lineToAxis && lineToAxis[l] == lineToAxis0[l]
    ensures Registered(lineToAxis, axes, jumps)
  {
    forall p | p in jumps
      ensures p.l in lineToAxis && 0 <= lineToAxis[p.l] < |axes|
        && 0 <= jumps[p] < |axes[lineToAxis[p.l]]| && axes[lineToAxis[p.l]][jumps[p]] == Departing(p)
    {
      assert axes[lineToAxis0[p.l]] == axes0[lineToAxis0[p.l]];
    }
  }

  /** The axes of `build_HC` before the fill loop. */
  method RawLayout(gen: Gen, playable: seq<int>, presentT: int, player: bool, newLine: int, safe: Safe, lineEnd: int -> (int, bool))
    returns (lineToAxis: map<int, int>, raw: seq<seq<Semimove>>, jumps: map<Vec4, int>)
    requires GenDistinct(gen) && Distinct(playable)
    requires NewLinesFree(newLine, |NonEmptyLines(Grouped(gen).departs)|, playable)
    ensures |raw| == |playable| + |NonEmptyLines(Grouped(gen).departs)|
    ensures forall k :: 0 <= k < |playable| ==> (playable[k] in lineToAxis && lineToAxis[playable[k]] == k
      && raw[k] == LineAxis(playable[k], presentT, Grouped(gen), safe, player, lineEnd))
    ensures forall k :: 0 <= k < |NonEmptyLines(Grouped(gen).departs)| ==> (NewLine(newLine, k) in lineToAxis
      && lineToAxis[NewLine(newLine, k)] == |playable| + k)
    ensures forall n :: |playable| <= n < |raw| ==> raw[n] == BranchAxis(presentT, newLine, Grouped(gen).arrives, jumps, safe)
    ensures forall l :: l in lineToAxis ==>
      l in playable || exists k :: 0 <= k < |NonEmptyLines(Grouped(gen).departs)| && l == NewLine(newLine, k)
    ensures forall n :: 0 <= n < |raw| ==> raw[n] != [] && raw[n][0].Null?
    ensures Registered(lineToAxis, raw, jumps)
    ensures forall p :: p in jumps <==> p.l in playable && p in Get(Grouped(gen).departs, p.l) && safe.departure(p)
  {
    var g := Group(gen);
    var lineToAxis0, axes0;
    lineToAxis0, axes0, jumps := BuildLineAxes(gen, g, playable, presentT, player, safe, lineEnd);
    var maxBranch := CountBranches(g.departs);
    var branch := BuildBranchAxis(presentT, newLine, g.arrives, jumps, safe);
    lineToAxis, raw := AddBranchAxes(lineToAxis0, axes0, branch, newLine, maxBranch, playable);
    RegisteredWithBranches(lineToAxis0, axes0, lineToAxis, raw, jumps);
    forall n | 0 <= n < |raw|
      ensures raw[n] != [] && raw[n][0].Null?
    {
      if n >= |playable| {
        assert raw[n] == branch;
      }
    }
  }

  /** Every axis holds the null move at coordinate 0, which the universe keeps. */
  lemma NullFirst(raw: seq<seq<Semimove>>, axes: seq<seq<Semimove>>, universe: seq<set<int>>, jumps: map<Vec4, int>)
    requires forall n :: 0 <= n < |raw| ==> raw[n] != [] && raw[n][0].Null?
    requires |axes| == |raw| == |universe|
    requires forall n :: 0 <= n < |raw| ==> axes[n] == Filled(raw[n], jumps)
    requires forall n, i :: 0 <= n < |raw| ==> (i in universe[n] <==> 0 <= i < |raw[n]| && Live(raw[n][i], jumps))
    ensures forall n :: 0 <= n < |axes| ==> axes[n] != [] && axes[n][0].Null? && 0 in universe[n]
    ensures forall n, i :: 0 <= n < |axes| ==> (i in universe[n] <==> 0 <= i < |axes[n]| && Live(axes[n][i], jumps))
  {
    forall n, i | 0 <= n < |axes|
      ensures (i in universe[n] <==> 0 <= i < |axes[n]| && Live(axes[n][i], jumps))
    {
      if 0 <= i < |axes[n]| {
        assert axes[n][i] == Fill(raw[n][i], jumps);
      }
    }
  }

  /** Filling leaves the branching axes, which hold no arrivals, as they were. */
  lemma BranchesFilled(raw: seq<seq<Semimove>>, axes: seq<seq<Semimove>>, jumps: map<Vec4, int>, from: nat, branch: seq<Semimove>)
    requires |raw| == |axes|
    requires forall n :: from <= n < |raw| ==> raw[n] == branch
    requires forall n :: 0 <= n < |raw| ==> axes[n] == Filled(raw[n], jumps)
    requires Filled(branch, jumps) == branch
    ensures forall n :: from <= n < |axes| ==> axes[n] == branch
  {
  }

  /** `build_HC` up to the search space: the axes of the playable lines, then
    * `max_branch` copies of the branching axis for the new lines, then the
    * universe with the arrivals' departure indices filled in. */
  method BuildHC(gen: Gen, playable: seq<int>, presentT: int, player: bool, newLine: int, safe: Safe, lineEnd: int -> (int, bool))
    returns (lineToAxis: map<int, int>, axes: seq<seq<Semimove>>, universe: seq<set<int>>, newAxis: nat, jumps: map<Vec4, int>)
    requires GenDistinct(gen) && Distinct(playable)
    requires NewLinesFree(newLine, |NonEmptyLines(Grouped(gen).departs)|, playable)
    ensures newAxis == |playable|
    ensures |axes| == |universe| == newAxis + |NonEmptyLines(Grouped(gen).departs)|
    ensures forall k :: 0 <= k < |playable| ==> (playable[k] in lineToAxis && lineToAxis[playable[k]] == k
      && axes[k] == Filled(LineAxis(playable[k], presentT, Grouped(gen), safe, player, lineEnd), jumps))
    ensures forall k :: 0 <= k < |NonEmptyLines(Grouped(gen).departs)| ==> (NewLine(newLine, k) in lineToAxis
      && lineToAxis[NewLine(newLine, k)] == newAxis + k)
    ensures forall n :: newAxis <= n < |axes| ==> axes[n] == BranchAxis(presentT, newLine, Grouped(gen).arrives, jumps, safe)
    ensures forall l :: l in lineToAxis ==>
      l in playable || exists k :: 0 <= k < |NonEmptyLines(Grouped(gen).departs)| && l == NewLine(newLine, k)
    ensures forall n :: 0 <= n < |axes| ==> axes[n] != [] && axes[n][0].Null? && 0 in universe[n]
    ensures forall n, i :: 0 <= n < |axes| ==> (i in universe[n] <==> 0 <= i < |axes[n]| && Live(axes[n][i], jumps))
    ensures ArrivalsLinked(lineToAxis, axes, universe)
    ensures forall p :: p in jumps <==> p.l in playable && p in DepartsFrom(gen, p.l) && safe.departure(p)
  {
    var raw;
    lineToAxis, raw, jumps := RawLayout(gen, playable, presentT, player, newLine, safe, lineEnd);
    newAxis := |playable|;
    axes, universe := FillAxes(raw, jumps);
    BranchAxisFixed(presentT, newLine, Grouped(gen).arrives, jumps, safe);
    BranchesFilled(raw, axes, jumps, newAxis, BranchAxis(presentT, newLine, Grouped(gen).arrives, jumps, safe));
    LinkedAfterFill(lineToAxis, raw, axes, universe, jumps);
    NullFirst(raw, axes, universe, jumps);
    forall p
      ensures p in jumps <==> p.l in playable && p in DepartsFrom(gen, p.l) && safe.departure(p)
    {
      GroupedMeaning(gen, p.l);
    }
  }
}
