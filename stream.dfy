/** Lazy streams: a stream is denoted by how many elements it has (`None`
  * for an endless one) and the element at each position. `Car`/`Cdr` are
  * the head and the tail; `take`, `map`, `filter` and `naturals` are
  * checked against the recursion equations they are written with; the node
  * that memoises its tail and the input iterator are classes. */
module Streams {
  import opened Wrappers
  import Seqs

  datatype Stream<T> = Stream(size: Option<nat>, elem: nat -> T)

  /** Position `k` holds an element. */
  predicate Has<T>(s: Stream<T>, k: nat)
  {
    s.size.None? || k < s.size.value
  }

  /** `empty()`: no head. */
  predicate Empty<T>(s: Stream<T>)
  {
    s.size.Some? && s.size.value == 0
  }

  function Car<T>(s: Stream<T>): T
    requires !Empty(s)
  {
    s.elem(0)
  }

  function Cdr<T>(s: Stream<T>): (r: Stream<T>)
    requires !Empty(s)
    ensures forall k: nat :: Has(r, k) <==> Has(s, k + 1)
  {
    Stream(if s.size.Some? then Some(s.size.value - 1) else None, k => s.elem(k + 1))
  }

  /** `snil()`. */
  function Nil<T>(default: T): (r: Stream<T>)
    ensures Empty(r)
  {
    Stream(Some(0), _ => default)
  }

  /** The two streams have the same elements at the same positions. */
  ghost predicate Same<T>(a: Stream<T>, b: Stream<T>)
  {
    a.size == b.size && forall k: nat :: Has(a, k) ==> a.elem(k) == b.elem(k)
  }

  /** The stream after `k` applications of `cdr`. */
  function Drop<T>(s: Stream<T>, k: nat): Stream<T>
    requires Has(s, k) || s.size == Some(k)
    decreases k
  {
    if k == 0 then s else Drop(Cdr(s), k - 1)
  }

  /** `k` tails in, position `j` is position `k + j` of the stream, and the
    * stream is empty exactly when it had `k` elements. */
  lemma {:induction false} DropElems<T>(s: Stream<T>, k: nat, j: nat)
    requires Has(s, k) || s.size == Some(k)
    ensures Drop(s, k).elem(j) == s.elem(k + j)
    ensures Drop(s, k).size == if s.size.Some? then Some(s.size.value - k) else None
    ensures Empty(Drop(s, k)) <==> s.size == Some(k)
    decreases k
  {
    if k > 0 {
      DropElems(Cdr(s), k - 1, j);
    }
  }

  // ---------------------------------------------------------------------------
  // naturals

  /** `naturals(start)`: `start, start + 1, ...` without end. */
  function Naturals(start: int): Stream<int>
  {
    Stream(None, k => start + k)
  }

  /** `naturals(start)` is `scons(start, naturals(start + 1))`. */
  lemma NaturalsUnfold(start: int)
    ensures !Empty(Naturals(start)) && Car(Naturals(start)) == start
    ensures Same(Cdr(Naturals(start)), Naturals(start + 1))
  {
  }

  /** Reached by `k` applications of `cdr`, the head of `naturals(start)` is
    * `start + k`. */
  lemma NaturalsNth(start: int, k: nat)
    ensures !Empty(Drop(Naturals(start), k)) && Car(Drop(Naturals(start), k)) == start + k
  {
    DropElems(Naturals(start), k, 0);
  }

  // ---------------------------------------------------------------------------
  // take

  function Min(a: nat, b: nat): nat { if a <= b then a else b }

  /** `take(n, s)`: at most `n` elements; a negative `n` never reaches the
    * `n == 0` stop, so the whole stream is kept. */
  function Take<T>(n: int, s: Stream<T>): Stream<T>
  {
    var size :=
      if n < 0 then s.size
      else if s.size.Some? then Some(Min(n, s.size.value))
      else Some(n as nat);
    Stream(size, s.elem)
  }

  /** The recursion `take(n, s)` is written with: empty when `n == 0` or `s`
    * is empty, and otherwise the head of `s` followed by
    * `take(n - 1, cdr(s))`. */
  lemma TakeUnfold<T>(n: int, s: Stream<T>)
    ensures Empty(Take(n, s)) <==> n == 0 || Empty(s)
    ensures n != 0 && !Empty(s) ==>
      Car(Take(n, s)) == Car(s) && Same(Cdr(Take(n, s)), Take(n - 1, Cdr(s)))
  {
  }

  /** For `n >= 0`, `take(n, s)` is a prefix of `s` of at most `n` elements,
    * and exactly `n` when `s` has that many. */
  lemma TakeIsPrefix<T>(n: nat, s: Stream<T>)
    ensures Take(n, s).size.Some? && Take(n, s).size.value <= n
    ensures Has(s, n) || s.size == Some(n) ==> Take(n, s).size == Some(n)
    ensures forall k: nat :: Has(Take(n, s), k) ==> Has(s, k) && Take(n, s).elem(k) == s.elem(k)
  {
  }

  // ---------------------------------------------------------------------------
  // map

  /** `map(f, s)`. */
  function Map<T>(f: T -> T, s: Stream<T>): Stream<T>
  {
    Stream(s.size, k => f(s.elem(k)))
  }

  /** The recursion `map` is written with: empty for an empty stream, and
    * otherwise `f` of the head followed by `map(f, cdr(s))`; so the length
    * is kept and each element is mapped in place. */
  lemma MapUnfold<T>(f: T -> T, s: Stream<T>)
    ensures Empty(Map(f, s)) <==> Empty(s)
    ensures Map(f, s).size == s.size
    ensures forall k: nat :: Has(s, k) ==> Map(f, s).elem(k) == f(s.elem(k))
    ensures !Empty(s) ==> Car(Map(f, s)) == f(Car(s)) && Same(Cdr(Map(f, s)), Map(f, Cdr(s)))
  {
  }

  // ---------------------------------------------------------------------------
  // filter

  /** The elements of a finite stream, in order. */
  function Elements<T>(s: Stream<T>): (r: seq<T>)
    requires s.size.Some?
    ensures |r| == s.size.value
    ensures forall k :: 0 <= k < |r| ==> r[k] == s.elem(k)
  {
    seq(s.size.value, k requires 0 <= k => s.elem(k))
  }

  /** `filter(f, s)` on a finite stream, following its recursion: an empty
    * stream gives nothing, a passing head is kept before the filtered tail,
    * a failing head is skipped. */
  function Filter<T>(f: T -> bool, s: Stream<T>): seq<T>
    requires s.size.Some?
    decreases s.size.value
  {
    if Empty(s) then []
    else if f(Car(s)) then [Car(s)] + Filter(f, Cdr(s))
    else Filter(f, Cdr(s))
  }

  /** `filter` keeps exactly the elements satisfying `f`, in their original
    * order. */
  lemma {:induction false} FilterKeepsOrder<T>(f: T -> bool, s: Stream<T>)
    requires s.size.Some?
    ensures Filter(f, s) == Seqs.Filter(Elements(s), f)
    decreases s.size.value
  {
    if !Empty(s) {
      FilterKeepsOrder(f, Cdr(s));
      var e := Elements(s);
      assert e == [Car(s)] + Elements(Cdr(s));
      Seqs.FilterAppend([Car(s)], Elements(Cdr(s)), f);
    }
  }

  /** What `filter` has produced once it has looked at the first `m`
    * elements of `s`, finite or endless: on an endless stream the filtered
    * stream is the limit of these, one growing prefix after another. */
  function FilterFirst<T>(f: T -> bool, s: Stream<T>, m: nat): seq<T>
  {
    Filter(f, Take(m, s))
  }

  /** Looking at all of a finite stream is `filter` itself. */
  lemma FilterFirstAll<T>(f: T -> bool, s: Stream<T>)
    requires s.size.Some?
    ensures FilterFirst(f, s, s.size.value) == Filter(f, s)
  {
    assert Take(s.size.value, s) == s;
  }

  /** The first `m + 1` elements of an endless stream are the first `m` and
    * then element `m`. */
  lemma ElementsTakeNext<T>(s: Stream<T>, m: nat)
    requires s.size.None?
    ensures Elements(Take(m + 1, s)) == Elements(Take(m, s)) + [s.elem(m)]
  {
  }

  /** Each further element of an endless stream adds itself to the filtered
    * prefix when it passes and nothing otherwise. */
  lemma FilterFirstNext<T>(f: T -> bool, s: Stream<T>, m: nat)
    requires s.size.None?
    ensures FilterFirst(f, s, m + 1) == FilterFirst(f, s, m) + (if f(s.elem(m)) then [s.elem(m)] else [])
  {
    FilterKeepsOrder(f, Take(m + 1, s));
    FilterKeepsOrder(f, Take(m, s));
    ElementsTakeNext(s, m);
    Seqs.FilterAppend(Elements(Take(m, s)), [s.elem(m)], f);
  }

  /** Over an endless stream, the recursion `filter` is written with: a
    * passing head comes first and the filtered tail follows; a failing head
    * is skipped. */
  lemma FilterFirstUnfold<T>(f: T -> bool, s: Stream<T>, m: nat)
    requires s.size.None?
    ensures FilterFirst(f, s, m + 1)
         == (if f(Car(s)) then [Car(s)] else []) + FilterFirst(f, Cdr(s), m)
  {
    FilterKeepsOrder(f, Take(m + 1, s));
    FilterKeepsOrder(f, Take(m, Cdr(s)));
    assert Elements(Take(m + 1, s)) == [Car(s)] + Elements(Take(m, Cdr(s)));
    Seqs.FilterAppend([Car(s)], Elements(Take(m, Cdr(s))), f);
  }

  /** Looking further only extends what `filter` has produced. */
  lemma {:induction false} FilterFirstGrows<T>(f: T -> bool, s: Stream<T>, m: nat, m': nat)
    requires s.size.None? && m <= m'
    ensures |FilterFirst(f, s, m)| <= |FilterFirst(f, s, m')|
    ensures FilterFirst(f, s, m')[..|FilterFirst(f, s, m)|] == FilterFirst(f, s, m)
    decreases m' - m
  {
    if m < m' {
      FilterFirstGrows(f, s, m, m' - 1);
      FilterFirstNext(f, s, m' - 1);
    }
  }

  /** So `take(n, filter(f, s))` of an endless stream is well defined: any
    * two prefixes long enough to hold `n` passing elements agree on them. */
  lemma TakeFilterEndless<T>(f: T -> bool, s: Stream<T>, n: nat, m1: nat, m2: nat)
    requires s.size.None?
    requires n <= |FilterFirst(f, s, m1)| && n <= |FilterFirst(f, s, m2)|
    ensures FilterFirst(f, s, m1)[..n] == FilterFirst(f, s, m2)[..n]
  {
    if m1 <= m2 {
      FilterFirstGrows(f, s, m1, m2);
      assert FilterFirst(f, s, m2)[..n] == FilterFirst(f, s, m2)[..|FilterFirst(f, s, m1)|][..n];
    } else {
      FilterFirstGrows(f, s, m2, m1);
      assert FilterFirst(f, s, m1)[..n] == FilterFirst(f, s, m1)[..|FilterFirst(f, s, m2)|][..n];
    }
  }

  /** The `k`-th element `filter` produces from an endless stream is the
    * `k`-th passing element: it sits at a position `j` where `f` holds and
    * exactly `k` elements before `j` pass. */
  lemma {:induction false} FilterFirstAt<T>(f: T -> bool, s: Stream<T>, m: nat, k: nat) returns (j: nat)
    requires s.size.None? && k < |FilterFirst(f, s, m)|
    ensures j < m && f(s.elem(j)) && |FilterFirst(f, s, j)| == k && FilterFirst(f, s, m)[k] == s.elem(j)
    decreases m
  {
    if m == 0 {
      assert false;
    }
    FilterFirstNext(f, s, m - 1);
    if k < |FilterFirst(f, s, m - 1)| {
      j := FilterFirstAt(f, s, m - 1, k);
    } else {
      j := m - 1;
    }
  }

  // ---------------------------------------------------------------------------
  // The memoising node and the iterator

  /** A stream node: its head, the cached tail (the C++ `rest`, null until
    * first asked for) and the thunk that computes it. `evaluations` counts
    * the thunk's calls. */
  class Node<T> {
    var first: T
    var rest: Option<Stream<T>>
    const thunk: () -> Stream<T>
    ghost var evaluations: nat

    ghost predicate Valid()
      reads this
    {
      (rest.None? <==> evaluations == 0) && evaluations <= 1
      && (rest.Some? ==> rest.value == thunk())
    }

    constructor (x: T, f: () -> Stream<T>)
      ensures Valid() && first == x && thunk == f && rest.None? && evaluations == 0
    {
      first := x;
      rest := None;
      thunk := f;
      evaluations := 0;
    }

    /** `ptr_cdr`: evaluates the thunk on the first call only and returns the
      * cached tail from then on. */
    method PtrCdr() returns (r: Stream<T>)
      requires Valid()
      modifies this
      ensures Valid() && r == thunk() && rest == Some(r) && first == old(first)
      ensures evaluations == if old(rest).None? then 1 else old(evaluations)
    {
      if rest.None? {
        rest := Some(thunk());
        evaluations := evaluations + 1;
      }
      r := rest.value;
    }
  }

  /** The input iterator: the current position in the stream, or `None` (the
    * C++ `nullptr`) once past the end. */
  class Iterator<T> {
    const stream: Stream<T>
    var position: Option<nat>

    ghost predicate Valid()
      reads this
    {
      position.Some? ==> Has(stream, position.value)
    }

    /** `begin()`: the first element, or already the end for an empty
      * stream. */
    constructor Begin(s: Stream<T>)
      ensures Valid() && stream == s
      ensures position == if Empty(s) then None else Some(0)
    {
      stream := s;
      position := if s.size == Some(0) then None else Some(0);
    }

    /** `*it`. */
    function Current(): T
      reads this
      requires Valid() && position.Some?
    {
      stream.elem(position.value)
    }

    /** `++it`: one step on, and the end once past the last element; the end
      * stays the end. */
    method Increment()
      requires Valid()
      modifies this
      ensures Valid()
      ensures old(position).None? ==> position.None?
      ensures old(position).Some? ==>
        position == if stream.size == Some(old(position).value + 1) then None else Some(old(position).value + 1)
    {
      if position.Some? {
        var k := position.value + 1;
        if stream.size == Some(k) {
          position := None;
        } else {
          position := Some(k);
        }
      }
    }
  }

  /** Walking a finite stream with the iterator visits every element once, in
    * order, and reaches the end exactly after the last one. */
  method Walk<T>(s: Stream<T>) returns (visited: seq<T>)
    requires s.size.Some?
    ensures visited == Elements(s)
  {
    var it := new Iterator.Begin(s);
    visited := [];
    while it.position.Some?
      invariant it.Valid() && it.stream == s
      invariant it.position.Some? ==> it.position.value == |visited|
      invariant it.position.None? ==> |visited| == s.size.value
      invariant |visited| <= s.size.value
      invariant forall k :: 0 <= k < |visited| ==> visited[k] == s.elem(k)
      decreases s.size.value - |visited|
    {
      visited := visited + [it.Current()];
      it.Increment();
    }
  }
}
