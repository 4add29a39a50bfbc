/** The two coordinate systems of the multiverse: a line `l` (any integer) is
  * stored at row `u` (a non-negative integer), and a turn `(t, c)` at column `v`. */
module Coordinates {
  import opened CppInt

  /** `l >= 0 ? l<<1 : ~(l<<1)`: non-negative lines to even rows, negative lines to odd rows. */
  function LToU(l: int): (u: int)
    ensures u >= 0
    ensures l >= 0 <==> u % 2 == 0
  {
    if l >= 0 then Shl1(l) else BitNot(Shl1(l))
  }

  /** `u&1 ? ~(u>>1) : u>>1` */
  function UToL(u: int): int
  {
    if Low1(u) == 1 then BitNot(Shr1(u)) else Shr1(u)
  }

  /** `t<<1 | c` */
  function TcToV(t: int, c: bool): (v: int)
    ensures (v % 2 == 1) == c
  {
    Shl1(t) + (if c then 1 else 0)
  }

  /** `(v>>1, v&1)` */
  function VToTc(v: int): (int, bool)
  {
    (Shr1(v), Low1(v) == 1)
  }

  lemma LToUInverse(l: int)
    ensures UToL(LToU(l)) == l
  {
  }

  lemma UToLInverse(u: int)
    requires u >= 0
    ensures LToU(UToL(u)) == u
  {
  }

  lemma LToUInjective(a: int, b: int)
    requires LToU(a) == LToU(b)
    ensures a == b
  {
    LToUInverse(a);
    LToUInverse(b);
  }

  lemma TcVInverse(t: int, c: bool)
    ensures VToTc(TcToV(t, c)) == (t, c)
  {
  }

  lemma VTcInverse(v: int)
    ensures TcToV(VToTc(v).0, VToTc(v).1) == v
  {
  }

  lemma TcToVInjective(t1: int, c1: bool, t2: int, c2: bool)
    requires TcToV(t1, c1) == TcToV(t2, c2)
    ensures t1 == t2 && c1 == c2
  {
    TcVInverse(t1, c1);
    TcVInverse(t2, c2);
  }

  /** A line between `lo <= 0 <= hi` lands on a row no larger than those of the two ends. */
  lemma LToUBounded(lo: int, hi: int, l: int)
    requires lo <= l <= hi
    ensures LToU(l) <= LToU(lo) || LToU(l) <= LToU(hi)
  {
  }
}
