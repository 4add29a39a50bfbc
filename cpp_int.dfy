/** C++ integer operators on `int`, written out over unbounded integers.
  * Arithmetic shift right is floor division; `&1` is the non-negative
  * remainder modulo 2 in two's complement; `~x` is `-x-1`. */
module CppInt {
  function Shl1(x: int): int { 2 * x }
  function Shr1(x: int): int { x / 2 }
  function BitNot(x: int): int { -x - 1 }
  function Low1(x: int): int { x % 2 }

  lemma ShrLowSplit(x: int)
    ensures 2 * Shr1(x) + Low1(x) == x && 0 <= Low1(x) <= 1
  {
  }
}
