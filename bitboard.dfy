/** 64-bit bitboards of an 8x8 board, square `(x, y)` at bit `y*8 + x`.
  * A `uint64_t` is modelled as its 64 bits, bit `i` at index `i`; shifts,
  * masks and complements act on those bits exactly as on the integer. */
module Bitboard {

  const BoardLength: nat := 8
  const Bits: int := 64

  function Clear(n: nat): (r: seq<bool>)
    ensures |r| == n && forall i :: 0 <= i < n ==> !r[i]
  {
    seq(n, i requires 0 <= i < n => false)
  }

  type Bitboard = b: seq<bool> | |b| == 64 witness Clear(64)

  const Zero: Bitboard := Clear(64)

  function Shl(b: Bitboard, k: nat): (r: Bitboard) { seq(64, i requires 0 <= i < 64 => i >= k && b[i - k]) }
  function Shr(b: Bitboard, k: nat): (r: Bitboard) { seq(64, i requires 0 <= i < 64 => i + k < 64 && b[i + k]) }
  function And(a: Bitboard, b: Bitboard): (r: Bitboard) { seq(64, i requires 0 <= i < 64 => a[i] && b[i]) }
  function Or(a: Bitboard, b: Bitboard): (r: Bitboard) { seq(64, i requires 0 <= i < 64 => a[i] || b[i]) }
  function Not(a: Bitboard): (r: Bitboard) { seq(64, i requires 0 <= i < 64 => !a[i]) }

  /** `0x0101010101010101` and `0x8080808080808080`. */
  function AFile(): Bitboard { seq(64, i requires 0 <= i < 64 => i % 8 == 0) }
  function HFile(): Bitboard { seq(64, i requires 0 <= i < 64 => i % 8 == 7) }

  predicate OnBoard(x: int, y: int) { 0 <= x < BoardLength && 0 <= y < BoardLength }

  /** `ppos(x, y)`, the layout drawn in `bitboard.h`. */
  function Pos(x: int, y: int): int { y * 8 + x }

  /** `pmask(pos)`: `1 << pos`. */
  function Pmask(pos: int): (r: Bitboard)
    requires 0 <= pos < 64
    ensures r[pos] && forall i :: 0 <= i < 64 && i != pos ==> !r[i]
  {
    Shl(seq(64, i requires 0 <= i < 64 => i == 0), pos)
  }

  /** A bitboard with the one square `(x, y)`, or none when it is off the board. */
  function Square(x: int, y: int): (r: Bitboard)
  {
    if OnBoard(x, y) then Pmask(Pos(x, y)) else Zero
  }

  predicate Has(b: Bitboard, x: int, y: int)
  {
    OnBoard(x, y) && b[Pos(x, y)]
  }

  /** `pmask(pos)` holds the one square whose file is `pos % 8` and rank `pos / 8`. */
  lemma PmaskHas(pos: int, x: int, y: int)
    requires 0 <= pos < 64
    ensures Has(Pmask(pos), x, y) <==> x == pos % 8 && y == pos / 8
  {
    if OnBoard(x, y) && Pos(x, y) == pos {
      assert x == pos % 8 && y == pos / 8;
    }
  }

  function ShiftNorth(b: Bitboard): Bitboard { Shl(b, 8) }
  function ShiftSouth(b: Bitboard): Bitboard { Shr(b, 8) }
  function ShiftWest(b: Bitboard): Bitboard { Shr(And(b, Not(AFile())), 1) }
  function ShiftEast(b: Bitboard): Bitboard { Shl(And(b, Not(HFile())), 1) }
  function ShiftNorthwest(b: Bitboard): Bitboard { Shl(And(b, Not(AFile())), 7) }
  function ShiftSouthwest(b: Bitboard): Bitboard { Shr(And(b, Not(AFile())), 9) }

  /** `shift_northeast` and `shift_southeast` as written: they clear the a-file,
    * so h-file bits move onto the a-file of another rank. */
  function ShiftNortheastAsWritten(b: Bitboard): Bitboard { Shl(And(b, Not(AFile())), 9) }
  function ShiftSoutheastAsWritten(b: Bitboard): Bitboard { Shr(And(b, Not(AFile())), 7) }

  /** The two eastward diagonal shifts clearing the h-file, as `shift_east` does. */
  function ShiftNortheast(b: Bitboard): Bitboard { Shl(And(b, Not(HFile())), 9) }
  function ShiftSoutheast(b: Bitboard): Bitboard { Shr(And(b, Not(HFile())), 7) }

  /** File and rank of an on-board index. */
  lemma FileRank(x: int, y: int)
    requires 0 <= x < 8
    ensures Pos(x, y) % 8 == x && Pos(x, y) / 8 == y
  {
  }

  /** Every shift moves each square one step in its direction and drops the
    * squares that would leave the board; nothing wraps across an edge. */
  lemma NorthSquares(b: Bitboard, x: int, y: int)
    ensures Has(ShiftNorth(b), x, y) <==> OnBoard(x, y) && Has(b, x, y - 1)
  {
    assert Pos(x, y) - 8 == Pos(x, y - 1);
  }

  lemma SouthSquares(b: Bitboard, x: int, y: int)
    ensures Has(ShiftSouth(b), x, y) <==> OnBoard(x, y) && Has(b, x, y + 1)
  {
    assert Pos(x, y) + 8 == Pos(x, y + 1);
  }

  lemma WestSquares(b: Bitboard, x: int, y: int)
    ensures Has(ShiftWest(b), x, y) <==> OnBoard(x, y) && Has(b, x + 1, y)
  {
    if OnBoard(x, y) {
      if x < 7 { FileRank(x + 1, y); } else { FileRank(0, y + 1); }
    }
  }

  lemma EastSquares(b: Bitboard, x: int, y: int)
    ensures Has(ShiftEast(b), x, y) <==> OnBoard(x, y) && Has(b, x - 1, y)
  {
    if OnBoard(x, y) {
      if x > 0 { FileRank(x - 1, y); } else { FileRank(7, y - 1); }
    }
  }

  lemma NorthwestSquares(b: Bitboard, x: int, y: int)
    ensures Has(ShiftNorthwest(b), x, y) <==> OnBoard(x, y) && Has(b, x + 1, y - 1)
  {
    if OnBoard(x, y) {
      if x < 7 { FileRank(x + 1, y - 1); } else { FileRank(0, y); }
    }
  }

  lemma NortheastSquares(b: Bitboard, x: int, y: int)
    ensures Has(ShiftNortheast(b), x, y) <==> OnBoard(x, y) && Has(b, x - 1, y - 1)
  {
    if OnBoard(x, y) {
      if x > 0 { FileRank(x - 1, y - 1); } else { FileRank(7, y - 2); }
    }
  }

  lemma SouthwestSquares(b: Bitboard, x: int, y: int)
    ensures Has(ShiftSouthwest(b), x, y) <==> OnBoard(x, y) && Has(b, x + 1, y + 1)
  {
    if OnBoard(x, y) {
      if x < 7 { FileRank(x + 1, y + 1); } else { FileRank(0, y + 2); }
    }
  }

  lemma SoutheastSquares(b: Bitboard, x: int, y: int)
    ensures Has(ShiftSoutheast(b), x, y) <==> OnBoard(x, y) && Has(b, x - 1, y + 1)
  {
    if OnBoard(x, y) {
      if x > 0 { FileRank(x - 1, y + 1); } else { FileRank(7, y); }
    }
  }

  /** Two bitboards with the same squares are equal. */
  lemma SameSquares(a: Bitboard, b: Bitboard)
    requires forall x, y :: OnBoard(x, y) ==> (Has(a, x, y) <==> Has(b, x, y))
    ensures a == b
  {
    forall i | 0 <= i < 64
      ensures a[i] == b[i]
    {
      assert Has(a, i % 8, i / 8) <==> Has(b, i % 8, i / 8);
    }
  }

  /** The written north-east shift of h2 lands on a4, and that of a2 is empty. */
  lemma NortheastAsWrittenWraps()
    ensures ShiftNortheastAsWritten(Square(7, 1)) == Square(0, 3)
    ensures ShiftNortheastAsWritten(Square(0, 1)) == Zero
    ensures ShiftNortheast(Square(7, 1)) == Zero
    ensures ShiftNortheast(Square(0, 1)) == Square(1, 2)
  {
    assert ShiftNortheastAsWritten(Square(7, 1)) == Square(0, 3);
    assert ShiftNortheastAsWritten(Square(0, 1)) == Zero;
    assert ShiftNortheast(Square(7, 1)) == Zero;
    assert ShiftNortheast(Square(0, 1)) == Square(1, 2);
  }

  /** The written south-east shift of h2 lands on a2, and that of a2 is empty. */
  lemma SoutheastAsWrittenWraps()
    ensures ShiftSoutheastAsWritten(Square(7, 1)) == Square(0, 1)
    ensures ShiftSoutheastAsWritten(Square(0, 1)) == Zero
    ensures ShiftSoutheast(Square(0, 1)) == Square(1, 0)
  {
    assert ShiftSoutheastAsWritten(Square(7, 1)) == Square(0, 1);
    assert ShiftSoutheastAsWritten(Square(0, 1)) == Zero;
    assert ShiftSoutheast(Square(0, 1)) == Square(1, 0);
  }

  function WhitePawnAttackAsWritten(pos: int): Bitboard
    requires 0 <= pos < 64
  {
    Or(ShiftNorthwest(Pmask(pos)), ShiftNortheastAsWritten(Pmask(pos)))
  }

  /** A white pawn on a2 attacks nothing and one on h2 attacks g3 and a4 under the written shifts. */
  lemma WhitePawnAttackAsWrittenWrong()
    ensures WhitePawnAttackAsWritten(Pos(0, 1)) == Zero
    ensures WhitePawnAttackAsWritten(Pos(7, 1)) == Or(Square(6, 2), Square(0, 3))
  {
    assert Pmask(Pos(0, 1)) == Square(0, 1);
    assert WhitePawnAttackAsWritten(Pos(0, 1)) == Zero;
    assert Pmask(Pos(7, 1)) == Square(7, 1);
    assert WhitePawnAttackAsWritten(Pos(7, 1)) == Or(Square(6, 2), Square(0, 3));
  }

  /** `white_pawn_attack`: `shift_northwest | shift_northeast` of `pmask(pos)`. */
  function WhitePawnAttack(pos: int): Bitboard
    requires 0 <= pos < 64
  {
    Or(ShiftNorthwest(Pmask(pos)), ShiftNortheast(Pmask(pos)))
  }

  /** A white pawn attacks the two squares diagonally forward. */
  lemma WhitePawnAttackSquares(pos: int, x: int, y: int)
    requires 0 <= pos < 64
    ensures Has(WhitePawnAttack(pos), x, y) <==>
      OnBoard(x, y) && y == pos / 8 + 1 && (x == pos % 8 - 1 || x == pos % 8 + 1)
  {
    NorthwestSquares(Pmask(pos), x, y); NortheastSquares(Pmask(pos), x, y);
    PmaskHas(pos, x + 1, y - 1); PmaskHas(pos, x - 1, y - 1);
  }

  /** `black_pawn_attack`: `shift_southwest | shift_southeast` of `pmask(pos)`. */
  function BlackPawnAttack(pos: int): Bitboard
    requires 0 <= pos < 64
  {
    Or(ShiftSouthwest(Pmask(pos)), ShiftSoutheast(Pmask(pos)))
  }

  /** A black pawn attacks the two squares diagonally forward for black. */
  lemma BlackPawnAttackSquares(pos: int, x: int, y: int)
    requires 0 <= pos < 64
    ensures Has(BlackPawnAttack(pos), x, y) <==>
      OnBoard(x, y) && y == pos / 8 - 1 && (x == pos % 8 - 1 || x == pos % 8 + 1)
  {
    SouthwestSquares(Pmask(pos), x, y); SoutheastSquares(Pmask(pos), x, y);
    PmaskHas(pos, x + 1, y + 1); PmaskHas(pos, x - 1, y + 1);
  }

  function Abs(a: int): nat { if a < 0 then -a else a }

  /** `king_attack_data[pos]`: the union of the eight one-step shifts of `pmask(pos)`. */
  function KingAttack(pos: int): Bitboard
    requires 0 <= pos < 64
  {
    var z := Pmask(pos);
    Or(Or(Or(ShiftNorth(z), ShiftSouth(z)), Or(ShiftWest(z), ShiftEast(z))),
       Or(Or(ShiftNorthwest(z), ShiftNortheast(z)), Or(ShiftSouthwest(z), ShiftSoutheast(z))))
  }

  /** The king table marks exactly the squares at king distance one. */
  lemma KingAttackSquares(pos: int, x: int, y: int)
    requires 0 <= pos < 64
    ensures Has(KingAttack(pos), x, y) <==>
      OnBoard(x, y) && (x, y) != (pos % 8, pos / 8) && Abs(x - pos % 8) <= 1 && Abs(y - pos / 8) <= 1
  {
    var z := Pmask(pos);
    NorthSquares(z, x, y); SouthSquares(z, x, y); WestSquares(z, x, y); EastSquares(z, x, y);
    NorthwestSquares(z, x, y); NortheastSquares(z, x, y); SouthwestSquares(z, x, y); SoutheastSquares(z, x, y);
    PmaskHas(pos, x, y - 1); PmaskHas(pos, x, y + 1);
    PmaskHas(pos, x + 1, y); PmaskHas(pos, x - 1, y);
    PmaskHas(pos, x + 1, y - 1); PmaskHas(pos, x - 1, y - 1);
    PmaskHas(pos, x + 1, y + 1); PmaskHas(pos, x - 1, y + 1);
  }

  /** `knight_attack_data[pos]`: two steps built from a diagonal shift followed
    * by an orthogonal one in each of the eight directions. */
  function KnightAttack(pos: int): Bitboard
    requires 0 <= pos < 64
  {
    var z := Pmask(pos);
    Or(Or(Or(Or(Or(Or(Or(ShiftNorth(ShiftNorthwest(z)), ShiftWest(ShiftNorthwest(z))),
      ShiftNorth(ShiftNortheast(z))), ShiftEast(ShiftNortheast(z))),
      ShiftSouth(ShiftSouthwest(z))), ShiftWest(ShiftSouthwest(z))),
      ShiftSouth(ShiftSoutheast(z))), ShiftEast(ShiftSoutheast(z)))
  }

  predicate KnightStep(dx: int, dy: int)
  {
    (Abs(dx) == 1 && Abs(dy) == 2) || (Abs(dx) == 2 && Abs(dy) == 1)
  }

  /** Each of the eight two-step shifts of the knight table moves a square by one leap. */
  lemma KnightLegs(z: Bitboard, x: int, y: int)
    ensures Has(ShiftNorth(ShiftNorthwest(z)), x, y) <==> OnBoard(x, y) && Has(z, x + 1, y - 2)
    ensures Has(ShiftWest(ShiftNorthwest(z)), x, y) <==> OnBoard(x, y) && Has(z, x + 2, y - 1)
    ensures Has(ShiftNorth(ShiftNortheast(z)), x, y) <==> OnBoard(x, y) && Has(z, x - 1, y - 2)
    ensures Has(ShiftEast(ShiftNortheast(z)), x, y) <==> OnBoard(x, y) && Has(z, x - 2, y - 1)
    ensures Has(ShiftSouth(ShiftSouthwest(z)), x, y) <==> OnBoard(x, y) && Has(z, x + 1, y + 2)
    ensures Has(ShiftWest(ShiftSouthwest(z)), x, y) <==> OnBoard(x, y) && Has(z, x + 2, y + 1)
    ensures Has(ShiftSouth(ShiftSoutheast(z)), x, y) <==> OnBoard(x, y) && Has(z, x - 1, y + 2)
    ensures Has(ShiftEast(ShiftSoutheast(z)), x, y) <==> OnBoard(x, y) && Has(z, x - 2, y + 1)
  {
    NorthSquares(ShiftNorthwest(z), x, y); NorthwestSquares(z, x, y - 1);
    WestSquares(ShiftNorthwest(z), x, y); NorthwestSquares(z, x + 1, y);
    NorthSquares(ShiftNortheast(z), x, y); NortheastSquares(z, x, y - 1);
    EastSquares(ShiftNortheast(z), x, y); NortheastSquares(z, x - 1, y);
    SouthSquares(ShiftSouthwest(z), x, y); SouthwestSquares(z, x, y + 1);
    WestSquares(ShiftSouthwest(z), x, y); SouthwestSquares(z, x + 1, y);
    SouthSquares(ShiftSoutheast(z), x, y); SoutheastSquares(z, x, y + 1);
    EastSquares(ShiftSoutheast(z), x, y); SoutheastSquares(z, x - 1, y);
  }

  /** The knight table marks exactly the on-board squares a knight's leap away. */
  lemma KnightAttackSquares(pos: int, x: int, y: int)
    requires 0 <= pos < 64
    ensures Has(KnightAttack(pos), x, y) <==> OnBoard(x, y) && KnightStep(x - pos % 8, y - pos / 8)
  {
    var z := Pmask(pos);
    KnightLegs(z, x, y);
    PmaskHas(pos, x + 1, y - 2); PmaskHas(pos, x + 2, y - 1);
    PmaskHas(pos, x - 1, y - 2); PmaskHas(pos, x - 2, y - 1);
    PmaskHas(pos, x + 1, y + 2); PmaskHas(pos, x + 2, y + 1);
    PmaskHas(pos, x - 1, y + 2); PmaskHas(pos, x - 2, y + 1);
  }

  /** Leading zero bits of `b` among its low `n` bits, counted from bit `n - 1`
    * down: `std::countl_zero` when `n` is 64. */
  function LeadingZeros(b: Bitboard, n: nat): (r: nat)
    requires n <= 64
    ensures r <= n
    ensures forall i :: n - r <= i < n ==> !b[i]
    ensures r < n ==> b[n - 1 - r]
  {
    if n == 0 then 0 else if b[n - 1] then 0 else 1 + LeadingZeros(b, n - 1)
  }

  /** `bb_get_pos`: `63 - countl_zero(b)`. */
  function GetPos(b: Bitboard): int
  {
    63 - LeadingZeros(b, 64)
  }

  /** `bb_get_pos` is the index of the most significant set bit, and -1 for an empty board. */
  lemma GetPosIsHighestBit(b: Bitboard)
    ensures -1 <= GetPos(b) < 64
    ensures GetPos(b) == -1 <==> b == Zero
    ensures GetPos(b) >= 0 ==> b[GetPos(b)] && forall i :: GetPos(b) < i < 64 ==> !b[i]
  {
    if GetPos(b) == -1 {
      assert forall i :: 0 <= i < 64 ==> b[i] == Zero[i];
    }
  }

  /** The set bits of `b` below `n`, most significant first. */
  function Marked(b: Bitboard, n: nat): seq<int>
    requires n <= 64
  {
    if n == 0 then [] else (if b[n - 1] then [n - 1] else []) + Marked(b, n - 1)
  }

  function PopCount(b: Bitboard, n: nat): nat
    requires n <= 64
  {
    if n == 0 then 0 else (if b[n - 1] then 1 else 0) + PopCount(b, n - 1)
  }

  /** `Marked` lists exactly the set bits below `n`, each once, strictly
    * decreasing, so there are as many as the population count. */
  lemma {:induction false} MarkedExact(b: Bitboard, n: nat)
    requires n <= 64
    ensures forall i :: i in Marked(b, n) <==> 0 <= i < n && b[i]
    ensures forall j, k :: 0 <= j < k < |Marked(b, n)| ==> Marked(b, n)[j] > Marked(b, n)[k]
    ensures |Marked(b, n)| == PopCount(b, n)
  {
    if n > 0 {
      MarkedExact(b, n - 1);
      var m := Marked(b, n - 1);
      forall k | 0 <= k < |m| ensures m[k] < n - 1 { assert m[k] in m; }
    }
  }

  /** `b` with every bit at or above `k` cleared. */
  function Below(b: Bitboard, k: nat): Bitboard
  {
    seq(64, i requires 0 <= i < 64 => i < k && b[i])
  }

  lemma {:induction false} MarkedSkip(b: Bitboard, m: nat, k: nat)
    requires m <= k <= 64
    requires forall j :: m <= j < k ==> !b[j]
    ensures Marked(b, k) == Marked(b, m)
  {
    if k > m {
      MarkedSkip(b, m, k - 1);
    }
  }

  /** `marked_pos`: repeatedly takes `bb_get_pos` of `b`, records it and clears
    * that bit, until `b` is zero. */
  method MarkedPos(b0: Bitboard) returns (result: seq<int>)
    ensures result == Marked(b0, 64)
  {
    var b := b0;
    result := [];
    ghost var k: nat := 64;
    while b != Zero
      invariant k <= 64
      invariant forall i :: 0 <= i < 64 ==> b[i] == (i < k && b0[i])
      invariant result + Marked(b0, k) == Marked(b0, 64)
      decreases k
    {
      GetPosIsHighestBit(b);
      var n := GetPos(b);
      assert 0 <= n < k && b0[n];
      assert forall j :: n + 1 <= j < k ==> !b0[j] by {
        forall j | n + 1 <= j < k ensures !b0[j] { assert !b[j]; }
      }
      MarkedSkip(b0, n + 1, k);
      assert Marked(b0, n + 1) == [n] + Marked(b0, n);
      assert (result + [n]) + Marked(b0, n) == result + ([n] + Marked(b0, n));
      result := result + [n];
      b := And(b, Not(Pmask(n)));
      k := n;
    }
    assert forall j :: 0 <= j < k ==> !b0[j] by {
      forall j | 0 <= j < k ensures !b0[j] { assert !b[j]; }
    }
    MarkedSkip(b0, 0, k);
  }

  /** `marked_pos` reports each set bit exactly once, most significant first. */
  lemma MarkedPosCorrect(b: Bitboard)
    ensures forall i :: i in Marked(b, 64) <==> 0 <= i < 64 && b[i]
    ensures forall j, k :: 0 <= j < k < |Marked(b, 64)| ==> Marked(b, 64)[j] > Marked(b, 64)[k]
    ensures |Marked(b, 64)| == PopCount(b, 64)
  {
    MarkedExact(b, 64);
  }

  /** Four boards joined, as `a | b | c | d`. */
  function Join4(a: Bitboard, b: Bitboard, c: Bitboard, d: Bitboard): Bitboard
  {
    Or(Or(Or(a, b), c), d)
  }

  lemma HasOr(a: Bitboard, b: Bitboard, x: int, y: int)
    ensures Has(Or(a, b), x, y) <==> Has(a, x, y) || Has(b, x, y)
  {
  }

  lemma HasJoin4(a: Bitboard, b: Bitboard, c: Bitboard, d: Bitboard, x: int, y: int)
    ensures Has(Join4(a, b, c, d), x, y) <==> Has(a, x, y) || Has(b, x, y) || Has(c, x, y) || Has(d, x, y)
  {
    HasOr(a, b, x, y); HasOr(Or(a, b), c, x, y); HasOr(Or(Or(a, b), c), d, x, y);
  }

  /** Square `(x, y)` lies on the rank or file of `(px, py)`, between 1 and `n - 1` steps away. */
  predicate RookLine(px: int, py: int, x: int, y: int, n: int)
  {
    (x == px && y != py && py - n < y < py + n) || (y == py && x != px && px - n < x < px + n)
  }

  /** Square `(x, y)` lies on a diagonal of `(px, py)`, between 1 and `n - 1` steps away. */
  predicate BishopLine(px: int, py: int, x: int, y: int, n: int)
  {
    x != px && (x - px == y - py || x - px == py - y) && px - n < x < px + n
  }

  /** Square `(x, y)` is `k` steps from `(px, py)` along its file or rank. */
  predicate RookRing(px: int, py: int, k: int, x: int, y: int)
  {
    (x == px && y == py + k) || (x == px && y == py - k) || (x == px - k && y == py) || (x == px + k && y == py)
  }

  /** Square `(x, y)` is `k` steps from `(px, py)` along a diagonal. */
  predicate BishopRing(px: int, py: int, k: int, x: int, y: int)
  {
    (x == px - k && y == py + k) || (x == px + k && y == py + k) || (x == px - k && y == py - k) || (x == px + k && y == py - k)
  }

  /** One more round adds exactly the four squares `k` steps away along the rank and file. */
  lemma RookLineStep(px: int, py: int, k: int, x: int, y: int)
    requires k >= 1
    ensures RookLine(px, py, x, y, k + 1) <==> RookLine(px, py, x, y, k) || RookRing(px, py, k, x, y)
  {
  }

  /** One more round adds exactly the four diagonal squares `k` steps away. */
  lemma BishopLineStep(px: int, py: int, k: int, x: int, y: int)
    requires k >= 1
    ensures BishopLine(px, py, x, y, k + 1) <==> BishopLine(px, py, x, y, k) || BishopRing(px, py, k, x, y)
  {
  }

  /** Board `b` holds exactly square `(x0, y0)`, or nothing when that is off the board. */
  ghost predicate Only(b: Bitboard, x0: int, y0: int)
  {
    forall x, y :: Has(b, x, y) <==> OnBoard(x, y) && x == x0 && y == y0
  }

  /** `pmask(pos)` holds only the square of `pos`. */
  lemma PmaskOnly(pos: int)
    requires 0 <= pos < 64
    ensures Only(Pmask(pos), pos % 8, pos / 8)
  {
    forall x, y
      ensures Has(Pmask(pos), x, y) <==> OnBoard(x, y) && x == pos % 8 && y == pos / 8
    {
      PmaskHas(pos, x, y);
    }
  }

  /** Each shift moves the one square of a ray that started on the board one step on. */
  lemma NorthOnly(b: Bitboard, x0: int, y0: int)
    requires Only(b, x0, y0) && 0 <= x0 < 8 && y0 >= 0
    ensures Only(ShiftNorth(b), x0, y0 + 1)
  {
    forall x, y ensures Has(ShiftNorth(b), x, y) <==> OnBoard(x, y) && x == x0 && y == y0 + 1 {
      NorthSquares(b, x, y);
    }
  }

  lemma SouthOnly(b: Bitboard, x0: int, y0: int)
    requires Only(b, x0, y0) && 0 <= x0 < 8 && y0 < 8
    ensures Only(ShiftSouth(b), x0, y0 - 1)
  {
    forall x, y ensures Has(ShiftSouth(b), x, y) <==> OnBoard(x, y) && x == x0 && y == y0 - 1 {
      SouthSquares(b, x, y);
    }
  }

  lemma WestOnly(b: Bitboard, x0: int, y0: int)
    requires Only(b, x0, y0) && x0 < 8 && 0 <= y0 < 8
    ensures Only(ShiftWest(b), x0 - 1, y0)
  {
    forall x, y ensures Has(ShiftWest(b), x, y) <==> OnBoard(x, y) && x == x0 - 1 && y == y0 {
      WestSquares(b, x, y);
    }
  }

  lemma EastOnly(b: Bitboard, x0: int, y0: int)
    requires Only(b, x0, y0) && x0 >= 0 && 0 <= y0 < 8
    ensures Only(ShiftEast(b), x0 + 1, y0)
  {
    forall x, y ensures Has(ShiftEast(b), x, y) <==> OnBoard(x, y) && x == x0 + 1 && y == y0 {
      EastSquares(b, x, y);
    }
  }

  lemma NorthwestOnly(b: Bitboard, x0: int, y0: int)
    requires Only(b, x0, y0) && x0 < 8 && y0 >= 0
    ensures Only(ShiftNorthwest(b), x0 - 1, y0 + 1)
  {
    forall x, y ensures Has(ShiftNorthwest(b), x, y) <==> OnBoard(x, y) && x == x0 - 1 && y == y0 + 1 {
      NorthwestSquares(b, x, y);
    }
  }

  lemma NortheastOnly(b: Bitboard, x0: int, y0: int)
    requires Only(b, x0, y0) && x0 >= 0 && y0 >= 0
    ensures Only(ShiftNortheast(b), x0 + 1, y0 + 1)
  {
    forall x, y ensures Has(ShiftNortheast(b), x, y) <==> OnBoard(x, y) && x == x0 + 1 && y == y0 + 1 {
      NortheastSquares(b, x, y);
    }
  }

  lemma SouthwestOnly(b: Bitboard, x0: int, y0: int)
    requires Only(b, x0, y0) && x0 < 8 && y0 < 8
    ensures Only(ShiftSouthwest(b), x0 - 1, y0 - 1)
  {
    forall x, y ensures Has(ShiftSouthwest(b), x, y) <==> OnBoard(x, y) && x == x0 - 1 && y == y0 - 1 {
      SouthwestSquares(b, x, y);
    }
  }

  lemma SoutheastOnly(b: Bitboard, x0: int, y0: int)
    requires Only(b, x0, y0) && x0 >= 0 && y0 < 8
    ensures Only(ShiftSoutheast(b), x0 + 1, y0 - 1)
  {
    forall x, y ensures Has(ShiftSoutheast(b), x, y) <==> OnBoard(x, y) && x == x0 + 1 && y == y0 - 1 {
      SoutheastSquares(b, x, y);
    }
  }

  /** The mask after round `k` of a rook generator: the mask before it joined
    * with the four ray ends `k` steps away. */
  lemma RookRoundSquares(px: int, py: int, k: int, bb: Bitboard, a: Bitboard, b: Bitboard, c: Bitboard, d: Bitboard)
    requires k >= 1 && forall x, y :: Has(bb, x, y) <==> OnBoard(x, y) && RookLine(px, py, x, y, k)
    requires Only(a, px, py + k) && Only(b, px, py - k) && Only(c, px - k, py) && Only(d, px + k, py)
    ensures forall x, y :: Has(Or(bb, Join4(a, b, c, d)), x, y) <==> OnBoard(x, y) && RookLine(px, py, x, y, k + 1)
  {
    forall x, y
      ensures Has(Or(bb, Join4(a, b, c, d)), x, y) <==> OnBoard(x, y) && RookLine(px, py, x, y, k + 1)
    {
      HasOr(bb, Join4(a, b, c, d), x, y);
      HasJoin4(a, b, c, d, x, y);
      RookLineStep(px, py, k, x, y);
    }
  }

  lemma BishopRoundSquares(px: int, py: int, k: int, bb: Bitboard, a: Bitboard, b: Bitboard, c: Bitboard, d: Bitboard)
    requires k >= 1 && forall x, y :: Has(bb, x, y) <==> OnBoard(x, y) && BishopLine(px, py, x, y, k)
    requires Only(a, px - k, py + k) && Only(b, px + k, py + k) && Only(c, px - k, py - k) && Only(d, px + k, py - k)
    ensures forall x, y :: Has(Or(bb, Join4(a, b, c, d)), x, y) <==> OnBoard(x, y) && BishopLine(px, py, x, y, k + 1)
  {
    forall x, y
      ensures Has(Or(bb, Join4(a, b, c, d)), x, y) <==> OnBoard(x, y) && BishopLine(px, py, x, y, k + 1)
    {
      HasOr(bb, Join4(a, b, c, d), x, y);
      HasJoin4(a, b, c, d, x, y);
      BishopLineStep(px, py, k, x, y);
    }
  }

  /** `rook_copy_mask_data` entry for square `pos` and reach `n`: four rays
    * grown one step per round, for `n - 1` rounds. It holds exactly the
    * on-board squares of the rank and file of `pos` less than `n` steps away. */
  method RookCopyMask(pos: int, n: nat) returns (bb: Bitboard)
    requires 0 <= pos < 64
    ensures forall x, y :: Has(bb, x, y) <==> OnBoard(x, y) && RookLine(pos % 8, pos / 8, x, y, n)
  {
    ghost var px, py := pos % 8, pos / 8;
    PmaskOnly(pos);
    var a, b, c, d := Pmask(pos), Pmask(pos), Pmask(pos), Pmask(pos);
    bb := Zero;
    var i := 1;
    while i < n
      invariant 1 <= i && (i <= n || i == 1)
      invariant Only(a, px, py + (i - 1)) && Only(b, px, py - (i - 1))
      invariant Only(c, px - (i - 1), py) && Only(d, px + (i - 1), py)
      invariant forall x, y :: Has(bb, x, y) <==> OnBoard(x, y) && RookLine(px, py, x, y, i)
    {
      NorthOnly(a, px, py + (i - 1)); SouthOnly(b, px, py - (i - 1));
      WestOnly(c, px - (i - 1), py); EastOnly(d, px + (i - 1), py);
      a := ShiftNorth(a);
      b := ShiftSouth(b);
      c := ShiftWest(c);
      d := ShiftEast(d);
      RookRoundSquares(px, py, i, bb, a, b, c, d);
      bb := Or(bb, Join4(a, b, c, d));
      i := i + 1;
    }
  }

  /** `bishop_copy_mask_data` entry for square `pos` and reach `n`, built with the
    * eastward diagonal shifts that clear the h-file. It holds exactly the
    * on-board squares of the diagonals of `pos` less than `n` steps away. */
  method BishopCopyMask(pos: int, n: nat) returns (bb: Bitboard)
    requires 0 <= pos < 64
    ensures forall x, y :: Has(bb, x, y) <==> OnBoard(x, y) && BishopLine(pos % 8, pos / 8, x, y, n)
  {
    ghost var px, py := pos % 8, pos / 8;
    PmaskOnly(pos);
    var a, b, c, d := Pmask(pos), Pmask(pos), Pmask(pos), Pmask(pos);
    bb := Zero;
    var i := 1;
    while i < n
      invariant 1 <= i && (i <= n || i == 1)
      invariant Only(a, px - (i - 1), py + (i - 1)) && Only(b, px + (i - 1), py + (i - 1))
      invariant Only(c, px - (i - 1), py - (i - 1)) && Only(d, px + (i - 1), py - (i - 1))
      invariant forall x, y :: Has(bb, x, y) <==> OnBoard(x, y) && BishopLine(px, py, x, y, i)
    {
      NorthwestOnly(a, px - (i - 1), py + (i - 1)); NortheastOnly(b, px + (i - 1), py + (i - 1));
      SouthwestOnly(c, px - (i - 1), py - (i - 1)); SoutheastOnly(d, px + (i - 1), py - (i - 1));
      a := ShiftNorthwest(a);
      b := ShiftNortheast(b);
      c := ShiftSouthwest(c);
      d := ShiftSoutheast(d);
      BishopRoundSquares(px, py, i, bb, a, b, c, d);
      bb := Or(bb, Join4(a, b, c, d));
      i := i + 1;
    }
  }

  /** `queen_copy_mask_data`: the rook and bishop masks of the same entry joined,
    * so it holds exactly the squares on either kind of line. */
  method QueenCopyMask(pos: int, n: nat) returns (bb: Bitboard)
    requires 0 <= pos < 64
    ensures forall x, y :: Has(bb, x, y) <==>
      OnBoard(x, y) && (RookLine(pos % 8, pos / 8, x, y, n) || BishopLine(pos % 8, pos / 8, x, y, n))
  {
    var r := RookCopyMask(pos, n);
    var b := BishopCopyMask(pos, n);
    bb := Or(r, b);
    forall x, y
      ensures Has(bb, x, y) <==>
        OnBoard(x, y) && (RookLine(pos % 8, pos / 8, x, y, n) || BishopLine(pos % 8, pos / 8, x, y, n))
    {
      HasOr(r, b, x, y);
    }
  }
}
