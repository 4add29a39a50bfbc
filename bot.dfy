/** The search bot's sequential parts (`bot.cpp`): the transposition table
  * with its replacement policy, the material value of a piece, the two
  * integer move-ordering scores, and the sampler that keeps the best-scored
  * candidate actions. Threads, atomics and memory orders are not modelled:
  * the table is read and written by one caller at a time. */
module Bot {
  import opened Wrappers
  import Seqs
  import Action

  type FullMove = Action.FullMove

  function Min(a: int, b: int): int { if a <= b then a else b }
  function Max(a: int, b: int): int { if a >= b then a else b }
  function Abs(a: int): nat { if a < 0 then -a else a }

  // ---------------------------------------------------------------------------
  // Machine integers

  /** `size_t` and `uint64_t` hold values below 2^64. */
  const U64: nat := 0x1_0000_0000_0000_0000

  function Pow2(k: nat): (r: nat)
    ensures r > 0
  {
    if k == 0 then 1 else 2 * Pow2(k - 1)
  }

  /** `a & b` on non-negative integers, bit by bit from the lowest. */
  function BitAnd(a: nat, b: nat): nat
    decreases a
  {
    if a == 0 || b == 0 then 0
    else (if a % 2 == 1 && b % 2 == 1 then 1 else 0) + 2 * BitAnd(a / 2, b / 2)
  }

  lemma MulAtLeast(a: int, d: int)
    requires a >= 1 && d > 0
    ensures a * d >= d
  {
  }

  /** Quotient and remainder are the only ones with `0 <= r < d`. */
  lemma ModUnique(h: nat, d: nat, q: nat, r: nat)
    requires d > 0 && h == q * d + r && r < d
    ensures h % d == r && h / d == q
  {
    var q', r' := h / d, h % d;
    assert (q - q') * d == r' - r;
    if q > q' {
      MulAtLeast(q - q', d);
    } else if q < q' {
      MulAtLeast(q' - q, d);
    }
  }

  lemma ModSplit(h: nat, p: nat)
    requires p > 0
    ensures h % (2 * p) == h % 2 + 2 * ((h / 2) % p)
  {
    var q, r := (h / 2) / p, (h / 2) % p;
    assert h / 2 == q * p + r;
    assert h == q * (2 * p) + (2 * r + h % 2);
    ModUnique(h, 2 * p, q, 2 * r + h % 2);
  }

  /** Masking with `2^k - 1` keeps the remainder modulo `2^k`. */
  lemma {:induction false} MaskIsMod(h: nat, k: nat)
    ensures BitAnd(h, Pow2(k) - 1) == h % Pow2(k)
  {
    if k == 0 {
      assert Pow2(k) == 1;
      assert h % 1 == 0;
      assert BitAnd(h, 0) == 0;
    } else if h > 0 {
      var p := Pow2(k - 1);
      var m := Pow2(k) - 1;
      assert Pow2(k) == 2 * p;
      assert m == (p - 1) * 2 + 1;
      ModUnique(m, 2, p - 1, 1);
      var low := if h % 2 == 1 then 1 else 0;
      assert low == h % 2;
      assert BitAnd(h, m) == low + 2 * BitAnd(h / 2, p - 1);
      MaskIsMod(h / 2, k - 1);
      ModSplit(h, p);
      assert BitAnd(h, m) == h % (2 * p);
    } else {
      assert BitAnd(h, Pow2(k) - 1) == 0;
      assert h == 0;
      assert 0 % Pow2(k) == 0;
    }
  }

  /** `static_cast<int16_t>`: the value modulo 2^16, read back as signed. */
  function Int16(x: int): (r: int)
    ensures -32768 <= r < 32768 && (r - x) % 65536 == 0
    ensures -32768 <= x < 32768 ==> r == x
  {
    (x + 32768) % 65536 - 32768
  }

  // ---------------------------------------------------------------------------
  // The transposition table

  /** A `TTEntry`: the position's hash (0 marks an empty slot), its score,
    * the depth it was searched to, the bound flag, the search that wrote it,
    * and the best action found. */
  datatype Entry = Entry(hash: nat, score: int, depth: int, flag: nat, age: nat, bestMove: seq<FullMove>)

  /** A default-constructed entry, also what `clear` leaves. */
  const EmptyEntry: Entry := Entry(0, 0, 0, 0, 0, [])

  /** `sizeof(TTEntry)` on a 64-bit target: five atomics padded to 16 bytes
    * and a 24-byte `std::vector`. */
  const EntryBytes: nat := 40

  /** `size_mb * 1024 * 1024 / sizeof(TTEntry)` in `size_t` arithmetic. */
  function Entries(sizeMb: nat): nat
  {
    ((sizeMb * 1048576) % U64) / EntryBytes
  }

  /** The constructor's rounding loop: doubles `power` while the double still
    * fits in `n`. */
  method RoundDown(n: nat) returns (power: nat, ghost k: nat)
    ensures power == Pow2(k) && power <= Max(n, 1) < 2 * power
  {
    power, k := 1, 0;
    while power * 2 <= n
      invariant power == Pow2(k) && power <= Max(n, 1)
      decreases n - power
    {
      power, k := power * 2, k + 1;
    }
  }

  lemma {:induction false} Pow2Grows(a: nat, b: nat)
    requires a < b
    ensures Pow2(b) >= 2 * Pow2(a)
    decreases b
  {
    if a < b - 1 {
      Pow2Grows(a, b - 1);
    }
  }

  /** Only one power of two `p` has `p <= max(n, 1) < 2p`: the table size is
    * the largest power of two that fits. */
  lemma RoundDownUnique(n: nat, a: nat, b: nat)
    requires Pow2(a) <= Max(n, 1) < 2 * Pow2(a)
    requires Pow2(b) <= Max(n, 1) < 2 * Pow2(b)
    ensures a == b
  {
    if a < b {
      Pow2Grows(a, b);
    } else if b < a {
      Pow2Grows(b, a);
    }
  }

  /** The default 128 MB table has 2^21 entries. */
  lemma DefaultTableSize()
    ensures Entries(128) == 3355443
    ensures Pow2(21) <= Max(Entries(128), 1) < 2 * Pow2(21)
  {
    assert Pow2(10) == 1024;
    assert Pow2(20) == 1048576;
  }

  /** `store` overwrites a slot that is empty, holds the same position,
    * was written by an earlier search, or holds a search no deeper. */
  predicate Replaces(held: Entry, hash: nat, depth: int, curAge: nat)
  {
    held.hash == 0 || held.hash == hash || held.age != curAge || depth >= held.depth
  }

  /** The entry `store` writes: the depth narrowed to `int16_t`. */
  function Written(hash: nat, score: int, depth: int, flag: nat, curAge: nat, bestMove: seq<FullMove>): Entry
  {
    Entry(hash, score, Int16(depth), flag, curAge, bestMove)
  }

  /** The table after `store` at slot `i`. */
  function StoreAt(t: seq<Entry>, i: nat, hash: nat, score: int, depth: int, flag: nat, curAge: nat, bestMove: seq<FullMove>): seq<Entry>
    requires i < |t|
  {
    if Replaces(t[i], hash, depth, curAge) then t[i := Written(hash, score, depth, flag, curAge, bestMove)] else t
  }

  /** `probe` at slot `i`: the entry when it holds exactly `hash`. */
  function ProbeAt(t: seq<Entry>, i: nat, hash: nat): Option<Entry>
    requires i < |t|
  {
    if t[i].hash == hash then Some(t[i]) else None
  }

  /** A store that replaces is seen by the next probe of the same position,
    * with the data just written; probes of other slots see no change. */
  lemma StoreThenProbe(t: seq<Entry>, i: nat, hash: nat, score: int, depth: int, flag: nat, curAge: nat, bestMove: seq<FullMove>)
    requires i < |t|
    ensures var t' := StoreAt(t, i, hash, score, depth, flag, curAge, bestMove);
      |t'| == |t|
      && (Replaces(t[i], hash, depth, curAge) ==> ProbeAt(t', i, hash) == Some(Written(hash, score, depth, flag, curAge, bestMove)))
      && (forall j, h :: 0 <= j < |t| && j != i ==> ProbeAt(t', j, h) == ProbeAt(t, j, h))
  {
  }

  /** Within one search, a slot holding another position keeps whichever of
    * the two was searched deeper (the newcomer on a tie). */
  lemma StoreKeepsDeeper(t: seq<Entry>, i: nat, hash: nat, score: int, depth: int, flag: nat, curAge: nat, bestMove: seq<FullMove>)
    requires i < |t| && t[i].hash != 0 && t[i].hash != hash && t[i].age == curAge
    ensures StoreAt(t, i, hash, score, depth, flag, curAge, bestMove)[i]
      == if depth >= t[i].depth then Written(hash, score, depth, flag, curAge, bestMove) else t[i]
  {
  }

  /** The number of slots holding a position. */
  function CountFilled(t: seq<Entry>): (r: nat)
    ensures r <= |t|
  {
    if t == [] then 0 else CountFilled(t[..|t| - 1]) + (if t[|t| - 1].hash != 0 then 1 else 0)
  }

  /** Overwriting one slot changes the count by what that slot held and holds. */
  lemma {:induction false} CountFilledUpdate(t: seq<Entry>, i: nat, e: Entry)
    requires i < |t|
    ensures CountFilled(t[i := e]) + (if t[i].hash != 0 then 1 else 0)
      == CountFilled(t) + (if e.hash != 0 then 1 else 0)
    decreases |t|
  {
    var n := |t| - 1;
    assert t[i := e][..n] == if i < n then t[..n][i := e] else t[..n];
    if i < n {
      CountFilledUpdate(t[..n], i, e);
    }
  }

  /** Storing a position never empties a slot, so the filled count never drops. */
  lemma StoreNeverEmpties(t: seq<Entry>, i: nat, hash: nat, score: int, depth: int, flag: nat, curAge: nat, bestMove: seq<FullMove>)
    requires i < |t| && hash != 0
    ensures CountFilled(t) <= CountFilled(StoreAt(t, i, hash, score, depth, flag, curAge, bestMove)) <= CountFilled(t) + 1
  {
    CountFilledUpdate(t, i, Written(hash, score, depth, flag, curAge, bestMove));
  }

  /** A cleared table is empty. */
  lemma {:induction false} CountFilledEmpty(t: seq<Entry>)
    requires forall i :: 0 <= i < |t| ==> t[i] == EmptyEntry
    ensures CountFilled(t) == 0
    decreases |t|
  {
    if t != [] {
      CountFilledEmpty(t[..|t| - 1]);
    }
  }

  /** `TranspositionTable`: a power-of-two vector of entries indexed by
    * `hash & mask`, and the age of the current search (a `uint8_t`). */
  class TranspositionTable {
    const table: array<Entry>
    const mask: nat
    var currentAge: nat
    ghost const bits: nat

    ghost predicate Valid()
      reads this
    {
      table.Length == Pow2(bits) && mask == table.Length - 1 && currentAge < 256
    }

    /** The table holds the largest power of two entries that fit in `size_mb`
      * megabytes, at least one, all empty. */
    constructor(sizeMb: nat)
      ensures Valid() && fresh(table)
      ensures table.Length <= Max(Entries(sizeMb), 1) < 2 * table.Length
      ensures forall i :: 0 <= i < table.Length ==> table[i] == EmptyEntry
      ensures currentAge == 0
    {
      var n := Entries(sizeMb);
      var power, k := RoundDown(n);
      table := new Entry[power](_ => EmptyEntry);
      mask := power - 1;
      bits := k;
      currentAge := 0;
    }

    /** `hash & mask`: the hash modulo the table size. */
    function Slot(hash: nat): (i: nat)
      reads this
      requires Valid()
      ensures i == hash % table.Length && i < table.Length
    {
      MaskIsMod(hash, bits);
      BitAnd(hash, mask)
    }

    /** `clear`: every entry back to the default; the age is kept. */
    method Clear()
      requires Valid()
      modifies table
      ensures forall i :: 0 <= i < table.Length ==> table[i] == EmptyEntry
    {
      for i := 0 to table.Length
        invariant forall j :: 0 <= j < i ==> table[j] == EmptyEntry
      {
        table[i] := EmptyEntry;
      }
    }

    /** `new_search`: the age moves on, wrapping at 256. */
    method NewSearch()
      requires Valid()
      modifies this
      ensures Valid()
      ensures currentAge == (old(currentAge) + 1) % 256
    {
      currentAge := (currentAge + 1) % 256;
    }

    method Store(hash: nat, score: int, depth: int, flag: nat, bestMove: seq<FullMove>)
      requires Valid()
      modifies table
      ensures table[..] == StoreAt(old(table[..]), Slot(hash), hash, score, depth, flag, currentAge, bestMove)
    {
      var idx := BitAnd(hash, mask);
      MaskIsMod(hash, bits);
      var entry := table[idx];
      if Replaces(entry, hash, depth, currentAge) {
        table[idx] := Written(hash, score, depth, flag, currentAge, bestMove);
      }
    }

    /** `probe`: whether the slot of `hash` holds exactly `hash`; if so its
      * fields are copied out, otherwise `out_entry` is left as it was. */
    method Probe(hash: nat, prior: Entry) returns (found: bool, out: Entry)
      requires Valid()
      ensures found <==> ProbeAt(table[..], Slot(hash), hash).Some?
      ensures out == if found then ProbeAt(table[..], Slot(hash), hash).value else prior
    {
      var idx := BitAnd(hash, mask);
      MaskIsMod(hash, bits);
      var entry := table[idx];
      if entry.hash == hash {
        return true, entry;
      }
      return false, prior;
    }

    /** `get_stats`: the filled slots and the table size. */
    method GetStats() returns (filled: nat, total: nat)
      requires Valid()
      ensures filled == CountFilled(table[..]) && total == table.Length
      ensures filled <= total
    {
      filled := 0;
      for i := 0 to table.Length
        invariant filled == CountFilled(table[..i])
      {
        assert table[..i + 1][..i] == table[..i];
        if table[i].hash != 0 {
          filled := filled + 1;
        }
      }
      assert table[..table.Length] == table[..];
      total := table.Length;
    }
  }

  // ---------------------------------------------------------------------------
  // Material

  /** Piece kinds, colour and the unmoved flag already stripped. */
  datatype Kind = Pawn | Knight | Bishop | Rook | Queen | King | Unicorn | Dragon
    | Princess | Brawn | CommonKing | RoyalQueen

  /** A board square's content: a piece of some kind and colour, or anything
    * else (empty, wall). */
  datatype Piece = Piece(kind: Kind, white: bool, unmoved: bool) | Other

  /** `get_piece_value`: the value of the white-normalised kind; kings and
    * non-pieces count nothing. */
  function PieceValue(p: Piece): (v: int)
    ensures 0 <= v <= 1000
    ensures v == 0 <==> p.Other? || p.kind == King
    ensures v == 1000 <==> p.Piece? && p.kind == RoyalQueen
  {
    match p
    case Other => 0
    case Piece(k, _, _) =>
      match k
      case Pawn => 100
      case Knight => 320
      case Bishop => 330
      case Rook => 500
      case Queen => 900
      case King => 0
      case Unicorn => 400
      case Dragon => 600
      case Princess => 700
      case Brawn => 150
      case CommonKing => 350
      case RoyalQueen => 1000
  }

  // ---------------------------------------------------------------------------
  // Move-ordering scores

  predicate ChangesLine(m: FullMove) { m.from.l != m.to.l }
  predicate ChangesTime(m: FullMove) { m.from.t != m.to.t }

  /** The move lands on a line of the active range. */
  predicate LandsActive(m: FullMove, activeMin: int, activeMax: int)
  {
    activeMin <= m.to.l <= activeMax
  }

  /** One move's share of `score_timeline_jump`. */
  function JumpBonus(m: FullMove, activeMin: int, activeMax: int): int
  {
    (if ChangesLine(m) then 500 + (if LandsActive(m, activeMin, activeMax) then 200 else 0) else 0)
    + (if ChangesTime(m) then 300 else 0)
  }

  function JumpScore(action: seq<FullMove>, activeMin: int, activeMax: int): (r: int)
    ensures 0 <= r <= 1000 * |action|
  {
    if action == [] then 0
    else JumpScore(action[..|action| - 1], activeMin, activeMax) + JumpBonus(action[|action| - 1], activeMin, activeMax)
  }

  /** `score_timeline_jump`. */
  method ScoreTimelineJump(action: seq<FullMove>, activeMin: int, activeMax: int) returns (score: int)
    ensures score == JumpScore(action, activeMin, activeMax)
  {
    score := 0;
    for i := 0 to |action|
      invariant score == JumpScore(action[..i], activeMin, activeMax)
    {
      assert action[..i + 1][..i] == action[..i];
      var m := action[i];
      if m.from.l != m.to.l {
        score := score + 500;
        if m.to.l >= activeMin && m.to.l <= activeMax {
          score := score + 200;
        }
      }
      if m.from.t != m.to.t {
        score := score + 300;
      }
    }
    assert action[..|action|] == action;
  }

  /** How many moves change line, change line into the active range, and
    * change time. */
  function Branching(action: seq<FullMove>): nat
  {
    if action == [] then 0 else Branching(action[..|action| - 1]) + (if ChangesLine(action[|action| - 1]) then 1 else 0)
  }

  function BranchingActive(action: seq<FullMove>, activeMin: int, activeMax: int): nat
  {
    if action == [] then 0
    else
      var m := action[|action| - 1];
      BranchingActive(action[..|action| - 1], activeMin, activeMax)
        + (if ChangesLine(m) && LandsActive(m, activeMin, activeMax) then 1 else 0)
  }

  function Travelling(action: seq<FullMove>): nat
  {
    if action == [] then 0 else Travelling(action[..|action| - 1]) + (if ChangesTime(action[|action| - 1]) then 1 else 0)
  }

  /** The score counts 500 per line change, 200 more per line change into
    * the active range, and 300 per time change. */
  lemma {:induction false} JumpScoreCounts(action: seq<FullMove>, activeMin: int, activeMax: int)
    ensures JumpScore(action, activeMin, activeMax)
      == 500 * Branching(action) + 200 * BranchingActive(action, activeMin, activeMax) + 300 * Travelling(action)
    decreases |action|
  {
    if action != [] {
      JumpScoreCounts(action[..|action| - 1], activeMin, activeMax);
    }
  }

  /** The score is zero exactly when no move leaves its line or its time. */
  lemma {:induction false} JumpScoreZero(action: seq<FullMove>, activeMin: int, activeMax: int)
    ensures JumpScore(action, activeMin, activeMax) == 0
      <==> forall i :: 0 <= i < |action| ==> !ChangesLine(action[i]) && !ChangesTime(action[i])
    decreases |action|
  {
    if action != [] {
      var init := action[..|action| - 1];
      JumpScoreZero(init, activeMin, activeMax);
      assert forall i :: 0 <= i < |init| ==> init[i] == action[i];
    }
  }

  /** `size / 2` in C++: the quotient rounded toward zero. */
  function Half(n: int): int
  {
    if n < 0 then -((-n) / 2) else n / 2
  }

  /** The Manhattan distance of the target square from the centre. */
  function Distance(m: FullMove, sizeX: int, sizeY: int): nat
  {
    Abs(m.to.x - Half(sizeX)) + Abs(m.to.y - Half(sizeY))
  }

  function CenterScore(action: seq<FullMove>, sizeX: int, sizeY: int): int
  {
    if action == [] then 0
    else CenterScore(action[..|action| - 1], sizeX, sizeY) + (8 - Distance(action[|action| - 1], sizeX, sizeY)) * 5
  }

  /** `score_center_control`. */
  method ScoreCenterControl(action: seq<FullMove>, sizeX: int, sizeY: int) returns (score: int)
    ensures score == CenterScore(action, sizeX, sizeY)
  {
    score := 0;
    var centerX, centerY := Half(sizeX), Half(sizeY);
    for i := 0 to |action|
      invariant score == CenterScore(action[..i], sizeX, sizeY)
    {
      assert action[..i + 1][..i] == action[..i];
      var m := action[i];
      var dx := Abs(m.to.x - centerX);
      var dy := Abs(m.to.y - centerY);
      var dist: int := dx + dy;
      score := score + (8 - dist) * 5;
    }
    assert action[..|action| - 0] == action;
  }

  function TotalDistance(action: seq<FullMove>, sizeX: int, sizeY: int): nat
  {
    if action == [] then 0 else TotalDistance(action[..|action| - 1], sizeX, sizeY) + Distance(action[|action| - 1], sizeX, sizeY)
  }

  /** Each move is worth 40 less five per square of distance from the
    * centre: the score is at most `40` per move, reached exactly when every
    * move lands on the centre square. */
  lemma {:induction false} CenterScoreDistance(action: seq<FullMove>, sizeX: int, sizeY: int)
    ensures CenterScore(action, sizeX, sizeY) == 40 * |action| - 5 * TotalDistance(action, sizeX, sizeY)
    ensures CenterScore(action, sizeX, sizeY) <= 40 * |action|
    ensures CenterScore(action, sizeX, sizeY) == 40 * |action|
      <==> forall i :: 0 <= i < |action| ==> action[i].to.x == Half(sizeX) && action[i].to.y == Half(sizeY)
    decreases |action|
  {
    if action != [] {
      var init := action[..|action| - 1];
      CenterScoreDistance(init, sizeX, sizeY);
      assert forall i :: 0 <= i < |init| ==> init[i] == action[i];
    }
  }

  // ---------------------------------------------------------------------------
  // sample_actions

  /** A candidate action and its priority. */
  datatype Scored = Scored(action: seq<FullMove>, priority: int)

  /** The sort key: higher priority first. */
  function ByPriority(x: Scored): int { -x.priority }

  /** How many candidates are collected before the loop stops: `2·max_actions`,
    * but at least the first one, since the counter is checked after a push. */
  function Limit(maxActions: nat): nat
  {
    if maxActions == 0 then 1 else 2 * maxActions
  }

  function Pairs(found: seq<seq<FullMove>>, score: seq<FullMove> -> int): (r: seq<Scored>)
    ensures |r| == |found|
    ensures forall i :: 0 <= i < |r| ==> r[i] == Scored(found[i], score(found[i]))
  {
    seq(|found|, i requires 0 <= i < |found| => Scored(found[i], score(found[i])))
  }

  /** The candidates the loop collects, in the order the search yields them. */
  function Collected(found: seq<seq<FullMove>>, maxActions: nat, score: seq<FullMove> -> int): seq<Scored>
  {
    Pairs(found[..Min(|found|, Limit(maxActions))], score)
  }

  /** What `sample_actions` keeps of the candidates `c`: the `max_actions`
    * best of them (all of them when there are fewer), in descending priority,
    * and none ranked below a candidate it drops. Which of several candidates
    * with equal priority are kept, and in what order, `std::sort` leaves
    * open, and so does this predicate. */
  ghost predicate TopActions(r: seq<Scored>, c: seq<Scored>, maxActions: nat)
  {
    |r| == Min(maxActions, |c|)
    && (forall i, j :: 0 <= i < j < |r| ==> r[i].priority >= r[j].priority)
    && multiset(r) <= multiset(c)
    && (forall x, i :: x in multiset(c) - multiset(r) && 0 <= i < |r| ==> x.priority <= r[i].priority)
  }

  /** `sample_actions` over the actions the search yields, scored by `score`;
    * a negative `max_actions` makes `reserve` throw, modelled as `None`. */
  method SampleActions(found: seq<seq<FullMove>>, maxActions: int, score: seq<FullMove> -> int)
    returns (r: Option<seq<Scored>>)
    ensures r.None? <==> maxActions < 0
    ensures r.Some? ==> TopActions(r.value, Collected(found, maxActions, score), maxActions)
  {
    if maxActions < 0 {
      return None;
    }
    var actions: seq<Scored> := [];
    var count := 0;
    while count < |found|
      invariant count <= |found| && count <= Limit(maxActions)
      invariant count == 0 || count < maxActions * 2
      invariant actions == Pairs(found[..count], score)
      decreases |found| - count
    {
      var mvs := found[count];
      actions := actions + [Scored(mvs, score(mvs))];
      assert found[..count + 1] == found[..count] + [mvs];
      count := count + 1;
      if count >= maxActions * 2 {
        break;
      }
    }
    assert count == Min(|found|, Limit(maxActions));
    assert actions == Collected(found, maxActions, score);
    var sorted := Seqs.SortBy(actions, ByPriority);
    SortedCutIsTop(sorted, actions, maxActions);
    if |sorted| > maxActions {
      sorted := sorted[..maxActions];
    } else {
      assert sorted == sorted[..Min(maxActions, |sorted|)];
    }
    return Some(sorted);
  }

  /** Any list sorted by descending priority and cut at `n` keeps the best
    * `n` of its elements: so the sampler's result exists whatever order
    * `std::sort` gives equal priorities. */
  lemma SortedCutIsTop(sorted: seq<Scored>, c: seq<Scored>, n: nat)
    requires Seqs.SortedBy(sorted, ByPriority) && multiset(sorted) == multiset(c)
    ensures TopActions(sorted[..Min(n, |sorted|)], c, n)
  {
    var k := Min(n, |sorted|);
    var r, d := sorted[..k], sorted[k..];
    assert sorted == r + d;
    assert |sorted| == |c| by {
      assert |multiset(sorted)| == |sorted| && |multiset(c)| == |c|;
    }
    assert multiset(c) - multiset(r) == multiset(d);
    SortedCutOrder(sorted, k);
  }

  /** The front of a list sorted by descending priority is in descending
    * order and ranks above everything behind it. */
  lemma SortedCutOrder(sorted: seq<Scored>, k: nat)
    requires Seqs.SortedBy(sorted, ByPriority) && k <= |sorted|
    ensures forall i, j :: 0 <= i < j < k ==> sorted[..k][i].priority >= sorted[..k][j].priority
    ensures forall x: Scored, i :: x in multiset(sorted[k..]) && 0 <= i < k ==> x.priority <= sorted[..k][i].priority
  {
    var r, d := sorted[..k], sorted[k..];
    forall i, j | 0 <= i < j < k ensures r[i].priority >= r[j].priority {
      assert ByPriority(sorted[i]) <= ByPriority(sorted[j]);
    }
    forall x: Scored, i | x in multiset(d) && 0 <= i < k ensures x.priority <= r[i].priority {
      var j :| 0 <= j < |d| && d[j] == x;
      assert ByPriority(sorted[i]) <= ByPriority(sorted[k + j]);
    }
  }

  /** Every kept candidate is one of the first actions the search yielded,
    * with its own score, and as many are kept as `max_actions` allows. */
  lemma TopScored(found: seq<seq<FullMove>>, maxActions: nat, score: seq<FullMove> -> int, r: seq<Scored>)
    requires TopActions(r, Collected(found, maxActions, score), maxActions)
    ensures |r| == Min(maxActions, Min(|found|, Limit(maxActions)))
    ensures forall i :: 0 <= i < |r| ==>
      r[i].priority == score(r[i].action) && r[i].action in found[..Min(|found|, Limit(maxActions))]
  {
    var c := Collected(found, maxActions, score);
    forall i | 0 <= i < |r|
      ensures r[i].priority == score(r[i].action) && r[i].action in found[..Min(|found|, Limit(maxActions))]
    {
      assert r[i] in multiset(r);
      assert r[i] in multiset(c);
      var j :| 0 <= j < |c| && c[j] == r[i];
      assert found[..Min(|found|, Limit(maxActions))][j] == r[i].action;
    }
  }

  /** Two results that both keep the best candidates agree on the priorities
    * they keep, position by position: only ties are left open. */
  lemma {:induction false} TopPrioritiesDetermined(r1: seq<Scored>, r2: seq<Scored>, c: seq<Scored>, n: nat)
    requires TopActions(r1, c, n) && TopActions(r2, c, n)
    ensures |r1| == |r2|
    ensures forall i :: 0 <= i < |r1| ==> r1[i].priority == r2[i].priority
  {
    forall i | 0 <= i < |r1| ensures r1[i].priority == r2[i].priority {
      TopRank(r1, r2, c, n, i);
      TopRank(r2, r1, c, n, i);
    }
  }

  /** The `i`-th kept priority of one result is at least that of another. */
  lemma TopRank(r1: seq<Scored>, r2: seq<Scored>, c: seq<Scored>, n: nat, i: nat)
    requires TopActions(r1, c, n) && TopActions(r2, c, n) && i < |r1|
    ensures r1[i].priority >= r2[i].priority
  {
    var p := r1[i].priority;
    if p < r2[i].priority {
      var a1, ac, a2 := Seqs.Filter(r1, Above(p)), Seqs.Filter(c, Above(p)), Seqs.Filter(r2, Above(p));
      AboveAllKept(r1, c, n, i);
      FewAbove(r1, i);
      FilterSub(r2, c, Above(p));
      ManyAbove(r2, i, p);
      MultisetSizeLe(multiset(a2), multiset(ac));
      MultisetSizeLe(multiset(ac), multiset(a1));
    }
  }

  /** Every candidate ranked above the `i`-th kept one is kept. */
  lemma AboveAllKept(r: seq<Scored>, c: seq<Scored>, n: nat, i: nat)
    requires TopActions(r, c, n) && i < |r|
    ensures var above := Above(r[i].priority);
      forall x :: multiset(Seqs.Filter(c, above))[x] <= multiset(Seqs.Filter(r, above))[x]
  {
    var above := Above(r[i].priority);
    forall x ensures multiset(Seqs.Filter(c, above))[x] <= multiset(Seqs.Filter(r, above))[x] {
      Seqs.FilterMultiset(c, above, x);
      Seqs.FilterMultiset(r, above, x);
      assert (x in multiset(c) - multiset(r)) == (multiset(c)[x] > multiset(r)[x]);
    }
  }

  /** In descending order, at most `i` elements rank above the `i`-th. */
  lemma FewAbove(r: seq<Scored>, i: nat)
    requires i < |r| && forall a, b :: 0 <= a < b < |r| ==> r[a].priority >= r[b].priority
    ensures |Seqs.Filter(r, Above(r[i].priority))| <= i
  {
    var above := Above(r[i].priority);
    assert r == r[..i] + r[i..];
    Seqs.FilterAppend(r[..i], r[i..], above);
    Seqs.FilterNonePass(r[i..], above);
  }

  /** In descending order, the first `i + 1` elements rank above anything
    * below the `i`-th. */
  lemma ManyAbove(r: seq<Scored>, i: nat, p: int)
    requires i < |r| && r[i].priority > p
    requires forall a, b :: 0 <= a < b < |r| ==> r[a].priority >= r[b].priority
    ensures |Seqs.Filter(r, Above(p))| >= i + 1
  {
    var above := Above(p);
    assert r == r[..i + 1] + r[i + 1..];
    Seqs.FilterAppend(r[..i + 1], r[i + 1..], above);
    var front := r[..i + 1];
    forall k | 0 <= k < |front| ensures above(front[k]) {
      assert front[k] == r[k];
      assert r[k].priority >= r[i].priority;
    }
    Seqs.FilterAllPass(front, above);
  }

  /** Filtering keeps multiset inclusion. */
  lemma FilterSub(a: seq<Scored>, b: seq<Scored>, above: Scored -> bool)
    requires multiset(a) <= multiset(b)
    ensures forall x :: multiset(Seqs.Filter(a, above))[x] <= multiset(Seqs.Filter(b, above))[x]
  {
    forall x ensures multiset(Seqs.Filter(a, above))[x] <= multiset(Seqs.Filter(b, above))[x] {
      Seqs.FilterMultiset(a, above, x);
      Seqs.FilterMultiset(b, above, x);
    }
  }

  /** Priorities above `p`. */
  function Above(p: int): Scored -> bool
  {
    (x: Scored) => x.priority > p
  }

  lemma MultisetSizeLe<T>(a: multiset<T>, b: multiset<T>)
    requires forall x :: a[x] <= b[x]
    ensures |a| <= |b|
  {
    var d := b - a;
    assert b == a + d;
  }
}
