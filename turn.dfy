/** Turn arithmetic: a turn is a pair (move number, colour) with `false` for
  * white and `true` for black, linearised as `2n + c`. */
module Turn {
  import Text

  type Turn = (int, bool)

  /** The linear index `n<<1 | c`. */
  function Index(t: Turn): int { 2 * t.0 + (if t.1 then 1 else 0) }

  /** `(v>>1, v&1)`: arithmetic shift is floor division, `&1` the non-negative remainder. */
  function FromIndex(v: int): (t: Turn)
    ensures Index(t) == v
  {
    (v / 2, v % 2 == 1)
  }

  lemma FromIndexOfIndex(t: Turn)
    ensures FromIndex(Index(t)) == t
  {
  }

  function NextTurn(t: Turn): (r: Turn)
    ensures Index(r) == Index(t) + 1
    ensures !t.1 ==> r == (t.0, true)
    ensures t.1 ==> r == (t.0 + 1, false)
  {
    FromIndex(Index(t) + 1)
  }

  function PreviousTurn(t: Turn): (r: Turn)
    ensures Index(r) == Index(t) - 1
    ensures t.1 ==> r == (t.0, false)
    ensures !t.1 ==> r == (t.0 - 1, true)
  {
    FromIndex(Index(t) - 1)
  }

  lemma NextPreviousInverse(t: Turn)
    ensures PreviousTurn(NextTurn(t)) == t
    ensures NextTurn(PreviousTurn(t)) == t
  {
  }

  /** Turns compare as pairs: by number, then white before black. */
  predicate Less(a: Turn, b: Turn)
  {
    a.0 < b.0 || (a.0 == b.0 && !a.1 && b.1)
  }

  lemma LessIsIndexOrder(a: Turn, b: Turn)
    ensures Less(a, b) <==> Index(a) < Index(b)
  {
  }

  function ShowTurn(t: Turn): (s: string)
    ensures |s| >= 2
    ensures s[..|s| - 1] == Text.IntToString(t.0)
    ensures s[|s| - 1] == (if t.1 then 'b' else 'w')
  {
    Text.IntToString(t.0) + (if t.1 then "b" else "w")
  }

  lemma ShowTurnInjective(a: Turn, b: Turn)
    requires ShowTurn(a) == ShowTurn(b)
    ensures a == b
  {
    var sa, sb := ShowTurn(a), ShowTurn(b);
    assert sa[..|sa| - 1] == sb[..|sb| - 1];
    Text.IntToStringInjective(a.0, b.0);
  }

  datatype MatchStatus = Playing | WhiteWins | BlackWins | Stalemate

  /** `operator<<` for `match_status_t`: each enumerator prints as its own name. */
  function ShowStatus(m: MatchStatus): (s: string)
    ensures m.Playing? ==> s == "PLAYING"
    ensures m.WhiteWins? ==> s == "WHITE_WINS"
    ensures m.BlackWins? ==> s == "BLACK_WINS"
    ensures m.Stalemate? ==> s == "STALEMATE"
  {
    match m
    case Playing => "PLAYING"
    case WhiteWins => "WHITE_WINS"
    case BlackWins => "BLACK_WINS"
    case Stalemate => "STALEMATE"
  }

  lemma ShowStatusInjective(a: MatchStatus, b: MatchStatus)
    requires ShowStatus(a) == ShowStatus(b)
    ensures a == b
  {
  }
}
