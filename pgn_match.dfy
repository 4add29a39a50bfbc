/** The matchers of `pgnparser`: whether a move written with some parts left
  * out (the pattern) agrees with a fully written move. A pattern matches a
  * full move when every part it gives equals the full move's part. */
module PgnMatch {
  import opened Wrappers
  import opened PgnLexer
  import opened PgnGrammar

  /** `match_opt`: an absent part matches anything. */
  function MatchOpt<T(==)>(simple: Option<T>, full: Option<T>): (r: bool)
    ensures simple.None? ==> r
    ensures simple.Some? ==> (r <==> full == simple)
  {
    if simple.Some? then simple == full else true
  }

  /** `match_absolute_board`: the sign is compared only together with the
    * line; a time, when given, must agree. */
  function MatchAbsolute(simple: AbsoluteBoard, full: AbsoluteBoard): (r: bool)
    ensures r && simple.line.Some? ==> simple.sign == full.sign && simple.line == full.line
    ensures r && simple.time.Some? ==> simple.time == full.time
    ensures simple.line.None? && simple.time.None? ==> r
  {
    (simple.line.None? || (simple.sign, simple.line) == (full.sign, full.line))
    && MatchOpt(simple.time, full.time)
  }

  /** `match_relative_board`. */
  function MatchRelative(simple: RelativeBoard, full: RelativeBoard): (r: bool)
    ensures r && simple.lineDiff.Some? ==> simple.lineDiff == full.lineDiff
    ensures r && simple.timeDiff.Some? ==> simple.timeDiff == full.timeDiff
    ensures simple == RelativeBoard(None, None) ==> r
  {
    MatchOpt(simple.lineDiff, full.lineDiff) && MatchOpt(simple.timeDiff, full.timeDiff)
  }

  /** The king's move from the e-file to `toFile` on the first or last rank. */
  predicate KingStep(b: PhysicalMove, toFile: char)
  {
    && b.piece == Some('K') && b.fromFile == Some('e') && b.toFile == toFile
    && (b.fromRank == Some(1) || b.fromRank == Some(8))
    && Some(b.toRank) == b.fromRank
  }

  /** The board of a pattern, when it gives one, matches the full move's. */
  predicate BoardAgrees(simple: Option<AbsoluteBoard>, full: Option<AbsoluteBoard>)
    requires simple.Some? ==> full.Some?
  {
    simple.Some? ==> MatchAbsolute(simple.value, full.value)
  }

  /** `match_physical_move`: a castling pattern matches a castle of the same
    * side or the king's two-square move written out; any other pattern
    * compares its parts. The full move's board is dereferenced whenever the
    * pattern has one. */
  function MatchPhysical(a: PhysicalMove, b: PhysicalMove): (r: bool)
    requires a.board.Some? ==> b.board.Some?
    ensures r ==> BoardAgrees(a.board, b.board)
    ensures a.castle == CastleKingside ==>
      (r <==> BoardAgrees(a.board, b.board) && (b.castle == CastleKingside || KingStep(b, 'g')))
    ensures a.castle == CastleQueenside ==>
      (r <==> BoardAgrees(a.board, b.board) && (b.castle == CastleQueenside || KingStep(b, 'c')))
    ensures r && a.castle != CastleKingside && a.castle != CastleQueenside ==>
      && (a.capture ==> b.capture)
      && a.toFile == b.toFile && a.toRank == b.toRank
      && MatchOpt(a.piece, b.piece) && MatchOpt(a.promote, b.promote)
  {
    if a.board.Some? && !MatchAbsolute(a.board.value, b.board.value) then false
    else if a.castle == CastleKingside then
      b.castle == CastleKingside
      || (b.piece == Some('K') && b.fromFile == Some('e') && b.fromRank == Some(1) && b.toFile == 'g' && b.toRank == 1)
      || (b.piece == Some('K') && b.fromFile == Some('e') && b.fromRank == Some(8) && b.toFile == 'g' && b.toRank == 8)
    else if a.castle == CastleQueenside then
      b.castle == CastleQueenside
      || (b.piece == Some('K') && b.fromFile == Some('e') && b.fromRank == Some(1) && b.toFile == 'c' && b.toRank == 1)
      || (b.piece == Some('K') && b.fromFile == Some('e') && b.fromRank == Some(8) && b.toFile == 'c' && b.toRank == 8)
    else
      && MatchOpt(a.piece, b.piece)
      && MatchOpt(a.fromFile, b.fromFile)
      && MatchOpt(a.fromRank, b.fromRank)
      && (!a.capture || b.capture)
      && a.toFile == b.toFile
      && a.toRank == b.toRank
      && MatchOpt(a.promote, b.promote)
  }

  /** The destination board of a superphysical pattern: absent matches
    * anything, otherwise both must be of the same kind and match. */
  function MatchDestination(a: Destination, b: Destination): (r: bool)
    ensures a.NoBoard? ==> r
    ensures r && a.ToAbsolute? ==> b.ToAbsolute?
    ensures r && a.ToRelative? ==> b.ToRelative?
  {
    match a
    case NoBoard => true
    case ToAbsolute(x) => b.ToAbsolute? && MatchAbsolute(x, b.abs)
    case ToRelative(x) => b.ToRelative? && MatchRelative(x, b.rel)
  }

  /** `match_superphysical_move`. */
  function MatchSuperphysical(a: SuperphysicalMove, b: SuperphysicalMove): (r: bool)
    requires a.fromBoard.Some? ==> b.fromBoard.Some?
    ensures r ==> BoardAgrees(a.fromBoard, b.fromBoard) && MatchDestination(a.toBoard, b.toBoard)
    ensures r ==> (a.capture ==> b.capture) && a.toFile == b.toFile && a.toRank == b.toRank
    ensures r && a.jump != Nil ==> b.jump == a.jump
  {
    && (a.fromBoard.Some? ==> MatchAbsolute(a.fromBoard.value, b.fromBoard.value))
    && MatchOpt(a.piece, b.piece)
    && MatchOpt(a.fromFile, b.fromFile)
    && MatchOpt(a.fromRank, b.fromRank)
    && (a.jump == Nil || a.jump == b.jump)
    && MatchDestination(a.toBoard, b.toBoard)
    && (!a.capture || b.capture)
    && a.toFile == b.toFile
    && a.toRank == b.toRank
    && MatchOpt(a.promote, b.promote)
  }

  /** What `match_move` dereferences: the full move has a board wherever the
    * pattern has one. */
  predicate Comparable(a: Move, b: Move)
  {
    match (a, b)
    case (Physical(x), Physical(y)) => x.board.Some? ==> y.board.Some?
    case (Superphysical(x), Superphysical(y)) => x.fromBoard.Some? ==> y.fromBoard.Some?
    case _ => true
  }

  /** `match_move`: moves of different kinds never match. */
  function MatchMove(a: Move, b: Move): (r: bool)
    requires Comparable(a, b)
    ensures r ==> a.Physical? == b.Physical?
    ensures a.Physical? && b.Physical? ==> (r <==> MatchPhysical(a.pm, b.pm))
    ensures a.Superphysical? && b.Superphysical? ==> (r <==> MatchSuperphysical(a.sm, b.sm))
  {
    match (a, b)
    case (Physical(x), Physical(y)) => MatchPhysical(x, y)
    case (Superphysical(x), Superphysical(y)) => MatchSuperphysical(x, y)
    case _ => false
  }

  /** Every move matches itself. */
  lemma MatchMoveReflexive(m: Move)
    ensures Comparable(m, m) && MatchMove(m, m)
  {
    match m
    case Physical(x) =>
      if x.board.Some? {
        assert MatchAbsolute(x.board.value, x.board.value);
      }
    case Superphysical(x) =>
      assert MatchDestination(x.toBoard, x.toBoard);
  }

  /** Leaving parts out makes a pattern match more: a pattern that matches a
    * second pattern matches every board the second one matches. */
  lemma MatchAbsoluteTransitive(a: AbsoluteBoard, b: AbsoluteBoard, c: AbsoluteBoard)
    requires MatchAbsolute(a, b) && MatchAbsolute(b, c)
    ensures MatchAbsolute(a, c)
  {
    if a.line.Some? {
      assert b.line.Some?;
    }
  }

  lemma MatchRelativeTransitive(a: RelativeBoard, b: RelativeBoard, c: RelativeBoard)
    requires MatchRelative(a, b) && MatchRelative(b, c)
    ensures MatchRelative(a, c)
  {
  }

  lemma MatchDestinationTransitive(a: Destination, b: Destination, c: Destination)
    requires MatchDestination(a, b) && MatchDestination(b, c)
    ensures MatchDestination(a, c)
  {
    match a
    case NoBoard =>
    case ToAbsolute(x) => MatchAbsoluteTransitive(x, b.abs, c.abs);
    case ToRelative(x) => MatchRelativeTransitive(x, b.rel, c.rel);
  }

  /** Superphysical patterns are ordered the same way. */
  lemma MatchSuperphysicalTransitive(a: SuperphysicalMove, b: SuperphysicalMove, c: SuperphysicalMove)
    requires a.fromBoard.Some? ==> b.fromBoard.Some?
    requires b.fromBoard.Some? ==> c.fromBoard.Some?
    requires MatchSuperphysical(a, b) && MatchSuperphysical(b, c)
    ensures MatchSuperphysical(a, c)
  {
    if a.fromBoard.Some? {
      MatchAbsoluteTransitive(a.fromBoard.value, b.fromBoard.value, c.fromBoard.value);
    }
    MatchDestinationTransitive(a.toBoard, b.toBoard, c.toBoard);
  }

  /** A castle written as `O-O` matches the king's move e1g1 or e8g8 on any
    * board when it names no board. */
  lemma KingsideMatchesKingMove(a: PhysicalMove, b: PhysicalMove)
    requires a.castle == CastleKingside && a.board.None?
    requires b.piece == Some('K') && b.fromFile == Some('e') && b.toFile == 'g'
    requires (b.fromRank == Some(1) && b.toRank == 1) || (b.fromRank == Some(8) && b.toRank == 8)
    ensures MatchPhysical(a, b)
  {
    assert KingStep(b, 'g');
  }

  lemma QueensideMatchesKingMove(a: PhysicalMove, b: PhysicalMove)
    requires a.castle == CastleQueenside && a.board.None?
    requires b.piece == Some('K') && b.fromFile == Some('e') && b.toFile == 'c'
    requires (b.fromRank == Some(1) && b.toRank == 1) || (b.fromRank == Some(8) && b.toRank == 8)
    ensures MatchPhysical(a, b)
  {
    assert KingStep(b, 'c');
  }
}
