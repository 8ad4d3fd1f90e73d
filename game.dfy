/** Whole-game bookkeeping on position values: the starting position, a played ply (move, side
    to move, move number, repetition count) and the end-of-game tests. */
module Game {
  import opened ChessTypes
  import opened Positions
  import opened MoveGen
  import opened Keys

  const AllRights: set<Right> := {WhiteKingside, WhiteQueenside, BlackKingside, BlackQueenside}

  /** The count recorded for `key`, zero when it has never been seen. */
  function CountOf(counts: map<string, int>, key: string): int {
    if key in counts then counts[key] else 0
  }

  /** The repetition table after one more sighting of the position's key. */
  function Counted(p: Position): (q: Position)
    requires WellFormed(p)
    ensures WellFormed(q) && q == p.(counts := q.counts)
    ensures CountOf(q.counts, PositionKey(p)) == CountOf(p.counts, PositionKey(p)) + 1
    ensures forall k :: k != PositionKey(p) ==> CountOf(q.counts, k) == CountOf(p.counts, k)
  {
    var key := PositionKey(p);
    p.(counts := p.counts[key := CountOf(p.counts, key) + 1])
  }

  /** Before the count is taken: the standard placement, White to move, all rights. */
  const Initial: Position := Position(StartGrid, White, AllRights, None, 0, 1, map[])

  lemma InitialWellFormed()
    ensures WellFormed(Initial)
  {
    StartGridSquares();
  }

  /** The starting position with its key counted once. */
  function StartPosition(): (p: Position)
    ensures WellFormed(p) && p.grid == StartGrid && p.turn == White && p.rights == AllRights
    ensures p.ep.None? && p.halfmove == 0 && p.fullmove == 1
    ensures forall k :: CountOf(p.counts, k) == if k == PositionKey(p) then 1 else 0
  {
    InitialWellFormed();
    var p := Counted(Initial);
    KeyIgnoresClocks(Initial, 0, 1, p.counts);
    p
  }

  /** A ply as played: the move's effects, the other side to move, the move number advanced
      after Black's move, and the new position counted once more. */
  function Play(p: Position, m: Move): (q: Position)
    requires Applicable(p, m)
    ensures WellFormed(q) && q.turn == Opponent(p.turn)
    ensures q.fullmove == if p.turn == Black then p.fullmove + 1 else p.fullmove
    ensures q.grid == Apply(p, m).grid && q.rights == Apply(p, m).rights && q.ep == Apply(p, m).ep
    ensures q.halfmove == Apply(p, m).halfmove
  {
    var a := Apply(p, m);
    var t := Opponent(p.turn);
    Counted(a.(turn := t, fullmove := if t == White then a.fullmove + 1 else a.fullmove))
  }

  /** Moves agreeing on squares, promotion and flags (the fields the source compares to
      recognise a legal move) have the same effect: the recorded piece and capture are
      bookkeeping only. */
  lemma SameIdSamePlay(p: Position, m: Move, m': Move)
    requires Applicable(p, m) && Id(m) == Id(m')
    ensures Applicable(p, m') && Apply(p, m') == Apply(p, m) && Play(p, m') == Play(p, m)
  {
  }

  predicate IsCheckmate(p: Position)
    requires WellFormed(p)
  {
    InCheck(p.grid, p.turn) && |LegalMoves(p, p.turn)| == 0
  }

  predicate IsStalemate(p: Position)
    requires WellFormed(p)
  {
    !InCheck(p.grid, p.turn) && |LegalMoves(p, p.turn)| == 0
  }

  predicate IsDrawBy50(p: Position) {
    p.halfmove >= 100
  }

  predicate IsDrawByThreefold(p: Position)
    requires WellFormed(p)
  {
    CountOf(p.counts, PositionKey(p)) >= 3
  }

  // --- Facts about games --------------------------------------------------------

  /** The game is over exactly when the side to move has no legal move, and checkmate and
      stalemate never hold together. */
  lemma GameOverExactly(p: Position)
    requires WellFormed(p)
    ensures IsCheckmate(p) || IsStalemate(p) <==> LegalMoves(p, p.turn) == []
    ensures !(IsCheckmate(p) && IsStalemate(p))
  {
  }

  /** A played ply counts the position it reaches and leaves every other count alone; the
      history of counts never loses a sighting. */
  lemma PlayCounts(p: Position, m: Move)
    requires Applicable(p, m)
    ensures var q := Play(p, m);
            CountOf(q.counts, PositionKey(q)) == CountOf(p.counts, PositionKey(q)) + 1 &&
            forall k :: k != PositionKey(q) ==> CountOf(q.counts, k) == CountOf(p.counts, k)
  {
    var a := Apply(p, m);
    var t := Opponent(p.turn);
    var b := a.(turn := t, fullmove := if t == White then a.fullmove + 1 else a.fullmove);
    KeyIgnoresClocks(b, b.halfmove, b.fullmove, Play(p, m).counts);
    assert Play(p, m) == b.(counts := Play(p, m).counts);
  }

  /** A ply by White leaves the move number alone and Black's next ply advances it, so two
      plies from White to move add exactly one. */
  lemma TwoPliesOneMove(p: Position, m1: Move, m2: Move)
    requires p.turn == White && Applicable(p, m1) && Applicable(Play(p, m1), m2)
    ensures Play(Play(p, m1), m2).fullmove == p.fullmove + 1
    ensures Play(Play(p, m1), m2).turn == White
  {
  }

  /** The starting position is not yet a repetition draw, nor a fifty-move draw. */
  lemma StartNotDrawn()
    ensures !IsDrawByThreefold(StartPosition()) && !IsDrawBy50(StartPosition())
  {
    var p := StartPosition();
    KeyIgnoresClocks(Initial, 0, 1, p.counts);
    assert PositionKey(p) == PositionKey(Initial);
  }
}
