/** The position value (what the source snapshots) and attack detection over its grid. */
module Positions {
  import opened ChessTypes

  type Grid = seq<seq<Option<Piece>>>

  predicate GridShape(g: Grid) {
    |g| == 8 && forall r :: 0 <= r < 8 ==> |g[r]| == 8
  }

  datatype Right = WhiteKingside | WhiteQueenside | BlackKingside | BlackQueenside

  /** Everything the source copies in a snapshot: grid, side to move, castling rights,
      en-passant target, both clocks and the position counts. */
  datatype Position = Position(
    grid: Grid,
    turn: Color,
    rights: set<Right>,
    ep: Option<Square>,
    halfmove: int,
    fullmove: int,
    counts: map<string, int>)

  predicate WellFormed(p: Position) {
    GridShape(p.grid) && (p.ep.Some? ==> OnBoard(p.ep.value))
  }

  function At(g: Grid, r: int, c: int): Option<Piece>
    requires GridShape(g) && InBounds(r, c)
  {
    g[r][c]
  }

  function SetAt(g: Grid, r: int, c: int, x: Option<Piece>): (g': Grid)
    requires GridShape(g) && InBounds(r, c)
    ensures GridShape(g')
    ensures g'[r][c] == x
    ensures forall i, j :: InBounds(i, j) && (i, j) != (r, c) ==> g'[i][j] == g[i][j]
  {
    g[r := g[r][c := x]]
  }

  predicate Holds(g: Grid, r: int, c: int, kind: Kind, color: Color)
    requires GridShape(g)
  {
    InBounds(r, c) && g[r][c] == Some(Piece(kind, color))
  }

  const EmptyRow: seq<Option<Piece>> := [None, None, None, None, None, None, None, None]

  const EmptyGrid: Grid := [EmptyRow, EmptyRow, EmptyRow, EmptyRow, EmptyRow, EmptyRow, EmptyRow, EmptyRow]

  const BackRank: seq<Kind> := [Rook, Knight, Bishop, Queen, King, Bishop, Knight, Rook]

  /** The standard starting placement: Black on rows 0-1, White on rows 6-7, the back ranks
      in the order rook, knight, bishop, queen, king, bishop, knight, rook. */
  function StartSquare(i: int, j: int): Option<Piece>
    requires InBounds(i, j)
  {
    if i == 6 then Some(Piece(Pawn, White))
    else if i == 1 then Some(Piece(Pawn, Black))
    else if i == 7 then Some(Piece(BackRank[j], White))
    else if i == 0 then Some(Piece(BackRank[j], Black))
    else None
  }

  /** The starting placement, row 0 (the eighth rank) first. */
  const StartGrid: Grid := [
    [Some(Piece(Rook, Black)), Some(Piece(Knight, Black)), Some(Piece(Bishop, Black)), Some(Piece(Queen, Black)), Some(Piece(King, Black)), Some(Piece(Bishop, Black)), Some(Piece(Knight, Black)), Some(Piece(Rook, Black))],
    [Some(Piece(Pawn, Black)), Some(Piece(Pawn, Black)), Some(Piece(Pawn, Black)), Some(Piece(Pawn, Black)), Some(Piece(Pawn, Black)), Some(Piece(Pawn, Black)), Some(Piece(Pawn, Black)), Some(Piece(Pawn, Black))],
    [None, None, None, None, None, None, None, None],
    [None, None, None, None, None, None, None, None],
    [None, None, None, None, None, None, None, None],
    [None, None, None, None, None, None, None, None],
    [Some(Piece(Pawn, White)), Some(Piece(Pawn, White)), Some(Piece(Pawn, White)), Some(Piece(Pawn, White)), Some(Piece(Pawn, White)), Some(Piece(Pawn, White)), Some(Piece(Pawn, White)), Some(Piece(Pawn, White))],
    [Some(Piece(Rook, White)), Some(Piece(Knight, White)), Some(Piece(Bishop, White)), Some(Piece(Queen, White)), Some(Piece(King, White)), Some(Piece(Bishop, White)), Some(Piece(Knight, White)), Some(Piece(Rook, White))]]

  lemma StartGridSquares()
    ensures GridShape(StartGrid)
    ensures forall i, j :: InBounds(i, j) ==> StartGrid[i][j] == StartSquare(i, j)
  {
  }

  // --- Attack detection -------------------------------------------------------

  /** Unit steps: the eight directions a king, queen or ray can take. */
  predicate Step(dr: int, dc: int) {
    -1 <= dr <= 1 && -1 <= dc <= 1 && (dr != 0 || dc != 0)
  }

  /** How many more squares a ray may visit from (r, c) in direction (dr, dc). */
  function RayRoom(r: int, c: int, dr: int, dc: int): int {
    (if dr > 0 then 8 - r else if dr < 0 then r + 1 else 0) +
    (if dc > 0 then 8 - c else if dc < 0 then c + 1 else 0)
  }

  const KnightOffsets: seq<(int, int)> :=
    [(2, 1), (2, -1), (-2, 1), (-2, -1), (1, 2), (1, -2), (-1, 2), (-1, -2)]

  const KingOffsets: seq<(int, int)> :=
    [(-1, -1), (-1, 0), (-1, 1), (0, -1), (0, 1), (1, -1), (1, 0), (1, 1)]

  /** The rays in the order the source tries them, each with whether a rook (true) or a
      bishop (false) moves along it; a queen moves along all of them. */
  const SlideRays: seq<(int, int, bool)> :=
    [(1, 0, true), (-1, 0, true), (0, 1, true), (0, -1, true),
     (1, 1, false), (1, -1, false), (-1, 1, false), (-1, -1, false)]

  predicate SlidesAlong(k: Kind, rookRay: bool) {
    k == Queen || (rookRay && k == Rook) || (!rookRay && k == Bishop)
  }

  /** Walk from (r, c) along (dr, dc): the first occupied square decides whether the ray
      carries an attack by `color`. */
  predicate RayHits(g: Grid, r: int, c: int, dr: int, dc: int, rookRay: bool, color: Color)
    requires GridShape(g) && Step(dr, dc)
    decreases RayRoom(r, c, dr, dc)
  {
    if !InBounds(r, c) then false
    else match g[r][c]
      case Some(q) => q.color == color && SlidesAlong(q.kind, rookRay)
      case None => RayHits(g, r + dr, c + dc, dr, dc, rookRay, color)
  }

  /** The row from which a pawn of `color` attacks a square on row r: a white pawn moves
      towards row 0, so it attacks from the row below (r + 1). */
  function PawnAttackRow(r: int, color: Color): int {
    if color == White then r + 1 else r - 1
  }

  /** The row the source actually inspects for pawn attackers (see Findings). */
  function PawnAttackRowAsWritten(r: int, color: Color): int {
    if color == White then r - 1 else r + 1
  }

  predicate PawnAttackFrom(g: Grid, pr: int, c: int, color: Color)
    requires GridShape(g)
  {
    Holds(g, pr, c - 1, Pawn, color) || Holds(g, pr, c + 1, Pawn, color)
  }

  predicate KnightAttack(g: Grid, r: int, c: int, color: Color)
    requires GridShape(g)
  {
    exists i :: 0 <= i < 8 && Holds(g, r + KnightOffsets[i].0, c + KnightOffsets[i].1, Knight, color)
  }

  predicate SlideAttack(g: Grid, r: int, c: int, color: Color)
    requires GridShape(g)
  {
    exists i :: 0 <= i < 8 &&
      RayHits(g, r + SlideRays[i].0, c + SlideRays[i].1, SlideRays[i].0, SlideRays[i].1, SlideRays[i].2, color)
  }

  predicate KingAttack(g: Grid, r: int, c: int, color: Color)
    requires GridShape(g)
  {
    exists i :: 0 <= i < 8 && Holds(g, r + KingOffsets[i].0, c + KingOffsets[i].1, King, color)
  }

  /** Whether `color` attacks (r, c), independent of the side to move. */
  predicate AttackedBy(g: Grid, r: int, c: int, color: Color)
    requires GridShape(g)
  {
    PawnAttackFrom(g, PawnAttackRow(r, color), c, color) || KnightAttack(g, r, c, color) ||
    SlideAttack(g, r, c, color) || KingAttack(g, r, c, color)
  }

  /** Attack detection as the source writes it, pawn rows inverted. */
  predicate AttackedByAsWritten(g: Grid, r: int, c: int, color: Color)
    requires GridShape(g)
  {
    PawnAttackFrom(g, PawnAttackRowAsWritten(r, color), c, color) || KnightAttack(g, r, c, color) ||
    SlideAttack(g, r, c, color) || KingAttack(g, r, c, color)
  }

  // --- Kings and check --------------------------------------------------------

  predicate KingAt(g: Grid, r: int, c: int, color: Color)
    requires GridShape(g)
  {
    Holds(g, r, c, King, color)
  }

  /** Square (r, c) comes before (r2, c2) in row-major order. */
  predicate Before(r: int, c: int, r2: int, c2: int) {
    r < r2 || (r == r2 && c < c2)
  }

  /** The first king of `color` in row-major order, scanning from (r, c) on. */
  function KingFrom(g: Grid, color: Color, r: int, c: int): (k: Option<Square>)
    requires GridShape(g) && 0 <= r <= 8 && 0 <= c <= 8
    ensures k.Some? ==> OnBoard(k.value) && KingAt(g, k.value.row, k.value.col, color)
    ensures k.Some? ==> !Before(k.value.row, k.value.col, r, c)
    ensures k.Some? ==> forall i, j :: InBounds(i, j) && !Before(i, j, r, c) && Before(i, j, k.value.row, k.value.col)
                          ==> !KingAt(g, i, j, color)
    ensures k.None? <==> forall i, j :: InBounds(i, j) && !Before(i, j, r, c) ==> !KingAt(g, i, j, color)
    decreases 8 - r, 8 - c
  {
    if r == 8 then None
    else if c == 8 then KingFrom(g, color, r + 1, 0)
    else if KingAt(g, r, c, color) then Some(Sq(r, c))
    else KingFrom(g, color, r, c + 1)
  }

  function KingSquare(g: Grid, color: Color): Option<Square>
    requires GridShape(g)
  {
    KingFrom(g, color, 0, 0)
  }

  predicate HasKing(g: Grid, color: Color)
    requires GridShape(g)
  {
    exists r, c :: 0 <= r < 8 && 0 <= c < 8 && KingAt(g, r, c, color)
  }

  /** Whether the king of `color` is attacked by the other side. A position without that king
      counts as not in check (the source raises instead). */
  predicate InCheck(g: Grid, color: Color)
    requires GridShape(g)
  {
    match KingSquare(g, color)
    case None => false
    case Some(k) => AttackedBy(g, k.row, k.col, Opponent(color))
  }
}

/** The pawn-attack direction of the source, shown on one position. */
module PawnAttackFinding {
  import opened ChessTypes
  import opened Positions

  const NoPieces: seq<Option<Piece>> := [None, None, None, None, None, None, None, None]

  /** White king on e1, black pawn on d2, black king on a8. */
  const KingVersusPawn: Grid :=
    [[Some(Piece(King, Black)), None, None, None, None, None, None, None],
     NoPieces, NoPieces, NoPieces, NoPieces, NoPieces,
     [None, None, None, Some(Piece(Pawn, Black)), None, None, None, None],
     [None, None, None, None, Some(Piece(King, White)), None, None, None]]

  lemma KingVersusPawnSquares()
    ensures GridShape(KingVersusPawn)
    ensures forall i, j :: InBounds(i, j) ==>
              KingVersusPawn[i][j] == if i == 0 && j == 0 then Some(Piece(King, Black))
                                      else if i == 6 && j == 3 then Some(Piece(Pawn, Black))
                                      else if i == 7 && j == 4 then Some(Piece(King, White))
                                      else None
  {
  }

  /** No knight and no king stands next to e1 for Black. */
  lemma NoLeaperAttack()
    ensures GridShape(KingVersusPawn)
    ensures !KnightAttack(KingVersusPawn, 7, 4, Black) && !KingAttack(KingVersusPawn, 7, 4, Black)
  {
    var g := KingVersusPawn;
    KingVersusPawnSquares();
    forall i | 0 <= i < 8 ensures !Holds(g, 7 + KnightOffsets[i].0, 4 + KnightOffsets[i].1, Knight, Black) { }
    forall i | 0 <= i < 8 ensures !Holds(g, 7 + KingOffsets[i].0, 4 + KingOffsets[i].1, King, Black) { }
  }

  /** No black slider reaches e1. */
  lemma NoSliderAttack()
    ensures GridShape(KingVersusPawn)
    ensures !SlideAttack(KingVersusPawn, 7, 4, Black)
  {
    var g := KingVersusPawn;
    NoRayHits();
    forall i | 0 <= i < 8
      ensures !RayHits(g, 7 + SlideRays[i].0, 4 + SlideRays[i].1, SlideRays[i].0, SlideRays[i].1, SlideRays[i].2, Black)
    { }
  }

  /** The rays from e1 that stay on the board meet no black queen, rook or bishop. */
  lemma NoRayHits()
    ensures GridShape(KingVersusPawn)
    ensures !RayHits(KingVersusPawn, 6, 4, -1, 0, true, Black)
    ensures !RayHits(KingVersusPawn, 7, 3, 0, -1, true, Black)
    ensures !RayHits(KingVersusPawn, 7, 5, 0, 1, true, Black)
    ensures !RayHits(KingVersusPawn, 6, 5, -1, 1, false, Black)
  {
    var g := KingVersusPawn;
    KingVersusPawnSquares();
    assert !RayHits(g, 0, 4, -1, 0, true, Black);
    assert !RayHits(g, 1, 4, -1, 0, true, Black);
    assert !RayHits(g, 2, 4, -1, 0, true, Black);
    assert !RayHits(g, 3, 4, -1, 0, true, Black);
    assert !RayHits(g, 4, 4, -1, 0, true, Black);
    assert !RayHits(g, 5, 4, -1, 0, true, Black);
    assert !RayHits(g, 7, 0, 0, -1, true, Black);
    assert !RayHits(g, 7, 1, 0, -1, true, Black);
    assert !RayHits(g, 7, 2, 0, -1, true, Black);
    assert !RayHits(g, 7, 7, 0, 1, true, Black);
    assert !RayHits(g, 7, 6, 0, 1, true, Black);
    assert !RayHits(g, 4, 7, -1, 1, false, Black);
    assert !RayHits(g, 5, 6, -1, 1, false, Black);
  }

  /** The pawn on d2 attacks e1, but the source's test looks on the wrong row and misses it. */
  lemma AttackMissedAsWritten()
    ensures GridShape(KingVersusPawn)
    ensures AttackedBy(KingVersusPawn, 7, 4, Black)
    ensures !AttackedByAsWritten(KingVersusPawn, 7, 4, Black)
  {
    var g := KingVersusPawn;
    KingVersusPawnSquares();
    assert Holds(g, 6, 3, Pawn, Black);
    assert !PawnAttackFrom(g, 8, 4, Black);
    NoLeaperAttack();
    NoSliderAttack();
  }
}
