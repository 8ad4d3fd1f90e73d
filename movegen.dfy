/** Pseudo-legal move generation, move application and the legality filter, as functions
    of a position. The Board class computes exactly these with loops. */
module MoveGen {
  import opened ChessTypes
  import opened Positions

  function Forward(color: Color): int {
    if color == White then -1 else 1
  }

  function StartRank(color: Color): int {
    if color == White then 6 else 1
  }

  predicate LastRow(r: int) {
    r == 0 || r == 7
  }

  const PromotionKinds: seq<Kind> := [Queen, Rook, Bishop, Knight]

  function Mk(src: Square, dst: Square, promotion: Option<Kind>, captured: Option<Piece>, p: Piece): Move {
    Move(src, dst, promotion, false, false, false, captured, Some(p))
  }

  /** What every generated move of piece `p` on (r, c) satisfies. */
  predicate FromPiece(m: Move, r: int, c: int, p: Piece) {
    m.src == Sq(r, c) && OnBoard(m.dst) && m.piece == Some(p)
  }

  /** One move per promotion kind, Queen, Rook, Bishop, Knight in that order, or a single move
      when the destination is not on the last row. */
  function PawnArrivals(src: Square, dst: Square, captured: Option<Piece>, p: Piece): (ms: seq<Move>)
    ensures LastRow(dst.row) ==> |ms| == 4 && forall i :: 0 <= i < 4 ==> ms[i] == Mk(src, dst, Some(PromotionKinds[i]), captured, p)
    ensures !LastRow(dst.row) ==> ms == [Mk(src, dst, None, captured, p)]
  {
    if LastRow(dst.row) then
      [Mk(src, dst, Some(Queen), captured, p), Mk(src, dst, Some(Rook), captured, p),
       Mk(src, dst, Some(Bishop), captured, p), Mk(src, dst, Some(Knight), captured, p)]
    else [Mk(src, dst, None, captured, p)]
  }

  function PawnPushes(g: Grid, r: int, c: int, p: Piece): (ms: seq<Move>)
    requires GridShape(g) && InBounds(r, c)
    ensures |ms| <= 5
    ensures forall m :: m in ms ==> FromPiece(m, r, c, p) && !m.isEnPassant && !m.isCastleKing && !m.isCastleQueen
  {
    var rr := r + Forward(p.color);
    if InBounds(rr, c) && g[rr][c].None? then
      var single := PawnArrivals(Sq(r, c), Sq(rr, c), None, p);
      var rr2 := r + 2 * Forward(p.color);
      if r == StartRank(p.color) && g[rr2][c].None? then single + [Mk(Sq(r, c), Sq(rr2, c), None, None, p)]
      else single
    else []
  }

  function PawnCapture(g: Grid, r: int, c: int, dc: int, p: Piece): (ms: seq<Move>)
    requires GridShape(g) && InBounds(r, c)
    ensures |ms| <= 4
    ensures forall m :: m in ms ==> FromPiece(m, r, c, p) && !m.isEnPassant && !m.isCastleKing && !m.isCastleQueen
  {
    var rr, cc := r + Forward(p.color), c + dc;
    if InBounds(rr, cc) && g[rr][cc].Some? && g[rr][cc].value.color != p.color then
      PawnArrivals(Sq(r, c), Sq(rr, cc), g[rr][cc], p)
    else []
  }

  /** The en-passant capture is recorded with no captured piece. */
  function PawnEnPassant(ep: Option<Square>, r: int, c: int, p: Piece): (ms: seq<Move>)
    requires ep.Some? ==> OnBoard(ep.value)
    requires InBounds(r, c)
    ensures |ms| <= 1
    ensures forall m :: m in ms ==> FromPiece(m, r, c, p) && m.isEnPassant && !m.isCastleKing && !m.isCastleQueen
    ensures forall m :: m in ms ==> m.dst.row == r + Forward(p.color)
  {
    if ep.Some? && ep.value.row == r + Forward(p.color) && (ep.value.col == c - 1 || ep.value.col == c + 1) then
      [Move(Sq(r, c), ep.value, None, true, false, false, None, Some(p))]
    else []
  }

  function PawnMoves(g: Grid, ep: Option<Square>, r: int, c: int, p: Piece): (ms: seq<Move>)
    requires GridShape(g) && InBounds(r, c) && (ep.Some? ==> OnBoard(ep.value))
    ensures |ms| <= 14
    ensures forall m :: m in ms ==> FromPiece(m, r, c, p) && !m.isCastleKing && !m.isCastleQueen
    ensures forall m :: m in ms && m.isEnPassant ==> m.dst.row == r + Forward(p.color)
  {
    PawnPushes(g, r, c, p) + PawnCapture(g, r, c, -1, p) + PawnCapture(g, r, c, 1, p) + PawnEnPassant(ep, r, c, p)
  }

  /** Knight and king steps: each in-bounds offset square that is empty or holds an enemy. */
  function StepMoves(g: Grid, r: int, c: int, offs: seq<(int, int)>, p: Piece): (ms: seq<Move>)
    requires GridShape(g) && InBounds(r, c)
    ensures |ms| <= |offs|
    ensures forall m :: m in ms ==> FromPiece(m, r, c, p) && !m.isEnPassant && !m.isCastleKing && !m.isCastleQueen
  {
    if offs == [] then []
    else
      var rr, cc := r + offs[0].0, c + offs[0].1;
      var here := if InBounds(rr, cc) && (g[rr][cc].None? || g[rr][cc].value.color != p.color)
                  then [Mk(Sq(r, c), Sq(rr, cc), None, g[rr][cc], p)] else [];
      here + StepMoves(g, r, c, offs[1..], p)
  }

  /** The moves along one ray from (r, c), starting at (rr, cc): empty squares, then the first
      occupant if it is an enemy. */
  function RayMoves(g: Grid, r: int, c: int, rr: int, cc: int, dr: int, dc: int, p: Piece): (ms: seq<Move>)
    requires GridShape(g) && InBounds(r, c) && Step(dr, dc)
    ensures |ms| <= if InBounds(rr, cc) then RayRoom(rr, cc, dr, dc) else 0
    ensures forall m :: m in ms ==> FromPiece(m, r, c, p) && !m.isEnPassant && !m.isCastleKing && !m.isCastleQueen
    decreases RayRoom(rr, cc, dr, dc)
  {
    if !InBounds(rr, cc) then []
    else match g[rr][cc]
      case None => [Mk(Sq(r, c), Sq(rr, cc), None, None, p)] + RayMoves(g, r, c, rr + dr, cc + dc, dr, dc, p)
      case Some(t) => if t.color != p.color then [Mk(Sq(r, c), Sq(rr, cc), None, Some(t), p)] else []
  }

  const DiagonalSteps: seq<(int, int)> := [(1, 1), (1, -1), (-1, 1), (-1, -1)]
  const OrthogonalSteps: seq<(int, int)> := [(1, 0), (-1, 0), (0, 1), (0, -1)]

  /** Bishops walk the diagonals, rooks the orthogonals, queens the diagonals first. */
  function SliderSteps(k: Kind): (dirs: seq<(int, int)>)
    ensures |dirs| <= 8 && forall i :: 0 <= i < |dirs| ==> Step(dirs[i].0, dirs[i].1)
  {
    (if k == Bishop || k == Queen then DiagonalSteps else []) +
    (if k == Rook || k == Queen then OrthogonalSteps else [])
  }

  function SlideMoves(g: Grid, r: int, c: int, dirs: seq<(int, int)>, p: Piece): (ms: seq<Move>)
    requires GridShape(g) && InBounds(r, c)
    requires forall i :: 0 <= i < |dirs| ==> Step(dirs[i].0, dirs[i].1)
    ensures |ms| <= 16 * |dirs|
    ensures forall m :: m in ms ==> FromPiece(m, r, c, p) && !m.isEnPassant && !m.isCastleKing && !m.isCastleQueen
  {
    if dirs == [] then []
    else RayMoves(g, r, c, r + dirs[0].0, c + dirs[0].1, dirs[0].0, dirs[0].1, p) + SlideMoves(g, r, c, dirs[1..], p)
  }

  /** The king's home square, the rook corners and the square the king lands on. */
  function HomeRow(color: Color): int {
    if color == White then 7 else 0
  }

  function KingsideRight(color: Color): Right {
    if color == White then WhiteKingside else BlackKingside
  }

  function QueensideRight(color: Color): Right {
    if color == White then WhiteQueenside else BlackQueenside
  }

  /** Castling as generation offers it: king on its home square, the right held and the squares
      between king and corner empty. Whether a rook stands on the corner is not looked at. */
  function CastleMoves(g: Grid, rights: set<Right>, r: int, c: int, p: Piece): (ms: seq<Move>)
    requires GridShape(g) && InBounds(r, c)
    ensures |ms| <= 2
    ensures forall m :: m in ms ==> FromPiece(m, r, c, p) && !m.isEnPassant && m.isCastleKing != m.isCastleQueen
  {
    var h := HomeRow(p.color);
    if (r, c) == (h, 4) then
      (if KingsideRight(p.color) in rights && g[h][5].None? && g[h][6].None?
       then [Move(Sq(r, c), Sq(h, 6), None, false, true, false, None, Some(p))] else []) +
      (if QueensideRight(p.color) in rights && g[h][3].None? && g[h][2].None? && g[h][1].None?
       then [Move(Sq(r, c), Sq(h, 2), None, false, false, true, None, Some(p))] else [])
    else []
  }

  /** Every pseudo-legal move of the piece on (r, c), in the source's order. */
  function PieceMoves(g: Grid, ep: Option<Square>, rights: set<Right>, r: int, c: int): (ms: seq<Move>)
    requires GridShape(g) && InBounds(r, c) && (ep.Some? ==> OnBoard(ep.value))
    ensures |ms| <= 128
    ensures forall m :: m in ms ==> g[r][c].Some? && FromPiece(m, r, c, g[r][c].value)
    ensures forall m :: m in ms && m.isEnPassant ==> m.dst.row == r + Forward(g[r][c].value.color)
  {
    match g[r][c]
    case None => []
    case Some(p) =>
      match p.kind
      case Pawn => PawnMoves(g, ep, r, c, p)
      case Knight => StepMoves(g, r, c, KnightOffsets, p)
      case King => StepMoves(g, r, c, KingOffsets, p) + CastleMoves(g, rights, r, c, p)
      case _ => SlideMoves(g, r, c, SliderSteps(p.kind), p)
  }

  /** What every pseudo-legal move of `color` satisfies. */
  predicate Generated(g: Grid, m: Move, color: Color)
    requires GridShape(g)
  {
    OnBoard(m.src) && g[m.src.row][m.src.col].Some? && g[m.src.row][m.src.col].value.color == color &&
    FromPiece(m, m.src.row, m.src.col, g[m.src.row][m.src.col].value) &&
    (m.isEnPassant ==> m.dst.row == m.src.row + Forward(color))
  }

  /** The pseudo-legal moves of `color` from square (r, c) on, in row-major order. */
  function PseudoFrom(g: Grid, ep: Option<Square>, rights: set<Right>, color: Color, r: int, c: int): (ms: seq<Move>)
    requires GridShape(g) && (ep.Some? ==> OnBoard(ep.value)) && 0 <= r <= 8 && 0 <= c <= 8
    ensures |ms| <= 128 * (64 - 8 * r - c + 8)
    ensures forall m :: m in ms ==> Generated(g, m, color)
    decreases 8 - r, 8 - c
  {
    if r == 8 then []
    else if c == 8 then PseudoFrom(g, ep, rights, color, r + 1, 0)
    else
      (if g[r][c].Some? && g[r][c].value.color == color then PieceMoves(g, ep, rights, r, c) else []) +
      PseudoFrom(g, ep, rights, color, r, c + 1)
  }

  function PseudoMoves(p: Position, color: Color): (ms: seq<Move>)
    requires WellFormed(p)
  {
    PseudoFrom(p.grid, p.ep, p.rights, color, 0, 0)
  }

  // --- Applying a move ----------------------------------------------------------

  /** The row of the pawn an en-passant capture removes: one row behind the destination. */
  function CaptureRow(dstRow: int, color: Color): int {
    dstRow + (if color == White then 1 else -1)
  }

  /** What applying a move needs: a piece on the source square (the source asserts it) and,
      for en passant, a square behind the destination. */
  predicate Applicable(p: Position, m: Move) {
    WellFormed(p) && OnBoard(m.src) && OnBoard(m.dst) && p.grid[m.src.row][m.src.col].Some? &&
    (m.isEnPassant ==> InBounds(CaptureRow(m.dst.row, p.grid[m.src.row][m.src.col].value.color), m.dst.col))
  }

  /** The castling right tied to a rook corner. */
  function CornerRight(s: Square): Option<Right> {
    if s == Sq(7, 0) then Some(WhiteQueenside)
    else if s == Sq(7, 7) then Some(WhiteKingside)
    else if s == Sq(0, 0) then Some(BlackQueenside)
    else if s == Sq(0, 7) then Some(BlackKingside)
    else None
  }

  function RightOf(o: Option<Right>): set<Right> {
    if o.Some? then {o.value} else {}
  }

  /** The rights a move gives up: both of the mover's after a king move, a corner's after a rook
      leaves it, and a corner's after a rook (of either colour) is captured on it. */
  function RightsLost(piece: Piece, src: Square, dst: Square, target: Option<Piece>): set<Right> {
    (if piece.kind == King then {KingsideRight(piece.color), QueensideRight(piece.color)} else {}) +
    (if piece.kind == Rook then RightOf(CornerRight(src)) else {}) +
    (if target.Some? && target.value.kind == Rook then RightOf(CornerRight(dst)) else {})
  }

  /** Grid after the piece movement of a move: the source emptied and, by kind of move, the
      captured pawn removed, the rook relocated or the pawn promoted. */
  function MovedGrid(g: Grid, m: Move, piece: Piece): (g': Grid)
    requires GridShape(g) && OnBoard(m.src) && OnBoard(m.dst)
    requires m.isEnPassant ==> InBounds(CaptureRow(m.dst.row, piece.color), m.dst.col)
    ensures GridShape(g')
  {
    var h := HomeRow(piece.color);
    var g1 := SetAt(g, m.src.row, m.src.col, None);
    if m.isEnPassant then
      SetAt(SetAt(g1, CaptureRow(m.dst.row, piece.color), m.dst.col, None), m.dst.row, m.dst.col, Some(piece))
    else if m.isCastleKing then
      SetAt(SetAt(SetAt(g1, m.dst.row, m.dst.col, Some(piece)), h, 7, None), h, 5, Some(Piece(Rook, piece.color)))
    else if m.isCastleQueen then
      SetAt(SetAt(SetAt(g1, m.dst.row, m.dst.col, Some(piece)), h, 0, None), h, 3, Some(Piece(Rook, piece.color)))
    else if m.promotion.Some? && piece.kind == Pawn then
      SetAt(g1, m.dst.row, m.dst.col, Some(Piece(m.promotion.value, piece.color)))
    else
      SetAt(g1, m.dst.row, m.dst.col, Some(piece))
  }

  predicate IsDoublePush(m: Move, piece: Piece) {
    !m.isEnPassant && !m.isCastleKing && !m.isCastleQueen &&
    piece.kind == Pawn && (m.dst.row - m.src.row == 2 || m.src.row - m.dst.row == 2)
  }

  /** The position after a move's effects on grid, clocks, en-passant target and rights. Side to
      move, fullmove number and position counts are the caller's business. */
  function Apply(p: Position, m: Move): (q: Position)
    requires Applicable(p, m)
    ensures WellFormed(q)
    ensures q.turn == p.turn && q.fullmove == p.fullmove && q.counts == p.counts
  {
    var piece := p.grid[m.src.row][m.src.col].value;
    var target := p.grid[m.dst.row][m.dst.col];
    var half := if piece.kind == Pawn || target.Some? || m.isEnPassant then 0 else p.halfmove + 1;
    var ep := if IsDoublePush(m, piece) then Some(Sq((m.dst.row + m.src.row) / 2, m.dst.col)) else None;
    Position(MovedGrid(p.grid, m, piece), p.turn, p.rights - RightsLost(piece, m.src, m.dst, target),
             ep, half, p.fullmove, p.counts)
  }

  lemma GeneratedApplicable(p: Position, m: Move, color: Color)
    requires WellFormed(p) && Generated(p.grid, m, color)
    ensures Applicable(p, m)
  {
  }

  // --- Legality ---------------------------------------------------------------

  predicate IsCastle(m: Move) {
    m.piece.Some? && m.piece.value.kind == King && (m.isCastleKing || m.isCastleQueen)
  }

  /** The squares the king crosses or lands on that must not be attacked. */
  function PathCols(m: Move): seq<int> {
    if m.dst == Sq(7, 6) || m.dst == Sq(0, 6) then [5, 6] else [3, 2]
  }

  /** Castling's extra conditions: not out of check, not through or into an attacked square. */
  predicate CastleAllowed(g: Grid, m: Move, color: Color)
    requires GridShape(g)
  {
    !InCheck(g, color) &&
    forall i :: 0 <= i < |PathCols(m)| ==> !AttackedBy(g, m.src.row, PathCols(m)[i], Opponent(color))
  }

  /** The probe: after the move, the mover's king is not attacked. */
  predicate KeepsKingSafe(p: Position, m: Move, color: Color)
    requires Applicable(p, m)
  {
    !InCheck(Apply(p, m).grid, color)
  }

  predicate LegalFor(p: Position, m: Move, color: Color)
    requires WellFormed(p) && Generated(p.grid, m, color)
  {
    GeneratedApplicable(p, m, color);
    (IsCastle(m) ==> CastleAllowed(p.grid, m, color)) && KeepsKingSafe(p, m, color)
  }

  /** The moves of `ms` that pass the legality filter, in order. */
  function LegalFrom(p: Position, color: Color, ms: seq<Move>): (legal: seq<Move>)
    requires WellFormed(p) && forall m :: m in ms ==> Generated(p.grid, m, color)
    ensures |legal| <= |ms|
  {
    if ms == [] then []
    else
      (if LegalFor(p, ms[0], color) then [ms[0]] else []) + LegalFrom(p, color, ms[1..])
  }

  /** The filter keeps exactly the moves that pass it. */
  lemma {:induction false} LegalFromMembers(p: Position, color: Color, ms: seq<Move>)
    requires WellFormed(p) && forall m :: m in ms ==> Generated(p.grid, m, color)
    ensures forall m :: m in LegalFrom(p, color, ms) <==> m in ms && LegalFor(p, m, color)
  {
    if ms != [] {
      LegalFromMembers(p, color, ms[1..]);
      assert ms == [ms[0]] + ms[1..];
    }
  }

  lemma PseudoGenerated(p: Position, color: Color)
    requires WellFormed(p)
    ensures forall m :: m in PseudoMoves(p, color) ==> Generated(p.grid, m, color) && Applicable(p, m)
  {
  }

  function LegalMoves(p: Position, color: Color): (legal: seq<Move>)
    requires WellFormed(p)
    ensures |legal| <= 128 * 72
    ensures forall m :: m in legal ==> Generated(p.grid, m, color) && Applicable(p, m)
  {
    PseudoGenerated(p, color);
    LegalFromMembers(p, color, PseudoMoves(p, color));
    LegalFrom(p, color, PseudoMoves(p, color))
  }

  /** Every legal move leaves the mover's own king unattacked, and every pseudo-legal move that
      does so (and, for castling, passes the path test) is legal. */
  lemma LegalMovesExactly(p: Position, color: Color, m: Move)
    requires WellFormed(p)
    ensures m in LegalMoves(p, color) ==> !InCheck(Apply(p, m).grid, color)
    ensures m in LegalMoves(p, color) <==> m in PseudoMoves(p, color) && LegalFor(p, m, color)
  {
    PseudoGenerated(p, color);
    LegalFromMembers(p, color, PseudoMoves(p, color));
  }

  /** With the king in check no castling move is legal, whatever the rights and the path. */
  lemma NoCastlingOutOfCheck(p: Position, color: Color, m: Move)
    requires WellFormed(p) && InCheck(p.grid, color) && m in LegalMoves(p, color)
    ensures !IsCastle(m)
  {
    LegalMovesExactly(p, color, m);
  }

  /** A legal castling move crosses no attacked square: f and g (columns 5, 6) when it lands
      on g1 or g8, d and c (columns 3, 2) otherwise. */
  lemma CastlingPathSafe(p: Position, color: Color, m: Move)
    requires WellFormed(p) && m in LegalMoves(p, color) && IsCastle(m)
    ensures m.dst in {Sq(7, 6), Sq(0, 6)} ==> !AttackedBy(p.grid, m.src.row, 5, Opponent(color)) && !AttackedBy(p.grid, m.src.row, 6, Opponent(color))
    ensures m.dst !in {Sq(7, 6), Sq(0, 6)} ==> !AttackedBy(p.grid, m.src.row, 3, Opponent(color)) && !AttackedBy(p.grid, m.src.row, 2, Opponent(color))
    ensures !InCheck(p.grid, color)
  {
    LegalMovesExactly(p, color, m);
    assert CastleAllowed(p.grid, m, color);
    var cols := PathCols(m);
    assert |cols| == 2;
    assert !AttackedBy(p.grid, m.src.row, cols[0], Opponent(color));
    assert !AttackedBy(p.grid, m.src.row, cols[1], Opponent(color));
  }
}
