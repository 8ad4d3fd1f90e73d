/** What generation and application promise: promotion, double pushes, castling, clocks,
    the en-passant target and castling rights. */
module MoveGenFacts {
  import opened ChessTypes
  import opened Positions
  import opened MoveGen

  // --- Pawns ------------------------------------------------------------------

  /** A push onto the last row is exactly the four promotions, Queen, Rook, Bishop, Knight. */
  lemma PromotionPushComplete(g: Grid, r: int, c: int, p: Piece)
    requires GridShape(g) && InBounds(r, c)
    requires LastRow(r + Forward(p.color)) && InBounds(r + Forward(p.color), c) && g[r + Forward(p.color)][c].None?
    ensures |PawnPushes(g, r, c, p)| == 4
    ensures forall i :: 0 <= i < 4 ==>
      PawnPushes(g, r, c, p)[i] == Mk(Sq(r, c), Sq(r + Forward(p.color), c), Some(PromotionKinds[i]), None, p)
  {
    assert r != StartRank(p.color);
  }

  /** A capture onto the last row is exactly the four promotions, each recording the capture. */
  lemma PromotionCaptureComplete(g: Grid, r: int, c: int, dc: int, p: Piece)
    requires GridShape(g) && InBounds(r, c)
    requires LastRow(r + Forward(p.color)) && InBounds(r + Forward(p.color), c + dc)
    requires g[r + Forward(p.color)][c + dc].Some? && g[r + Forward(p.color)][c + dc].value.color != p.color
    ensures |PawnCapture(g, r, c, dc, p)| == 4
    ensures forall i :: 0 <= i < 4 ==>
      PawnCapture(g, r, c, dc, p)[i] ==
        Mk(Sq(r, c), Sq(r + Forward(p.color), c + dc), Some(PromotionKinds[i]), g[r + Forward(p.color)][c + dc], p)
  {
  }

  /** No pawn push or capture reaches the last row unpromoted, none promotes elsewhere, and
      promotion is only ever to Queen, Rook, Bishop or Knight. */
  lemma PromotionExactlyOnLastRow(g: Grid, ep: Option<Square>, r: int, c: int, p: Piece, m: Move)
    requires GridShape(g) && InBounds(r, c) && (ep.Some? ==> OnBoard(ep.value))
    requires m in PawnMoves(g, ep, r, c, p) && !m.isEnPassant
    ensures m.promotion.Some? <==> LastRow(m.dst.row)
    ensures m.promotion.Some? ==> m.promotion.value in PromotionKinds
  {
    var pushes, left, right := PawnPushes(g, r, c, p), PawnCapture(g, r, c, -1, p), PawnCapture(g, r, c, 1, p);
    assert PawnMoves(g, ep, r, c, p) == pushes + left + right + PawnEnPassant(ep, r, c, p);
    if m in pushes {
      var rr := r + Forward(p.color);
      assert r == StartRank(p.color) ==> !LastRow(rr);
    }
  }

  /** A two-square pawn move is offered only from the start rank with both squares ahead
      empty, and then it is offered. */
  lemma DoublePushRule(g: Grid, ep: Option<Square>, r: int, c: int, p: Piece)
    requires GridShape(g) && InBounds(r, c) && (ep.Some? ==> OnBoard(ep.value))
    ensures forall m :: m in PawnMoves(g, ep, r, c, p) && m.dst.row == r + 2 * Forward(p.color) ==>
      r == StartRank(p.color) && m.dst.col == c && m.promotion.None? && !m.isEnPassant &&
      g[r + Forward(p.color)][c].None? && g[r + 2 * Forward(p.color)][c].None?
    ensures r == StartRank(p.color) && g[r + Forward(p.color)][c].None? && g[r + 2 * Forward(p.color)][c].None? ==>
      Mk(Sq(r, c), Sq(r + 2 * Forward(p.color), c), None, None, p) in PawnMoves(g, ep, r, c, p)
  {
    var pushes, left, right := PawnPushes(g, r, c, p), PawnCapture(g, r, c, -1, p), PawnCapture(g, r, c, 1, p);
    assert PawnMoves(g, ep, r, c, p) == pushes + left + right + PawnEnPassant(ep, r, c, p);
  }

  // --- Castling generation ----------------------------------------------------

  /** Castling is offered only to a king on its home square whose colour holds the right and whose
      path to the corner is empty; when all that holds it is offered. */
  lemma CastleOffered(g: Grid, ep: Option<Square>, rights: set<Right>, r: int, c: int, m: Move)
    requires GridShape(g) && InBounds(r, c) && (ep.Some? ==> OnBoard(ep.value))
    requires m in PieceMoves(g, ep, rights, r, c) && (m.isCastleKing || m.isCastleQueen)
    ensures g[r][c].Some? && g[r][c].value.kind == King && (r, c) == (HomeRow(g[r][c].value.color), 4)
    ensures m.isCastleKing ==> KingsideRight(g[r][c].value.color) in rights && m.dst == Sq(r, 6) &&
                               g[r][5].None? && g[r][6].None? && !m.isCastleQueen
    ensures m.isCastleQueen ==> QueensideRight(g[r][c].value.color) in rights && m.dst == Sq(r, 2) &&
                                g[r][3].None? && g[r][2].None? && g[r][1].None? && !m.isCastleKing
  {
    var p := g[r][c].value;
    if p.kind == King {
      assert PieceMoves(g, ep, rights, r, c) == StepMoves(g, r, c, KingOffsets, p) + CastleMoves(g, rights, r, c, p);
    }
  }

  lemma CastleKingsideAvailable(g: Grid, ep: Option<Square>, rights: set<Right>, color: Color)
    requires GridShape(g) && (ep.Some? ==> OnBoard(ep.value))
    requires g[HomeRow(color)][4] == Some(Piece(King, color)) && KingsideRight(color) in rights
    requires g[HomeRow(color)][5].None? && g[HomeRow(color)][6].None?
    ensures Move(Sq(HomeRow(color), 4), Sq(HomeRow(color), 6), None, false, true, false, None, Some(Piece(King, color)))
              in PieceMoves(g, ep, rights, HomeRow(color), 4)
  {
    var h := HomeRow(color);
    var p := Piece(King, color);
    assert PieceMoves(g, ep, rights, h, 4) == StepMoves(g, h, 4, KingOffsets, p) + CastleMoves(g, rights, h, 4, p);
  }

  lemma CastleQueensideAvailable(g: Grid, ep: Option<Square>, rights: set<Right>, color: Color)
    requires GridShape(g) && (ep.Some? ==> OnBoard(ep.value))
    requires g[HomeRow(color)][4] == Some(Piece(King, color)) && QueensideRight(color) in rights
    requires g[HomeRow(color)][3].None? && g[HomeRow(color)][2].None? && g[HomeRow(color)][1].None?
    ensures Move(Sq(HomeRow(color), 4), Sq(HomeRow(color), 2), None, false, false, true, None, Some(Piece(King, color)))
              in PieceMoves(g, ep, rights, HomeRow(color), 4)
  {
    var h := HomeRow(color);
    var p := Piece(King, color);
    assert PieceMoves(g, ep, rights, h, 4) == StepMoves(g, h, 4, KingOffsets, p) + CastleMoves(g, rights, h, 4, p);
  }

  /** Every pseudo-legal move is among the moves of the piece on its source square. */
  lemma {:induction false} PseudoFromMember(g: Grid, ep: Option<Square>, rights: set<Right>, color: Color, r: int, c: int, m: Move)
    requires GridShape(g) && (ep.Some? ==> OnBoard(ep.value)) && 0 <= r <= 8 && 0 <= c <= 8
    requires m in PseudoFrom(g, ep, rights, color, r, c)
    ensures OnBoard(m.src) && m in PieceMoves(g, ep, rights, m.src.row, m.src.col)
    decreases 8 - r, 8 - c
  {
    if r == 8 {
    } else if c == 8 {
      PseudoFromMember(g, ep, rights, color, r + 1, 0, m);
    } else {
      PseudoFromStep(g, ep, rights, color, r, c, m);
      if m in PseudoFrom(g, ep, rights, color, r, c + 1) {
        PseudoFromMember(g, ep, rights, color, r, c + 1, m);
      }
    }
  }

  /** A move from square (r, c) on is the piece's there or comes from the next square on. */
  lemma PseudoFromStep(g: Grid, ep: Option<Square>, rights: set<Right>, color: Color, r: int, c: int, m: Move)
    requires GridShape(g) && (ep.Some? ==> OnBoard(ep.value)) && 0 <= r < 8 && 0 <= c < 8
    requires m in PseudoFrom(g, ep, rights, color, r, c)
    ensures m in PseudoFrom(g, ep, rights, color, r, c + 1) || m in PieceMoves(g, ep, rights, r, c)
  {
  }

  // --- Applying a move ----------------------------------------------------------

  function Mover(p: Position, m: Move): Piece
    requires Applicable(p, m)
  {
    p.grid[m.src.row][m.src.col].value
  }

  /** Castling rights are only ever given up: a king move loses both of its colour's, a rook
      leaving a corner or a rook captured on a corner loses that corner's. */
  lemma RightsOnlyShrink(p: Position, m: Move)
    requires Applicable(p, m)
    ensures Apply(p, m).rights <= p.rights
    ensures Mover(p, m).kind == King ==>
      KingsideRight(Mover(p, m).color) !in Apply(p, m).rights && QueensideRight(Mover(p, m).color) !in Apply(p, m).rights
    ensures Mover(p, m).kind == Rook && CornerRight(m.src).Some? ==> CornerRight(m.src).value !in Apply(p, m).rights
    ensures p.grid[m.dst.row][m.dst.col].Some? && p.grid[m.dst.row][m.dst.col].value.kind == Rook && CornerRight(m.dst).Some? ==>
      CornerRight(m.dst).value !in Apply(p, m).rights
    ensures Mover(p, m).kind !in {King, Rook} && (p.grid[m.dst.row][m.dst.col].None? || CornerRight(m.dst).None?) ==>
      Apply(p, m).rights == p.rights
  {
  }

  /** The halfmove clock restarts on a pawn move, a capture or en passant and counts up otherwise. */
  lemma HalfmoveClockRule(p: Position, m: Move)
    requires Applicable(p, m)
    ensures Mover(p, m).kind == Pawn || p.grid[m.dst.row][m.dst.col].Some? || m.isEnPassant ==> Apply(p, m).halfmove == 0
    ensures !(Mover(p, m).kind == Pawn || p.grid[m.dst.row][m.dst.col].Some? || m.isEnPassant) ==>
      Apply(p, m).halfmove == p.halfmove + 1
  {
  }

  /** The en-passant target exists after a move exactly when that move was a two-square pawn
      advance, and it is the square passed over. Whatever the previous target was, it is gone. */
  lemma EnPassantTargetOnePly(p: Position, m: Move)
    requires Applicable(p, m)
    ensures Apply(p, m).ep.Some? <==> IsDoublePush(m, Mover(p, m))
    ensures Apply(p, m).ep.Some? ==>
      Apply(p, m).ep.value.col == m.dst.col &&
      (Apply(p, m).ep.value.row - m.src.row) * 2 == m.dst.row - m.src.row
  {
  }

  /** For a generated double push (which starts on the start rank), the target is the square
      directly in front of the pawn's start square, and it is empty afterwards. */
  lemma EnPassantTargetOfDoublePush(p: Position, color: Color, m: Move)
    requires WellFormed(p) && m in PseudoMoves(p, color)
    requires OnBoard(m.src) && p.grid[m.src.row][m.src.col] == Some(Piece(Pawn, color))
    requires m.dst.row == m.src.row + 2 * Forward(color)
    ensures Applicable(p, m)
    ensures Apply(p, m).ep == Some(Sq(m.src.row + Forward(color), m.src.col))
    ensures m.src.row == StartRank(color) && Apply(p, m).grid[m.src.row + Forward(color)][m.src.col].None?
  {
    PseudoGenerated(p, color);
    PseudoFromMember(p.grid, p.ep, p.rights, color, 0, 0, m);
    assert Mover(p, m) == Piece(Pawn, color);
    DoublePushTarget(p, m);
  }

  lemma DoublePushTarget(p: Position, m: Move)
    requires Applicable(p, m) && m in PieceMoves(p.grid, p.ep, p.rights, m.src.row, m.src.col)
    requires Mover(p, m).kind == Pawn && m.dst.row == m.src.row + 2 * Forward(Mover(p, m).color)
    ensures Apply(p, m).ep == Some(Sq(m.src.row + Forward(Mover(p, m).color), m.src.col))
    ensures m.src.row == StartRank(Mover(p, m).color)
    ensures Apply(p, m).grid[m.src.row + Forward(Mover(p, m).color)][m.src.col].None?
  {
    var pc := Mover(p, m);
    var r, c, f := m.src.row, m.src.col, Forward(pc.color);
    assert PieceMoves(p.grid, p.ep, p.rights, r, c) == PawnMoves(p.grid, p.ep, r, c, pc);
    DoublePushRule(p.grid, p.ep, r, c, pc);
    assert m.dst == Sq(r + 2 * f, c) && !m.isEnPassant && !m.isCastleKing && !m.isCastleQueen;
    assert IsDoublePush(m, pc);
    assert (m.dst.row + m.src.row) / 2 == r + f;
    ApplyFrame(p, m, r + f, c);
  }

  /** En passant removes the pawn one row behind the destination (beside the capturing pawn),
      lands on the empty target and leaves the source empty. */
  lemma EnPassantRemovesPawnBehind(p: Position, m: Move)
    requires Applicable(p, m) && m.isEnPassant && m.src != m.dst
    requires Sq(CaptureRow(m.dst.row, Mover(p, m).color), m.dst.col) != m.dst
    ensures Apply(p, m).grid[CaptureRow(m.dst.row, Mover(p, m).color)][m.dst.col].None?
    ensures Apply(p, m).grid[m.dst.row][m.dst.col] == Some(Mover(p, m))
    ensures Apply(p, m).grid[m.src.row][m.src.col].None? || Sq(CaptureRow(m.dst.row, Mover(p, m).color), m.dst.col) == m.src
    ensures Apply(p, m).halfmove == 0
  {
  }

  /** Castling moves the king to g or c and puts a rook of its colour on f or d, taking one
      off the corner, whether or not a rook stood there. */
  lemma CastlingPlacesRook(p: Position, m: Move)
    requires Applicable(p, m) && !m.isEnPassant && (m.isCastleKing || m.isCastleQueen)
    requires m.src == Sq(HomeRow(Mover(p, m).color), 4)
    requires m.dst == Sq(HomeRow(Mover(p, m).color), if m.isCastleKing then 6 else 2)
    ensures var h, k := HomeRow(Mover(p, m).color), Mover(p, m);
      var g := Apply(p, m).grid;
      g[h][4].None? && g[m.dst.row][m.dst.col] == Some(k) &&
      (m.isCastleKing ==> g[h][5] == Some(Piece(Rook, k.color)) && g[h][7].None?) &&
      (!m.isCastleKing ==> g[h][3] == Some(Piece(Rook, k.color)) && g[h][0].None?)
  {
  }

  /** A plain or promoting move empties its source square and puts on its destination the
      mover, or, for a pawn with a promotion, a new piece of the promoted kind and the mover's
      colour. The destination's previous occupant is gone. */
  lemma PlainMoveSquares(p: Position, m: Move)
    requires Applicable(p, m) && !m.isEnPassant && !m.isCastleKing && !m.isCastleQueen
    ensures m.src != m.dst ==> Apply(p, m).grid[m.src.row][m.src.col].None?
    ensures Apply(p, m).grid[m.dst.row][m.dst.col] ==
              Some(if m.promotion.Some? && Mover(p, m).kind == Pawn
                   then Piece(m.promotion.value, Mover(p, m).color) else Mover(p, m))
  {
  }

  /** The squares a move may change. */
  predicate Touched(m: Move, color: Color, i: int, j: int) {
    Sq(i, j) == m.src || Sq(i, j) == m.dst ||
    (m.isEnPassant && Sq(i, j) == Sq(CaptureRow(m.dst.row, color), m.dst.col)) ||
    ((m.isCastleKing || m.isCastleQueen) && i == HomeRow(color) && j in {0, 3, 5, 7})
  }

  /** Nothing else on the board changes. */
  lemma ApplyFrame(p: Position, m: Move, i: int, j: int)
    requires Applicable(p, m) && InBounds(i, j) && !Touched(m, Mover(p, m).color, i, j)
    ensures Apply(p, m).grid[i][j] == p.grid[i][j]
  {
  }

  /** Every square a pawn can capture onto diagonally counts as attacked by the pawn's side:
      attack detection and capture generation agree on the direction a pawn faces. */
  lemma PawnCapturesAreAttacks(g: Grid, r: int, c: int, dc: int, p: Piece)
    requires GridShape(g) && InBounds(r, c) && g[r][c] == Some(p) && p.kind == Pawn
    requires dc == -1 || dc == 1
    ensures forall m :: m in PawnCapture(g, r, c, dc, p) ==> AttackedBy(g, m.dst.row, m.dst.col, p.color)
  {
    var rr, cc := r + Forward(p.color), c + dc;
    if InBounds(rr, cc) && g[rr][cc].Some? && g[rr][cc].value.color != p.color {
      assert PawnAttackRow(rr, p.color) == r;
      assert Holds(g, r, c, Pawn, p.color);
      assert PawnAttackFrom(g, PawnAttackRow(rr, p.color), cc, p.color);
      forall m | m in PawnCapture(g, r, c, dc, p)
        ensures AttackedBy(g, m.dst.row, m.dst.col, p.color)
      {
        assert m.dst == Sq(rr, cc);
      }
    }
  }
}
