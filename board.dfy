/** The mutable board: the current position held in fields the methods update, the undo
    history of snapshots, and the rules computed with loops. Each method is proved to compute
    the corresponding function of the position. */
module ChessBoard {
  import opened ChessTypes
  import opened Positions
  import opened MoveGen
  import opened Keys
  import opened Game
  import opened MoveText

  /** Two grids with the same squares are the same grid. */
  lemma GridExt(a: Grid, b: Grid)
    requires GridShape(a) && GridShape(b)
    requires forall i, j :: InBounds(i, j) ==> a[i][j] == b[i][j]
    ensures a == b
  {
    forall i | 0 <= i < 8 ensures a[i] == b[i] {
      assert forall j :: 0 <= j < 8 ==> a[i][j] == b[i][j];
    }
  }

  /** The pawn columns either side of a target, in the order the source tries them. */
  const PawnSides: seq<int> := [-1, 1]

  /** A pawn's moves after the pushes and the captures towards the first n of PawnSides. */
  function PawnThrough(g: Grid, r: int, c: int, n: int, p: Piece): seq<Move>
    requires GridShape(g) && InBounds(r, c) && 0 <= n <= 2
  {
    if n == 0 then PawnPushes(g, r, c, p)
    else if n == 1 then PawnPushes(g, r, c, p) + PawnCapture(g, r, c, -1, p)
    else PawnPushes(g, r, c, p) + PawnCapture(g, r, c, -1, p) + PawnCapture(g, r, c, 1, p)
  }

  lemma Assoc<T>(a: seq<T>, b: seq<T>, c: seq<T>)
    ensures (a + b) + c == a + (b + c)
  {
  }

  /** The step at offs[i] of a knight or king, then the steps after it. */
  lemma StepUnfold(g: Grid, r: int, c: int, offs: seq<(int, int)>, i: int, p: Piece)
    requires GridShape(g) && InBounds(r, c) && 0 <= i < |offs|
    ensures var rr, cc := r + offs[i].0, c + offs[i].1;
            if InBounds(rr, cc) && (g[rr][cc].None? || g[rr][cc].value.color != p.color)
            then StepMoves(g, r, c, offs[i..], p) == [Mk(Sq(r, c), Sq(rr, cc), None, g[rr][cc], p)] + StepMoves(g, r, c, offs[i + 1..], p)
            else StepMoves(g, r, c, offs[i..], p) == StepMoves(g, r, c, offs[i + 1..], p)
  {
    assert offs[i..][1..] == offs[i + 1..];
  }

  lemma RayUnfold(g: Grid, r: int, c: int, rr: int, cc: int, dr: int, dc: int, p: Piece)
    requires GridShape(g) && InBounds(r, c) && Step(dr, dc) && InBounds(rr, cc)
    ensures g[rr][cc].None? ==>
              RayMoves(g, r, c, rr, cc, dr, dc, p) == [Mk(Sq(r, c), Sq(rr, cc), None, None, p)] + RayMoves(g, r, c, rr + dr, cc + dc, dr, dc, p)
    ensures g[rr][cc].Some? && g[rr][cc].value.color != p.color ==>
              RayMoves(g, r, c, rr, cc, dr, dc, p) == [Mk(Sq(r, c), Sq(rr, cc), None, g[rr][cc], p)]
    ensures g[rr][cc].Some? && g[rr][cc].value.color == p.color ==> RayMoves(g, r, c, rr, cc, dr, dc, p) == []
  {
  }

  lemma SlideUnfold(g: Grid, r: int, c: int, dirs: seq<(int, int)>, i: int, p: Piece)
    requires GridShape(g) && InBounds(r, c) && 0 <= i < |dirs|
    requires forall j :: 0 <= j < |dirs| ==> Step(dirs[j].0, dirs[j].1)
    ensures SlideMoves(g, r, c, dirs[i..], p) ==
              RayMoves(g, r, c, r + dirs[i].0, c + dirs[i].1, dirs[i].0, dirs[i].1, p) + SlideMoves(g, r, c, dirs[i + 1..], p)
  {
    assert dirs[i..][1..] == dirs[i + 1..];
  }

  lemma PseudoUnfold(g: Grid, ep: Option<Square>, rights: set<Right>, color: Color, r: int, c: int)
    requires GridShape(g) && (ep.Some? ==> OnBoard(ep.value)) && InBounds(r, c)
    ensures g[r][c].Some? && g[r][c].value.color == color ==>
              PseudoFrom(g, ep, rights, color, r, c) == PieceMoves(g, ep, rights, r, c) + PseudoFrom(g, ep, rights, color, r, c + 1)
    ensures !(g[r][c].Some? && g[r][c].value.color == color) ==>
              PseudoFrom(g, ep, rights, color, r, c) == PseudoFrom(g, ep, rights, color, r, c + 1)
  {
  }

  /** The pieces placed as at the start: pawns first, then the back ranks. */
  method StartingPlacement() returns (g: Grid)
    ensures g == StartGrid
  {
    g := EmptyGrid;
    for c := 0 to 8
      invariant GridShape(g)
      invariant forall i, j :: InBounds(i, j) ==>
                  g[i][j] == if i == 6 && j < c then Some(Piece(Pawn, White))
                             else if i == 1 && j < c then Some(Piece(Pawn, Black))
                             else None
    {
      g := SetAt(g, 6, c, Some(Piece(Pawn, White)));
      g := SetAt(g, 1, c, Some(Piece(Pawn, Black)));
    }
    for c := 0 to 8
      invariant GridShape(g)
      invariant forall i, j :: InBounds(i, j) ==>
                  g[i][j] == if (i == 7 || i == 0) && j >= c then None else StartSquare(i, j)
    {
      g := SetAt(g, 7, c, Some(Piece(BackRank[c], White)));
      g := SetAt(g, 0, c, Some(Piece(BackRank[c], Black)));
    }
    StartGridSquares();
    GridExt(g, StartGrid);
  }

  /** The piece movement of a move, one square at a time: the source emptied, then by kind of
      move the captured pawn removed, the rook relocated or the pawn promoted. */
  method MovedPlacement(g0: Grid, m: Move, piece: Piece) returns (g: Grid)
    requires GridShape(g0) && OnBoard(m.src) && OnBoard(m.dst)
    requires m.isEnPassant ==> InBounds(CaptureRow(m.dst.row, piece.color), m.dst.col)
    ensures g == MovedGrid(g0, m, piece)
  {
    var dr, dc := m.dst.row, m.dst.col;
    g := SetAt(g0, m.src.row, m.src.col, None);
    if m.isEnPassant {
      var capR := dr + (if piece.color == White then 1 else -1);
      g := SetAt(g, capR, dc, None);
      g := SetAt(g, dr, dc, Some(piece));
    } else if m.isCastleKing {
      g := SetAt(g, dr, dc, Some(piece));
      if piece.color == White {
        g := SetAt(g, 7, 7, None);
        g := SetAt(g, 7, 5, Some(Piece(Rook, White)));
      } else {
        g := SetAt(g, 0, 7, None);
        g := SetAt(g, 0, 5, Some(Piece(Rook, Black)));
      }
    } else if m.isCastleQueen {
      g := SetAt(g, dr, dc, Some(piece));
      if piece.color == White {
        g := SetAt(g, 7, 0, None);
        g := SetAt(g, 7, 3, Some(Piece(Rook, White)));
      } else {
        g := SetAt(g, 0, 0, None);
        g := SetAt(g, 0, 3, Some(Piece(Rook, Black)));
      }
    } else if m.promotion.Some? && piece.kind == Pawn {
      g := SetAt(g, dr, dc, Some(Piece(m.promotion.value, piece.color)));
    } else {
      g := SetAt(g, dr, dc, Some(piece));
    }
  }

  lemma ApplyParts(p: Position, m: Move, piece: Piece, target: Option<Piece>)
    requires Applicable(p, m)
    requires piece == p.grid[m.src.row][m.src.col].value && target == p.grid[m.dst.row][m.dst.col]
    ensures Apply(p, m) ==
      Position(MovedGrid(p.grid, m, piece), p.turn, p.rights - RightsLost(piece, m.src, m.dst, target),
               if IsDoublePush(m, piece) then Some(Sq((m.dst.row + m.src.row) / 2, m.dst.col)) else None,
               if piece.kind == Pawn || target.Some? || m.isEnPassant then 0 else p.halfmove + 1,
               p.fullmove, p.counts)
  {
  }

  /** The square a double pawn push passes over, the new en-passant target. */
  method DoublePushTarget(m: Move, piece: Piece) returns (t: Option<Square>)
    ensures t == if IsDoublePush(m, piece) then Some(Sq((m.dst.row + m.src.row) / 2, m.dst.col)) else None
  {
    t := None;
    if !m.isEnPassant && !m.isCastleKing && !m.isCastleQueen &&
       piece.kind == Pawn && (m.dst.row - m.src.row == 2 || m.src.row - m.dst.row == 2) {
      t := Some(Sq((m.dst.row + m.src.row) / 2, m.dst.col));
    }
  }

  /** The rights left after a king move, a rook leaving its corner, or a rook captured on one,
      discarded one by one. */
  method RightsAfter(rights0: set<Right>, piece: Piece, src: Square, dst: Square, target: Option<Piece>)
    returns (rights: set<Right>)
    ensures rights == rights0 - RightsLost(piece, src, dst, target)
  {
    rights := rights0;
    if piece.kind == King {
      if piece.color == White {
        rights := rights - {WhiteKingside};
        rights := rights - {WhiteQueenside};
      } else {
        rights := rights - {BlackKingside};
        rights := rights - {BlackQueenside};
      }
    }
    if piece.kind == Rook {
      if src == Sq(7, 0) { rights := rights - {WhiteQueenside}; }
      if src == Sq(7, 7) { rights := rights - {WhiteKingside}; }
      if src == Sq(0, 0) { rights := rights - {BlackQueenside}; }
      if src == Sq(0, 7) { rights := rights - {BlackKingside}; }
    }
    if target.Some? && target.value.kind == Rook {
      if dst == Sq(7, 0) { rights := rights - {WhiteQueenside}; }
      if dst == Sq(7, 7) { rights := rights - {WhiteKingside}; }
      if dst == Sq(0, 0) { rights := rights - {BlackQueenside}; }
      if dst == Sq(0, 7) { rights := rights - {BlackKingside}; }
    }
  }

  /** The legality filter at pseudo[i]: the move kept, then the rest filtered. */
  lemma LegalUnfold(p: Position, color: Color, ms: seq<Move>, i: int)
    requires WellFormed(p) && forall m :: m in ms ==> Generated(p.grid, m, color)
    requires 0 <= i < |ms|
    ensures LegalFor(p, ms[i], color) ==> LegalFrom(p, color, ms[i..]) == [ms[i]] + LegalFrom(p, color, ms[i + 1..])
    ensures !LegalFor(p, ms[i], color) ==> LegalFrom(p, color, ms[i..]) == LegalFrom(p, color, ms[i + 1..])
  {
    assert ms[i..][0] == ms[i] && ms[i..][1..] == ms[i + 1..];
  }

  /** One rank of the key: pieces by symbol, runs of empty squares by their length. */
  method EncodeRank(row: seq<Option<Piece>>) returns (s: string)
    requires |row| == 8
    ensures s == RankKey(row)
  {
    var empty := 0;
    s := [];
    for c := 0 to 8
      invariant 0 <= empty <= c
      invariant EncodeFrom(row, 0, 0) == s + EncodeFrom(row, c, empty)
    {
      var x := row[c];
      if x.None? {
        empty := empty + 1;
      } else {
        Assoc(s, Flush(empty), [Symbol(x.value)]);
        Assoc(s, Flush(empty) + [Symbol(x.value)], EncodeFrom(row, c + 1, 0));
        if empty > 0 {
          s := s + [Digit(empty)];
          empty := 0;
        }
        s := s + [Symbol(x.value)];
      }
    }
    if empty > 0 {
      s := s + [Digit(empty)];
    }
  }

  /** The placement part of the key: the ranks joined with '/'. */
  method PlacementKey(g: Grid) returns (pieces: string)
    requires GridShape(g)
    ensures pieces == RanksFrom(g, 0)
  {
    pieces := [];
    for r := 0 to 8
      invariant r == 0 ==> pieces == []
      invariant 0 < r < 8 ==> RanksFrom(g, 0) == pieces + "/" + RanksFrom(g, r)
      invariant r == 8 ==> pieces == RanksFrom(g, 0)
    {
      var row := EncodeRank(g[r]);
      if r == 0 {
        pieces := row;
      } else {
        Assoc(pieces, "/", RanksFrom(g, r));
        if r < 7 {
          Assoc(pieces + "/" + row, "/", RanksFrom(g, r + 1));
          Assoc(pieces + "/", row, "/" + RanksFrom(g, r + 1));
          Assoc(pieces + "/", row, "/");
        }
        pieces := pieces + "/" + row;
      }
    }
  }

  /** The first castling move of the requested side, scanning the list. */
  method FindCastle(legal: seq<Move>, kingside: bool) returns (r: Option<Move>)
    ensures r == FirstCastle(legal, kingside)
  {
    for i := 0 to |legal|
      invariant FirstCastle(legal, kingside) == FirstCastle(legal[i..], kingside)
    {
      assert legal[i..][0] == legal[i] && legal[i..][1..] == legal[i + 1..];
      var m := legal[i];
      if (kingside && m.isCastleKing) || (!kingside && m.isCastleQueen) {
        return Some(m);
      }
    }
    return None;
  }

  /** The first move with the given squares and promotion, scanning the list. */
  method FindMatch(legal: seq<Move>, src: Square, dst: Square, promo: Option<char>) returns (r: Option<Move>)
    ensures r == FirstMatch(legal, src, dst, promo)
  {
    for i := 0 to |legal|
      invariant FirstMatch(legal, src, dst, promo) == FirstMatch(legal[i..], src, dst, promo)
    {
      assert legal[i..][0] == legal[i] && legal[i..][1..] == legal[i + 1..];
      var m := legal[i];
      if m.src == src && m.dst == dst && PromoMatches(promo, m.promotion) {
        return Some(m);
      }
    }
    return None;
  }

  /** Every snapshot in a history is a well-formed position. */
  ghost predicate AllWellFormed(h: seq<Position>) {
    forall i :: 0 <= i < |h| ==> WellFormed(h[i])
  }

  class Board {
    var grid: Grid
    var turn: Color
    var rights: set<Right>
    var ep: Option<Square>
    var halfmove: int
    var fullmove: int
    /** Snapshots taken before each move made, most recent last. */
    var history: seq<Position>
    var counts: map<string, int>

    /** The position the fields hold. */
    function Pos(): Position
      reads this
    {
      Position(grid, turn, rights, ep, halfmove, fullmove, counts)
    }

    ghost predicate Valid()
      reads this
    {
      WellFormed(Pos()) && AllWellFormed(history)
    }

    /** A new board holds the starting position with its key counted once. */
    constructor()
      ensures Valid() && Pos() == StartPosition() && history == []
    {
      grid, turn, rights, ep := EmptyGrid, White, AllRights, None;
      halfmove, fullmove, history, counts := 0, 1, [], map[];
      new;
      SetupStartingPosition();
    }

    method SetupStartingPosition()
      modifies this
      ensures Valid() && Pos() == StartPosition() && history == []
    {
      ResetToInitial();
      IncrementPositionCount();
    }

    /** The standard placement, White to move with all rights, no history and no counts. */
    method ResetToInitial()
      modifies this
      ensures Valid() && Pos() == Initial && history == []
    {
      grid := StartingPlacement();
      turn, rights, ep, halfmove, fullmove := White, AllRights, None, 0, 1;
      history := [];
      counts := map[];
      InitialWellFormed();
    }

    /** The first king of `color` in row-major order; None where the source raises. */
    method KingPosition(color: Color) returns (k: Option<Square>)
      requires Valid()
      ensures k == KingSquare(grid, color)
    {
      for r := 0 to 8
        invariant forall i, j :: InBounds(i, j) && i < r ==> !KingAt(grid, i, j, color)
      {
        for c := 0 to 8
          invariant forall i, j :: InBounds(i, j) && Before(i, j, r, c) ==> !KingAt(grid, i, j, color)
        {
          var p := grid[r][c];
          if p.Some? && p.value.color == color && p.value.kind == King {
            k := Some(Sq(r, c));
            KingSquareIsFirst(color, r, c);
            return;
          }
        }
      }
      k := None;
    }

    /** The king found by a row-major scan is the one the specification names. */
    lemma KingSquareIsFirst(color: Color, r: int, c: int)
      requires GridShape(grid) && InBounds(r, c) && KingAt(grid, r, c, color)
      requires forall i, j :: InBounds(i, j) && Before(i, j, r, c) ==> !KingAt(grid, i, j, color)
      ensures KingSquare(grid, color) == Some(Sq(r, c))
    {
      var k := KingSquare(grid, color);
      assert !Before(r, c, 0, 0);
      assert k.Some?;
      assert !Before(k.value.row, k.value.col, r, c);
      assert !Before(r, c, k.value.row, k.value.col);
    }

    /** Whether `color` attacks `target`: pawns, knights, sliding pieces, then the king. */
    method IsSquareAttackedBy(target: Square, color: Color) returns (b: bool)
      requires Valid()
      ensures b == AttackedBy(grid, target.row, target.col, color)
    {
      var r, c := target.row, target.col;
      b := PawnAttackScan(r, c, color);
      if b {
        return;
      }
      b := KnightAttackScan(r, c, color);
      if b {
        return;
      }
      b := SlideAttackScan(r, c, color);
      if b {
        return;
      }
      b := KingAttackScan(r, c, color);
    }

    /** A pawn of `color` is looked for on the row it attacks from. */
    method PawnAttackScan(r: int, c: int, color: Color) returns (b: bool)
      requires Valid()
      ensures b == PawnAttackFrom(grid, PawnAttackRow(r, color), c, color)
    {
      var pr := PawnAttackRow(r, color);
      for i := 0 to 2
        invariant forall j :: 0 <= j < i ==> !Holds(grid, pr, c + PawnSides[j], Pawn, color)
      {
        var cc := c + PawnSides[i];
        if InBounds(pr, cc) {
          var p := grid[pr][cc];
          if p.Some? && p.value.color == color && p.value.kind == Pawn {
            return true;
          }
        }
      }
      assert !Holds(grid, pr, c + PawnSides[0], Pawn, color) && !Holds(grid, pr, c + PawnSides[1], Pawn, color);
      return false;
    }

    method KnightAttackScan(r: int, c: int, color: Color) returns (b: bool)
      requires Valid()
      ensures b == KnightAttack(grid, r, c, color)
    {
      for i := 0 to 8
        invariant forall j :: 0 <= j < i ==> !Holds(grid, r + KnightOffsets[j].0, c + KnightOffsets[j].1, Knight, color)
      {
        var rr, cc := r + KnightOffsets[i].0, c + KnightOffsets[i].1;
        if InBounds(rr, cc) {
          var p := grid[rr][cc];
          if p.Some? && p.value.color == color && p.value.kind == Knight {
            assert Holds(grid, rr, cc, Knight, color);
            return true;
          }
        }
      }
      return false;
    }

    method SlideAttackScan(r: int, c: int, color: Color) returns (b: bool)
      requires Valid()
      ensures b == SlideAttack(grid, r, c, color)
    {
      for i := 0 to 8
        invariant forall j :: 0 <= j < i ==>
                    !RayHits(grid, r + SlideRays[j].0, c + SlideRays[j].1, SlideRays[j].0, SlideRays[j].1, SlideRays[j].2, color)
      {
        var hit := RayScan(r, c, SlideRays[i].0, SlideRays[i].1, SlideRays[i].2, color);
        if hit {
          return true;
        }
      }
      return false;
    }

    /** The eight neighbouring squares, in the order of the source's double loop over row and
        column steps with (0, 0) skipped. */
    method KingAttackScan(r: int, c: int, color: Color) returns (b: bool)
      requires Valid()
      ensures b == KingAttack(grid, r, c, color)
    {
      for i := 0 to 8
        invariant forall j :: 0 <= j < i ==> !Holds(grid, r + KingOffsets[j].0, c + KingOffsets[j].1, King, color)
      {
        var rr, cc := r + KingOffsets[i].0, c + KingOffsets[i].1;
        if InBounds(rr, cc) {
          var p := grid[rr][cc];
          if p.Some? && p.value.color == color && p.value.kind == King {
            assert Holds(grid, rr, cc, King, color);
            return true;
          }
        }
      }
      return false;
    }

    /** The walk along one ray from (r, c): the first occupied square decides. */
    method RayScan(r: int, c: int, dr: int, dc: int, rookRay: bool, color: Color) returns (hit: bool)
      requires Valid() && Step(dr, dc)
      ensures hit == RayHits(grid, r + dr, c + dc, dr, dc, rookRay, color)
    {
      var rr, cc := r + dr, c + dc;
      while InBounds(rr, cc)
        invariant RayHits(grid, r + dr, c + dc, dr, dc, rookRay, color) == RayHits(grid, rr, cc, dr, dc, rookRay, color)
        decreases RayRoom(rr, cc, dr, dc)
      {
        var p := grid[rr][cc];
        if p.Some? {
          return p.value.color == color && SlidesAlong(p.value.kind, rookRay);
        }
        rr, cc := rr + dr, cc + dc;
      }
      return false;
    }

    /** Whether the king of `color` is attacked; false when there is no such king. */
    method IsInCheck(color: Color) returns (b: bool)
      requires Valid()
      ensures b == InCheck(grid, color)
    {
      var k := KingPosition(color);
      if k.None? {
        return false;
      }
      b := IsSquareAttackedBy(k.value, Opponent(color));
    }

    // --- Move generation ------------------------------------------------------

    /** A pawn's arrival on `dst`: the four promotions in order on the last row, one move
        otherwise. */
    method Arrivals(src: Square, dst: Square, captured: Option<Piece>, p: Piece) returns (ms: seq<Move>)
      ensures ms == PawnArrivals(src, dst, captured, p)
    {
      if LastRow(dst.row) {
        ms := [];
        for i := 0 to 4
          invariant |ms| == i && forall j :: 0 <= j < i ==> ms[j] == Mk(src, dst, Some(PromotionKinds[j]), captured, p)
        {
          ms := ms + [Mk(src, dst, Some(PromotionKinds[i]), captured, p)];
        }
        assert forall j :: 0 <= j < 4 ==> ms[j] == PawnArrivals(src, dst, captured, p)[j];
      } else {
        ms := [Mk(src, dst, None, captured, p)];
      }
    }

    method PawnPushesAt(r: int, c: int, p: Piece) returns (ms: seq<Move>)
      requires Valid() && InBounds(r, c)
      ensures ms == PawnPushes(grid, r, c, p)
    {
      ms := [];
      var rr := r + Forward(p.color);
      if InBounds(rr, c) && grid[rr][c].None? {
        ms := Arrivals(Sq(r, c), Sq(rr, c), None, p);
        var rr2 := r + 2 * Forward(p.color);
        if r == StartRank(p.color) && grid[rr2][c].None? {
          ms := ms + [Mk(Sq(r, c), Sq(rr2, c), None, None, p)];
        }
      }
    }

    method PawnCaptureAt(r: int, c: int, dc: int, p: Piece) returns (ms: seq<Move>)
      requires Valid() && InBounds(r, c)
      ensures ms == PawnCapture(grid, r, c, dc, p)
    {
      ms := [];
      var rr, cc := r + Forward(p.color), c + dc;
      if InBounds(rr, cc) {
        var target := grid[rr][cc];
        if target.Some? && target.value.color != p.color {
          ms := Arrivals(Sq(r, c), Sq(rr, cc), target, p);
        }
      }
    }

    /** Pushes, captures towards each side, then en passant. */
    method PawnMovesAt(r: int, c: int, p: Piece) returns (ms: seq<Move>)
      requires Valid() && InBounds(r, c)
      ensures ms == PawnMoves(grid, ep, r, c, p)
    {
      ms := PawnPushesAt(r, c, p);
      for i := 0 to 2
        invariant ms == PawnThrough(grid, r, c, i, p)
      {
        var caps := PawnCaptureAt(r, c, PawnSides[i], p);
        ms := ms + caps;
      }
      var passant := EnPassantAt(r, c, p);
      ms := ms + passant;
    }

    method EnPassantAt(r: int, c: int, p: Piece) returns (ms: seq<Move>)
      requires Valid() && InBounds(r, c)
      ensures ms == PawnEnPassant(ep, r, c, p)
    {
      ms := [];
      if ep.Some? {
        var er, ec := ep.value.row, ep.value.col;
        if er == r + Forward(p.color) && (ec - c == 1 || c - ec == 1) {
          ms := [Move(Sq(r, c), Sq(er, ec), None, true, false, false, None, Some(p))];
        }
      }
    }

    /** Knight or king steps over the offsets in order. */
    method StepMovesAt(r: int, c: int, offs: seq<(int, int)>, p: Piece) returns (ms: seq<Move>)
      requires Valid() && InBounds(r, c)
      ensures ms == StepMoves(grid, r, c, offs, p)
    {
      ms := [];
      assert offs[0..] == offs;
      for i := 0 to |offs|
        invariant StepMoves(grid, r, c, offs, p) == ms + StepMoves(grid, r, c, offs[i..], p)
      {
        StepUnfold(grid, r, c, offs, i, p);
        var rr, cc := r + offs[i].0, c + offs[i].1;
        if InBounds(rr, cc) {
          var t := grid[rr][cc];
          if t.None? || t.value.color != p.color {
            Assoc(ms, [Mk(Sq(r, c), Sq(rr, cc), None, t, p)], StepMoves(grid, r, c, offs[i + 1..], p));
            ms := ms + [Mk(Sq(r, c), Sq(rr, cc), None, t, p)];
          }
        }
      }
    }

    /** The walk along one ray: empty squares, then an enemy occupant, then stop. */
    method RayMovesAt(r: int, c: int, dr: int, dc: int, p: Piece) returns (ms: seq<Move>)
      requires Valid() && InBounds(r, c) && Step(dr, dc)
      ensures ms == RayMoves(grid, r, c, r + dr, c + dc, dr, dc, p)
    {
      ms := [];
      var rr, cc := r + dr, c + dc;
      while InBounds(rr, cc)
        invariant RayMoves(grid, r, c, r + dr, c + dc, dr, dc, p) == ms + RayMoves(grid, r, c, rr, cc, dr, dc, p)
        decreases RayRoom(rr, cc, dr, dc)
      {
        RayUnfold(grid, r, c, rr, cc, dr, dc, p);
        var t := grid[rr][cc];
        if t.None? {
          Assoc(ms, [Mk(Sq(r, c), Sq(rr, cc), None, None, p)], RayMoves(grid, r, c, rr + dr, cc + dc, dr, dc, p));
          ms := ms + [Mk(Sq(r, c), Sq(rr, cc), None, None, p)];
        } else {
          if t.value.color != p.color {
            ms := ms + [Mk(Sq(r, c), Sq(rr, cc), None, t, p)];
          }
          return;
        }
        rr, cc := rr + dr, cc + dc;
      }
    }

    method SlideMovesAt(r: int, c: int, dirs: seq<(int, int)>, p: Piece) returns (ms: seq<Move>)
      requires Valid() && InBounds(r, c)
      requires forall i :: 0 <= i < |dirs| ==> Step(dirs[i].0, dirs[i].1)
      ensures ms == SlideMoves(grid, r, c, dirs, p)
    {
      ms := [];
      assert dirs[0..] == dirs;
      for i := 0 to |dirs|
        invariant SlideMoves(grid, r, c, dirs, p) == ms + SlideMoves(grid, r, c, dirs[i..], p)
      {
        SlideUnfold(grid, r, c, dirs, i, p);
        var ray := RayMovesAt(r, c, dirs[i].0, dirs[i].1, p);
        Assoc(ms, ray, SlideMoves(grid, r, c, dirs[i + 1..], p));
        ms := ms + ray;
      }
    }

    /** Castling offered by generation: the king on its home square, the right held, the squares
        between king and rook empty. */
    method CastleMovesAt(r: int, c: int, p: Piece) returns (ms: seq<Move>)
      requires Valid() && InBounds(r, c)
      ensures ms == CastleMoves(grid, rights, r, c, p)
    {
      ms := [];
      if p.color == White && (r, c) == (7, 4) {
        if WhiteKingside in rights && grid[7][5].None? && grid[7][6].None? {
          ms := ms + [Move(Sq(r, c), Sq(7, 6), None, false, true, false, None, Some(p))];
        }
        if WhiteQueenside in rights && grid[7][3].None? && grid[7][2].None? && grid[7][1].None? {
          ms := ms + [Move(Sq(r, c), Sq(7, 2), None, false, false, true, None, Some(p))];
        }
      }
      if p.color == Black && (r, c) == (0, 4) {
        if BlackKingside in rights && grid[0][5].None? && grid[0][6].None? {
          ms := ms + [Move(Sq(r, c), Sq(0, 6), None, false, true, false, None, Some(p))];
        }
        if BlackQueenside in rights && grid[0][3].None? && grid[0][2].None? && grid[0][1].None? {
          ms := ms + [Move(Sq(r, c), Sq(0, 2), None, false, false, true, None, Some(p))];
        }
      }
    }

    /** The pseudo-legal moves of the piece on (r, c), each carrying that piece. */
    method GeneratePseudoMovesForPiece(r: int, c: int) returns (ms: seq<Move>)
      requires Valid() && InBounds(r, c)
      ensures ms == PieceMoves(grid, ep, rights, r, c)
    {
      var x := grid[r][c];
      if x.None? {
        return [];
      }
      var p := x.value;
      match p.kind {
        case Pawn =>
          ms := PawnMovesAt(r, c, p);
        case Knight =>
          ms := StepMovesAt(r, c, KnightOffsets, p);
        case King =>
          var steps := StepMovesAt(r, c, KingOffsets, p);
          var castles := CastleMovesAt(r, c, p);
          ms := steps + castles;
        case _ =>
          ms := SlideMovesAt(r, c, SliderSteps(p.kind), p);
      }
    }

    /** Every pseudo-legal move of `color`, square by square in row-major order. */
    method GeneratePseudoLegalMoves(color: Color) returns (ms: seq<Move>)
      requires Valid()
      ensures ms == PseudoMoves(Pos(), color)
    {
      ms := [];
      for r := 0 to 8
        invariant PseudoMoves(Pos(), color) == ms + PseudoFrom(grid, ep, rights, color, r, 0)
      {
        for c := 0 to 8
          invariant PseudoMoves(Pos(), color) == ms + PseudoFrom(grid, ep, rights, color, r, c)
        {
          PseudoUnfold(grid, ep, rights, color, r, c);
          var p := grid[r][c];
          if p.Some? && p.value.color == color {
            var here := GeneratePseudoMovesForPiece(r, c);
            Assoc(ms, here, PseudoFrom(grid, ep, rights, color, r, c + 1));
            ms := ms + here;
          }
        }
        assert PseudoFrom(grid, ep, rights, color, r, 8) == PseudoFrom(grid, ep, rights, color, r + 1, 0);
      }
    }

    // --- Snapshots and moves ----------------------------------------------------

    method Snapshot() returns (s: Position)
      ensures s == Pos()
    {
      s := Position(grid, turn, rights, ep, halfmove, fullmove, counts);
    }

    /** Put a snapshot back; the history is left alone. */
    method Restore(s: Position)
      requires WellFormed(s) && AllWellFormed(history)
      modifies this
      ensures Valid() && Pos() == s && history == old(history)
    {
      grid, turn, rights, ep, halfmove, fullmove, counts := s.grid, s.turn, s.rights, s.ep, s.halfmove, s.fullmove, s.counts;
    }

    /** A move's effects on the grid, the clocks, the en-passant target and the rights. */
    method ApplyMove(m: Move)
      requires Valid() && Applicable(Pos(), m)
      modifies this
      ensures Valid() && Pos() == Apply(old(Pos()), m) && history == old(history)
    {
      var piece := grid[m.src.row][m.src.col].value;
      var target := grid[m.dst.row][m.dst.col];
      ApplyParts(Pos(), m, piece, target);
      var half := if piece.kind == Pawn || target.Some? || m.isEnPassant then 0 else halfmove + 1;
      var g := MovedPlacement(grid, m, piece);
      var target' := DoublePushTarget(m, piece);
      var rs := RightsAfter(rights, piece, m.src, m.dst, target);
      grid, halfmove, ep, rights := g, half, target', rs;
    }


    method IncrementPositionCount()
      requires Valid()
      modifies this
      ensures Valid() && Pos() == Counted(old(Pos())) && history == old(history)
    {
      var key := PositionKeyOf();
      counts := counts[key := CountOf(counts, key) + 1];
    }

    /** The repetition key: the placement rank by rank, side to move, rights, en-passant
        target. */
    method PositionKeyOf() returns (key: string)
      requires Valid()
      ensures key == PositionKey(Pos())
    {
      var pieces := PlacementKey(grid);
      var cr := RightsLetters(rights);
      if cr == "" {
        cr := "-";
      }
      var target := "-";
      if ep.Some? {
        target := CoordsToAlgebraic(ep.value);
      }
      key := pieces + " " + TurnKey(turn) + " " + cr + " " + target;
    }

    // --- Legality -------------------------------------------------------------------

    /** Castling's extra tests: not out of check, and no square the king crosses or lands on
        attacked by the other side. */
    method CastleChecks(m: Move, color: Color) returns (ok: bool)
      requires Valid() && OnBoard(m.src)
      ensures ok == CastleAllowed(grid, m, color)
    {
      var chk := IsInCheck(color);
      if chk {
        return false;
      }
      var path := PathCols(m);
      var row := m.src.row;
      for j := 0 to |path|
        invariant forall k :: 0 <= k < j ==> !AttackedBy(grid, row, path[k], Opponent(color))
      {
        var hit := IsSquareAttackedBy(Sq(row, path[j]), Opponent(color));
        if hit {
          return false;
        }
      }
      return true;
    }

    /** The probe: snapshot, apply the move, look at the mover's king, restore. */
    method KingSafeAfter(m: Move, color: Color) returns (ok: bool)
      requires Valid() && Applicable(Pos(), m)
      modifies this
      ensures Valid() && Pos() == old(Pos()) && history == old(history)
      ensures ok == KeepsKingSafe(old(Pos()), m, color)
    {
      var snap := Snapshot();
      ApplyMove(m);
      var chk := IsInCheck(color);
      ok := !chk;
      Restore(snap);
    }

    /** The pseudo-legal moves that pass the castling tests and the king-safety probe, in
        generation order. The board is used as scratch space and left as it was. */
    method GenerateLegalMoves(color: Color) returns (legal: seq<Move>)
      requires Valid()
      modifies this
      ensures Valid() && Pos() == old(Pos()) && history == old(history)
      ensures legal == LegalMoves(old(Pos()), color)
    {
      var pseudo := GeneratePseudoLegalMoves(color);
      PseudoGenerated(Pos(), color);
      legal := FilterLegal(pseudo, color);
    }

    /** The filter loop over the generated moves. */
    method FilterLegal(pseudo: seq<Move>, color: Color) returns (legal: seq<Move>)
      requires Valid() && forall m :: m in pseudo ==> Generated(grid, m, color)
      modifies this
      ensures Valid() && Pos() == old(Pos()) && history == old(history)
      ensures legal == LegalFrom(old(Pos()), color, pseudo)
    {
      ghost var p := Pos();
      legal := [];
      assert pseudo[0..] == pseudo;
      for i := 0 to |pseudo|
        invariant Valid() && Pos() == p && history == old(history)
        invariant LegalFrom(p, color, pseudo) == legal + LegalFrom(p, color, pseudo[i..])
      {
        LegalUnfold(p, color, pseudo, i);
        var ok := PassesLegality(pseudo[i], color);
        if ok {
          Assoc(legal, [pseudo[i]], LegalFrom(p, color, pseudo[i + 1..]));
          legal := legal + [pseudo[i]];
        }
      }
    }

    /** One pseudo-legal move through the filter: the castling tests for a castling king move,
        then the probe. */
    method PassesLegality(m: Move, color: Color) returns (ok: bool)
      requires Valid() && Generated(grid, m, color)
      modifies this
      ensures Valid() && Pos() == old(Pos()) && history == old(history)
      ensures ok == LegalFor(old(Pos()), m, color)
    {
      GeneratedApplicable(Pos(), m, color);
      ok := true;
      if m.piece.Some? && m.piece.value.kind == King && (m.isCastleKing || m.isCastleQueen) {
        ok := CastleChecks(m, color);
      }
      if ok {
        ok := KingSafeAfter(m, color);
      }
    }

    method AllLegalMoves() returns (legal: seq<Move>)
      requires Valid()
      modifies this
      ensures Valid() && Pos() == old(Pos()) && history == old(history)
      ensures legal == LegalMoves(old(Pos()), old(turn))
    {
      legal := GenerateLegalMoves(turn);
    }

    // --- Making and undoing moves ----------------------------------------------------

    /** A ply: the move's effects, the other side to move, the move number after Black's
        move, and the new position counted. */
    method PlayPly(m: Move)
      requires Valid() && Applicable(Pos(), m)
      modifies this
      ensures Valid() && Pos() == Play(old(Pos()), m) && history == old(history)
    {
      ApplyMove(m);
      turn := if turn == Black then White else Black;
      if turn == White {
        fullmove := fullmove + 1;
      }
      IncrementPositionCount();
    }

    /** A move is made exactly when a legal move has its squares, promotion and flags; the
        position before it is pushed on the history. Otherwise nothing changes. */
    method MakeMove(m: Move) returns (ok: bool)
      requires Valid()
      modifies this
      ensures Valid()
      ensures ok <==> exists lm :: lm in LegalMoves(old(Pos()), old(turn)) && Id(lm) == Id(m)
      ensures ok ==> Applicable(old(Pos()), m) && Pos() == Play(old(Pos()), m) &&
                     history == old(history) + [old(Pos())]
      ensures !ok ==> Pos() == old(Pos()) && history == old(history)
    {
      var legal := GenerateLegalMoves(turn);
      var keys := set lm | lm in legal :: Id(lm);
      if Id(m) !in keys {
        return false;
      }
      ghost var lm :| lm in legal && Id(lm) == Id(m);
      SameIdSamePlay(Pos(), lm, m);
      Commit(m);
      ok := true;
    }

    /** The second half of making a move: push the snapshot, then play the ply. */
    method Commit(m: Move)
      requires Valid() && Applicable(Pos(), m)
      modifies this
      ensures Valid() && Pos() == Play(old(Pos()), m) && history == old(history) + [old(Pos())]
    {
      var snap := Snapshot();
      history := history + [snap];
      assert forall i :: 0 <= i < |history| - 1 ==> history[i] == old(history)[i];
      PlayPly(m);
    }

    /** Undo puts back the last snapshot and drops it, or reports that there is none. */
    method Undo() returns (ok: bool)
      requires Valid()
      modifies this
      ensures Valid() && ok == (old(history) != [])
      ensures ok ==> Pos() == old(history)[|old(history)| - 1] && history == old(history)[..|old(history)| - 1]
      ensures !ok ==> Pos() == old(Pos()) && history == old(history)
    {
      if history == [] {
        return false;
      }
      var snap := history[|history| - 1];
      history := history[..|history| - 1];
      Restore(snap);
      ok := true;
    }

    /** Undo inverts a successful move: making a move and then undoing it leaves the position
        and the history as they were, whether or not the move was accepted. */
    method UndoInvertsMakeMove(m: Move) returns (made: bool)
      requires Valid()
      modifies this
      ensures Valid() && Pos() == old(Pos()) && history == old(history)
      ensures made <==> exists lm :: lm in LegalMoves(old(Pos()), old(turn)) && Id(lm) == Id(m)
    {
      made := MakeMove(m);
      if made {
        var undone := Undo();
        assert undone;
      }
    }

    // --- End of game -------------------------------------------------------------

    method IsCheckmate() returns (b: bool)
      requires Valid()
      modifies this
      ensures Valid() && Pos() == old(Pos()) && history == old(history)
      ensures b == Game.IsCheckmate(old(Pos()))
    {
      var chk := IsInCheck(turn);
      b := false;
      if chk {
        var ms := AllLegalMoves();
        b := |ms| == 0;
      }
    }

    method IsStalemate() returns (b: bool)
      requires Valid()
      modifies this
      ensures Valid() && Pos() == old(Pos()) && history == old(history)
      ensures b == Game.IsStalemate(old(Pos()))
    {
      var chk := IsInCheck(turn);
      b := false;
      if !chk {
        var ms := AllLegalMoves();
        b := |ms| == 0;
      }
    }

    method IsDrawBy50() returns (b: bool)
      ensures b == Game.IsDrawBy50(Pos())
    {
      b := halfmove >= 100;
    }

    method IsDrawByThreefold() returns (b: bool)
      requires Valid()
      ensures b == Game.IsDrawByThreefold(Pos())
    {
      var key := PositionKeyOf();
      b := CountOf(counts, key) >= 3;
    }

    // --- Reading moves -----------------------------------------------------------

    /** The legal move a typed text denotes, or None. */
    method ParseMoveStr(text: string) returns (r: Option<Move>)
      requires Valid()
      modifies this
      ensures Valid() && Pos() == old(Pos()) && history == old(history)
      ensures r == ParseMove(LegalMoves(old(Pos()), old(turn)), text)
    {
      var s := Normal(text);
      if s in KingsideTokens {
        r := CastleAmongLegal(true);
        return;
      }
      if s in QueensideTokens {
        r := CastleAmongLegal(false);
        return;
      }
      if |s| != 4 && |s| != 5 {
        return None;
      }
      var src := AlgebraicToCoords(s[..2]);
      var dst := AlgebraicToCoords(s[2..4]);
      if src.None? || dst.None? {
        return None;
      }
      var promo := if |s| == 5 then Some(Upper(s[4])) else None;
      r := MatchAmongLegal(src.value, dst.value, promo);
    }

    /** The first legal castling move of the requested side. */
    method CastleAmongLegal(kingside: bool) returns (r: Option<Move>)
      requires Valid()
      modifies this
      ensures Valid() && Pos() == old(Pos()) && history == old(history)
      ensures r == FirstCastle(LegalMoves(old(Pos()), old(turn)), kingside)
    {
      var legal := AllLegalMoves();
      r := FindCastle(legal, kingside);
    }

    /** The first legal move with the given squares and promotion. */
    method MatchAmongLegal(src: Square, dst: Square, promo: Option<char>) returns (r: Option<Move>)
      requires Valid()
      modifies this
      ensures Valid() && Pos() == old(Pos()) && history == old(history)
      ensures r == FirstMatch(LegalMoves(old(Pos()), old(turn)), src, dst, promo)
    {
      var legal := AllLegalMoves();
      r := FindMatch(legal, src, dst, promo);
    }
  }
}
