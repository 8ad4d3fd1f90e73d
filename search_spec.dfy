/** The engine's game: the static evaluation, the move ordering, and the chess positions as a
    game tree for the generic alpha-beta search, searched in the engine's order and, as the
    reference, in generation order. */
module SearchSpec {
  import opened ChessTypes
  import opened Positions
  import opened MoveGen
  import opened Game
  import opened AlphaBeta

  function PieceValue(k: Kind): (v: int)
    ensures 0 <= v <= 900
    ensures v == 0 <==> k == King
  {
    match k
    case Pawn => 100
    case Knight => 320
    case Bishop => 330
    case Rook => 500
    case Queen => 900
    case King => 0
  }

  /** A square's contribution to the material balance, from White's point of view. */
  function SquareValue(x: Option<Piece>): (v: int)
    ensures -900 <= v <= 900
    ensures x.None? ==> v == 0
    ensures x.Some? ==> v == if x.value.color == White then PieceValue(x.value.kind) else -PieceValue(x.value.kind)
  {
    match x
    case None => 0
    case Some(p) => if p.color == White then PieceValue(p.kind) else -PieceValue(p.kind)
  }

  /** Material of row[c..]. */
  function RowMaterial(row: seq<Option<Piece>>, c: int): (v: int)
    requires 0 <= c <= |row|
    ensures -900 * (|row| - c) <= v <= 900 * (|row| - c)
    decreases |row| - c
  {
    if c == |row| then 0 else SquareValue(row[c]) + RowMaterial(row, c + 1)
  }

  /** Material of rows r .. 7. */
  function Material(g: Grid, r: int): (v: int)
    requires GridShape(g) && 0 <= r <= 8
    ensures -7200 * (8 - r) <= v <= 7200 * (8 - r)
    decreases 8 - r
  {
    if r == 8 then 0 else RowMaterial(g[r], 0) + Material(g, r + 1)
  }

  /** Material, plus White's legal move count minus Black's, minus 10 when White is in check
      and plus 10 when Black is. Both sides' moves are generated in the same position, whoever
      is to move. */
  function Eval(p: Position): (e: int)
    requires WellFormed(p)
    ensures -Inf < e < Inf
  {
    Material(p.grid, 0) + |LegalMoves(p, White)| - |LegalMoves(p, Black)| +
    (if InCheck(p.grid, White) then -10 else 0) + (if InCheck(p.grid, Black) then 10 else 0)
  }

  // --- Move ordering ------------------------------------------------------------

  /** Captures and promotions are searched first. */
  predicate Tactical(m: Move) {
    m.captured.Some? || m.promotion.Some?
  }

  function Tacticals(ms: seq<Move>): (t: seq<Move>)
    ensures forall m :: m in t <==> m in ms && Tactical(m)
  {
    if ms == [] then [] else (if Tactical(ms[0]) then [ms[0]] else []) + Tacticals(ms[1..])
  }

  function Quiets(ms: seq<Move>): (q: seq<Move>)
    ensures forall m :: m in q <==> m in ms && !Tactical(m)
  {
    if ms == [] then [] else (if Tactical(ms[0]) then [] else [ms[0]]) + Quiets(ms[1..])
  }

  /** A stable sort on the key "tactical or not", tactical moves first: each group keeps the
      generator's order. */
  function OrderMoves(ms: seq<Move>): seq<Move> {
    Tacticals(ms) + Quiets(ms)
  }

  lemma {:induction false} PartitionCount(ms: seq<Move>)
    ensures multiset(Tacticals(ms)) + multiset(Quiets(ms)) == multiset(ms)
  {
    if ms != [] {
      PartitionCount(ms[1..]);
      assert ms == [ms[0]] + ms[1..];
    }
  }

  /** `a` is `b` with some elements left out, the rest kept in their order. */
  predicate IsSubsequence<T(==)>(a: seq<T>, b: seq<T>)
    decreases |b|
  {
    if a == [] then true
    else if b == [] then false
    else if a[0] == b[0] then IsSubsequence(a[1..], b[1..])
    else IsSubsequence(a, b[1..])
  }

  /** Each group keeps the generator's order: the tactical moves, and the quiet ones, appear
      in the ordered list in the order they were generated. */
  lemma {:induction false} GroupsKeepOrder(ms: seq<Move>)
    ensures IsSubsequence(Tacticals(ms), ms)
    ensures IsSubsequence(Quiets(ms), ms)
  {
    if ms != [] {
      var rest := ms[1..];
      GroupsKeepOrder(rest);
      var t, q := Tacticals(rest), Quiets(rest);
      if Tactical(ms[0]) {
        assert Tacticals(ms) == [ms[0]] + t && ([ms[0]] + t)[1..] == t;
        assert Quiets(ms) == q;
        if q != [] {
          assert q[0] in q && !Tactical(q[0]);
        }
      } else {
        assert Quiets(ms) == [ms[0]] + q && ([ms[0]] + q)[1..] == q;
        assert Tacticals(ms) == t;
        if t != [] {
          assert t[0] in t && Tactical(t[0]);
        }
      }
    }
  }

  /** Ordering permutes the moves, puts every tactical move before every quiet one, and keeps
      each group in generation order. */
  lemma OrderMovesSpec(ms: seq<Move>)
    ensures multiset(OrderMoves(ms)) == multiset(ms)
    ensures forall m :: m in OrderMoves(ms) <==> m in ms
    ensures forall i, j :: 0 <= i < j < |OrderMoves(ms)| && Tactical(OrderMoves(ms)[j]) ==> Tactical(OrderMoves(ms)[i])
    ensures IsSubsequence(Tacticals(ms), ms) && IsSubsequence(Quiets(ms), ms)
  {
    OrderMovesPermutes(ms);
    TacticalsFirst(ms);
    GroupsKeepOrder(ms);
  }

  lemma OrderMovesPermutes(ms: seq<Move>)
    ensures multiset(OrderMoves(ms)) == multiset(ms)
    ensures forall m :: m in OrderMoves(ms) <==> m in ms
  {
    PartitionCount(ms);
    assert forall m :: m in OrderMoves(ms) <==> m in multiset(OrderMoves(ms));
  }

  lemma TacticalsFirst(ms: seq<Move>)
    ensures forall i, j :: 0 <= i < j < |OrderMoves(ms)| && Tactical(OrderMoves(ms)[j]) ==> Tactical(OrderMoves(ms)[i])
  {
    var t, q := Tacticals(ms), Quiets(ms);
    forall i, j | 0 <= i < j < |OrderMoves(ms)| && Tactical(OrderMoves(ms)[j])
      ensures Tactical(OrderMoves(ms)[i])
    {
      var o := OrderMoves(ms);
      assert o[i] == t[i] && o[i] in t;
    }
  }

  // --- The chess game tree ------------------------------------------------------

  /** The position a move leads to: the ply played. A move that does not apply leaves the
      position as it is; the search only plays legal moves. */
  function Next(p: Position, m: Move): Position {
    if Applicable(p, m) then Play(p, m) else p
  }

  /** The moves in the order the engine searches them. */
  function EngineMoves(p: Position): seq<Move> {
    if WellFormed(p) then OrderMoves(LegalMoves(p, p.turn)) else []
  }

  /** The moves in generation order. */
  function GeneratedMoves(p: Position): seq<Move> {
    if WellFormed(p) then LegalMoves(p, p.turn) else []
  }

  function Value(p: Position): int {
    if WellFormed(p) then Eval(p) else 0
  }

  function SideToMove(p: Position): Color {
    p.turn
  }

  /** The tree the engine searches. */
  const EngineTree: AlphaBeta.Game<Position, Move> := AlphaBeta.Game(EngineMoves, Next, Value, SideToMove)

  /** The same tree with the moves unordered, for plain minimax. */
  const ReferenceTree: AlphaBeta.Game<Position, Move> := AlphaBeta.Game(GeneratedMoves, Next, Value, SideToMove)

  /** The value the engine's search gives a position. */
  function SearchValue(p: Position, depth: nat, alpha: int, beta: int): int {
    AB(EngineTree, p, depth, alpha, beta)
  }

  /** A legal move's child in the engine's tree is the played position. */
  lemma ChildIsSearch(p: Position, m: Move, depth: nat, alpha: int, beta: int)
    requires depth >= 1 && Applicable(p, m)
    ensures ChildValue(EngineTree, p, m, depth, alpha, beta) == SearchValue(Play(p, m), depth - 1, alpha, beta)
  {
  }

  /** Every move the engine orders is applicable. */
  lemma OrderedMovesApplicable(p: Position)
    requires WellFormed(p)
    ensures var ms := OrderMoves(LegalMoves(p, p.turn));
            forall j :: 0 <= j < |ms| ==> Applicable(p, ms[j])
  {
    var ms := OrderMoves(LegalMoves(p, p.turn));
    OrderMovesPermutes(LegalMoves(p, p.turn));
    forall j | 0 <= j < |ms|
      ensures Applicable(p, ms[j])
    {
      assert ms[j] in ms;
    }
  }

  // --- The engine's promises ------------------------------------------------------

  /** The engine searches exactly the legal moves, each applicable, with the tactical ones
      first. */
  lemma EngineMovesAreLegal(p: Position)
    requires WellFormed(p)
    ensures forall m :: m in EngineMoves(p) <==> m in LegalMoves(p, p.turn)
    ensures forall m :: m in EngineMoves(p) ==> Applicable(p, m) && Next(p, m) == Play(p, m)
    ensures multiset(EngineMoves(p)) == multiset(LegalMoves(p, p.turn))
    ensures EngineMoves(p) == [] <==> LegalMoves(p, p.turn) == []
  {
    var ms := LegalMoves(p, p.turn);
    OrderMovesSpec(ms);
    if ms != [] {
      assert ms[0] in OrderMoves(ms);
    }
  }

  /** A position is a leaf of the tree exactly when the source's checkmate or stalemate test
      holds. */
  lemma LeafIsGameOver(p: Position)
    requires WellFormed(p)
    ensures EngineMoves(p) == [] <==> IsCheckmate(p) || IsStalemate(p)
  {
    GameOverExactly(p);
    EngineMovesAreLegal(p);
  }

  lemma EngineBounded()
    ensures Bounded(EngineTree) && Bounded(ReferenceTree)
  {
  }

  lemma SameMoves()
    ensures forall t, m :: m in EngineTree.moves(t) <==> m in ReferenceTree.moves(t)
  {
    forall t, m ensures m in EngineTree.moves(t) <==> m in ReferenceTree.moves(t) {
      if WellFormed(t) {
        EngineMovesAreLegal(t);
      }
    }
  }

  /** The engine's pruned, reordered search computes plain minimax over the legal moves. */
  lemma SearchIsMinimax(p: Position, depth: nat)
    requires WellFormed(p)
    ensures AB(EngineTree, p, depth, -Inf, Inf) == Minimax(ReferenceTree, p, depth)
  {
    EngineBounded();
    AlphaBetaIsMinimax(EngineTree, p, depth);
    SameMoves();
    MinimaxIgnoresOrder(EngineTree, ReferenceTree, p, depth);
  }

  /** The engine returns a move exactly when one is legal; the move is legal and reaches a
      position whose minimax value is that of the current one, so no legal move is better for
      the side to move. */
  lemma ChosenMoveIsBest(p: Position, depth: nat)
    requires WellFormed(p) && depth >= 1
    ensures var r := Choose(EngineTree, p, depth);
            (r.None? <==> LegalMoves(p, p.turn) == []) &&
            (r.Some? ==> r.value in LegalMoves(p, p.turn) &&
                         Minimax(ReferenceTree, Play(p, r.value), depth - 1) == Minimax(ReferenceTree, p, depth) &&
                         forall m :: m in LegalMoves(p, p.turn) ==>
                           Dominates(p.turn, Minimax(ReferenceTree, Play(p, r.value), depth - 1),
                                             Minimax(ReferenceTree, Play(p, m), depth - 1)))
  {
    EngineBounded();
    SameMoves();
    ChooseAcross(EngineTree, ReferenceTree, p, depth);
  }

  /** Among equally good moves the engine keeps the first in the order it searches: no legal
      move before the chosen one in that order reaches the position's minimax value. */
  lemma ChosenMoveIsFirstBest(p: Position, depth: nat)
    requires WellFormed(p) && depth >= 1 && LegalMoves(p, p.turn) != []
    ensures var ms := OrderMoves(LegalMoves(p, p.turn));
            exists k :: 0 <= k < |ms| && Choose(EngineTree, p, depth) == Some(ms[k]) &&
              Minimax(ReferenceTree, Play(p, ms[k]), depth - 1) == Minimax(ReferenceTree, p, depth) &&
              forall j :: 0 <= j < k ==> Minimax(ReferenceTree, Play(p, ms[j]), depth - 1) != Minimax(ReferenceTree, p, depth)
  {
    var ms := OrderMoves(LegalMoves(p, p.turn));
    EngineBounded();
    SameMoves();
    EngineMovesAreLegal(p);
    OrderedMovesApplicable(p);
    assert EngineTree.moves(p) == ms;
    ChooseFirstAcross(EngineTree, ReferenceTree, p, depth);
  }
}
