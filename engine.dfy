/** The engine working on a live board: the evaluation, the recursive alpha-beta search and
    the root move choice, each playing plies on the board and restoring it afterwards. Each is
    proved to compute the corresponding function of the position the board holds. */
module ChessEngine {
  import opened ChessTypes
  import opened Positions
  import opened MoveGen
  import opened Game
  import opened AlphaBeta
  import opened SearchSpec
  import opened ChessBoard

  /** The material balance summed square by square, row-major. */
  method MaterialBalance(g: Grid) returns (score: int)
    requires GridShape(g)
    ensures score == Material(g, 0)
  {
    score := 0;
    for r := 0 to 8
      invariant Material(g, 0) == score + Material(g, r)
    {
      for c := 0 to 8
        invariant Material(g, 0) == score + RowMaterial(g[r], c) + Material(g, r + 1)
      {
        var x := g[r][c];
        if x.Some? {
          var v := PieceValue(x.value.kind);
          score := score + if x.value.color == White then v else -v;
        }
      }
    }
  }

  /** Material, then the mobility nudge, then the check nudges. */
  method Evaluate(b: Board) returns (score: int)
    requires b.Valid()
    modifies b
    ensures b.Valid() && b.Pos() == old(b.Pos()) && b.history == old(b.history)
    ensures score == Eval(old(b.Pos()))
  {
    score := MaterialBalance(b.grid);
    var white := b.GenerateLegalMoves(White);
    var black := b.GenerateLegalMoves(Black);
    score := score + |white| - |black|;
    var wc := b.IsInCheck(White);
    if wc {
      score := score - 10;
    }
    var bc := b.IsInCheck(Black);
    if bc {
      score := score + 10;
    }
  }

  /** The alpha-beta value of the position on the board; the board is left as it was. */
  method Search(b: Board, depth: nat, alpha: int, beta: int) returns (v: int)
    requires b.Valid()
    modifies b
    ensures b.Valid() && b.Pos() == old(b.Pos()) && b.history == old(b.history)
    ensures v == SearchValue(old(b.Pos()), depth, alpha, beta)
    decreases depth, 2
  {
    ghost var p := b.Pos();
    LeafIsGameOver(p);
    ABUnfold(EngineTree, p, depth, alpha, beta);
    var leaf := IsLeaf(b, depth);
    if leaf {
      v := Evaluate(b);
      return;
    }
    var best := if b.turn == White then -Inf else Inf;
    var moves := b.AllLegalMoves();
    // Neither checkmate nor stalemate: some move is legal, so the source's second emptiness
    // test never fires.
    assert moves != [];
    OrderedMovesApplicable(p);
    v := SearchChildren(b, depth, OrderMoves(moves), alpha, beta, best);
  }

  /** The search stops at depth zero, at checkmate and at stalemate, tested in that order. */
  method IsLeaf(b: Board, depth: nat) returns (leaf: bool)
    requires b.Valid()
    modifies b
    ensures b.Valid() && b.Pos() == old(b.Pos()) && b.history == old(b.history)
    ensures leaf == (depth == 0 || IsCheckmate(old(b.Pos())) || IsStalemate(old(b.Pos())))
  {
    if depth == 0 {
      return true;
    }
    leaf := b.IsCheckmate();
    if !leaf {
      leaf := b.IsStalemate();
    }
  }

  /** The loop over the ordered moves: play, search one ply less deep, restore, fold. */
  method SearchChildren(b: Board, depth: nat, moves: seq<Move>, alpha: int, beta: int, best0: int) returns (v: int)
    requires b.Valid() && depth >= 1
    requires forall j :: 0 <= j < |moves| ==> Applicable(b.Pos(), moves[j])
    modifies b
    ensures b.Valid() && b.Pos() == old(b.Pos()) && b.history == old(b.history)
    ensures v == Loop(EngineTree, old(b.Pos()), depth, moves, alpha, beta, best0)
    decreases depth, 1
  {
    ghost var p := b.Pos();
    var a, bt, best := alpha, beta, best0;
    assert moves[0..] == moves;
    for i := 0 to |moves|
      invariant b.Valid() && b.Pos() == p && b.history == old(b.history)
      invariant Loop(EngineTree, p, depth, moves, alpha, beta, best0) == Loop(EngineTree, p, depth, moves[i..], a, bt, best)
    {
      LoopUnfold(EngineTree, p, depth, moves, i, a, bt, best);
      ChildIsSearch(p, moves[i], depth, a, bt);
      var val := SearchChild(b, depth, moves[i], a, bt);
      if b.turn == White {
        if val > best {
          best := val;
        }
        if best > a {
          a := best;
        }
        if a >= bt {
          return best;
        }
      } else {
        if val < best {
          best := val;
        }
        if best < bt {
          bt := best;
        }
        if a >= bt {
          return best;
        }
      }
    }
    v := best;
  }

  /** One child searched: play the ply on the board, search one ply less deep, restore. */
  method SearchChild(b: Board, depth: nat, m: Move, alpha: int, beta: int) returns (val: int)
    requires b.Valid() && depth >= 1 && Applicable(b.Pos(), m)
    modifies b
    ensures b.Valid() && b.Pos() == old(b.Pos()) && b.history == old(b.history)
    ensures val == SearchValue(Play(old(b.Pos()), m), depth - 1, alpha, beta)
    decreases depth, 0
  {
    var snap := b.Snapshot();
    val := PlayAndSearch(b, depth, m, alpha, beta);
    b.Restore(snap);
  }

  /** The ply played on the board, then the position it reaches searched one ply less deep. */
  method PlayAndSearch(b: Board, depth: nat, m: Move, alpha: int, beta: int) returns (val: int)
    requires b.Valid() && depth >= 1 && Applicable(b.Pos(), m)
    modifies b
    ensures b.Valid() && b.history == old(b.history)
    ensures val == SearchValue(Play(old(b.Pos()), m), depth - 1, alpha, beta)
    decreases depth, 0, 0
  {
    b.PlayPly(m);
    val := Search(b, depth - 1, alpha, beta);
  }

  /** The engine's move: each ordered legal move searched with the full window, the first
      strictly best kept; None when there is no legal move. */
  method ChooseMove(b: Board, depth: nat) returns (bestMove: Option<Move>)
    requires b.Valid() && depth >= 1
    modifies b
    ensures b.Valid() && b.Pos() == old(b.Pos()) && b.history == old(b.history)
    ensures bestMove == Choose(EngineTree, old(b.Pos()), depth)
  {
    var moves := b.AllLegalMoves();
    if moves == [] {
      return None;
    }
    bestMove := ChooseAmong(b, depth, OrderMoves(moves));
  }

  /** The root loop: a strictly better value takes over. */
  method ChooseAmong(b: Board, depth: nat, moves: seq<Move>) returns (bestMove: Option<Move>)
    requires b.Valid() && depth >= 1
    requires forall j :: 0 <= j < |moves| ==> Applicable(b.Pos(), moves[j])
    modifies b
    ensures b.Valid() && b.Pos() == old(b.Pos()) && b.history == old(b.history)
    ensures bestMove == ChooseLoop(EngineTree, old(b.Pos()), depth, moves, Sentinel(old(b.turn)), None)
  {
    ghost var p := b.Pos();
    var bestVal := if b.turn == White then -Inf else Inf;
    var lo, hi := -Inf, Inf;
    bestMove := None;
    assert moves[0..] == moves;
    for i := 0 to |moves|
      invariant b.Valid() && b.Pos() == p && b.history == old(b.history) && lo == -Inf && hi == Inf
      invariant ChooseLoop(EngineTree, p, depth, moves, Sentinel(p.turn), None) == ChooseLoop(EngineTree, p, depth, moves[i..], bestVal, bestMove)
    {
      ChooseUnfold(EngineTree, p, depth, moves, i, bestVal, bestMove);
      ChildIsSearch(p, moves[i], depth, lo, hi);
      var val := SearchChild(b, depth, moves[i], lo, hi);
      var better := if b.turn == White then val > bestVal else val < bestVal;
      if better {
        bestVal, bestMove := val, Some(moves[i]);
      }
    }
  }
}
