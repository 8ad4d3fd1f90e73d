/** Depth-limited fail-soft alpha-beta over any game, given as the moves available in a state,
    the state a move leads to, a static evaluation and the side to move: White maximises, Black
    minimises. Plain minimax over the same game is the reference. */
module AlphaBeta {
  import opened ChessTypes

  /** The search's infinity. */
  const Inf: int := 1_000_000_000

  datatype Game<!S, !L> = Game(moves: S -> seq<L>, next: (S, L) -> S, eval: S -> int, side: S -> Color)

  function Sentinel(c: Color): int {
    if c == White then -Inf else Inf
  }

  /** The alpha-beta value of `s` searched `depth` plies deep with window (alpha, beta). */
  function AB<S, L>(g: Game<S, L>, s: S, depth: nat, alpha: int, beta: int): int
    decreases depth, 2, 0
  {
    Node(g, s, depth, alpha, beta)
  }

  function Node<S, L>(g: Game<S, L>, s: S, depth: nat, alpha: int, beta: int): int
    decreases depth, 1, 0
  {
    if depth == 0 || g.moves(s) == [] then g.eval(s)
    else Loop(g, s, depth, g.moves(s), alpha, beta, Sentinel(g.side(s)))
  }

  /** The loop over the moves: `best` so far, the window narrowing as it goes, and a cut-off as
      soon as alpha meets beta. */
  function Loop<S, L>(g: Game<S, L>, s: S, depth: nat, ms: seq<L>, alpha: int, beta: int, best: int): int
    requires depth >= 1
    decreases depth, 0, |ms|
  {
    if ms == [] then best
    else
      var v := AB(g, g.next(s, ms[0]), depth - 1, alpha, beta);
      if g.side(s) == White then
        var best' := if v > best then v else best;
        var alpha' := if best' > alpha then best' else alpha;
        if alpha' >= beta then best' else Loop(g, s, depth, ms[1..], alpha', beta, best')
      else
        var best' := if v < best then v else best;
        var beta' := if best' < beta then best' else beta;
        if alpha >= beta' then best' else Loop(g, s, depth, ms[1..], alpha, beta', best')
  }

  /** The better of two values for side c. */
  function Pick(c: Color, a: int, b: int): int {
    if c == White then (if a >= b then a else b) else (if a <= b then a else b)
  }

  /** The game-tree value without pruning. */
  function Minimax<S, L>(g: Game<S, L>, s: S, depth: nat): int
    decreases depth, 1, 0
  {
    if depth == 0 || g.moves(s) == [] then g.eval(s)
    else Best(g, s, depth, g.moves(s), Sentinel(g.side(s)))
  }

  function Best<S, L>(g: Game<S, L>, s: S, depth: nat, ms: seq<L>, acc: int): int
    requires depth >= 1
    decreases depth, 0, |ms|
  {
    if ms == [] then acc
    else Best(g, s, depth, ms[1..], Pick(g.side(s), acc, Minimax(g, g.next(s, ms[0]), depth - 1)))
  }

  /** The root loop: each move searched with the full window, a strictly better value taking
      over, so among equals the earliest move stays. */
  function ChooseLoop<S, L>(g: Game<S, L>, s: S, depth: nat, ms: seq<L>, bestVal: int, bestMove: Option<L>): Option<L>
    requires depth >= 1
    decreases |ms|
  {
    if ms == [] then bestMove
    else
      var v := AB(g, g.next(s, ms[0]), depth - 1, -Inf, Inf);
      if (g.side(s) == White && v > bestVal) || (g.side(s) == Black && v < bestVal) then
        ChooseLoop(g, s, depth, ms[1..], v, Some(ms[0]))
      else ChooseLoop(g, s, depth, ms[1..], bestVal, bestMove)
  }

  function Choose<S, L>(g: Game<S, L>, s: S, depth: nat): Option<L>
    requires depth >= 1
  {
    if g.moves(s) == [] then None else ChooseLoop(g, s, depth, g.moves(s), Sentinel(g.side(s)), None)
  }

  /** The value of the state move m leads to, searched one ply less deep. */
  function ChildValue<S, L>(g: Game<S, L>, s: S, m: L, depth: nat, alpha: int, beta: int): int
    requires depth >= 1
  {
    AB(g, g.next(s, m), depth - 1, alpha, beta)
  }

  lemma ABUnfold<S, L>(g: Game<S, L>, s: S, depth: nat, alpha: int, beta: int)
    ensures AB(g, s, depth, alpha, beta) ==
              if depth == 0 || g.moves(s) == [] then g.eval(s)
              else Loop(g, s, depth, g.moves(s), alpha, beta, Sentinel(g.side(s)))
  {
  }

  /** The loop at move i: its value folded in, then the cut-off or the rest of the loop. */
  lemma LoopUnfold<S, L>(g: Game<S, L>, s: S, depth: nat, ms: seq<L>, i: int, alpha: int, beta: int, best: int)
    requires depth >= 1 && 0 <= i < |ms|
    ensures var v := ChildValue(g, s, ms[i], depth, alpha, beta);
            Loop(g, s, depth, ms[i..], alpha, beta, best) ==
              if g.side(s) == White then
                var best' := if v > best then v else best;
                var alpha' := if best' > alpha then best' else alpha;
                if alpha' >= beta then best' else Loop(g, s, depth, ms[i + 1..], alpha', beta, best')
              else
                var best' := if v < best then v else best;
                var beta' := if best' < beta then best' else beta;
                if alpha >= beta' then best' else Loop(g, s, depth, ms[i + 1..], alpha, beta', best')
  {
    assert ms[i..][0] == ms[i] && ms[i..][1..] == ms[i + 1..];
  }

  /** The root loop at move i: a strictly better value takes over. */
  lemma ChooseUnfold<S, L>(g: Game<S, L>, s: S, depth: nat, ms: seq<L>, i: int, bestVal: int, bestMove: Option<L>)
    requires depth >= 1 && 0 <= i < |ms|
    ensures var v := ChildValue(g, s, ms[i], depth, -Inf, Inf);
            ChooseLoop(g, s, depth, ms[i..], bestVal, bestMove) ==
              if (g.side(s) == White && v > bestVal) || (g.side(s) == Black && v < bestVal) then
                ChooseLoop(g, s, depth, ms[i + 1..], v, Some(ms[i]))
              else ChooseLoop(g, s, depth, ms[i + 1..], bestVal, bestMove)
  {
    assert ms[i..][0] == ms[i] && ms[i..][1..] == ms[i + 1..];
  }

  // --- Properties ------------------------------------------------------------------

  /** No evaluation reaches the infinities. */
  ghost predicate Bounded<S(!new), L>(g: Game<S, L>) {
    forall t :: -Inf < g.eval(t) < Inf
  }

  /** x is at least as good as y for side c. */
  predicate Dominates(c: Color, x: int, y: int) {
    if c == White then x >= y else x <= y
  }

  function Max(a: int, b: int): int { if a >= b then a else b }
  function Min(a: int, b: int): int { if a <= b then a else b }

  /** Folding from a better start: the start can be pulled out of the fold. */
  lemma {:induction false} BestShift<S, L>(g: Game<S, L>, s: S, depth: nat, ms: seq<L>, a: int, b: int)
    requires depth >= 1
    ensures Best(g, s, depth, ms, Pick(g.side(s), a, b)) == Pick(g.side(s), a, Best(g, s, depth, ms, b))
    decreases |ms|
  {
    if ms != [] {
      var c, v := g.side(s), Minimax(g, g.next(s, ms[0]), depth - 1);
      assert Pick(c, Pick(c, a, b), v) == Pick(c, a, Pick(c, b, v));
      BestShift(g, s, depth, ms[1..], a, Pick(c, b, v));
    }
  }

  /** The fold is the best of its start and the moves' values, and is one of them. */
  lemma {:induction false} BestIsBest<S, L>(g: Game<S, L>, s: S, depth: nat, ms: seq<L>, acc: int)
    requires depth >= 1
    ensures Dominates(g.side(s), Best(g, s, depth, ms, acc), acc)
    ensures forall m :: m in ms ==> Dominates(g.side(s), Best(g, s, depth, ms, acc), Minimax(g, g.next(s, m), depth - 1))
    ensures Best(g, s, depth, ms, acc) == acc ||
            exists m :: m in ms && Best(g, s, depth, ms, acc) == Minimax(g, g.next(s, m), depth - 1)
    decreases |ms|
  {
    if ms != [] {
      var v := Minimax(g, g.next(s, ms[0]), depth - 1);
      BestIsBest(g, s, depth, ms[1..], Pick(g.side(s), acc, v));
      var r := Best(g, s, depth, ms, acc);
      assert forall m :: m in ms ==> m == ms[0] || m in ms[1..];
      if r != acc && r != v {
        var m :| m in ms[1..] && r == Minimax(g, g.next(s, m), depth - 1);
        assert m in ms;
      }
    }
  }

  /** The fold depends only on which moves there are, not on their order. */
  lemma BestSameMoves<S, L>(g: Game<S, L>, s: S, depth: nat, ms1: seq<L>, ms2: seq<L>, acc: int)
    requires depth >= 1 && forall m :: m in ms1 <==> m in ms2
    ensures Best(g, s, depth, ms1, acc) == Best(g, s, depth, ms2, acc)
  {
    BestIsBest(g, s, depth, ms1, acc);
    BestIsBest(g, s, depth, ms2, acc);
  }

  /** With bounded evaluations no minimax value reaches the infinities. */
  lemma {:induction false} MinimaxInRange<S(!new), L>(g: Game<S, L>, s: S, depth: nat)
    requires Bounded(g)
    ensures -Inf < Minimax(g, s, depth) < Inf
    decreases depth
  {
    if depth > 0 && g.moves(s) != [] {
      var ms := g.moves(s);
      forall m | m in ms ensures -Inf < Minimax(g, g.next(s, m), depth - 1) < Inf {
        MinimaxInRange(g, g.next(s, m), depth - 1);
      }
      BestIsBest(g, s, depth, ms, Sentinel(g.side(s)));
      assert Dominates(g.side(s), Minimax(g, s, depth), Minimax(g, g.next(s, ms[0]), depth - 1));
    }
  }

  /** Two games with the same moves up to order, the same successor states, evaluation and
      sides have the same minimax values. */
  lemma {:induction false} MinimaxIgnoresOrder<S(!new), L(!new)>(g1: Game<S, L>, g2: Game<S, L>, s: S, depth: nat)
    requires g1.next == g2.next && g1.eval == g2.eval && g1.side == g2.side
    requires forall t, m :: m in g1.moves(t) <==> m in g2.moves(t)
    ensures Minimax(g1, s, depth) == Minimax(g2, s, depth)
    decreases depth
  {
    SameEmptiness(g1, g2, s);
    if depth > 0 && g1.moves(s) != [] {
      forall m | m in g1.moves(s) ensures Minimax(g1, g1.next(s, m), depth - 1) == Minimax(g2, g1.next(s, m), depth - 1) {
        MinimaxIgnoresOrder(g1, g2, g1.next(s, m), depth - 1);
      }
      BestSameMoves(g2, s, depth, g1.moves(s), g2.moves(s), Sentinel(g1.side(s)));
      BestAcross(g1, g2, s, depth, g1.moves(s), Sentinel(g1.side(s)));
    }
  }

  lemma SameEmptiness<S(!new), L(!new)>(g1: Game<S, L>, g2: Game<S, L>, s: S)
    requires forall t, m :: m in g1.moves(t) <==> m in g2.moves(t)
    ensures g1.moves(s) == [] <==> g2.moves(s) == []
  {
    if g1.moves(s) != [] {
      var m := g1.moves(s)[0];
      assert m in g1.moves(s);
    }
    if g2.moves(s) != [] {
      var m := g2.moves(s)[0];
      assert m in g2.moves(s);
    }
  }

  /** Folds over the same moves agree when each move's value agrees. */
  lemma {:induction false} BestAcross<S, L>(g1: Game<S, L>, g2: Game<S, L>, s: S, depth: nat, ms: seq<L>, acc: int)
    requires depth >= 1 && g1.next == g2.next && g1.side == g2.side
    requires forall m :: m in ms ==> Minimax(g1, g1.next(s, m), depth - 1) == Minimax(g2, g1.next(s, m), depth - 1)
    ensures Best(g1, s, depth, ms, acc) == Best(g2, s, depth, ms, acc)
    decreases |ms|
  {
    if ms != [] {
      assert ms[0] in ms;
      assert forall m :: m in ms[1..] ==> m in ms;
      BestAcross(g1, g2, s, depth, ms[1..], Pick(g1.side(s), acc, Minimax(g1, g1.next(s, ms[0]), depth - 1)));
    }
  }

  /** Fail-soft alpha-beta: inside the window the value is exact; at or below alpha it is an
      upper bound of the minimax value; at or above beta a lower bound. */
  predicate Brackets(v: int, m: int, alpha: int, beta: int) {
    (alpha < v < beta ==> v == m) && (v <= alpha ==> m <= v) && (v >= beta ==> m >= v)
  }

  lemma {:induction false} AlphaBetaBrackets<S, L>(g: Game<S, L>, s: S, depth: nat, alpha: int, beta: int)
    requires -Inf <= alpha < beta <= Inf
    ensures Brackets(AB(g, s, depth, alpha, beta), Minimax(g, s, depth), alpha, beta)
    decreases depth, 1, 0
  {
    if depth > 0 && g.moves(s) != [] {
      if g.side(s) == White {
        MaxLoopBrackets(g, s, depth, g.moves(s), alpha, beta, -Inf);
      } else {
        MinLoopBrackets(g, s, depth, g.moves(s), alpha, beta, Inf);
      }
    }
  }

  /** One step of the maximising loop, on numbers only: `val` brackets the child's value `mc`,
      `z` is the fold of the remaining moves from `best`, `vrest` the rest of the loop. */
  lemma MaxStep(alpha: int, beta: int, best: int, val: int, mc: int, z: int, vrest: int)
    requires alpha < beta && best <= alpha && Brackets(val, mc, alpha, beta)
    requires Max(alpha, Max(best, val)) < beta ==>
               vrest >= Max(best, val) && Brackets(vrest, Max(val, z), Max(alpha, Max(best, val)), beta)
    ensures var v := if Max(alpha, Max(best, val)) >= beta then Max(best, val) else vrest;
            v >= best && Brackets(v, Max(mc, z), alpha, beta)
  {
  }

  lemma MinStep(alpha: int, beta: int, best: int, val: int, mc: int, z: int, vrest: int)
    requires alpha < beta && best >= beta && Brackets(val, mc, alpha, beta)
    requires alpha < Min(beta, Min(best, val)) ==>
               vrest <= Min(best, val) && Brackets(vrest, Min(val, z), alpha, Min(beta, Min(best, val)))
    ensures var v := if alpha >= Min(beta, Min(best, val)) then Min(best, val) else vrest;
            v <= best && Brackets(v, Min(mc, z), alpha, beta)
  {
  }

  lemma {:induction false} MaxLoopBrackets<S, L>(g: Game<S, L>, s: S, depth: nat, ms: seq<L>, alpha: int, beta: int, best: int)
    requires depth >= 1 && g.side(s) == White && -Inf <= alpha < beta <= Inf && best <= alpha
    ensures Loop(g, s, depth, ms, alpha, beta, best) >= best
    ensures Brackets(Loop(g, s, depth, ms, alpha, beta, best), Best(g, s, depth, ms, best), alpha, beta)
    decreases depth, 0, |ms|
  {
    if ms != [] {
      var child, rest := g.next(s, ms[0]), ms[1..];
      var val, mc := AB(g, child, depth - 1, alpha, beta), Minimax(g, child, depth - 1);
      AlphaBetaBrackets(g, child, depth - 1, alpha, beta);
      var best', alpha' := Max(best, val), Max(alpha, Max(best, val));
      var z := Best(g, s, depth, rest, best);
      BestShift(g, s, depth, rest, mc, best);
      assert Pick(White, best, mc) == Pick(White, mc, best);
      var vrest := 0;
      if alpha' < beta {
        BestShift(g, s, depth, rest, val, best);
        assert Pick(White, val, best) == best';
        MaxLoopBrackets(g, s, depth, rest, alpha', beta, best');
        vrest := Loop(g, s, depth, rest, alpha', beta, best');
      }
      MaxStep(alpha, beta, best, val, mc, z, vrest);
    }
  }

  lemma {:induction false} MinLoopBrackets<S, L>(g: Game<S, L>, s: S, depth: nat, ms: seq<L>, alpha: int, beta: int, best: int)
    requires depth >= 1 && g.side(s) == Black && -Inf <= alpha < beta <= Inf && best >= beta
    ensures Loop(g, s, depth, ms, alpha, beta, best) <= best
    ensures Brackets(Loop(g, s, depth, ms, alpha, beta, best), Best(g, s, depth, ms, best), alpha, beta)
    decreases depth, 0, |ms|
  {
    if ms != [] {
      var child, rest := g.next(s, ms[0]), ms[1..];
      var val, mc := AB(g, child, depth - 1, alpha, beta), Minimax(g, child, depth - 1);
      AlphaBetaBrackets(g, child, depth - 1, alpha, beta);
      var best', beta' := Min(best, val), Min(beta, Min(best, val));
      var z := Best(g, s, depth, rest, best);
      BestShift(g, s, depth, rest, mc, best);
      assert Pick(Black, best, mc) == Pick(Black, mc, best);
      var vrest := 0;
      if alpha < beta' {
        BestShift(g, s, depth, rest, val, best);
        assert Pick(Black, val, best) == best';
        MinLoopBrackets(g, s, depth, rest, alpha, beta', best');
        vrest := Loop(g, s, depth, rest, alpha, beta', best');
      }
      MinStep(alpha, beta, best, val, mc, z, vrest);
    }
  }

  /** With the full window and bounded evaluations, the pruned search returns exactly the
      minimax value. */
  lemma AlphaBetaIsMinimax<S(!new), L>(g: Game<S, L>, s: S, depth: nat)
    requires Bounded(g)
    ensures AB(g, s, depth, -Inf, Inf) == Minimax(g, s, depth)
  {
    AlphaBetaBrackets(g, s, depth, -Inf, Inf);
    MinimaxInRange(g, s, depth);
  }

  lemma {:induction false} ChooseLoopBest<S(!new), L>(g: Game<S, L>, s: S, depth: nat, ms: seq<L>, bestVal: int, best: Option<L>)
    requires depth >= 1 && Bounded(g)
    requires best.None? ==> bestVal == Sentinel(g.side(s))
    requires best.Some? ==> bestVal == Minimax(g, g.next(s, best.value), depth - 1)
    ensures var r := ChooseLoop(g, s, depth, ms, bestVal, best);
            (r.Some? <==> best.Some? || ms != []) &&
            (r.Some? ==> (r.value in ms || r == best) &&
                         Minimax(g, g.next(s, r.value), depth - 1) == Best(g, s, depth, ms, bestVal))
    decreases |ms|
  {
    if ms != [] {
      var m0, rest := ms[0], ms[1..];
      var v := AB(g, g.next(s, m0), depth - 1, -Inf, Inf);
      AlphaBetaIsMinimax(g, g.next(s, m0), depth - 1);
      MinimaxInRange(g, g.next(s, m0), depth - 1);
      assert forall m :: m in rest ==> m in ms;
      if (g.side(s) == White && v > bestVal) || (g.side(s) == Black && v < bestVal) {
        assert Pick(g.side(s), bestVal, v) == v;
        ChooseLoopBest(g, s, depth, rest, v, Some(m0));
      } else {
        assert Pick(g.side(s), bestVal, v) == bestVal;
        ChooseLoopBest(g, s, depth, rest, bestVal, best);
      }
    }
  }

  /** The root returns a move exactly when there is one, and that move leads to a state whose
      value is the minimax value of the root: no move is better for the side to move. */
  lemma ChooseIsOptimal<S(!new), L>(g: Game<S, L>, s: S, depth: nat)
    requires depth >= 1 && Bounded(g)
    ensures var r := Choose(g, s, depth);
            (r.None? <==> g.moves(s) == []) &&
            (r.Some? ==> r.value in g.moves(s) &&
                         Minimax(g, g.next(s, r.value), depth - 1) == Minimax(g, s, depth) &&
                         forall m :: m in g.moves(s) ==>
                           Dominates(g.side(s), Minimax(g, g.next(s, r.value), depth - 1), Minimax(g, g.next(s, m), depth - 1)))
  {
    if g.moves(s) != [] {
      ChooseLoopBest(g, s, depth, g.moves(s), Sentinel(g.side(s)), None);
      BestIsBest(g, s, depth, g.moves(s), Sentinel(g.side(s)));
    }
  }

  /** x is strictly better than y for side c: what makes the root loop take a new move. */
  predicate Improves(c: Color, x: int, y: int) {
    if c == White then x > y else x < y
  }

  /** The root loop keeps `best` when no move improves on `bestVal`. */
  lemma {:induction false} ChooseLoopKeeps<S(!new), L>(g: Game<S, L>, s: S, depth: nat, ms: seq<L>, bestVal: int, best: Option<L>)
    requires depth >= 1 && Bounded(g)
    requires forall j :: 0 <= j < |ms| ==> !Improves(g.side(s), Minimax(g, g.next(s, ms[j]), depth - 1), bestVal)
    ensures ChooseLoop(g, s, depth, ms, bestVal, best) == best
    decreases |ms|
  {
    if ms != [] {
      AlphaBetaIsMinimax(g, g.next(s, ms[0]), depth - 1);
      assert forall j :: 0 <= j < |ms[1..]| ==> ms[1..][j] == ms[j + 1];
      ChooseLoopKeeps(g, s, depth, ms[1..], bestVal, best);
    }
  }

  /** When some move improves on `bestVal`, the root loop returns the earliest move whose value
      is the loop's final value: a later move of equal value never displaces an earlier one. */
  lemma {:induction false} ChooseLoopFirst<S(!new), L>(g: Game<S, L>, s: S, depth: nat, ms: seq<L>, bestVal: int, best: Option<L>)
    requires depth >= 1 && Bounded(g)
    requires exists j :: 0 <= j < |ms| && Improves(g.side(s), Minimax(g, g.next(s, ms[j]), depth - 1), bestVal)
    ensures exists k :: 0 <= k < |ms| && ChooseLoop(g, s, depth, ms, bestVal, best) == Some(ms[k]) &&
              Minimax(g, g.next(s, ms[k]), depth - 1) == Best(g, s, depth, ms, bestVal) &&
              forall j :: 0 <= j < k ==> Minimax(g, g.next(s, ms[j]), depth - 1) != Best(g, s, depth, ms, bestVal)
    decreases |ms|, 1
  {
    if Improves(g.side(s), Minimax(g, g.next(s, ms[0]), depth - 1), bestVal) {
      FirstWhenHeadImproves(g, s, depth, ms, bestVal, best);
    } else {
      FirstWhenHeadKept(g, s, depth, ms, bestVal, best);
    }
  }

  /** The first move improves: it is the answer unless a later one beats it. */
  lemma {:induction false} FirstWhenHeadImproves<S(!new), L>(g: Game<S, L>, s: S, depth: nat, ms: seq<L>, bestVal: int, best: Option<L>)
    requires depth >= 1 && Bounded(g) && ms != []
    requires Improves(g.side(s), Minimax(g, g.next(s, ms[0]), depth - 1), bestVal)
    ensures exists k :: 0 <= k < |ms| && ChooseLoop(g, s, depth, ms, bestVal, best) == Some(ms[k]) &&
              Minimax(g, g.next(s, ms[k]), depth - 1) == Best(g, s, depth, ms, bestVal) &&
              forall j :: 0 <= j < k ==> Minimax(g, g.next(s, ms[j]), depth - 1) != Best(g, s, depth, ms, bestVal)
    decreases |ms|, 0
  {
    var c, m0, rest := g.side(s), ms[0], ms[1..];
    var v0 := Minimax(g, g.next(s, m0), depth - 1);
    AlphaBetaIsMinimax(g, g.next(s, m0), depth - 1);
    var r := ChooseLoop(g, s, depth, ms, bestVal, best);
    assert r == ChooseLoop(g, s, depth, rest, v0, Some(m0));
    assert Pick(c, bestVal, v0) == v0;
    var V := Best(g, s, depth, rest, v0);
    assert V == Best(g, s, depth, ms, bestVal);
    BestIsBest(g, s, depth, rest, v0);
    if exists j :: 0 <= j < |rest| && Improves(c, Minimax(g, g.next(s, rest[j]), depth - 1), v0) {
      var j :| 0 <= j < |rest| && Improves(c, Minimax(g, g.next(s, rest[j]), depth - 1), v0);
      assert rest[j] in rest;
      assert v0 != V;
      ChooseLoopFirst(g, s, depth, rest, v0, Some(m0));
      var k :| 0 <= k < |rest| && r == Some(rest[k]) && Minimax(g, g.next(s, rest[k]), depth - 1) == V &&
               forall j :: 0 <= j < k ==> Minimax(g, g.next(s, rest[j]), depth - 1) != V;
      assert forall j :: 0 <= j < k + 1 ==> ms[j] == if j == 0 then m0 else rest[j - 1];
      assert rest[k] == ms[k + 1];
    } else {
      ChooseLoopKeeps(g, s, depth, rest, v0, Some(m0));
      forall m | m in rest
        ensures !Improves(c, Minimax(g, g.next(s, m), depth - 1), v0)
      {
        var j :| 0 <= j < |rest| && rest[j] == m;
      }
    }
  }

  /** The first move does not improve: the answer is the rest's, one place further on. */
  lemma {:induction false} FirstWhenHeadKept<S(!new), L>(g: Game<S, L>, s: S, depth: nat, ms: seq<L>, bestVal: int, best: Option<L>)
    requires depth >= 1 && Bounded(g) && ms != []
    requires !Improves(g.side(s), Minimax(g, g.next(s, ms[0]), depth - 1), bestVal)
    requires exists j :: 0 <= j < |ms| && Improves(g.side(s), Minimax(g, g.next(s, ms[j]), depth - 1), bestVal)
    ensures exists k :: 0 <= k < |ms| && ChooseLoop(g, s, depth, ms, bestVal, best) == Some(ms[k]) &&
              Minimax(g, g.next(s, ms[k]), depth - 1) == Best(g, s, depth, ms, bestVal) &&
              forall j :: 0 <= j < k ==> Minimax(g, g.next(s, ms[j]), depth - 1) != Best(g, s, depth, ms, bestVal)
    decreases |ms|, 0
  {
    var c, m0, rest := g.side(s), ms[0], ms[1..];
    var v0 := Minimax(g, g.next(s, m0), depth - 1);
    AlphaBetaIsMinimax(g, g.next(s, m0), depth - 1);
    var r := ChooseLoop(g, s, depth, ms, bestVal, best);
    assert r == ChooseLoop(g, s, depth, rest, bestVal, best);
    assert Pick(c, bestVal, v0) == bestVal;
    var V := Best(g, s, depth, rest, bestVal);
    assert V == Best(g, s, depth, ms, bestVal);
    var j :| 0 <= j < |ms| && Improves(c, Minimax(g, g.next(s, ms[j]), depth - 1), bestVal);
    assert j != 0 && ms[j] == rest[j - 1] && rest[j - 1] in rest;
    BestIsBest(g, s, depth, rest, bestVal);
    assert v0 != V;
    ChooseLoopFirst(g, s, depth, rest, bestVal, best);
    var k :| 0 <= k < |rest| && r == Some(rest[k]) && Minimax(g, g.next(s, rest[k]), depth - 1) == V &&
             forall j :: 0 <= j < k ==> Minimax(g, g.next(s, rest[j]), depth - 1) != V;
    assert forall j :: 0 <= j < k + 1 ==> ms[j] == if j == 0 then m0 else rest[j - 1];
    assert rest[k] == ms[k + 1];
  }

  /** The root returns the earliest move, in the order searched, whose value is the minimax
      value of the root: no earlier move reaches that value. */
  lemma ChooseFirstBest<S(!new), L>(g: Game<S, L>, s: S, depth: nat)
    requires depth >= 1 && Bounded(g) && g.moves(s) != []
    ensures var ms := g.moves(s);
            exists k :: 0 <= k < |ms| && Choose(g, s, depth) == Some(ms[k]) &&
              Minimax(g, g.next(s, ms[k]), depth - 1) == Minimax(g, s, depth) &&
              forall j :: 0 <= j < k ==> Minimax(g, g.next(s, ms[j]), depth - 1) != Minimax(g, s, depth)
  {
    var ms := g.moves(s);
    MinimaxInRange(g, g.next(s, ms[0]), depth - 1);
    assert Improves(g.side(s), Minimax(g, g.next(s, ms[0]), depth - 1), Sentinel(g.side(s)));
    ChooseLoopFirst(g, s, depth, ms, Sentinel(g.side(s)), None);
  }

  /** The root's choice in one ordering is optimal for minimax over any ordering of the same
      moves. */
  lemma ChooseAcross<S(!new), L(!new)>(g1: Game<S, L>, g2: Game<S, L>, s: S, depth: nat)
    requires depth >= 1 && Bounded(g1)
    requires g1.next == g2.next && g1.eval == g2.eval && g1.side == g2.side
    requires forall t, m :: m in g1.moves(t) <==> m in g2.moves(t)
    ensures var r := Choose(g1, s, depth);
            (r.None? <==> g2.moves(s) == []) &&
            (r.Some? ==> r.value in g2.moves(s) &&
                         Minimax(g2, g2.next(s, r.value), depth - 1) == Minimax(g2, s, depth) &&
                         forall m :: m in g2.moves(s) ==>
                           Dominates(g2.side(s), Minimax(g2, g2.next(s, r.value), depth - 1), Minimax(g2, g2.next(s, m), depth - 1)))
  {
    ChooseIsOptimal(g1, s, depth);
    SameEmptiness(g1, g2, s);
    MinimaxIgnoresOrder(g1, g2, s, depth);
    forall m | m in g2.moves(s) ensures Minimax(g1, g1.next(s, m), depth - 1) == Minimax(g2, g1.next(s, m), depth - 1) {
      MinimaxIgnoresOrder(g1, g2, g1.next(s, m), depth - 1);
    }
  }

  /** The first-best choice in one ordering, measured by minimax over any ordering of the same
      moves. */
  lemma ChooseFirstAcross<S(!new), L(!new)>(g1: Game<S, L>, g2: Game<S, L>, s: S, depth: nat)
    requires depth >= 1 && Bounded(g1) && g1.moves(s) != []
    requires g1.next == g2.next && g1.eval == g2.eval && g1.side == g2.side
    requires forall t, m :: m in g1.moves(t) <==> m in g2.moves(t)
    ensures var ms := g1.moves(s);
            exists k :: 0 <= k < |ms| && Choose(g1, s, depth) == Some(ms[k]) &&
              Minimax(g2, g2.next(s, ms[k]), depth - 1) == Minimax(g2, s, depth) &&
              forall j :: 0 <= j < k ==> Minimax(g2, g2.next(s, ms[j]), depth - 1) != Minimax(g2, s, depth)
  {
    var ms := g1.moves(s);
    ChooseFirstBest(g1, s, depth);
    MinimaxIgnoresOrder(g1, g2, s, depth);
    forall j | 0 <= j < |ms|
      ensures Minimax(g1, g1.next(s, ms[j]), depth - 1) == Minimax(g2, g2.next(s, ms[j]), depth - 1)
    {
      MinimaxIgnoresOrder(g1, g2, g1.next(s, ms[j]), depth - 1);
    }
  }
}
