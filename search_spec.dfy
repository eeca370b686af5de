/** The values the computer player's search computes
    (src/main/game/AI.java): plain depth-limited minimax over the successor
    relation, and the same search with fail-soft alpha-beta pruning as the
    source writes it.  The main theorem says that, from the full window,
    pruning changes nothing. */
module SearchSpec {
  import opened Pieces
  import opened BoardStates

  function Max(x: int, y: int): int { if x >= y then x else y }
  function Min(x: int, y: int): int { if x <= y then x else y }

  /** The perspective of the search: the computer maximises. */
  const PLAYER: Player := Ai

  /** The game tree the search explores: `getSuccessors()` under the
      movement rules `m`.  The search functions take the tree as a
      parameter; every theorem about them holds for any tree. */
  function Next(m: Movement): BoardState -> seq<BoardState>
  {
    b => Successors(m, b)
  }

  // ---------------------------------------------------------------------
  // Unpruned minimax: the reference

  /** The minimax value of `node` searched `depth` plies deep, seen from the
      computer: the heuristic at the horizon and at game over; otherwise the
      best child for the side to move (the computer maximises, the human
      minimises), with `MIN_VALUE` (`MAX_VALUE`) for a maximising
      (minimising) node without children. */
  function MinimaxValue(next: BoardState -> seq<BoardState>, node: BoardState, depth: nat): int
    decreases depth, 0, 0
  {
    if depth == 0 || IsGameOver(node) then ComputeHeuristic(node, PLAYER)
    else if node.turn == PLAYER then MaxAll(next, next(node), depth - 1)
    else MinAll(next, next(node), depth - 1)
  }

  /** The largest minimax value among `kids`, `MIN_VALUE` when there are none. */
  function MaxAll(next: BoardState -> seq<BoardState>, kids: seq<BoardState>, d: nat): int
    decreases d, 1, |kids|
  {
    if kids == [] then MIN_VALUE else Max(MinimaxValue(next, kids[0], d), MaxAll(next, kids[1..], d))
  }

  /** The smallest minimax value among `kids`, `MAX_VALUE` when there are none. */
  function MinAll(next: BoardState -> seq<BoardState>, kids: seq<BoardState>, d: nat): int
    decreases d, 1, |kids|
  {
    if kids == [] then MAX_VALUE else Min(MinimaxValue(next, kids[0], d), MinAll(next, kids[1..], d))
  }

  // ---------------------------------------------------------------------
  // Alpha-beta pruning, as the source computes it

  /** `minimax(node, depth, alpha, beta)`: the heuristic at the horizon and
      at game over; otherwise the children are searched in order with the
      current window, and the search of a node stops once alpha meets beta. */
  function PrunedValue(next: BoardState -> seq<BoardState>, node: BoardState, depth: nat, alpha: int, beta: int): int
    decreases depth, 0, 0
  {
    if depth == 0 || IsGameOver(node) then ComputeHeuristic(node, PLAYER)
    else if node.turn == PLAYER then MaxFold(next, next(node), depth - 1, MIN_VALUE, alpha, beta)
    else MinFold(next, next(node), depth - 1, MAX_VALUE, alpha, beta)
  }

  /** The loop of a maximising node over the children still to search, with
      the running maximum `v` and the raised `alpha`. */
  function MaxFold(next: BoardState -> seq<BoardState>, kids: seq<BoardState>, d: nat, v: int, alpha: int, beta: int): int
    decreases d, 1, |kids|
  {
    if kids == [] then v
    else
      var v' := Max(v, PrunedValue(next, kids[0], d, alpha, beta));
      var alpha' := Max(alpha, v');
      if alpha' >= beta then v' else MaxFold(next, kids[1..], d, v', alpha', beta)
  }

  /** The loop of a minimising node, with the running minimum `v` and the
      lowered `beta`. */
  function MinFold(next: BoardState -> seq<BoardState>, kids: seq<BoardState>, d: nat, v: int, alpha: int, beta: int): int
    decreases d, 1, |kids|
  {
    if kids == [] then v
    else
      var v' := Min(v, PrunedValue(next, kids[0], d, alpha, beta));
      var beta' := Min(beta, v');
      if alpha >= beta' then v' else MinFold(next, kids[1..], d, v', alpha, beta')
  }

  // ---------------------------------------------------------------------
  // Properties of the reference

  /** Minimax values are Java `int`s. */
  lemma {:induction false} MinimaxInRange(next: BoardState -> seq<BoardState>, node: BoardState, depth: nat)
    ensures MIN_VALUE <= MinimaxValue(next, node, depth) <= MAX_VALUE
    decreases depth, 0, 0
  {
    if !(depth == 0 || IsGameOver(node)) {
      MaxAllInRange(next, next(node), depth - 1);
      MinAllInRange(next, next(node), depth - 1);
    }
  }

  lemma {:induction false} MaxAllInRange(next: BoardState -> seq<BoardState>, kids: seq<BoardState>, d: nat)
    ensures MIN_VALUE <= MaxAll(next, kids, d) <= MAX_VALUE
    decreases d, 1, |kids|
  {
    if kids != [] {
      MinimaxInRange(next, kids[0], d);
      MaxAllInRange(next, kids[1..], d);
    }
  }

  lemma {:induction false} MinAllInRange(next: BoardState -> seq<BoardState>, kids: seq<BoardState>, d: nat)
    ensures MIN_VALUE <= MinAll(next, kids, d) <= MAX_VALUE
    decreases d, 1, |kids|
  {
    if kids != [] {
      MinimaxInRange(next, kids[0], d);
      MinAllInRange(next, kids[1..], d);
    }
  }

  /** `MaxAll` is the maximum: no child scores more, and some child attains
      it when there is a child. */
  lemma {:induction false} MaxAllIsMax(next: BoardState -> seq<BoardState>, kids: seq<BoardState>, d: nat)
    ensures forall k :: 0 <= k < |kids| ==> MinimaxValue(next, kids[k], d) <= MaxAll(next, kids, d)
    ensures kids != [] ==> exists k :: 0 <= k < |kids| && MinimaxValue(next, kids[k], d) == MaxAll(next, kids, d)
    decreases |kids|
  {
    if kids != [] {
      MaxAllIsMax(next, kids[1..], d);
      forall k | 1 <= k < |kids|
        ensures MinimaxValue(next, kids[k], d) <= MaxAll(next, kids, d)
      {
        assert kids[k] == kids[1..][k - 1];
      }
      MinimaxInRange(next, kids[0], d);
      if MinimaxValue(next, kids[0], d) < MaxAll(next, kids[1..], d) {
        var k :| 0 <= k < |kids[1..]| && MinimaxValue(next, kids[1..][k], d) == MaxAll(next, kids[1..], d);
        assert kids[k + 1] == kids[1..][k];
      }
    }
  }

  // ---------------------------------------------------------------------
  // Alpha-beta is exact

  /** Knuth and Moore's bounds for fail-soft alpha-beta: a value at or below
      the window is an upper bound of the minimax value, one at or above it
      a lower bound, and one strictly inside it is exact. */
  ghost predicate Bounds(p: int, minimax: int, alpha: int, beta: int)
  {
    && (p <= alpha ==> minimax <= p)
    && (p >= beta ==> minimax >= p)
    && (alpha < p < beta ==> minimax == p)
  }

  lemma {:induction false} PrunedBounds(next: BoardState -> seq<BoardState>, node: BoardState, depth: nat, alpha: int, beta: int)
    requires MIN_VALUE <= alpha < beta <= MAX_VALUE
    ensures Bounds(PrunedValue(next, node, depth, alpha, beta), MinimaxValue(next, node, depth), alpha, beta)
    decreases depth, 0, 0
  {
    if !(depth == 0 || IsGameOver(node)) {
      var kids := next(node);
      if node.turn == PLAYER {
        MaxFoldBounds(next, kids, depth - 1, MIN_VALUE, alpha, beta);
        MaxAllInRange(next, kids, depth - 1);
      } else {
        MinFoldBounds(next, kids, depth - 1, MAX_VALUE, alpha, beta);
        MinAllInRange(next, kids, depth - 1);
      }
    }
  }

  /** The loop of a maximising node, measured against the maximum of the
      running value and the minimax values of the children still to search. */
  lemma {:induction false} MaxFoldBounds(next: BoardState -> seq<BoardState>, kids: seq<BoardState>, d: nat, v: int, alpha: int, beta: int)
    requires MIN_VALUE <= alpha < beta <= MAX_VALUE && MIN_VALUE <= v <= alpha
    ensures MaxFold(next, kids, d, v, alpha, beta) >= v
    ensures Bounds(MaxFold(next, kids, d, v, alpha, beta), Max(v, MaxAll(next, kids, d)), alpha, beta)
    decreases d, 1, |kids|
  {
    if kids != [] {
      var p := PrunedValue(next, kids[0], d, alpha, beta);
      var v' := Max(v, p);
      var alpha' := Max(alpha, v');
      var m0 := MinimaxValue(next, kids[0], d);
      PrunedBounds(next, kids[0], d, alpha, beta);
      assert MaxAll(next, kids, d) == Max(m0, MaxAll(next, kids[1..], d));
      if alpha' < beta {
        MaxFoldBounds(next, kids[1..], d, v', alpha', beta);
        assert MaxFold(next, kids, d, v, alpha, beta) == MaxFold(next, kids[1..], d, v', alpha', beta);
        if p <= alpha {
          assert m0 <= p && alpha' == alpha;
        } else {
          assert m0 == p && alpha' == v' == p;
        }
      } else {
        assert v' == p >= beta && m0 >= p;
      }
    }
  }

  /** The loop of a minimising node, symmetrically. */
  lemma {:induction false} MinFoldBounds(next: BoardState -> seq<BoardState>, kids: seq<BoardState>, d: nat, v: int, alpha: int, beta: int)
    requires MIN_VALUE <= alpha < beta <= MAX_VALUE && beta <= v <= MAX_VALUE
    ensures MinFold(next, kids, d, v, alpha, beta) <= v
    ensures Bounds(MinFold(next, kids, d, v, alpha, beta), Min(v, MinAll(next, kids, d)), alpha, beta)
    decreases d, 1, |kids|
  {
    if kids != [] {
      var p := PrunedValue(next, kids[0], d, alpha, beta);
      var v' := Min(v, p);
      var beta' := Min(beta, v');
      var m0 := MinimaxValue(next, kids[0], d);
      PrunedBounds(next, kids[0], d, alpha, beta);
      assert MinAll(next, kids, d) == Min(m0, MinAll(next, kids[1..], d));
      if alpha < beta' {
        MinFoldBounds(next, kids[1..], d, v', alpha, beta');
        assert MinFold(next, kids, d, v, alpha, beta) == MinFold(next, kids[1..], d, v', alpha, beta');
        if p >= beta {
          assert m0 >= p && beta' == beta;
        } else {
          assert m0 == p && beta' == v' == p;
        }
      } else {
        assert v' == p <= alpha && m0 <= p;
      }
    }
  }

  /** From the full window `(MIN_VALUE, MAX_VALUE)`, alpha-beta returns the
      minimax value. */
  lemma PruningIsExact(next: BoardState -> seq<BoardState>, node: BoardState, depth: nat)
    ensures PrunedValue(next, node, depth, MIN_VALUE, MAX_VALUE) == MinimaxValue(next, node, depth)
  {
    PrunedBounds(next, node, depth, MIN_VALUE, MAX_VALUE);
    MinimaxInRange(next, node, depth);
  }

  // ---------------------------------------------------------------------
  // The tie set of the top-level choice

  /** The states of `xs` whose minimax value is `best`, in their order. */
  function Ties(next: BoardState -> seq<BoardState>, xs: seq<BoardState>, d: nat, best: int): seq<BoardState>
  {
    if xs == [] then []
    else
      var x := xs[|xs| - 1];
      Ties(next, xs[..|xs| - 1], d, best) + (if MinimaxValue(next, x, d) == best then [x] else [])
  }

  /** The tie set holds exactly the states of `xs` that score `best`. */
  lemma {:induction false} TiesMembers(next: BoardState -> seq<BoardState>, xs: seq<BoardState>, d: nat, best: int, x: BoardState)
    ensures x in Ties(next, xs, d, best) <==> x in xs && MinimaxValue(next, x, d) == best
    decreases |xs|
  {
    if xs != [] {
      var n := |xs| - 1;
      assert xs == xs[..n] + [xs[n]];
      TiesMembers(next, xs[..n], d, best, x);
    }
  }

  /** No state of `xs` reaches `best`: the tie set is empty. */
  lemma {:induction false} TiesNone(next: BoardState -> seq<BoardState>, xs: seq<BoardState>, d: nat, best: int)
    requires forall k :: 0 <= k < |xs| ==> MinimaxValue(next, xs[k], d) < best
    ensures Ties(next, xs, d, best) == []
    decreases |xs|
  {
    if xs != [] {
      TiesNone(next, xs[..|xs| - 1], d, best);
    }
  }
}
