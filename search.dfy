/** The computer player (src/main/game/AI.java): depth-limited minimax with
    fail-soft alpha-beta pruning, the top-level loop that collects the
    best-scoring successors, and a free choice among them. */
module Search {
  import opened Pieces
  import opened BoardStates
  import opened BoardEngine
  import opened SearchSpec

  /** The result of choosing a move: a state, or the failure of
      `randomMove` on an empty list ("Can't randomly choose from empty list"). */
  datatype Choice = Chose(state: BoardState) | NoChoice

  /** `randomMove`: any element of a non-empty list; the draw of
      `java.util.Random` is left free. */
  method RandomMove(xs: seq<BoardState>) returns (r: Choice)
    ensures r == NoChoice <==> xs == []
    ensures r.Chose? ==> r.state in xs
  {
    if |xs| < 1 {
      return NoChoice;
    }
    var i :| 0 <= i < |xs|;
    r := Chose(xs[i]);
  }

  class AI {
    /** How many plies the computer searches (`Settings.AI_DEPTH`). */
    const depth: nat
    /** The side the search maximises for. */
    const player: Player
    /** The movement offsets of the pieces. */
    const rules: Movement
    /** The game tree the search explores, `getSuccessors()` under `rules`. */
    ghost const tree: BoardState -> seq<BoardState>

    /** The search maximises for the computer and explores the successor
        relation of the board engine.  (The link between `tree` and
        `Successors` is used only where `Successors` is called.) */
    ghost predicate Valid()
    {
      && player == PLAYER
      && forall b {:trigger Successors(rules, b)} :: tree(b) == Successors(rules, b)
    }

    constructor(settings: Settings, rules: Movement)
      ensures depth == settings.aiDepth && player == Ai && this.rules == rules && tree == Next(rules)
      ensures Valid()
    {
      depth := settings.aiDepth;
      player := Ai;
      this.rules := rules;
      tree := Next(rules);
    }

    /** `node.getSuccessors()`. */
    method Children(node: BoardState) returns (children: seq<BoardState>)
      requires Valid()
      ensures children == tree(node)
    {
      children := SuccessorsOf(rules, node);
    }

    /** `minimax(node, depth, alpha, beta)`: the children are searched in
        order; a maximising node keeps the running maximum and raises alpha,
        a minimising node keeps the running minimum and lowers beta, and the
        loop stops as soon as alpha meets beta. */
    method MinimaxWindow(node: BoardState, depth: nat, alpha: int, beta: int) returns (v: int)
      requires Valid()
      ensures v == PrunedValue(tree, node, depth, alpha, beta)
      decreases depth
    {
      if depth == 0 || IsGameOver(node) {
        return ComputeHeuristic(node, player);
      }
      ghost var next := tree;
      var children := Children(node);
      if node.turn == player {
        v := MIN_VALUE;
        var a := alpha;
        var i := 0;
        while i < |children|
          invariant 0 <= i <= |children|
          invariant PrunedValue(next, node, depth, alpha, beta) == MaxFold(next, children[i..], depth - 1, v, a, beta)
          decreases |children| - i
        {
          assert children[i..][1..] == children[i + 1..];
          var score := MinimaxWindow(children[i], depth - 1, a, beta);
          v := Max(v, score);
          a := Max(a, v);
          if a >= beta {
            break;
          }
          i := i + 1;
        }
      } else {
        v := MAX_VALUE;
        var b := beta;
        var i := 0;
        while i < |children|
          invariant 0 <= i <= |children|
          invariant PrunedValue(next, node, depth, alpha, beta) == MinFold(next, children[i..], depth - 1, v, alpha, b)
          decreases |children| - i
        {
          assert children[i..][1..] == children[i + 1..];
          var score := MinimaxWindow(children[i], depth - 1, alpha, b);
          v := Min(v, score);
          b := Min(b, v);
          if alpha >= b {
            break;
          }
          i := i + 1;
        }
      }
    }

    /** `minimax(node, depth)`: the search from the full window, which is
        plain minimax. */
    method Minimax(node: BoardState, depth: nat) returns (v: int)
      requires Valid()
      ensures v == MinimaxValue(tree, node, depth)
    {
      v := MinimaxWindow(node, depth, MIN_VALUE, MAX_VALUE);
      PruningIsExact(tree, node, depth);
    }

    /** `minimaxMove`: every successor is scored with the full depth; the
        successors that tie for the best score are collected in order, and
        one of them is chosen. */
    method MinimaxMove(successors: seq<BoardState>) returns (r: Choice)
      requires Valid()
      ensures r == NoChoice <==> successors == []
      ensures r.Chose? ==> r.state in successors &&
                           MinimaxValue(tree, r.state, depth) == MaxAll(tree, successors, depth) &&
                           r.state in Ties(tree, successors, depth, MaxAll(tree, successors, depth))
    {
      ghost var next := tree;
      var bestScore := MIN_VALUE;
      var equalBests: seq<BoardState> := [];
      ghost var bestAt := 0;
      for i := 0 to |successors|
        invariant MIN_VALUE <= bestScore && (i == 0 ==> bestScore == MIN_VALUE)
        invariant forall k :: 0 <= k < i ==> MinimaxValue(next, successors[k], depth) <= bestScore
        invariant i > 0 ==> 0 <= bestAt < i && MinimaxValue(next, successors[bestAt], depth) == bestScore
        invariant equalBests == Ties(next, successors[..i], depth, bestScore)
      {
        var succ := successors[i];
        var val := Minimax(succ, depth);
        MinimaxInRange(next, succ, depth);
        assert successors[..i + 1] == successors[..i] + [succ];
        if val > bestScore {
          TiesNone(next, successors[..i], depth, val);
          bestScore := val;
          equalBests := [];
        }
        if val == bestScore {
          equalBests := equalBests + [succ];
          bestAt := i;
        }
      }
      assert successors[..|successors|] == successors;
      if successors != [] {
        MaxAllIsMax(next, successors, depth);
        assert bestScore == MaxAll(next, successors, depth);
        TiesMembers(next, successors, depth, bestScore, successors[bestAt]);
      }
      r := RandomMove(equalBests);
      if r.Chose? {
        TiesMembers(next, successors, depth, bestScore, r.state);
      }
    }

    /** `move`: the only successor without a search, otherwise the minimax
        choice; no successors at all ends in the failure of `randomMove`.
        Either way the chosen successor has the best minimax value. */
    method Move(state: BoardState) returns (r: Choice)
      requires Valid()
      ensures r == NoChoice <==> Successors(rules, state) == []
      ensures r.Chose? ==> r.state in Successors(rules, state) &&
                           MinimaxValue(tree, r.state, depth) == MaxAll(tree, Successors(rules, state), depth)
      ensures |Successors(rules, state)| == 1 ==> r == Chose(Successors(rules, state)[0])
    {
      var successors := Children(state);
      if |successors| == 1 {
        MinimaxInRange(tree, successors[0], depth);
        assert successors[1..] == [];
        return Chose(successors[0]);
      }
      r := MinimaxMove(successors);
    }
  }
}
