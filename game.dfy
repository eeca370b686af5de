/** A game session (src/main/game/Game.java): the bounded undo history of
    board states, the turn-gated moves of the person and of the computer,
    the kings-only move counter, the blocked flag and the classification of
    a finished game. */
module Session {
  import opened Pieces
  import opened BoardStates
  import opened BoardFacts
  import opened BoardEngine
  import opened SearchSpec
  import opened Search

  /** The `winner` field: unset (`null`) until a finished game is classified. */
  datatype Winner = NoWinner | HumanWins | AiWins | Tie

  /** `MoveFeedback`: why a clicked piece may not move. */
  datatype MoveFeedback = ForcedJump | PieceBlocked

  /** Moves in a row with only kings on the board after which the game is a tie. */
  const KINGS_ONLY_LIMIT: int := 20

  /** The top of a history, `state.peek()`. */
  function Top(h: seq<BoardState>): BoardState
    requires h != []
  {
    h[|h| - 1]
  }

  // ---------------------------------------------------------------------
  // The history

  /** `updateState`: `newState` goes on top and the bottom state is dropped
      once the history holds more than `memory` states. */
  function Pushed(h: seq<BoardState>, newState: BoardState, memory: int): (r: seq<BoardState>)
    requires h != []
    ensures r != [] && Top(r) == newState
    ensures |r| == if |h| < memory then |h| + 1 else |h|
    ensures r[..|r| - 1] == h[|h| + 1 - |r|..]
    ensures memory >= 1 && |h| <= memory ==> |r| <= memory
  {
    var pushed := h + [newState];
    if |pushed| > memory then
      assert pushed[1..][..|h| - 1] == h[1..];
      pushed[1..]
    else
      assert pushed[..|h|] == h[0..];
      pushed
  }

  /** The inner loop of `undo`: pop while the top state is the computer's
      turn.  The result is the longest prefix whose top is not the
      computer's turn, or empty when there is none. */
  function PopWhileAi(h: seq<BoardState>): (r: seq<BoardState>)
    ensures r <= h
    ensures r != [] ==> Top(r).turn != Ai
    ensures forall k :: |r| <= k < |h| ==> h[k].turn == Ai
    decreases |h|
  {
    if h == [] then []
    else if Top(h).turn == Ai then
      var rest := h[..|h| - 1];
      assert forall k :: 0 <= k < |rest| ==> rest[k] == h[k];
      PopWhileAi(rest)
    else h
  }

  /** `undo`: with more than two states, the top state is discarded and the
      states above the newest one where the person is on turn go with it;
      an empty result is the `EmptyStackException` of `peek`. */
  function UndoResult(h: seq<BoardState>): (r: seq<BoardState>)
    ensures r <= h
    ensures |h| <= 2 ==> r == h
    ensures |h| > 2 ==> |r| < |h| && (r != [] ==> Top(r).turn == Human)
    ensures |h| > 2 ==> forall k :: |r| <= k < |h| - 1 ==> h[k].turn == Ai
  {
    if |h| <= 2 then h
    else
      var below := h[..|h| - 1];
      assert forall k :: 0 <= k < |below| ==> below[k] == h[k];
      PopWhileAi(below)
  }

  // ---------------------------------------------------------------------
  // The kings-only counter

  /** Every piece of both sides is a king, by the counts of the state. */
  predicate AllKings(b: BoardState)
  {
    b.pieceCount.ai == b.kingCount.ai && b.pieceCount.human == b.kingCount.human
  }

  /** The counter after `mover` goes from `top` to `next`: on an all-kings
      board it counts a move that leaves the mover's king count as it was
      and restarts at 0 otherwise; on any other board it is left alone. */
  function NextCounter(c: int, top: BoardState, next: BoardState, mover: Player): int
  {
    if AllKings(top) then
      if top.kingCount.Get(mover) == next.kingCount.Get(mover) then c + 1 else 0
    else c
  }

  /** With only kings on the board, a legal move adds one to the counter
      unless it lands on the mover's far row, where the board engine counts
      a new king and the counter restarts. */
  lemma KingsOnlyCounter(m: Movement, b: BoardState, s: BoardState, c: int)
    requires s in Successors(m, b) && AllKings(b)
    ensures NextCounter(c, b, s, b.turn) == if IsKingPosition(s.toRow, b.turn) then 0 else c + 1
  {
    SuccessorKings(m, b, s);
  }

  // ---------------------------------------------------------------------
  // Game over

  /** The winner named after `p` wins. */
  function WinnerOf(p: Player): Winner
  {
    if p == Human then HumanWins else AiWins
  }

  /** `isGameOver`'s classification, in its order: a board with a side out
      of pieces, then the kings-only tie, then a blocked side. */
  function Verdict(top: BoardState, kingsOnlyMoves: int, blocked: bool): (w: Winner)
    ensures w == NoWinner <==> !IsGameOver(top) && kingsOnlyMoves < KINGS_ONLY_LIMIT && !blocked
    ensures w == Tie <==> !IsGameOver(top) && kingsOnlyMoves >= KINGS_ONLY_LIMIT
  {
    if IsGameOver(top) then
      if top.pieceCount.human > top.pieceCount.ai then HumanWins else AiWins
    else if kingsOnlyMoves >= KINGS_ONLY_LIMIT then Tie
    else if blocked then WinnerOf(top.turn.Opposite())
    else NoWinner
  }

  /** On a board where a side is out of pieces the person wins exactly when
      the computer has no pieces left and the person has some. */
  lemma BoardVerdict(top: BoardState, kingsOnlyMoves: int, blocked: bool)
    requires top.pieceCount.ai >= 0 && top.pieceCount.human >= 0
    requires IsGameOver(top)
    ensures Verdict(top, kingsOnlyMoves, blocked) == HumanWins <==>
              top.pieceCount.ai == 0 && top.pieceCount.human > 0
    ensures Verdict(top, kingsOnlyMoves, blocked) != HumanWins ==>
              Verdict(top, kingsOnlyMoves, blocked) == AiWins
  {
  }

  /** A blocked game that is not over otherwise is won by the side that is
      not on turn, never by the side on turn and never tied. */
  lemma BlockedVerdict(top: BoardState, kingsOnlyMoves: int)
    requires !IsGameOver(top) && kingsOnlyMoves < KINGS_ONLY_LIMIT
    ensures Verdict(top, kingsOnlyMoves, true) != WinnerOf(top.turn)
    ensures Verdict(top, kingsOnlyMoves, true) in {HumanWins, AiWins}
  {
  }

  /** `getGameOverMessage`: the verdict after "Game Over. "; an unset
      winner reads as a tie. */
  function GameOverMessage(w: Winner): (s: string)
    ensures |s| > 11 && s[..11] == "Game Over. "
  {
    "Game Over. " + match w
      case HumanWins => "YOU WIN!"
      case AiWins => "YOU LOSE!"
      case _ => "TIE!"
  }

  /** The three outcomes read differently, and the unset winner reads as a tie. */
  lemma MessagesDistinct()
    ensures GameOverMessage(HumanWins) != GameOverMessage(AiWins)
    ensures GameOverMessage(HumanWins) != GameOverMessage(Tie)
    ensures GameOverMessage(AiWins) != GameOverMessage(Tie)
    ensures GameOverMessage(NoWinner) == GameOverMessage(Tie)
  {
    assert GameOverMessage(HumanWins)[11] == 'Y' && GameOverMessage(AiWins)[11] == 'Y';
    assert GameOverMessage(HumanWins)[15] == 'W' != GameOverMessage(AiWins)[15];
    assert GameOverMessage(Tie)[11] == 'T';
  }

  // ---------------------------------------------------------------------
  // The session

  class Game {
    /** The `Stack<BoardState>`, bottom first: the last element is the top. */
    var history: seq<BoardState>
    /** How many states the history keeps (`Settings.UNDO_MEMORY`). */
    const memory: int
    /** The computer player. */
    const ai: AI
    /** The movement offsets of the pieces. */
    const rules: Movement
    var winner: Winner
    /** `onlyKingsMoveCounter`. */
    var kingsOnlyMoves: int
    var playerBlocked: bool

    /** The history is never empty and never longer than `memory` (when that
        is positive), the counter stops at the tie limit, and the computer
        plays by the same rules. */
    ghost predicate Valid()
      reads this
    {
      && history != []
      && (memory >= 1 ==> |history| <= memory)
      && 0 <= kingsOnlyMoves <= KINGS_ONLY_LIMIT
      && ai.Valid() && ai.rules == rules
    }

    /** The game is not over and `p` is on turn: the gate of `playerMove`
        (`p == Human`) and `aiMove` (`p == Ai`). */
    ghost predicate MayMove(p: Player)
      reads this
      requires history != []
    {
      Verdict(Top(history), kingsOnlyMoves, playerBlocked) == NoWinner && Top(history).turn == p
    }

    constructor(settings: Settings, rules: Movement)
      ensures history == [InitialBoard(settings.firstMove)] && memory == settings.undoMemory
      ensures winner == NoWinner && kingsOnlyMoves == 0 && !playerBlocked
      ensures this.rules == rules && ai.depth == settings.aiDepth && ai.tree == Next(rules)
      ensures Valid()
    {
      memory := settings.undoMemory;
      var start := InitialState(settings.firstMove);
      history := [start];
      ai := new AI(settings, rules);
      this.rules := rules;
      winner := NoWinner;
      kingsOnlyMoves := 0;
      playerBlocked := false;
    }

    /** `isGameOver`: the classification of the top state, which is also
        written to `winner` when the game is over. */
    method IsGameOver() returns (over: bool)
      requires Valid()
      modifies this`winner
      ensures over <==> Verdict(Top(history), kingsOnlyMoves, playerBlocked) != NoWinner
      ensures winner == if over then Verdict(Top(history), kingsOnlyMoves, playerBlocked) else old(winner)
    {
      var top := Top(history);
      if top.pieceCount.ai == 0 || top.pieceCount.human == 0 {
        if top.pieceCount.human > top.pieceCount.ai {
          winner := HumanWins;
        } else {
          winner := AiWins;
        }
        return true;
      } else if kingsOnlyMoves >= KINGS_ONLY_LIMIT {
        winner := Tie;
        return true;
      } else if playerBlocked {
        if top.turn == Human {
          winner := AiWins;
        } else {
          winner := HumanWins;
        }
        return true;
      }
      return false;
    }

    /** `updateState`. */
    method UpdateState(newState: BoardState)
      requires history != []
      modifies this`history
      ensures history == Pushed(old(history), newState, memory)
    {
      history := history + [newState];
      if |history| > memory {
        history := history[1..];
      }
    }

    /** The counter update and push shared by both moves, after the gate. */
    method Advance(mover: Player, newState: BoardState)
      requires Valid() && MayMove(mover)
      modifies this`history, this`kingsOnlyMoves, this`playerBlocked
      ensures Valid()
      ensures history == Pushed(old(history), newState, memory)
      ensures kingsOnlyMoves == NextCounter(old(kingsOnlyMoves), Top(old(history)), newState, mover)
      ensures playerBlocked == (old(playerBlocked) || ai.tree(newState) == [])
    {
      var top := Top(history);
      if top.pieceCount.ai == top.kingCount.ai && top.pieceCount.human == top.kingCount.human {
        if top.kingCount.Get(mover) == newState.kingCount.Get(mover) {
          kingsOnlyMoves := kingsOnlyMoves + 1;
        } else {
          kingsOnlyMoves := 0;
        }
      }
      UpdateState(newState);
      var successors := ai.Children(newState);
      if |successors| == 0 {
        playerBlocked := true;
      }
    }

    /** `playerMove`: when the game is not over and the person is on turn,
        `newState` is pushed, the counter is updated and a successor-less
        new state blocks the game; otherwise only the winner may be written. */
    method PlayerMove(newState: BoardState)
      requires Valid()
      modifies this
      ensures Valid()
      ensures winner == var v := Verdict(Top(old(history)), old(kingsOnlyMoves), old(playerBlocked));
                        if v != NoWinner then v else old(winner)
      ensures old(MayMove(Human)) ==>
                && history == Pushed(old(history), newState, memory)
                && kingsOnlyMoves == NextCounter(old(kingsOnlyMoves), Top(old(history)), newState, Human)
                && playerBlocked == (old(playerBlocked) || Successors(rules, newState) == [])
      ensures !old(MayMove(Human)) ==>
                history == old(history) && kingsOnlyMoves == old(kingsOnlyMoves) && playerBlocked == old(playerBlocked)
    {
      var over := IsGameOver();
      if !over && Top(history).turn == Human {
        Advance(Human, newState);
      }
    }

    /** `aiMove`: when the game is not over and the computer is on turn, the
        computer's choice is played as in `playerMove`.  A state with no
        successors makes `ai.move` fail (`ok` is false) before anything but
        the winner changes. */
    method AiMove() returns (ok: bool)
      requires Valid()
      modifies this
      ensures Valid()
      ensures winner == var v := Verdict(Top(old(history)), old(kingsOnlyMoves), old(playerBlocked));
                        if v != NoWinner then v else old(winner)
      ensures !ok <==> old(MayMove(Ai)) && Successors(rules, Top(old(history))) == []
      ensures old(MayMove(Ai)) && ok ==>
                var s := Top(history);
                && s in Successors(rules, Top(old(history)))
                && MinimaxValue(ai.tree, s, ai.depth) == MaxAll(ai.tree, Successors(rules, Top(old(history))), ai.depth)
                && history == Pushed(old(history), s, memory)
                && kingsOnlyMoves == NextCounter(old(kingsOnlyMoves), Top(old(history)), s, Ai)
                && playerBlocked == (old(playerBlocked) || Successors(rules, s) == [])
      ensures !(old(MayMove(Ai)) && ok) ==>
                history == old(history) && kingsOnlyMoves == old(kingsOnlyMoves) && playerBlocked == old(playerBlocked)
    {
      var over := IsGameOver();
      if !over && Top(history).turn == Ai {
        ok := PlayAi();
      } else {
        ok := true;
      }
    }

    /** The body of `aiMove` behind the gate: the computer's choice is
        played, or `ai.move` fails on a state without successors. */
    method PlayAi() returns (ok: bool)
      requires Valid() && MayMove(Ai)
      modifies this`history, this`kingsOnlyMoves, this`playerBlocked
      ensures Valid()
      ensures !ok <==> Successors(rules, Top(old(history))) == []
      ensures ok ==>
                var s := Top(history);
                && s in Successors(rules, Top(old(history)))
                && MinimaxValue(ai.tree, s, ai.depth) == MaxAll(ai.tree, Successors(rules, Top(old(history))), ai.depth)
                && history == Pushed(old(history), s, memory)
                && kingsOnlyMoves == NextCounter(old(kingsOnlyMoves), Top(old(history)), s, Ai)
                && playerBlocked == (old(playerBlocked) || Successors(rules, s) == [])
      ensures !ok ==>
                history == old(history) && kingsOnlyMoves == old(kingsOnlyMoves) && playerBlocked == old(playerBlocked)
    {
      var choice := ai.Move(Top(history));
      if choice == NoChoice {
        return false;
      }
      Advance(Ai, choice.state);
      ok := true;
    }

    /** `undo`; `ok` is false when the pops empty the history, where `peek`
        throws. */
    method Undo() returns (ok: bool)
      requires Valid()
      modifies this`history
      ensures history == UndoResult(old(history))
      ensures ok <==> history != []
      ensures ok ==> Valid()
    {
      if |history| > 2 {
        history := history[..|history| - 1];
        while history != [] && Top(history).turn == Ai
          invariant PopWhileAi(history) == UndoResult(old(history))
          decreases |history|
        {
          history := history[..|history| - 1];
        }
      }
      ok := history != [];
    }

    /** `moveFeedbackClick`: a clicked piece that cannot move is held back
        by a capture elsewhere exactly when the side to move can capture. */
    method MoveFeedbackClick() returns (f: MoveFeedback)
      requires Valid()
      ensures f == ForcedJump <==> CanCapture(rules, Top(history))
    {
      var jumps := SuccessorsOfKindOf(rules, Top(history), true);
      CaptureExists(rules, Top(history));
      if |jumps| > 0 {
        f := ForcedJump;
      } else {
        f := PieceBlocked;
      }
    }

    /** `getValidMoves(posX, posY)`: the moves of the piece in column `posX`
        and row `posY` of the top state, which are the legal successors
        that start on that square. */
    method GetValidMoves(posX: int, posY: int) returns (r: Outcome<seq<BoardState>>)
      requires Valid()
      ensures r == SquareMoves(rules, Top(history), posY, posX)
      ensures r.Ok? <==> Owned(Top(history), posY, posX)
      ensures r.Ok? ==> forall t :: t in r.value <==>
                t in Successors(rules, Top(history)) && t.fromRow == posY && t.fromCol == posX
    {
      r := SquareMovesOf(rules, Top(history), posY, posX);
      SquareMovesErrors(rules, Top(history), posY, posX);
      if r.Ok? {
        forall t | true
          ensures t in r.value <==> t in Successors(rules, Top(history)) && t.fromRow == posY && t.fromCol == posX
        {
          SquareMovesAre(rules, Top(history), posY, posX, t);
        }
      }
    }

    /** `getGameOverMessage`. */
    method GetGameOverMessage() returns (s: string)
      ensures s == GameOverMessage(winner)
    {
      s := GameOverMessage(winner);
    }
  }
}
