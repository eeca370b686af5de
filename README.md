# Checkers game logic, modelled and verified in Dafny

This project models the game logic of a checkers program. The computer plays one side and a person plays the other. Three parts are modelled:

- **The board engine** (`src/main/game/BoardState.java`):
  - the opening layout;
  - the copy of a grid;
  - the construction of the state after a step or a capture, with promotion and the multi-jump marker;
  - the successor lists of one piece, one square and the whole board, with captures mandatory;
  - the heuristic.
- **The computer player** (`src/main/game/AI.java`):
  - depth-limited minimax with fail-soft alpha-beta pruning;
  - the root loop that collects the best-scoring successors;
  - a free choice among them.
- **The session** (`src/main/game/Game.java`):
  - a bounded undo history;
  - turn-gated moves;
  - the kings-only tie counter;
  - the blocked flag;
  - the game-over classification and its message.

Files:

- `pieces.dfy` (module `Pieces`) holds the collaborators the engine uses without defining them: the players, a piece, the movement offsets and the settings.
- `board_state.dfy` (module `BoardStates`) holds a board state as an immutable value and the successor relation as functions.
- `board_facts.dfy` (module `BoardFacts`) characterises that relation declaratively:
  - steps and captures;
  - mandatory capture;
  - what one move does to the grid and to the counts;
  - multi-jump continuation;
  - the opening layout;
  - the heuristic.
- `board_engine.dfy` (module `BoardEngine`) holds the loops of the engine as methods over arrays and sequence accumulators. Each method is proved to compute the function it implements.
- `search_spec.dfy` (module `SearchSpec`) defines plain minimax and the pruned search as functions over any game tree. It proves that pruning from the full window is exact.
- `search.dfy` (module `Search`) holds the class `AI`, whose looping methods are proved against those functions.
- `game.dfy` (module `Session`) holds the class `Game`. Its history is a sequence with the top of the stack last.

How the state is represented:

- A grid is a sequence of 64 cells, row by row. Square (row, col) is index `8 * row + col`.
- `fromRow`/`fromCol`/`toRow`/`toCol` are the source's `fromPosY`/`fromPosX`/`toPosY`/`toPosX`.
- `jumpRow`/`jumpCol` are `doublejumpPosY`/`doublejumpPosX`.
- Every successor function takes the movement offsets of the pieces as the parameter `m`.

Three behaviours of the code that a reader might not expect are modelled as written:

- A capture lowers only the opponent's piece count, never its king count, even when the captured piece is a king. See `BoardFacts.CaptureCounts`. The piece counts themselves always agree with the grid; see `BoardFacts.SuccessorPieces`.
- Landing on the far row counts a new king even for a piece that already is one. See `BoardFacts.StepCounts` and `Session.KingsOnlyCounter`.
- The multi-jump marker excludes only squares that differ from it in both row and column. It is in force only while one of its coordinates is positive, so a marker on (0, 0) excludes nothing. See `BoardFacts.MarkedCapture`.

## Model

| member | source | states |
|---|---|---|
| BoardStates.ComputeHeuristic | src/main/game/BoardState.java:80-99 | The heuristic is a Java `int`: it always lies in [MIN_VALUE, MAX_VALUE]. |
| BoardStates.I32 | src/main/game/BoardState.java:97-99 | Java `int` arithmetic: the result is in range, equals the input when the input is in range, and agrees with it modulo 2^32. |
| BoardFacts.HeuristicAtGameOver | src/main/game/BoardState.java:84-91 | If the opponent has no pieces, the value is MAX_VALUE. Otherwise, if the player has none, it is MIN_VALUE. |
| BoardFacts.HeuristicIsMaterial | src/main/game/BoardState.java:84-99 | Suppose the counts agree with the grid and the game goes on. Then the heuristic is own pieces plus kings minus the opponent's. No overflow occurs, the value lies within ±128, and it is zero-sum between the sides. |
| BoardFacts.HeuristicMaterial | src/main/game/BoardState.java:84-99 | On any board where the game goes on and every count lies in 0 .. 2^30 - 1, the heuristic is own pieces plus kings minus the opponent's, and it is zero-sum between the sides. This needs no agreement of the king counts with the grid. |
| BoardEngine.InitialState | src/main/game/BoardState.java:35-65 | The loops build exactly `InitialBoard(first)`: first mover on turn, no move recorded, 12/12 pieces and 0/0 kings. |
| BoardFacts.InitialStateCounts | src/main/game/BoardState.java:35-65 | Any state whose grid is the opening layout, with twelve men and no kings for each side, has piece and king counts that agree with its grid. |
| BoardFacts.InitialCounts | src/main/game/BoardState.java:35-65 | The hard-coded counts of the opening position agree with its grid. Every square holds the opening cell: men on the dark squares, the computer in rows 0-2, the person in rows 5-7. |
| BoardFacts.InitialPieces | src/main/game/BoardState.java:35-65 | The opening position's piece counts agree with its grid. |
| BoardFacts.InitialTotal | src/main/game/BoardState.java:38-58 | The opening grid holds 12 men of each side and no kings. |
| BoardEngine.DeepCopy | src/main/game/BoardState.java:67-73 | The result is a fresh array with the same 64 squares as the state. |
| BoardEngine.CreateNewState | src/main/game/BoardState.java:240-276 | Computes `NewState`. The proof includes termination of the recursion into `jumpSuccessors`, measured by the opponent's pieces left on the grid. |
| BoardEngine.CaptureShrinks | src/main/game/BoardState.java:262-265 | Removing the jumped piece lowers the opponent's count on the grid, which is the termination measure. |
| BoardFacts.StepEffect | src/main/game/BoardState.java:240-259 | A step moves the piece, promoted on its far row, and empties the origin. No other square changes. Piece counts are unchanged and king counts follow `KingsAfter`. The move is recorded, the turn passes and the marker is unset. |
| BoardFacts.CaptureCells | src/main/game/BoardState.java:240-263 | A capture moves the piece two squares and empties the origin and the jumped square. No other square changes. |
| BoardFacts.CaptureRecord | src/main/game/BoardState.java:244-265 | A capture lowers the opponent's piece count by one, king counts follow `KingsAfter`, and the move's origin and landing squares are recorded. |
| BoardFacts.CaptureTurnRule | src/main/game/BoardState.java:260-273 | The turn stays with the mover exactly when there was no promotion and the piece can jump again; the landing square then becomes the marker. Otherwise the turn passes and the marker is unset. |
| BoardFacts.StepCounts | src/main/game/BoardState.java:244-251 | A step keeps the counts equal to the grid's, except for a king stepping onto its own far row. In that case the mover's king count runs one ahead. |
| BoardFacts.CaptureCounts | src/main/game/BoardState.java:262-265 | Capturing a man keeps the counts equal to the grid's, provided no king reaches its far row. Capturing a king leaves the victim's king count one too high. |
| BoardFacts.SuccessorKings | src/main/game/BoardState.java:244-251 | Every successor's king counts are its parent's, plus one for the mover exactly when the moved piece lands on the mover's far row. |
| BoardFacts.StepPieces | src/main/game/BoardState.java:240-276 | A step keeps each side's piece count equal to the number of its pieces on the grid. |
| BoardFacts.CapturePieces | src/main/game/BoardState.java:240-276 | A capture keeps each side's piece count equal to the number of its pieces on the grid, whether the captured piece is a man or a king. |
| BoardFacts.SuccessorPieces | src/main/game/BoardState.java:240-276 | Every legal move keeps each side's piece count equal to its pieces on the grid. Unlike the king counts, the piece counts never drift. |
| BoardFacts.GameOverIsEmptySide | src/main/game/BoardState.java:322-324 | `isGameOver` decides the end of the game. While the piece counts agree with the grid, it holds exactly when one side has no piece left on the board. |
| BoardFacts.KingRowIsFarthest | src/main/game/BoardState.java:278-283 | `isKingPosition` decides a side's king row. It is exactly the row at least five rows from every square the side starts on: row 7 for the computer, row 0 for the person. |
| BoardFacts.ValidSquares | src/main/game/BoardState.java:341-343 | `isValid` decides which squares lie on the board. It accepts exactly the squares of the flat 64-cell grid, and a square's index decodes back to its row and column. |
| BoardFacts.MoveCounts | src/main/game/BoardState.java:253-254 | Moving a piece between squares changes the grid counts only by promoting a man. |
| BoardFacts.CountUpdate | src/main/game/BoardState.java:253-263 | Overwriting one square changes a grid count by the difference of the two cells' weights. |
| BoardFacts.JumpSuccessorsNonEmpty | src/main/game/BoardState.java:207-238 | `jumpSuccessors` is non-empty exactly when the marker does not exclude the square and the piece has a jump. On the marker-free copy inside `createNewState`, this makes the further-jump test the same as `HasJump`. |
| BoardFacts.StepGridMembers | src/main/game/BoardState.java:181-199 | The non-jump loop yields exactly the one-square moves onto empty on-board squares, over the piece's offset pairs. |
| BoardFacts.JumpGridMembers | src/main/game/BoardState.java:213-235 | The jump loop yields exactly the captures of an adjacent opponent piece onto an empty on-board square beyond it. |
| BoardFacts.JumpGridNonEmpty | src/main/game/BoardState.java:213-235 | The jump loop yields something exactly when `JumpIn`, the same nested scan reduced to a yes-or-no answer, finds a jump. |
| BoardFacts.HasJumpIff | src/main/game/BoardState.java:215-229 | A piece has a jump exactly when one of its offset pairs leads over an opponent's piece to an empty square on the board. |
| BoardFacts.HasJumpCells | src/main/game/BoardState.java:215-229 | Whether a piece has a jump depends on the grid alone, not on the turn, marker or counts. |
| BoardFacts.StepRowMembers | src/main/game/BoardState.java:184-196 | The inner row-offset loop of `nonJumpSuccessors` yields exactly the steps for one column offset. |
| BoardFacts.JumpRowMembers | src/main/game/BoardState.java:216-233 | The inner row-offset loop of `jumpSuccessors` yields exactly the jumps for one column offset. |
| BoardFacts.BoardMembers | src/main/game/BoardState.java:125-137 | The whole-board list of a kind consists exactly of the successors of some square holding a piece of the mover. |
| BoardFacts.CapturesAre | src/main/game/BoardState.java:125-137 | `getSuccessors(true)` yields exactly the captures the marker allows. |
| BoardFacts.StepsAre | src/main/game/BoardState.java:125-137 | `getSuccessors(false)` yields exactly the single steps. |
| BoardFacts.CaptureExists | src/main/game/BoardState.java:107-118 | `getSuccessors(true)` is non-empty exactly when some piece of the mover has an allowed capture. |
| BoardFacts.MandatoryCapture | src/main/game/BoardState.java:107-118 | The successors of a position are its captures when it has one, and its single steps otherwise. |
| BoardFacts.CaptureOrigin | src/main/game/BoardState.java:207-212 | A capture starts on a square of the mover that the marker does not exclude, and records that square as its origin. |
| BoardFacts.MarkedCapture | src/main/game/BoardState.java:210-212 | Suppose the marker square holds a piece of the mover that can jump. Then the mover must capture. While the marker is not (0, 0), every capture starts on the marker's row or column. |
| BoardFacts.ContinuationConfined | src/main/game/BoardState.java:266-273 | After a capture that keeps the turn, every successor is a capture, confined as in `MarkedCapture` to the landing square's row or column. |
| BoardFacts.SquareOrigin | src/main/game/BoardState.java:162-173 | Every successor of a square records that square as its origin. |
| BoardFacts.SquareMovesErrors | src/main/game/BoardState.java:162-165 | `getSuccessors(row, col)` fails off the board, on an empty square and on a piece of the side not to move, and succeeds exactly on a piece of the mover. |
| BoardFacts.SquareMovesAre | src/main/game/BoardState.java:144-155 | For a piece of the mover, the square's moves are exactly the position's successors that start there. The jump-only mode is decided globally, so such a piece has no moves while another piece can capture. |
| BoardFacts.SquareKindMembers | src/main/game/BoardState.java:125-136 | The successors of a kind of one square are exactly the successors of that kind of the whole position that start on the square. |
| BoardEngine.NonJumpSuccessorsOf | src/main/game/BoardState.java:181-199 | The nested loops compute `NonJumpSuccessors`. |
| BoardEngine.JumpSuccessorsOf | src/main/game/BoardState.java:207-238 | The marker check and the nested loops compute `JumpSuccessors`. |
| BoardEngine.PieceMovesOf | src/main/game/BoardState.java:162-173 | Computes `PieceMoves`, error cases included. |
| BoardEngine.SuccessorsOfKindOf | src/main/game/BoardState.java:125-137 | The loops over the 64 squares compute `SuccessorsOfKind`. |
| BoardEngine.SuccessorsOf | src/main/game/BoardState.java:107-118 | Computes `Successors`: the jumps if there are any, otherwise the single steps. |
| BoardEngine.SquareMovesOf | src/main/game/BoardState.java:144-155 | Computes `SquareMoves`. |
| SearchSpec.MinimaxInRange | src/main/game/AI.java:86-119 | Every minimax value is a Java `int`. |
| SearchSpec.MaxAllIsMax | src/main/game/AI.java:31-43 | `MaxAll` bounds every child's minimax value from above, and some child attains it when there is a child. |
| SearchSpec.PrunedBounds | src/main/game/AI.java:86-119 | Knuth and Moore's bounds hold for fail-soft alpha-beta in any window. A result at or below alpha is an upper bound of minimax, one at or above beta is a lower bound, and one inside the window is exact. |
| SearchSpec.MaxFoldBounds | src/main/game/AI.java:93-102 | The maximising loop never lowers its running value, and it meets the same bounds against the best of the running value and the remaining children. |
| SearchSpec.MinFoldBounds | src/main/game/AI.java:107-116 | The minimising loop never raises its running value, and it meets the bounds against the worst of the running value and the remaining children. |
| SearchSpec.PruningIsExact | src/main/game/AI.java:69-76 | From the window (MIN_VALUE, MAX_VALUE), the pruned search returns exactly the plain minimax value. |
| SearchSpec.TiesMembers | src/main/game/AI.java:36-42 | The tie list holds exactly the states that score the given value. |
| SearchSpec.TiesNone | src/main/game/AI.java:36-39 | When no state reaches a score, its tie list is empty; this is why `equalBests` is cleared on a new best. |
| Search.RandomMove | src/main/game/AI.java:53-60 | Fails exactly on the empty list. Otherwise it returns some element of the list. |
| Search.AI.constructor | src/main/game/AI.java:13-16 | The depth is the configured one, the perspective is the computer's, and the tree is the successor relation. |
| Search.AI.MinimaxWindow | src/main/game/AI.java:86-119 | The loops with the moving window and the `break` compute `PrunedValue`. Leaves are the heuristic from the computer's side. An empty maximising node gives MIN_VALUE and an empty minimising node MAX_VALUE. The final `throw` is unreachable. |
| Search.AI.Minimax | src/main/game/AI.java:69-76 | Returns the plain minimax value, by `PruningIsExact`. |
| Search.AI.MinimaxMove | src/main/game/AI.java:31-46 | Every successor is scored with the full depth. The result fails exactly on an empty list. Otherwise the chosen successor is in the list, attains the maximum minimax value, and belongs to the tie list of that value. |
| Search.AI.Move | src/main/game/AI.java:18-24 | Fails exactly when the state has no successors. The only successor is returned without a search. Otherwise the choice is a successor with the best minimax value. |
| Session.Pushed | src/main/game/Game.java:79-84 | The new state is on top, and the states below it are the newest of the old history. The size grows by one until it reaches `memory`, and it never exceeds `memory` when it did not before. |
| Session.Game.UpdateState | src/main/game/Game.java:79-84 | Pushing and trimming leave the history equal to `Pushed`. |
| Session.PopWhileAi | src/main/game/Game.java:139-141 | The result is a prefix of the history whose top is not the computer's turn. Every state popped is the computer's turn. |
| Session.UndoResult | src/main/game/Game.java:136-143 | With at most two states nothing changes. Otherwise the result is a strictly shorter prefix whose top, if any, is the person's turn, and every state removed below the old top is the computer's turn. |
| Session.Game.Undo | src/main/game/Game.java:136-143 | The pop loop leaves `UndoResult` of the old history. It reports failure exactly when the history ran empty, where `peek` throws. |
| Session.KingsOnlyCounter | src/main/game/Game.java:41-49 | With only kings on the board, a legal move adds one to the kings-only counter. The exception is a move onto the mover's far row, which resets it, because the engine counts a new king there. |
| Session.Verdict | src/main/game/Game.java:95-120 | The game is over exactly when a side is out of pieces, the counter has reached 20, or a side is blocked. A tie is declared exactly on a board where no side is out of pieces and the counter has reached 20, ahead of a blocked side. |
| Session.BoardVerdict | src/main/game/Game.java:96-104 | When a side is out of pieces, the person wins exactly when the computer has none and the person has some; otherwise the computer wins. |
| Session.BlockedVerdict | src/main/game/Game.java:110-118 | A blocked game is won by the side not on turn: never by the side on turn, and never tied. |
| Session.GameOverMessage | src/main/game/Game.java:122-134 | The message always starts with "Game Over. ". |
| Session.MessagesDistinct | src/main/game/Game.java:122-134 | The three outcomes give three different messages, and an unset winner reads as a tie. |
| Session.Game.constructor | src/main/game/Game.java:16-23 | The history is the opening position alone, the counter is 0, the game is not blocked and the winner is unset. |
| Session.Game.IsGameOver | src/main/game/Game.java:95-120 | The answer is whether `Verdict` names a winner. The query also writes that winner, and only the winner. |
| Session.Game.Advance | src/main/game/Game.java:41-54 | The counter follows `NextCounter`, the history follows `Pushed`, and the blocked flag is set when the new state has no moves. |
| Session.Game.PlayerMove | src/main/game/Game.java:39-56 | Only when the game is on and the person is on turn are the history, counter and blocked flag updated; otherwise they are unchanged. The blocked flag is never reset. The winner is written whenever the game is over. |
| Session.Game.AiMove | src/main/game/Game.java:58-77 | When the game is on and the computer is on turn, its move is a successor with the best minimax value and is pushed as in `PlayerMove`. It fails exactly when that state has no successors. Otherwise nothing but the winner changes. |
| Session.Game.PlayAi | src/main/game/Game.java:61-76 | Past the gate, `ai.move` fails exactly when the state has no successors, and then nothing changes. Otherwise the chosen best-value successor is pushed, with the counter and the blocked flag updated as after a person's move. |
| Session.Game.MoveFeedbackClick | src/main/game/Game.java:25-33 | Reports a forced jump exactly when the side to move can capture. |
| Session.Game.GetValidMoves | src/main/game/Game.java:35-37 | The swapped coordinates give `SquareMoves` at row `posY`, column `posX`. It succeeds exactly on a piece of the mover, and then yields the position's successors that start on that square. |
| Session.Game.GetGameOverMessage | src/main/game/Game.java:122-134 | The message of the current winner. |

## Left out

- The Swing user interface, its timers and its threads are not part of this model. The session's methods are modelled as the calls the interface makes.
- `Piece`, `Player` and `Settings` are not part of this model. They are modelled by their role:
  - A player is one of two values.
  - A piece is an owner and a king flag.
  - The movement offsets of the four kinds of piece are a parameter whose concrete values are left open.
  - The settings are the first mover, the search depth and the undo memory.
- The search depth is a natural number; a negative `AI_DEPTH` is not modelled.
- `java.util.Random` in `randomMove` is a free choice of any element.
- Java exceptions are modelled as results:
  - an out-of-range index, or `getPlayer` on an empty square, in `getSuccessors(row, col, jump)` is an `Err` value;
  - the "empty list" failure of `randomMove` is `NoChoice`;
  - `peek` on an emptied stack in `undo` is `ok == false`.
- The final `throw` of `minimax` is not modelled: with two players, every node is a maximising or a minimising node.
- The grid is a flat sequence of 64 cells rather than an 8×8 array of references. Piece identity and aliasing between a state and its copy are not modelled, because a copy never shares a mutable cell with its parent.
- The `pieceCount`/`kingCount` hash maps are a pair of integers per state. The session compares them by value. Java compares the boxed `Integer` values by reference; this agrees with value comparison because the compared piece counts are small cached values and an unchanged king count is the same copied object.
- Piece and king counts are unbounded integers. The king count can, as written, grow past the number of pieces. A Java `int` overflow of it would take some 2^31 moves onto a far row, and this wrap-around is not modelled.
- The heuristic's additions do wrap as Java `int`s in the model.
- Several Java loops are split across helper methods in `BoardEngine` (`StepRowOf`, `JumpRowOf`, `JumpBy`, `RowSuccessorsOf`, `SquareSuccessorsOf`, `CaptureState`, `MovedCopy`, `CapturedCopy`, `FurtherJump`), and `Game.aiMove` between `Session.Game.AiMove` and `Session.Game.PlayAi`. The order in which successors are appended is kept.
- The getters `getState`, `getTurn`, `getPiece` and the from/to accessors are plain field reads. They appear in the model as `Top(history)` and the record fields.
- BoardEngine.CreateNewState: requires, for a jump, the geometry its two callers establish: the landing square two offsets away and a legal jump. The source never calls it otherwise.
- Session.Game.Advance: states the blocked flag with the computer's game tree rather than `Successors`. Its callers restate it with `Successors`.
