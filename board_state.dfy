/** One checkers position and the rules that derive its successor positions
    (src/main/game/BoardState.java), as immutable values.  The functions here
    are the specification; module BoardEngine computes the same values with
    the loops and in-place writes of the original. */
module BoardStates {
  import opened Pieces

  const SIDE_LENGTH: int := 8
  const NO_SQUARES: int := 64

  /** The sentinels `Integer.MAX_VALUE` and `Integer.MIN_VALUE`. */
  const MAX_VALUE: int := 0x7fff_ffff
  const MIN_VALUE: int := -0x8000_0000

  /** One square of the grid: empty (`null` in the original) or holding a piece. */
  datatype Cell = Empty | Holds(piece: Piece)

  /** The 8x8 grid, row by row: square (row, col) is at index row * 8 + col. */
  type Grid = g: seq<Cell> | |g| == NO_SQUARES witness seq(NO_SQUARES, _ => Empty)

  /** A count per player (the `HashMap<Player, Integer>` fields). */
  datatype Tally = Tally(ai: int, human: int)
  {
    function Get(p: Player): int
    {
      if p == Ai then ai else human
    }

    function Set(p: Player, v: int): (t: Tally)
      ensures t.Get(p) == v && t.Get(p.Opposite()) == Get(p.Opposite())
    {
      if p == Ai then this.(ai := v) else this.(human := v)
    }
  }

  /** A position: the grid, the side to move, the (from, to) squares of the
      move that produced it (-1 when there is none), the multi-jump marker
      (-1 when unset) and the incrementally kept piece and king counts.
      The getters `getFromPosX/Y`, `getToPosX/Y` and `getTurn` are the field
      selectors `fromCol`, `fromRow`, `toCol`, `toRow` and `turn`. */
  datatype BoardState = BoardState(
    cells: Grid,
    turn: Player,
    fromRow: int, fromCol: int,
    toRow: int, toCol: int,
    jumpRow: int, jumpCol: int,
    pieceCount: Tally,
    kingCount: Tally)

  /** `isValid(y, x)`: the square lies on the board. */
  predicate IsValid(row: int, col: int)
  {
    0 <= row < SIDE_LENGTH && 0 <= col < SIDE_LENGTH
  }

  function Idx(row: int, col: int): (k: nat)
    requires IsValid(row, col)
    ensures k < NO_SQUARES
  {
    8 * row + col
  }

  /** `getPiece(row, col)`. */
  function At(b: BoardState, row: int, col: int): Cell
    requires IsValid(row, col)
  {
    b.cells[Idx(row, col)]
  }

  /** The square holds a piece of the side to move. */
  predicate Owned(b: BoardState, row: int, col: int)
  {
    IsValid(row, col) && At(b, row, col).Holds? && At(b, row, col).piece.owner == b.turn
  }

  /** `isKingPosition`: the far row of each side. */
  predicate IsKingPosition(row: int, p: Player)
  {
    (row == 0 && p == Human) || (row == SIDE_LENGTH - 1 && p == Ai)
  }

  /** `isGameOver`: one side has no pieces left. */
  predicate IsGameOver(b: BoardState)
  {
    b.pieceCount.Get(Ai) == 0 || b.pieceCount.Get(Human) == 0
  }

  // ---------------------------------------------------------------------
  // The initial position

  /** What `InitialState` puts on square (row, col). */
  function InitialCell(row: int, col: int): Cell
  {
    if (row + col) % 2 == 1 && row < 3 then Holds(Piece(Ai, false))
    else if (row + col) % 2 == 1 && row > 4 then Holds(Piece(Human, false))
    else Empty
  }

  /** The grid of `InitialState`. */
  function InitialGrid(): Grid
  {
    seq(NO_SQUARES, k requires 0 <= k => InitialCell(k / 8, k % 8))
  }

  /** `InitialState`: the opening layout with `first` to move, twelve pieces
      and no kings a side, and no move or marker recorded. */
  function InitialBoard(first: Player): BoardState
  {
    BoardState(InitialGrid(), first, -1, -1, -1, -1, -1, -1, Tally(12, 12), Tally(0, 0))
  }

  // ---------------------------------------------------------------------
  // Scoring

  /** Java's 32-bit `int` arithmetic: the value of `x` modulo 2^32, in
      [MIN_VALUE, MAX_VALUE]. */
  function I32(x: int): (r: int)
    ensures MIN_VALUE <= r <= MAX_VALUE
    ensures MIN_VALUE <= x <= MAX_VALUE ==> r == x
    ensures (r - x) % 0x1_0000_0000 == 0
  {
    (x - MIN_VALUE) % 0x1_0000_0000 + MIN_VALUE
  }

  /** `pieceScore`: the player's pieces, with kings counted a second time. */
  function PieceScore(b: BoardState, p: Player): int
  {
    I32(b.pieceCount.Get(p) + b.kingCount.Get(p))
  }

  /** `computeHeuristic` (delegating to `heuristic1`): a win, a loss or the
      material difference, seen from `p`. */
  function ComputeHeuristic(b: BoardState, p: Player): (h: int)
    ensures MIN_VALUE <= h <= MAX_VALUE
  {
    if b.pieceCount.Get(p.Opposite()) == 0 then MAX_VALUE
    else if b.pieceCount.Get(p) == 0 then MIN_VALUE
    else I32(PieceScore(b, p) - PieceScore(b, p.Opposite()))
  }

  // ---------------------------------------------------------------------
  // Move geometry

  /** The multi-jump marker is set (either coordinate positive) and the
      square differs from it in both row and column. */
  predicate MarkerBlocks(b: BoardState, row: int, col: int)
  {
    (b.jumpCol > 0 || b.jumpRow > 0) && (col != b.jumpCol && row != b.jumpRow)
  }

  /** A single step by (dy, dx) from (row, col) lands on an empty square of the board. */
  predicate StepOK(b: BoardState, row: int, col: int, dy: int, dx: int)
  {
    IsValid(row + dy, col + dx) && At(b, row + dy, col + dx) == Empty
  }

  /** `piece` at (row, col) can jump by (dy, dx): the adjacent square holds a
      piece of the opponent and the square beyond it is empty and on the board. */
  predicate JumpOK(b: BoardState, piece: Piece, row: int, col: int, dy: int, dx: int)
  {
    && IsValid(row + dy, col + dx)
    && At(b, row + dy, col + dx).Holds?
    && At(b, row + dy, col + dx).piece.owner == piece.owner.Opposite()
    && IsValid(row + 2 * dy, col + 2 * dx)
    && At(b, row + 2 * dy, col + 2 * dx) == Empty
  }

  /** Some offset pair of `piece` gives a jump from (row, col). */
  predicate HasJump(m: Movement, b: BoardState, piece: Piece, row: int, col: int)
  {
    JumpIn(b, piece, row, col, m.Of(piece).xs, m.Of(piece).ys)
  }

  /** Some column offset in `xs` and row offset in `ys` give a jump. */
  predicate JumpIn(b: BoardState, piece: Piece, row: int, col: int, xs: seq<int>, ys: seq<int>)
    decreases |xs|
  {
    xs != [] && (JumpIn(b, piece, row, col, xs[..|xs| - 1], ys) || JumpInRow(b, piece, row, col, xs[|xs| - 1], ys))
  }

  /** Some row offset in `ys` gives a jump by column offset `dx`. */
  predicate JumpInRow(b: BoardState, piece: Piece, row: int, col: int, dx: int, ys: seq<int>)
    decreases |ys|
  {
    ys != [] && (JumpInRow(b, piece, row, col, dx, ys[..|ys| - 1]) || JumpOK(b, piece, row, col, ys[|ys| - 1], dx))
  }

  // ---------------------------------------------------------------------
  // createNewState

  /** The piece as it lands on `row`: crowned on its owner's far row. */
  function Moved(piece: Piece, row: int): (r: Piece)
    ensures r.owner == piece.owner && (r.isKing <==> piece.isKing || IsKingPosition(row, piece.owner))
  {
    if IsKingPosition(row, piece.owner) then Piece(piece.owner, true) else piece
  }

  /** The king counts after `p` lands on `row`: one more for `p` on its far
      row, whether or not the piece already was a king. */
  function KingsAfter(b: BoardState, p: Player, row: int): Tally
  {
    if IsKingPosition(row, p) then b.kingCount.Set(p, b.kingCount.Get(p) + 1) else b.kingCount
  }

  /** The state a capture builds before `createNewState` looks for a
      further jump: the piece moved, the jumped square cleared, the
      opponent's piece count lowered, the turn passed and the marker unset. */
  function CaptureMid(b: BoardState, row: int, col: int, newRow: int, newCol: int, piece: Piece, dy: int, dx: int): BoardState
    requires IsValid(row, col) && IsValid(newRow, newCol) && IsValid(newRow - dy, newCol - dx)
  {
    var opp := piece.owner.Opposite();
    var grid: Grid := b.cells[Idx(row, col) := Empty][Idx(newRow, newCol) := Holds(Moved(piece, newRow))];
    BoardState(grid[Idx(newRow - dy, newCol - dx) := Empty], opp, row, col, newRow, newCol, -1, -1,
               b.pieceCount.Set(opp, b.pieceCount.Get(opp) - 1), KingsAfter(b, piece.owner, newRow))
  }

  /** `createNewState`: the state that results from moving `piece` from
      (row, col) to (newRow, newCol), capturing the piece on
      (newRow - dy, newCol - dx) when `jumped`.  The grid and the counts are
      copied, the multi-jump marker is not. */
  function NewState(m: Movement, b: BoardState, row: int, col: int, newRow: int, newCol: int,
                    piece: Piece, jumped: bool, dy: int, dx: int): BoardState
    requires IsValid(row, col) && IsValid(newRow, newCol)
    requires jumped ==> IsValid(newRow - dy, newCol - dx)
  {
    if !jumped then
      var grid: Grid := b.cells[Idx(row, col) := Empty][Idx(newRow, newCol) := Holds(Moved(piece, newRow))];
      BoardState(grid, piece.owner.Opposite(), row, col, newRow, newCol, -1, -1, b.pieceCount,
                 KingsAfter(b, piece.owner, newRow))
    else
      var mid := CaptureMid(b, row, col, newRow, newCol, piece, dy, dx);
      if HasJump(m, mid, Moved(piece, newRow), newRow, newCol) && !IsKingPosition(newRow, piece.owner) then
        mid.(turn := piece.owner, jumpRow := newRow, jumpCol := newCol)
      else
        mid
  }

  // ---------------------------------------------------------------------
  // Successors of one piece: the nested loops over column offsets (outer)
  // and row offsets (inner), written as functions over the offsets tried so far.

  /** Step successors for column offset `dx` and the row offsets `ys`. */
  function StepRow(m: Movement, b: BoardState, piece: Piece, row: int, col: int, dx: int, ys: seq<int>): seq<BoardState>
    requires IsValid(row, col)
    decreases |ys|
  {
    if ys == [] then []
    else
      var dy := ys[|ys| - 1];
      StepRow(m, b, piece, row, col, dx, ys[..|ys| - 1]) +
      (if StepOK(b, row, col, dy, dx)
       then [NewState(m, b, row, col, row + dy, col + dx, piece, false, dy, dx)] else [])
  }

  function StepGrid(m: Movement, b: BoardState, piece: Piece, row: int, col: int, xs: seq<int>, ys: seq<int>): seq<BoardState>
    requires IsValid(row, col)
    decreases |xs|
  {
    if xs == [] then []
    else StepGrid(m, b, piece, row, col, xs[..|xs| - 1], ys) + StepRow(m, b, piece, row, col, xs[|xs| - 1], ys)
  }

  /** Jump successors for column offset `dx` and the row offsets `ys`. */
  function JumpRow(m: Movement, b: BoardState, piece: Piece, row: int, col: int, dx: int, ys: seq<int>): seq<BoardState>
    requires IsValid(row, col)
    decreases |ys|
  {
    if ys == [] then []
    else
      var dy := ys[|ys| - 1];
      JumpRow(m, b, piece, row, col, dx, ys[..|ys| - 1]) + JumpOne(m, b, piece, row, col, dy, dx)
  }

  /** The capture by (dy, dx), if there is one. */
  function JumpOne(m: Movement, b: BoardState, piece: Piece, row: int, col: int, dy: int, dx: int): seq<BoardState>
    requires IsValid(row, col)
  {
    if JumpOK(b, piece, row, col, dy, dx)
    then [NewState(m, b, row, col, row + 2 * dy, col + 2 * dx, piece, true, dy, dx)] else []
  }

  function JumpGrid(m: Movement, b: BoardState, piece: Piece, row: int, col: int, xs: seq<int>, ys: seq<int>): seq<BoardState>
    requires IsValid(row, col)
    decreases |xs|
  {
    if xs == [] then []
    else JumpGrid(m, b, piece, row, col, xs[..|xs| - 1], ys) + JumpRow(m, b, piece, row, col, xs[|xs| - 1], ys)
  }

  /** `nonJumpSuccessors`. */
  function NonJumpSuccessors(m: Movement, b: BoardState, piece: Piece, row: int, col: int): seq<BoardState>
    requires IsValid(row, col)
  {
    StepGrid(m, b, piece, row, col, m.Of(piece).xs, m.Of(piece).ys)
  }

  /** `jumpSuccessors`: nothing while the multi-jump marker excludes the square. */
  function JumpSuccessors(m: Movement, b: BoardState, piece: Piece, row: int, col: int): seq<BoardState>
    requires IsValid(row, col)
  {
    if MarkerBlocks(b, row, col) then []
    else JumpGrid(m, b, piece, row, col, m.Of(piece).xs, m.Of(piece).ys)
  }

  /** The successors of the piece on (row, col), of the requested kind. */
  function PieceSuccessors(m: Movement, b: BoardState, row: int, col: int, jump: bool): seq<BoardState>
    requires IsValid(row, col) && At(b, row, col).Holds?
  {
    var piece := At(b, row, col).piece;
    if jump then JumpSuccessors(m, b, piece, row, col) else NonJumpSuccessors(m, b, piece, row, col)
  }

  // ---------------------------------------------------------------------
  // Successors of the whole board

  /** The successors of the given kind of the piece on (row, col), if it
      belongs to the side to move; none otherwise. */
  function SquareSuccessors(m: Movement, b: BoardState, jump: bool, row: int, col: int): seq<BoardState>
  {
    if Owned(b, row, col) then PieceSuccessors(m, b, row, col, jump) else []
  }

  /** What `f` yields for squares (row, 0) .. (row, n - 1), in that order. */
  function RowOf<T>(f: (int, int) -> seq<T>, row: int, n: nat): seq<T>
  {
    if n == 0 then [] else RowOf(f, row, n - 1) + f(row, n - 1)
  }

  /** What `f` yields for the squares of rows 0 .. n - 1, row by row. */
  function GridOf<T>(f: (int, int) -> seq<T>, n: nat): seq<T>
  {
    if n == 0 then [] else GridOf(f, n - 1) + RowOf(f, n - 1, SIDE_LENGTH)
  }

  /** `getSuccessors(boolean jump)`: the jump (or non-jump) successors of all
      the mover's pieces, square by square. */
  function SuccessorsOfKind(m: Movement, b: BoardState, jump: bool): seq<BoardState>
  {
    GridOf(SquareFn(m, b, jump), SIDE_LENGTH)
  }

  /** `SquareSuccessors` as a function of the square. */
  function SquareFn(m: Movement, b: BoardState, jump: bool): (int, int) -> seq<BoardState>
  {
    (row, col) => SquareSuccessors(m, b, jump, row, col)
  }

  /** `getSuccessors()`: captures are mandatory. */
  function Successors(m: Movement, b: BoardState): seq<BoardState>
  {
    var jumps := SuccessorsOfKind(m, b, true);
    if |jumps| > 0 then jumps else SuccessorsOfKind(m, b, false)
  }

  /** What asking for one square's moves can fail with: an index outside the
      array, an empty square (`getPiece(..).getPlayer()` on `null`) or a
      piece of the side not to move ("No such piece at that position"). */
  datatype MoveError = OffBoard | EmptySquare | NotTurnsPiece

  datatype Outcome<T> = Ok(value: T) | Err(error: MoveError)

  /** `getSuccessors(row, col, jump)`. */
  function PieceMoves(m: Movement, b: BoardState, row: int, col: int, jump: bool): Outcome<seq<BoardState>>
  {
    if !IsValid(row, col) then Err(OffBoard)
    else if At(b, row, col) == Empty then Err(EmptySquare)
    else if At(b, row, col).piece.owner != b.turn then Err(NotTurnsPiece)
    else Ok(PieceSuccessors(m, b, row, col, jump))
  }

  /** `getSuccessors(row, col)`: jump-only mode is decided from the whole board. */
  function SquareMoves(m: Movement, b: BoardState, row: int, col: int): Outcome<seq<BoardState>>
  {
    PieceMoves(m, b, row, col, |SuccessorsOfKind(m, b, true)| > 0)
  }
}
