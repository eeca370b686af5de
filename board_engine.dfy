/** The imperative side of the board engine (src/main/game/BoardState.java):
    the loops that lay out the opening position, copy a grid, build a
    successor state and collect successors.  The grid of a state under
    construction is an `array<Cell>` of 64 squares, row by row; every method
    is proved to compute the corresponding function of BoardStates. */
module BoardEngine {
  import opened Pieces
  import opened BoardStates
  import opened BoardFacts

  /** `InitialState`: the opening layout, built square by square. */
  method InitialState(first: Player) returns (b: BoardState)
    ensures b == InitialBoard(first)
  {
    var a := new Cell[NO_SQUARES](_ => Empty);
    for i := 0 to SIDE_LENGTH
      invariant forall k :: 0 <= k < 8 * i ==> a[k] == InitialCell(k / 8, k % 8)
      invariant forall k :: 8 * i <= k < NO_SQUARES ==> a[k] == Empty
    {
      for j := 0 to SIDE_LENGTH
        invariant forall k :: 0 <= k < 8 * i + j ==> a[k] == InitialCell(k / 8, k % 8)
        invariant forall k :: 8 * i + j <= k < NO_SQUARES ==> a[k] == Empty
      {
        assert (8 * i + j) / 8 == i && (8 * i + j) % 8 == j;
        if (j + i) % 2 == 1 {
          if i < 3 {
            a[Idx(i, j)] := Holds(Piece(Ai, false));
          } else if i > 4 {
            a[Idx(i, j)] := Holds(Piece(Human, false));
          }
        }
      }
    }
    assert a[..] == InitialGrid();
    b := BoardState(a[..], first, -1, -1, -1, -1, -1, -1, Tally(12, 12), Tally(0, 0));
  }

  /** `deepCopy`: a fresh grid with the same squares, copied row by row. */
  method DeepCopy(b: BoardState) returns (a: array<Cell>)
    ensures fresh(a) && a[..] == b.cells
  {
    a := new Cell[NO_SQUARES](_ => Empty);
    for i := 0 to SIDE_LENGTH
      invariant forall k :: 0 <= k < 8 * i ==> a[k] == b.cells[k]
    {
      for j := 0 to SIDE_LENGTH
        invariant forall k :: 0 <= k < 8 * i + j ==> a[k] == b.cells[k]
      {
        a[Idx(i, j)] := b.cells[Idx(i, j)];
      }
    }
  }

  /** The opponent's men and kings on a grid: the measure that the
      recursion between `createNewState` and `jumpSuccessors` lowers. */
  function Victims(b: BoardState, piece: Piece): nat
  {
    CountOf(b.cells, piece.owner.Opposite(), false, NO_SQUARES)
  }

  /** Emptying the origin, filling the landing square with a piece of the
      mover and emptying the jumped square removes one opponent piece. */
  lemma CaptureShrinks(g: Grid, o: nat, d: nat, j: nat, moved: Piece, victim: Player)
    requires o < NO_SQUARES && d < NO_SQUARES && j < NO_SQUARES && d != j
    requires moved.owner != victim && g[d] == Empty && g[j].Holds? && g[j].piece.owner == victim
    ensures CountOf(g[o := Empty][d := Holds(moved)][j := Empty], victim, false, NO_SQUARES) <
            CountOf(g, victim, false, NO_SQUARES)
  {
    CountUpdate(g, o, Empty, victim, false, NO_SQUARES);
    CountUpdate(g[o := Empty], d, Holds(moved), victim, false, NO_SQUARES);
    var h := g[o := Empty][d := Holds(moved)];
    assert h[j] == g[j] || (o == j && h[j] == Empty);
    CountUpdate(h, j, Empty, victim, false, NO_SQUARES);
  }

  /** `createNewState`: copy the grid and the counts, move the piece
      (promoting it on its far row), record the move and pass the turn; for
      a capture also remove the jumped piece and, when the same piece has a
      further capture and was not just crowned, keep the turn and set the
      multi-jump marker.  The further capture is found with
      `jumpSuccessors` on the new state, as the source does. */
  method CreateNewState(m: Movement, b: BoardState, row: int, col: int, newRow: int, newCol: int,
                        piece: Piece, jumped: bool, dy: int, dx: int) returns (r: BoardState)
    requires IsValid(row, col) && IsValid(newRow, newCol)
    requires jumped ==> newRow == row + 2 * dy && newCol == col + 2 * dx && JumpOK(b, piece, row, col, dy, dx)
    ensures r == NewState(m, b, row, col, newRow, newCol, piece, jumped, dy, dx)
    decreases Victims(b, piece), 1
  {
    if jumped {
      r := CaptureState(m, b, row, col, newRow, newCol, piece, dy, dx);
      return;
    }
    var kings := b.kingCount;
    var moved := piece;
    if IsKingPosition(newRow, piece.owner) {
      moved := Piece(piece.owner, true);
      kings := kings.Set(moved.owner, kings.Get(moved.owner) + 1);
    }
    var a := MovedCopy(b, row, col, newRow, newCol, moved);
    r := BoardState(a[..], moved.owner.Opposite(), row, col, newRow, newCol, -1, -1, b.pieceCount, kings);
  }

  /** `createNewState` for a capture by (dy, dx) from (row, col). */
  method CaptureState(m: Movement, b: BoardState, row: int, col: int, newRow: int, newCol: int,
                      piece: Piece, dy: int, dx: int) returns (r: BoardState)
    requires IsValid(row, col) && JumpOK(b, piece, row, col, dy, dx)
    requires newRow == row + 2 * dy && newCol == col + 2 * dx
    ensures r == NewState(m, b, row, col, newRow, newCol, piece, true, dy, dx)
    decreases Victims(b, piece), 0
  {
    var kings := b.kingCount;
    var moved := piece;
    var kingConversion := false;
    if IsKingPosition(newRow, piece.owner) {
      moved := Piece(piece.owner, true);
      kingConversion := true;
      kings := kings.Set(moved.owner, kings.Get(moved.owner) + 1);
    }
    var opp := piece.owner.Opposite();
    var pieces := b.pieceCount.Set(opp, b.pieceCount.Get(opp) - 1);
    var grid := CapturedCopy(b, row, col, newRow, newCol, dy, dx, moved);
    var mid := BoardState(grid, opp, row, col, newRow, newCol, -1, -1, pieces, kings);
    CaptureShrinks(b.cells, Idx(row, col), Idx(newRow, newCol), Idx(newRow - dy, newCol - dx), moved, opp);
    r := FurtherJump(m, mid, moved, newRow, newCol, kingConversion);
  }

  /** The copied grid after `moved` jumps from (row, col) over
      (newRow - dy, newCol - dx) to (newRow, newCol): the origin and the
      jumped square emptied, the landing square filled. */
  method CapturedCopy(b: BoardState, row: int, col: int, newRow: int, newCol: int, dy: int, dx: int, moved: Piece)
    returns (grid: Grid)
    requires IsValid(row, col) && IsValid(newRow, newCol) && IsValid(newRow - dy, newCol - dx)
    ensures grid == b.cells[Idx(row, col) := Empty][Idx(newRow, newCol) := Holds(moved)]
                           [Idx(newRow - dy, newCol - dx) := Empty]
  {
    var a := MovedCopy(b, row, col, newRow, newCol, moved);
    ghost var before := a[..];
    a[Idx(newRow - dy, newCol - dx)] := Empty;
    assert a[..] == before[Idx(newRow - dy, newCol - dx) := Empty];
    grid := a[..];
  }

  /** The copy of the grid with the piece lifted from (row, col) and `moved`
      put down on (newRow, newCol). */
  method MovedCopy(b: BoardState, row: int, col: int, newRow: int, newCol: int, moved: Piece)
    returns (a: array<Cell>)
    requires IsValid(row, col) && IsValid(newRow, newCol)
    ensures fresh(a) && a[..] == b.cells[Idx(row, col) := Empty][Idx(newRow, newCol) := Holds(moved)]
  {
    a := DeepCopy(b);
    a[Idx(row, col)] := Empty;
    a[Idx(newRow, newCol)] := Holds(moved);
  }

  /** The end of `createNewState` after a capture: when `moved` can capture
      again from its landing square and was not just crowned, the turn stays
      and the landing square becomes the multi-jump marker. */
  method FurtherJump(m: Movement, mid: BoardState, moved: Piece, newRow: int, newCol: int, kingConversion: bool)
    returns (r: BoardState)
    requires IsValid(newRow, newCol) && mid.jumpRow == -1 && mid.jumpCol == -1
    ensures r == if HasJump(m, mid, moved, newRow, newCol) && !kingConversion
                 then mid.(turn := moved.owner, jumpRow := newRow, jumpCol := newCol) else mid
    decreases Victims(mid, moved), 5
  {
    var further := JumpSuccessorsOf(m, mid, moved, newRow, newCol);
    JumpSuccessorsNonEmpty(m, mid, moved, newRow, newCol);
    if |further| > 0 && !kingConversion {
      r := mid.(turn := moved.owner, jumpRow := newRow, jumpCol := newCol);
    } else {
      r := mid;
    }
  }

  /** `nonJumpSuccessors`: every offset pair whose square is on the board
      and empty gives a step, column offsets outermost. */
  method NonJumpSuccessorsOf(m: Movement, b: BoardState, piece: Piece, row: int, col: int)
    returns (r: seq<BoardState>)
    requires IsValid(row, col)
    ensures r == NonJumpSuccessors(m, b, piece, row, col)
  {
    var xs, ys := m.Of(piece).xs, m.Of(piece).ys;
    r := [];
    for i := 0 to |xs|
      invariant r == StepGrid(m, b, piece, row, col, xs[..i], ys)
    {
      var steps := StepRowOf(m, b, piece, row, col, xs[i], ys);
      r := r + steps;
      assert xs[..i + 1][..i] == xs[..i];
    }
    assert xs[..|xs|] == xs;
  }

  /** The inner loop of `nonJumpSuccessors`, over the row offsets for one
      column offset. */
  method StepRowOf(m: Movement, b: BoardState, piece: Piece, row: int, col: int, dx: int, ys: seq<int>)
    returns (r: seq<BoardState>)
    requires IsValid(row, col)
    ensures r == StepRow(m, b, piece, row, col, dx, ys)
  {
    r := [];
    for j := 0 to |ys|
      invariant r == StepRow(m, b, piece, row, col, dx, ys[..j])
    {
      var dy := ys[j];
      var newX, newY := col + dx, row + dy;
      assert ys[..j + 1][..j] == ys[..j];
      if IsValid(newY, newX) {
        if At(b, newY, newX) == Empty {
          var s := CreateNewState(m, b, row, col, newY, newX, piece, false, dy, dx);
          r := r + [s];
        }
      }
    }
    assert ys[..|ys|] == ys;
  }

  /** `jumpSuccessors`: nothing while the multi-jump marker excludes the
      square; otherwise every offset pair whose adjacent square holds an
      opponent piece and whose landing square is on the board and empty
      gives a capture. */
  method JumpSuccessorsOf(m: Movement, b: BoardState, piece: Piece, row: int, col: int)
    returns (r: seq<BoardState>)
    requires IsValid(row, col)
    ensures r == JumpSuccessors(m, b, piece, row, col)
    decreases Victims(b, piece), 4
  {
    if (b.jumpCol > 0 || b.jumpRow > 0) && (col != b.jumpCol && row != b.jumpRow) {
      return [];
    }
    var xs, ys := m.Of(piece).xs, m.Of(piece).ys;
    r := [];
    for i := 0 to |xs|
      invariant r == JumpGrid(m, b, piece, row, col, xs[..i], ys)
    {
      var jumps := JumpRowOf(m, b, piece, row, col, xs[i], ys);
      r := r + jumps;
      assert xs[..i + 1][..i] == xs[..i];
    }
    assert xs[..|xs|] == xs;
  }

  /** The inner loop of `jumpSuccessors`, over the row offsets for one
      column offset. */
  method JumpRowOf(m: Movement, b: BoardState, piece: Piece, row: int, col: int, dx: int, ys: seq<int>)
    returns (r: seq<BoardState>)
    requires IsValid(row, col)
    ensures r == JumpRow(m, b, piece, row, col, dx, ys)
    decreases Victims(b, piece), 3
  {
    r := [];
    for j := 0 to |ys|
      invariant r == JumpRow(m, b, piece, row, col, dx, ys[..j])
    {
      assert ys[..j + 1][..j] == ys[..j];
      var s := JumpBy(m, b, piece, row, col, ys[j], dx);
      r := r + s;
    }
    assert ys[..|ys|] == ys;
  }

  /** The body of the loops of `jumpSuccessors`: the capture by (dy, dx), if
      the adjacent square holds an opponent piece and the landing square is
      on the board and empty. */
  method JumpBy(m: Movement, b: BoardState, piece: Piece, row: int, col: int, dy: int, dx: int)
    returns (r: seq<BoardState>)
    requires IsValid(row, col)
    ensures r == JumpOne(m, b, piece, row, col, dy, dx)
    decreases Victims(b, piece), 2
  {
    r := [];
    var newX, newY := col + dx, row + dy;
    if IsValid(newY, newX) {
      if At(b, newY, newX).Holds? && At(b, newY, newX).piece.owner == piece.owner.Opposite() {
        newX, newY := newX + dx, newY + dy;
        if IsValid(newY, newX) {
          if At(b, newY, newX) == Empty {
            var s := CreateNewState(m, b, row, col, newY, newX, piece, true, dy, dx);
            r := [s];
          }
        }
      }
    }
  }

  /** `getSuccessors(row, col, jump)`: the moves of one piece of the side to move. */
  method PieceMovesOf(m: Movement, b: BoardState, row: int, col: int, jump: bool)
    returns (r: Outcome<seq<BoardState>>)
    ensures r == PieceMoves(m, b, row, col, jump)
  {
    if !IsValid(row, col) {
      return Err(OffBoard);
    }
    if At(b, row, col) == Empty {
      return Err(EmptySquare);
    }
    if At(b, row, col).piece.owner != b.turn {
      return Err(NotTurnsPiece);
    }
    var piece := At(b, row, col).piece;
    var moves;
    if jump {
      moves := JumpSuccessorsOf(m, b, piece, row, col);
    } else {
      moves := NonJumpSuccessorsOf(m, b, piece, row, col);
    }
    r := Ok(moves);
  }

  /** `getSuccessors(jump)`: the moves of the given kind of every piece of
      the side to move, square by square. */
  method SuccessorsOfKindOf(m: Movement, b: BoardState, jump: bool) returns (r: seq<BoardState>)
    ensures r == SuccessorsOfKind(m, b, jump)
  {
    r := [];
    for i := 0 to SIDE_LENGTH
      invariant r == GridOf(SquareFn(m, b, jump), i)
    {
      var moves := RowSuccessorsOf(m, b, jump, i);
      r := r + moves;
    }
  }

  /** The inner loop of `getSuccessors(jump)`: the moves of the pieces of
      the side to move on row `row`, column by column. */
  method RowSuccessorsOf(m: Movement, b: BoardState, jump: bool, row: int) returns (r: seq<BoardState>)
    requires 0 <= row < SIDE_LENGTH
    ensures r == RowOf(SquareFn(m, b, jump), row, SIDE_LENGTH)
  {
    r := [];
    for j := 0 to SIDE_LENGTH
      invariant r == RowOf(SquareFn(m, b, jump), row, j)
    {
      var moves := SquareSuccessorsOf(m, b, jump, row, j);
      assert SquareFn(m, b, jump)(row, j) == moves;
      r := r + moves;
    }
  }

  /** The body of the loops of `getSuccessors(jump)`: the moves of the
      given kind of the piece on (row, col) if it belongs to the side to move. */
  method SquareSuccessorsOf(m: Movement, b: BoardState, jump: bool, row: int, col: int)
    returns (r: seq<BoardState>)
    requires IsValid(row, col)
    ensures r == SquareSuccessors(m, b, jump, row, col)
  {
    r := [];
    if At(b, row, col) != Empty {
      if At(b, row, col).piece.owner == b.turn {
        var moves := PieceMovesOf(m, b, row, col, jump);
        r := moves.value;
      }
    }
  }

  /** `getSuccessors()`: the captures when there are any, the steps otherwise. */
  method SuccessorsOf(m: Movement, b: BoardState) returns (r: seq<BoardState>)
    ensures r == Successors(m, b)
  {
    r := SuccessorsOfKindOf(m, b, true);
    if |r| == 0 {
      r := SuccessorsOfKindOf(m, b, false);
    }
  }

  /** `getSuccessors(row, col)`: the moves of one square, captures only when
      any piece of the side to move can capture. */
  method SquareMovesOf(m: Movement, b: BoardState, row: int, col: int) returns (r: Outcome<seq<BoardState>>)
    ensures r == SquareMoves(m, b, row, col)
  {
    var jumps := SuccessorsOfKindOf(m, b, true);
    if |jumps| > 0 {
      r := PieceMovesOf(m, b, row, col, true);
    } else {
      r := PieceMovesOf(m, b, row, col, false);
    }
  }
}
