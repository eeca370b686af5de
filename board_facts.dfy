/** What the successor relation of BoardStates means: declarative
    characterisations of steps and captures, mandatory capture, the effect
    of one move on the grid and the counts, multi-jump continuation,
    promotion, scoring and the initial layout. */
module BoardFacts {
  import opened Pieces
  import opened BoardStates

  // ---------------------------------------------------------------------
  // Declarative reference for the successor relation

  /** `s` is the state after `piece` on (row, col) steps by (dy, dx). */
  predicate StepAt(m: Movement, b: BoardState, piece: Piece, row: int, col: int, dy: int, dx: int, s: BoardState)
    requires IsValid(row, col)
  {
    StepOK(b, row, col, dy, dx) && s == NewState(m, b, row, col, row + dy, col + dx, piece, false, dy, dx)
  }

  /** `s` is the state after `piece` on (row, col) jumps by (dy, dx). */
  predicate JumpAt(m: Movement, b: BoardState, piece: Piece, row: int, col: int, dy: int, dx: int, s: BoardState)
    requires IsValid(row, col)
  {
    JumpOK(b, piece, row, col, dy, dx) && s == NewState(m, b, row, col, row + 2 * dy, col + 2 * dx, piece, true, dy, dx)
  }

  /** `s` follows from `b` by a single diagonal step of one of the mover's pieces. */
  ghost predicate IsStep(m: Movement, b: BoardState, s: BoardState)
  {
    exists row, col, dx, dy :: Owned(b, row, col) &&
      dx in m.Of(At(b, row, col).piece).xs && dy in m.Of(At(b, row, col).piece).ys &&
      StepAt(m, b, At(b, row, col).piece, row, col, dy, dx, s)
  }

  /** `s` follows from `b` by a capture of one of the mover's pieces that the
      multi-jump marker does not exclude. */
  ghost predicate IsCapture(m: Movement, b: BoardState, s: BoardState)
  {
    exists row, col, dx, dy :: Owned(b, row, col) && !MarkerBlocks(b, row, col) &&
      dx in m.Of(At(b, row, col).piece).xs && dy in m.Of(At(b, row, col).piece).ys &&
      JumpAt(m, b, At(b, row, col).piece, row, col, dy, dx, s)
  }

  /** Some piece of the side to move has a capture the marker does not exclude. */
  ghost predicate CanCapture(m: Movement, b: BoardState)
  {
    exists row, col :: Owned(b, row, col) && !MarkerBlocks(b, row, col) &&
      HasJump(m, b, At(b, row, col).piece, row, col)
  }

  // ---------------------------------------------------------------------
  // Membership in the per-piece loops

  lemma {:induction false} StepRowMembers(m: Movement, b: BoardState, piece: Piece, row: int, col: int,
                                          dx: int, ys: seq<int>, s: BoardState)
    requires IsValid(row, col)
    ensures s in StepRow(m, b, piece, row, col, dx, ys) <==>
            exists dy :: dy in ys && StepAt(m, b, piece, row, col, dy, dx, s)
    decreases |ys|
  {
    if ys != [] {
      var n := |ys| - 1;
      assert ys == ys[..n] + [ys[n]];
      StepRowMembers(m, b, piece, row, col, dx, ys[..n], s);
      if s in StepRow(m, b, piece, row, col, dx, ys) {
        if s !in StepRow(m, b, piece, row, col, dx, ys[..n]) {
          assert StepAt(m, b, piece, row, col, ys[n], dx, s);
        }
      }
    }
  }

  lemma {:induction false} StepGridMembers(m: Movement, b: BoardState, piece: Piece, row: int, col: int,
                                           xs: seq<int>, ys: seq<int>, s: BoardState)
    requires IsValid(row, col)
    ensures s in StepGrid(m, b, piece, row, col, xs, ys) <==>
            exists dx, dy :: dx in xs && dy in ys && StepAt(m, b, piece, row, col, dy, dx, s)
    decreases |xs|
  {
    if xs != [] {
      var n := |xs| - 1;
      assert xs == xs[..n] + [xs[n]];
      StepGridMembers(m, b, piece, row, col, xs[..n], ys, s);
      StepRowMembers(m, b, piece, row, col, xs[n], ys, s);
    }
  }

  lemma {:induction false} JumpRowMembers(m: Movement, b: BoardState, piece: Piece, row: int, col: int,
                                          dx: int, ys: seq<int>, s: BoardState)
    requires IsValid(row, col)
    ensures s in JumpRow(m, b, piece, row, col, dx, ys) <==>
            exists dy :: dy in ys && JumpAt(m, b, piece, row, col, dy, dx, s)
    decreases |ys|
  {
    if ys != [] {
      var n := |ys| - 1;
      assert ys == ys[..n] + [ys[n]];
      JumpRowMembers(m, b, piece, row, col, dx, ys[..n], s);
      if s in JumpRow(m, b, piece, row, col, dx, ys) {
        if s !in JumpRow(m, b, piece, row, col, dx, ys[..n]) {
          assert JumpAt(m, b, piece, row, col, ys[n], dx, s);
        }
      }
    }
  }

  lemma {:induction false} JumpGridMembers(m: Movement, b: BoardState, piece: Piece, row: int, col: int,
                                           xs: seq<int>, ys: seq<int>, s: BoardState)
    requires IsValid(row, col)
    ensures s in JumpGrid(m, b, piece, row, col, xs, ys) <==>
            exists dx, dy :: dx in xs && dy in ys && JumpAt(m, b, piece, row, col, dy, dx, s)
    decreases |xs|
  {
    if xs != [] {
      var n := |xs| - 1;
      assert xs == xs[..n] + [xs[n]];
      JumpGridMembers(m, b, piece, row, col, xs[..n], ys, s);
      JumpRowMembers(m, b, piece, row, col, xs[n], ys, s);
    }
  }

  /** The jump list of one piece is empty exactly when it has no jump. */
  lemma {:induction false} JumpRowNonEmpty(m: Movement, b: BoardState, piece: Piece, row: int, col: int,
                                           dx: int, ys: seq<int>)
    requires IsValid(row, col)
    ensures |JumpRow(m, b, piece, row, col, dx, ys)| > 0 <==> JumpInRow(b, piece, row, col, dx, ys)
    decreases |ys|
  {
    if ys != [] {
      JumpRowNonEmpty(m, b, piece, row, col, dx, ys[..|ys| - 1]);
    }
  }

  lemma {:induction false} JumpGridNonEmpty(m: Movement, b: BoardState, piece: Piece, row: int, col: int,
                                            xs: seq<int>, ys: seq<int>)
    requires IsValid(row, col)
    ensures |JumpGrid(m, b, piece, row, col, xs, ys)| > 0 <==> JumpIn(b, piece, row, col, xs, ys)
    decreases |xs|
  {
    if xs != [] {
      JumpGridNonEmpty(m, b, piece, row, col, xs[..|xs| - 1], ys);
      JumpRowNonEmpty(m, b, piece, row, col, xs[|xs| - 1], ys);
    }
  }

  /** `JumpInRow` holds exactly when some row offset of `ys` gives a jump. */
  lemma {:induction false} JumpInRowIff(b: BoardState, piece: Piece, row: int, col: int, dx: int, ys: seq<int>)
    ensures JumpInRow(b, piece, row, col, dx, ys) <==> exists dy :: dy in ys && JumpOK(b, piece, row, col, dy, dx)
    decreases |ys|
  {
    if ys != [] {
      var n := |ys| - 1;
      assert ys == ys[..n] + [ys[n]];
      JumpInRowIff(b, piece, row, col, dx, ys[..n]);
    }
  }

  /** `JumpIn` holds exactly when some pair of offsets of `xs` and `ys` gives a jump. */
  lemma {:induction false} JumpInIff(b: BoardState, piece: Piece, row: int, col: int, xs: seq<int>, ys: seq<int>)
    ensures JumpIn(b, piece, row, col, xs, ys) <==>
            exists dx, dy :: dx in xs && dy in ys && JumpOK(b, piece, row, col, dy, dx)
    decreases |xs|
  {
    if xs != [] {
      var n := |xs| - 1;
      assert xs == xs[..n] + [xs[n]];
      JumpInIff(b, piece, row, col, xs[..n], ys);
      JumpInRowIff(b, piece, row, col, xs[n], ys);
    }
  }

  /** A piece has a jump exactly when one of its offset pairs leads over an
      opponent's piece to an empty square on the board. */
  lemma HasJumpIff(m: Movement, b: BoardState, piece: Piece, row: int, col: int)
    ensures HasJump(m, b, piece, row, col) <==>
            exists dx, dy :: dx in m.Of(piece).xs && dy in m.Of(piece).ys && JumpOK(b, piece, row, col, dy, dx)
  {
    JumpInIff(b, piece, row, col, m.Of(piece).xs, m.Of(piece).ys);
  }

  /** `jumpSuccessors` returns something exactly when the marker does not
      exclude the square and the piece has a jump.  This is what makes the
      source's test `jumpSuccessors(..).size() > 0` in `createNewState` the
      same as `HasJump` on the fresh copy, whose marker is unset. */
  lemma JumpSuccessorsNonEmpty(m: Movement, b: BoardState, piece: Piece, row: int, col: int)
    requires IsValid(row, col)
    ensures |JumpSuccessors(m, b, piece, row, col)| > 0 <==>
            !MarkerBlocks(b, row, col) && HasJump(m, b, piece, row, col)
  {
    JumpGridNonEmpty(m, b, piece, row, col, m.Of(piece).xs, m.Of(piece).ys);
  }

  // ---------------------------------------------------------------------
  // Membership in the whole-board loops

  lemma {:induction false} RowOfMembers<T>(f: (int, int) -> seq<T>, row: int, n: nat, x: T)
    ensures x in RowOf(f, row, n) <==> exists col :: 0 <= col < n && x in f(row, col)
  {
    if n > 0 {
      RowOfMembers(f, row, n - 1, x);
    }
  }

  lemma {:induction false} GridOfMembers<T>(f: (int, int) -> seq<T>, n: nat, x: T)
    ensures x in GridOf(f, n) <==> exists row, col :: 0 <= row < n && 0 <= col < SIDE_LENGTH && x in f(row, col)
  {
    if n > 0 {
      GridOfMembers(f, n - 1, x);
      RowOfMembers(f, n - 1, SIDE_LENGTH, x);
    }
  }

  lemma {:induction false} RowOfNonEmpty<T>(f: (int, int) -> seq<T>, row: int, n: nat)
    ensures |RowOf(f, row, n)| > 0 <==> exists col :: 0 <= col < n && |f(row, col)| > 0
  {
    if n > 0 {
      RowOfNonEmpty(f, row, n - 1);
    }
  }

  lemma {:induction false} GridOfNonEmpty<T>(f: (int, int) -> seq<T>, n: nat)
    ensures |GridOf(f, n)| > 0 <==> exists row, col :: 0 <= row < n && 0 <= col < SIDE_LENGTH && |f(row, col)| > 0
  {
    if n > 0 {
      GridOfNonEmpty(f, n - 1);
      RowOfNonEmpty(f, n - 1, SIDE_LENGTH);
    }
  }

  /** A state is a whole-board successor of the given kind exactly when it is
      a successor of one of the mover's pieces. */
  lemma BoardMembers(m: Movement, b: BoardState, jump: bool, s: BoardState)
    ensures s in SuccessorsOfKind(m, b, jump) <==>
            exists row, col :: 0 <= row < SIDE_LENGTH && 0 <= col < SIDE_LENGTH &&
              s in SquareSuccessors(m, b, jump, row, col)
  {
    var f := SquareFn(m, b, jump);
    assert forall row, col :: f(row, col) == SquareSuccessors(m, b, jump, row, col);
    GridOfMembers(f, SIDE_LENGTH, s);
  }

  /** The whole-board successors of a kind are non-empty exactly when some
      square yields a successor of that kind. */
  lemma BoardNonEmpty(m: Movement, b: BoardState, jump: bool)
    ensures |SuccessorsOfKind(m, b, jump)| > 0 <==>
            exists row, col :: 0 <= row < SIDE_LENGTH && 0 <= col < SIDE_LENGTH &&
              |SquareSuccessors(m, b, jump, row, col)| > 0
  {
    var f := SquareFn(m, b, jump);
    assert forall row, col :: f(row, col) == SquareSuccessors(m, b, jump, row, col);
    GridOfNonEmpty(f, SIDE_LENGTH);
  }

  // ---------------------------------------------------------------------
  // Mandatory capture

  lemma SquareCaptures(m: Movement, b: BoardState, row: int, col: int, s: BoardState)
    requires Owned(b, row, col)
    ensures s in SquareSuccessors(m, b, true, row, col) <==>
            !MarkerBlocks(b, row, col) &&
            exists dx, dy :: dx in m.Of(At(b, row, col).piece).xs && dy in m.Of(At(b, row, col).piece).ys &&
              JumpAt(m, b, At(b, row, col).piece, row, col, dy, dx, s)
  {
    var piece := At(b, row, col).piece;
    JumpGridMembers(m, b, piece, row, col, m.Of(piece).xs, m.Of(piece).ys, s);
  }

  lemma SquareSteps(m: Movement, b: BoardState, row: int, col: int, s: BoardState)
    requires Owned(b, row, col)
    ensures s in SquareSuccessors(m, b, false, row, col) <==>
            exists dx, dy :: dx in m.Of(At(b, row, col).piece).xs && dy in m.Of(At(b, row, col).piece).ys &&
              StepAt(m, b, At(b, row, col).piece, row, col, dy, dx, s)
  {
    var piece := At(b, row, col).piece;
    StepGridMembers(m, b, piece, row, col, m.Of(piece).xs, m.Of(piece).ys, s);
  }

  /** `getSuccessors(true)` yields exactly the captures. */
  lemma CapturesAre(m: Movement, b: BoardState, s: BoardState)
    ensures s in SuccessorsOfKind(m, b, true) <==> IsCapture(m, b, s)
  {
    BoardMembers(m, b, true, s);
    if s in SuccessorsOfKind(m, b, true) {
      var row, col :| 0 <= row < SIDE_LENGTH && 0 <= col < SIDE_LENGTH && s in SquareSuccessors(m, b, true, row, col);
      assert Owned(b, row, col);
      SquareCaptures(m, b, row, col, s);
      var piece := At(b, row, col).piece;
      var dx, dy :| dx in m.Of(piece).xs && dy in m.Of(piece).ys && JumpAt(m, b, piece, row, col, dy, dx, s);
      assert IsCapture(m, b, s);
    }
    if IsCapture(m, b, s) {
      var row, col, dx, dy :| Owned(b, row, col) && !MarkerBlocks(b, row, col) &&
        dx in m.Of(At(b, row, col).piece).xs && dy in m.Of(At(b, row, col).piece).ys &&
        JumpAt(m, b, At(b, row, col).piece, row, col, dy, dx, s);
      SquareCaptures(m, b, row, col, s);
      assert s in SquareSuccessors(m, b, true, row, col);
    }
  }

  /** `getSuccessors(false)` yields exactly the single steps. */
  lemma StepsAre(m: Movement, b: BoardState, s: BoardState)
    ensures s in SuccessorsOfKind(m, b, false) <==> IsStep(m, b, s)
  {
    BoardMembers(m, b, false, s);
    if s in SuccessorsOfKind(m, b, false) {
      var row, col :| 0 <= row < SIDE_LENGTH && 0 <= col < SIDE_LENGTH && s in SquareSuccessors(m, b, false, row, col);
      assert Owned(b, row, col);
      SquareSteps(m, b, row, col, s);
      var piece := At(b, row, col).piece;
      var dx, dy :| dx in m.Of(piece).xs && dy in m.Of(piece).ys && StepAt(m, b, piece, row, col, dy, dx, s);
      assert IsStep(m, b, s);
    }
    if IsStep(m, b, s) {
      var row, col, dx, dy :| Owned(b, row, col) &&
        dx in m.Of(At(b, row, col).piece).xs && dy in m.Of(At(b, row, col).piece).ys &&
        StepAt(m, b, At(b, row, col).piece, row, col, dy, dx, s);
      SquareSteps(m, b, row, col, s);
      assert s in SquareSuccessors(m, b, false, row, col);
    }
  }

  /** Some capture exists exactly when `getSuccessors(true)` is non-empty. */
  lemma CaptureExists(m: Movement, b: BoardState)
    ensures |SuccessorsOfKind(m, b, true)| > 0 <==> CanCapture(m, b)
  {
    BoardNonEmpty(m, b, true);
    if |SuccessorsOfKind(m, b, true)| > 0 {
      var row, col :| 0 <= row < SIDE_LENGTH && 0 <= col < SIDE_LENGTH && |SquareSuccessors(m, b, true, row, col)| > 0;
      assert Owned(b, row, col);
      JumpSuccessorsNonEmpty(m, b, At(b, row, col).piece, row, col);
      assert CanCapture(m, b);
    }
    if CanCapture(m, b) {
      var row, col :| Owned(b, row, col) && !MarkerBlocks(b, row, col) && HasJump(m, b, At(b, row, col).piece, row, col);
      JumpSuccessorsNonEmpty(m, b, At(b, row, col).piece, row, col);
      assert |SquareSuccessors(m, b, true, row, col)| > 0;
    }
  }

  /** Captures are mandatory: the successors of a position are its captures
      when it has one, and its single steps otherwise. */
  lemma MandatoryCapture(m: Movement, b: BoardState, s: BoardState)
    ensures s in Successors(m, b) <==> if CanCapture(m, b) then IsCapture(m, b, s) else IsStep(m, b, s)
  {
    CaptureExists(m, b);
    CapturesAre(m, b, s);
    StepsAre(m, b, s);
  }

  // ---------------------------------------------------------------------
  // The effect of one move

  /** A single step moves the piece (promoted on its far row), clears the
      origin, records the move and passes the turn; every other square and
      the piece counts are unchanged, and the king count changes only by a
      promotion. */
  lemma StepEffect(m: Movement, b: BoardState, row: int, col: int, dy: int, dx: int)
    requires Owned(b, row, col) && StepOK(b, row, col, dy, dx)
    ensures var piece := At(b, row, col).piece;
            var s := NewState(m, b, row, col, row + dy, col + dx, piece, false, dy, dx);
            && At(s, row + dy, col + dx) == Holds(Moved(piece, row + dy))
            && At(s, row, col) == Empty
            && (forall r, c :: IsValid(r, c) && (r, c) != (row, col) && (r, c) != (row + dy, col + dx) ==>
                  At(s, r, c) == At(b, r, c))
            && s.pieceCount == b.pieceCount
            && s.kingCount == KingsAfter(b, piece.owner, row + dy)
            && s.turn == b.turn.Opposite()
            && s.fromRow == row && s.fromCol == col && s.toRow == row + dy && s.toCol == col + dx
            && s.jumpRow == -1 && s.jumpCol == -1
  {
  }

  /** The state `createNewState` builds for a capture by (dy, dx) from (row, col). */
  function CaptureResult(m: Movement, b: BoardState, row: int, col: int, dy: int, dx: int): BoardState
    requires Owned(b, row, col) && JumpOK(b, At(b, row, col).piece, row, col, dy, dx)
  {
    NewState(m, b, row, col, row + 2 * dy, col + 2 * dx, At(b, row, col).piece, true, dy, dx)
  }

  /** A capture moves the piece two squares (promoted on its far row) and
      clears the origin and the jumped square; nothing else on the grid changes. */
  lemma CaptureCells(m: Movement, b: BoardState, row: int, col: int, dy: int, dx: int)
    requires Owned(b, row, col) && JumpOK(b, At(b, row, col).piece, row, col, dy, dx)
    ensures var piece := At(b, row, col).piece;
            var s := CaptureResult(m, b, row, col, dy, dx);
            && At(s, row + 2 * dy, col + 2 * dx) ==
               Holds(Moved(piece, row + 2 * dy))
            && At(s, row, col) == Empty
            && At(s, row + dy, col + dx) == Empty
            && (forall r, c ::
                  (IsValid(r, c) && (r, c) != (row, col) && (r, c) != (row + 2 * dy, col + 2 * dx) &&
                   (r, c) != (row + dy, col + dx)) ==> At(s, r, c) == At(b, r, c))
  {
    var piece := At(b, row, col).piece;
    var moved := Moved(piece, row + 2 * dy);
    CaptureGrid(m, b, row, col, dy, dx);
    GridCapture(b, row, col, dy, dx, moved, CaptureResult(m, b, row, col, dy, dx));
  }

  /** A board whose grid is that of `b` with a capture from (row, col) by
      (dy, dx) landing `moved` agrees with `b` off the three squares involved. */
  lemma GridCapture(b: BoardState, row: int, col: int, dy: int, dx: int, moved: Piece, s: BoardState)
    requires IsValid(row, col) && IsValid(row + dy, col + dx) && IsValid(row + 2 * dy, col + 2 * dx)
    requires dy != 0 || dx != 0
    requires s.cells == b.cells[Idx(row, col) := Empty][Idx(row + 2 * dy, col + 2 * dx) := Holds(moved)][Idx(row + dy, col + dx) := Empty]
    ensures At(s, row + 2 * dy, col + 2 * dx) == Holds(moved)
    ensures At(s, row, col) == Empty && At(s, row + dy, col + dx) == Empty
    ensures forall r, c ::
              (IsValid(r, c) && (r, c) != (row, col) && (r, c) != (row + 2 * dy, col + 2 * dx) &&
               (r, c) != (row + dy, col + dx)) ==> At(s, r, c) == At(b, r, c)
  {
    IdxInjective(row, col, row + 2 * dy, col + 2 * dx);
    IdxInjective(row, col, row + dy, col + dx);
    IdxInjective(row + 2 * dy, col + 2 * dx, row + dy, col + dx);
    forall r, c | IsValid(r, c) && (r, c) != (row, col) && (r, c) != (row + 2 * dy, col + 2 * dx) && (r, c) != (row + dy, col + dx)
      ensures At(s, r, c) == At(b, r, c)
    {
      IdxInjective(r, c, row, col);
      IdxInjective(r, c, row + 2 * dy, col + 2 * dx);
      IdxInjective(r, c, row + dy, col + dx);
    }
  }

  /** `isValid` accepts exactly the squares of the flat 64-cell grid, and a
      square's index decodes back to its row and column. */
  lemma ValidSquares(row: int, col: int)
    ensures IsValid(row, col) <==> 0 <= col < SIDE_LENGTH && 0 <= SIDE_LENGTH * row + col < NO_SQUARES
    ensures IsValid(row, col) ==> Idx(row, col) / SIDE_LENGTH == row && Idx(row, col) % SIDE_LENGTH == col
  {
  }

  /** A side's king row is the one row at least five rows away from every
      square it starts on: row 7 for the computer, row 0 for the person. */
  lemma KingRowIsFarthest(row: int, p: Player)
    ensures IsKingPosition(row, p) <==>
              0 <= row < SIDE_LENGTH &&
              forall r, c :: IsValid(r, c) && InitialCell(r, c) == Holds(Piece(p, false)) ==> r - row >= 5 || row - r >= 5
  {
    if !IsKingPosition(row, p) && 0 <= row < SIDE_LENGTH {
      var (r, c) := if p == Ai then (2, 1) else (5, 0);
      assert IsValid(r, c) && InitialCell(r, c) == Holds(Piece(p, false));
    }
  }

  /** Distinct squares have distinct indices in the grid. */
  lemma IdxInjective(r1: int, c1: int, r2: int, c2: int)
    requires IsValid(r1, c1) && IsValid(r2, c2) && (r1, c1) != (r2, c2)
    ensures Idx(r1, c1) != Idx(r2, c2)
  {
  }

  /** A capture lowers the opponent's piece count by one and leaves the
      opponent's king count as it was, even when the captured piece is a
      king; the mover's king count rises by one on a promotion.  The move is
      recorded. */
  lemma CaptureRecord(m: Movement, b: BoardState, row: int, col: int, dy: int, dx: int)
    requires Owned(b, row, col) && JumpOK(b, At(b, row, col).piece, row, col, dy, dx)
    ensures var piece := At(b, row, col).piece;
            var s := CaptureResult(m, b, row, col, dy, dx);
            && s.pieceCount.Get(piece.owner) == b.pieceCount.Get(piece.owner)
            && s.pieceCount.Get(piece.owner.Opposite()) == b.pieceCount.Get(piece.owner.Opposite()) - 1
            && s.kingCount == KingsAfter(b, piece.owner, row + 2 * dy)
    ensures var s := CaptureResult(m, b, row, col, dy, dx);
            s.fromRow == row && s.fromCol == col && s.toRow == row + 2 * dy && s.toCol == col + 2 * dx
  {
    var piece := At(b, row, col).piece;
    var (nr, nc) := (row + 2 * dy, col + 2 * dx);
    CaptureShape(m, b, row, col, nr, nc, piece, dy, dx);
  }

  /** The turn stays with the mover, and the landing square becomes the
      multi-jump marker, exactly when there was no promotion and the piece
      can jump again from there; otherwise the turn passes and the marker is
      unset. */
  lemma CaptureTurnRule(m: Movement, b: BoardState, row: int, col: int, dy: int, dx: int)
    requires Owned(b, row, col) && JumpOK(b, At(b, row, col).piece, row, col, dy, dx)
    ensures var piece := At(b, row, col).piece;
            var (nr, nc) := (row + 2 * dy, col + 2 * dx);
            var s := CaptureResult(m, b, row, col, dy, dx);
            s.turn == piece.owner <==> !IsKingPosition(nr, piece.owner) && HasJump(m, s, piece, nr, nc)
    ensures var piece := At(b, row, col).piece;
            var s := CaptureResult(m, b, row, col, dy, dx);
            s.turn != piece.owner ==> s.turn == piece.owner.Opposite() && s.jumpRow == -1 && s.jumpCol == -1
    ensures var piece := At(b, row, col).piece;
            var s := CaptureResult(m, b, row, col, dy, dx);
            s.turn == piece.owner ==> s.jumpRow == row + 2 * dy && s.jumpCol == col + 2 * dx
  {
    var piece := At(b, row, col).piece;
    var (nr, nc) := (row + 2 * dy, col + 2 * dx);
    var s := CaptureResult(m, b, row, col, dy, dx);
    var mid := CaptureMid(b, row, col, nr, nc, piece, dy, dx);
    CaptureShape(m, b, row, col, nr, nc, piece, dy, dx);
    CaptureTurn(m, s, mid, piece, nr, nc, IsKingPosition(nr, piece.owner));
  }

  /** The turn rule of a capture: a state built as `createNewState` builds
      it after a capture keeps the turn exactly when the landed piece was not
      crowned and can jump again. */
  lemma CaptureTurn(m: Movement, s: BoardState, mid: BoardState, piece: Piece, newRow: int, newCol: int, promote: bool)
    requires mid.turn != piece.owner
    requires s == if HasJump(m, mid, if promote then Piece(piece.owner, true) else piece, newRow, newCol) && !promote
                  then mid.(turn := piece.owner, jumpRow := newRow, jumpCol := newCol) else mid
    ensures s.turn == piece.owner <==> !promote && HasJump(m, s, piece, newRow, newCol)
  {
    HasJumpCells(m, s, mid, piece, newRow, newCol);
  }

  /** The capture branch of `NewState`, unfolded for the lemmas below. */
  lemma CaptureShape(m: Movement, b: BoardState, row: int, col: int, newRow: int, newCol: int,
                     piece: Piece, dy: int, dx: int)
    requires IsValid(row, col) && IsValid(newRow, newCol) && IsValid(newRow - dy, newCol - dx)
    ensures var mid := CaptureMid(b, row, col, newRow, newCol, piece, dy, dx);
            NewState(m, b, row, col, newRow, newCol, piece, true, dy, dx) ==
              if HasJump(m, mid, Moved(piece, newRow), newRow, newCol) && !IsKingPosition(newRow, piece.owner)
              then mid.(turn := piece.owner, jumpRow := newRow, jumpCol := newCol) else mid
  {
  }


  /** Whether a piece can jump depends on the grid alone. */
  lemma HasJumpCells(m: Movement, b1: BoardState, b2: BoardState, piece: Piece, row: int, col: int)
    requires b1.cells == b2.cells
    ensures HasJump(m, b1, piece, row, col) == HasJump(m, b2, piece, row, col)
  {
    HasJumpIff(m, b1, piece, row, col);
    HasJumpIff(m, b2, piece, row, col);
    if HasJump(m, b1, piece, row, col) {
      var dx, dy :| dx in m.Of(piece).xs && dy in m.Of(piece).ys && JumpOK(b1, piece, row, col, dy, dx);
      assert JumpOK(b2, piece, row, col, dy, dx);
    }
    if HasJump(m, b2, piece, row, col) {
      var dx, dy :| dx in m.Of(piece).xs && dy in m.Of(piece).ys && JumpOK(b2, piece, row, col, dy, dx);
      assert JumpOK(b1, piece, row, col, dy, dx);
    }
  }

  // ---------------------------------------------------------------------
  // Multi-jump continuation

  /** A capture starts on a square the marker of `b` does not exclude and
      records that square as the origin of the move. */
  lemma CaptureOrigin(m: Movement, b: BoardState, t: BoardState)
    requires IsCapture(m, b, t)
    ensures Owned(b, t.fromRow, t.fromCol) && !MarkerBlocks(b, t.fromRow, t.fromCol)
  {
    var row, col, dx, dy :| Owned(b, row, col) && !MarkerBlocks(b, row, col) &&
      dx in m.Of(At(b, row, col).piece).xs && dy in m.Of(At(b, row, col).piece).ys &&
      JumpAt(m, b, At(b, row, col).piece, row, col, dy, dx, t);
    assert t.fromRow == row && t.fromCol == col;
  }

  /** In a state whose marker is on a square holding a piece of the side to
      move that can jump, that side must capture, and while the marker is
      not on (0, 0) every capture starts on the marker's row or column. */
  lemma MarkedCapture(m: Movement, s: BoardState, t: BoardState)
    requires Owned(s, s.jumpRow, s.jumpCol)
    requires HasJump(m, s, At(s, s.jumpRow, s.jumpCol).piece, s.jumpRow, s.jumpCol)
    ensures CanCapture(m, s)
    ensures t in Successors(m, s) ==>
              IsCapture(m, s, t) &&
              (s.jumpRow > 0 || s.jumpCol > 0 ==> t.fromRow == s.jumpRow || t.fromCol == s.jumpCol)
  {
    assert !MarkerBlocks(s, s.jumpRow, s.jumpCol);
    if t in Successors(m, s) {
      MandatoryCapture(m, s, t);
      CaptureOrigin(m, s, t);
    }
  }

  /** When a capture keeps the turn, the mover must capture again: every
      successor is a capture, and while the landing square is not (0, 0) it
      starts on the landing square's row or column (the marker only rules out
      squares that differ from it in both coordinates, and a marker on (0, 0)
      rules out nothing). */
  lemma ContinuationConfined(m: Movement, b: BoardState, row: int, col: int, dy: int, dx: int, t: BoardState)
    requires Owned(b, row, col) && JumpOK(b, At(b, row, col).piece, row, col, dy, dx)
    requires CaptureResult(m, b, row, col, dy, dx).turn == b.turn
    ensures CanCapture(m, CaptureResult(m, b, row, col, dy, dx))
    ensures t in Successors(m, CaptureResult(m, b, row, col, dy, dx)) ==>
              IsCapture(m, CaptureResult(m, b, row, col, dy, dx), t) &&
              (row + 2 * dy > 0 || col + 2 * dx > 0 ==> t.fromRow == row + 2 * dy || t.fromCol == col + 2 * dx)
  {
    var s := CaptureResult(m, b, row, col, dy, dx);
    var piece := At(b, row, col).piece;
    var (nr, nc) := (row + 2 * dy, col + 2 * dx);
    CaptureGrid(m, b, row, col, dy, dx);
    IdxInjective(nr, nc, row + dy, col + dx);
    CaptureTurnRule(m, b, row, col, dy, dx);
    assert At(s, nr, nc) == Holds(piece);
    MarkedCaptureAt(m, s, t, piece, nr, nc);
  }

  /** `MarkedCapture` for a marker on (r, c) holding `piece` of the side to move. */
  lemma MarkedCaptureAt(m: Movement, s: BoardState, t: BoardState, piece: Piece, r: int, c: int)
    requires IsValid(r, c) && s.jumpRow == r && s.jumpCol == c
    requires At(s, r, c) == Holds(piece) && piece.owner == s.turn
    requires HasJump(m, s, piece, r, c)
    ensures CanCapture(m, s)
    ensures t in Successors(m, s) ==> IsCapture(m, s, t) && (r > 0 || c > 0 ==> t.fromRow == r || t.fromCol == c)
  {
    MarkedCapture(m, s, t);
  }

  // ---------------------------------------------------------------------
  // The piece and king counts

  /** A cell's contribution to the count of `p`'s pieces (or kings only). */
  function Weight(c: Cell, p: Player, kingsOnly: bool): nat
  {
    if c.Holds? && c.piece.owner == p && (!kingsOnly || c.piece.isKing) then 1 else 0
  }

  /** The number of pieces (or kings) of `p` among the first `n` squares of `g`. */
  function CountOf(g: Grid, p: Player, kingsOnly: bool, n: nat): (k: nat)
    requires n <= NO_SQUARES
    ensures k <= n
  {
    if n == 0 then 0 else CountOf(g, p, kingsOnly, n - 1) + Weight(g[n - 1], p, kingsOnly)
  }

  /** The counts a state carries agree with its grid. */
  ghost predicate CountsMatch(b: BoardState)
  {
    forall p: Player ::
      b.pieceCount.Get(p) == CountOf(b.cells, p, false, NO_SQUARES) &&
      b.kingCount.Get(p) == CountOf(b.cells, p, true, NO_SQUARES)
  }

  /** Overwriting one square changes a count by the difference of the two cells' weights. */
  lemma {:induction false} CountUpdate(g: Grid, i: nat, c: Cell, p: Player, kingsOnly: bool, n: nat)
    requires i < NO_SQUARES && n <= NO_SQUARES
    ensures CountOf(g[i := c], p, kingsOnly, n) ==
            CountOf(g, p, kingsOnly, n) + (if i < n then Weight(c, p, kingsOnly) - Weight(g[i], p, kingsOnly) else 0)
  {
    if n > 0 {
      CountUpdate(g, i, c, p, kingsOnly, n - 1);
    }
  }

  /** The grid of a step: the origin emptied, the destination filled. */
  lemma StepCells(m: Movement, b: BoardState, row: int, col: int, dy: int, dx: int)
    requires Owned(b, row, col) && StepOK(b, row, col, dy, dx)
    ensures var piece := At(b, row, col).piece;
            var moved := Moved(piece, row + dy);
            NewState(m, b, row, col, row + dy, col + dx, piece, false, dy, dx).cells ==
              b.cells[Idx(row, col) := Empty][Idx(row + dy, col + dx) := Holds(moved)]
  {
  }

  /** The grid of a capture: the origin and the jumped square emptied, the landing square filled. */
  lemma CaptureGrid(m: Movement, b: BoardState, row: int, col: int, dy: int, dx: int)
    requires Owned(b, row, col) && JumpOK(b, At(b, row, col).piece, row, col, dy, dx)
    ensures var piece := At(b, row, col).piece;
            var moved := Moved(piece, row + 2 * dy);
            CaptureResult(m, b, row, col, dy, dx).cells ==
              b.cells[Idx(row, col) := Empty][Idx(row + 2 * dy, col + 2 * dx) := Holds(moved)][Idx(row + dy, col + dx) := Empty]
  {
  }

  /** The grid counts after a move of `piece` from square `o` to the empty
      square `d`: the mover's pieces are unchanged, its kings change only by a
      promotion of a man, and the other side is untouched. */
  lemma MoveCounts(g: Grid, o: nat, d: nat, piece: Piece, moved: Piece, promoted: bool, p: Player, kingsOnly: bool)
    requires o < NO_SQUARES && d < NO_SQUARES && o != d
    requires g[o] == Holds(piece) && g[d] == Empty
    requires moved.owner == piece.owner && (moved.isKing <==> piece.isKing || promoted)
    ensures CountOf(g[o := Empty][d := Holds(moved)], p, kingsOnly, NO_SQUARES) ==
            CountOf(g, p, kingsOnly, NO_SQUARES) +
            (if p == piece.owner && kingsOnly && promoted && !piece.isKing then 1 else 0)
  {
    CountUpdate(g, o, Empty, p, kingsOnly, NO_SQUARES);
    CountUpdate(g[o := Empty], d, Holds(moved), p, kingsOnly, NO_SQUARES);
  }

  /** A step keeps the counts in agreement with the grid, except when a king
      steps onto its own far row: `createNewState` then counts a new king
      although none was crowned, so the mover's king count runs one ahead. */
  lemma StepCounts(m: Movement, b: BoardState, row: int, col: int, dy: int, dx: int)
    requires CountsMatch(b)
    requires Owned(b, row, col) && StepOK(b, row, col, dy, dx)
    ensures var piece := At(b, row, col).piece;
            var s := NewState(m, b, row, col, row + dy, col + dx, piece, false, dy, dx);
            && (!(piece.isKing && IsKingPosition(row + dy, piece.owner)) ==> CountsMatch(s))
            && (piece.isKing && IsKingPosition(row + dy, piece.owner) ==>
                  s.kingCount.Get(piece.owner) == CountOf(s.cells, piece.owner, true, NO_SQUARES) + 1)
  {
    var piece := At(b, row, col).piece;
    var s := NewState(m, b, row, col, row + dy, col + dx, piece, false, dy, dx);
    var promoted := IsKingPosition(row + dy, piece.owner);
    StepCells(m, b, row, col, dy, dx);
    IdxInjective(row, col, row + dy, col + dx);
    forall p: Player, kingsOnly: bool
      ensures CountOf(s.cells, p, kingsOnly, NO_SQUARES) ==
              CountOf(b.cells, p, kingsOnly, NO_SQUARES) +
              (if p == piece.owner && kingsOnly && promoted && !piece.isKing then 1 else 0)
    {
      MoveCounts(b.cells, Idx(row, col), Idx(row + dy, col + dx), piece, Moved(piece, row + dy), promoted, p, kingsOnly);
    }
  }

  /** A capture keeps the counts in agreement with the grid when the
      captured piece is a man and the mover is not a king reaching its far
      row.  Capturing a king leaves the opponent's king count one too high,
      because `createNewState` lowers only the piece count. */
  lemma CaptureCounts(m: Movement, b: BoardState, row: int, col: int, dy: int, dx: int)
    requires CountsMatch(b)
    requires Owned(b, row, col) && JumpOK(b, At(b, row, col).piece, row, col, dy, dx)
    ensures var piece := At(b, row, col).piece;
            var victim := At(b, row + dy, col + dx).piece;
            var s := CaptureResult(m, b, row, col, dy, dx);
            && (!victim.isKing && !(piece.isKing && IsKingPosition(row + 2 * dy, piece.owner)) ==> CountsMatch(s))
            && (victim.isKing ==>
                  s.kingCount.Get(victim.owner) == CountOf(s.cells, victim.owner, true, NO_SQUARES) + 1)
  {
    var piece := At(b, row, col).piece;
    var victim := At(b, row + dy, col + dx).piece;
    var s := CaptureResult(m, b, row, col, dy, dx);
    var promoted := IsKingPosition(row + 2 * dy, piece.owner);
    var (o, d, j) := (Idx(row, col), Idx(row + 2 * dy, col + 2 * dx), Idx(row + dy, col + dx));
    CaptureGrid(m, b, row, col, dy, dx);
    CaptureRecord(m, b, row, col, dy, dx);
    IdxInjective(row, col, row + 2 * dy, col + 2 * dx);
    IdxInjective(row, col, row + dy, col + dx);
    IdxInjective(row + 2 * dy, col + 2 * dx, row + dy, col + dx);
    CaptureGridCounts(b.cells, o, d, j, piece, Moved(piece, row + 2 * dy), promoted, victim, s.cells);
  }

  /** The grid counts after a capture by `piece` from square `o` to the empty
      square `d` over `victim` on square `j`. */
  lemma CaptureGridCounts(g: Grid, o: nat, d: nat, j: nat, piece: Piece, moved: Piece, promoted: bool, victim: Piece, g': Grid)
    requires o < NO_SQUARES && d < NO_SQUARES && j < NO_SQUARES && o != d && o != j && d != j
    requires g[o] == Holds(piece) && g[d] == Empty && g[j] == Holds(victim)
    requires moved.owner == piece.owner && (moved.isKing <==> piece.isKing || promoted)
    requires g' == g[o := Empty][d := Holds(moved)][j := Empty]
    ensures forall p: Player, kingsOnly: bool ::
              CountOf(g', p, kingsOnly, NO_SQUARES) ==
              CountOf(g, p, kingsOnly, NO_SQUARES) +
              (if p == piece.owner && kingsOnly && promoted && !piece.isKing then 1 else 0) -
              Weight(Holds(victim), p, kingsOnly)
  {
    var g1 := g[o := Empty][d := Holds(moved)];
    forall p: Player, kingsOnly: bool
      ensures CountOf(g', p, kingsOnly, NO_SQUARES) ==
              CountOf(g, p, kingsOnly, NO_SQUARES) +
              (if p == piece.owner && kingsOnly && promoted && !piece.isKing then 1 else 0) -
              Weight(Holds(victim), p, kingsOnly)
    {
      MoveCounts(g, o, d, piece, moved, promoted, p, kingsOnly);
      CountUpdate(g1, j, Empty, p, kingsOnly, NO_SQUARES);
    }
  }


  /** The king counts after `piece` moves from (row, col) to (newRow, newCol). */
  lemma NewStateKings(m: Movement, b: BoardState, row: int, col: int, newRow: int, newCol: int,
                      piece: Piece, jumped: bool, dy: int, dx: int)
    requires IsValid(row, col) && IsValid(newRow, newCol)
    requires jumped ==> IsValid(newRow - dy, newCol - dx)
    ensures NewState(m, b, row, col, newRow, newCol, piece, jumped, dy, dx).kingCount == KingsAfter(b, piece.owner, newRow)
    ensures NewState(m, b, row, col, newRow, newCol, piece, jumped, dy, dx).toRow == newRow
  {
  }

  /** A step's king counts. */
  lemma StepKings(m: Movement, b: BoardState, s: BoardState)
    requires IsStep(m, b, s)
    ensures s.kingCount == KingsAfter(b, b.turn, s.toRow)
  {
    var row, col, dx, dy :| Owned(b, row, col) &&
      dx in m.Of(At(b, row, col).piece).xs && dy in m.Of(At(b, row, col).piece).ys &&
      StepAt(m, b, At(b, row, col).piece, row, col, dy, dx, s);
    NewStateKings(m, b, row, col, row + dy, col + dx, At(b, row, col).piece, false, dy, dx);
  }

  /** A capture's king counts. */
  lemma CaptureKings(m: Movement, b: BoardState, s: BoardState)
    requires IsCapture(m, b, s)
    ensures s.kingCount == KingsAfter(b, b.turn, s.toRow)
  {
    var row, col, dx, dy :| Owned(b, row, col) && !MarkerBlocks(b, row, col) &&
      dx in m.Of(At(b, row, col).piece).xs && dy in m.Of(At(b, row, col).piece).ys &&
      JumpAt(m, b, At(b, row, col).piece, row, col, dy, dx, s);
    NewStateKings(m, b, row, col, row + 2 * dy, col + 2 * dx, At(b, row, col).piece, true, dy, dx);
  }

  /** Every successor carries the king counts of its parent, raised by one
      for the mover exactly when the moved piece lands on the mover's far row. */
  lemma SuccessorKings(m: Movement, b: BoardState, s: BoardState)
    requires s in Successors(m, b)
    ensures s.kingCount == KingsAfter(b, b.turn, s.toRow)
  {
    MandatoryCapture(m, b, s);
    if CanCapture(m, b) {
      CaptureKings(m, b, s);
    } else {
      StepKings(m, b, s);
    }
  }

  /** Each side's piece count is the number of its pieces on the grid. */
  ghost predicate PiecesMatch(b: BoardState)
  {
    forall p: Player :: b.pieceCount.Get(p) == CountOf(b.cells, p, false, NO_SQUARES)
  }

  /** A step keeps the piece counts in agreement with the grid. */
  lemma StepPieces(m: Movement, b: BoardState, row: int, col: int, dy: int, dx: int)
    requires PiecesMatch(b)
    requires Owned(b, row, col) && StepOK(b, row, col, dy, dx)
    ensures PiecesMatch(NewState(m, b, row, col, row + dy, col + dx, At(b, row, col).piece, false, dy, dx))
  {
    var piece := At(b, row, col).piece;
    var s := NewState(m, b, row, col, row + dy, col + dx, piece, false, dy, dx);
    StepCells(m, b, row, col, dy, dx);
    IdxInjective(row, col, row + dy, col + dx);
    forall p: Player
      ensures s.pieceCount.Get(p) == CountOf(s.cells, p, false, NO_SQUARES)
    {
      MoveCounts(b.cells, Idx(row, col), Idx(row + dy, col + dx), piece, Moved(piece, row + dy),
                 IsKingPosition(row + dy, piece.owner), p, false);
    }
  }

  /** A capture keeps the piece counts in agreement with the grid, whether
      the captured piece is a man or a king. */
  lemma CapturePieces(m: Movement, b: BoardState, row: int, col: int, dy: int, dx: int)
    requires PiecesMatch(b)
    requires Owned(b, row, col) && JumpOK(b, At(b, row, col).piece, row, col, dy, dx)
    ensures PiecesMatch(CaptureResult(m, b, row, col, dy, dx))
  {
    var piece := At(b, row, col).piece;
    var victim := At(b, row + dy, col + dx).piece;
    var s := CaptureResult(m, b, row, col, dy, dx);
    var (o, d, j) := (Idx(row, col), Idx(row + 2 * dy, col + 2 * dx), Idx(row + dy, col + dx));
    CaptureGrid(m, b, row, col, dy, dx);
    CaptureRecord(m, b, row, col, dy, dx);
    IdxInjective(row, col, row + 2 * dy, col + 2 * dx);
    IdxInjective(row, col, row + dy, col + dx);
    IdxInjective(row + 2 * dy, col + 2 * dx, row + dy, col + dx);
    CaptureGridCounts(b.cells, o, d, j, piece, Moved(piece, row + 2 * dy), IsKingPosition(row + 2 * dy, piece.owner),
                      victim, s.cells);
    forall p: Player
      ensures s.pieceCount.Get(p) == CountOf(s.cells, p, false, NO_SQUARES)
    {
      if p != piece.owner {
        assert p == piece.owner.Opposite();
      }
    }
  }

  /** Every move keeps each side's piece count equal to the number of its
      pieces on the grid: unlike the king counts, the piece counts never
      drift. */
  lemma SuccessorPieces(m: Movement, b: BoardState, s: BoardState)
    requires PiecesMatch(b) && s in Successors(m, b)
    ensures PiecesMatch(s)
  {
    MandatoryCapture(m, b, s);
    if CanCapture(m, b) {
      var row, col, dx, dy :| Owned(b, row, col) && !MarkerBlocks(b, row, col) &&
        dx in m.Of(At(b, row, col).piece).xs && dy in m.Of(At(b, row, col).piece).ys &&
        JumpAt(m, b, At(b, row, col).piece, row, col, dy, dx, s);
      CapturePieces(m, b, row, col, dy, dx);
    } else {
      var row, col, dx, dy :| Owned(b, row, col) &&
        dx in m.Of(At(b, row, col).piece).xs && dy in m.Of(At(b, row, col).piece).ys &&
        StepAt(m, b, At(b, row, col).piece, row, col, dy, dx, s);
      StepPieces(m, b, row, col, dy, dx);
    }
  }

  /** A side's count is zero exactly when none of the first `n` squares holds one of its pieces. */
  lemma {:induction false} CountZero(g: Grid, p: Player, n: nat)
    requires n <= NO_SQUARES
    ensures CountOf(g, p, false, n) == 0 <==> forall k :: 0 <= k < n ==> !(g[k].Holds? && g[k].piece.owner == p)
  {
    if n > 0 {
      CountZero(g, p, n - 1);
    }
  }

  /** No square of `b` holds a piece of `p`. */
  ghost predicate NoPieces(b: BoardState, p: Player)
  {
    forall k :: 0 <= k < NO_SQUARES ==> !(b.cells[k].Holds? && b.cells[k].piece.owner == p)
  }

  /** While the piece counts agree with the grid, `isGameOver` holds exactly
      when one side has no piece left on the board. */
  lemma GameOverIsEmptySide(b: BoardState)
    requires PiecesMatch(b)
    ensures IsGameOver(b) <==> NoPieces(b, Ai) || NoPieces(b, Human)
  {
    CountZero(b.cells, Ai, NO_SQUARES);
    CountZero(b.cells, Human, NO_SQUARES);
    assert b.pieceCount.Get(Ai) == CountOf(b.cells, Ai, false, NO_SQUARES);
    assert b.pieceCount.Get(Human) == CountOf(b.cells, Human, false, NO_SQUARES);
  }

  /** The count over the first `8 * r + 8` squares adds the eight squares of row `r`. */
  lemma CountRow(g: Grid, p: Player, kingsOnly: bool, r: nat)
    requires r < SIDE_LENGTH
    ensures CountOf(g, p, kingsOnly, 8 * r + 8) ==
            CountOf(g, p, kingsOnly, 8 * r) +
            Weight(g[8 * r], p, kingsOnly) + Weight(g[8 * r + 1], p, kingsOnly) +
            Weight(g[8 * r + 2], p, kingsOnly) + Weight(g[8 * r + 3], p, kingsOnly) +
            Weight(g[8 * r + 4], p, kingsOnly) + Weight(g[8 * r + 5], p, kingsOnly) +
            Weight(g[8 * r + 6], p, kingsOnly) + Weight(g[8 * r + 7], p, kingsOnly)
  {
    var n := 8 * r;
    assert CountOf(g, p, kingsOnly, n + 8) == CountOf(g, p, kingsOnly, n + 7) + Weight(g[n + 7], p, kingsOnly);
    assert CountOf(g, p, kingsOnly, n + 7) == CountOf(g, p, kingsOnly, n + 6) + Weight(g[n + 6], p, kingsOnly);
    assert CountOf(g, p, kingsOnly, n + 6) == CountOf(g, p, kingsOnly, n + 5) + Weight(g[n + 5], p, kingsOnly);
    assert CountOf(g, p, kingsOnly, n + 5) == CountOf(g, p, kingsOnly, n + 4) + Weight(g[n + 4], p, kingsOnly);
    assert CountOf(g, p, kingsOnly, n + 4) == CountOf(g, p, kingsOnly, n + 3) + Weight(g[n + 3], p, kingsOnly);
    assert CountOf(g, p, kingsOnly, n + 3) == CountOf(g, p, kingsOnly, n + 2) + Weight(g[n + 2], p, kingsOnly);
    assert CountOf(g, p, kingsOnly, n + 2) == CountOf(g, p, kingsOnly, n + 1) + Weight(g[n + 1], p, kingsOnly);
  }

  /** `g` holds the opening layout. */
  predicate IsInitialGrid(g: Grid)
  {
    forall k :: 0 <= k < NO_SQUARES ==> g[k] == InitialCell(k / 8, k % 8)
  }

  /** The weight of square (r, c) of the opening layout: a man on the dark
      squares, where the parities of row and column differ. */
  lemma InitialWeight(g: Grid, p: Player, kingsOnly: bool, r: nat, c: nat)
    requires IsInitialGrid(g) && r < SIDE_LENGTH && c < SIDE_LENGTH
    ensures Weight(g[8 * r + c], p, kingsOnly) ==
            if !kingsOnly && r % 2 != c % 2 && ((p == Ai && r < 3) || (p == Human && r > 4)) then 1 else 0
  {
    assert (8 * r + c) / 8 == r && (8 * r + c) % 8 == c;
    assert (r + c) % 2 == 1 <==> r % 2 != c % 2;
  }

  /** The number of pieces (or kings) of `p` in row `r` of the opening layout. */
  lemma InitialRow(g: Grid, p: Player, kingsOnly: bool, r: nat)
    requires IsInitialGrid(g) && r < SIDE_LENGTH
    ensures CountOf(g, p, kingsOnly, 8 * r + 8) ==
            CountOf(g, p, kingsOnly, 8 * r) +
            (if kingsOnly then 0 else if (p == Ai && r < 3) || (p == Human && r > 4) then 4 else 0)
  {
    CountRow(g, p, kingsOnly, r);
    InitialWeight(g, p, kingsOnly, r, 0);
    InitialWeight(g, p, kingsOnly, r, 1);
    InitialWeight(g, p, kingsOnly, r, 2);
    InitialWeight(g, p, kingsOnly, r, 3);
    InitialWeight(g, p, kingsOnly, r, 4);
    InitialWeight(g, p, kingsOnly, r, 5);
    InitialWeight(g, p, kingsOnly, r, 6);
    InitialWeight(g, p, kingsOnly, r, 7);
  }

  /** The rows of the opening layout before row `r` that hold men of `p`. */
  function InitialRowsBefore(p: Player, r: nat): nat
  {
    if p == Ai then (if r < 3 then r else 3) else (if r > 5 then r - 5 else 0)
  }

  /** The first `r` rows of the opening layout hold four men of `p` per row
      of `p`'s home rows, and no kings. */
  lemma {:induction false} InitialPrefix(g: Grid, p: Player, kingsOnly: bool, r: nat)
    requires IsInitialGrid(g) && r <= SIDE_LENGTH
    ensures CountOf(g, p, kingsOnly, 8 * r) == if kingsOnly then 0 else 4 * InitialRowsBefore(p, r)
  {
    if r > 0 {
      InitialPrefix(g, p, kingsOnly, r - 1);
      InitialRow(g, p, kingsOnly, r - 1);
    }
  }

  /** The whole opening layout holds twelve men a side and no kings. */
  lemma InitialTotal(g: Grid, p: Player, kingsOnly: bool)
    requires IsInitialGrid(g)
    ensures CountOf(g, p, kingsOnly, NO_SQUARES) == if kingsOnly then 0 else 12
  {
    InitialPrefix(g, p, kingsOnly, 8);
  }

  /** A state on the opening grid with 12/12 pieces and 0/0 kings has counts
      that agree with its grid. */
  lemma InitialStateCounts(b: BoardState)
    requires IsInitialGrid(b.cells) && b.pieceCount == Tally(12, 12) && b.kingCount == Tally(0, 0)
    ensures CountsMatch(b)
  {
    InitialTotal(b.cells, Ai, false);
    InitialTotal(b.cells, Ai, true);
    InitialTotal(b.cells, Human, false);
    InitialTotal(b.cells, Human, true);
  }

  /** The grid `InitialState` lays out is the opening grid. */
  lemma InitialGridLayout()
    ensures IsInitialGrid(InitialGrid())
  {
  }

  /** The opening layout has twelve men a side on the dark squares of the
      three rows nearest each player and no kings, in agreement with the
      counts `InitialState` sets. */
  lemma InitialCounts(first: Player)
    ensures CountsMatch(InitialBoard(first))
    ensures forall row, col :: IsValid(row, col) ==> At(InitialBoard(first), row, col) == InitialCell(row, col)
  {
    var b := InitialBoard(first);
    InitialGridLayout();
    InitialStateCounts(b);
    forall row, col | IsValid(row, col)
      ensures At(b, row, col) == InitialCell(row, col)
    {
      assert (8 * row + col) / 8 == row && (8 * row + col) % 8 == col;
    }
  }

  /** The piece counts agree with the grid from the opening position on. */
  lemma InitialPieces(first: Player)
    ensures PiecesMatch(InitialBoard(first))
  {
    InitialCounts(first);
  }

  // ---------------------------------------------------------------------
  // The moves of one square

  /** A successor of one square records that square as its origin. */
  lemma SquareOrigin(m: Movement, b: BoardState, jump: bool, row: int, col: int, t: BoardState)
    requires t in SquareSuccessors(m, b, jump, row, col)
    ensures t.fromRow == row && t.fromCol == col
  {
    var piece := At(b, row, col).piece;
    if jump {
      SquareCaptures(m, b, row, col, t);
      var dx, dy :| dx in m.Of(piece).xs && dy in m.Of(piece).ys && JumpAt(m, b, piece, row, col, dy, dx, t);
    } else {
      SquareSteps(m, b, row, col, t);
      var dx, dy :| dx in m.Of(piece).xs && dy in m.Of(piece).ys && StepAt(m, b, piece, row, col, dy, dx, t);
    }
  }

  /** `getSuccessors(row, col)` fails off the board, on an empty square and on
      a piece of the side not to move, and succeeds on a piece of the side to move. */
  lemma SquareMovesErrors(m: Movement, b: BoardState, row: int, col: int)
    ensures SquareMoves(m, b, row, col) == Err(OffBoard) <==> !IsValid(row, col)
    ensures SquareMoves(m, b, row, col) == Err(EmptySquare) <==> IsValid(row, col) && At(b, row, col) == Empty
    ensures SquareMoves(m, b, row, col) == Err(NotTurnsPiece) <==>
              IsValid(row, col) && At(b, row, col).Holds? && At(b, row, col).piece.owner != b.turn
    ensures SquareMoves(m, b, row, col).Ok? <==> Owned(b, row, col)
  {
  }

  /** For a piece of the side to move, `getSuccessors(row, col)` yields
      exactly those successors of the whole position that start on (row,
      col): a piece without a capture has no moves while another piece can
      capture. */
  lemma SquareMovesAre(m: Movement, b: BoardState, row: int, col: int, t: BoardState)
    requires Owned(b, row, col)
    ensures SquareMoves(m, b, row, col).Ok?
    ensures t in SquareMoves(m, b, row, col).value <==>
              t in Successors(m, b) && t.fromRow == row && t.fromCol == col
  {
    var jump := |SuccessorsOfKind(m, b, true)| > 0;
    assert SquareMoves(m, b, row, col).value == SquareSuccessors(m, b, jump, row, col);
    assert Successors(m, b) == SuccessorsOfKind(m, b, jump);
    SquareKindMembers(m, b, jump, row, col, t);
  }

  /** The successors of one square of a kind are the successors of that
      kind of the whole position that start on the square. */
  lemma SquareKindMembers(m: Movement, b: BoardState, jump: bool, row: int, col: int, t: BoardState)
    requires IsValid(row, col)
    ensures t in SquareSuccessors(m, b, jump, row, col) <==>
              t in SuccessorsOfKind(m, b, jump) && t.fromRow == row && t.fromCol == col
  {
    if t in SquareSuccessors(m, b, jump, row, col) {
      BoardMembers(m, b, jump, t);
      SquareOrigin(m, b, jump, row, col, t);
    }
    if t in SuccessorsOfKind(m, b, jump) && t.fromRow == row && t.fromCol == col {
      KindMemberOrigin(m, b, jump, t);
    }
  }

  /** A successor of a kind of the whole position is among the successors
      of that kind of the square it starts on. */
  lemma KindMemberOrigin(m: Movement, b: BoardState, jump: bool, t: BoardState)
    requires t in SuccessorsOfKind(m, b, jump)
    ensures IsValid(t.fromRow, t.fromCol) && t in SquareSuccessors(m, b, jump, t.fromRow, t.fromCol)
  {
    BoardMembers(m, b, jump, t);
    var r, c :| 0 <= r < SIDE_LENGTH && 0 <= c < SIDE_LENGTH && t in SquareSuccessors(m, b, jump, r, c);
    SquareOrigin(m, b, jump, r, c, t);
  }



  // ---------------------------------------------------------------------
  // Scoring

  /** A side with no pieces left has lost: the heuristic is the largest
      `int` for the winner and the smallest for the loser. */
  lemma HeuristicAtGameOver(b: BoardState, p: Player)
    ensures b.pieceCount.Get(p.Opposite()) == 0 ==> ComputeHeuristic(b, p) == MAX_VALUE
    ensures b.pieceCount.Get(p.Opposite()) != 0 && b.pieceCount.Get(p) == 0 ==> ComputeHeuristic(b, p) == MIN_VALUE
  {
    assert p.Opposite().Opposite() == p;
  }

  /** Where the game goes on and no count is negative or reaches 2^30 (so
      no Java `int` sum overflows), the heuristic is the material difference
      with kings counted twice, and it is zero-sum between the two sides.
      This holds whether or not the king counts agree with the grid. */
  lemma HeuristicMaterial(b: BoardState, p: Player)
    requires !IsGameOver(b)
    requires forall x: Player :: 0 <= b.pieceCount.Get(x) < 0x4000_0000 && 0 <= b.kingCount.Get(x) < 0x4000_0000
    ensures var q := p.Opposite();
            var own := b.pieceCount.Get(p) + b.kingCount.Get(p);
            var their := b.pieceCount.Get(q) + b.kingCount.Get(q);
            && ComputeHeuristic(b, p) == own - their
            && ComputeHeuristic(b, p) == -ComputeHeuristic(b, q)
  {
    assert p.Opposite().Opposite() == p;
  }

  /** In a position whose counts agree with its grid and where the game goes
      on, the heuristic is the material difference with kings counted twice,
      and it lies within 128 of zero. */
  lemma HeuristicIsMaterial(b: BoardState, p: Player)
    requires CountsMatch(b) && !IsGameOver(b)
    ensures var q := p.Opposite();
            var own := b.pieceCount.Get(p) + b.kingCount.Get(p);
            var their := b.pieceCount.Get(q) + b.kingCount.Get(q);
            && ComputeHeuristic(b, p) == own - their
            && ComputeHeuristic(b, p) == -ComputeHeuristic(b, q)
            && -128 <= ComputeHeuristic(b, p) <= 128
  {
    var q := p.Opposite();
    assert q.Opposite() == p;
    assert 0 <= b.pieceCount.Get(p) <= 64 && 0 <= b.kingCount.Get(p) <= 64;
    assert 0 <= b.pieceCount.Get(q) <= 64 && 0 <= b.kingCount.Get(q) <= 64;
    HeuristicMaterial(b, p);
  }

}
