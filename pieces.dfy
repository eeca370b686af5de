/** The collaborators of the board engine whose definitions are not part of
    this model: the two players, a piece, the per-piece movement offsets and
    the game settings.  They are kept as abstract as the engine allows. */
module Pieces {

  /** The two sides.  `Ai` is the computer, `Human` the person at the board. */
  datatype Player = Ai | Human {

    /** `Player.getOpposite`: the other side. */
    function Opposite(): (q: Player)
      ensures q != this
    {
      if this == Ai then Human else Ai
    }
  }

  /** A piece is owned by one player and is either a man or a king. */
  datatype Piece = Piece(owner: Player, isKing: bool)

  /** The column offsets (`getXMovements`) and row offsets (`getYMovements`)
      of one kind of piece.  The engine tries every pair, columns outermost. */
  datatype Offsets = Offsets(xs: seq<int>, ys: seq<int>)

  /** The offset sets of each of the four kinds of piece.  Their concrete
      values are not part of this model. */
  datatype Movement = Movement(aiMan: Offsets, humanMan: Offsets, aiKing: Offsets, humanKing: Offsets)
  {
    /** The offsets that apply to `p`. */
    function Of(p: Piece): Offsets
    {
      match (p.owner, p.isKing)
      case (Ai, false) => aiMan
      case (Human, false) => humanMan
      case (Ai, true) => aiKing
      case (Human, true) => humanKing
    }
  }

  /** The game settings the core reads: who moves first, how deep the
      computer searches and how many states the undo history keeps. */
  datatype Settings = Settings(firstMove: Player, aiDepth: nat, undoMemory: int)
}
