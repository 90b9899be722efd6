/** The cell types of the game: what a square holds and what the player knows of it. */
module Square {

  /** What a square holds. `Empty(n)` records how many of the square's
      neighbours are mines; `LosingMine` is the one mine the player detonated. */
  datatype Contents = Mine | LosingMine | Empty(n: nat)

  /** What the player has done to a square. `BadFlagged` marks a flag that was
      shown, at the moment of a loss, to sit on a square without a mine. */
  datatype SquareState = Unguessed | Flagged | BadFlagged | Guessed

  datatype Square = Square(contents: Contents, state: SquareState)

  /** Both kinds of mine: the counts of `Empty` squares are about these. */
  predicate IsMineLike(c: Contents) {
    c == Mine || c == LosingMine
  }
}
