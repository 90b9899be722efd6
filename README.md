# Minesweeper engine, modelled in Dafny

This project models the game engine of a terminal Minesweeper. The engine
has three parts:

- `Game` (src/backend.rs) holds a board of squares, the mine count, the
  number of safely revealed squares, whether mines have been placed yet,
  and the game state (won, lost or in progress).
- A player's guess does the following:
  - on the first guess, places the mines away from the 3x3 box around the
    guessed square;
  - reveals the square;
  - sweeps the board when the square holds a mine;
  - flood-fills from squares that touch no mine (`expand`);
  - "chords" a revealed square whose count equals its number of flagged
    neighbours;
  - tests for a win.
- `board_iter` (src/board_iter.rs) enumerates the neighbours of a square.
  Every one of the operations above goes through it.

The project is built in layers:

- **Cell types.** `Square` (square.dfy) has the square's contents and state.
- **The neighbour enumerator.** `Neighbourhood` (board_iter.dfy) has:
  - the cursor of `board_iter`, as a datatype;
  - `Produce`/`Neighbours`, the sequence the enumerator yields from a
    cursor;
  - the class `BoardIter`, whose `Next` method advances the cursor in
    place and is proved to yield exactly that sequence.
- **Counting.** `Grid` (grid.dfy) has boards as `seq<seq<Square>>`, and
  counting of squares over a whole board or over a list of positions.
- **The engine as pure functions.** `Engine` (engine.dfy) has:
  - a `Snapshot` of the game's fields;
  - `GuessResult` and `ExpandResult`, the mutually recursive guess and
    flood fill as functions. Their outcome is either the new fields or
    `Panic`, the abort that `expand` raises when one of its guesses loses.
  - the loss sweep, the win test and flag toggling.
- **What every game satisfies.** `Invariants` (invariants.dfy) has:
  - the game invariant `Inv`: every Empty(n) records its mine neighbours,
    `numGuessed` counts the safely revealed squares, and a won or lost
    game is consistent;
  - the lemmas about guesses, expansion, chords, losses, wins and flags.
- **Mine placement.** `Generation` (generation.dfy) covers:
  - one accepted random draw (`PlaceMine`);
  - partial placements (`Seeded`);
  - when the draws can finish (`Room`).
- **The public view.** `View` (view.dfy) is the projection `get`.
- **The engine as an object.** `Backend` (backend.dfy) has the class
  `Game`. Its fields are updated by methods that follow the source's
  `new`, `generate`, `finished`, `expand`, `guess_internal`, `guess` and
  `toggle_flag`. Two of those are split into helper methods:
  - `guess_internal` becomes `GuessInternal`, with `Explode` for the loss
    (which calls `SweepBoard`), `RevealSafe` for a safe reveal and `Chord`
    for a revealed square;
  - `generate` becomes `Generate`, with `PlaceOne` for one accepted draw,
    `PlaceNeighbours` for its neighbour loop and `BumpSquare` for that
    loop's body.

  Each method is proved against a function:
  - the guessing methods, `Finished` and `ToggleFlag` against `Engine`
    (`GuessResult`, `ExpandResult`, `IsFinished`, `Lose`, `Sweep`,
    `Toggled`);
  - the mine placement methods against `Generation` (`Placed`, `Seeded`,
    `Bumped`);
  - the constructor against `Backend.NewGame`.
- **Consequences a player can run into.** `Scenarios` (scenarios.dfy).

Mine placement depends on random draws. Each accepted draw is a `:|`
choice of a square outside the box around the first guess that holds no
mine yet. A rejected draw changes nothing in the source, so rejected
draws are not modelled.

The abort in `expand` is a real outcome, not an assumption:

- `Step.Panic` in the functions, `Reply.Panicked` in the methods.
- Flood fill from a zero square never reaches it (`Invariants.ExpandSafe`,
  `Invariants.RevealOutcome`).
- A chord on a square with a misplaced flag does reach it
  (`Scenarios.ChordIntoMinePanics`).

Two behaviours of the code are easy to misread, and the model follows the
code in both:

- **The enumerator yields its own centre in column 0.** When `y == 0` it
  yields the centre (x, 0) itself:
  - the start position is never compared with the centre;
  - the hop over the centre (src/board_iter.rs:23-26) is tested only
    after a step to the right, never after the wrap to a new row.

  `Neighbourhood.NeighboursYieldCentre` states this and
  `Neighbourhood.NeighboursSkipCentre` states the `y > 0` case.
  `MinesAround` and `FlagsAround` count over this same sequence. The
  extra position changes nothing, and the model proves why:
  - `PlaceMine` makes the centre a Mine, which is never bumped
    (`Generation.PlaceMineAt`);
  - an indirect guess of a revealed square is a no-op
    (`Invariants.IndirectGuessOfRevealedIsNoOp`);
  - the centre of a chord is revealed, so it is never counted as a flag
    (`Engine.FlagsAroundSkipsCentre`).
- **A 2x1 board with one mine never finishes placing it.** Such a game
  cannot be won, not even by guessing the safe square, because whichever
  square is guessed first, the box around it is the whole board.
  `generate` then draws forever. `Scenarios.TwoByOneHasNoRoom` proves that no placement exists.
  The model makes `Room` (mines plus the size of the clipped box at most
  the board's area) a precondition of the first guess, and proves that it
  is both necessary (`Generation.SeededBound`) and sufficient
  (`Generation.FreeSquare`).

## Model

| member | source | states |
|---|---|---|
| Neighbourhood.Start | src/board_iter.rs:36-50 | the cursor `board_iter` builds starts in the top-left corner of the clipped window, which always contains the centre |
| Neighbourhood.Produce | src/board_iter.rs:15-33 | the positions `next` yields from a cursor: none exactly when `cur_x` has reached `max_x`, and every one of them in the window, at or after the cursor, and not the centre unless the centre is in column 0 |
| Neighbourhood.Neighbours | src/board_iter.rs:36-50 | the sequence `board_iter` yields: never empty, every position on the board and adjacent to the centre, and the centre among them exactly when it is in column 0 |
| Neighbourhood.Advance | src/board_iter.rs:22-30 | one step of `next` keeps the cursor well formed and moves it strictly forward in row-major order, touching only the cursor |
| Neighbourhood.ProduceHas | src/board_iter.rs:15-33 | a position is still to be yielded exactly when it lies in the window, at or after the cursor, and is not the centre unless the centre is in column 0 |
| Neighbourhood.ProduceIncreasing | src/board_iter.rs:22-29 | what is still to be yielded comes out in strictly increasing row-major order |
| Neighbourhood.ProduceLength | src/board_iter.rs:16-30 | the number of positions still to be yielded is the window area from the cursor on, less one for a centre still ahead |
| Neighbourhood.NeighboursHas | src/board_iter.rs:36-50 | `board_iter(x, y, h, w)` yields p exactly when p is on the board, within Chebyshev distance 1 of (x, y), and is not the centre unless y is 0 |
| Neighbourhood.NeighboursInBounds | src/board_iter.rs:37-40 | every yielded position is on the board and adjacent to the centre |
| Neighbourhood.NeighboursSkipCentre | src/board_iter.rs:23-26 | when y > 0 the centre is never yielded |
| Neighbourhood.NeighboursYieldCentre | src/board_iter.rs:23-29 | when y is 0 the centre (x, 0) is yielded |
| Neighbourhood.NeighboursIncreasing | src/board_iter.rs:22-29 | positions come out in strictly increasing row-major order, hence without repeats |
| Neighbourhood.NeighboursCount | src/board_iter.rs:37-40 | the enumerator yields the clipped window's area less one (none in column 0): at most 9, at most 8 when y > 0 |
| Neighbourhood.NextNeighbour | src/board_iter.rs:15-33 | the next position yielded is on the board and was not yielded before |
| Neighbourhood.IncreasingUnique | src/board_iter.rs:22-29 | two strictly increasing enumerations of the same set are equal, which fixes the order of the enumerator's output |
| Neighbourhood.InteriorOrder | src/lib.rs:18-33 | for a square away from every edge the enumerator yields its eight neighbours in the order the source test expects, generalised from (1, 1) of a 3x3 board |
| Neighbourhood.LeftEdgeOrder | src/board_iter.rs:27-29 | for a square in column 0 away from the top and bottom rows, the enumerator yields six positions, the centre among them |
| Neighbourhood.BoardIter.constructor | src/board_iter.rs:36-50 | the new enumerator will yield exactly `Neighbours(x, y, height, width)` |
| Neighbourhood.BoardIter.Next | src/board_iter.rs:15-33 | `next` returns the first position still to come and drops it from what is left; once nothing is left it returns None forever; `cur_x` never decreases |
| Engine.Nbrs | src/backend.rs:96-97 | the neighbours every loop of the engine walks are on the board and next to the square |
| Engine.MinesAround | src/backend.rs:96-101 | the mines next to a square, as the enumerator yields its neighbours: at most the number of neighbours, and zero exactly when no neighbour holds a mine of either kind |
| Engine.FlagsAround | src/backend.rs:136-141 | the flagged neighbours `finished` counts: at most the number of neighbours, and zero exactly when no neighbour is flagged |
| Engine.FlagsAroundSkipsCentre | src/backend.rs:137-141 | a square that is not flagged itself never counts among its own flags, although in column 0 the enumerator yields it |
| Engine.IsFinished | src/backend.rs:134-146 | `finished` holds exactly when the square is Empty(n) and n of its neighbours are flagged, so n is at most the number of neighbours, and a finished square with no flag around is an Empty(0) |
| Engine.SweepSquare | src/backend.rs:165-172 | the sweep of one square keeps its contents, only moves it forward, leaves no mine hidden and no flag on a square without a mine, and leaves revealed and badly flagged squares alone |
| Engine.Sweep | src/backend.rs:163-174 | the loss sweep only moves squares forward and keeps every square's contents and the number of mines; afterwards no mine is hidden and every remaining flag sits on a mine |
| Engine.Lose | src/backend.rs:157-174 | guessing the mine at p loses: p becomes the revealed LosingMine, every other square is swept, no mine stays hidden, and the mine count, `numGuessed` and `generated` stay |
| Engine.Revealed | src/backend.rs:157-176 | a safe reveal (the state write at line 157 and the increment at line 176, without the loss branch between them) marks p revealed with its contents kept, raises `numGuessed` by one, changes no other square; when p was hidden it lowers the number of hidden squares by one and, when p holds Empty, raises the number of safely revealed squares by one |
| Engine.CheckWon | src/backend.rs:180-182 | the win test changes at most the game state, only ever to Won, and does so whenever the revealed squares and the mines fill the board |
| Engine.Toggled | src/backend.rs:201-208 | `toggle_flag` changes only the state of p: a hidden square becomes flagged and a flagged one hidden, while revealed and badly flagged squares stay |
| Engine.SweepEvolves | src/backend.rs:157-174 | losing only moves squares forward: hidden mines to revealed, flags to bad flags, the mine to LosingMine |
| Engine.GuessResult | src/backend.rs:148-195 | a guess keeps the board's shape, the mine count and the generated flag, and never increases the number of hidden squares |
| Engine.ExpandResult | src/backend.rs:124-130 | an expansion keeps the same, and aborts exactly when one of its guesses loses |
| Engine.EvolvesUnguessed | src/backend.rs:148-195 | moving squares forward never increases the number of hidden squares, which is what makes the guess/expand recursion finish |
| Engine.ExpandHead | src/backend.rs:125-128 | one step of `expand`: a guess that loses or aborts aborts the expansion; otherwise the expansion goes on from the new game |
| Invariants.ProgressTrans | src/backend.rs:148-195 | the relation between a game and its successor is transitive |
| Invariants.GuessProgress | src/backend.rs:148-195 | after a guess no square moves back, mines are never created or removed, `numGuessed` never decreases, and a finished game is left untouched |
| Invariants.ExpandProgress | src/backend.rs:124-130 | the same for a flood fill |
| Invariants.ExpandNotLost | src/backend.rs:124-130 | an expansion that returns never leaves the game lost |
| Invariants.EvolvesKeepsCounts | src/backend.rs:157-174 | moving squares forward keeps the mine count and every square's mine-neighbour count |
| Invariants.RevealMines | src/backend.rs:175-176 | revealing a hidden square keeps the mine counts right |
| Invariants.RevealGuessed | src/backend.rs:176 | revealing a hidden Empty square keeps `numGuessed` equal to the number of safely revealed squares |
| Invariants.RevealLosing | src/backend.rs:175-176 | revealing a safe square creates no LosingMine |
| Invariants.RevealInv | src/backend.rs:175-176 | a hidden square without a mine holds Empty, and revealing it keeps the game invariant |
| Invariants.LoseMines | src/backend.rs:157-174 | the loss keeps the mine counts right |
| Invariants.LoseGuessed | src/backend.rs:157-174 | the loss keeps `numGuessed` equal to the number of safely revealed squares |
| Invariants.LoseLosing | src/backend.rs:160-161 | after the loss there is exactly one LosingMine |
| Invariants.LoseInv | src/backend.rs:157-174 | guessing a hidden mine keeps the game invariant |
| Invariants.CheckWonInv | src/backend.rs:180-182 | the win test keeps the game invariant and never loses |
| Invariants.GuessInv | src/backend.rs:148-195 | every guess that returns keeps the game invariant |
| Invariants.ExpandInv | src/backend.rs:124-130 | every expansion that returns keeps the game invariant |
| Invariants.ZeroHasNoMineNeighbour | src/backend.rs:177-178 | no neighbour of an Empty(0) square holds a mine |
| Invariants.RevealedZeroHasNoMineNeighbour | src/backend.rs:176-178 | revealing the Empty(0) square first does not change that |
| Invariants.GuessSafe | src/backend.rs:175-183 | an indirect guess of a square without a mine never aborts and never loses |
| Invariants.ExpandSafe | src/backend.rs:124-130 | an expansion over squares without mines never aborts and never loses |
| Invariants.GuessNoOp | src/backend.rs:152 | a guess in a finished game, or on a flagged or badly flagged square, changes nothing and reports the current state |
| Invariants.LossOutcome | src/backend.rs:157-174 | guessing a hidden mine loses; that square becomes the revealed LosingMine, every other hidden mine is revealed, every flag without a mine becomes a bad flag, and nothing else changes |
| Invariants.RevealOutcome | src/backend.rs:175-183 | revealing a hidden safe square never loses or aborts; it reveals that square, raises `numGuessed` by at least one, keeps the invariant, and wins exactly when the revealed squares and the mines fill the board |
| Invariants.RevealBeforeWinCheck | src/backend.rs:175-179 | the game right before the win test has the square revealed and keeps the invariant |
| Invariants.GuessRevealsTarget | src/backend.rs:156-157 | an indirect guess of a hidden square that leaves the game running reveals it |
| Invariants.ExpandReveals | src/backend.rs:124-130 | an expansion that leaves the game running reveals every hidden square it visits |
| Invariants.ChordOutcome | src/backend.rs:185-189 | a player's guess on a revealed square expands around it exactly when its count equals its flagged neighbours and is otherwise a no-op; when it returns with the game running, every hidden neighbour is revealed |
| Invariants.IndirectGuessOfRevealedIsNoOp | src/backend.rs:185-188 | a guess made by `expand` on a revealed square, the centre yielded in column 0 included, changes nothing |
| Invariants.GuessMonotone | src/backend.rs:148-195 | `numGuessed` and the mine count never go down; revealed or flagged squares never become hidden again; mine-likeness is unchanged everywhere |
| Invariants.UncoveredCount | src/backend.rs:180 | the squares neither revealed nor mined number the board's area less `numGuessed` less `mines` |
| Invariants.WinMeansAllSafeRevealed | src/backend.rs:180-181 | the win test holds exactly when every square without a mine is revealed |
| Invariants.CountAtMostEight | src/backend.rs:98-99 | every Empty(n) has n at most 8, so the u8 increment never overflows |
| Invariants.ToggleKeeps | src/backend.rs:201-208 | `toggle_flag` swaps Unguessed and Flagged, leaves Guessed and BadFlagged, and changes nothing else |
| Invariants.ToggleTwice | src/backend.rs:202-207 | toggling twice restores the game |
| Invariants.ToggleFresh | src/backend.rs:202-207 | toggling before the first guess keeps the board fresh |
| Invariants.ToggleMines | src/backend.rs:202-207 | toggling keeps the mine counts right |
| Invariants.ToggleCounts | src/backend.rs:202-207 | toggling keeps `numGuessed` and the LosingMine count right |
| Invariants.ToggleInv | src/backend.rs:201-208 | toggling keeps the game invariant |
| Invariants.EvolvesKeepsCountsOnContents | src/backend.rs:201-208 | a change of states alone keeps every mine count |
| Generation.Bump | src/backend.rs:98-100 | the increment of a new mine's neighbour raises Empty(n) to Empty(n + 1), leaves mines alone and never touches the state |
| Generation.Bumped | src/backend.rs:97-101 | bumping the listed squares keeps every state and which squares hold a mine, raises each listed Empty(n) to Empty(n + 1), and leaves every unlisted square as it was |
| Generation.PlaceMine | src/backend.rs:93-101 | an accepted draw keeps the board's shape |
| Generation.PlaceMineAt | src/backend.rs:93-101 | after an accepted draw at m, m holds a Mine (the centre yielded in column 0 is not bumped), m's neighbours are bumped, and every other square is as it was |
| Generation.BumpedSoFarStep | src/backend.rs:97-101 | one more turn of that loop bumps one more position |
| Generation.BumpedSoFarDone | src/backend.rs:97-101 | when the loop ends the board is the new mine's neighbours bumped |
| Generation.SeededStart | src/backend.rs:53-67 | a fresh board is a placement of no mines |
| Generation.NeighbourSymmetric | src/board_iter.rs:36-50 | m is yielded among the neighbours of q exactly when q is among those of m |
| Generation.AroundAfterPlace | src/backend.rs:93-101 | a new mine at m adds one to the mine count around each of its neighbours and nothing around other squares |
| Generation.PlaceMineCountOk | src/backend.rs:95-101 | after an accepted draw a square's recorded count is still its number of mine neighbours |
| Generation.PlaceMineAgrees | src/backend.rs:95-101 | the same for every square of the board |
| Generation.PlaceMineCount | src/backend.rs:93-94 | an accepted draw adds exactly one mine |
| Generation.PlaceMineShape | src/backend.rs:90-93 | an accepted draw leaves the states alone and puts no mine next to the first guess |
| Generation.PlaceMineKeeps | src/backend.rs:84-101 | an accepted draw turns a placement of k mines into one of k + 1 |
| Generation.BoxCount | src/backend.rs:90-91 | the box around the first guess, clipped to the board, has `BoxSize` squares |
| Generation.FarCount | src/backend.rs:90-91 | the squares outside the box number the board's area less `BoxSize` |
| Generation.FarMineCount | src/backend.rs:90-94 | every mine of a partial placement lies outside the box |
| Generation.SeededBound | src/backend.rs:84-103 | a placement of k mines exists only when k mines fit outside the box, so `generate` never finishes without room |
| Generation.FreeSquare | src/backend.rs:84-94 | with room and fewer mines placed than asked, some draw is accepted, so every turn of the loop can make progress |
| Generation.PlacedInv | src/backend.rs:78-105 | a completed placement on a new game satisfies the game invariant |
| Generation.FirstGuessIsZero | src/backend.rs:90-91 | after placement the first guess is an Empty(0) square, so the first reveal always floods |
| View.Reveal | src/backend.rs:107-120 | `get` shows the state of a hidden square and, once it is revealed, Mine for either kind of mine or Empty(n) with its count |
| View.RevealDeterminesState | src/backend.rs:107-120 | squares that look alike share their state, revealed ones also agree on mine and count, and hidden squares with the same state look alike whatever they hold |
| Backend.NewGame | src/backend.rs:53-67 | a new game has every one of its height x width squares hidden and no mine on the board, with nothing revealed, mines not yet placed, and the game in progress |
| Backend.FreshBoard | src/backend.rs:54-59 | a new board has `height` rows of `width` squares |
| Backend.NewGameInv | src/backend.rs:53-67 | a new game satisfies the game invariant |
| Backend.Game.constructor | src/backend.rs:53-67 | `new` builds `height` rows of hidden Empty(0) squares, no mines placed, nothing revealed, game in progress |
| Backend.Game.Generate | src/backend.rs:78-105 | `generate` places exactly `mines` mines, none next to (x, y), with every count right; it sets `generated` and changes nothing else |
| Backend.Game.PlaceOne | src/backend.rs:85-101 | one accepted draw turns a placement of k mines into one of k + 1 |
| Backend.Game.PlaceNeighbours | src/backend.rs:96-101 | the loop bumps exactly the new mine's neighbours, as the enumerator yields them |
| Backend.Game.BumpSquare | src/backend.rs:98-100 | its body bumps one more neighbour |
| Backend.Game.Finished | src/backend.rs:134-146 | `finished` holds exactly when the square is Empty(n) and n of its neighbours are flagged |
| Backend.Game.SweepBoard | src/backend.rs:163-174 | the nested loop is the loss sweep of the board |
| Backend.Game.Explode | src/backend.rs:157-174 | guessing a hidden mine leaves the fields as `Lose` says |
| Backend.Game.Expand | src/backend.rs:124-130 | `expand` aborts exactly when the functional expansion does, and otherwise leaves its result in the fields |
| Backend.Game.GuessInternal | src/backend.rs:148-195 | mines are placed around (x, y) on the first call only; the reply and the new fields are those of `GuessResult` from the game after placement |
| Backend.Game.RevealSafe | src/backend.rs:175-183 | the safe-reveal branch does what `GuessResult` says |
| Backend.Game.Chord | src/backend.rs:185-189 | the chord branch does what `GuessResult` says for a player's guess |
| Backend.Game.Guess | src/backend.rs:197-199 | `guess` is a direct `guess_internal`; when it returns, the game invariant holds and the reply is the new state |
| Backend.Game.ToggleFlag | src/backend.rs:201-208 | `toggle_flag` leaves the fields as `Toggled` says and keeps the game invariant |
| Scenarios.ExpandHitsMine | src/backend.rs:124-130 | `expand` passes over revealed and flagged squares and aborts at the first hidden mine it guesses |
| Scenarios.ChordIntoMinePanics | src/backend.rs:185-189 | a chord whose first hidden neighbour is a mine, because a flag sits on a safe square, aborts in `expand` |
| Scenarios.TwoByOneHasNoRoom | src/backend.rs:84-91 | on a 2x1 board one mine has no room outside the box, so no placement exists |

## Left out

- Rendering: the `Display` code, `print_top` and the ANSI colours in src/backend.rs and src/square.rs. It is presentation only and uses an external crate.
- The random number generator (src/backend.rs:80-86). Each accepted draw is a nondeterministic choice. Rejected draws, which change nothing, and the distribution of draws are not modelled.
- src/main.rs, the command loop that reads stdin. It is I/O.
- The `it_works` test in src/lib.rs. It only prints.
- Out-of-bounds indexing panics. In-bounds coordinates are preconditions of `guess`, `toggle_flag` and `get`, and `generate` needs a board with at least one row.
- Backend.Game.Guess: requires `Room` on the first guess. Without room the source's `generate` never returns, and the model does not describe a guess that does not terminate.
- Machine integer widths (`usize`, `u8`). Integers are unbounded. `Invariants.CountAtMostEight` shows that the u8 count cannot overflow, and the other counters are bounded by the board's area.
- `Game::state` and `Game::get` are the plain reads `Backend.Game.State` and `Backend.Game.Get`. They carry no contract of their own, because `get` is `View.Reveal` of the square.
- Backend.Game.PlaceOne, Backend.Game.PlaceNeighbours, Backend.Game.BumpSquare, Backend.Game.SweepBoard, Backend.Game.Explode, Backend.Game.RevealSafe and Backend.Game.ToggleFlag build each updated board as a new `seq` value and assign it to the field `board`. They do not model writing one square inside the source's `Vec<Vec<Square>>` in place. Nothing aliases the board, so the resulting state is the same; in-place aliasing of rows is what the model does not capture.
