/** The game engine as the object the front end drives. Its fields are
    updated in place by guessing, flood fill, mine placement, the loss
    sweep and flag toggling, and each method is proved to do exactly what
    the functions of module Engine say. */
module Backend {
  import opened Square
  import opened Neighbourhood
  import opened Grid
  import opened Engine
  import opened Invariants
  import opened Generation
  import View

  /** What a guess hands back: the game state, or the abort raised inside `expand`. */
  datatype Reply = Returned(state: GameState) | Panicked

  /** The result `step` of the functional model, as the method reports it
      in `r` and leaves it in the fields `now`. */
  predicate Reports(step: Step, r: Reply, now: Snapshot) {
    match step
    case Panic => r == Panicked
    case Ok(t) => r == Returned(t.state) && now == t
  }

  /** The board of a new game: `height` rows of `width` hidden Empty(0) squares. */
  function FreshBoard(height: nat, width: nat): (b: Board)
    ensures |b| == height && Rect(b) && (height > 0 ==> Width(b) == width)
  {
    seq(height, i => seq(width, j => Square(Empty(0), Unguessed)))
  }

  /** `new`: every square hidden, no mine on the board and none placed yet. */
  function NewGame(height: nat, width: nat, mines: nat): (r: Snapshot)
    ensures r.mines == mines && r.numGuessed == 0 && !r.generated && r.state == InProg
    ensures |r.board| == height && Rect(r.board) && (height > 0 ==> Width(r.board) == width)
    ensures Count(r.board, IsUnguessed) == height * width
    ensures Count(r.board, IsMineLikeSquare) == 0
  {
    var b := FreshBoard(height, width);
    CountNone(b, IsMineLikeSquare);
    if height > 0 then
      CountSame(b, b, IsUnguessed, InRect(0, height, 0, width));
      CountRect(b, 0, height, 0, width);
      Snapshot(b, mines, 0, false, InProg)
    else
      CountNone(b, IsUnguessed);
      Snapshot(b, mines, 0, false, InProg)
  }

  /** A new game satisfies the invariant. */
  lemma NewGameInv(height: nat, width: nat, mines: nat)
    ensures Inv(NewGame(height, width, mines))
  {
    var b := FreshBoard(height, width);
    CountNone(b, IsRevealedSafe);
    CountNone(b, IsLosingSquare);
  }

  class Game {
    var board: Board
    var mines: nat
    var numGuessed: nat
    var generated: bool
    var state: GameState

    /** The fields as a value. */
    function Snap(): Snapshot
      reads this
    {
      Snapshot(board, mines, numGuessed, generated, state)
    }

    ghost predicate Valid()
      reads this
    {
      Inv(Snap())
    }

    /** `new`: a board of hidden Empty(0) squares, no mines placed yet. */
    constructor (height: nat, width: nat, numMines: nat)
      ensures Snap() == NewGame(height, width, numMines) && Valid()
    {
      var b: Board := [];
      for i := 0 to height
        invariant b == FreshBoard(i, width)
      {
        b := b + [seq(width, j => Square(Empty(0), Unguessed))];
      }
      board := b;
      mines := numMines;
      numGuessed := 0;
      generated := false;
      state := InProg;
      NewGameInv(height, width, numMines);
    }

    /** `state`. */
    function State(): GameState
      reads this
    {
      state
    }

    /** `get`: what the player sees at (x, y). */
    function Get(x: nat, y: nat): View.PubSquareContents
      reads this
      requires Rect(board) && InBounds(board, (x, y))
    {
      View.Reveal(board[x][y])
    }

    /** `generate`: place `mines` mines away from the first guess (x, y).
        Each accepted draw is a square outside the box around (x, y) that
        holds no mine yet; rejected draws change nothing and are not
        modelled. */
    method Generate(x: nat, y: nat)
      requires Valid() && !generated && InBounds(board, (x, y)) && Room(board, mines, (x, y))
      modifies this
      ensures Placed(old(Snap()), Snap(), (x, y)) && Valid()
    {
      ghost var s0 := Snap();
      SeededStart(board, (x, y));
      var count := 0;
      while count < mines
        invariant count <= mines
        invariant Seeded(s0.board, board, (x, y), count)
        invariant mines == s0.mines && numGuessed == s0.numGuessed && !generated && state == s0.state
        decreases mines - count
      {
        PlaceOne(x, y, s0.board, count);
        count := count + 1;
      }
      generated := true;
      PlacedInv(s0, Snap(), (x, y));
    }

    /** One accepted draw of `generate`: a square outside the box around
        (x, y) that holds no mine becomes a mine. */
    method PlaceOne(x: nat, y: nat, ghost b0: Board, ghost count: nat)
      requires Seeded(b0, board, (x, y), count) && count < mines && Room(board, mines, (x, y))
      modifies this`board
      ensures Seeded(b0, board, (x, y), count + 1)
    {
      ghost var w := FreeSquare(b0, board, (x, y), count, mines);
      assert w.0 < |board| && w.1 < |board[0]| && board[w.0][w.1].contents != Mine && !Adjacent(w, (x, y));
      var mx: nat, my: nat :| mx < |board| && my < |board[0]| &&
                              board[mx][my].contents != Mine && !Adjacent((mx, my), (x, y));
      ghost var before := board;
      board := Set(board, (mx, my), board[mx][my].(contents := Mine));
      PlaceNeighbours(mx, my);
      PlaceMineKeeps(b0, before, (x, y), count, (mx, my));
    }

    /** The loop of `generate` over the neighbours of a new mine at (mx, my):
        every Empty(n) neighbour becomes Empty(n + 1). */
    method PlaceNeighbours(mx: nat, my: nat)
      requires Rect(board) && InBounds(board, (mx, my))
      modifies this`board
      ensures board == Bumped(old(board), Nbrs(old(board), (mx, my)))
    {
      ghost var bm := board;
      ghost var ns := Nbrs(bm, (mx, my));
      var it := new BoardIter(mx, my, |board|, |board[0]|);
      ghost var done: seq<Pos> := [];
      assert BumpedSoFar(bm, board, done);
      while true
        invariant it.Valid() && fresh(it) && done + it.Rest() == ns
        invariant BumpedSoFar(bm, board, done)
        decreases |it.Rest()|
      {
        ghost var rest := it.Rest();
        var next := it.Next();
        if next.None? {
          break;
        }
        var (i, j) := next.value;
        NextNeighbour(mx, my, |bm|, Width(bm), done, rest);
        BumpSquare(i, j, bm, done);
        done := done + [(i, j)];
      }
      assert done == ns;
      BumpedSoFarDone(bm, board, ns);
    }

    /** The body of that loop: an Empty(n) square at (i, j) becomes Empty(n + 1). */
    method BumpSquare(i: nat, j: nat, ghost bm: Board, ghost done: seq<Pos>)
      requires BumpedSoFar(bm, board, done) && InBounds(bm, (i, j)) && (i, j) !in done
      modifies this`board
      ensures BumpedSoFar(bm, board, done + [(i, j)])
    {
      BumpedSoFarStep(bm, board, done, (i, j));
      if board[i][j].contents.Empty? {
        board := Set(board, (i, j), board[i][j].(contents := Empty(board[i][j].contents.n + 1)));
      }
    }

    /** `finished`: (x, y) holds Empty(n) and exactly n of its neighbours are flagged. */
    method Finished(x: nat, y: nat) returns (r: bool)
      requires Rect(board) && InBounds(board, (x, y))
      ensures r == IsFinished(board, (x, y))
    {
      match board[x][y].contents
      case Empty(n) =>
        var numFlagged := 0;
        var it := new BoardIter(x, y, |board|, |board[0]|);
        ghost var done: seq<Pos> := [];
        while true
          invariant it.Valid() && done + it.Rest() == Nbrs(board, (x, y))
          invariant AllInBounds(board, done)
          invariant numFlagged == CountAt(board, done, IsFlagged)
          decreases |it.Rest()|
        {
          ghost var rest := it.Rest();
          var next := it.Next();
          if next.None? {
            break;
          }
          var (i, j) := next.value;
          NextNeighbour(x, y, |board|, Width(board), done, rest);
          CountAtSnoc(board, done, (i, j), IsFlagged);
          if board[i][j].state == Flagged {
            numFlagged := numFlagged + 1;
          }
          done := done + [(i, j)];
        }
        assert done == Nbrs(board, (x, y));
        r := numFlagged == n;
      case _ =>
        r := false;
    }

    /** The loss sweep of `guess_internal`: reveal every hidden mine and
        mark every flag without a mine under it as bad. */
    method SweepBoard()
      requires Rect(board)
      modifies this`board
      ensures board == Sweep(old(board))
    {
      ghost var b0 := board;
      var i := 0;
      while i < |board|
        invariant 0 <= i <= |board| == |b0| && Rect(board) && SameShape(b0, board)
        invariant forall k :: 0 <= k < i ==> board[k] == Sweep(b0)[k]
        invariant forall k :: i <= k < |board| ==> board[k] == b0[k]
      {
        var row := board[i];
        var j := 0;
        while j < |row|
          invariant 0 <= j <= |row| == |b0[i]|
          invariant forall k :: 0 <= k < j ==> row[k] == SweepSquare(b0[i][k])
          invariant forall k :: j <= k < |row| ==> row[k] == b0[i][k]
        {
          var sq := row[j];
          if sq.contents == Mine {
            if sq.state == Unguessed {
              row := row[j := sq.(state := Guessed)];
            }
          } else if sq.state == Flagged {
            row := row[j := sq.(state := BadFlagged)];
          }
          j := j + 1;
        }
        assert row == Sweep(b0)[i];
        board := board[i := row];
        i := i + 1;
      }
      assert board == Sweep(b0);
    }

    /** Guessing the hidden mine at (x, y): the game is lost, the square
        becomes the LosingMine, and the loss sweep runs. */
    method Explode(x: nat, y: nat)
      requires Rect(board) && InBounds(board, (x, y)) && board[x][y] == Square(Mine, Unguessed)
      modifies this`board, this`state
      ensures Snap() == Lose(old(Snap()), (x, y))
    {
      board := Set(board, (x, y), board[x][y].(state := Guessed));
      state := Lost;
      SetTwice(old(board), (x, y), Square(Mine, Guessed), Square(LosingMine, Guessed));
      board := Set(board, (x, y), board[x][y].(contents := LosingMine));
      SweepBoard();
    }

    /** `expand`: guess every neighbour of (x, y), not directly; abort when
        one of those guesses leaves the game lost. */
    method Expand(x: nat, y: nat) returns (panicked: bool)
      requires Rect(board) && InBounds(board, (x, y)) && generated
      modifies this
      decreases Count(board, IsUnguessed), 2
      ensures ExpandResult(old(Snap()), Nbrs(old(board), (x, y))).Panic? <==> panicked
      ensures ExpandResult(old(Snap()), Nbrs(old(board), (x, y))).Ok? ==>
                Snap() == ExpandResult(old(Snap()), Nbrs(old(board), (x, y))).game
    {
      ghost var s0 := Snap();
      var it := new BoardIter(x, y, |board|, |board[0]|);
      while true
        invariant it.Valid() && fresh(it)
        invariant Rect(board) && SameShape(s0.board, board) && generated
        invariant AllInBounds(board, it.Rest())
        invariant Count(board, IsUnguessed) <= Count(s0.board, IsUnguessed)
        invariant ExpandResult(s0, Nbrs(s0.board, (x, y))) == ExpandResult(Snap(), it.Rest())
        decreases |it.Rest()|
      {
        ghost var rest := it.Rest();
        ghost var s1 := Snap();
        var next := it.Next();
        if next.None? {
          break;
        }
        var (i, j) := next.value;
        var r;
        ghost var start;
        r, start := GuessInternal(i, j, false);
        ExpandHead(s1, rest, GuessResult(s1, (i, j), false));
        if r.Panicked? || r.state == Lost {
          panicked := true;
          return;
        }
      }
      panicked := false;
    }

    /** `guess_internal`: place the mines on the first guess, then act on
        the square at (x, y) as the functional model says. `start` is the
        game right after mine placement. */
    method GuessInternal(x: nat, y: nat, userDirect: bool) returns (r: Reply, ghost start: Snapshot)
      requires Rect(board) && InBounds(board, (x, y))
      requires !generated ==> Valid() && Room(board, mines, (x, y))
      modifies this
      decreases Count(board, IsUnguessed), if userDirect then 4 else 1
      ensures old(generated) ==> start == old(Snap())
      ensures !old(generated) ==> Placed(old(Snap()), start, (x, y)) && Inv(start)
      ensures Rect(start.board) && InBounds(start.board, (x, y)) && start.generated
      ensures Reports(GuessResult(start, (x, y), userDirect), r, Snap())
    {
      if !generated {
        Generate(x, y);
        CountSame(old(board), board, IsUnguessed, IsUnguessed);
      }
      start := Snap();
      var p := (x, y);
      if state == InProg {
        match board[x][y].state
        case Unguessed =>
          if board[x][y].contents == Mine {
            Explode(x, y);
            assert GuessResult(start, p, userDirect) == Ok(Lose(start, p));
          } else {
            assert GuessResult(start, p, userDirect) == GuessResult(start, p, false);
            r := RevealSafe(x, y);
            return;
          }
        case Guessed =>
          if userDirect {
            r := Chord(x, y);
            return;
          }
        case Flagged =>
        case BadFlagged =>
      }
      r := Returned(state);
    }

    /** The branch of `guess_internal` for a hidden square without a mine:
        reveal it, expand around it when it touches no mine, then test for
        a win. */
    method RevealSafe(x: nat, y: nat) returns (r: Reply)
      requires Rect(board) && InBounds(board, (x, y)) && generated && state == InProg
      requires board[x][y].state == Unguessed && board[x][y].contents != Mine
      modifies this
      decreases Count(board, IsUnguessed), 0
      ensures Reports(GuessResult(old(Snap()), (x, y), false), r, Snap())
    {
      ghost var start := Snap();
      var p := (x, y);
      var sq := board[x][y];
      board := Set(board, p, sq.(state := Guessed));
      numGuessed := numGuessed + 1;
      assert Snap() == Revealed(start, p);
      CountUpdate(start.board, p, sq.(state := Guessed), IsUnguessed);
      if sq.contents == Empty(0) {
        var panicked := Expand(x, y);
        ghost var r1 := ExpandResult(Revealed(start, p), Nbrs(start.board, p));
        assert GuessResult(start, p, false) == if r1.Panic? then Panic else Ok(CheckWon(r1.game));
        if panicked {
          r := Panicked;
          return;
        }
      } else {
        assert GuessResult(start, p, false) == Ok(CheckWon(Revealed(start, p)));
      }
      if numGuessed + mines == |board| * |board[0]| {
        state := Won;
      }
      r := Returned(state);
    }

    /** The branch of `guess_internal` for a player's guess on a revealed
        square: when exactly its count of neighbours is flagged, expand
        around it. */
    method Chord(x: nat, y: nat) returns (r: Reply)
      requires Rect(board) && InBounds(board, (x, y)) && generated && state == InProg
      requires board[x][y].state == Guessed
      modifies this
      decreases Count(board, IsUnguessed), 3
      ensures Reports(GuessResult(old(Snap()), (x, y), true), r, Snap())
    {
      ghost var start := Snap();
      var fin := Finished(x, y);
      if fin {
        var panicked := Expand(x, y);
        assert GuessResult(start, (x, y), true) == ExpandResult(start, Nbrs(start.board, (x, y)));
        if panicked {
          r := Panicked;
          return;
        }
      }
      r := Returned(state);
    }

    /** `guess`: the player's guess at (x, y). Mines are placed on the first
        guess, which needs room for them outside the box around (x, y). */
    method Guess(x: nat, y: nat) returns (r: Reply, ghost start: Snapshot)
      requires Valid() && InBounds(board, (x, y))
      requires !generated ==> Room(board, mines, (x, y))
      modifies this
      ensures old(generated) ==> start == old(Snap())
      ensures !old(generated) ==> Placed(old(Snap()), start, (x, y))
      ensures Rect(start.board) && InBounds(start.board, (x, y))
      ensures Reports(GuessResult(start, (x, y), true), r, Snap())
      ensures r.Returned? ==> Valid() && r.state == state
    {
      r, start := GuessInternal(x, y, true);
      GuessInv(start, (x, y), true);
    }

    /** `toggle_flag`: flag a hidden square or unflag a flagged one. */
    method ToggleFlag(x: nat, y: nat)
      requires Rect(board) && InBounds(board, (x, y))
      modifies this
      ensures Snap() == Toggled(old(Snap()), (x, y))
      ensures old(Valid()) ==> Valid()
    {
      var next := match board[x][y].state
        case Unguessed => Flagged
        case Flagged => Unguessed
        case BadFlagged => BadFlagged
        case Guessed => Guessed;
      board := Set(board, (x, y), board[x][y].(state := next));
      if old(Valid()) {
        ToggleInv(old(Snap()), (x, y));
      }
    }
  }
}
