/** What every game position satisfies, and what guesses, the loss sweep,
    flood fill, chords and flags do to it. */
module Invariants {
  import opened Square
  import opened Neighbourhood
  import opened Grid
  import opened Engine

  /** Every Empty(n) square records the number of mines among its neighbours. */
  ghost predicate CountsAgree(b: Board)
    requires Rect(b)
  {
    forall q :: InBounds(b, q) ==> CountOk(b, q)
  }

  /** The square at q, if Empty(n), records the n mines around it. */
  ghost predicate CountOk(b: Board, q: Pos)
    requires Rect(b) && InBounds(b, q)
  {
    At(b, q).contents.Empty? ==> At(b, q).contents.n == MinesAround(b, q)
  }

  /** Before mines are placed every square is an unrevealed Empty(0) and the game is running. */
  ghost predicate FreshOk(s: Snapshot)
    requires Rect(s.board)
  {
    !s.generated ==>
      s.state == InProg &&
      forall i, j :: 0 <= i < |s.board| && 0 <= j < Width(s.board) ==>
        s.board[i][j].contents == Empty(0) &&
        (s.board[i][j].state == Unguessed || s.board[i][j].state == Flagged)
  }

  /** Once mines are placed there are exactly `mines` of them and every count is right. */
  ghost predicate MinesOk(s: Snapshot)
    requires Rect(s.board)
  {
    s.generated ==> Count(s.board, IsMineLikeSquare) == s.mines && CountsAgree(s.board)
  }

  /** `numGuessed` counts the squares revealed without a mine. */
  ghost predicate GuessedOk(s: Snapshot) {
    s.numGuessed == Count(s.board, IsRevealedSafe)
  }

  /** A won game passed the win test. */
  ghost predicate WonOk(s: Snapshot) {
    s.state == Won ==> s.numGuessed + s.mines == |s.board| * Width(s.board)
  }

  /** A LosingMine exists exactly when the game is lost, and then only one. */
  ghost predicate LosingOk(s: Snapshot) {
    Count(s.board, IsLosingSquare) == (if s.state == Lost then 1 else 0)
  }

  /** The game invariant. */
  ghost predicate Inv(s: Snapshot) {
    Rect(s.board) && FreshOk(s) && MinesOk(s) && GuessedOk(s) && WonOk(s) && LosingOk(s)
  }

  /** How the result t of a guess or an expansion relates to its input s. */
  ghost predicate Progress(s: Snapshot, t: Snapshot) {
    BoardEvolves(s.board, t.board) && t.mines == s.mines && t.generated == s.generated &&
    t.numGuessed >= s.numGuessed && (s.state != InProg ==> t == s)
  }

  // ---------------------------------------------------------------------
  // Progress

  lemma ProgressTrans(a: Snapshot, b: Snapshot, c: Snapshot)
    requires Progress(a, b) && Progress(b, c)
    ensures Progress(a, c)
  {
  }


  lemma {:induction false} GuessProgress(s: Snapshot, p: Pos, direct: bool)
    requires Rect(s.board) && InBounds(s.board, p)
    ensures GuessResult(s, p, direct).Ok? ==> Progress(s, GuessResult(s, p, direct).game)
    decreases Count(s.board, IsUnguessed), if direct then 3 else 1, 0
  {
    if s.state == InProg {
      var sq := At(s.board, p);
      if sq.state == Unguessed {
        if sq.contents == Mine {
          SweepEvolves(s.board, p);
          assert GuessResult(s, p, direct) == Ok(Lose(s, p));
        } else {
          var s1 := Revealed(s, p);
          assert Progress(s, s1);
          CountUpdate(s.board, p, sq.(state := Guessed), IsUnguessed);
          if sq.contents == Empty(0) {
            var ns := Nbrs(s.board, p);
            ExpandProgress(s1, ns);
            var r1 := ExpandResult(s1, ns);
            if r1.Ok? {
              ProgressTrans(s, s1, r1.game);
            }
            assert GuessResult(s, p, direct) == if r1.Panic? then Panic else Ok(CheckWon(r1.game));
          } else {
            assert GuessResult(s, p, direct) == Ok(CheckWon(s1));
          }
        }
      } else if sq.state == Guessed && direct && IsFinished(s.board, p) {
        ExpandProgress(s, Nbrs(s.board, p));
        assert GuessResult(s, p, direct) == ExpandResult(s, Nbrs(s.board, p));
      }
    }
  }

  lemma {:induction false} ExpandProgress(s: Snapshot, todo: seq<Pos>)
    requires Rect(s.board) && AllInBounds(s.board, todo)
    ensures ExpandResult(s, todo).Ok? ==> Progress(s, ExpandResult(s, todo).game)
    decreases Count(s.board, IsUnguessed), 2, |todo|
  {
    if todo != [] {
      GuessProgress(s, todo[0], false);
      var r0 := GuessResult(s, todo[0], false);
      if r0.Ok? && r0.game.state != Lost {
        var s1 := r0.game;
        ExpandProgress(s1, todo[1..]);
        var r := ExpandResult(s1, todo[1..]);
        if r.Ok? {
          ProgressTrans(s, s1, r.game);
        }
        assert ExpandResult(s, todo) == r;
      }
    }
  }

  /** An expansion that starts outside a loss and does not abort ends outside a loss. */
  lemma {:induction false} ExpandNotLost(s: Snapshot, todo: seq<Pos>)
    requires Rect(s.board) && AllInBounds(s.board, todo) && s.state != Lost
    ensures ExpandResult(s, todo).Ok? ==> ExpandResult(s, todo).game.state != Lost
    decreases |todo|
  {
    if todo != [] {
      match GuessResult(s, todo[0], false)
      case Panic =>
      case Ok(s1) =>
        if s1.state != Lost {
          ExpandNotLost(s1, todo[1..]);
        }
    }
  }

  // ---------------------------------------------------------------------
  // The invariant is preserved

  /** Moves that keep every square mine-like or not keep the mine counts. */
  lemma EvolvesKeepsCounts(a: Board, b: Board)
    requires BoardEvolves(a, b)
    ensures Count(b, IsMineLikeSquare) == Count(a, IsMineLikeSquare)
    ensures forall q :: InBounds(a, q) ==> MinesAround(b, q) == MinesAround(a, q)
    ensures CountsAgree(a) ==> CountsAgree(b)
  {
    CountSame(b, a, IsMineLikeSquare, IsMineLikeSquare);
    forall q | InBounds(a, q)
      ensures MinesAround(b, q) == MinesAround(a, q)
    {
      CountAtSame(b, a, Nbrs(a, q), IsMineLikeSquare, IsMineLikeSquare);
    }
  }

  /** Revealing a hidden square without a mine keeps every count. */
  lemma RevealMines(s: Snapshot, p: Pos)
    requires Rect(s.board) && s.generated && InBounds(s.board, p) && MinesOk(s)
    requires At(s.board, p).state == Unguessed
    ensures MinesOk(Revealed(s, p))
  {
    var t := Revealed(s, p);
    assert BoardEvolves(s.board, t.board);
    EvolvesKeepsCounts(s.board, t.board);
  }

  /** Revealing a hidden square without a mine counts it once. */
  lemma RevealGuessed(s: Snapshot, p: Pos)
    requires Rect(s.board) && InBounds(s.board, p) && GuessedOk(s)
    requires At(s.board, p).state == Unguessed && At(s.board, p).contents.Empty?
    ensures GuessedOk(Revealed(s, p))
  {
    var t := Revealed(s, p);
    CountUpdate(s.board, p, At(t.board, p), IsRevealedSafe);
  }

  lemma RevealLosing(s: Snapshot, p: Pos)
    requires Rect(s.board) && InBounds(s.board, p) && LosingOk(s)
    ensures LosingOk(Revealed(s, p))
  {
    var t := Revealed(s, p);
    CountSame(s.board, t.board, IsLosingSquare, IsLosingSquare);
  }

  lemma RevealInv(s: Snapshot, p: Pos)
    requires Inv(s) && s.generated && s.state == InProg && InBounds(s.board, p)
    requires At(s.board, p).state == Unguessed && At(s.board, p).contents != Mine
    ensures At(s.board, p).contents.Empty?
    ensures Inv(Revealed(s, p))
  {
    if At(s.board, p).contents == LosingMine {
      CountAtLeastOne(s.board, p, IsLosingSquare);
    }
    RevealMines(s, p);
    RevealGuessed(s, p);
    RevealLosing(s, p);
  }

  lemma LoseMines(s: Snapshot, p: Pos)
    requires Rect(s.board) && s.generated && InBounds(s.board, p) && MinesOk(s)
    requires At(s.board, p) == Square(Mine, Unguessed)
    ensures MinesOk(Lose(s, p))
  {
    SweepEvolves(s.board, p);
    EvolvesKeepsCounts(s.board, Lose(s, p).board);
  }

  lemma LoseGuessed(s: Snapshot, p: Pos)
    requires Rect(s.board) && InBounds(s.board, p) && GuessedOk(s)
    requires At(s.board, p) == Square(Mine, Unguessed)
    ensures GuessedOk(Lose(s, p))
  {
    SweepEvolves(s.board, p);
    CountSame(s.board, Lose(s, p).board, IsRevealedSafe, IsRevealedSafe);
  }

  lemma LoseLosing(s: Snapshot, p: Pos)
    requires Rect(s.board) && InBounds(s.board, p) && LosingOk(s) && s.state == InProg
    requires At(s.board, p) == Square(Mine, Unguessed)
    ensures LosingOk(Lose(s, p))
  {
    var b1 := Set(s.board, p, Square(LosingMine, Guessed));
    CountUpdate(s.board, p, Square(LosingMine, Guessed), IsLosingSquare);
    CountSame(b1, Lose(s, p).board, IsLosingSquare, IsLosingSquare);
  }

  lemma LoseInv(s: Snapshot, p: Pos)
    requires Inv(s) && s.generated && s.state == InProg && InBounds(s.board, p)
    requires At(s.board, p) == Square(Mine, Unguessed)
    ensures Inv(Lose(s, p))
  {
    LoseMines(s, p);
    LoseGuessed(s, p);
    LoseLosing(s, p);
  }

  /** The win test keeps the invariant of a game that is not lost. */
  lemma CheckWonInv(t: Snapshot)
    requires Inv(t) && t.generated && t.state != Lost
    ensures Inv(CheckWon(t)) && CheckWon(t).state != Lost
  {
  }

  lemma {:induction false} GuessInv(s: Snapshot, p: Pos, direct: bool)
    requires Inv(s) && s.generated && InBounds(s.board, p)
    ensures GuessResult(s, p, direct).Ok? ==> Inv(GuessResult(s, p, direct).game)
    decreases Count(s.board, IsUnguessed), if direct then 3 else 1, 0
  {
    if s.state == InProg {
      var sq := At(s.board, p);
      if sq.state == Unguessed {
        if sq.contents == Mine {
          LoseInv(s, p);
          assert GuessResult(s, p, direct) == Ok(Lose(s, p));
        } else {
          RevealInv(s, p);
          var s1 := Revealed(s, p);
          CountUpdate(s.board, p, sq.(state := Guessed), IsUnguessed);
          if sq.contents == Empty(0) {
            var ns := Nbrs(s.board, p);
            ExpandInv(s1, ns);
            ExpandNotLost(s1, ns);
            var r1 := ExpandResult(s1, ns);
            if r1.Ok? {
              CheckWonInv(r1.game);
            }
            assert GuessResult(s, p, direct) == if r1.Panic? then Panic else Ok(CheckWon(r1.game));
          } else {
            CheckWonInv(s1);
            assert GuessResult(s, p, direct) == Ok(CheckWon(s1));
          }
        }
      } else if sq.state == Guessed && direct && IsFinished(s.board, p) {
        ExpandInv(s, Nbrs(s.board, p));
        assert GuessResult(s, p, direct) == ExpandResult(s, Nbrs(s.board, p));
      }
    }
  }

  lemma {:induction false} ExpandInv(s: Snapshot, todo: seq<Pos>)
    requires Inv(s) && s.generated && AllInBounds(s.board, todo)
    ensures ExpandResult(s, todo).Ok? ==> Inv(ExpandResult(s, todo).game)
    decreases Count(s.board, IsUnguessed), 2, |todo|
  {
    if todo != [] {
      GuessInv(s, todo[0], false);
      match GuessResult(s, todo[0], false)
      case Panic =>
      case Ok(s1) =>
        if s1.state != Lost {
          ExpandInv(s1, todo[1..]);
        }
    }
  }

  // ---------------------------------------------------------------------
  // Flood fill never loses

  /** An empty square with no mine around it has no mine-like neighbour. */
  lemma ZeroHasNoMineNeighbour(b: Board, p: Pos)
    requires Rect(b) && InBounds(b, p) && CountsAgree(b) && At(b, p).contents == Empty(0)
    ensures forall k :: 0 <= k < |Nbrs(b, p)| ==> !IsMineLike(At(b, Nbrs(b, p)[k]).contents)
  {
    assert MinesAround(b, p) == 0;
  }

  /** Right after a zero is revealed none of its neighbours holds a mine. */
  lemma RevealedZeroHasNoMineNeighbour(s: Snapshot, p: Pos)
    requires Rect(s.board) && InBounds(s.board, p) && CountsAgree(s.board) && At(s.board, p).contents == Empty(0)
    ensures forall k :: 0 <= k < |Nbrs(s.board, p)| ==>
              !IsMineLike(At(Revealed(s, p).board, Nbrs(s.board, p)[k]).contents)
  {
    var ns := Nbrs(s.board, p);
    var s1 := Revealed(s, p);
    ZeroHasNoMineNeighbour(s.board, p);
    forall k | 0 <= k < |ns|
      ensures !IsMineLike(At(s1.board, ns[k]).contents)
    {
      assert At(s1.board, ns[k]).contents == At(s.board, ns[k]).contents;
    }
  }

  /** A guess by `expand` at a square without a mine neither aborts nor loses. */
  lemma {:induction false} GuessSafe(s: Snapshot, p: Pos)
    requires Inv(s) && s.generated && s.state != Lost && InBounds(s.board, p)
    requires !IsMineLike(At(s.board, p).contents)
    ensures GuessResult(s, p, false).Ok? && GuessResult(s, p, false).game.state != Lost
    decreases Count(s.board, IsUnguessed), 1, 0
  {
    if s.state == InProg && At(s.board, p).state == Unguessed {
      RevealInv(s, p);
      var s1 := Revealed(s, p);
      CountUpdate(s.board, p, At(s.board, p).(state := Guessed), IsUnguessed);
      if At(s.board, p).contents == Empty(0) {
        var ns := Nbrs(s.board, p);
        RevealedZeroHasNoMineNeighbour(s, p);
        ExpandSafe(s1, ns);
        assert GuessResult(s, p, false) == Ok(CheckWon(ExpandResult(s1, ns).game));
      } else {
        assert GuessResult(s, p, false) == Ok(CheckWon(s1));
      }
    }
  }

  /** Expanding over squares none of which holds a mine neither aborts nor loses. */
  lemma {:induction false} ExpandSafe(s: Snapshot, todo: seq<Pos>)
    requires Inv(s) && s.generated && s.state != Lost && AllInBounds(s.board, todo)
    requires forall k :: 0 <= k < |todo| ==> !IsMineLike(At(s.board, todo[k]).contents)
    ensures ExpandResult(s, todo).Ok? && ExpandResult(s, todo).game.state != Lost
    decreases Count(s.board, IsUnguessed), 2, |todo|
  {
    if todo != [] {
      GuessSafe(s, todo[0]);
      GuessInv(s, todo[0], false);
      GuessProgress(s, todo[0], false);
      var s1 := GuessResult(s, todo[0], false).game;
      forall k | 0 <= k < |todo[1..]|
        ensures !IsMineLike(At(s1.board, todo[1..][k]).contents)
      {
        assert todo[1..][k] == todo[k + 1];
      }
      ExpandSafe(s1, todo[1..]);
      assert ExpandResult(s, todo) == ExpandResult(s1, todo[1..]);
    }
  }

  // ---------------------------------------------------------------------
  // The outcomes of a guess

  /** A guess after the game is over, or at a flagged square, changes nothing. */
  lemma GuessNoOp(s: Snapshot, p: Pos, direct: bool)
    requires Rect(s.board) && InBounds(s.board, p)
    requires s.state != InProg || At(s.board, p).state == Flagged || At(s.board, p).state == BadFlagged
    ensures GuessResult(s, p, direct) == Ok(s)
  {
  }

  /** Revealing a mine loses: that mine becomes the LosingMine, every other
      hidden mine is revealed, every flag on a square without a mine turns bad,
      and nothing else changes. */
  lemma LossOutcome(s: Snapshot, p: Pos, direct: bool)
    requires Rect(s.board) && InBounds(s.board, p) && s.state == InProg
    requires At(s.board, p) == Square(Mine, Unguessed)
    ensures GuessResult(s, p, direct).Ok?
    ensures var t := GuessResult(s, p, direct).game;
      t.state == Lost && t.numGuessed == s.numGuessed && t.mines == s.mines &&
      t.generated == s.generated && SameShape(s.board, t.board) &&
      At(t.board, p) == Square(LosingMine, Guessed) &&
      forall q :: InBounds(s.board, q) && q != p ==>
        At(t.board, q).contents == At(s.board, q).contents &&
        At(t.board, q).state ==
          (if At(s.board, q).contents == Mine && At(s.board, q).state == Unguessed then Guessed
           else if At(s.board, q).contents != Mine && At(s.board, q).state == Flagged then BadFlagged
           else At(s.board, q).state)
  {
  }

  /** Revealing a square without a mine never loses (flood fill from a zero
      never reaches a mine), reveals that square, counts it, and wins exactly
      when the revealed squares and the mines fill the board. */
  lemma RevealOutcome(s: Snapshot, p: Pos, direct: bool)
    requires Inv(s) && s.generated && s.state == InProg && InBounds(s.board, p)
    requires At(s.board, p).state == Unguessed && At(s.board, p).contents != Mine
    ensures GuessResult(s, p, direct).Ok?
    ensures var t := GuessResult(s, p, direct).game;
      Inv(t) && t.state != Lost && At(t.board, p).state == Guessed &&
      t.numGuessed >= s.numGuessed + 1 &&
      (t.state == Won <==> t.numGuessed + t.mines == |t.board| * Width(t.board))
  {
    var t1 := RevealBeforeWinCheck(s, p, direct);
    CheckWonInv(t1);
  }

  /** The game a safe reveal reaches just before its win test. */
  lemma RevealBeforeWinCheck(s: Snapshot, p: Pos, direct: bool) returns (t1: Snapshot)
    requires Inv(s) && s.generated && s.state == InProg && InBounds(s.board, p)
    requires At(s.board, p).state == Unguessed && At(s.board, p).contents != Mine
    ensures GuessResult(s, p, direct) == Ok(CheckWon(t1))
    ensures Inv(t1) && t1.generated && t1.state != Lost && SameShape(s.board, t1.board)
    ensures At(t1.board, p).state == Guessed && t1.numGuessed >= s.numGuessed + 1
  {
    RevealInv(s, p);
    var s1 := Revealed(s, p);
    t1 := s1;
    if At(s.board, p).contents == Empty(0) {
      var ns := Nbrs(s.board, p);
      RevealedZeroHasNoMineNeighbour(s, p);
      ExpandSafe(s1, ns);
      ExpandInv(s1, ns);
      ExpandProgress(s1, ns);
      t1 := ExpandResult(s1, ns).game;
      assert GuessResult(s, p, direct) == Ok(CheckWon(t1));
    } else {
      assert GuessResult(s, p, direct) == Ok(CheckWon(t1));
    }
  }

  /** A guess made by `expand` at a hidden square reveals it, unless the game ends. */
  lemma GuessRevealsTarget(s: Snapshot, p: Pos)
    requires Rect(s.board) && InBounds(s.board, p) && s.state == InProg
    requires At(s.board, p).state == Unguessed
    requires GuessResult(s, p, false).Ok? && GuessResult(s, p, false).game.state == InProg
    ensures At(GuessResult(s, p, false).game.board, p).state == Guessed
  {
    if At(s.board, p).contents != Mine && At(s.board, p).contents == Empty(0) {
      ExpandProgress(Revealed(s, p), Nbrs(s.board, p));
    }
  }

  /** An expansion that leaves the game running reveals every hidden square it visits. */
  lemma {:induction false} ExpandReveals(s: Snapshot, todo: seq<Pos>)
    requires Rect(s.board) && AllInBounds(s.board, todo)
    requires ExpandResult(s, todo).Ok? && ExpandResult(s, todo).game.state == InProg
    ensures forall k :: 0 <= k < |todo| && At(s.board, todo[k]).state == Unguessed ==>
              At(ExpandResult(s, todo).game.board, todo[k]).state == Guessed
    decreases |todo|
  {
    if todo != [] {
      var t := ExpandResult(s, todo).game;
      GuessProgress(s, todo[0], false);
      var s1 := GuessResult(s, todo[0], false).game;
      ExpandProgress(s1, todo[1..]);
      assert s1.state == InProg;
      ExpandReveals(s1, todo[1..]);
      if At(s.board, todo[0]).state == Unguessed {
        GuessRevealsTarget(s, todo[0]);
      }
      forall k | 0 <= k < |todo| && At(s.board, todo[k]).state == Unguessed
        ensures At(t.board, todo[k]).state == Guessed
      {
        if k > 0 {
          assert todo[k] == todo[1..][k - 1];
        }
      }
    }
  }

  /** A chord: re-guessing a revealed Empty(n) square that has exactly n
      flagged neighbours guesses all of them; when the game goes on, every
      hidden neighbour is then revealed. Otherwise nothing changes. */
  lemma ChordOutcome(s: Snapshot, p: Pos)
    requires Rect(s.board) && InBounds(s.board, p) && s.state == InProg
    requires At(s.board, p).state == Guessed
    ensures !IsFinished(s.board, p) ==> GuessResult(s, p, true) == Ok(s)
    ensures IsFinished(s.board, p) ==> GuessResult(s, p, true) == ExpandResult(s, Nbrs(s.board, p))
    ensures IsFinished(s.board, p) && GuessResult(s, p, true).Ok? &&
            GuessResult(s, p, true).game.state == InProg ==>
              forall q :: q in Nbrs(s.board, p) && At(s.board, q).state == Unguessed ==>
                At(GuessResult(s, p, true).game.board, q).state == Guessed
  {
    if IsFinished(s.board, p) && GuessResult(s, p, true).Ok? && GuessResult(s, p, true).game.state == InProg {
      ExpandReveals(s, Nbrs(s.board, p));
    }
  }

  /** A guess made by `expand` at an already revealed square never chords. */
  lemma IndirectGuessOfRevealedIsNoOp(s: Snapshot, p: Pos)
    requires Rect(s.board) && InBounds(s.board, p) && At(s.board, p).state == Guessed
    ensures GuessResult(s, p, false) == Ok(s)
  {
  }

  /** `num_guessed` never decreases, no square returns to Unguessed, and the
      mines stay where they are. */
  lemma GuessMonotone(s: Snapshot, p: Pos, direct: bool)
    requires Rect(s.board) && InBounds(s.board, p)
    requires GuessResult(s, p, direct).Ok?
    ensures var t := GuessResult(s, p, direct).game;
      t.numGuessed >= s.numGuessed && t.mines == s.mines &&
      forall q :: InBounds(s.board, q) ==>
        (At(s.board, q).state != Unguessed ==> At(t.board, q).state != Unguessed) &&
        (IsMineLike(At(t.board, q).contents) <==> IsMineLike(At(s.board, q).contents))
  {
    GuessProgress(s, p, direct);
  }

  // ---------------------------------------------------------------------
  // What the invariant gives

  function Covered(i: nat, j: nat, s: Square): bool {
    IsRevealedSafe(i, j, s) || IsMineLikeSquare(i, j, s)
  }

  function Uncovered(i: nat, j: nat, s: Square): bool {
    !Covered(i, j, s)
  }

  /** Under the invariant the squares neither revealed nor mined make up
      the rest of the board. */
  lemma UncoveredCount(s: Snapshot)
    requires Inv(s) && s.generated
    ensures Count(s.board, Uncovered) + s.numGuessed + s.mines == |s.board| * Width(s.board)
  {
    var b := s.board;
    CountSplit(b, Covered, IsRevealedSafe, IsMineLikeSquare);
    CountSplit(b, InRect(0, |b|, 0, Width(b)), Covered, Uncovered);
    CountRect(b, 0, |b|, 0, Width(b));
  }

  /** The win test `num_guessed + mines == height * width` holds exactly when
      every square without a mine has been revealed. */
  lemma WinMeansAllSafeRevealed(s: Snapshot)
    requires Inv(s) && s.generated
    ensures s.numGuessed + s.mines == |s.board| * Width(s.board) <==>
            forall i, j :: 0 <= i < |s.board| && 0 <= j < Width(s.board) ==>
              IsMineLike(s.board[i][j].contents) || s.board[i][j].state == Guessed
  {
    var b := s.board;
    UncoveredCount(s);
    if s.numGuessed + s.mines == |b| * Width(b) {
      forall i, j | 0 <= i < |b| && 0 <= j < Width(b)
        ensures IsMineLike(b[i][j].contents) || b[i][j].state == Guessed
      {
        if Uncovered(i, j, b[i][j]) {
          CountAtLeastOne(b, (i, j), Uncovered);
        }
      }
    } else if forall i, j :: 0 <= i < |b| && 0 <= j < Width(b) ==>
                IsMineLike(b[i][j].contents) || b[i][j].state == Guessed {
      CountNone(b, Uncovered);
    }
  }

  /** Every recorded count is at most 8, so the byte-wide increment in mine
      placement never overflows. */
  lemma CountAtMostEight(b: Board, p: Pos)
    requires Rect(b) && CountsAgree(b) && InBounds(b, p) && At(b, p).contents.Empty?
    ensures At(b, p).contents.n <= 8
  {
    var ns := Nbrs(b, p);
    NeighboursCount(p.0, p.1, |b|, Width(b));
    if p.1 == 0 {
      NeighboursYieldCentre(p.0, |b|, Width(b));
      var k :| 0 <= k < |ns| && ns[k] == p;
      CountAtMissing(b, ns, IsMineLikeSquare, k);
    }
  }

  // ---------------------------------------------------------------------
  // Flags

  /** Toggling a flag never changes the game state, the guess count or any contents. */
  lemma ToggleKeeps(s: Snapshot, p: Pos)
    requires Rect(s.board) && InBounds(s.board, p)
    ensures var t := Toggled(s, p);
      t.state == s.state && t.numGuessed == s.numGuessed && t.mines == s.mines &&
      t.generated == s.generated && SameShape(s.board, t.board) &&
      (forall q :: InBounds(s.board, q) ==>
         At(t.board, q).contents == At(s.board, q).contents &&
         (q != p ==> At(t.board, q) == At(s.board, q))) &&
      At(t.board, p).state ==
        (if At(s.board, p).state == Unguessed then Flagged
         else if At(s.board, p).state == Flagged then Unguessed
         else At(s.board, p).state)
  {
  }

  /** Toggling twice restores the game. */
  lemma ToggleTwice(s: Snapshot, p: Pos)
    requires Rect(s.board) && InBounds(s.board, p)
    ensures Toggled(Toggled(s, p), p) == s
  {
    var t := Toggled(Toggled(s, p), p);
    assert t.board[p.0] == s.board[p.0];
    assert t.board == s.board;
  }

  lemma ToggleFresh(s: Snapshot, p: Pos)
    requires Rect(s.board) && InBounds(s.board, p) && FreshOk(s)
    ensures FreshOk(Toggled(s, p))
  {
  }

  lemma ToggleMines(s: Snapshot, p: Pos)
    requires Rect(s.board) && InBounds(s.board, p) && MinesOk(s)
    ensures MinesOk(Toggled(s, p))
  {
    EvolvesKeepsCountsOnContents(s.board, Toggled(s, p).board);
  }

  lemma ToggleCounts(s: Snapshot, p: Pos)
    requires Rect(s.board) && InBounds(s.board, p) && GuessedOk(s) && LosingOk(s)
    ensures GuessedOk(Toggled(s, p)) && LosingOk(Toggled(s, p))
  {
    var t := Toggled(s, p);
    CountSame(s.board, t.board, IsRevealedSafe, IsRevealedSafe);
    CountSame(s.board, t.board, IsLosingSquare, IsLosingSquare);
  }

  lemma ToggleInv(s: Snapshot, p: Pos)
    requires Inv(s) && InBounds(s.board, p)
    ensures Inv(Toggled(s, p))
  {
    ToggleFresh(s, p);
    ToggleMines(s, p);
    ToggleCounts(s, p);
  }

  /** Boards with the same contents square by square have the same mine counts. */
  lemma EvolvesKeepsCountsOnContents(a: Board, b: Board)
    requires SameShape(a, b)
    requires forall i, j :: 0 <= i < |a| && 0 <= j < Width(a) ==> b[i][j].contents == a[i][j].contents
    ensures Count(b, IsMineLikeSquare) == Count(a, IsMineLikeSquare)
    ensures CountsAgree(a) ==> CountsAgree(b)
  {
    CountSame(b, a, IsMineLikeSquare, IsMineLikeSquare);
    forall q | InBounds(a, q)
      ensures MinesAround(b, q) == MinesAround(a, q)
    {
      CountAtSame(b, a, Nbrs(a, q), IsMineLikeSquare, IsMineLikeSquare);
    }
  }
}
