/** Consequences of the engine's rules that a player can run into: a chord
    on a square with a wrong flag aborts inside `expand`, and a board with
    no room outside the first guess's box never finishes placing mines. */
module Scenarios {
  import opened Square
  import opened Neighbourhood
  import opened Grid
  import opened Engine
  import opened Generation

  /** `expand` passes over squares that are already revealed or flagged
      and aborts at the first hidden mine it guesses. */
  lemma {:induction false} ExpandHitsMine(s: Snapshot, todo: seq<Pos>, k: nat)
    requires Rect(s.board) && AllInBounds(s.board, todo) && s.state == InProg
    requires k < |todo| && At(s.board, todo[k]) == Square(Mine, Unguessed)
    requires forall m :: 0 <= m < k ==> At(s.board, todo[m]).state != Unguessed
    ensures ExpandResult(s, todo) == Panic
    decreases k
  {
    if k == 0 {
      assert GuessResult(s, todo[0], false) == Ok(Lose(s, todo[0]));
    } else {
      assert GuessResult(s, todo[0], false) == Ok(s);
      assert AllInBounds(s.board, todo[1..]);
      forall m | 0 <= m < k - 1
        ensures At(s.board, todo[1..][m]).state != Unguessed
      {
        assert todo[1..][m] == todo[m + 1];
      }
      ExpandHitsMine(s, todo[1..], k - 1);
    }
  }

  /** A player's guess on a revealed square whose count matches its flags
      expands around it; when a flag is misplaced, the first hidden mine
      the expansion reaches loses the game inside `expand`, which aborts. */
  lemma ChordIntoMinePanics(s: Snapshot, p: Pos, k: nat)
    requires Rect(s.board) && InBounds(s.board, p) && s.state == InProg
    requires At(s.board, p).state == Guessed && IsFinished(s.board, p)
    requires k < |Nbrs(s.board, p)| && At(s.board, Nbrs(s.board, p)[k]) == Square(Mine, Unguessed)
    requires forall m :: 0 <= m < k ==> At(s.board, Nbrs(s.board, p)[m]).state != Unguessed
    ensures GuessResult(s, p, true) == Panic
  {
    assert GuessResult(s, p, true) == ExpandResult(s, Nbrs(s.board, p));
    ExpandHitsMine(s, Nbrs(s.board, p), k);
  }

  /** On a board of two rows and one column the box around either square is
      the whole board, so one mine has no room: no placement of it exists,
      and `generate` keeps drawing forever. */
  lemma TwoByOneHasNoRoom(before: Board, b: Board, p: Pos)
    requires Rect(b) && |b| == 2 && Width(b) == 1 && InBounds(b, p)
    ensures !Room(b, 1, p)
    ensures !Seeded(before, b, p, 1)
  {
    assert BoxSize(p, 2, 1) == 2;
    if Seeded(before, b, p, 1) {
      SeededBound(before, b, p, 1);
    }
  }
}
