/** Mine placement (`generate`): the rejection sampling places each mine
    outside the 3x3 box around the first guess and raises the count of
    every Empty neighbour. Here: what a single accepted draw does, that it
    keeps the counts right, and when a free square is left to draw. */
module Generation {
  import opened Square
  import opened Neighbourhood
  import opened Grid
  import opened Engine
  import opened Invariants

  /** The number of board squares within one row and one column of p. */
  function BoxSize(p: Pos, height: nat, width: nat): nat
    requires p.0 < height && p.1 < width
  {
    (Upper(p.0, height) - Lower(p.0)) * (Upper(p.1, width) - Lower(p.1))
  }

  /** Room for `mines` mines outside the box around p. Draws inside the box
      or on a mine are rejected and drawn again, so `generate` ends (with
      probability 1) exactly when this holds; otherwise it loops forever. */
  predicate Room(b: Board, mines: nat, p: Pos)
    requires Rect(b) && InBounds(b, p)
  {
    mines + BoxSize(p, |b|, Width(b)) <= |b| * Width(b)
  }

  // ---------------------------------------------------------------------
  // One accepted draw

  /** Raise an Empty(n) square to Empty(n + 1); other squares stay. */
  function Bump(sq: Square): (r: Square)
    ensures r.state == sq.state
    ensures IsMineLike(r.contents) == IsMineLike(sq.contents) && (r.contents == Mine) == (sq.contents == Mine)
    ensures sq.contents.Empty? ==> r.contents == Empty(sq.contents.n + 1)
  {
    match sq.contents
    case Empty(n) => sq.(contents := Empty(n + 1))
    case _ => sq
  }

  /** The board with every square listed in ps bumped. */
  function Bumped(b: Board, ps: seq<Pos>): (r: Board)
    requires Rect(b)
    ensures SameShape(b, r)
    ensures forall i, j :: 0 <= i < |b| && 0 <= j < Width(b) ==>
              r[i][j] == if (i, j) in ps then Bump(b[i][j]) else b[i][j]
    ensures forall i, j :: 0 <= i < |b| && 0 <= j < Width(b) ==>
              r[i][j].state == b[i][j].state && IsMineLike(r[i][j].contents) == IsMineLike(b[i][j].contents)
    ensures forall i, j :: 0 <= i < |b| && 0 <= j < Width(b) && (i, j) in ps && b[i][j].contents.Empty? ==>
              r[i][j].contents == Empty(b[i][j].contents.n + 1)
    ensures forall i, j :: 0 <= i < |b| && 0 <= j < Width(b) && (i, j) !in ps ==> r[i][j] == b[i][j]
  {
    seq(|b|, i requires 0 <= i < |b| =>
      seq(|b[i]|, j requires 0 <= j < |b[i]| => if (i, j) in ps then Bump(b[i][j]) else b[i][j]))
  }

  /** An accepted draw at m: a mine at m, and every Empty neighbour of m
      (as the enumerator yields them) counts one more mine. */
  function PlaceMine(b: Board, m: Pos): (r: Board)
    requires Rect(b) && InBounds(b, m)
    ensures SameShape(b, r)
  {
    var b1 := Set(b, m, At(b, m).(contents := Mine));
    Bumped(b1, Nbrs(b1, m))
  }

  /** After an accepted draw at m: m holds a mine, m's neighbours are
      bumped, and every other square is as it was. */
  lemma PlaceMineAt(b: Board, m: Pos, q: Pos)
    requires Rect(b) && InBounds(b, m) && InBounds(b, q)
    ensures SameShape(b, PlaceMine(b, m))
    ensures At(PlaceMine(b, m), q) ==
              if q == m then At(b, m).(contents := Mine)
              else if q in Nbrs(b, m) then Bump(At(b, q))
              else At(b, q)
  {
    var b1 := Set(b, m, At(b, m).(contents := Mine));
    assert Nbrs(b1, m) == Nbrs(b, m);
    assert At(PlaceMine(b, m), q) == if q in Nbrs(b, m) then Bump(At(b1, q)) else At(b1, q);
  }

  /** `b` is `bm` with the positions in `done` bumped, square by square. */
  ghost predicate BumpedSoFar(bm: Board, b: Board, done: seq<Pos>) {
    SameShape(bm, b) &&
    forall i, j :: 0 <= i < |bm| && 0 <= j < Width(bm) ==>
      b[i][j] == if (i, j) in done then Bump(bm[i][j]) else bm[i][j]
  }

  /** The step of the loop over a new mine's neighbours: bumping the next
      square, not seen before, if it is Empty, bumps one more position. */
  lemma BumpedSoFarStep(bm: Board, b: Board, done: seq<Pos>, p: Pos)
    requires BumpedSoFar(bm, b, done) && InBounds(bm, p) && p !in done
    ensures BumpedSoFar(bm, if b[p.0][p.1].contents.Empty?
                            then Set(b, p, b[p.0][p.1].(contents := Empty(b[p.0][p.1].contents.n + 1)))
                            else b, done + [p])
  {
    var b' := if b[p.0][p.1].contents.Empty?
              then Set(b, p, b[p.0][p.1].(contents := Empty(b[p.0][p.1].contents.n + 1)))
              else b;
    forall i, j | 0 <= i < |bm| && 0 <= j < Width(bm)
      ensures b'[i][j] == if (i, j) in done + [p] then Bump(bm[i][j]) else bm[i][j]
    {
      assert (i, j) in done + [p] <==> (i, j) in done || (i, j) == p;
      assert At(b', (i, j)) == b'[i][j];
    }
  }

  /** Once the loop has bumped every position of `ps`, the board is `Bumped(bm, ps)`. */
  lemma BumpedSoFarDone(bm: Board, b: Board, ps: seq<Pos>)
    requires BumpedSoFar(bm, b, ps)
    ensures b == Bumped(bm, ps)
  {
    var r := Bumped(bm, ps);
    forall i | 0 <= i < |bm|
      ensures b[i] == r[i]
    {
    }
  }

  // ---------------------------------------------------------------------
  // What a partial placement satisfies

  /** `b` is `before` with k mines placed outside the box around p: the
      states are untouched, every square is a Mine or Empty, and every
      count is right. */
  ghost predicate Seeded(before: Board, b: Board, p: Pos, k: nat) {
    SameShape(before, b) && InBounds(b, p) && SeededSquares(before, b, p) &&
    Count(b, IsMineSquare) == k && CountsAgree(b)
  }

  /** Square by square: the state is untouched, the contents is a Mine or
      Empty, and no mine lies next to p. */
  ghost predicate SeededSquares(before: Board, b: Board, p: Pos)
    requires SameShape(before, b)
  {
    forall i, j :: 0 <= i < |b| && 0 <= j < Width(b) ==>
      b[i][j].state == before[i][j].state &&
      (b[i][j].contents == Mine || b[i][j].contents.Empty?) &&
      (b[i][j].contents == Mine ==> !Adjacent((i, j), p))
  }

  /** `after` is `before` with all `before.mines` mines placed around the
      first guess p, `generated` set, and nothing else changed. */
  ghost predicate Placed(before: Snapshot, after: Snapshot, p: Pos) {
    after == before.(board := after.board, generated := true) &&
    Seeded(before.board, after.board, p, before.mines)
  }

  /** A board of Empty(0) squares is a placement of no mines. */
  lemma SeededStart(b: Board, p: Pos)
    requires Rect(b) && InBounds(b, p)
    requires forall i, j :: 0 <= i < |b| && 0 <= j < Width(b) ==> b[i][j].contents == Empty(0)
    ensures Seeded(b, b, p, 0)
  {
    CountNone(b, IsMineSquare);
    forall q | InBounds(b, q)
      ensures CountOk(b, q)
    {
      CountAtNone(b, Nbrs(b, q), IsMineLikeSquare);
    }
  }

  /** m is counted around q exactly when q is counted around m. */
  lemma NeighbourSymmetric(b: Board, m: Pos, q: Pos)
    requires Rect(b) && InBounds(b, m) && InBounds(b, q) && m != q
    ensures m in Nbrs(b, q) <==> q in Nbrs(b, m)
  {
    NeighboursHas(q.0, q.1, |b|, Width(b), m);
    NeighboursHas(m.0, m.1, |b|, Width(b), q);
  }

  /** After a mine is placed at m, a square q other than m counts one more
      mine exactly when it is among m's neighbours. */
  lemma AroundAfterPlace(b: Board, m: Pos, q: Pos)
    requires Rect(b) && InBounds(b, m) && InBounds(b, q) && m != q
    requires !IsMineLike(At(b, m).contents)
    ensures MinesAround(PlaceMine(b, m), q) == MinesAround(b, q) + Ind(q in Nbrs(b, m))
  {
    var b1 := Set(b, m, At(b, m).(contents := Mine));
    var r := PlaceMine(b, m);
    var ns := Nbrs(b, q);
    assert Nbrs(r, q) == ns && Nbrs(b1, q) == ns;
    CountAtSame(r, b1, ns, IsMineLikeSquare, IsMineLikeSquare);
    NeighboursIncreasing(q.0, q.1, |b|, Width(b));
    CountAtUpdate(b, ns, m, At(b, m).(contents := Mine), IsMineLikeSquare);
    NeighbourSymmetric(b, m, q);
  }

  lemma PlaceMineCountOk(b: Board, m: Pos, q: Pos)
    requires Rect(b) && InBounds(b, m) && InBounds(b, q) && CountOk(b, q)
    requires At(b, m).contents.Empty?
    ensures CountOk(PlaceMine(b, m), q)
  {
    PlaceMineAt(b, m, q);
    if q != m {
      AroundAfterPlace(b, m, q);
    }
  }

  lemma PlaceMineAgrees(b: Board, m: Pos)
    requires Rect(b) && InBounds(b, m) && CountsAgree(b)
    requires At(b, m).contents.Empty?
    ensures CountsAgree(PlaceMine(b, m))
  {
    forall q | InBounds(PlaceMine(b, m), q)
      ensures CountOk(PlaceMine(b, m), q)
    {
      PlaceMineCountOk(b, m, q);
    }
  }

  lemma PlaceMineCount(b: Board, m: Pos)
    requires Rect(b) && InBounds(b, m) && At(b, m).contents != Mine
    ensures Count(PlaceMine(b, m), IsMineSquare) == Count(b, IsMineSquare) + 1
  {
    var b1 := Set(b, m, At(b, m).(contents := Mine));
    CountSame(PlaceMine(b, m), b1, IsMineSquare, IsMineSquare);
    CountUpdate(b, m, At(b, m).(contents := Mine), IsMineSquare);
  }

  lemma PlaceMineShape(before: Board, b: Board, p: Pos, m: Pos)
    requires SameShape(before, b) && SeededSquares(before, b, p) && InBounds(b, m)
    requires At(b, m).contents != Mine && !Adjacent(m, p)
    ensures SameShape(before, PlaceMine(b, m)) && SeededSquares(before, PlaceMine(b, m), p)
  {
    var r := PlaceMine(b, m);
    forall i, j | 0 <= i < |r| && 0 <= j < Width(r)
      ensures r[i][j].state == before[i][j].state &&
              (r[i][j].contents == Mine || r[i][j].contents.Empty?) &&
              (r[i][j].contents == Mine ==> !Adjacent((i, j), p))
    {
      PlaceMineAt(b, m, (i, j));
    }
  }

  /** An accepted draw on a partial placement of k mines gives one of k + 1. */
  lemma PlaceMineKeeps(before: Board, b: Board, p: Pos, k: nat, m: Pos)
    requires Seeded(before, b, p, k) && InBounds(b, m)
    requires At(b, m).contents != Mine && !Adjacent(m, p)
    ensures Seeded(before, PlaceMine(b, m), p, k + 1)
  {
    PlaceMineShape(before, b, p, m);
    PlaceMineAgrees(b, m);
    PlaceMineCount(b, m);
  }

  // ---------------------------------------------------------------------
  // Room for one more mine

  function Near(p: Pos): SquarePred {
    (i: nat, j: nat, s: Square) => Adjacent((i, j), p)
  }

  function Far(p: Pos): SquarePred {
    (i: nat, j: nat, s: Square) => !Adjacent((i, j), p)
  }

  function FarMine(p: Pos): SquarePred {
    (i: nat, j: nat, s: Square) => !Adjacent((i, j), p) && s.contents == Mine
  }

  function FarFree(p: Pos): SquarePred {
    (i: nat, j: nat, s: Square) => !Adjacent((i, j), p) && s.contents != Mine
  }

  /** BoxSize counts the board squares next to p (p included). */
  lemma BoxCount(b: Board, p: Pos)
    requires Rect(b) && InBounds(b, p)
    ensures Count(b, Near(p)) == BoxSize(p, |b|, Width(b))
  {
    var box := InRect(Lower(p.0), Upper(p.0, |b|), Lower(p.1), Upper(p.1, Width(b)));
    CountSame(b, b, Near(p), box);
    CountRect(b, Lower(p.0), Upper(p.0, |b|), Lower(p.1), Upper(p.1, Width(b)));
  }

  /** The squares away from p number height * width - BoxSize. */
  lemma FarCount(b: Board, p: Pos)
    requires Rect(b) && InBounds(b, p)
    ensures Count(b, Far(p)) + BoxSize(p, |b|, Width(b)) == |b| * Width(b)
  {
    BoxCount(b, p);
    CountSplit(b, InRect(0, |b|, 0, Width(b)), Near(p), Far(p));
    CountRect(b, 0, |b|, 0, Width(b));
  }

  /** The mines of a partial placement all lie away from p. */
  lemma FarMineCount(before: Board, b: Board, p: Pos, k: nat)
    requires Seeded(before, b, p, k)
    ensures Count(b, FarMine(p)) == k
  {
    CountSame(b, b, FarMine(p), IsMineSquare);
  }

  /** No placement outside the box can hold more mines than there is room
      for: Room is necessary for `generate` to finish. */
  lemma SeededBound(before: Board, b: Board, p: Pos, k: nat)
    requires Seeded(before, b, p, k)
    ensures Room(b, k, p)
  {
    FarCount(b, p);
    FarMineCount(before, b, p, k);
    CountMono(b, b, FarMine(p), Far(p));
  }

  /** With fewer than `mines` placed and room for all of them, an accepted
      draw exists: Room is sufficient for every step of `generate`. */
  lemma FreeSquare(before: Board, b: Board, p: Pos, k: nat, mines: nat) returns (m: Pos)
    requires Seeded(before, b, p, k) && k < mines && Room(b, mines, p)
    ensures InBounds(b, m) && At(b, m).contents != Mine && !Adjacent(m, p)
  {
    FarCount(b, p);
    FarMineCount(before, b, p, k);
    CountSplit(b, Far(p), FarMine(p), FarFree(p));
    m := CountWitness(b, FarFree(p));
  }

  // ---------------------------------------------------------------------
  // A finished placement

  /** Placing the mines of a fresh game yields a game satisfying the invariant. */
  lemma PlacedInv(before: Snapshot, after: Snapshot, p: Pos)
    requires Inv(before) && !before.generated && Placed(before, after, p)
    ensures Inv(after)
  {
    var b := after.board;
    CountSame(b, b, IsMineLikeSquare, IsMineSquare);
    CountNone(before.board, IsRevealedSafe);
    CountSame(before.board, b, IsRevealedSafe, IsRevealedSafe);
    CountNone(b, IsLosingSquare);
  }

  /** The first guessed square has no mine around it, so it starts a flood fill. */
  lemma FirstGuessIsZero(before: Snapshot, after: Snapshot, p: Pos)
    requires Placed(before, after, p)
    ensures At(after.board, p).contents == Empty(0)
  {
    var b := after.board;
    assert Adjacent(p, p);
    CountAtNone(b, Nbrs(b, p), IsMineLikeSquare);
  }
}
