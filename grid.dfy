/** The board as a grid of squares, and counting over it: over the whole
    board, and over a list of positions such as a square's neighbours. */
module Grid {
  import opened Square
  import opened Neighbourhood

  /** The board, indexed board[x][y]: x is the row, y the column. */
  type Board = seq<seq<Square>>

  /** A property of a square at a position. */
  type SquarePred = (nat, nat, Square) -> bool

  function Width(b: Board): nat {
    if |b| == 0 then 0 else |b[0]|
  }

  /** Every row has the width of the first. */
  predicate Rect(b: Board) {
    forall i :: 0 <= i < |b| ==> |b[i]| == Width(b)
  }

  predicate SameShape(a: Board, b: Board) {
    Rect(a) && Rect(b) && |a| == |b| && Width(a) == Width(b)
  }

  predicate InBounds(b: Board, p: Pos) {
    p.0 < |b| && p.1 < Width(b)
  }

  predicate AllInBounds(b: Board, ps: seq<Pos>) {
    forall k :: 0 <= k < |ps| ==> InBounds(b, ps[k])
  }

  function At(b: Board, p: Pos): Square
    requires Rect(b) && InBounds(b, p)
  {
    b[p.0][p.1]
  }

  /** The board with the square at p replaced by sq. */
  function Set(b: Board, p: Pos, sq: Square): (r: Board)
    requires Rect(b) && InBounds(b, p)
    ensures SameShape(b, r)
    ensures forall q :: InBounds(b, q) ==> At(r, q) == if q == p then sq else At(b, q)
  {
    b[p.0 := b[p.0][p.1 := sq]]
  }

  /** A second write to the same square replaces the first. */
  lemma SetTwice(b: Board, p: Pos, a: Square, c: Square)
    requires Rect(b) && InBounds(b, p)
    ensures Set(Set(b, p, a), p, c) == Set(b, p, c)
  {
    assert Set(Set(b, p, a), p, c)[p.0] == Set(b, p, c)[p.0];
  }

  function Ind(c: bool): nat {
    if c then 1 else 0
  }

  // ---------------------------------------------------------------------
  // Counting over the whole board

  function CountCols(row: seq<Square>, i: nat, n: nat, P: SquarePred): nat
    requires n <= |row|
  {
    if n == 0 then 0 else CountCols(row, i, n - 1, P) + Ind(P(i, n - 1, row[n - 1]))
  }

  function CountRows(b: Board, n: nat, P: SquarePred): nat
    requires n <= |b|
  {
    if n == 0 then 0 else CountRows(b, n - 1, P) + CountCols(b[n - 1], n - 1, |b[n - 1]|, P)
  }

  /** The number of squares of the board that satisfy P. */
  function Count(b: Board, P: SquarePred): nat {
    CountRows(b, |b|, P)
  }

  lemma {:induction false} CountColsUpdate(row: seq<Square>, i: nat, n: nat, y: nat, sq: Square, P: SquarePred)
    requires n <= |row| && y < |row|
    ensures CountCols(row[y := sq], i, n, P) + (if y < n then Ind(P(i, y, row[y])) else 0)
         == CountCols(row, i, n, P) + (if y < n then Ind(P(i, y, sq)) else 0)
  {
    if n > 0 {
      CountColsUpdate(row, i, n - 1, y, sq, P);
    }
  }

  lemma {:induction false} CountRowsUpdate(b: Board, n: nat, p: Pos, sq: Square, P: SquarePred)
    requires Rect(b) && InBounds(b, p) && n <= |b|
    ensures CountRows(Set(b, p, sq), n, P) + (if p.0 < n then Ind(P(p.0, p.1, At(b, p))) else 0)
         == CountRows(b, n, P) + (if p.0 < n then Ind(P(p.0, p.1, sq)) else 0)
  {
    if n > 0 {
      CountRowsUpdate(b, n - 1, p, sq, P);
      if n - 1 == p.0 {
        CountColsUpdate(b[p.0], p.0, |b[p.0]|, p.1, sq, P);
      }
    }
  }

  /** Replacing one square changes a count by what the square contributes. */
  lemma CountUpdate(b: Board, p: Pos, sq: Square, P: SquarePred)
    requires Rect(b) && InBounds(b, p)
    ensures Count(Set(b, p, sq), P) + Ind(P(p.0, p.1, At(b, p))) == Count(b, P) + Ind(P(p.0, p.1, sq))
  {
    CountRowsUpdate(b, |b|, p, sq, P);
  }

  lemma {:induction false} CountColsSame(r1: seq<Square>, r2: seq<Square>, i: nat, n: nat, P: SquarePred, Q: SquarePred)
    requires n <= |r1| == |r2|
    requires forall j :: 0 <= j < n ==> P(i, j, r1[j]) == Q(i, j, r2[j])
    ensures CountCols(r1, i, n, P) == CountCols(r2, i, n, Q)
  {
    if n > 0 {
      CountColsSame(r1, r2, i, n - 1, P, Q);
    }
  }

  lemma {:induction false} CountRowsSame(a: Board, b: Board, n: nat, P: SquarePred, Q: SquarePred)
    requires SameShape(a, b) && n <= |a|
    requires forall i, j :: 0 <= i < |a| && 0 <= j < Width(a) ==> P(i, j, a[i][j]) == Q(i, j, b[i][j])
    ensures CountRows(a, n, P) == CountRows(b, n, Q)
  {
    if n > 0 {
      CountRowsSame(a, b, n - 1, P, Q);
      CountColsSame(a[n - 1], b[n - 1], n - 1, |a[n - 1]|, P, Q);
    }
  }

  /** Two boards of the same shape on which P and Q agree square by square have equal counts. */
  lemma CountSame(a: Board, b: Board, P: SquarePred, Q: SquarePred)
    requires SameShape(a, b)
    requires forall i, j :: 0 <= i < |a| && 0 <= j < Width(a) ==> P(i, j, a[i][j]) == Q(i, j, b[i][j])
    ensures Count(a, P) == Count(b, Q)
  {
    CountRowsSame(a, b, |a|, P, Q);
  }

  lemma {:induction false} CountColsMono(r1: seq<Square>, r2: seq<Square>, i: nat, n: nat, P: SquarePred, Q: SquarePred)
    requires n <= |r1| == |r2|
    requires forall j :: 0 <= j < n ==> P(i, j, r1[j]) ==> Q(i, j, r2[j])
    ensures CountCols(r1, i, n, P) <= CountCols(r2, i, n, Q)
  {
    if n > 0 {
      CountColsMono(r1, r2, i, n - 1, P, Q);
    }
  }

  lemma {:induction false} CountRowsMono(a: Board, b: Board, n: nat, P: SquarePred, Q: SquarePred)
    requires SameShape(a, b) && n <= |a|
    requires forall i, j :: 0 <= i < |a| && 0 <= j < Width(a) ==> P(i, j, a[i][j]) ==> Q(i, j, b[i][j])
    ensures CountRows(a, n, P) <= CountRows(b, n, Q)
  {
    if n > 0 {
      CountRowsMono(a, b, n - 1, P, Q);
      CountColsMono(a[n - 1], b[n - 1], n - 1, |a[n - 1]|, P, Q);
    }
  }

  /** When P on one board implies Q on the other square by square, P counts no more than Q. */
  lemma CountMono(a: Board, b: Board, P: SquarePred, Q: SquarePred)
    requires SameShape(a, b)
    requires forall i, j :: 0 <= i < |a| && 0 <= j < Width(a) ==> P(i, j, a[i][j]) ==> Q(i, j, b[i][j])
    ensures Count(a, P) <= Count(b, Q)
  {
    CountRowsMono(a, b, |a|, P, Q);
  }

  lemma {:induction false} CountColsSplit(row: seq<Square>, i: nat, n: nat, R: SquarePred, P: SquarePred, Q: SquarePred)
    requires n <= |row|
    requires forall j :: 0 <= j < n ==> R(i, j, row[j]) == (P(i, j, row[j]) || Q(i, j, row[j]))
    requires forall j :: 0 <= j < n ==> !(P(i, j, row[j]) && Q(i, j, row[j]))
    ensures CountCols(row, i, n, R) == CountCols(row, i, n, P) + CountCols(row, i, n, Q)
  {
    if n > 0 {
      CountColsSplit(row, i, n - 1, R, P, Q);
    }
  }

  lemma {:induction false} CountRowsSplit(b: Board, n: nat, R: SquarePred, P: SquarePred, Q: SquarePred)
    requires Rect(b) && n <= |b|
    requires forall i, j :: 0 <= i < |b| && 0 <= j < Width(b) ==> R(i, j, b[i][j]) == (P(i, j, b[i][j]) || Q(i, j, b[i][j]))
    requires forall i, j :: 0 <= i < |b| && 0 <= j < Width(b) ==> !(P(i, j, b[i][j]) && Q(i, j, b[i][j]))
    ensures CountRows(b, n, R) == CountRows(b, n, P) + CountRows(b, n, Q)
  {
    if n > 0 {
      CountRowsSplit(b, n - 1, R, P, Q);
      CountColsSplit(b[n - 1], n - 1, |b[n - 1]|, R, P, Q);
    }
  }

  /** When R is the disjoint union of P and Q, the counts add up. */
  lemma CountSplit(b: Board, R: SquarePred, P: SquarePred, Q: SquarePred)
    requires Rect(b)
    requires forall i, j :: 0 <= i < |b| && 0 <= j < Width(b) ==> R(i, j, b[i][j]) == (P(i, j, b[i][j]) || Q(i, j, b[i][j]))
    requires forall i, j :: 0 <= i < |b| && 0 <= j < Width(b) ==> !(P(i, j, b[i][j]) && Q(i, j, b[i][j]))
    ensures Count(b, R) == Count(b, P) + Count(b, Q)
  {
    CountRowsSplit(b, |b|, R, P, Q);
  }

  lemma {:induction false} CountColsWitness(row: seq<Square>, i: nat, n: nat, P: SquarePred) returns (j: nat)
    requires n <= |row| && CountCols(row, i, n, P) > 0
    ensures j < n && P(i, j, row[j])
  {
    if P(i, n - 1, row[n - 1]) {
      j := n - 1;
    } else {
      j := CountColsWitness(row, i, n - 1, P);
    }
  }

  lemma {:induction false} CountRowsWitness(b: Board, n: nat, P: SquarePred) returns (p: Pos)
    requires Rect(b) && n <= |b| && CountRows(b, n, P) > 0
    ensures p.0 < n && InBounds(b, p) && P(p.0, p.1, At(b, p))
  {
    if CountCols(b[n - 1], n - 1, |b[n - 1]|, P) > 0 {
      var j := CountColsWitness(b[n - 1], n - 1, |b[n - 1]|, P);
      p := (n - 1, j);
    } else {
      p := CountRowsWitness(b, n - 1, P);
    }
  }

  /** A positive count has a square that satisfies the property. */
  lemma CountWitness(b: Board, P: SquarePred) returns (p: Pos)
    requires Rect(b) && Count(b, P) > 0
    ensures InBounds(b, p) && P(p.0, p.1, At(b, p))
  {
    p := CountRowsWitness(b, |b|, P);
  }

  lemma {:induction false} CountColsNone(row: seq<Square>, i: nat, n: nat, P: SquarePred)
    requires n <= |row|
    requires forall j :: 0 <= j < n ==> !P(i, j, row[j])
    ensures CountCols(row, i, n, P) == 0
  {
    if n > 0 {
      CountColsNone(row, i, n - 1, P);
    }
  }

  lemma {:induction false} CountRowsNone(b: Board, n: nat, P: SquarePred)
    requires Rect(b) && n <= |b|
    requires forall i, j :: 0 <= i < |b| && 0 <= j < Width(b) ==> !P(i, j, b[i][j])
    ensures CountRows(b, n, P) == 0
  {
    if n > 0 {
      CountRowsNone(b, n - 1, P);
      CountColsNone(b[n - 1], n - 1, |b[n - 1]|, P);
    }
  }

  /** No square satisfies P: the count is zero. */
  lemma CountNone(b: Board, P: SquarePred)
    requires Rect(b)
    requires forall i, j :: 0 <= i < |b| && 0 <= j < Width(b) ==> !P(i, j, b[i][j])
    ensures Count(b, P) == 0
  {
    CountRowsNone(b, |b|, P);
  }

  lemma {:induction false} CountColsAt(row: seq<Square>, i: nat, n: nat, j: nat, P: SquarePred)
    requires j < n <= |row| && P(i, j, row[j])
    ensures CountCols(row, i, n, P) > 0
  {
    if j < n - 1 {
      CountColsAt(row, i, n - 1, j, P);
    }
  }

  lemma {:induction false} CountRowsAt(b: Board, n: nat, p: Pos, P: SquarePred)
    requires Rect(b) && n <= |b| && InBounds(b, p) && p.0 < n && P(p.0, p.1, At(b, p))
    ensures CountRows(b, n, P) > 0
  {
    if p.0 < n - 1 {
      CountRowsAt(b, n - 1, p, P);
    } else {
      CountColsAt(b[p.0], p.0, |b[p.0]|, p.1, P);
    }
  }

  /** A square that satisfies P makes the count positive. */
  lemma CountAtLeastOne(b: Board, p: Pos, P: SquarePred)
    requires Rect(b) && InBounds(b, p) && P(p.0, p.1, At(b, p))
    ensures Count(b, P) > 0
  {
    CountRowsAt(b, |b|, p, P);
  }

  /** Squares in rows [r0, r1) and columns [c0, c1). */
  function InRect(r0: nat, r1: nat, c0: nat, c1: nat): SquarePred {
    (i: nat, j: nat, s: Square) => r0 <= i < r1 && c0 <= j < c1
  }

  /** How many of 0..n-1 lie in [lo, hi). */
  function Clip(n: nat, lo: nat, hi: nat): nat
    requires lo <= hi
  {
    if n <= lo then 0 else if n <= hi then n - lo else hi - lo
  }

  lemma {:induction false} CountColsRect(row: seq<Square>, i: nat, n: nat, r0: nat, r1: nat, c0: nat, c1: nat)
    requires n <= |row| && c0 <= c1
    ensures CountCols(row, i, n, InRect(r0, r1, c0, c1)) == if r0 <= i < r1 then Clip(n, c0, c1) else 0
  {
    if n > 0 {
      CountColsRect(row, i, n - 1, r0, r1, c0, c1);
    }
  }

  lemma {:induction false} CountRowsRect(b: Board, n: nat, r0: nat, r1: nat, c0: nat, c1: nat)
    requires Rect(b) && n <= |b| && r0 <= r1 && c0 <= c1 <= Width(b)
    ensures CountRows(b, n, InRect(r0, r1, c0, c1)) == Clip(n, r0, r1) * (c1 - c0)
  {
    if n > 0 {
      var k := c1 - c0;
      CountRowsRect(b, n - 1, r0, r1, c0, c1);
      CountColsRect(b[n - 1], n - 1, |b[n - 1]|, r0, r1, c0, c1);
      if r0 < n <= r1 {
        assert Clip(n, r0, r1) == Clip(n - 1, r0, r1) + 1;
        MulSucc(Clip(n - 1, r0, r1), k);
      } else {
        assert Clip(n, r0, r1) == Clip(n - 1, r0, r1);
      }
    }
  }

  lemma MulSucc(a: nat, k: nat)
    ensures (a + 1) * k == a * k + k
  {
  }

  /** A rectangle inside the board has as many squares as its area. */
  lemma CountRect(b: Board, r0: nat, r1: nat, c0: nat, c1: nat)
    requires Rect(b) && r0 <= r1 <= |b| && c0 <= c1 <= Width(b)
    ensures Count(b, InRect(r0, r1, c0, c1)) == (r1 - r0) * (c1 - c0)
  {
    CountRowsRect(b, |b|, r0, r1, c0, c1);
  }

  // ---------------------------------------------------------------------
  // Counting over a list of positions

  /** How many of the positions ps hold a square satisfying P (repeats count again). */
  function CountAt(b: Board, ps: seq<Pos>, P: SquarePred): (r: nat)
    requires Rect(b) && AllInBounds(b, ps)
    ensures r <= |ps|
  {
    if ps == [] then 0
    else
      var p := ps[|ps| - 1];
      CountAt(b, ps[..|ps| - 1], P) + Ind(P(p.0, p.1, At(b, p)))
  }
  /** Counting over one more position adds that position's square. */
  lemma CountAtSnoc(b: Board, ps: seq<Pos>, p: Pos, P: SquarePred)
    requires Rect(b) && AllInBounds(b, ps) && InBounds(b, p)
    ensures AllInBounds(b, ps + [p])
    ensures CountAt(b, ps + [p], P) == CountAt(b, ps, P) + Ind(P(p.0, p.1, At(b, p)))
  {
    assert (ps + [p])[..|ps|] == ps;
  }


  lemma {:induction false} CountAtSame(a: Board, b: Board, ps: seq<Pos>, P: SquarePred, Q: SquarePred)
    requires Rect(a) && Rect(b) && AllInBounds(a, ps) && AllInBounds(b, ps)
    requires forall k :: 0 <= k < |ps| ==> P(ps[k].0, ps[k].1, At(a, ps[k])) == Q(ps[k].0, ps[k].1, At(b, ps[k]))
    ensures CountAt(a, ps, P) == CountAt(b, ps, Q)
  {
    if ps != [] {
      CountAtSame(a, b, ps[..|ps| - 1], P, Q);
    }
  }

  /** Changing the square at p changes a count over a repeat-free list by
      what p contributes, if p is in the list. */
  lemma {:induction false} CountAtUpdate(b: Board, ps: seq<Pos>, p: Pos, sq: Square, P: SquarePred)
    requires Rect(b) && InBounds(b, p) && AllInBounds(b, ps)
    requires forall i, j :: 0 <= i < j < |ps| ==> ps[i] != ps[j]
    ensures CountAt(Set(b, p, sq), ps, P) + (if p in ps then Ind(P(p.0, p.1, At(b, p))) else 0)
         == CountAt(b, ps, P) + (if p in ps then Ind(P(p.0, p.1, sq)) else 0)
  {
    if ps != [] {
      var init := ps[..|ps| - 1];
      CountAtUpdate(b, init, p, sq, P);
      assert ps == init + [ps[|ps| - 1]];
      assert p in ps <==> p in init || p == ps[|ps| - 1];
      assert p == ps[|ps| - 1] ==> p !in init;
    }
  }

  /** A position in the list whose square fails P is not counted. */
  lemma {:induction false} CountAtMissing(b: Board, ps: seq<Pos>, P: SquarePred, k: nat)
    requires Rect(b) && AllInBounds(b, ps) && k < |ps|
    requires !P(ps[k].0, ps[k].1, At(b, ps[k]))
    ensures CountAt(b, ps, P) < |ps|
  {
    if k < |ps| - 1 {
      CountAtMissing(b, ps[..|ps| - 1], P, k);
    }
  }

  /** A listed position whose square satisfies P makes the count positive. */
  lemma {:induction false} CountAtHas(b: Board, ps: seq<Pos>, P: SquarePred, k: nat)
    requires Rect(b) && AllInBounds(b, ps) && k < |ps|
    requires P(ps[k].0, ps[k].1, At(b, ps[k]))
    ensures CountAt(b, ps, P) > 0
  {
    if k < |ps| - 1 {
      CountAtHas(b, ps[..|ps| - 1], P, k);
    }
  }

  /** No listed position satisfies P: the count is zero. */
  lemma {:induction false} CountAtNone(b: Board, ps: seq<Pos>, P: SquarePred)
    requires Rect(b) && AllInBounds(b, ps)
    requires forall k :: 0 <= k < |ps| ==> !P(ps[k].0, ps[k].1, At(b, ps[k]))
    ensures CountAt(b, ps, P) == 0
  {
    if ps != [] {
      CountAtNone(b, ps[..|ps| - 1], P);
    }
  }

  /** The count over a list is zero exactly when no listed position satisfies P. */
  lemma CountAtZero(b: Board, ps: seq<Pos>, P: SquarePred)
    requires Rect(b) && AllInBounds(b, ps)
    ensures CountAt(b, ps, P) == 0 <==> forall k :: 0 <= k < |ps| ==> !P(ps[k].0, ps[k].1, At(b, ps[k]))
  {
    if forall k :: 0 <= k < |ps| ==> !P(ps[k].0, ps[k].1, At(b, ps[k])) {
      CountAtNone(b, ps, P);
    } else {
      var k :| 0 <= k < |ps| && P(ps[k].0, ps[k].1, At(b, ps[k]));
      CountAtHas(b, ps, P, k);
    }
  }
}
