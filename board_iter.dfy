/** The neighbour enumerator: a cursor over the 3x3 window around a square,
    clipped to the board, in row-major order. Every operation of the game
    walks a square's neighbours through it. */
module Neighbourhood {

  datatype Option<T> = None | Some(value: T)

  /** A board position (row, column). */
  type Pos = (nat, nat)

  /** The first row (or column) of the window around `v`. */
  function Lower(v: nat): nat {
    if v == 0 then 0 else v - 1
  }

  /** One past the last row (or column) of the window around `v`: min(v + 2, bound). */
  function Upper(v: nat, bound: nat): nat {
    if v + 2 < bound then v + 2 else bound
  }

  /** Row-major strict order on positions. */
  predicate Before(p: Pos, q: Pos) {
    p.0 < q.0 || (p.0 == q.0 && p.1 < q.1)
  }

  /** Chebyshev distance at most 1. */
  predicate Adjacent(p: Pos, q: Pos) {
    -1 <= p.0 - q.0 <= 1 && -1 <= p.1 - q.1 <= 1
  }

  predicate StrictlyIncreasing(s: seq<Pos>) {
    forall i, j :: 0 <= i < j < |s| ==> Before(s[i], s[j])
  }

  /** The iterator's state: the centre (x, y), the column where each row
      starts, the bounds, and the cursor (curX, curY). */
  datatype Cursor = Cursor(x: nat, y: nat, minY: nat, maxX: nat, maxY: nat, curX: nat, curY: nat)

  /** What every reachable cursor satisfies: while rows remain, the cursor is
      inside the window's columns and, unless the centre is in column 0, it
      never rests on the centre. */
  predicate CursorOk(c: Cursor) {
    c.minY <= c.y < c.maxY && c.x < c.maxX && (c.y > 0 ==> c.minY < c.y) &&
    c.curX <= c.maxX &&
    (c.curX < c.maxX ==> c.minY <= c.curY < c.maxY && (c.y > 0 ==> (c.curX, c.curY) != (c.x, c.y)))
  }

  /** The cursor `board_iter` builds for the square (x, y) of a height x width board. */
  function Start(x: nat, y: nat, height: nat, width: nat): (c: Cursor)
    requires x < height && y < width
    ensures CursorOk(c)
  {
    Cursor(x, y, Lower(y), Upper(x, height), Upper(y, width), Lower(x), Lower(y))
  }

  /** One step of `next` past the current position: move right, hop over the
      centre when the move lands on it, and wrap to the next row at the edge. */
  function Advance(c: Cursor): (r: Cursor)
    requires CursorOk(c) && c.curX < c.maxX
    ensures CursorOk(r)
    ensures r.curX > c.curX || (r.curX == c.curX && r.curY > c.curY)
    ensures r.(curX := c.curX, curY := c.curY) == c
  {
    var y1 := c.curY + 1;
    var y2 := if c.curX == c.x && y1 == c.y then y1 + 1 else y1;
    if y2 >= c.maxY then c.(curX := c.curX + 1, curY := c.minY) else c.(curY := y2)
  }

  /** Every position the iterator still yields from cursor `c`, in order. */
  function Produce(c: Cursor): (r: seq<Pos>)
    requires CursorOk(c)
    ensures r == [] <==> c.curX == c.maxX
    ensures forall k :: 0 <= k < |r| ==> Ahead(c, r[k])
    decreases c.maxX - c.curX, c.maxY - c.curY
  {
    if c.curX == c.maxX then [] else [(c.curX, c.curY)] + Produce(Advance(c))
  }

  /** The whole sequence `board_iter(x, y, height, width)` yields. */
  function Neighbours(x: nat, y: nat, height: nat, width: nat): (r: seq<Pos>)
    requires x < height && y < width
    ensures r != []
    ensures forall k :: 0 <= k < |r| ==> r[k].0 < height && r[k].1 < width && Adjacent(r[k], (x, y))
    ensures (x, y) in r <==> y == 0
  {
    ProduceHas(Start(x, y, height, width), (x, y));
    Produce(Start(x, y, height, width))
  }

  /** The positions still ahead of the cursor: inside the window, at or after
      the cursor in row-major order, and not the centre unless the centre is
      in column 0. */
  predicate Ahead(c: Cursor, p: Pos) {
    c.curX <= p.0 < c.maxX && c.minY <= p.1 < c.maxY &&
    (p.0 > c.curX || p.1 >= c.curY) &&
    (p != (c.x, c.y) || c.y == 0)
  }

  lemma {:induction false} ProduceHas(c: Cursor, p: Pos)
    requires CursorOk(c)
    ensures p in Produce(c) <==> Ahead(c, p)
    decreases c.maxX - c.curX, c.maxY - c.curY
  {
    if c.curX < c.maxX {
      ProduceHas(Advance(c), p);
    }
  }

  lemma {:induction false} ProduceIncreasing(c: Cursor)
    requires CursorOk(c)
    ensures StrictlyIncreasing(Produce(c))
    decreases c.maxX - c.curX, c.maxY - c.curY
  {
    if c.curX < c.maxX {
      var rest := Produce(Advance(c));
      ProduceIncreasing(Advance(c));
      forall j | 0 <= j < |rest|
        ensures Before((c.curX, c.curY), rest[j])
      {
        ProduceHas(Advance(c), rest[j]);
      }
    }
  }

  /** Window positions from the cursor to the end of the window. */
  function Remaining(c: Cursor): nat
    requires CursorOk(c)
  {
    if c.curX == c.maxX then 0 else Area(c.maxX - c.curX - 1, c.maxY - c.minY) + (c.maxY - c.curY)
  }

  function Area(rows: nat, cols: nat): nat {
    rows * cols
  }

  /** 1 when the centre is still ahead of the cursor and will be hopped over. */
  function Hop(c: Cursor): nat {
    if c.y > 0 && c.curX < c.maxX && Before((c.curX, c.curY), (c.x, c.y)) then 1 else 0
  }

  lemma {:induction false} ProduceLength(c: Cursor)
    requires CursorOk(c)
    ensures Hop(c) <= Remaining(c) && |Produce(c)| == Remaining(c) - Hop(c)
    decreases c.maxX - c.curX, c.maxY - c.curY
  {
    if c.curX < c.maxX {
      var d := Advance(c);
      ProduceLength(d);
      var k := c.maxX - c.curX - 1;
      var cols := c.maxY - c.minY;
      if d.curX > c.curX && d.curX < c.maxX {
        assert (k - 1) * cols + cols == k * cols;
      }
    }
  }

  /** Every yielded position is on the board and next to the centre; every
      square next to the centre is yielded; the centre itself is yielded
      exactly when it lies in column 0. */
  lemma NeighboursHas(x: nat, y: nat, height: nat, width: nat, p: Pos)
    requires x < height && y < width
    ensures p in Neighbours(x, y, height, width) <==>
              p.0 < height && p.1 < width && Adjacent(p, (x, y)) && (p != (x, y) || y == 0)
  {
    ProduceHas(Start(x, y, height, width), p);
  }

  /** Every yielded position is on the board and next to the centre. */
  lemma NeighboursInBounds(x: nat, y: nat, height: nat, width: nat)
    requires x < height && y < width
    ensures forall k :: 0 <= k < |Neighbours(x, y, height, width)| ==>
              Neighbours(x, y, height, width)[k].0 < height && Neighbours(x, y, height, width)[k].1 < width &&
              Adjacent(Neighbours(x, y, height, width)[k], (x, y))
  {
    forall k | 0 <= k < |Neighbours(x, y, height, width)|
      ensures Neighbours(x, y, height, width)[k].0 < height && Neighbours(x, y, height, width)[k].1 < width &&
              Adjacent(Neighbours(x, y, height, width)[k], (x, y))
    {
      NeighboursHas(x, y, height, width, Neighbours(x, y, height, width)[k]);
    }
  }

  /** The centre of a square off column 0 is never yielded. */
  lemma NeighboursSkipCentre(x: nat, y: nat, height: nat, width: nat)
    requires x < height && 0 < y < width
    ensures (x, y) !in Neighbours(x, y, height, width)
  {
    NeighboursHas(x, y, height, width, (x, y));
  }

  /** The centre of a square in column 0 is yielded: the start position and
      the position after a row wrap are never compared with the centre. */
  lemma NeighboursYieldCentre(x: nat, height: nat, width: nat)
    requires x < height && 0 < width
    ensures (x, 0) in Neighbours(x, 0, height, width)
  {
    NeighboursHas(x, 0, height, width, (x, 0));
  }

  /** Positions come out in strictly increasing row-major order, hence without repeats. */
  lemma NeighboursIncreasing(x: nat, y: nat, height: nat, width: nat)
    requires x < height && y < width
    ensures StrictlyIncreasing(Neighbours(x, y, height, width))
    ensures forall i, j :: 0 <= i < j < |Neighbours(x, y, height, width)| ==>
              Neighbours(x, y, height, width)[i] != Neighbours(x, y, height, width)[j]
  {
    ProduceIncreasing(Start(x, y, height, width));
  }

  /** The iterator yields the clipped window minus the centre (the centre
      stays in when it is in column 0): at most 9 positions, at most 8 off
      column 0. */
  lemma NeighboursCount(x: nat, y: nat, height: nat, width: nat)
    requires x < height && y < width
    ensures |Neighbours(x, y, height, width)| ==
              (Upper(x, height) - Lower(x)) * (Upper(y, width) - Lower(y)) - (if y > 0 then 1 else 0)
    ensures |Neighbours(x, y, height, width)| <= 9
    ensures y > 0 ==> |Neighbours(x, y, height, width)| <= 8
  {
    var c := Start(x, y, height, width);
    ProduceLength(c);
    var rows := Upper(x, height) - Lower(x);
    var cols := Upper(y, width) - Lower(y);
    assert (rows - 1) * cols + cols == rows * cols;
    assert rows <= 3 && cols <= 3;
    assert rows * cols <= 3 * cols <= 9;
  }

  /** Splitting a strictly increasing list, the head of the second part is
      not in the first: an enumeration never repeats what it yielded. */
  lemma NextIsNew(done: seq<Pos>, rest: seq<Pos>)
    requires StrictlyIncreasing(done + rest) && rest != []
    ensures rest[0] !in done
  {
    forall k | 0 <= k < |done|
      ensures done[k] != rest[0]
    {
      assert (done + rest)[k] == done[k] && (done + rest)[|done|] == rest[0];
    }
  }

  /** The position the enumerator yields next is on the board and not
      among those it already yielded, and yielding it moves it from what
      is still to come to what was yielded. */
  lemma NextNeighbour(x: nat, y: nat, height: nat, width: nat, done: seq<Pos>, rest: seq<Pos>)
    requires x < height && y < width
    requires done + rest == Neighbours(x, y, height, width) && rest != []
    ensures rest[0] !in done
    ensures rest[0].0 < height && rest[0].1 < width
    ensures (done + [rest[0]]) + rest[1..] == Neighbours(x, y, height, width)
  {
    NeighboursInBounds(x, y, height, width);
    assert rest[0] == Neighbours(x, y, height, width)[|done|];
    assert rest == [rest[0]] + rest[1..];
    NeighboursIncreasing(x, y, height, width);
    NextIsNew(done, rest);
  }

  /** Members after the head of a strictly increasing list are not the head. */
  lemma TailMembers(a: seq<Pos>, p: Pos)
    requires StrictlyIncreasing(a) && a != []
    ensures p in a[1..] <==> p in a && p != a[0]
  {
    if p in a && p != a[0] {
      var i :| 0 <= i < |a| && a[i] == p;
      assert a[1..][i - 1] == p;
    }
    if p in a[1..] {
      var i :| 0 <= i < |a[1..]| && a[1..][i] == p;
      assert Before(a[0], a[i + 1]);
    }
  }

  /** Two strictly increasing lists with the same members are the same list. */
  lemma {:induction false} IncreasingUnique(a: seq<Pos>, b: seq<Pos>)
    requires StrictlyIncreasing(a) && StrictlyIncreasing(b)
    requires forall p :: p in a <==> p in b
    ensures a == b
    decreases |a|
  {
    if a != [] {
      assert a[0] in a;
    }
    if b != [] {
      assert b[0] in b;
    }
    if a != [] && b != [] {
      assert a[0] == b[0] by {
        assert a[0] in b && b[0] in a;
      }
      forall p
        ensures p in a[1..] <==> p in b[1..]
      {
        TailMembers(a, p);
        TailMembers(b, p);
      }
      IncreasingUnique(a[1..], b[1..]);
      assert a == [a[0]] + a[1..];
      assert b == [b[0]] + b[1..];
    }
  }

  /** Away from the edges the eight neighbours come in row-major order (the
      order the source's own test expects for the middle of a 3x3 board). */
  lemma InteriorOrder(x: nat, y: nat, height: nat, width: nat)
    requires 0 < x && x + 1 < height && 0 < y && y + 1 < width
    ensures Neighbours(x, y, height, width) ==
              [(x - 1, y - 1), (x - 1, y), (x - 1, y + 1), (x, y - 1), (x, y + 1),
               (x + 1, y - 1), (x + 1, y), (x + 1, y + 1)]
  {
    var e: seq<Pos> := [(x - 1, y - 1), (x - 1, y), (x - 1, y + 1), (x, y - 1), (x, y + 1),
                        (x + 1, y - 1), (x + 1, y), (x + 1, y + 1)];
    NeighboursIncreasing(x, y, height, width);
    forall p: Pos
      ensures p in Neighbours(x, y, height, width) <==> p in e
    {
      NeighboursHas(x, y, height, width, p);
    }
    IncreasingUnique(Neighbours(x, y, height, width), e);
  }

  /** A square in column 0, away from the top and bottom rows, is yielded
      among its own neighbours, between its upper and lower rows. */
  lemma LeftEdgeOrder(x: nat, height: nat, width: nat)
    requires 0 < x && x + 1 < height && 1 < width
    ensures Neighbours(x, 0, height, width) ==
              [(x - 1, 0), (x - 1, 1), (x, 0), (x, 1), (x + 1, 0), (x + 1, 1)]
  {
    var e: seq<Pos> := [(x - 1, 0), (x - 1, 1), (x, 0), (x, 1), (x + 1, 0), (x + 1, 1)];
    NeighboursIncreasing(x, 0, height, width);
    forall p: Pos
      ensures p in Neighbours(x, 0, height, width) <==> p in e
    {
      NeighboursHas(x, 0, height, width, p);
    }
    IncreasingUnique(Neighbours(x, 0, height, width), e);
  }

  /** The enumerator of `board_iter`: a cursor advanced in place by `Next`. */
  class BoardIter {
    var x: nat
    var y: nat
    var minY: nat
    var maxX: nat
    var maxY: nat
    var curX: nat
    var curY: nat

    function Cur(): Cursor
      reads this
    {
      Cursor(x, y, minY, maxX, maxY, curX, curY)
    }

    predicate Valid()
      reads this
    {
      CursorOk(Cur())
    }

    /** What the iterator has still to yield. */
    function Rest(): seq<Pos>
      reads this
      requires Valid()
    {
      Produce(Cur())
    }

    constructor (x: nat, y: nat, height: nat, width: nat)
      requires x < height && y < width
      ensures Valid() && Rest() == Neighbours(x, y, height, width)
    {
      this.x := x;
      this.y := y;
      minY := if y == 0 then 0 else y - 1;
      maxX := if x + 2 < height then x + 2 else height;
      maxY := if y + 2 < width then y + 2 else width;
      curX := if x == 0 then 0 else x - 1;
      curY := if y == 0 then 0 else y - 1;
    }

    method Next() returns (r: Option<Pos>)
      requires Valid()
      modifies this
      ensures Valid() && curX >= old(curX)
      ensures old(Rest()) == [] ==> r == None && Rest() == []
      ensures old(Rest()) != [] ==> r == Some(old(Rest())[0]) && Rest() == old(Rest())[1..]
    {
      if curX == maxX {
        r := None;
      } else {
        r := Some((curX, curY));
        curY := curY + 1;
        if curX == x && curY == y {
          curY := curY + 1;
        }
        if curY >= maxY {
          curY := minY;
          curX := curX + 1;
        }
      }
    }
  }
}
