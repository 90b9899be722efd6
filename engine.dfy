/** The game as values: a snapshot of the engine's fields, and guess, expand,
    the loss sweep and flag toggling as functions of it. The class `Game` in
    module Backend is proved to follow these functions step for step. */
module Engine {
  import opened Square
  import opened Neighbourhood
  import opened Grid

  datatype GameState = Won | Lost | InProg

  /** The fields of a game. */
  datatype Snapshot = Snapshot(board: Board, mines: nat, numGuessed: nat, generated: bool, state: GameState)

  /** The result of a guess or an expansion: the new fields, or the abort
      that `expand` raises when one of its guesses loses the game. */
  datatype Step = Ok(game: Snapshot) | Panic

  // ---------------------------------------------------------------------
  // Square properties counted over the board

  function IsUnguessed(i: nat, j: nat, s: Square): bool {
    s.state == Unguessed
  }

  function IsFlagged(i: nat, j: nat, s: Square): bool {
    s.state == Flagged
  }

  function IsMineSquare(i: nat, j: nat, s: Square): bool {
    s.contents == Mine
  }

  function IsMineLikeSquare(i: nat, j: nat, s: Square): bool {
    IsMineLike(s.contents)
  }

  function IsLosingSquare(i: nat, j: nat, s: Square): bool {
    s.contents == LosingMine
  }

  /** A square that was revealed without a mine under it. */
  function IsRevealedSafe(i: nat, j: nat, s: Square): bool {
    s.state == Guessed && s.contents.Empty?
  }

  /** The neighbours of p, as the enumerator yields them on this board. */
  function Nbrs(b: Board, p: Pos): (r: seq<Pos>)
    requires Rect(b) && InBounds(b, p)
    ensures AllInBounds(b, r)
    ensures forall k :: 0 <= k < |r| ==> Adjacent(r[k], p)
  {
    NeighboursInBounds(p.0, p.1, |b|, Width(b));
    Neighbours(p.0, p.1, |b|, Width(b))
  }

  /** The mines around p (p itself is among them only if it is a mine in column 0). */
  function MinesAround(b: Board, p: Pos): (r: nat)
    requires Rect(b) && InBounds(b, p)
    ensures r <= |Nbrs(b, p)|
    ensures r == 0 <==> forall k :: 0 <= k < |Nbrs(b, p)| ==> !IsMineLike(At(b, Nbrs(b, p)[k]).contents)
  {
    CountAtZero(b, Nbrs(b, p), IsMineLikeSquare);
    CountAt(b, Nbrs(b, p), IsMineLikeSquare)
  }

  /** The flagged squares around p, counted as `finished` walks them. */
  function FlagsAround(b: Board, p: Pos): (r: nat)
    requires Rect(b) && InBounds(b, p)
    ensures r <= |Nbrs(b, p)|
    ensures r == 0 <==> forall k :: 0 <= k < |Nbrs(b, p)| ==> At(b, Nbrs(b, p)[k]).state != Flagged
  {
    CountAtZero(b, Nbrs(b, p), IsFlagged);
    CountAt(b, Nbrs(b, p), IsFlagged)
  }

  /** A flag on a neighbour other than p. */
  function FlaggedBesides(p: Pos): SquarePred {
    (i: nat, j: nat, s: Square) => s.state == Flagged && (i, j) != p
  }

  /** A square that is not flagged itself, such as the revealed centre of a
      chord in column 0, never counts among its own flags, although the
      enumerator yields it. */
  lemma FlagsAroundSkipsCentre(b: Board, p: Pos)
    requires Rect(b) && InBounds(b, p) && At(b, p).state != Flagged
    ensures FlagsAround(b, p) == CountAt(b, Nbrs(b, p), FlaggedBesides(p))
  {
    var ns := Nbrs(b, p);
    forall k | 0 <= k < |ns|
      ensures IsFlagged(ns[k].0, ns[k].1, At(b, ns[k])) == FlaggedBesides(p)(ns[k].0, ns[k].1, At(b, ns[k]))
    {
      if ns[k] == p {
        assert At(b, ns[k]) == At(b, p);
      }
    }
    CountAtSame(b, b, ns, IsFlagged, FlaggedBesides(p));
  }

  /** `finished`: p holds Empty(n) and exactly n of its neighbours are flagged. */
  function IsFinished(b: Board, p: Pos): (r: bool)
    requires Rect(b) && InBounds(b, p)
    ensures r ==> At(b, p).contents.Empty? && At(b, p).contents.n <= |Nbrs(b, p)|
    ensures r && FlagsAround(b, p) == 0 ==> At(b, p).contents == Empty(0)
    ensures At(b, p).contents.Empty? && FlagsAround(b, p) == At(b, p).contents.n ==> r
  {
    match At(b, p).contents
    case Empty(n) => FlagsAround(b, p) == n
    case _ => false
  }

  // ---------------------------------------------------------------------
  // Loss

  /** What the loss sweep does to one square: reveal a hidden mine, mark a
      flag without a mine as bad. */
  function SweepSquare(sq: Square): (r: Square)
    ensures Evolves(sq, r) && r.contents == sq.contents
    ensures r.contents == Mine ==> r.state != Unguessed
    ensures r.state == Flagged ==> r.contents == Mine
    ensures sq.state == Guessed || sq.state == BadFlagged ==> r == sq
  {
    if sq.contents == Mine then
      (if sq.state == Unguessed then sq.(state := Guessed) else sq)
    else if sq.state == Flagged then sq.(state := BadFlagged)
    else sq
  }

  /** The loss sweep over the whole board: squares only move forward,
      nothing is added or removed, no mine stays hidden and no flag stays
      on a square without a mine. */
  function Sweep(b: Board): (r: Board)
    requires Rect(b)
    ensures SameShape(b, r) && BoardEvolves(b, r)
    ensures forall i, j :: 0 <= i < |b| && 0 <= j < Width(b) ==> r[i][j] == SweepSquare(b[i][j])
    ensures forall i, j :: 0 <= i < |b| && 0 <= j < Width(b) ==> r[i][j].contents == b[i][j].contents
    ensures forall i, j :: 0 <= i < |b| && 0 <= j < Width(b) ==> r[i][j].contents == Mine ==> r[i][j].state != Unguessed
    ensures forall i, j :: 0 <= i < |b| && 0 <= j < Width(b) ==> r[i][j].state == Flagged ==> r[i][j].contents == Mine
    ensures Count(r, IsMineLikeSquare) == Count(b, IsMineLikeSquare)
  {
    var r := seq(|b|, i requires 0 <= i < |b| => seq(|b[i]|, j requires 0 <= j < |b[i]| => SweepSquare(b[i][j])));
    CountSame(b, r, IsMineLikeSquare, IsMineLikeSquare);
    r
  }

  /** The game after the player reveals the mine at p. */
  function Lose(s: Snapshot, p: Pos): (r: Snapshot)
    requires Rect(s.board) && InBounds(s.board, p)
    ensures r.state == Lost && r.mines == s.mines && r.numGuessed == s.numGuessed && r.generated == s.generated
    ensures SameShape(s.board, r.board) && At(r.board, p) == Square(LosingMine, Guessed)
    ensures forall q :: InBounds(s.board, q) && q != p ==> At(r.board, q) == SweepSquare(At(s.board, q))
    ensures forall q :: InBounds(s.board, q) ==> !(At(r.board, q).contents == Mine && At(r.board, q).state == Unguessed)
  {
    s.(board := Sweep(Set(s.board, p, Square(LosingMine, Guessed))), state := Lost)
  }

  // ---------------------------------------------------------------------
  // Guess and expand

  /** The win test at the end of revealing a square without a mine. */
  function CheckWon(s: Snapshot): (r: Snapshot)
    ensures r.(state := s.state) == s
    ensures r.state != s.state ==> r.state == Won
    ensures s.state == InProg && s.numGuessed + s.mines < |s.board| * Width(s.board) ==> r == s
    ensures s.numGuessed + s.mines == |s.board| * Width(s.board) ==> r.state == Won
  {
    if s.numGuessed + s.mines == |s.board| * Width(s.board) then s.(state := Won) else s
  }

  /** The game after the player reveals the square at p, which holds no mine. */
  function Revealed(s: Snapshot, p: Pos): (r: Snapshot)
    requires Rect(s.board) && InBounds(s.board, p)
    ensures r.mines == s.mines && r.generated == s.generated && r.state == s.state
    ensures r.numGuessed == s.numGuessed + 1
    ensures SameShape(s.board, r.board) && At(r.board, p) == At(s.board, p).(state := Guessed)
    ensures forall q :: InBounds(s.board, q) && q != p ==> At(r.board, q) == At(s.board, q)
    ensures At(s.board, p).state == Unguessed ==> Count(r.board, IsUnguessed) + 1 == Count(s.board, IsUnguessed)
    ensures At(s.board, p).state == Unguessed && At(s.board, p).contents.Empty? ==>
              Count(r.board, IsRevealedSafe) == Count(s.board, IsRevealedSafe) + 1
  {
    var sq := At(s.board, p).(state := Guessed);
    CountUpdate(s.board, p, sq, IsUnguessed);
    CountUpdate(s.board, p, sq, IsRevealedSafe);
    s.(board := Set(s.board, p, sq), numGuessed := s.numGuessed + 1)
  }

  /** How a square may change in one move of the game. */
  predicate Evolves(a: Square, b: Square) {
    (b.contents == a.contents || (a.contents == Mine && b.contents == LosingMine)) &&
    (b.state == a.state || (a.state == Unguessed && b.state == Guessed) ||
     (a.state == Flagged && b.state == BadFlagged))
  }

  predicate BoardEvolves(a: Board, b: Board) {
    SameShape(a, b) &&
    forall i, j :: 0 <= i < |a| && 0 <= j < Width(a) ==> Evolves(a[i][j], b[i][j])
  }

  /** What every guess and expansion keeps: the board's shape, the mine
      count, the generated flag; no square moves back to Unguessed. */
  predicate Follows(s: Snapshot, t: Snapshot) {
    SameShape(s.board, t.board) && t.mines == s.mines && t.generated == s.generated &&
    Count(t.board, IsUnguessed) <= Count(s.board, IsUnguessed)
  }

  lemma SweepEvolves(b: Board, p: Pos)
    requires Rect(b) && InBounds(b, p) && At(b, p) == Square(Mine, Unguessed)
    ensures BoardEvolves(b, Sweep(Set(b, p, Square(LosingMine, Guessed))))
  {
  }

  lemma EvolvesUnguessed(a: Board, b: Board)
    requires BoardEvolves(a, b)
    ensures Count(b, IsUnguessed) <= Count(a, IsUnguessed)
  {
    CountMono(b, a, IsUnguessed, IsUnguessed);
  }

  /** `guess_internal` once mines are placed: the guess at p, with
      `direct` telling a player's guess from one made by `expand`. */
  function GuessResult(s: Snapshot, p: Pos, direct: bool): (r: Step)
    requires Rect(s.board) && InBounds(s.board, p)
    ensures r.Ok? ==> Follows(s, r.game)
    decreases Count(s.board, IsUnguessed), if direct then 3 else 1, 0
  {
    if s.state != InProg then Ok(s)
    else
      var sq := At(s.board, p);
      match sq.state
      case Unguessed =>
        if sq.contents == Mine then
          SweepEvolves(s.board, p);
          EvolvesUnguessed(s.board, Lose(s, p).board);
          Ok(Lose(s, p))
        else
          var s1 := Revealed(s, p);
          var r1 := if sq.contents == Empty(0) then ExpandResult(s1, Nbrs(s.board, p)) else Ok(s1);
          if r1.Panic? then Panic else Ok(CheckWon(r1.game))
      case Guessed =>
        if direct && IsFinished(s.board, p) then ExpandResult(s, Nbrs(s.board, p)) else Ok(s)
      case Flagged => Ok(s)
      case BadFlagged => Ok(s)
  }

  /** `expand`: guess each position of `todo` in turn, not directly; abort
      when one of those guesses reports a loss. */
  function ExpandResult(s: Snapshot, todo: seq<Pos>): (r: Step)
    requires Rect(s.board) && AllInBounds(s.board, todo)
    ensures r.Ok? ==> Follows(s, r.game)
    decreases Count(s.board, IsUnguessed), 2, |todo|
  {
    if todo == [] then Ok(s)
    else
      match GuessResult(s, todo[0], false)
      case Panic => Panic
      case Ok(s1) => if s1.state == Lost then Panic else ExpandResult(s1, todo[1..])
  }

  /** One step of `expand`: the outcome of guessing the head of `todo`
      decides whether the expansion aborts or goes on with the rest. */
  lemma ExpandHead(s: Snapshot, todo: seq<Pos>, g: Step)
    requires Rect(s.board) && AllInBounds(s.board, todo) && todo != []
    requires g == GuessResult(s, todo[0], false)
    ensures g.Panic? || g.game.state == Lost ==> ExpandResult(s, todo) == Panic
    ensures g.Ok? && g.game.state != Lost ==>
              AllInBounds(g.game.board, todo[1..]) && ExpandResult(s, todo) == ExpandResult(g.game, todo[1..])
  {
  }

  // ---------------------------------------------------------------------
  // Flags

  /** `toggle_flag`: Unguessed and Flagged swap; other states stay. */
  function Toggled(s: Snapshot, p: Pos): (r: Snapshot)
    requires Rect(s.board) && InBounds(s.board, p)
    ensures r.(board := s.board) == s && SameShape(s.board, r.board)
    ensures forall q :: InBounds(s.board, q) && q != p ==> At(r.board, q) == At(s.board, q)
    ensures At(r.board, p).contents == At(s.board, p).contents
    ensures At(r.board, p).state == Flagged <==> At(s.board, p).state == Unguessed
    ensures At(r.board, p).state == Unguessed <==> At(s.board, p).state == Flagged
    ensures At(s.board, p).state == Guessed || At(s.board, p).state == BadFlagged ==> At(r.board, p) == At(s.board, p)
  {
    var sq := At(s.board, p);
    var next := match sq.state
      case Unguessed => Flagged
      case Flagged => Unguessed
      case BadFlagged => BadFlagged
      case Guessed => Guessed;
    s.(board := Set(s.board, p, sq.(state := next)))
  }
}
