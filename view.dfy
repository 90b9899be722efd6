/** What the front end may see of a square (`get`): the contents of a
    square stay hidden until it is revealed. */
module View {
  import S = Square

  datatype PubSquareContents = Mine | Unguessed | Flagged | BadFlagged | Empty(n: nat)

  /** The public face of a square: its state while hidden, and once
      revealed a mine (the losing one included) or its count. */
  function Reveal(sq: S.Square): (r: PubSquareContents)
    ensures r == Unguessed <==> sq.state == S.Unguessed
    ensures r == Flagged <==> sq.state == S.Flagged
    ensures r == BadFlagged <==> sq.state == S.BadFlagged
    ensures r == Mine <==> sq.state == S.Guessed && S.IsMineLike(sq.contents)
    ensures r.Empty? <==> sq.state == S.Guessed && sq.contents.Empty?
    ensures r.Empty? ==> r.n == sq.contents.n
  {
    match sq.state
    case Unguessed => Unguessed
    case Flagged => Flagged
    case BadFlagged => BadFlagged
    case Guessed =>
      match sq.contents
      case Mine => Mine
      case LosingMine => Mine
      case Empty(i) => Empty(i)
  }

  /** Squares that look alike share their state; revealed ones also agree
      on whether they hold a mine and on their count. Hidden squares look
      alike whatever they hold. */
  lemma RevealDeterminesState(a: S.Square, b: S.Square)
    ensures Reveal(a) == Reveal(b) ==> a.state == b.state
    ensures Reveal(a) == Reveal(b) && a.state == S.Guessed ==>
              S.IsMineLike(a.contents) == S.IsMineLike(b.contents) &&
              (a.contents.Empty? ==> a.contents == b.contents)
    ensures a.state == b.state && a.state != S.Guessed ==> Reveal(a) == Reveal(b)
  {
    if Reveal(a) == Reveal(b) && a.state == S.Guessed && a.contents.Empty? {
      assert Reveal(a).n == a.contents.n;
    }
  }
}
