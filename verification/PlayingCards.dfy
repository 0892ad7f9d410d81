/** The fifty-two cards, shared by the two card tables. */
module PlayingCards {

  /** Suit `c / 13`, rank `c % 13` in the order of the game. */
  type Card = c: nat | c < 52

  function Pack(): (r: seq<Card>)
    ensures |r| == 52 && forall i :: 0 <= i < 52 ==> r[i] == i
  {
    seq(52, i requires 0 <= i < 52 => i)
  }

  /** The two cards that the seat number `i` gets when hands are dealt seat by seat off the end of the deck. */
  function PairAt(deck: seq<Card>, i: nat): seq<Card>
    requires 2 * i + 2 <= |deck|
  {
    [deck[|deck| - 1 - 2 * i], deck[|deck| - 2 - 2 * i]]
  }

  lemma PairFurther(deck: seq<Card>, i: nat)
    requires 0 < i && 2 * i + 2 <= |deck|
    ensures PairAt(deck[..|deck| - 2], i - 1) == PairAt(deck, i)
  {
  }
}
