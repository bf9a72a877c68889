/**
 * A playing card: its rank, its suit and whether it lies face-up.
 * Only the face-up flag ever changes, and only by flipping.
 */
module Cards {
  /** Card::rank: Ace = 1, Two = 2, ..., Ten = 10, Jack = 11, Queen = 12, King = 13. */
  type Rank = r: int | 1 <= r <= 13 witness 1
  /** Card::suit: Clubs = 0, Diamonds = 1, Hearts = 2, Spades = 3. */
  type Suit = s: int | 0 <= s <= 3 witness 0

  const Ace: Rank := 1
  const Jack: Rank := 11
  const King: Rank := 13
  const Clubs: Suit := 0
  const Diamonds: Suit := 1
  const Hearts: Suit := 2
  const Spades: Suit := 3

  datatype Card = Card(rank: Rank, suit: Suit, faceUp: bool)

  /**
   * Card::GetValue: a hidden card is worth nothing; a visible one is worth its
   * rank, with tens and face cards capped at 10. An ace is worth 1 here; the
   * soft-ace bonus belongs to the hand.
   */
  function Value(c: Card): (v: int)
    ensures 0 <= v <= 10
    ensures v == 0 <==> !c.faceUp
    ensures c.faceUp && c.rank <= 10 ==> v == c.rank
    ensures c.faceUp && c.rank >= 10 ==> v == 10
    ensures v == 1 <==> c.faceUp && c.rank == Ace
  {
    if c.faceUp then (if c.rank > 10 then 10 else c.rank) else 0
  }

  /** Card::Flip: toggles the visibility and nothing else. */
  function Flip(c: Card): (f: Card)
    ensures f.rank == c.rank && f.suit == c.suit
    ensures f.faceUp != c.faceUp
  {
    c.(faceUp := !c.faceUp)
  }

  /** Flipping twice gives back the very same card. */
  lemma FlipTwiceRestores(c: Card)
    ensures Flip(Flip(c)) == c
  {
  }

  /** Flipping a visible card hides its whole value; flipping it back restores it. */
  lemma FlipHidesValue(c: Card)
    requires c.faceUp
    ensures Value(Flip(c)) == 0
    ensures Value(Flip(Flip(c))) == Value(c) > 0
  {
  }
}
