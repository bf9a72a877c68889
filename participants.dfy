/**
 * The two kinds of participant. Both hold a Hand (a participant HAS a hand
 * here, where the original inherits from it) and are bust when the hand's
 * total is over 21. They differ in how they decide to take another card:
 * a Player answers from a script of console answers, the House hits while
 * its total is 16 or less.
 */
module Participants {
  import opened Cards
  import opened Hands

  /** GenericPlayer::IsBusted. */
  predicate Busted(cards: seq<Card>)
  {
    Total(cards) > 21
  }

  /** House::IsHitting: the house draws on 16 or less and stands on 17 or more. */
  predicate HouseHits(cards: seq<Card>)
  {
    Total(cards) <= 16
  }

  /** Player::IsHitting accepts 'y' or 'Y' as a request for a card. */
  predicate IsYes(answer: char)
  {
    answer == 'y' || answer == 'Y'
  }

  /** What is left of a script once its next answer has been read. */
  function Rest(answers: seq<char>): (r: seq<char>)
    ensures answers != [] ==> |r| == |answers| - 1 && answers == [answers[0]] + r
    ensures answers == [] ==> r == []
  {
    if answers == [] then [] else answers[1..]
  }

  /** A busted house never hits, and a hitting house is never bust. */
  lemma BustedHouseStands(cards: seq<Card>)
    ensures Busted(cards) ==> !HouseHits(cards)
    ensures HouseHits(cards) ==> !Busted(cards)
    ensures !HouseHits(cards) <==> Total(cards) >= 17
  {
  }

  /**
   * Nobody is bust on the initial deal: a hand of at most two cards totals
   * 21 or less, while three cards can go over (three kings total 30).
   */
  lemma TwoCardsNeverBust(cards: seq<Card>)
    requires |cards| <= 2
    ensures !Busted(cards)
  {
  }

  /** House::FlipFirstCard on the card values: the first card is flipped, if there is one. */
  function FlipFirst(cards: seq<Card>): (r: seq<Card>)
    ensures |r| == |cards|
    ensures cards != [] ==> r[0] == Flip(cards[0]) && r[1..] == cards[1..]
  {
    if cards == [] then [] else cards[0 := Flip(cards[0])]
  }

  /**
   * Flipping the first card twice restores the hand; flipping a face-up first
   * card hides the hand's total.
   */
  lemma {:induction false} FlipFirstTwice(cards: seq<Card>)
    ensures FlipFirst(FlipFirst(cards)) == cards
    ensures Revealed(cards) ==> !Revealed(FlipFirst(cards)) && Total(FlipFirst(cards)) == 0
  {
    if cards != [] {
      FlipTwiceRestores(cards[0]);
      assert FlipFirst(FlipFirst(cards)) == [cards[0]] + cards[1..];
    }
  }

  /**
   * Player: a named participant whose decisions come from a script standing
   * for the answers typed at the console. An exhausted script means "stand".
   */
  class Player {
    const name: string
    const hand: Hand
    var answers: seq<char>

    constructor (name: string, answers: seq<char>)
      ensures this.name == name && this.answers == answers
      ensures fresh(hand) && hand.cards == []
    {
      this.name := name;
      this.answers := answers;
      hand := new Hand();
    }

    /** Player::IsHitting: reads one answer; only 'y' or 'Y' asks for a card. */
    method IsHitting() returns (hit: bool)
      modifies this
      ensures hit <==> old(answers) != [] && IsYes(old(answers)[0])
      ensures answers == Rest(old(answers))
    {
      if answers == [] {
        return false;
      }
      hit := IsYes(answers[0]);
      answers := answers[1..];
    }

    predicate IsBusted()
      reads hand
    {
      Busted(hand.cards)
    }
  }

  /** House: the dealer, which hits on a fixed threshold and can turn its first card. */
  class House {
    const name: string
    const hand: Hand

    constructor ()
      ensures name == "House"
      ensures fresh(hand) && hand.cards == []
    {
      name := "House";
      hand := new Hand();
    }

    predicate IsHitting()
      reads hand
    {
      HouseHits(hand.cards)
    }

    predicate IsBusted()
      reads hand
    {
      Busted(hand.cards)
    }

    /**
     * House::FlipFirstCard: turns over the first card in place. On an empty
     * hand nothing happens (the original prints "No card to flip");
     * flipped says whether there was a card.
     */
    method FlipFirstCard() returns (flipped: bool)
      modifies hand
      ensures flipped <==> old(hand.cards) != []
      ensures hand.cards == FlipFirst(old(hand.cards))
    {
      flipped := hand.cards != [];
      if flipped {
        hand.cards := hand.cards[0 := Flip(hand.cards[0])];
      }
    }
  }
}
