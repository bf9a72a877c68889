/**
 * A hand of cards and how it is scored. The scoring rule is given by the
 * functions Sum, HasAce and Total; the class Hand holds the cards of one
 * participant (or of nobody yet) and computes the same total with a loop.
 */
module Hands {
  import opened Cards

  /** The sum of the card values, accumulated from the front as GetTotal does. */
  function Sum(cards: seq<Card>): (s: nat)
    ensures s <= 10 * |cards|
  {
    if cards == [] then 0 else Sum(cards[..|cards| - 1]) + Value(cards[|cards| - 1])
  }

  /** Some card of the hand is a face-up ace (its value is 1), as GetTotal's haveAce records it. */
  predicate HasAce(cards: seq<Card>)
  {
    cards != [] && (HasAce(cards[..|cards| - 1]) || Value(cards[|cards| - 1]) == 1)
  }

  /** HasAce holds exactly when some position holds a face-up ace. */
  lemma {:induction false} HasAceAt(cards: seq<Card>)
    ensures HasAce(cards) <==> exists i :: 0 <= i < |cards| && Value(cards[i]) == 1
  {
    if cards != [] {
      var init := cards[..|cards| - 1];
      HasAceAt(init);
      assert forall j :: 0 <= j < |init| ==> init[j] == cards[j];
    }
  }

  /** The first card is there and lies face-up, so the hand shows a total. */
  predicate Revealed(cards: seq<Card>)
  {
    cards != [] && cards[0].faceUp
  }

  /**
   * Hand::GetTotal. A hand that is empty or whose first card is hidden scores 0.
   * Otherwise the card values are added up, and one ace is promoted to 11 when
   * that does not take the sum past 21.
   */
  function Total(cards: seq<Card>): (t: nat)
    ensures !Revealed(cards) ==> t == 0
    ensures Revealed(cards) ==> t == Sum(cards) || t == Sum(cards) + 10
  {
    if cards == [] || Value(cards[0]) == 0 then 0
    else if HasAce(cards) && Sum(cards) <= 11 then Sum(cards) + 10
    else Sum(cards)
  }

  /** A hidden first card hides the whole hand, whatever follows it. */
  lemma HiddenFirstCardScoresZero(c: Card, rest: seq<Card>)
    requires !c.faceUp
    ensures Total([c] + rest) == 0
  {
  }

  /**
   * The soft-ace bonus is 10, added at most once, exactly when a face-up ace is
   * present and the plain sum is at most 11, and it never takes a hand past 21.
   */
  lemma SoftAceBonusOnce(cards: seq<Card>)
    requires Revealed(cards)
    ensures Total(cards) == Sum(cards) + 10 <==> HasAce(cards) && Sum(cards) <= 11
    ensures Total(cards) == Sum(cards) <==> !(HasAce(cards) && Sum(cards) <= 11)
    ensures Total(cards) > Sum(cards) ==> Total(cards) <= 21
  {
  }

  /** Ace and six, both face-up: a soft 17. */
  lemma AceSixIsSoftSeventeen()
    ensures Total([Card(Ace, Spades, true), Card(6, Clubs, true)]) == 17
  {
    var h := [Card(Ace, Spades, true), Card(6, Clubs, true)];
    assert h[..1] == [h[0]] && h[..1][..0] == [];
    assert Sum(h) == 7;
    assert HasAce(h[..1]);
  }

  /** Three face-up kings: 30, no bonus. */
  lemma ThreeKingsIsThirty()
    ensures Total([Card(King, Spades, true), Card(King, Hearts, true), Card(King, Clubs, true)]) == 30
  {
    var h := [Card(King, Spades, true), Card(King, Hearts, true), Card(King, Clubs, true)];
    assert h[..2] == [h[0], h[1]] && h[..2][..1] == [h[0]] && h[..2][..1][..0] == [];
    assert Sum(h[..2][..1]) == 10;
    assert Sum(h[..2]) == 20;
    assert Sum(h) == 30;
  }

  // ---------------------------------------------------------------------
  // An independent reference: the best blackjack score, where EVERY face-up
  // ace may count as 1 or 11. The single-bonus rule of Total agrees with it.

  /** The number of face-up aces. */
  function AceCount(cards: seq<Card>): (n: nat)
    ensures n <= |cards|
  {
    if cards == [] then 0
    else AceCount(cards[..|cards| - 1]) + (if Value(cards[|cards| - 1]) == 1 then 1 else 0)
  }

  /** Every total reachable by choosing 1 or 11 for each face-up ace. */
  function Scores(cards: seq<Card>): (s: set<int>)
  {
    if cards == [] then {0}
    else
      var before := Scores(cards[..|cards| - 1]);
      var v := Value(cards[|cards| - 1]);
      (set s | s in before :: s + v) + (if v == 1 then (set s | s in before :: s + 11) else {})
  }

  lemma {:induction false} AceCountMatchesHasAce(cards: seq<Card>)
    ensures AceCount(cards) > 0 <==> HasAce(cards)
    ensures AceCount(cards) <= Sum(cards)
  {
    if cards != [] {
      var init := cards[..|cards| - 1];
      AceCountMatchesHasAce(init);
    }
  }

  /** Every reachable score is Sum plus 10 for each of some number of aces counted high. */
  lemma {:induction false} ScoreDecompose(cards: seq<Card>, x: int) returns (k: nat)
    requires x in Scores(cards)
    ensures k <= AceCount(cards) && x == Sum(cards) + 10 * k
  {
    if cards == [] {
      k := 0;
    } else {
      var init := cards[..|cards| - 1];
      var v := Value(cards[|cards| - 1]);
      var s :| s in Scores(init) && (x == s + v || (v == 1 && x == s + 11));
      var j := ScoreDecompose(init, s);
      k := if x == s + v then j else j + 1;
    }
  }

  /** Counting any number of the aces high gives a reachable score. */
  lemma {:induction false} ScoreCompose(cards: seq<Card>, k: nat)
    requires k <= AceCount(cards)
    ensures Sum(cards) + 10 * k in Scores(cards)
  {
    if cards != [] {
      var init := cards[..|cards| - 1];
      var v := Value(cards[|cards| - 1]);
      if k <= AceCount(init) {
        ScoreCompose(init, k);
        var s := Sum(init) + 10 * k;
        assert s + v in (set s | s in Scores(init) :: s + v);
      } else {
        ScoreCompose(init, k - 1);
        var s := Sum(init) + 10 * (k - 1);
        assert s + 11 in (set s | s in Scores(init) :: s + 11);
      }
    }
  }

  /**
   * Total is the best score: it is one of the reachable scores, no reachable
   * score of at most 21 beats it, and when it is bust every reachable score is.
   */
  lemma TotalIsBestScore(cards: seq<Card>)
    requires Revealed(cards)
    ensures Total(cards) in Scores(cards)
    ensures forall x :: x in Scores(cards) && x <= 21 ==> x <= Total(cards)
    ensures Total(cards) > 21 ==> forall x :: x in Scores(cards) ==> x > 21
  {
    AceCountMatchesHasAce(cards);
    ScoreCompose(cards, 0);
    if HasAce(cards) {
      ScoreCompose(cards, 1);
    }
    forall x | x in Scores(cards)
      ensures x <= 21 ==> x <= Total(cards)
      ensures Total(cards) > 21 ==> x > 21
    {
      var k := ScoreDecompose(cards, x);
    }
  }

  /**
   * Hand: the cards a participant holds, in the order they arrived. The
   * deletion of cards in Hand::Clear is not modelled: a cleared card is
   * simply no longer held by anybody.
   */
  class Hand {
    var cards: seq<Card>

    constructor ()
      ensures cards == []
    {
      cards := [];
    }

    /** Hand::Add: the card goes to the end. */
    method Add(c: Card)
      modifies this
      ensures cards == old(cards) + [c]
    {
      cards := cards + [c];
    }

    /** Hand::Clear: the hand is emptied. */
    method Clear()
      modifies this
      ensures cards == []
    {
      cards := [];
    }

    /** Hand::GetTotal, with its running total and ace flag. */
    method GetTotal() returns (total: int)
      ensures total == Total(cards)
    {
      if |cards| == 0 || Value(cards[0]) == 0 {
        return 0;
      }
      total := 0;
      var haveAce := false;
      var i := 0;
      while i < |cards|
        invariant 0 <= i <= |cards|
        invariant total == Sum(cards[..i])
        invariant haveAce <==> HasAce(cards[..i])
      {
        assert cards[..i + 1][..i] == cards[..i];
        if Value(cards[i]) == Ace {
          haveAce := true;
        }
        total := total + Value(cards[i]);
        i := i + 1;
      }
      assert cards[..i] == cards;
      if haveAce && total <= 11 {
        total := total + 10;
      }
    }
  }
}
