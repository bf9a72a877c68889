/**
 * The deck: the pile of undealt cards, dealt from its end. The functions
 * here say what one deal and one participant's hit loop do to card values;
 * the class Deck performs them in place.
 */
module Decks {
  import opened Options
  import opened Cards
  import opened Hands
  import opened Participants

  /** The card at position 13 * s + (r - 1) of a freshly populated deck. */
  function FreshCard(i: int): (c: Card)
    requires 0 <= i < 52
  {
    Card(i % 13 + 1, i / 13, true)
  }

  /** The 52 cards Deck::Populate creates: suit by suit, Ace to King, all face-up. */
  function FullDeck(): (d: seq<Card>)
    ensures |d| == 52
  {
    seq(52, FreshCard)
  }

  /**
   * The populated deck holds every (suit, rank) exactly once, face-up, at
   * position 13 * suit + rank - 1, and holds nothing else.
   */
  lemma FullDeckComplete()
    ensures forall i :: 0 <= i < 52 ==> FullDeck()[i].faceUp
    ensures forall r: Rank, s: Suit :: FullDeck()[13 * s + r - 1] == Card(r, s, true)
    ensures forall c: Card :: c in FullDeck() <==> c.faceUp
    ensures forall i, j :: 0 <= i < j < 52 ==> FullDeck()[i] != FullDeck()[j]
  {
    var d := FullDeck();
    forall r: Rank, s: Suit
      ensures d[13 * s + r - 1] == Card(r, s, true)
    {
      FreshCardAt(r, s);
    }
    forall c: Card | c.faceUp
      ensures c in d
    {
      FreshCardAt(c.rank, c.suit);
      assert d[13 * c.suit + c.rank - 1] == c;
    }
    forall i, j | 0 <= i < j < 52
      ensures d[i] != d[j]
    {
      assert i == 13 * (i / 13) + i % 13 && j == 13 * (j / 13) + j % 13;
    }
  }

  /** Every card is face-up: so is every card of a deck nothing has flipped. */
  predicate AllFaceUp(cards: seq<Card>)
  {
    forall c :: c in cards ==> c.faceUp
  }

  /** Any arrangement of the full deck, such as a shuffled one, is all face-up. */
  lemma ShuffledDeckFaceUp(cards: seq<Card>)
    requires multiset(cards) == multiset(FullDeck())
    ensures AllFaceUp(cards)
  {
    FullDeckComplete();
    forall c | c in cards
      ensures c.faceUp
    {
      assert c in multiset(cards);
    }
  }

  lemma FreshCardAt(r: Rank, s: Suit)
    ensures 0 <= 13 * s + r - 1 < 52
    ensures FreshCard(13 * s + r - 1) == Card(r, s, true)
  {
    var i := 13 * s + r - 1;
    assert i / 13 == s && i % 13 == r - 1;
  }

  /**
   * Deck::Deal on card values: the deck's last card goes to the end of the
   * hand; an empty deck leaves both as they are.
   */
  function DealStep(deck: seq<Card>, hand: seq<Card>): (r: (seq<Card>, seq<Card>))
  {
    if deck == [] then (deck, hand)
    else (deck[..|deck| - 1], hand + [deck[|deck| - 1]])
  }

  /**
   * A deal from a non-empty deck moves exactly its last card: the hand keeps
   * its cards and gains that one, and putting it back restores the deck.
   */
  lemma DealStepTakesLast(deck: seq<Card>, hand: seq<Card>)
    ensures deck == [] ==> DealStep(deck, hand) == (deck, hand)
    ensures deck != [] ==> var r := DealStep(deck, hand);
      && |r.1| == |hand| + 1 && r.1[..|hand|] == hand
      && r.0 + [r.1[|hand|]] == deck
  {
    if deck != [] {
      var n := |deck|;
      assert deck == deck[..n - 1] + [deck[n - 1]];
      assert (hand + [deck[n - 1]])[..|hand|] == hand;
    }
  }

  /** A deal neither creates nor destroys cards. */
  lemma DealStepKeepsCards(deck: seq<Card>, hand: seq<Card>)
    ensures multiset(DealStep(deck, hand).0) + multiset(DealStep(deck, hand).1)
      == multiset(deck) + multiset(hand)
    ensures DealStep(deck, hand).0 <= deck
  {
    if deck != [] {
      assert deck == deck[..|deck| - 1] + [deck[|deck| - 1]];
    }
  }

  /** The first k cards a run of deals takes from the deck, in the order they are dealt. */
  function Drawn(deck: seq<Card>, k: nat): (r: seq<Card>)
    requires k <= |deck|
    ensures |r| == k
  {
    if k == 0 then [] else [deck[|deck| - 1]] + Drawn(deck[..|deck| - 1], k - 1)
  }

  /** The j-th card drawn is the j-th card from the end of the deck. */
  lemma {:induction false} DrawnAt(deck: seq<Card>, k: nat, j: nat)
    requires j < k <= |deck|
    ensures Drawn(deck, k)[j] == deck[|deck| - 1 - j]
  {
    if j > 0 {
      DrawnAt(deck[..|deck| - 1], k - 1, j - 1);
    }
  }

  /** Dealing one card and then drawing j - 1 more gives the hand the same cards as drawing j. */
  lemma DealThenDraw(hand: seq<Card>, deck: seq<Card>, j: nat)
    requires 0 < j <= |deck|
    ensures hand + Drawn(deck, j) == DealStep(deck, hand).1 + Drawn(DealStep(deck, hand).0, j - 1)
  {
  }

  /** Drawing one more card appends the next one from the end. */
  lemma {:induction false} DrawnOneMore(deck: seq<Card>, k: nat)
    requires k < |deck|
    ensures Drawn(deck, k + 1) == Drawn(deck, k) + [deck[|deck| - 1 - k]]
  {
    if k > 0 {
      DrawnOneMore(deck[..|deck| - 1], k - 1);
    }
  }

  /**
   * The cards a run of k deal calls gives: Drawn while the deck lasts, and
   * nothing more once it is empty.
   */
  function DrawnAfter(deck: seq<Card>, k: nat): (r: seq<Card>)
    ensures |r| == if k < |deck| then k else |deck|
  {
    Drawn(deck, if k < |deck| then k else |deck|)
  }

  /** One deal call, then k - 1 more, gives the same cards as k calls. */
  lemma DealThenDrawAfter(hand: seq<Card>, deck: seq<Card>, k: nat)
    requires 0 < k
    ensures hand + DrawnAfter(deck, k) == DealStep(deck, hand).1 + DrawnAfter(DealStep(deck, hand).0, k - 1)
  {
    if deck == [] {
      assert hand + DrawnAfter(deck, k) == hand;
    } else {
      DealThenDraw(hand, deck, if k < |deck| then k else |deck|);
    }
  }

  /** The outcome of one participant's hit loop: its hand, the deck, and the unread answers. */
  datatype Turn = Turn(hand: seq<Card>, deck: seq<Card>, answers: seq<char>)

  /**
   * The hit loop of Deck::AdditionalCards for a participant that is asked
   * each time: read an answer; stop on anything but 'y'/'Y', on an exhausted
   * script, or when busted holds of the hand; otherwise deal one card (or
   * nothing, on an empty deck) and ask again. The loop reads the answer
   * before it tests for a bust, as the original's condition does.
   */
  function AskWhile(busted: seq<Card> -> bool, hand: seq<Card>, deck: seq<Card>, answers: seq<char>): (t: Turn)
    decreases |answers|
  {
    if answers == [] || !IsYes(answers[0]) || busted(hand) then Turn(hand, deck, Rest(answers))
    else
      var step := DealStep(deck, hand);
      AskWhile(busted, step.1, step.0, answers[1..])
  }

  /** Deck::AdditionalCards for a Player. */
  function PlayerTurn(hand: seq<Card>, deck: seq<Card>, answers: seq<char>): (t: Turn)
  {
    AskWhile(Busted, hand, deck, answers)
  }

  /**
   * The loop only moves cards from the end of the deck to the end of the
   * hand, in dealing order.
   */
  lemma {:induction false} AskWhileMovesCards(busted: seq<Card> -> bool, hand: seq<Card>, deck: seq<Card>, answers: seq<char>)
    ensures |AskWhile(busted, hand, deck, answers).deck| <= |deck|
    ensures AskWhile(busted, hand, deck, answers).deck == deck[..|AskWhile(busted, hand, deck, answers).deck|]
    ensures AskWhile(busted, hand, deck, answers).hand
      == hand + Drawn(deck, |deck| - |AskWhile(busted, hand, deck, answers).deck|)
    decreases |answers|
  {
    assert hand + Drawn(deck, 0) == hand;
    if answers != [] && IsYes(answers[0]) && !busted(hand) {
      var step := DealStep(deck, hand);
      AskWhileMovesCards(busted, step.1, step.0, answers[1..]);
      if deck != [] {
        var t := AskWhile(busted, step.1, step.0, answers[1..]);
        DealThenDraw(hand, deck, |step.0| - |t.deck| + 1);
        assert step.0 == deck[..|deck| - 1];
      }
    }
  }

  /** The loop reads its answers from the front of the script. */
  lemma {:induction false} AskWhileReadsAnswers(busted: seq<Card> -> bool, hand: seq<Card>, deck: seq<Card>, answers: seq<char>)
    ensures |AskWhile(busted, hand, deck, answers).answers| <= |answers|
    ensures AskWhile(busted, hand, deck, answers).answers
      == answers[|answers| - |AskWhile(busted, hand, deck, answers).answers|..]
    decreases |answers|
  {
    if answers != [] && IsYes(answers[0]) && !busted(hand) {
      var step := DealStep(deck, hand);
      var a := answers[1..];
      AskWhileReadsAnswers(busted, step.1, step.0, a);
      var t := AskWhile(busted, step.1, step.0, a);
      assert a[|a| - |t.answers|..] == answers[|answers| - |t.answers|..];
    }
  }

  /**
   * The loop ends only when the participant stands or is bust: every answer
   * read before the last one asked for a card, at a moment when the hand
   * (holding what the earlier deal calls gave it) was not bust; and the last
   * one read was a stand, or the hand is bust, or the script ran out.
   */
  lemma {:induction false} AskWhileEnds(busted: seq<Card> -> bool, hand: seq<Card>, deck: seq<Card>, answers: seq<char>)
    ensures var t := AskWhile(busted, hand, deck, answers);
      var read := |answers| - |t.answers|;
      && 0 <= read <= |answers| && (answers != [] ==> read >= 1)
      && (forall j :: 0 <= j < read - 1 ==> IsYes(answers[j]))
      && (forall j :: 0 <= j < read - 1 ==> !busted(hand + DrawnAfter(deck, j)))
      && (busted(t.hand) || (read >= 1 && !IsYes(answers[read - 1])) || t.answers == [])
    decreases |answers|
  {
    assert hand + DrawnAfter(deck, 0) == hand;
    if answers != [] && IsYes(answers[0]) && !busted(hand) {
      var step := DealStep(deck, hand);
      var a := answers[1..];
      AskWhileEnds(busted, step.1, step.0, a);
      var t := AskWhile(busted, step.1, step.0, a);
      forall j | 0 <= j < |answers| - |t.answers| - 1
        ensures IsYes(answers[j])
      {
        if j > 0 { assert answers[j] == a[j - 1]; }
      }
      forall j | 0 < j < |answers| - |t.answers| - 1
        ensures !busted(hand + DrawnAfter(deck, j))
      {
        DealThenDrawAfter(hand, deck, j);
      }
    }
  }

  /**
   * The loop deals exactly once per accepted yes. Say the last answer read
   * stopped the loop when it was not a yes or came while the hand was bust.
   * Then the hand holds what one deal call per earlier answer gave it, and
   * otherwise what one call per answer read gave it, the script being
   * exhausted. In particular a bust after a deal is noticed only once the
   * next answer has been read.
   */
  lemma {:induction false} AskWhileDealsPerYes(busted: seq<Card> -> bool, hand: seq<Card>, deck: seq<Card>, answers: seq<char>)
    ensures var t := AskWhile(busted, hand, deck, answers);
      var read := |answers| - |t.answers|;
      0 <= read <= |answers| &&
      var stopped := read >= 1 && (!IsYes(answers[read - 1]) || busted(hand + DrawnAfter(deck, read - 1)));
      var deals := if stopped then read - 1 else read;
      && t.hand == hand + DrawnAfter(deck, deals)
      && (stopped || t.answers == [])
    decreases |answers|
  {
    assert hand + DrawnAfter(deck, 0) == hand;
    if answers != [] && IsYes(answers[0]) && !busted(hand) {
      var step := DealStep(deck, hand);
      var a := answers[1..];
      AskWhileDealsPerYes(busted, step.1, step.0, a);
      AskWhileEnds(busted, step.1, step.0, a);
      var t := AskWhile(busted, step.1, step.0, a);
      assert AskWhile(busted, hand, deck, answers) == t;
      var read' := |a| - |t.answers|;
      assert |answers| - |t.answers| == read' + 1;
      var stopped' := read' >= 1 && (!IsYes(a[read' - 1]) || busted(step.1 + DrawnAfter(step.0, read' - 1)));
      var stopped := !IsYes(answers[read']) || busted(hand + DrawnAfter(deck, read'));
      if read' >= 1 {
        DealThenDrawAfter(hand, deck, read');
        assert answers[read'] == a[read' - 1];
        assert stopped == stopped';
      } else {
        assert !stopped;
      }
      var deals' := if stopped' then read' - 1 else read';
      DealThenDrawAfter(hand, deck, deals' + 1);
      assert t.hand == hand + DrawnAfter(deck, deals' + 1);
    }
  }

  /**
   * A player's turn moves cards from the deck's end to the hand's end, reads
   * answers from the front of the script, asks again only after a yes given
   * while not bust, deals exactly once per accepted yes, and ends only on a
   * stand answer, a bust, or an exhausted script.
   */
  lemma PlayerTurnEnds(hand: seq<Card>, deck: seq<Card>, answers: seq<char>)
    ensures var t := PlayerTurn(hand, deck, answers);
      var read := |answers| - |t.answers|;
      && |t.deck| <= |deck| && t.deck == deck[..|t.deck|]
      && t.hand == hand + Drawn(deck, |deck| - |t.deck|)
      && 0 <= read <= |answers| && t.answers == answers[read..]
      && (forall j :: 0 <= j < read - 1 ==> IsYes(answers[j]))
      && (forall j :: 0 <= j < read - 1 ==> !Busted(hand + DrawnAfter(deck, j)))
      && (Busted(t.hand) || (read >= 1 && !IsYes(answers[read - 1])) || t.answers == [])
      && var stopped := read >= 1 && (!IsYes(answers[read - 1]) || Busted(hand + DrawnAfter(deck, read - 1)));
        && t.hand == hand + DrawnAfter(deck, if stopped then read - 1 else read)
        && (stopped || t.answers == [])
  {
    AskWhileMovesCards(Busted, hand, deck, answers);
    AskWhileReadsAnswers(Busted, hand, deck, answers);
    AskWhileEnds(Busted, hand, deck, answers);
    AskWhileDealsPerYes(Busted, hand, deck, answers);
  }

  /**
   * Two kings, asking twice: the first yes deals the five, which busts the
   * hand, and the loop still reads the second answer before it stops.
   */
  lemma BustingDealReadsNextAnswer()
    ensures var hand := [Card(King, Clubs, true), Card(King, Diamonds, true)];
      var deck := [Card(2, Clubs, true), Card(5, Clubs, true)];
      PlayerTurn(hand, deck, "yy") == Turn(hand + [Card(5, Clubs, true)], [Card(2, Clubs, true)], "")
  {
    var hand := [Card(King, Clubs, true), Card(King, Diamonds, true)];
    var bust := hand + [Card(5, Clubs, true)];
    assert Sum(hand[..1]) == 10 && Sum(hand) == 20;
    assert bust[..2] == hand && Sum(bust) == 25;
    assert !HasAce(hand[..1]) && !HasAce(hand) && !HasAce(bust);
    assert "yy"[1..] == "y" && "y"[1..] == "";
  }

  /**
   * A bust player is dealt nothing more, whatever it answers: its turn reads
   * one answer and ends.
   */
  lemma BustedPlayerDrawsNoMore(hand: seq<Card>, deck: seq<Card>, answers: seq<char>)
    requires Busted(hand)
    ensures PlayerTurn(hand, deck, answers) == Turn(hand, deck, Rest(answers))
  {
  }

  /**
   * The hit loop of Deck::AdditionalCards for a participant whose decision
   * depends on its hand alone: deal while wants holds of the hand. None when
   * the deck runs out while wants still holds: the original then deals
   * nothing, forever.
   */
  function DealWhile(wants: seq<Card> -> bool, hand: seq<Card>, deck: seq<Card>): (r: Option<(seq<Card>, seq<Card>)>)
    decreases |deck|
  {
    if !wants(hand) then Some((hand, deck))
    else if deck == [] then None
    else
      var step := DealStep(deck, hand);
      DealWhile(wants, step.1, step.0)
  }

  /** The loop only moves cards from the end of the deck to the end of the hand. */
  lemma {:induction false} DealWhileMovesCards(wants: seq<Card> -> bool, hand: seq<Card>, deck: seq<Card>)
    requires DealWhile(wants, hand, deck).Some?
    ensures |DealWhile(wants, hand, deck).value.1| <= |deck|
    ensures DealWhile(wants, hand, deck).value.1 == deck[..|DealWhile(wants, hand, deck).value.1|]
    ensures DealWhile(wants, hand, deck).value.0
      == hand + Drawn(deck, |deck| - |DealWhile(wants, hand, deck).value.1|)
    decreases |deck|
  {
    if !wants(hand) {
      assert hand + Drawn(deck, 0) == hand;
    } else {
      var step := DealStep(deck, hand);
      DealWhileMovesCards(wants, step.1, step.0);
      var r := DealWhile(wants, step.1, step.0).value;
      DealThenDraw(hand, deck, |step.0| - |r.1| + 1);
      assert step.0 == deck[..|deck| - 1];
    }
  }

  /**
   * When the loop ends, it ends at the first number k of cards drawn after
   * which wants fails; for every smaller number it held.
   */
  lemma {:induction false} DealWhileStopsAtFirst(wants: seq<Card> -> bool, hand: seq<Card>, deck: seq<Card>)
    requires DealWhile(wants, hand, deck).Some?
    ensures var k := |deck| - |DealWhile(wants, hand, deck).value.1|;
      && 0 <= k <= |deck|
      && !wants(hand + Drawn(deck, k))
      && forall j :: 0 <= j < k ==> wants(hand + Drawn(deck, j))
    decreases |deck|
  {
    assert hand + Drawn(deck, 0) == hand;
    if wants(hand) {
      var step := DealStep(deck, hand);
      DealWhileStopsAtFirst(wants, step.1, step.0);
      var k := |step.0| - |DealWhile(wants, step.1, step.0).value.1|;
      DealThenDraw(hand, deck, k + 1);
      forall j | 0 < j < k + 1
        ensures wants(hand + Drawn(deck, j))
      {
        DealThenDraw(hand, deck, j);
      }
    }
  }

  /** The loop fails to end exactly when wants holds after every number of cards the deck can give. */
  lemma {:induction false} DealWhileHangs(wants: seq<Card> -> bool, hand: seq<Card>, deck: seq<Card>)
    ensures DealWhile(wants, hand, deck).None? <==>
      forall j :: 0 <= j <= |deck| ==> wants(hand + Drawn(deck, j))
    decreases |deck|
  {
    assert hand + Drawn(deck, 0) == hand;
    if wants(hand) && deck != [] {
      var step := DealStep(deck, hand);
      DealWhileHangs(wants, step.1, step.0);
      forall j | 0 < j <= |deck|
        ensures hand + Drawn(deck, j) == step.1 + Drawn(step.0, j - 1)
      {
        DealThenDraw(hand, deck, j);
      }
      assert |step.0| == |deck| - 1;
      if DealWhile(wants, step.1, step.0).Some? {
        var j :| 0 <= j <= |step.0| && !wants(step.1 + Drawn(step.0, j));
        assert hand + Drawn(deck, j + 1) == step.1 + Drawn(step.0, j);
        assert !wants(hand + Drawn(deck, j + 1));
      } else {
        forall j | 0 < j <= |deck|
          ensures wants(hand + Drawn(deck, j))
        {
          assert wants(step.1 + Drawn(step.0, j - 1));
        }
      }
    }
  }

  /** House::IsHitting together with the loop's own bust test. */
  predicate HouseContinues(cards: seq<Card>)
  {
    HouseHits(cards) && !Busted(cards)
  }

  /** Deck::AdditionalCards for the House. */
  function HouseTurn(hand: seq<Card>, deck: seq<Card>): (r: Option<(seq<Card>, seq<Card>)>)
  {
    DealWhile(HouseContinues, hand, deck)
  }

  /** For the house the loop's bust test adds nothing: a hitting house is never bust. */
  lemma HouseContinuesWhileHitting(cards: seq<Card>)
    ensures HouseContinues(cards) <==> HouseHits(cards)
    ensures !HouseContinues(cards) <==> Total(cards) >= 17
  {
  }

  /**
   * A house turn that ends leaves the house on 17 or more, after taking the
   * fewest cards from the deck's end that get it there: with any fewer it
   * still hit. (Which cards, and what is left of the deck, is
   * DealWhileMovesCards.)
   */
  lemma HouseTurnStandsOnSeventeen(hand: seq<Card>, deck: seq<Card>)
    requires HouseTurn(hand, deck).Some?
    ensures var k := |deck| - |HouseTurn(hand, deck).value.1|;
      && 0 <= k <= |deck|
      && Total(HouseTurn(hand, deck).value.0) >= 17
      && forall j :: 0 <= j < k ==> HouseHits(hand + Drawn(deck, j))
  {
    DealWhileMovesCards(HouseContinues, hand, deck);
    DealWhileStopsAtFirst(HouseContinues, hand, deck);
    var k := |deck| - |HouseTurn(hand, deck).value.1|;
    HouseContinuesWhileHitting(hand + Drawn(deck, k));
    forall j | 0 <= j < k
      ensures HouseHits(hand + Drawn(deck, j))
    {
      HouseContinuesWhileHitting(hand + Drawn(deck, j));
    }
  }

  /**
   * A house turn fails to end exactly when the house still hits after every
   * number of cards the deck can give it.
   */
  lemma HouseTurnHangs(hand: seq<Card>, deck: seq<Card>)
    ensures HouseTurn(hand, deck).None? <==>
      forall j :: 0 <= j <= |deck| ==> HouseHits(hand + Drawn(deck, j))
  {
    DealWhileHangs(HouseContinues, hand, deck);
    forall j | 0 <= j <= |deck|
      ensures HouseContinues(hand + Drawn(deck, j)) == HouseHits(hand + Drawn(deck, j))
    {
      HouseContinuesWhileHitting(hand + Drawn(deck, j));
    }
  }

  /**
   * Deck: the undealt cards. The original Deck inherits from Hand; of that
   * it uses the card list, Clear and Add, which here are the field cards.
   */
  class Deck {
    var cards: seq<Card>

    /** Deck::Deck populates the new deck. */
    constructor ()
      ensures cards == FullDeck()
    {
      cards := [];
      new;
      Populate();
    }

    /** Deck::Populate: discard what is left and lay out all 52 cards in order. */
    method Populate()
      modifies this
      ensures cards == FullDeck()
    {
      cards := [];
      var s := Clubs as int;
      while s <= Spades as int
        invariant 0 <= s <= 4
        invariant cards == FullDeck()[..13 * s]
      {
        var r := Ace as int;
        while r <= King as int
          invariant 1 <= r <= 14
          invariant cards == FullDeck()[..13 * s + r - 1]
        {
          FreshCardAt(r, s);
          assert FullDeck()[..13 * s + r] == FullDeck()[..13 * s + r - 1] + [Card(r, s, true)];
          cards := cards + [Card(r, s, true)];
          r := r + 1;
        }
        s := s + 1;
      }
    }

    /**
     * Deck::Shuffle. random_shuffle as libstdc++ implements it: for each
     * position i from 1 on, swap it with position rand() % (i + 1). The values
     * rand() returns are the parameter draws; only the permutation is promised.
     */
    method Shuffle(draws: seq<nat>)
      requires |draws| + 1 >= |cards|
      modifies this
      ensures |cards| == |old(cards)|
      ensures multiset(cards) == multiset(old(cards))
    {
      var i := 1;
      while i < |cards|
        invariant |cards| == |old(cards)|
        invariant multiset(cards) == multiset(old(cards))
      {
        var j := draws[i - 1] % (i + 1);
        cards := cards[i := cards[j]][j := cards[i]];
        i := i + 1;
      }
    }

    /**
     * Deck::Deal: the last card of the deck moves to the end of the hand.
     * On an empty deck nothing moves (the original prints "Out of cards.
     * Unable to deal"); dealt says whether a card moved.
     */
    method Deal(hand: Hand) returns (dealt: bool)
      modifies this, hand
      ensures dealt <==> old(cards) != []
      ensures (cards, hand.cards) == DealStep(old(cards), old(hand.cards))
    {
      dealt := cards != [];
      if dealt {
        hand.Add(cards[|cards| - 1]);
        cards := cards[..|cards| - 1];
      }
    }

    /**
     * Deck::AdditionalCards for a Player; busted says whether the loop ended
     * with the player bust (the original then calls Bust).
     */
    method AdditionalCards(p: Player) returns (busted: bool)
      modifies this, p, p.hand
      ensures Turn(p.hand.cards, cards, p.answers) == PlayerTurn(old(p.hand.cards), old(cards), old(p.answers))
      ensures busted <==> Busted(p.hand.cards)
    {
      ghost var goal := PlayerTurn(p.hand.cards, cards, p.answers);
      while true
        invariant PlayerTurn(p.hand.cards, cards, p.answers) == goal
        decreases |p.answers|
      {
        var hitting := p.IsHitting();
        if !hitting || p.IsBusted() {
          break;
        }
        var _ := Deal(p.hand);
      }
      busted := p.IsBusted();
    }

    /**
     * Deck::AdditionalCards for the House. ends is false exactly when the
     * original would deal from an empty deck forever; the loop then stops
     * here instead.
     */
    method HouseAdditionalCards(h: House) returns (ends: bool, busted: bool)
      modifies this, h.hand
      ensures ends <==> HouseTurn(old(h.hand.cards), old(cards)).Some?
      ensures ends ==> HouseTurn(old(h.hand.cards), old(cards)) == Some((h.hand.cards, cards))
      ensures ends ==> (busted <==> Busted(h.hand.cards))
    {
      while h.IsHitting() && !h.IsBusted()
        invariant HouseTurn(h.hand.cards, cards) == HouseTurn(old(h.hand.cards), old(cards))
        decreases |cards|
      {
        if cards == [] {
          return false, false;
        }
        var _ := Deal(h.hand);
      }
      ends := true;
      busted := h.IsBusted();
    }
  }
}
