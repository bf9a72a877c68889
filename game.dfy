/**
 * Game: the table of one session, its players in seating order, the house
 * and the deck, and Game::Play proved against the round of Rounds.
 */
module Games {
  import opened Options
  import opened Cards
  import opened Hands
  import opened Participants
  import opened Decks
  import opened Rounds

  class Game {
    const deck: Deck
    const house: House
    const players: seq<Player>

    /**
     * Every seat holds its own player with its own hand, none of them the
     * house's: the vector of Players the original owns by value.
     */
    ghost predicate Valid()
    {
      && (forall i, j :: 0 <= i < j < |players| ==> players[i] != players[j])
      && (forall i, j :: 0 <= i < j < |players| ==> players[i].hand != players[j].hand)
      && (forall i :: 0 <= i < |players| ==> players[i].hand != house.hand)
    }

    ghost function Seats(): (seats: set<Player>)
    {
      set i | 0 <= i < |players| :: players[i]
    }

    ghost function Hands(): (hands: set<Hand>)
    {
      set i | 0 <= i < |players| :: players[i].hand
    }

    ghost function HandsOf(): (h: seq<seq<Card>>)
      reads Hands()
      ensures |h| == |players|
    {
      seq(|players|, i requires 0 <= i < |players| reads Hands() => players[i].hand.cards)
    }

    ghost function AnswersOf(): (a: seq<seq<char>>)
      reads Seats()
      ensures |a| == |players|
    {
      seq(|players|, i requires 0 <= i < |players| reads Seats() => players[i].answers)
    }

    /** The game's state as a table of card values. */
    ghost function State(): (t: Table)
      reads deck, house.hand, Hands(), Seats()
      ensures Seated(t) && |t.hands| == |players|
    {
      Table(deck.cards, house.hand.cards, HandsOf(), AnswersOf())
    }

    /**
     * Game::Game: one player per name (each with the answers it will give),
     * then a populated and shuffled deck. draws stands for the values rand()
     * returns during the shuffle.
     */
    constructor (names: seq<string>, scripts: seq<seq<char>>, draws: seq<nat>)
      requires |names| == |scripts| && |draws| >= 51
      ensures Valid()
      ensures fresh(deck) && fresh(house.hand) && fresh(Seats()) && fresh(Hands())
      ensures |players| == |names| && forall i :: 0 <= i < |names| ==> players[i].name == names[i]
      ensures State().house == [] && State().answers == scripts
      ensures forall i :: 0 <= i < |names| ==> State().hands[i] == []
      ensures multiset(deck.cards) == multiset(FullDeck()) && |deck.cards| == 52
      ensures AllFaceUp(deck.cards)
    {
      var d := new Deck();
      d.Populate();
      d.Shuffle(draws);
      var ps := SeatPlayers(names, scripts);
      var h := new House();
      deck := d;
      house := h;
      players := ps;
      new;
      assert AnswersOf() == scripts;
      ShuffledDeckFaceUp(deck.cards);
    }

    /** The loop of Game::Game that seats one new player per name. */
    static method SeatPlayers(names: seq<string>, scripts: seq<seq<char>>) returns (ps: seq<Player>)
      requires |names| == |scripts|
      ensures |ps| == |names|
      ensures forall k :: 0 <= k < |ps| ==> fresh(ps[k]) && fresh(ps[k].hand)
      ensures forall k :: 0 <= k < |ps| ==>
        ps[k].name == names[k] && ps[k].answers == scripts[k] && ps[k].hand.cards == []
      ensures forall k, l :: 0 <= k < l < |ps| ==> ps[k] != ps[l] && ps[k].hand != ps[l].hand
    {
      ps := [];
      var i := 0;
      while i < |names|
        invariant 0 <= i <= |names| && |ps| == i
        invariant forall k :: 0 <= k < i ==> fresh(ps[k]) && fresh(ps[k].hand)
        invariant forall k :: 0 <= k < i ==>
          ps[k].name == names[k] && ps[k].answers == scripts[k] && ps[k].hand.cards == []
        invariant forall k, l :: 0 <= k < l < i ==> ps[k] != ps[l] && ps[k].hand != ps[l].hand
      {
        var p := new Player(names[i], scripts[i]);
        ps := ps + [p];
        i := i + 1;
      }
    }

    /** The two deals to seat i in the first loop of Game::Play; no other seat changes. */
    method DealToSeat(i: nat)
      requires Valid() && i < |players|
      modifies deck, players[i].hand
      ensures var r := DealTwice(old(deck.cards), old(HandsOf())[i]);
        deck.cards == r.0 && HandsOf() == old(HandsOf())[i := r.1]
    {
      ghost var before := HandsOf();
      var _ := deck.Deal(players[i].hand);
      var _ := deck.Deal(players[i].hand);
      forall j | 0 <= j < |players|
        ensures HandsOf()[j] == before[i := players[i].hand.cards][j]
      {
        if j != i {
          assert players[j].hand != players[i].hand;
        }
      }
    }

    /** The first loop of Game::Play: two cards to each player in seating order. */
    method DealToPlayers()
      requires Valid()
      modifies deck, Hands()
      ensures (deck.cards, HandsOf()) == DealRound(old(deck.cards), old(HandsOf()))
    {
      ghost var goal := DealRound(deck.cards, HandsOf());
      assert HandsOf()[0..] == HandsOf();
      var i := 0;
      while i < |players|
        invariant 0 <= i <= |players|
        invariant DealRound(deck.cards, HandsOf()[i..]).0 == goal.0
        invariant HandsOf()[..i] + DealRound(deck.cards, HandsOf()[i..]).1 == goal.1
      {
        DealRoundAdvance(deck.cards, HandsOf(), i);
        DealToSeat(i);
        i := i + 1;
      }
      assert HandsOf()[i..] == [] && HandsOf()[..i] == HandsOf();
      assert DealRound(deck.cards, HandsOf()[i..]) == (deck.cards, []);
      assert HandsOf() + [] == HandsOf();
      assert deck.cards == goal.0 && HandsOf() == goal.1;
      assert goal == DealRound(old(deck.cards), old(HandsOf()));
    }

    /** The two deals to the house that end the initial deal. */
    method DealToHouse()
      requires Valid()
      modifies deck, house.hand
      ensures (deck.cards, house.hand.cards) == DealTwice(old(deck.cards), old(house.hand.cards))
    {
      var _ := deck.Deal(house.hand);
      var _ := deck.Deal(house.hand);
    }

    /** The initial deal of Game::Play. */
    method DealInitial()
      requires Valid()
      modifies deck, house.hand, Hands()
      ensures State() == DealPhase(old(State()))
    {
      assert house.hand !in Hands();
      ghost var t0 := State();
      DealToPlayers();
      ghost var t1 := State();
      assert t1.house == t0.house && t1.answers == t0.answers;
      DealToHouse();
      assert HandsOf() == t1.hands && AnswersOf() == t0.answers;
    }

    /** Deck::AdditionalCards for seat i; no other seat changes. */
    method TurnOfSeat(i: nat)
      requires Valid() && i < |players|
      modifies deck, players[i], players[i].hand
      ensures var turn := PlayerTurn(old(HandsOf())[i], old(deck.cards), old(AnswersOf())[i]);
        && deck.cards == turn.deck
        && HandsOf() == old(HandsOf())[i := turn.hand]
        && AnswersOf() == old(AnswersOf())[i := turn.answers]
    {
      ghost var hands := HandsOf();
      ghost var answers := AnswersOf();
      var _ := deck.AdditionalCards(players[i]);
      forall j | 0 <= j < |players|
        ensures HandsOf()[j] == hands[i := players[i].hand.cards][j]
        ensures AnswersOf()[j] == answers[i := players[i].answers][j]
      {
        if j != i {
          assert players[j].hand != players[i].hand;
          assert players[j] != players[i];
        }
      }
    }

    /** Game::Play's loop of Deck::AdditionalCards over the players. */
    method PlayersTurns()
      requires Valid()
      modifies deck, Seats(), Hands()
      ensures State() == PlayersPhase(old(State()))
    {
      ghost var t0 := State();
      ghost var goal := TakeTurns(t0.deck, t0.hands, t0.answers);
      var i := 0;
      while i < |players|
        invariant 0 <= i <= |players|
        invariant TakeTurns(deck.cards, HandsOf()[i..], AnswersOf()[i..]).0 == goal.0
        invariant HandsOf()[..i] + TakeTurns(deck.cards, HandsOf()[i..], AnswersOf()[i..]).1 == goal.1
        invariant AnswersOf()[..i] + TakeTurns(deck.cards, HandsOf()[i..], AnswersOf()[i..]).2 == goal.2
        invariant house.hand.cards == t0.house
      {
        TakeTurnsAdvance(deck.cards, HandsOf(), AnswersOf(), i);
        TurnOfSeat(i);
        i := i + 1;
      }
      assert HandsOf()[i..] == [] && HandsOf()[..i] == HandsOf();
      assert AnswersOf()[i..] == [] && AnswersOf()[..i] == AnswersOf();
    }

    /**
     * The settlement loops of Game::Play: against a bust house every player
     * that is not bust wins; otherwise each such player's total is compared
     * with the house's. A bust player gets no outcome.
     */
    method Settle() returns (results: seq<Option<Outcome>>)
      ensures |results| == |players|
      ensures forall i :: 0 <= i < |players| ==>
        results[i] == Settlement(players[i].hand.cards, house.hand.cards)
    {
      results := [];
      var houseBusted := house.IsBusted();
      var i := 0;
      if houseBusted {
        while i < |players|
          invariant 0 <= i <= |players| && |results| == i
          invariant forall k :: 0 <= k < i ==> results[k] == Settlement(players[k].hand.cards, house.hand.cards)
        {
          if !players[i].IsBusted() {
            results := results + [Some(Win)];
          } else {
            results := results + [None];
          }
          i := i + 1;
        }
      } else {
        while i < |players|
          invariant 0 <= i <= |players| && |results| == i
          invariant forall k :: 0 <= k < i ==> results[k] == Settlement(players[k].hand.cards, house.hand.cards)
        {
          if !players[i].IsBusted() {
            var playerTotal := players[i].hand.GetTotal();
            var houseTotal := house.hand.GetTotal();
            if playerTotal > houseTotal {
              results := results + [Some(Win)];
            } else if playerTotal < houseTotal {
              results := results + [Some(Lose)];
            } else {
              results := results + [Some(Push)];
            }
          } else {
            results := results + [None];
          }
          i := i + 1;
        }
      }
    }

    /** The last loop of Game::Play: every hand is cleared, the house's last. */
    method Cleanup()
      requires Valid()
      modifies house.hand, Hands()
      ensures State() == Cleared(old(State()))
    {
      ghost var t0 := State();
      var i := 0;
      while i < |players|
        invariant 0 <= i <= |players|
        invariant forall k :: 0 <= k < i ==> players[k].hand.cards == []
        invariant forall k :: i <= k < |players| ==> players[k].hand.cards == t0.hands[k]
        invariant house.hand.cards == t0.house && deck.cards == t0.deck && AnswersOf() == t0.answers
      {
        players[i].hand.Clear();
        forall k | i < k < |players|
          ensures players[k].hand.cards == t0.hands[k]
        {
          assert players[k].hand != players[i].hand;
        }
        i := i + 1;
      }
      house.hand.Clear();
      assert HandsOf() == Cleared(t0).hands;
    }

    /**
     * The part of Game::Play before the house's turn: the initial deal, the
     * house's first card turned down, the players' turns, and that card
     * turned up again.
     */
    method DealAndPlayers()
      requires Valid()
      modifies deck, house.hand, Seats(), Hands()
      ensures State() == FlipPhase(PlayersPhase(FlipPhase(DealPhase(old(State())))))
    {
      DealInitial();
      ghost var dealt := State();
      var _ := house.FlipFirstCard();
      assert HandsOf() == dealt.hands && AnswersOf() == dealt.answers;
      PlayersTurns();
      ghost var turned := State();
      var _ := house.FlipFirstCard();
      assert HandsOf() == turned.hands && AnswersOf() == turned.answers;
    }

    /**
     * Game::Play: one round. The result is the players' outcomes, or None
     * when the house's turn never ends; after a settled round every hand
     * is empty and the deck is what the round left of it, still face-up
     * when it was so before, ready for the next round.
     */
    method Play() returns (outcomes: Option<seq<Option<Outcome>>>)
      requires Valid()
      modifies deck, house.hand, Seats(), Hands()
      ensures Round(old(State())).Hangs? <==> outcomes.None?
      ensures Round(old(State())).Settled? ==>
        && outcomes == Some(Round(old(State())).outcomes)
        && State() == Cleared(Round(old(State())).table)
        && house.hand.cards == [] && (forall i :: 0 <= i < |players| ==> players[i].hand.cards == [])
        && (AllFaceUp(old(deck.cards)) ==> AllFaceUp(deck.cards))
    {
      ghost var t0 := State();
      DealAndPlayers();
      ghost var played := State();
      var ends, _ := deck.HouseAdditionalCards(house);
      if !ends {
        return None;
      }
      assert HandsOf() == played.hands && AnswersOf() == played.answers;
      ghost var done := State();
      assert HousePhase(played) == Some(done);
      assert Round(t0) == Settled(SettleAll(done), done);
      var results := Settle();
      forall i | 0 <= i < |players|
        ensures results[i] == SettleAll(done)[i]
      {
        assert done.hands[i] == players[i].hand.cards;
      }
      assert results == SettleAll(done);
      outcomes := Some(results);
      Cleanup();
      RoundReadiesNext(t0);
      assert forall i :: 0 <= i < |players| ==> players[i].hand.cards == State().hands[i];
    }
  }
}
