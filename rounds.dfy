/**
 * One round of play on card values: the table (deck, house hand, player
 * hands, players' unread answers), the phases Game::Play runs over it, the
 * settlement rule, and what a whole round guarantees.
 */
module Rounds {
  import opened Options
  import opened Cards
  import opened Hands
  import opened Participants
  import opened Decks

  datatype Outcome = Win | Lose | Push

  /**
   * The settlement of one player against the house, as the two branches of
   * Game::Play decide it: a busted player gets no outcome; against a busted
   * house every other player wins; otherwise the totals are compared.
   */
  function Settlement(player: seq<Card>, house: seq<Card>): (o: Option<Outcome>)
    ensures o.None? <==> Busted(player)
    ensures !Busted(player) && Busted(house) ==> o == Some(Win)
    ensures !Busted(player) && !Busted(house) ==>
      && (o == Some(Win) <==> Total(player) > Total(house))
      && (o == Some(Lose) <==> Total(player) < Total(house))
      && (o == Some(Push) <==> Total(player) == Total(house))
  {
    if Busted(house) then
      if !Busted(player) then Some(Win) else None
    else if !Busted(player) then
      if Total(player) > Total(house) then Some(Win)
      else if Total(player) < Total(house) then Some(Lose)
      else Some(Push)
    else None
  }

  /** A hand's standing: 0 when bust, one more than its total otherwise. */
  function Standing(cards: seq<Card>): (s: nat)
    ensures s == 0 <==> Busted(cards)
    ensures s <= 22
  {
    if Busted(cards) then 0 else Total(cards) + 1
  }

  /** The usual comparison of two standings. */
  function Compare(a: int, b: int): (o: Outcome)
  {
    if a > b then Win else if a < b then Lose else Push
  }

  /**
   * Settlement is the plain comparison of standings, for any player that is
   * not bust: a bust house stands below every player.
   */
  lemma SettlementComparesStandings(player: seq<Card>, house: seq<Card>)
    ensures Settlement(player, house) ==
      if Busted(player) then None else Some(Compare(Standing(player), Standing(house)))
  {
  }

  /** The cards on the table and the answers still to be read. */
  datatype Table = Table(deck: seq<Card>, house: seq<Card>, hands: seq<seq<Card>>, answers: seq<seq<char>>)

  /** Every player has a hand and a script. */
  predicate Seated(t: Table)
  {
    |t.hands| == |t.answers|
  }

  // ---------------------------------------------------------------------
  // Phase 1: the initial deal.

  /** Two successive deals into one hand. */
  function DealTwice(deck: seq<Card>, hand: seq<Card>): (r: (seq<Card>, seq<Card>))
  {
    var first := DealStep(deck, hand);
    DealStep(first.0, first.1)
  }

  /** Two cards to each of the hands, in seating order. */
  function DealRound(deck: seq<Card>, hands: seq<seq<Card>>): (r: (seq<Card>, seq<seq<Card>>))
    ensures |r.1| == |hands|
  {
    if hands == [] then (deck, [])
    else
      var first := DealTwice(deck, hands[0]);
      var rest := DealRound(first.0, hands[1..]);
      (rest.0, [first.1] + rest.1)
  }

  /** Two cards to each player in order, then two to the house. */
  function DealPhase(t: Table): (u: Table)
    ensures |u.hands| == |t.hands| && u.answers == t.answers
  {
    var players := DealRound(t.deck, t.hands);
    var house := DealTwice(players.0, t.house);
    Table(house.0, house.1, players.1, t.answers)
  }

  /** The card the k-th deal of a run takes, if the deck still has one. */
  function Top(deck: seq<Card>, k: nat): (top: seq<Card>)
  {
    if k < |deck| then [deck[|deck| - 1 - k]] else []
  }

  /** What is left of the deck after k deals. */
  function Remaining(deck: seq<Card>, k: nat): (left: seq<Card>)
  {
    deck[..if k < |deck| then |deck| - k else 0]
  }

  /**
   * Top and Remaining are the single-deal view of DrawnAfter: deal k adds
   * Top(deck, k) to what the first k deals gave, and Remaining(deck, k) is
   * the deck minus what they gave.
   */
  lemma TopIsNextDrawn(deck: seq<Card>, k: nat)
    ensures DrawnAfter(deck, k + 1) == DrawnAfter(deck, k) + Top(deck, k)
    ensures Remaining(deck, k) == deck[..|deck| - |DrawnAfter(deck, k)|]
  {
    if k < |deck| {
      DrawnOneMore(deck, k);
    }
  }

  lemma DealStepRemaining(deck: seq<Card>, k: nat, hand: seq<Card>)
    ensures DealStep(Remaining(deck, k), hand) == (Remaining(deck, k + 1), hand + Top(deck, k))
  {
    if k >= |deck| {
      assert hand + Top(deck, k) == hand;
    } else {
      var rest := deck[..|deck| - k];
      assert rest[..|rest| - 1] == deck[..|deck| - k - 1];
      assert rest[|rest| - 1] == deck[|deck| - 1 - k];
    }
  }

  lemma DealTwiceRemaining(deck: seq<Card>, k: nat, hand: seq<Card>)
    ensures DealTwice(Remaining(deck, k), hand)
      == (Remaining(deck, k + 2), hand + Top(deck, k) + Top(deck, k + 1))
  {
    DealStepRemaining(deck, k, hand);
    DealStepRemaining(deck, k + 1, hand + Top(deck, k));
  }

  lemma {:induction false} DealRoundDeck(deck: seq<Card>, k: nat, hands: seq<seq<Card>>)
    ensures DealRound(Remaining(deck, k), hands).0 == Remaining(deck, k + 2 * |hands|)
    decreases |hands|
  {
    if hands != [] {
      DealTwiceRemaining(deck, k, hands[0]);
      DealRoundDeck(deck, k + 2, hands[1..]);
    }
  }

  lemma {:induction false} DealRoundSeat(deck: seq<Card>, k: nat, hands: seq<seq<Card>>, j: nat)
    requires j < |hands|
    ensures DealRound(Remaining(deck, k), hands).1[j]
      == hands[j] + Top(deck, k + 2 * j) + Top(deck, k + 2 * j + 1)
    decreases |hands|
  {
    var first := DealTwice(Remaining(deck, k), hands[0]);
    DealTwiceRemaining(deck, k, hands[0]);
    var rest := DealRound(first.0, hands[1..]);
    assert DealRound(Remaining(deck, k), hands).1 == [first.1] + rest.1;
    if j > 0 {
      DealRoundSeat(deck, k + 2, hands[1..], j - 1);
      assert hands[1..][j - 1] == hands[j];
      assert k + 2 + 2 * (j - 1) == k + 2 * j;
    }
  }

  /**
   * The initial deal in closed form: player j receives the deck's cards
   * number 2j and 2j + 1 counted from the end, the house the next two, and
   * a deal from an exhausted deck gives nothing.
   */
  lemma InitialDealOrder(t: Table)
    ensures var n := |t.hands|; var u := DealPhase(t);
      && |u.hands| == n && u.answers == t.answers
      && (forall j :: 0 <= j < n ==> u.hands[j] == t.hands[j] + Top(t.deck, 2 * j) + Top(t.deck, 2 * j + 1))
      && u.house == t.house + Top(t.deck, 2 * n) + Top(t.deck, 2 * n + 1)
      && u.deck == Remaining(t.deck, 2 * n + 2)
  {
    assert Remaining(t.deck, 0) == t.deck;
    DealRoundDeck(t.deck, 0, t.hands);
    forall j | 0 <= j < |t.hands|
      ensures DealPhase(t).hands[j] == t.hands[j] + Top(t.deck, 2 * j) + Top(t.deck, 2 * j + 1)
    {
      DealRoundSeat(t.deck, 0, t.hands, j);
    }
    DealTwiceRemaining(t.deck, 2 * |t.hands|, t.house);
  }

  /**
   * With enough cards for everybody and empty hands, every player and the
   * house end the initial deal with exactly two cards, taken from the end of
   * the deck in seating order.
   */
  lemma InitialDealTwoEach(t: Table)
    requires |t.deck| >= 2 * |t.hands| + 2
    requires t.house == [] && forall j :: 0 <= j < |t.hands| ==> t.hands[j] == []
    ensures var n := |t.hands|; var d := |t.deck|; var u := DealPhase(t);
      && (forall j :: 0 <= j < n ==> u.hands[j] == [t.deck[d - 1 - 2 * j], t.deck[d - 2 - 2 * j]])
      && u.house == [t.deck[d - 1 - 2 * n], t.deck[d - 2 - 2 * n]]
      && u.deck == t.deck[..d - 2 * n - 2]
  {
    InitialDealOrder(t);
    var n := |t.hands|;
    var d := |t.deck|;
    forall j | 0 <= j < n
      ensures DealPhase(t).hands[j] == [t.deck[d - 1 - 2 * j], t.deck[d - 2 - 2 * j]]
    {
      assert t.hands[j] == [];
      TwoFromTop(t.deck, 2 * j, t.hands[j]);
    }
    TwoFromTop(t.deck, 2 * n, t.house);
  }

  /** The two cards dealt by deals k and k + 1, while the deck lasts. */
  lemma TwoFromTop(deck: seq<Card>, k: nat, hand: seq<Card>)
    requires k + 1 < |deck|
    ensures hand + Top(deck, k) + Top(deck, k + 1) == hand + [deck[|deck| - 1 - k], deck[|deck| - 2 - k]]
  {
  }

  // ---------------------------------------------------------------------
  // Phases 2 and 4: House::FlipFirstCard.

  function FlipPhase(t: Table): (u: Table)
  {
    t.(house := FlipFirst(t.house))
  }

  // ---------------------------------------------------------------------
  // Phase 3: each player's turn, in seating order.

  /** Each player's turn in seating order, each drawing from what the previous ones left. */
  function TakeTurns(deck: seq<Card>, hands: seq<seq<Card>>, answers: seq<seq<char>>)
    : (r: (seq<Card>, seq<seq<Card>>, seq<seq<char>>))
    requires |hands| == |answers|
    ensures |r.1| == |hands| && |r.2| == |hands|
    decreases |hands|
  {
    if hands == [] then (deck, [], [])
    else
      var turn := PlayerTurn(hands[0], deck, answers[0]);
      var rest := TakeTurns(turn.deck, hands[1..], answers[1..]);
      (rest.0, [turn.hand] + rest.1, [turn.answers] + rest.2)
  }

  /**
   * Dealing to seat i of a partly dealt table moves that seat from the
   * seats still to be dealt to the seats already dealt, leaving what the
   * whole deal ends with unchanged.
   */
  lemma DealRoundAdvance(deck: seq<Card>, hands: seq<seq<Card>>, i: nat)
    requires i < |hands|
    ensures var r := DealTwice(deck, hands[i]);
      var now := DealRound(deck, hands[i..]);
      var next := DealRound(r.0, hands[i := r.1][i + 1..]);
      && next.0 == now.0
      && hands[i := r.1][..i + 1] + next.1 == hands[..i] + now.1
  {
    var r := DealTwice(deck, hands[i]);
    assert hands[i..][0] == hands[i] && hands[i..][1..] == hands[i + 1..];
    assert hands[i := r.1][i + 1..] == hands[i + 1..];
    assert hands[i := r.1][..i + 1] == hands[..i] + [r.1];
  }

  /** The same for one player's turn. */
  lemma TakeTurnsAdvance(deck: seq<Card>, hands: seq<seq<Card>>, answers: seq<seq<char>>, i: nat)
    requires |hands| == |answers| && i < |hands|
    ensures var turn := PlayerTurn(hands[i], deck, answers[i]);
      var hands' := hands[i := turn.hand];
      var answers' := answers[i := turn.answers];
      var now := TakeTurns(deck, hands[i..], answers[i..]);
      var next := TakeTurns(turn.deck, hands'[i + 1..], answers'[i + 1..]);
      && next.0 == now.0
      && hands'[..i + 1] + next.1 == hands[..i] + now.1
      && answers'[..i + 1] + next.2 == answers[..i] + now.2
  {
    var turn := PlayerTurn(hands[i], deck, answers[i]);
    assert hands[i..][0] == hands[i] && hands[i..][1..] == hands[i + 1..];
    assert answers[i..][0] == answers[i] && answers[i..][1..] == answers[i + 1..];
    assert hands[i := turn.hand][i + 1..] == hands[i + 1..];
    assert answers[i := turn.answers][i + 1..] == answers[i + 1..];
    assert hands[i := turn.hand][..i + 1] == hands[..i] + [turn.hand];
    assert answers[i := turn.answers][..i + 1] == answers[..i] + [turn.answers];
  }

  function PlayersPhase(t: Table): (u: Table)
    requires Seated(t)
    ensures Seated(u) && |u.hands| == |t.hands| && u.house == t.house
  {
    var r := TakeTurns(t.deck, t.hands, t.answers);
    Table(r.0, t.house, r.1, r.2)
  }

  // ---------------------------------------------------------------------
  // Phase 5: the house's turn; phase 6: settlement.

  /** None when the house's turn never ends. */
  function HousePhase(t: Table): (u: Option<Table>)
  {
    match HouseTurn(t.house, t.deck)
    case None => None
    case Some(r) => Some(t.(house := r.0, deck := r.1))
  }

  function SettleAll(t: Table): (outcomes: seq<Option<Outcome>>)
  {
    seq(|t.hands|, i requires 0 <= i < |t.hands| => Settlement(t.hands[i], t.house))
  }

  /** Phase 7: every hand is emptied; the deck stays as it is. */
  function Cleared(t: Table): (u: Table)
  {
    t.(house := [], hands := seq(|t.hands|, i => []))
  }

  /** How a round ends: settled, with the table as it was at settlement, or never. */
  datatype RoundEnd = Settled(outcomes: seq<Option<Outcome>>, table: Table) | Hangs

  /** Game::Play on card values. */
  function Round(t: Table): (e: RoundEnd)
    requires Seated(t)
  {
    var dealt := FlipPhase(DealPhase(t));
    var played := FlipPhase(PlayersPhase(dealt));
    match HousePhase(played)
    case None => Hangs
    case Some(done) => Settled(SettleAll(done), done)
  }

  // ---------------------------------------------------------------------
  // No card is created or lost.

  function CardsIn(hands: seq<seq<Card>>): (m: multiset<Card>)
  {
    if hands == [] then multiset{} else multiset(hands[0]) + CardsIn(hands[1..])
  }

  /** All the cards on the table, dealt or not. */
  function Held(t: Table): (m: multiset<Card>)
  {
    multiset(t.deck) + multiset(t.house) + CardsIn(t.hands)
  }

  lemma {:induction false} AskWhileKeepsCards(busted: seq<Card> -> bool, hand: seq<Card>, deck: seq<Card>, answers: seq<char>)
    ensures multiset(AskWhile(busted, hand, deck, answers).deck) + multiset(AskWhile(busted, hand, deck, answers).hand)
      == multiset(deck) + multiset(hand)
    decreases |answers|
  {
    if answers != [] && IsYes(answers[0]) && !busted(hand) {
      DealStepKeepsCards(deck, hand);
      AskWhileKeepsCards(busted, DealStep(deck, hand).1, DealStep(deck, hand).0, answers[1..]);
    }
  }

  lemma {:induction false} DealWhileKeepsCards(wants: seq<Card> -> bool, hand: seq<Card>, deck: seq<Card>)
    requires DealWhile(wants, hand, deck).Some?
    ensures multiset(DealWhile(wants, hand, deck).value.0) + multiset(DealWhile(wants, hand, deck).value.1)
      == multiset(deck) + multiset(hand)
    decreases |deck|
  {
    if wants(hand) {
      DealStepKeepsCards(deck, hand);
      DealWhileKeepsCards(wants, DealStep(deck, hand).1, DealStep(deck, hand).0);
    }
  }

  // The multiset bookkeeping, stated once on plain multisets. Each lemma
  // follows one move of cards; it is proved count by count.

  /**
   * The first seat is dealt (deckStart and firstBefore become deckMid and
   * firstAfter), then the other seats from what is left (deckMid and
   * othersBefore become deckEnd and othersAfter): no card is made or lost.
   */
  lemma FirstSeatThenOthers<T>(deckEnd: multiset<T>, othersAfter: multiset<T>, deckMid: multiset<T>,
                               othersBefore: multiset<T>, firstAfter: multiset<T>, deckStart: multiset<T>,
                               firstBefore: multiset<T>)
    requires deckEnd + othersAfter == deckMid + othersBefore
    requires deckMid + firstAfter == deckStart + firstBefore
    ensures deckEnd + (firstAfter + othersAfter) == deckStart + (firstBefore + othersBefore)
  {
    forall x ensures (deckEnd + (firstAfter + othersAfter))[x] == (deckStart + (firstBefore + othersBefore))[x] {
      assert (deckEnd + othersAfter)[x] == (deckMid + othersBefore)[x];
      assert (deckMid + firstAfter)[x] == (deckStart + firstBefore)[x];
    }
  }

  /**
   * The players are dealt (deckStart and handsBefore become deckMid and
   * handsAfter), then the house from what is left (deckMid and houseBefore
   * become deckEnd and houseAfter): no card is made or lost.
   */
  lemma PlayersThenHouse<T>(deckMid: multiset<T>, handsAfter: multiset<T>, deckStart: multiset<T>,
                            handsBefore: multiset<T>, deckEnd: multiset<T>, houseAfter: multiset<T>,
                            houseBefore: multiset<T>)
    requires deckMid + handsAfter == deckStart + handsBefore
    requires deckEnd + houseAfter == deckMid + houseBefore
    ensures deckEnd + houseAfter + handsAfter == deckStart + houseBefore + handsBefore
  {
    forall x ensures (deckEnd + houseAfter + handsAfter)[x] == (deckStart + houseBefore + handsBefore)[x] {
      assert (deckMid + handsAfter)[x] == (deckStart + handsBefore)[x];
      assert (deckEnd + houseAfter)[x] == (deckMid + houseBefore)[x];
    }
  }

  /**
   * Cards move between the deck and some hands (deckBefore and before
   * become deckAfter and after) while a bystander's cards stay put.
   */
  lemma BystanderKeeps<T>(deckAfter: multiset<T>, after: multiset<T>, deckBefore: multiset<T>,
                          before: multiset<T>, bystander: multiset<T>)
    requires deckAfter + after == deckBefore + before
    ensures deckAfter + bystander + after == deckBefore + bystander + before
  {
    forall x ensures (deckAfter + bystander + after)[x] == (deckBefore + bystander + before)[x] {
      assert (deckAfter + after)[x] == (deckBefore + before)[x];
    }
  }

  lemma DealTwiceKeepsCards(deck: seq<Card>, hand: seq<Card>)
    ensures multiset(DealTwice(deck, hand).0) + multiset(DealTwice(deck, hand).1)
      == multiset(deck) + multiset(hand)
    ensures DealTwice(deck, hand).0 <= deck
  {
    var first := DealStep(deck, hand);
    DealStepKeepsCards(deck, hand);
    DealStepKeepsCards(first.0, first.1);
  }

  lemma {:induction false} DealRoundKeepsCards(deck: seq<Card>, hands: seq<seq<Card>>)
    ensures multiset(DealRound(deck, hands).0) + CardsIn(DealRound(deck, hands).1)
      == multiset(deck) + CardsIn(hands)
    ensures DealRound(deck, hands).0 <= deck
    decreases |hands|
  {
    if hands != [] {
      var second := DealTwice(deck, hands[0]);
      DealTwiceKeepsCards(deck, hands[0]);
      var rest := DealRound(second.0, hands[1..]);
      DealRoundKeepsCards(second.0, hands[1..]);
      assert ([second.1] + rest.1)[1..] == rest.1;
      assert DealRound(deck, hands).0 == rest.0;
      assert CardsIn(DealRound(deck, hands).1) == multiset(second.1) + CardsIn(rest.1);
      assert CardsIn(hands) == multiset(hands[0]) + CardsIn(hands[1..]);
      FirstSeatThenOthers(multiset(rest.0), CardsIn(rest.1), multiset(second.0), CardsIn(hands[1..]),
        multiset(second.1), multiset(deck), multiset(hands[0]));
    }
  }

  lemma DealPhaseKeepsCards(t: Table)
    ensures Held(DealPhase(t)) == Held(t)
    ensures DealPhase(t).deck <= t.deck
  {
    var players := DealRound(t.deck, t.hands);
    var house := DealTwice(players.0, t.house);
    DealRoundKeepsCards(t.deck, t.hands);
    DealTwiceKeepsCards(players.0, t.house);
    PlayersThenHouse(multiset(players.0), CardsIn(players.1), multiset(t.deck), CardsIn(t.hands),
      multiset(house.0), multiset(house.1), multiset(t.house));
  }

  lemma {:induction false} TakeTurnsKeepsCards(deck: seq<Card>, hands: seq<seq<Card>>, answers: seq<seq<char>>)
    requires |hands| == |answers|
    ensures multiset(TakeTurns(deck, hands, answers).0) + CardsIn(TakeTurns(deck, hands, answers).1)
      == multiset(deck) + CardsIn(hands)
    ensures TakeTurns(deck, hands, answers).0 <= deck
    decreases |hands|
  {
    if hands != [] {
      var turn := PlayerTurn(hands[0], deck, answers[0]);
      AskWhileKeepsCards(Busted, hands[0], deck, answers[0]);
      AskWhileMovesCards(Busted, hands[0], deck, answers[0]);
      var rest := TakeTurns(turn.deck, hands[1..], answers[1..]);
      TakeTurnsKeepsCards(turn.deck, hands[1..], answers[1..]);
      assert ([turn.hand] + rest.1)[1..] == rest.1;
      assert TakeTurns(deck, hands, answers).0 == rest.0;
      assert CardsIn(TakeTurns(deck, hands, answers).1) == multiset(turn.hand) + CardsIn(rest.1);
      assert CardsIn(hands) == multiset(hands[0]) + CardsIn(hands[1..]);
      FirstSeatThenOthers(multiset(rest.0), CardsIn(rest.1), multiset(turn.deck), CardsIn(hands[1..]),
        multiset(turn.hand), multiset(deck), multiset(hands[0]));
    }
  }

  /** The phases before the house's turn keep every card on the table. */
  lemma PlayedKeepsCards(t: Table)
    requires Seated(t)
    ensures var played := FlipPhase(PlayersPhase(FlipPhase(DealPhase(t))));
      Held(played) == Held(t) && played.deck <= t.deck
  {
    var dealt0 := DealPhase(t);
    DealPhaseKeepsCards(t);
    var dealt := FlipPhase(dealt0);
    var turns := TakeTurns(dealt.deck, dealt.hands, dealt.answers);
    TakeTurnsKeepsCards(dealt.deck, dealt.hands, dealt.answers);
    FlipFirstTwice(dealt0.house);
    assert FlipPhase(PlayersPhase(dealt)) == Table(turns.0, dealt0.house, turns.1, turns.2);
    BystanderKeeps(multiset(turns.0), CardsIn(turns.1), multiset(dealt0.deck), CardsIn(dealt0.hands), multiset(dealt0.house));
  }

  /** The house's turn keeps every card on the table. */
  lemma HousePhaseKeepsCards(t: Table)
    requires HousePhase(t).Some?
    ensures Held(HousePhase(t).value) == Held(t) && HousePhase(t).value.deck <= t.deck
  {
    var house := HouseTurn(t.house, t.deck).value;
    DealWhileKeepsCards(HouseContinues, t.house, t.deck);
    DealWhileMovesCards(HouseContinues, t.house, t.deck);
    assert HousePhase(t).value == t.(house := house.0, deck := house.1);
    BystanderKeeps(multiset(house.1), multiset(house.0), multiset(t.deck), multiset(t.house), CardsIn(t.hands));
  }

  /**
   * A settled round neither creates nor loses cards, and the deck it leaves
   * is what remains of the deck it started with after taking cards from its
   * end: it is never refilled.
   */
  lemma RoundKeepsCards(t: Table)
    requires Seated(t) && Round(t).Settled?
    ensures Held(Round(t).table) == Held(t)
    ensures Round(t).table.deck <= t.deck
  {
    var played := FlipPhase(PlayersPhase(FlipPhase(DealPhase(t))));
    PlayedKeepsCards(t);
    HousePhaseKeepsCards(played);
  }

  /**
   * Starting from empty hands, the cards a settled round took from the deck
   * are exactly the cards in the hands at settlement, which cleanup discards.
   */
  lemma RoundDealsFromDeck(t: Table)
    requires Seated(t) && Round(t).Settled?
    requires t.house == [] && forall j :: 0 <= j < |t.hands| ==> t.hands[j] == []
    ensures var done := Round(t).table;
      multiset(t.deck) == multiset(done.deck) + multiset(done.house) + CardsIn(done.hands)
  {
    RoundKeepsCards(t);
    EmptyHandsHoldNothing(t.hands);
  }

  lemma {:induction false} EmptyHandsHoldNothing(hands: seq<seq<Card>>)
    requires forall j :: 0 <= j < |hands| ==> hands[j] == []
    ensures CardsIn(hands) == multiset{}
  {
    if hands != [] {
      EmptyHandsHoldNothing(hands[1..]);
    }
  }

  // ---------------------------------------------------------------------
  // The hole card and the house's stand.

  /**
   * A settled round leaves a table ready for the next: after cleanup the
   * house and every hand are empty, the scripts are what the round left of
   * them, and if the deck was all face-up, what is left of it still is.
   */
  lemma RoundReadiesNext(t: Table)
    requires Seated(t) && Round(t).Settled?
    ensures var next := Cleared(Round(t).table);
      && Seated(next) && |next.hands| == |t.hands|
      && next.house == [] && (forall j :: 0 <= j < |next.hands| ==> next.hands[j] == [])
      && (AllFaceUp(t.deck) ==> AllFaceUp(next.deck))
  {
    RoundKeepsCards(t);
  }

  /**
   * Every card starts face-up, so the first flip HIDES the house's first
   * card (its total reads 0 through the players' turns) and the second flip
   * shows it again, leaving the house hand exactly as it was dealt.
   */
  lemma HoleCardHiddenThenShown(t: Table)
    requires Seated(t) && t.house == [] && |t.deck| > 2 * |t.hands|
    requires AllFaceUp(t.deck)
    ensures var dealt := FlipPhase(DealPhase(t));
      && dealt.house != [] && !dealt.house[0].faceUp && Total(dealt.house) == 0
    ensures var played := FlipPhase(PlayersPhase(FlipPhase(DealPhase(t))));
      && played.house == DealPhase(t).house && played.house[0].faceUp
  {
    InitialDealOrder(t);
    var n := |t.hands|;
    var dealt0 := DealPhase(t);
    assert dealt0.house[0] == t.deck[|t.deck| - 1 - 2 * n];
    FlipFirstTwice(dealt0.house);
  }

  /**
   * In a settled round the house stands on 17 or more (or is bust), and each
   * player's outcome is its settlement against that house: against a bust
   * house exactly the players who are not bust win.
   */
  lemma RoundSettlesAgainstStandingHouse(t: Table)
    requires Seated(t) && Round(t).Settled?
    ensures var done := Round(t).table; var out := Round(t).outcomes;
      && Total(done.house) >= 17
      && |out| == |t.hands| == |done.hands|
      && (forall i :: 0 <= i < |out| ==> out[i] == Settlement(done.hands[i], done.house))
      && (Busted(done.house) ==> forall i :: 0 <= i < |out| ==> (out[i] == Some(Win) <==> !Busted(done.hands[i])))
  {
    var played := FlipPhase(PlayersPhase(FlipPhase(DealPhase(t))));
    HouseTurnStandsOnSeventeen(played.house, played.deck);
  }
}
