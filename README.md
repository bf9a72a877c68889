# BlackJack round engine in Dafny

This project models the round-resolution engine of the console BlackJack
game in `BlackJack.cpp`, and proves its rules. The engine covers:

- cards and how they are scored;
- hands and their totals (with the soft-ace rule);
- the 52-card deck that is populated, shuffled and dealt from its end;
- the hit loops of the players and of the house;
- one round of `Game::Play`: the initial deal, the house's hole card turned
  down and up again, the players' turns, the house's turn, settlement, and
  clearing the hands.

The model has two layers:

- **Card values** (modules `Cards`, `Hands`, `Participants`, `Decks`,
  `Rounds`). Cards are a datatype. A hand is a sequence of cards. Every
  operation of the engine is a function on such values. Each of these
  functions has the lemmas that state what the engine promises.
- **Objects** (classes `Hands.Hand`, `Participants.Player`,
  `Participants.House`, `Decks.Deck` and `Games.Game`). These mirror the
  objects of the original, which update their cards in place. Every method
  is proved to produce exactly what the function on values says, with two
  exceptions. `Decks.Deck.Shuffle` is promised only to permute the deck.
  `Decks.Deck.HouseAdditionalCards` leaves the state unspecified when the
  house's turn never ends. In
  particular, `Games.Game.Play` is proved against `Rounds.Round`, the round
  on card values, for every number of players and every deck.

The model differs from the original in a few points:

- The player's `y`/`n` answers, read from the console in the original,
  are a script given to each player.
- The random numbers drawn by the shuffle are a parameter.
- The outcomes are returned rather than printed.
- The original's house loop never ends when the deck runs out while the
  house still has to hit, because dealing from an empty deck does nothing.
  The model stops there and reports that the round never ends (`Hangs`).
  `Decks.HouseTurnHangs` states exactly when that happens.

Files:

| file | module | contents |
|---|---|---|
| `options.dfy` | `Options` | the `Option` type |
| `cards.dfy` | `Cards` | `Card`, `Value`, `Flip` |
| `hands.dfy` | `Hands` | the scoring rule, a reference "best score" definition, class `Hand` |
| `participants.dfy` | `Participants` | bust and hit rules, classes `Player` and `House` |
| `decks.dfy` | `Decks` | the full deck, a deal, both hit loops, class `Deck` |
| `rounds.dfy` | `Rounds` | the phases of a round and settlement on values, and what a round guarantees |
| `game.dfy` | `Games` | class `Game` with `Play` |

## Model

| member | source | states |
|---|---|---|
| Cards.Value | BlackJack.cpp:28-36 | a value lies in 0..10:<br>- 0 exactly when the card is face-down<br>- the rank for a face-up card up to ten<br>- 10 for a face-up ten, jack, queen or king<br>- 1 exactly for a face-up ace |
| Cards.Flip | BlackJack.cpp:38-40 | keeps rank and suit, and toggles the face-up flag |
| Cards.FlipTwiceRestores | BlackJack.cpp:38-40 | flipping twice gives the same card back |
| Cards.FlipHidesValue | BlackJack.cpp:28-40 | flipping a face-up card makes its value 0; flipping it back restores its positive value |
| Hands.Total | BlackJack.cpp:76-94 | 0 unless the first card is there and face-up; otherwise the sum of values, or that sum plus 10 |
| Hands.HiddenFirstCardScoresZero | BlackJack.cpp:76-78 | a hand whose first card is face-down totals 0, whatever the other cards are |
| Hands.SoftAceBonusOnce | BlackJack.cpp:89-91 | for a revealed hand:<br>- the total is the sum plus 10 exactly when a face-up ace is present and the sum is at most 11<br>- otherwise it is the plain sum<br>- the bonus is never added twice and never takes the total past 21 |
| Hands.AceSixIsSoftSeventeen | BlackJack.cpp:80-93 | a face-up ace and six total 17 |
| Hands.ThreeKingsIsThirty | BlackJack.cpp:80-93 | three face-up kings total 30 |
| Hands.HasAceAt | BlackJack.cpp:81-87 | the ace flag of the scoring loop holds exactly when some card is a face-up ace |
| Hands.AceCountMatchesHasAce | BlackJack.cpp:83-86 | some face-up ace exists exactly when the ace count is positive; aces never count for more than the sum |
| Hands.TotalIsBestScore | BlackJack.cpp:76-94 | compares the total with the reference set of all scores reachable by counting each face-up ace as 1 or 11:<br>- the total is one of them<br>- no reachable score of 21 or less exceeds it<br>- a bust total means every reachable score is bust |
| Hands.Hand.constructor | BlackJack.cpp:54-56 | a new hand is empty |
| Hands.Hand.Add | BlackJack.cpp:62-64 | the card is appended; the cards before it are kept |
| Hands.Hand.Clear | BlackJack.cpp:66-74 | the hand is left empty |
| Hands.Hand.GetTotal | BlackJack.cpp:76-94 | the scoring loop returns exactly `Total` of the hand's cards |
| Participants.BustedHouseStands | BlackJack.cpp:174-176 | on `HouseHits` (House::IsHitting) and `Busted`: a bust hand never hits; a hand that hits is not bust; the house stands exactly on a total of 17 or more |
| Participants.TwoCardsNeverBust | BlackJack.cpp:115-117 | on `Busted` (GenericPlayer::IsBusted, a total over 21): a hand of at most two cards is never bust |
| Participants.FlipFirst | BlackJack.cpp:178-184 | only the first card is flipped, and the length is kept |
| Participants.FlipFirstTwice | BlackJack.cpp:178-184 | two flips of the first card restore the hand; flipping a revealed hand hides it, and its total reads 0 |
| Participants.Player.constructor | BlackJack.cpp:134-135 | a new player has the given name and answers and an empty, fresh hand |
| Participants.Player.IsHitting | BlackJack.cpp:140-145 | the player hits exactly when its next answer is `y` or `Y`; that answer is consumed |
| Participants.House.constructor | BlackJack.cpp:168-169 | the house is named "House" and holds an empty, fresh hand |
| Participants.House.FlipFirstCard | BlackJack.cpp:178-184 | flips the first card if there is one and reports whether it did; no other card changes |
| Decks.FullDeck | BlackJack.cpp:205-212 | the full deck has 52 cards |
| Decks.FullDeckComplete | BlackJack.cpp:205-212 | all 52 cards are face-up and all different:<br>- card 13·s + r − 1 is rank r of suit s (suit-major, then rank order)<br>- a card is in the deck exactly when it is face-up |
| Decks.ShuffledDeckFaceUp | BlackJack.cpp:205-212 | every card of a rearranged full deck is face-up, as `Card` defaults to (line 14) and `Populate` leaves it |
| Decks.Deck.constructor | BlackJack.cpp:197-200 | a new deck is the full deck |
| Decks.Deck.Populate | BlackJack.cpp:205-212 | the nested loops leave exactly the full deck, whatever was there before |
| Decks.Deck.Shuffle | BlackJack.cpp:214-216 | the deck is a permutation of what it was: same length, same multiset |
| Decks.DealStepTakesLast | BlackJack.cpp:218-226 | an empty deck leaves deck and hand as they were; otherwise:<br>- the hand keeps its cards and gains one<br>- the deck loses one<br>- the card moved is the deck's former last card |
| Decks.DealStepKeepsCards | BlackJack.cpp:218-226 | a deal neither creates nor loses a card (multisets), and the deck left is a prefix of the old one |
| Decks.Deck.Deal | BlackJack.cpp:218-226 | the object deal moves cards exactly as `DealStep`, and reports whether the deck was non-empty |
| Decks.AskWhileMovesCards | BlackJack.cpp:228-232 | the loop leaves a prefix of the deck; the hand gains exactly the cards taken from its end, in dealing order |
| Decks.AskWhileReadsAnswers | BlackJack.cpp:229 | the answers left are a suffix of the script |
| Decks.AskWhileEnds | BlackJack.cpp:229 | every answer read before the last was a yes, given while the hand (with the cards dealt so far) was not bust; the loop stopped because the hand was bust, the last answer read was not a yes, or the script ran out |
| Decks.AskWhileDealsPerYes | BlackJack.cpp:229-230 | one deal per accepted yes: the hand holds what one deal call per answer before the stopping one gave it (per answer read, when the script ran out); a bust after a deal stops the loop only after the next answer is read |
| Decks.PlayerTurnEnds | BlackJack.cpp:228-236 | the player's turn, with bust as the stop test, obeys all four of the above, which together fix the turn completely |
| Decks.BustingDealReadsNextAnswer | BlackJack.cpp:229 | two kings answering `yy` against a deck ending in a five: the five is dealt, the bust hand reads the second `y`, and the turn ends with both answers read |
| Decks.BustedPlayerDrawsNoMore | BlackJack.cpp:229 | a bust player reads one answer and is dealt nothing, whatever the answer |
| Decks.DealWhileMovesCards | BlackJack.cpp:229-230 | a finished house loop leaves a prefix of the deck, and the hand gains exactly the cards taken |
| Decks.DealWhileStopsAtFirst | BlackJack.cpp:229 | a finished loop stops after the first number of cards at which the hit test fails, and the test held for every smaller number |
| Decks.DealWhileHangs | BlackJack.cpp:229-231 | the loop never finishes exactly when the hit test holds for every number of cards the deck can give |
| Decks.HouseContinuesWhileHitting | BlackJack.cpp:174-176 | the house's loop test (hitting and not bust) is the hit rule itself; the house stops exactly on 17 or more |
| Decks.HouseTurnStandsOnSeventeen | BlackJack.cpp:228-236 | if the house's turn ends, it ends on a total of 17 or more (possibly bust); it took the fewest cards that get there |
| Decks.HouseTurnHangs | BlackJack.cpp:229-231 | the house's turn never ends exactly when every number of cards the deck can give leaves it at 16 or less |
| Decks.Deck.AdditionalCards | BlackJack.cpp:228-236 | the object loop for a player produces exactly `PlayerTurn`'s hand, deck and unread answers; it reports whether the player ended bust |
| Decks.Deck.HouseAdditionalCards | BlackJack.cpp:228-236 | the object loop for the house:<br>- ends exactly when `HouseTurn` does, with its hand and deck<br>- reports whether the house ended bust |
| Rounds.Settlement | BlackJack.cpp:288-308 | a bust player gets no outcome; against a bust house every other player wins; otherwise the player wins, loses or pushes exactly as its total is above, below or equal to the house's |
| Rounds.Standing | BlackJack.cpp:288-308 | a hand's standing is 0 exactly when it is bust, and at most 22 |
| Rounds.SettlementComparesStandings | BlackJack.cpp:288-308 | settlement is the plain comparison of standings, where a bust house stands below every player |
| Rounds.TopIsNextDrawn | BlackJack.cpp:218-223 | deal k adds `Top(deck, k)` to the cards the first k deals gave (`DrawnAfter`), and `Remaining(deck, k)` is the deck without them |
| Rounds.DealStepRemaining | BlackJack.cpp:218-226 | dealing from what is left after k deals takes the k-th card from the end, if any |
| Rounds.DealRoundDeck | BlackJack.cpp:266-269 | the player deal leaves what remains after two deals per player |
| Rounds.DealRoundSeat | BlackJack.cpp:266-269 | seat j of the player deal receives the cards 2j and 2j+1 counted from the end of the deck |
| Rounds.InitialDealOrder | BlackJack.cpp:266-271 | the initial deal in closed form:<br>- two cards to each player in seating order, then two to the house, taken from the end of the deck<br>- a deal from an exhausted deck gives nothing |
| Rounds.InitialDealTwoEach | BlackJack.cpp:266-271 | with enough cards and empty hands, every player and the house hold exactly the two cards named by their seat |
| Rounds.DealRoundAdvance | BlackJack.cpp:266-268 | dealing to one seat moves it from the seats still to be dealt to those already dealt, without changing the deal's result |
| Rounds.TakeTurnsAdvance | BlackJack.cpp:280-281 | the same for one player's turn |
| Rounds.HoleCardHiddenThenShown | BlackJack.cpp:273-283 | with every card face-up:<br>- the first flip hides the house's first card, so its total reads 0 during the players' turns<br>- the second flip shows it again, leaving the house hand exactly as dealt |
| Rounds.DealTwiceKeepsCards | BlackJack.cpp:266-267 | two deals keep every card and leave a prefix of the deck |
| Rounds.DealRoundKeepsCards | BlackJack.cpp:266-269 | the player deal keeps every card and leaves a prefix of the deck |
| Rounds.DealPhaseKeepsCards | BlackJack.cpp:266-271 | the initial deal keeps every card on the table and leaves a prefix of the deck |
| Rounds.AskWhileKeepsCards | BlackJack.cpp:228-232 | a hit loop keeps every card of hand and deck |
| Rounds.DealWhileKeepsCards | BlackJack.cpp:228-232 | a finished house loop keeps every card of hand and deck |
| Rounds.TakeTurnsKeepsCards | BlackJack.cpp:280-281 | the players' turns keep every card and leave a prefix of the deck |
| Rounds.PlayedKeepsCards | BlackJack.cpp:266-283 | everything before the house's turn keeps every card on the table |
| Rounds.HousePhaseKeepsCards | BlackJack.cpp:286 | the house's turn keeps every card on the table |
| Rounds.RoundKeepsCards | BlackJack.cpp:264-308 | a settled round creates and loses no card, and its deck is a prefix of the starting deck (never refilled) |
| Rounds.RoundDealsFromDeck | BlackJack.cpp:264-308 | from empty hands, the cards the deck lost are exactly the cards held at settlement |
| Rounds.RoundReadiesNext | BlackJack.cpp:310-312 | after a settled round and cleanup, the house and every hand are empty, and a face-up deck stays face-up: the conditions under which the hole-card lemma holds again |
| Rounds.EmptyHandsHoldNothing | BlackJack.cpp:310-312 | empty hands hold no cards |
| Rounds.RoundSettlesAgainstStandingHouse | BlackJack.cpp:286-308 | in a settled round:<br>- the house holds 17 or more<br>- each player's outcome is its settlement against the house<br>- against a bust house, exactly the players who are not bust win |
| Games.Game.constructor | BlackJack.cpp:250-259 | one player per name with its own script, and all hands empty; the deck is a permutation of the full deck, all face-up; every seat and hand is distinct |
| Games.Game.SeatPlayers | BlackJack.cpp:251-254 | one fresh player per name, in order, each with an empty hand of its own |
| Games.Game.DealToSeat | BlackJack.cpp:267-268 | two deals to one seat, and no other seat changes |
| Games.Game.DealToPlayers | BlackJack.cpp:266-269 | the loop deals exactly as `DealRound` |
| Games.Game.DealToHouse | BlackJack.cpp:270-271 | the house's two deals |
| Games.Game.DealInitial | BlackJack.cpp:266-271 | the new state is exactly `DealPhase` of the old |
| Games.Game.TurnOfSeat | BlackJack.cpp:281 | one player's turn, and no other seat changes |
| Games.Game.PlayersTurns | BlackJack.cpp:280-281 | the new state is exactly `PlayersPhase` of the old |
| Games.Game.Settle | BlackJack.cpp:288-308 | the two settlement loops give each player exactly its `Settlement` against the house |
| Games.Game.Cleanup | BlackJack.cpp:310-312 | every hand, the house's too, is empty; deck and answers are unchanged |
| Games.Game.DealAndPlayers | BlackJack.cpp:266-283 | deal, flip, the players' turns and the second flip, as the phases on values |
| Games.Game.Play | BlackJack.cpp:264-313 | a round gives exactly the outcomes of `Round`, or none when the house's turn never ends; after a settled round the house and every hand are empty, the deck is what the round left, and a face-up deck is still face-up |

## Left out

- Console output is not modelled. This covers `operator<<` for cards and participants, the "bust", "wins", "loses" and "pushes" messages, and the "No card to flip" and "Out of cards" notices. The model returns outcomes and flags instead.
- `main` is not modelled: the player-count prompt, the name prompts and the play-again loop are console interaction around `Game`.
- Participants.Player.IsHitting: the `cin` read is replaced by a finite script of answers given to each player. An exhausted script counts as standing, where the original would wait for input.
- Decks.Deck.Shuffle: `srand(time(0))` and `random_shuffle` are outside randomness. The draws are a parameter, and the contract promises only a permutation, not the particular order.
- Decks.Deck.HouseAdditionalCards: where the original loops forever (a house at 16 or less with an empty deck), the model stops and returns `ends == false`. The state it then leaves is unspecified.
- Hands.Hand.Clear: deleting the card objects and the pointer ownership between hands are not modelled. Cards are values that move between sequences.
- `Deck` is its own class holding a sequence of cards rather than a subclass of `Hand`. The deck never needs to be scored.
- The destructors and `reserve` calls only manage memory, so they have no counterpart.

## Findings

None. The one surprising behaviour, the house's endless loop on an empty deck, follows directly from `Deck::Deal` doing nothing on an empty deck. The model states it as `Decks.HouseTurnHangs` and treats it as intended behaviour.
