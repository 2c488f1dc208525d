# Poker table room, modelled in Dafny

This project models the game logic of a Texas hold'em table. The table is a
Colyseus room (`MyRoom`) with a replicated state object (`MyRoomState`).
Players join and leave, and one of them starts a hand:
- The deck of 52 rank+suit tokens is rebuilt and shuffled in place.
- Every player with chips is dealt two hole cards.
- The dealer button moves on one seat.
- The small blind (10) and the big blind (20) are posted.

Players then bet, call, check, raise or fold in turn. A timer folds a player
who does not act. When every active player has acted, the street closes:
bets are reset and the flop (3 cards), the turn (1) and the river (1) are
dealt. The river closes with a showdown that splits the pot among every
player still in the hand. Ten seconds later a timer starts the next hand.

The model has five modules:

- `RoomSchema` (`schema.dfy`):
  - the `Player` record and its defaults;
  - the deck as pure functions: the fresh 52-card deck, one Fisher–Yates swap, the whole shuffle, dealing from the front;
  - class `RoomState`: the replicated fields, with imperative `ResetDeck` (nested build loops and a countdown swap loop over the deck), `Shuffle` and `DealCard`.
- `Poker` (`poker.dfy`): the specification of the room.
  - `Table` is one value holding every field of the room and its state.
  - Each handler is a function returning `Res(outcome, table)`.
  - The outcome is one of:
    - `Done`;
    - `Ignored`: a guard returned silently;
    - `Rejected(reason)`: the client was sent an error;
    - `Hung`: the turn rotation loops forever;
    - `Threw`: JavaScript throws a `TypeError`.
  - `Step` dispatches an `Event` (a join, a leave, one of the six messages, or one of the two timers) to its handler.
- `Room` (`room.dfy`): class `Room`, the imperative room.
  - It owns a `RoomState` and the private fields of `MyRoom`.
  - Each handler is a method that updates the fields in place.
  - Each method is proved to leave exactly the table that the matching `Poker` function computes, with the outcome as its return value.
- `PokerProps` (`props.dfy`): what the handlers promise.
  - A table invariant that every event keeps, including that the number of community cards matches the phase.
  - Every guard, and the error each rejection sends.
  - Each accepted action's precise effect on chips and bets.
  - The pot plus all stacks is conserved by blinds, bets and calls, and grows by exactly the amount credited at payout.
  - The blind seats, the first seat to act and the dealer moving.
  - The street sequence and the showdown.
  - The turn rotation: to the first live seat cyclically after the current one.
  - The cards: right after a deal the hole cards plus the deck are the shuffled deck. From then on, as long as at most 23 players are seated when a hand is dealt, every event keeps the card invariant: the hole cards of the players in the hand, the board and the deck hold each of the 52 tokens at most once and nothing else.
  - Quirks of the code as written. The showdown can pay out twice, and a fold passes over the next seat.
- `Solvency` (`solvency.dfy`): the money never goes below zero.
  - `Funds`: every stack and bet is at least 0, so is the table's bet, and the pot covers the bets of the players still in the hand. A bet below the player's own bet hands chips back out of the pot (src/rooms/MyRoom.ts:185-194), which is why the pot is tracked against those bets.
  - `Solvent`: `Funds`, and a player who may act outside the hand has bet no more than the table.
  - One lemma per handler keeps it, whenever the joining stack is at least 0. Only a new hand that throws can leave the second part unmet, and a throw ends a run. So every table reachable from a new room, with no negative `chips` option, has no negative stack, bet or pot.

Chip amounts are unbounded integers. JavaScript numbers agree with them as
long as every amount stays a safe integer (below 2^53 in magnitude); larger
amounts are left out below. A JavaScript number leaves the integers in two
places, both a remainder by 0:
- `(dealerIndex + 1) % players.length` in `startNewHand` yields `NaN` when no
  player has chips, so the dealer index is modelled as `Num = Int(n) | NaN`.
  A `NaN` dealer makes every later hand throw.
- `(currentPlayerIndex + 1) % playersInHand.length` in the rotation loop of
  `endTurn` yields `NaN` when the hand is empty. The seat it then reads is
  `undefined`, so the loop never ends: the `Hung` outcome.

## Model

| member | source | states |
|---|---|---|
| RoomSchema.NewPlayer | src/rooms/schema/MyRoomState.ts:3-15 | a new player has the session id, an empty name and hand, 1000 chips, no bet and is not folded |
| RoomSchema.FreshDeckBySuit | src/rooms/schema/MyRoomState.ts:34-41 | card 13·s + r of the built deck is rank r followed by suit s, for each of the 4 suits and 13 ranks |
| RoomSchema.FreshDeckBySuitAndRank | src/rooms/schema/MyRoomState.ts:34-41 | a 52-card sequence with rank r + suit s at 13·s + r is exactly the built deck (it has one token per pair and nothing else) |
| RoomSchema.FreshDeckDistinct | src/rooms/schema/MyRoomState.ts:34-41 | the 52 built tokens are pairwise distinct |
| RoomSchema.SwapPermutes | src/rooms/schema/MyRoomState.ts:45 | exchanging two positions keeps the multiset of cards |
| RoomSchema.ShuffleFromPermutes | src/rooms/schema/MyRoomState.ts:43-46 | the countdown swap loop, for any draws with 0 ≤ j ≤ i, keeps the multiset of cards |
| RoomSchema.ShuffledDeckIsPermutation | src/rooms/schema/MyRoomState.ts:33-47 | a reset deck has 52 distinct cards, is a permutation of the fresh deck and holds every token |
| RoomSchema.Deal | src/rooms/schema/MyRoomState.ts:49-51 | on a non-empty deck the card dealt is the old front and the rest is the old tail; on an empty deck it deals "" and the deck stays empty |
| RoomSchema.RoomState.constructor | src/rooms/schema/MyRoomState.ts:17-31 | a new state has no users, a reset shuffled deck, no community cards, pot and bet 0, no turn, not started, phase waiting, no last raiser |
| RoomSchema.RoomState.ResetDeck | src/rooms/schema/MyRoomState.ts:33-47 | the nested loops build the fresh deck (loop invariant) and the swap loop leaves the shuffled deck for the given draws |
| RoomSchema.RoomState.Shuffle | src/rooms/schema/MyRoomState.ts:43-46 | the in-place swap loop leaves the deck the shuffle function computes from the old deck |
| RoomSchema.RoomState.DealCard | src/rooms/schema/MyRoomState.ts:49-51 | the card returned and the deck left are those of `Deal` on the old deck |
| Poker.Without | src/rooms/MyRoom.ts:279 | the filter keeps exactly the ids other than the folder, in their order in the hand (a subsequence of it), keeps them distinct and never grows |
| Poker.RemoveFirst | src/rooms/MyRoom.ts:67-70 | `indexOf` + `splice` removes exactly one occurrence of the id, when there is one |
| Poker.RemoveFirstIsWithout | src/rooms/MyRoom.ts:67-70 | on a hand without repeats, removing the first occurrence is removing every occurrence |
| Poker.Eligible | src/rooms/MyRoom.ts:105 | the seated players are exactly the users with chips > 0, as a subsequence of the join order, without repeats |
| Poker.NotFolded | src/rooms/MyRoom.ts:378-382 | the showdown winners are exactly the players in the hand who have not folded, without repeats, in hand order (a subsequence of the hand) |
| Poker.FirstNotFolded | src/rooms/MyRoom.ts:363-365 | `findIndex` gives -1 when every player in the hand folded, else the first index of a non-folded player |
| Poker.ZeroBets | src/rooms/MyRoom.ts:327-329 | every user's current bet becomes 0 and nothing else changes |
| Poker.CreditSpec | src/rooms/MyRoom.ts:394-397 | each user's chips grow by the share times the number of times they appear among the winners; nothing else changes |
| Poker.SeatFacts | src/rooms/MyRoom.ts:105-113 | seating gives each seated player a two-card hand, bet 0 and not folded, and leaves every other user alone |
| Poker.NextLive | src/rooms/MyRoom.ts:311-322 | a seat the rotation stops at is in range and holds a live (present, non-folded) player |
| Poker.ActivePlayers | src/rooms/MyRoom.ts:299-301 | the players still to close the street are those in the hand, not folded and not all-in |
| Room.Room.constructor | src/rooms/MyRoom.ts:9-19 | a new room holds the initial table: a fresh state, dealer 0, index 0, empty hand, sets and no timers; the table invariant `Room.Valid` (`PokerProps.Good`) holds from the start |
| Room.Room.OnJoin | src/rooms/MyRoom.ts:31-36 | the room after a join is `Join` of the room before, and the room keeps the table invariant `Room.Valid` (`PokerProps.Good`) |
| Room.Room.OnLeave | src/rooms/MyRoom.ts:57-77 | the room after a leave is `Leave` of the room before, the outcome included, and the room keeps the table invariant `Room.Valid` (`PokerProps.Good`) |
| Room.Room.SettleIfAlone | src/rooms/MyRoom.ts:73-76 | a started hand with one player left is paid to that player |
| Room.Room.HandleStartGame | src/rooms/MyRoom.ts:79-91 | the room after a start message is `StartGame` of the room before, and the room keeps the table invariant `Room.Valid` (`PokerProps.Good`) |
| Room.Room.StartNewHand | src/rooms/MyRoom.ts:93-125 | the room after a new hand is `StartNewHand` of the room before, and the room keeps the table invariant `Room.Valid` (`PokerProps.Good`) |
| Room.Room.ResetHand | src/rooms/MyRoom.ts:95-102 | the deck is reset and shuffled, and community cards, pot, bet, last raiser, hand and both sets are cleared |
| Room.Room.SeatPlayers | src/rooms/MyRoom.ts:105-113 | the `forEach` loop deals two cards to each eligible player in turn and appends them to the hand |
| Room.Room.DealHand | src/rooms/MyRoom.ts:93-118 | resetting, seating and moving the dealer leave the table `DealHand` computes, and the room keeps the table invariant `Room.Valid` (`PokerProps.Good`) |
| Room.Room.PostBlinds | src/rooms/MyRoom.ts:127-161 | the room after the blinds is `PostBlinds` of the room before, a throw on a `NaN` dealer included, and the room keeps the table invariant `Room.Valid` (`PokerProps.Good`) |
| Room.Room.PostBlind | src/rooms/MyRoom.ts:135-145 | one blind moves min(cap, chips) from the player's stack to their bet and the pot, and returns that amount |
| Room.Room.StartBettingRound | src/rooms/MyRoom.ts:163-171 | the acted set is emptied and nothing else changes |
| Room.Room.StartTurnTimer | src/rooms/MyRoom.ts:420-430 | the turn timer is armed and nothing else changes |
| Room.Room.HandleBet | src/rooms/MyRoom.ts:173-212 | the room after a bet is `Bet` of the room before, and the room keeps the table invariant `Room.Valid` (`PokerProps.Good`) |
| Room.Room.ApplyBet | src/rooms/MyRoom.ts:191-202 | an accepted bet updates the stack, bet, pot, table bet, last raiser and acted set as `PlaceBet` does |
| Room.Room.HandleCall | src/rooms/MyRoom.ts:214-245 | the room after a call is `Call` of the room before, and the room keeps the table invariant `Room.Valid` (`PokerProps.Good`) |
| Room.Room.ApplyCall | src/rooms/MyRoom.ts:226-242 | an accepted call updates the stack, bet, pot, acted and all-in sets as `PlaceCall` does |
| Room.Room.HandleCheck | src/rooms/MyRoom.ts:247-266 | the room after a check is `Check` of the room before, and the room keeps the table invariant `Room.Valid` (`PokerProps.Good`) |
| Room.Room.HandleRaise | src/rooms/MyRoom.ts:268-270 | the room after a raise is `Raise` of the room before, and the room keeps the table invariant `Room.Valid` (`PokerProps.Good`) |
| Room.Room.HandleFold | src/rooms/MyRoom.ts:272-293 | the room after a fold is `Fold` of the room before, and the room keeps the table invariant `Room.Valid` (`PokerProps.Good`) |
| Room.Room.EndTurn | src/rooms/MyRoom.ts:295-323 | the room after ending a turn is `EndTurn` of the room before, and the room keeps the table invariant `Room.Valid` (`PokerProps.Good`) |
| Room.Room.Rotate | src/rooms/MyRoom.ts:310-322 | the `do … while` rotation leaves the seat and turn that `Rotate` computes, or reports that it never stops |
| Room.Room.ProceedToNextPhase | src/rooms/MyRoom.ts:325-376 | the room after closing a street is `ProceedToNextPhase` of the room before, and the room keeps the table invariant `Room.Valid` (`PokerProps.Good`) |
| Room.Room.ResetBets | src/rooms/MyRoom.ts:326-330 | every bet goes to 0 and nothing else changes |
| Room.Room.DealStreet | src/rooms/MyRoom.ts:332-355 | the phase moves on one street and that street's cards are dealt |
| Room.Room.OpenStreet | src/rooms/MyRoom.ts:362-376 | the first non-folded player takes the turn, or the round ends with no winners |
| Room.Room.EndRound | src/rooms/MyRoom.ts:384-418 | the turn timer is cleared, each winner is credited, and a next-hand callback is scheduled |
| Room.Room.TurnTimeout | src/rooms/MyRoom.ts:423-429 | the room after the turn timer fires is `TurnTimeout` of the room before, and the room keeps the table invariant `Room.Valid` (`PokerProps.Good`) |
| Room.Room.NextHandDelay | src/rooms/MyRoom.ts:411-417 | the room after the next-hand timer fires is `NextHandDelay` of the room before, and the room keeps the table invariant `Room.Valid` (`PokerProps.Good`) |
| PokerProps.CommunityCount | src/rooms/MyRoom.ts:333-355 | at most 5 community cards lie on the table in any phase |
| PokerProps.InitialState | src/rooms/schema/MyRoomState.ts:17-31 | the new room keeps the invariant, has no users, is waiting with pot 0 and dealer 0, and holds a 52-card deck of distinct cards |
| PokerProps.JoinGood | src/rooms/MyRoom.ts:31-36 | a join keeps the table invariant |
| PokerProps.LeaveGood | src/rooms/MyRoom.ts:57-77 | a leave keeps the table invariant |
| PokerProps.StartGameGood | src/rooms/MyRoom.ts:79-91 | a start message keeps the table invariant |
| PokerProps.StartNewHandGood | src/rooms/MyRoom.ts:93-125 | a new hand keeps the table invariant, and so does a hand that throws |
| PokerProps.DealHandGood | src/rooms/MyRoom.ts:93-118 | dealing a hand keeps the table invariant |
| PokerProps.PostBlindsGood | src/rooms/MyRoom.ts:127-161 | posting blinds keeps the table invariant |
| PokerProps.BetGood | src/rooms/MyRoom.ts:173-212 | a bet keeps the table invariant |
| PokerProps.RaiseGood | src/rooms/MyRoom.ts:268-270 | a raise keeps the table invariant |
| PokerProps.CallGood | src/rooms/MyRoom.ts:214-245 | a call keeps the table invariant |
| PokerProps.CheckGood | src/rooms/MyRoom.ts:247-266 | a check keeps the table invariant |
| PokerProps.FoldGood | src/rooms/MyRoom.ts:272-293 | a fold keeps the table invariant |
| PokerProps.EndTurnGood | src/rooms/MyRoom.ts:295-323 | ending a turn keeps the table invariant |
| PokerProps.RotateGood | src/rooms/MyRoom.ts:310-322 | the rotation keeps the table invariant |
| PokerProps.ProceedGood | src/rooms/MyRoom.ts:325-376 | closing a street keeps the invariant, so the community cards go 0, 3, 4, 5 with the phase |
| PokerProps.DealStreetGood | src/rooms/MyRoom.ts:332-355 | dealing a street keeps the invariant |
| PokerProps.OpenStreetGood | src/rooms/MyRoom.ts:362-376 | opening a street keeps the invariant |
| PokerProps.EndRoundGood | src/rooms/MyRoom.ts:384-418 | the payout keeps the invariant |
| PokerProps.SettleIfAloneGood | src/rooms/MyRoom.ts:73-76 | settling a lone player keeps the invariant |
| PokerProps.TurnTimeoutGood | src/rooms/MyRoom.ts:423-429 | the turn timer keeps the invariant |
| PokerProps.NextHandDelayGood | src/rooms/MyRoom.ts:411-417 | the next-hand timer keeps the invariant |
| PokerProps.StepGood | src/rooms/MyRoom.ts:22-28 | whatever event the room dispatches, the invariant is kept |
| PokerProps.Run | src/rooms/MyRoom.ts:22-28 | every table along a sequence of events keeps the invariant |
| PokerProps.ReachableGood | src/rooms/MyRoom.ts:18-29 | every table reachable from the new room keeps the invariant and shows at most 5 community cards |
| PokerProps.DealStreetCards | src/rooms/MyRoom.ts:333-355 | preflop→flop adds 3 cards, flop→turn 1, turn→river 1, the earlier cards stay and waiting and river deal nothing |
| PokerProps.EndTurnOutcome | src/rooms/MyRoom.ts:295-323 | ending a turn either completes or never returns; it never throws or rejects |
| PokerProps.ActionGuards | src/rooms/MyRoom.ts:174-177 | a bet, raise, call, check or fold by anyone who is not the current turn, not seated or folded changes nothing |
| PokerProps.BetRefusals | src/rooms/MyRoom.ts:179-189 | a bet below the table bet, or needing more than the stack, is rejected with that error and nothing changes |
| PokerProps.BetAccepted | src/rooms/MyRoom.ts:191-211 | any other bet places the chips and ends the turn, which completes or hangs |
| PokerProps.PlaceBetEffect | src/rooms/MyRoom.ts:191-202 | the player's bet becomes the amount and the pot grows by what was added; a raise sets the table bet and last raiser and resets the acted set to the player alone; nothing else changes |
| PokerProps.RaiseRefusals | src/rooms/MyRoom.ts:268-270 | for the player to act, a negative raise is rejected as too small and a raise of `d` whose `currentBet + d` exceeds the player's bet plus stack is rejected as unaffordable; neither changes the table |
| PokerProps.RaiseEffect | src/rooms/MyRoom.ts:268-270 | an accepted raise of `d` ends the turn after setting the player's bet and the table's bet to `currentBet + d` and moving the difference from the stack to the pot; for `d > 0` the player becomes the last raiser and is the only one marked as acted, for `d == 0` the last raiser is kept and the player is added to those who acted |
| PokerProps.CheckRefusal | src/rooms/MyRoom.ts:253-256 | a check below the table bet is rejected and nothing changes |
| PokerProps.CheckAccepted | src/rooms/MyRoom.ts:258-265 | any other check marks the player as acted and ends the turn |
| PokerProps.CallAccepted | src/rooms/MyRoom.ts:220-244 | a call owing nothing is a check; otherwise it places the call and ends the turn |
| PokerProps.PlaceCallEffect | src/rooms/MyRoom.ts:226-242 | a call moves exactly min(deficit, chips) into the pot; the player is all-in iff their chips fell short; with enough chips they match the table bet |
| PokerProps.CallLeavesStack | src/rooms/MyRoom.ts:226-242 | a call never leaves a negative stack, and the caller matches the table bet or is all-in with 0 chips |
| PokerProps.FoldAccepted | src/rooms/MyRoom.ts:278-292 | a fold takes the player out of the hand; with one player left the round ends with that player as winner, else the turn ends |
| PokerProps.FoldOutEffect | src/rooms/MyRoom.ts:278-279 | the folder is marked folded and is the only id removed from the hand |
| PokerProps.FoldLastStanding | src/rooms/MyRoom.ts:286-290 | when a fold leaves one player, that player is another player from the hand and wins the whole pot; other stacks are unchanged |
| PokerProps.FoldIdempotent | src/rooms/MyRoom.ts:273-278 | after a fold that was not ignored, the player is folded and a second fold by them changes nothing |
| PokerProps.StartGameOutcomes | src/rooms/MyRoom.ts:79-91 | rejected with "at least 2 players" iff fewer than 2 users, with "in progress" iff a round has started; a rejection changes nothing; otherwise a new hand starts |
| PokerProps.DealHandFacts | src/rooms/MyRoom.ts:93-118 | exactly the users with chips > 0 are in the hand, in join order, each with two cards, bet 0, not folded; others are untouched; pot, bet, cards and sets are cleared; phase preflop, round started, dealer moved |
| PokerProps.StartNewHandThrows | src/rooms/MyRoom.ts:116-130 | a new hand throws iff the dealer is `NaN` or no user has chips, leaving a `NaN` dealer and a started round |
| PokerProps.DealerNaNSticks | src/rooms/MyRoom.ts:116 | once the dealer is `NaN`, every new hand throws and the dealer stays `NaN` |
| PokerProps.ThrowBlocksStart | src/rooms/MyRoom.ts:85-88 | after a hand throws, every later start message is rejected |
| PokerProps.StartNewHandFacts | src/rooms/MyRoom.ts:93-125 | a hand that starts seats the eligible players, moves the dealer one seat, gives the turn to the seat three after the dealer, opens preflop and removes the old pot from the chips in play |
| PokerProps.DealHandTotal | src/rooms/MyRoom.ts:95-113 | dealing a hand removes the old pot from the chips in play and moves no other chip |
| PokerProps.NextDealerStep | src/rooms/MyRoom.ts:116 | the dealer becomes (d + 1) mod n, in range; with no players or a `NaN` dealer it is `NaN` |
| PokerProps.PostBlindsFacts | src/rooms/MyRoom.ts:127-161 | small blind min(10, chips) from seat d+1, big blind min(20, what remains) from seat d+2, table bet = big blind posted, turn to seat d+3 (all mod n), timer armed, nothing else changes |
| PokerProps.BlindsNeverOverdraw | src/rooms/MyRoom.ts:136-145 | blinds never take a non-negative stack below 0 |
| PokerProps.ContributeConserves | src/rooms/MyRoom.ts:192-194 | moving chips from a stack to its bet and the pot keeps pot + Σ chips |
| PokerProps.PlaceBetConserves | src/rooms/MyRoom.ts:192-194 | a bet keeps pot + Σ chips |
| PokerProps.PlaceCallConserves | src/rooms/MyRoom.ts:226-229 | a call keeps pot + Σ chips |
| PokerProps.PostBlindConserves | src/rooms/MyRoom.ts:136-139 | one blind keeps pot + Σ chips |
| PokerProps.PostBlindsConserves | src/rooms/MyRoom.ts:136-145 | posting both blinds keeps pot + Σ chips |
| PokerProps.ClearBetsConserves | src/rooms/MyRoom.ts:326-355 | resetting bets and dealing a street keep pot + Σ chips |
| PokerProps.CreditSum | src/rooms/MyRoom.ts:394-397 | crediting k seated winners adds k × share to Σ chips |
| PokerProps.EndRoundTotal | src/rooms/MyRoom.ts:388-397 | the payout adds ⌊pot / k⌋ × k to the chips in play, which is at most the pot and within k of it |
| PokerProps.EndRoundEffect | src/rooms/MyRoom.ts:384-418 | each winner gains ⌊pot / k⌋, other stacks are unchanged, the timer is cleared, a next hand is scheduled and nothing else changes |
| PokerProps.EndRoundKeepsTurn | src/rooms/MyRoom.ts:384-418 | the payout does not empty the pot or move the turn, phase, round flag, hand, sets or table bet |
| PokerProps.NextLiveSpec | src/rooms/MyRoom.ts:311-322 | the rotation finds nothing iff no seat within reach is live, else it stops at the first live seat after the current one |
| PokerProps.RotateFacts | src/rooms/MyRoom.ts:310-322 | the rotation never stops iff nobody in the hand is live; otherwise the turn goes to the first live seat cyclically after the current index, with the timer armed |
| PokerProps.StreetCompleteMeans | src/rooms/MyRoom.ts:299-305 | a street is complete iff some player is active and every active player has acted |
| PokerProps.ClearBetsEffect | src/rooms/MyRoom.ts:326-330 | every bet is 0 afterwards, table bet included, and nothing else changes |
| PokerProps.StreetOpens | src/rooms/MyRoom.ts:325-376 | closing preflop, flop or turn moves to the next phase, deals 3 or 1 cards, zeroes every bet and gives the turn to the first non-folded player |
| PokerProps.StreetNobodyLeft | src/rooms/MyRoom.ts:367-371 | with every player in the hand folded, the street still completes: the index becomes -1 and every bet is 0 |
| PokerProps.RiverShowdown | src/rooms/MyRoom.ts:356-359 | closing the river pays ⌊pot / k⌋ to each of the k non-folded players in the hand, zeroes every bet, keeps the pot and schedules a next hand |
| PokerProps.ProceedKeepsFolds | src/rooms/MyRoom.ts:325-376 | closing a street changes nobody's fold and nobody's place in the hand |
| PokerProps.EndTurnKeepsFolds | src/rooms/MyRoom.ts:295-323 | ending a turn changes nobody's fold and nobody's place in the hand |
| PokerProps.LeaveFacts | src/rooms/MyRoom.ts:57-77 | a leaver stays in the users, is marked folded and is the one id removed from the hand |
| PokerProps.LeaveUnseated | src/rooms/MyRoom.ts:59-76 | a leave by an unknown id only settles a lone player |
| PokerProps.JoinFacts | src/rooms/MyRoom.ts:31-36 | a join adds (or replaces) exactly one fresh player with the given or default name and chips; others are untouched |
| PokerProps.TurnTimeoutFacts | src/rooms/MyRoom.ts:423-429 | the timer does nothing unless armed; armed, it folds a live current player, else it only disarms |
| PokerProps.NextHandDelayFacts | src/rooms/MyRoom.ts:411-417 | the next-hand timer does nothing unless scheduled; with 2 or more users it starts a new hand, otherwise it ends the round |
| PokerProps.ShowdownRepeats | src/rooms/MyRoom.ts:356-359 | after a showdown the same player can check again, which pays every winner a second share and schedules a second next hand |
| PokerProps.FoldSkipsNextSeat | src/rooms/MyRoom.ts:279-312 | with hand [a, b, c] and a to act at index 0, a fold by a gives the turn to c, passing over b |
| PokerProps.DealHandCards | src/rooms/MyRoom.ts:105-113 | after dealing, the hole cards of the hand followed by the deck are exactly the shuffled deck and pairwise distinct |
| PokerProps.DealStreetKeepsCards | src/rooms/MyRoom.ts:332-355 | dealing a street moves cards from the deck front to the board without losing or duplicating any |
| PokerProps.CardsOkMeans | src/rooms/MyRoom.ts:105-113 | under the card invariant no card lies twice among the hole cards of the hand, the board and the deck, and each is one of the 52 built tokens |
| PokerProps.FreshCards | src/rooms/MyRoom.ts:93-118 | a table with an empty board, two hole cards a player and hole cards plus deck equal to a full deck meets the card invariant |
| PokerProps.DealHandCardsOk | src/rooms/MyRoom.ts:93-118 | dealing a hand with at most 23 players seated establishes the card invariant |
| PokerProps.DealStreetCardsOk | src/rooms/MyRoom.ts:332-355 | a street moves cards from the deck to the board and keeps the card invariant |
| PokerProps.SameCards | src/rooms/MyRoom.ts:332-355 | moving cards between the front of the deck and the end of the board, same players and hands, keeps the card invariant |
| PokerProps.CardsKept | src/rooms/MyRoom.ts:191-194 | a change to chips, bets or fold flags that keeps or empties each hole-card hand keeps the card invariant |
| PokerProps.CardsDrop | src/rooms/MyRoom.ts:279 | filtering a player out of the hand keeps the card invariant (their hole cards no longer count) |
| PokerProps.HolesShrink | src/rooms/MyRoom.ts:31-36 | keeping or emptying each hand never adds a hole card (a re-join empties the hand) |
| PokerProps.HolesWithout | src/rooms/MyRoom.ts:279 | filtering a player out of the hand only drops hole cards |
| PokerProps.HolesLength | src/rooms/MyRoom.ts:105-113 | two hole cards a player make twice as many cards as players |
| PokerProps.JoinCards | src/rooms/MyRoom.ts:31-36 | a join, or a re-join that empties the player's hand, keeps the card invariant |
| PokerProps.LeaveCards | src/rooms/MyRoom.ts:57-77 | a leave keeps the card invariant: the leaver drops out of the hand with their cards |
| PokerProps.StartGameCards | src/rooms/MyRoom.ts:79-91 | a start message with at most 23 players seated keeps the card invariant |
| PokerProps.StartNewHandCards | src/rooms/MyRoom.ts:93-125 | a new hand with at most 23 players seated leaves the card invariant, whatever the table held before |
| PokerProps.PostBlindsCards | src/rooms/MyRoom.ts:127-161 | posting blinds keeps the card invariant |
| PokerProps.BetCards | src/rooms/MyRoom.ts:173-212 | a bet keeps the card invariant |
| PokerProps.PlaceBetCards | src/rooms/MyRoom.ts:191-202 | the chip moves of an accepted bet keep the card invariant |
| PokerProps.RaiseCards | src/rooms/MyRoom.ts:268-270 | a raise keeps the card invariant |
| PokerProps.CallCards | src/rooms/MyRoom.ts:214-245 | a call keeps the card invariant |
| PokerProps.PlaceCallCards | src/rooms/MyRoom.ts:226-242 | the chip moves of a call keep the card invariant |
| PokerProps.CheckCards | src/rooms/MyRoom.ts:247-266 | a check keeps the card invariant |
| PokerProps.FoldCards | src/rooms/MyRoom.ts:272-293 | a fold keeps the card invariant: the folder leaves the hand with their cards |
| PokerProps.EndTurnCards | src/rooms/MyRoom.ts:295-323 | ending a turn keeps the card invariant |
| PokerProps.ProceedCards | src/rooms/MyRoom.ts:325-376 | closing a street keeps the card invariant |
| PokerProps.OpenStreetCards | src/rooms/MyRoom.ts:362-376 | opening a street keeps the card invariant |
| PokerProps.EndRoundCards | src/rooms/MyRoom.ts:384-418 | the payout keeps the card invariant |
| PokerProps.ClearBetsCards | src/rooms/MyRoom.ts:326-330 | zeroing the bets keeps the card invariant |
| PokerProps.SettleIfAloneCards | src/rooms/MyRoom.ts:73-76 | settling a lone player keeps the card invariant |
| PokerProps.TurnTimeoutCards | src/rooms/MyRoom.ts:423-429 | the turn timer keeps the card invariant |
| PokerProps.NextHandDelayCards | src/rooms/MyRoom.ts:411-417 | the next-hand timer with at most 23 players seated keeps the card invariant |
| PokerProps.StepCards | src/rooms/MyRoom.ts:22-28 | whatever event the room dispatches keeps the card invariant, when an event that may deal finds at most 23 players seated |
| PokerProps.RunCards | src/rooms/MyRoom.ts:22-28 | a run of events keeps the card invariant when every hand it deals fits |
| PokerProps.ReachableCards | src/rooms/MyRoom.ts:18-29 | in every table reachable from a new room, with at most 23 players seated whenever a hand may be dealt, the hole cards of the hand, the board and the deck hold each of the 52 tokens at most once and nothing else |
| Solvency.FundsMeans | src/rooms/MyRoom.ts:184-194 | under `Funds` the pot, every stack and every bet are at least 0 |
| Solvency.HandBetsNonneg | src/rooms/MyRoom.ts:191-194 | bets of at least 0 sum to at least 0 |
| Solvency.HandBetsLess | src/rooms/MyRoom.ts:191-194 | bets that shrink or stay sum to no more |
| Solvency.HandBetsZero | src/rooms/MyRoom.ts:326-330 | zero bets sum to 0 |
| Solvency.HandBetsUpdate | src/rooms/MyRoom.ts:191-194 | changing one player of a hand without repeats changes the sum of bets by the change in their bet, once |
| Solvency.HandBetsSubseq | src/rooms/MyRoom.ts:279 | leaving players out of the hand, in order, never adds to a sum of bets of at least 0 |
| Solvency.SolventKept | src/rooms/MyRoom.ts:384-397 | a step that keeps the hand, pot, bets and turn and only adds to stacks or folds players keeps `Solvent` |
| Solvency.EndRoundSolvent | src/rooms/MyRoom.ts:384-397 | the payout keeps `Solvent`: the share `floor(pot / k)` is at least 0 because the pot is |
| Solvency.DropSolvent | src/rooms/MyRoom.ts:278-279 | filtering a player who cannot act out of the hand keeps `Solvent` |
| Solvency.ClearBetsSolvent | src/rooms/MyRoom.ts:326-330 | zeroing every bet keeps `Solvent` and leaves every player's bet at 0 |
| Solvency.DealStreetSolvent | src/rooms/MyRoom.ts:333-360 | dealing a street keeps `Solvent` |
| Solvency.OpenStreetSolvent | src/rooms/MyRoom.ts:362-375 | opening a street keeps `Solvent` |
| Solvency.ProceedSolvent | src/rooms/MyRoom.ts:325-376 | closing a street keeps `Solvent` |
| Solvency.RotateSolvent | src/rooms/MyRoom.ts:311-322 | the rotation keeps `Solvent` |
| Solvency.EndTurnSolvent | src/rooms/MyRoom.ts:295-323 | ending a turn keeps `Solvent` |
| Solvency.JoinSolvent | src/rooms/MyRoom.ts:31-36 | a join with a `chips` option of at least 0 keeps `Solvent` |
| Solvency.SettleIfAloneSolvent | src/rooms/MyRoom.ts:73-76 | settling a lone player keeps `Solvent` |
| Solvency.LeaveSolvent | src/rooms/MyRoom.ts:57-77 | a leave keeps `Solvent` |
| Solvency.DealHandFunds | src/rooms/MyRoom.ts:93-118 | the reset and deal of a new hand keep `Funds`: empty pot, no bets |
| Solvency.PostBlindFunds | src/rooms/MyRoom.ts:136-145 | one blind of a player in the hand keeps `Funds` |
| Solvency.PostBlindsSolvent | src/rooms/MyRoom.ts:127-161 | the blinds keep `Funds`, and after posting them `Solvent` holds |
| Solvency.StartNewHandSolvent | src/rooms/MyRoom.ts:93-125 | a new hand keeps `Funds`, and `Solvent` unless it throws |
| Solvency.StartGameSolvent | src/rooms/MyRoom.ts:79-91 | a start message keeps `Funds`, and `Solvent` unless it throws |
| Solvency.PlaceBetSolvent | src/rooms/MyRoom.ts:185-202 | an accepted bet keeps `Solvent`, including one below the player's own bet |
| Solvency.BetSolvent | src/rooms/MyRoom.ts:173-212 | a bet keeps `Solvent` |
| Solvency.RaiseSolvent | src/rooms/MyRoom.ts:268-270 | a raise keeps `Solvent` |
| Solvency.PlaceCallSolvent | src/rooms/MyRoom.ts:220-242 | a call keeps `Solvent`: it moves between 0 and the stack and never lifts the bet above the table's |
| Solvency.CheckSolvent | src/rooms/MyRoom.ts:247-266 | a check keeps `Solvent` |
| Solvency.CallSolvent | src/rooms/MyRoom.ts:214-245 | a call keeps `Solvent` |
| Solvency.FoldSolvent | src/rooms/MyRoom.ts:272-293 | a fold keeps `Solvent` |
| Solvency.TurnTimeoutSolvent | src/rooms/MyRoom.ts:420-430 | the turn timer keeps `Solvent` |
| Solvency.NextHandDelaySolvent | src/rooms/MyRoom.ts:411-417 | the next-hand timer keeps `Funds`, and `Solvent` unless the hand it starts throws |
| Solvency.StepSolvent | src/rooms/MyRoom.ts:22-28 | whatever event the room dispatches keeps `Funds` when a join brings a stack of at least 0, and `Solvent` unless it throws |
| Solvency.RunSolvent | src/rooms/MyRoom.ts:22-28 | a run of events with no negative joining stack keeps `Funds`, and `Solvent` unless it ends in a throw |
| Solvency.ReachableSolvent | src/rooms/MyRoom.ts:18-36 | in every table reachable from a new room with no negative `chips` option, every stack, every bet, the table's bet and the pot are at least 0, and the pot covers the bets of the hand |

## Left out

- Colyseus transport is not modelled: `setState`, `onMessage` registration, `client.send`, `broadcast` and the schema decorators. A `client.send("error", …)` becomes a `Rejected` outcome. The message handlers become the `Event` cases of `Step`.
- Real time is not modelled. Each timer becomes a serialised event. `clearTimeout` and `setTimeout` become the `turnTimerArmed` flag and the `pendingNextHand` counter.
- `Math.random` is not modelled. The shuffle takes a sequence of draws `js` with `0 ≤ js[i] ≤ i`, so every lemma holds for every shuffle.
- `console.log` is not modelled.
- `onDispose` is not modelled. It only clears a timer.
- `startGame`, `advanceTurn` and `finishHand` (src/rooms/MyRoom.ts:437-544) are not modelled. They are not reachable from any handler.
- Hand evaluation is not modelled. The code has none; the showdown winners are every non-folded player.
- `maxClients = 6` is not modelled. Colyseus enforces it before `onJoin` runs. So `DealHandCards` requires at most 26 seated players, and the card invariant asks for at most 23 whenever a hand is dealt (`RoomForBoard`, `DealsFit`), rather than assuming a table of six.
- Room.Room.Rotate: the `do … while (true)` of `endTurn` in MyRoom.ts is bounded here by one full turn of the table. `RotateFacts` shows that if nobody was found in one full turn, no later step would find anyone. That case is the `Hung` outcome.
- PokerProps.ReachableCards: the card invariant covers the hole cards of the players still in the hand. A player who folded or left keeps their two cards in `hand`, in the code as in the model, and those cards are not covered.
- PokerProps.Run: a throw or a hang ends the run. The room's next activity after an uncaught exception depends on the framework, which is not modelled.
- `Player` is a value in the `users` map rather than a shared object. Two references to one player meet in `postBlinds` when the hand has one seat: the small and the big blind are then the same object. The model reads the big blind from the map after the small blind was written to it, so the second blind sees the first one's update as the shared object does. No other handler writes through one reference and reads through another.
- Amounts beyond the safe integers (2^53) are not modelled: a `chips` option of `onJoin` (src/rooms/MyRoom.ts:35) or a bet or raise amount that large would be rounded by JavaScript, while the model keeps it exact.
- Non-integer or `NaN` bet amounts from clients are not modelled: `amount` is an integer. The falsy `options.name` and `options.chips` of `onJoin` are modelled as the empty name and 0 chips.
- Solvency.ReachableSolvent: a negative `chips` option of `onJoin` (src/rooms/MyRoom.ts:35) gives a negative stack that nothing in the code corrects. So money stays non-negative only on runs whose joins bring at least 0 chips (`StepSolvent`, `RunSolvent`, `ReachableSolvent`).
- The compiled files under `dist/`, the HTTP server under `api-server/`, the generated C# schema and the server bootstrap in `src/index.ts` are not part of this model.
