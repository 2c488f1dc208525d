/**
 * The room object of src/rooms/MyRoom.ts: its private fields, the schema state
 * it drives, and one method per handler. Every method changes the fields in
 * place the way MyRoom.ts does and is proved to leave exactly the table that
 * the matching function of module Poker computes.
 */
module Room {
  import opened RoomSchema
  import opened Poker
  import PokerProps

  class Room {
    const state: RoomState
    var dealerIndex: Num
    var currentPlayerIndex: int
    var playersInHand: seq<string>
    var playersActedThisRound: set<string>
    var playersAllIn: set<string>
    /** Whether a turn timer is scheduled and not yet cleared. */
    var turnTimerArmed: bool
    /** How many next-hand callbacks `endRound` has scheduled that have not fired yet. */
    var pendingNextHand: nat

    /** The room and its state as one table value. */
    function Snap(): Table
      reads this, state
    {
      Table(state.users, state.order, state.deck, state.communityCards, state.pot, state.currentBet,
            state.currentTurn, state.roundStarted, state.phase, state.lastRaiser,
            dealerIndex, currentPlayerIndex, playersInHand, playersActedThisRound, playersAllIn,
            turnTimerArmed, pendingNextHand)
    }

    /** The table invariant of `PokerProps.Good`: every handler keeps it. */
    ghost predicate Valid()
      reads this, state
    {
      PokerProps.Good(Snap())
    }

    /** `onCreate`: a fresh state object and the field initialisers. */
    constructor (js: seq<int>)
      requires ShuffleOracle(js)
      ensures Snap() == Initial(js) && fresh(state)
      ensures Valid()
    {
      PokerProps.InitialState(js);
      state := new RoomState(js);
      dealerIndex := Int(0);
      currentPlayerIndex := 0;
      playersInHand := [];
      playersActedThisRound := {};
      playersAllIn := {};
      turnTimerArmed := false;
      pendingNextHand := 0;
    }

    /** `onJoin`: seat (or re-seat) the player `id`; "" and 0 stand for absent options. */
    method OnJoin(id: string, name: string, chips: int) returns (o: Outcome)
      requires Valid()
      modifies state
      ensures Res(o, Snap()) == Join(old(Snap()), id, name, chips)
      ensures Valid()
    {
      ghost var t := Snap();
      var player := NewPlayer(id);
      player := player.(name := if name != "" then name else "Player-" + id[..Min(4, |id|)]);
      player := player.(chips := if chips != 0 then chips else StartingChips);
      if id !in state.users {
        state.order := state.order + [id];
      }
      state.users := state.users[id := player];
      o := Done;
      PokerProps.JoinGood(t, id, name, chips);
    }

    /** `onLeave`. */
    method OnLeave(id: string) returns (o: Outcome)
      requires Valid()
      modifies this, state
      ensures Res(o, Snap()) == Leave(old(Snap()), id)
      ensures Valid()
    {
      ghost var t := Snap();
      if id in state.users {
        var player := state.users[id];
        state.users := state.users[id := player.(isFolded := true)];
        ghost var t1 := t.(users := t.users[id := t.users[id].(isFolded := true)]);
        assert Snap() == t1;
        if state.currentTurn == id {
          PokerProps.MarkFoldedGood(t, id);
          o := EndTurn();
          if o == Hung {
            return;
          }
        }
        playersInHand := RemoveFirst(playersInHand, id);
      }
      o := SettleIfAlone();
      PokerProps.LeaveGood(t, id);
    }

    /** The tail of `onLeave`: one player left in a running hand wins it. */
    method SettleIfAlone() returns (o: Outcome)
      modifies this`turnTimerArmed, this`pendingNextHand, state`users
      ensures Res(o, Snap()) == Poker.SettleIfAlone(old(Snap()))
    {
      if |playersInHand| == 1 && state.roundStarted {
        o := EndRound([playersInHand[0]]);
      } else {
        o := Done;
      }
    }

    /** `handleStartGame`. */
    method HandleStartGame(js: seq<int>) returns (o: Outcome)
      requires Valid() && ShuffleOracle(js)
      modifies this, state
      ensures Res(o, Snap()) == StartGame(old(Snap()), js)
      ensures Valid()
    {
      if |state.users| < 2 {
        return Rejected(TooFewPlayers);
      }
      if state.roundStarted {
        return Rejected(GameInProgress);
      }
      o := StartNewHand(js);
    }

    /** `startNewHand`. */
    method StartNewHand(js: seq<int>) returns (o: Outcome)
      requires Valid() && ShuffleOracle(js)
      modifies this, state
      ensures Res(o, Snap()) == Poker.StartNewHand(old(Snap()), js)
      ensures Valid()
    {
      DealHand(js);
      o := PostBlinds();
      if o == Threw {
        return;
      }
      StartBettingRound();
    }

    /** The first part of `startNewHand`: the resets, then two cards for each player with chips. */
    method DealHand(js: seq<int>)
      requires Valid() && ShuffleOracle(js)
      modifies this, state
      ensures Snap() == Poker.DealHand(old(Snap()), js)
      ensures Valid()
    {
      ghost var t := Snap();
      ghost var t1 := ClearHand(Snap(), js);
      ResetHand(js);
      // The players are listed by session id, in seating order.
      var players := Eligible(state.users, state.order);
      SeatPlayers(players);
      assert Snap() == t1.(users := state.users, deck := state.deck, playersInHand := players);
      dealerIndex := NextDealer(dealerIndex, |players|);
      state.roundStarted := true;
      state.phase := Preflop;
      assert Snap() == Poker.DealHand(t, js);
      PokerProps.DealHandGood(t, js);
    }

    /** The resets at the top of `startNewHand`, `resetDeck()` included. */
    method ResetHand(js: seq<int>)
      requires ShuffleOracle(js)
      modifies state`deck, state`communityCards, state`pot, state`currentBet, state`lastRaiser
      modifies this`playersInHand, this`playersActedThisRound, this`playersAllIn
      ensures Snap() == ClearHand(old(Snap()), js)
    {
      state.ResetDeck(js);
      state.communityCards := [];
      state.pot := 0;
      state.currentBet := 0;
      state.lastRaiser := "";
      playersInHand := [];
      playersActedThisRound := {};
      playersAllIn := {};
    }

    /** The `forEach` of `startNewHand`: fresh hand, zero bet, not folded, two cards, into the hand. */
    method SeatPlayers(players: seq<string>)
      requires forall id :: id in players ==> id in state.users
      requires playersInHand == []
      modifies this`playersInHand, state`users, state`deck
      ensures (state.users, state.deck) == Seat(old(state.users), old(state.deck), players)
      ensures playersInHand == players
    {
      ghost var r := Seat(state.users, state.deck, players);
      var rest := players;
      while rest != []
        invariant forall id :: id in rest ==> id in state.users
        invariant Seat(state.users, state.deck, rest) == r
        invariant playersInHand + rest == players
      {
        var id := rest[0];
        assert playersInHand + [id] + rest[1..] == playersInHand + rest;
        var player := state.users[id];
        var c1 := state.DealCard();
        var c2 := state.DealCard();
        state.users := state.users[id := player.(hand := [c1, c2], currentBet := 0, isFolded := false)];
        playersInHand := playersInHand + [id];
        rest := rest[1..];
      }
    }

    /** `postBlinds`; with a NaN dealer index or nobody in the hand the code throws. */
    method PostBlinds() returns (o: Outcome)
      requires Valid()
      modifies this, state
      ensures Res(o, Snap()) == Poker.PostBlinds(old(Snap()))
      ensures Valid()
    {
      ghost var t := Snap();
      if dealerIndex.NaN? || |playersInHand| == 0 {
        return Threw;
      }
      var n := |playersInHand|;
      var smallBlindPos := (dealerIndex.n + 1) % n;
      var bigBlindPos := (dealerIndex.n + 2) % n;
      assert smallBlindPos == Ahead(dealerIndex.n, 1, n) && bigBlindPos == Ahead(dealerIndex.n, 2, n);
      var smallBlindId := playersInHand[smallBlindPos];
      var bigBlindId := playersInHand[bigBlindPos];

      var smallBlind := PostBlind(smallBlindId, SmallBlind);
      var bigBlind := PostBlind(bigBlindId, BigBlind);
      state.currentBet := bigBlind;
      currentPlayerIndex := (bigBlindPos + 1) % n;
      assert currentPlayerIndex == Ahead(bigBlindPos, 1, n);
      state.currentTurn := playersInHand[currentPlayerIndex];
      StartTurnTimer();
      o := Done;
      assert Res(o, Snap()) == Poker.PostBlinds(t);
      PokerProps.PostBlindsGood(t);
    }

    /**
     * One of the two identical blind blocks of `postBlinds`: the player puts in `cap`
     * or their whole stack, whichever is less, as their bet and into the pot.
     */
    method PostBlind(id: string, cap: int) returns (x: int)
      requires id in state.users
      modifies state`users, state`pot
      ensures Snap() == Poker.PostBlind(old(Snap()), id, cap)
      ensures x == Min(cap, old(state.users[id].chips))
    {
      var player := state.users[id];
      x := Min(cap, player.chips);
      state.users := state.users[id := player.(chips := player.chips - x, currentBet := x)];
      state.pot := state.pot + x;
    }

    /** `startBettingRound`. */
    method StartBettingRound()
      modifies this`playersActedThisRound
      ensures playersActedThisRound == {}
    {
      playersActedThisRound := {};
    }

    /** `startTurnTimer`: cancel any pending turn timer and schedule a new one. */
    method StartTurnTimer()
      modifies this`turnTimerArmed
      ensures turnTimerArmed
    {
      turnTimerArmed := true;
    }

    /** `handleBet(amount)`. */
    method HandleBet(sender: string, amount: int) returns (o: Outcome)
      requires Valid()
      modifies this, state
      ensures Res(o, Snap()) == Bet(old(Snap()), sender, amount)
      ensures Valid()
    {
      if sender != state.currentTurn || sender !in state.users || state.users[sender].isFolded {
        return Ignored;
      }
      var player := state.users[sender];
      if amount < state.currentBet {
        return Rejected(BetTooSmall);
      }
      if amount - player.currentBet > player.chips {
        return Rejected(NotEnoughChips);
      }
      PokerProps.PlaceBetGood(Snap(), sender, amount);
      ApplyBet(sender, amount);
      o := EndTurn();
    }

    /** The field updates of an accepted bet. */
    method ApplyBet(sender: string, amount: int)
      requires sender in state.users
      modifies state`users, state`pot, state`currentBet, state`lastRaiser, this`playersActedThisRound
      ensures Snap() == PlaceBet(old(Snap()), sender, amount)
    {
      ghost var t := Snap();
      var player := state.users[sender];
      var chipsToCall := amount - player.currentBet;
      state.users := state.users[sender :=
        player.(chips := player.chips - chipsToCall, currentBet := player.currentBet + chipsToCall)];
      state.pot := state.pot + chipsToCall;
      assert Snap() == Contribute(t, sender, chipsToCall);
      if amount > state.currentBet {
        state.currentBet := amount;
        state.lastRaiser := sender;
        playersActedThisRound := {};
      }
      playersActedThisRound := playersActedThisRound + {sender};
    }

    /** `handleCall`. */
    method HandleCall(sender: string) returns (o: Outcome)
      requires Valid()
      modifies this, state
      ensures Res(o, Snap()) == Call(old(Snap()), sender)
      ensures Valid()
    {
      if sender != state.currentTurn || sender !in state.users || state.users[sender].isFolded {
        return Ignored;
      }
      var player := state.users[sender];
      if state.currentBet - player.currentBet <= 0 {
        o := HandleCheck(sender);
        return;
      }
      PlaceCallValid(Snap(), sender);
      ApplyCall(sender);
      o := EndTurn();
    }

    /** The field updates of a call: at most the whole stack goes in, and a short call is all-in. */
    method ApplyCall(sender: string)
      requires sender in state.users
      modifies state`users, state`pot, this`playersActedThisRound, this`playersAllIn
      ensures Snap() == PlaceCall(old(Snap()), sender)
    {
      ghost var t := Snap();
      var player := state.users[sender];
      var chipsToCall := state.currentBet - player.currentBet;
      var actualCall := Min(chipsToCall, player.chips);
      state.users := state.users[sender :=
        player.(chips := player.chips - actualCall, currentBet := player.currentBet + actualCall)];
      state.pot := state.pot + actualCall;
      assert Snap() == Contribute(t, sender, actualCall);
      playersActedThisRound := playersActedThisRound + {sender};
      if actualCall < chipsToCall {
        playersAllIn := playersAllIn + {sender};
      }
    }

    /** `handleCheck`. */
    method HandleCheck(sender: string) returns (o: Outcome)
      requires Valid()
      modifies this, state
      ensures Res(o, Snap()) == Check(old(Snap()), sender)
      ensures Valid()
    {
      if sender != state.currentTurn || sender !in state.users || state.users[sender].isFolded {
        return Ignored;
      }
      if state.users[sender].currentBet < state.currentBet {
        return Rejected(MustCallOrFold);
      }
      playersActedThisRound := playersActedThisRound + {sender};
      o := EndTurn();
    }

    /** `handleRaise(amount)`: a bet of the current bet plus `amount`. */
    method HandleRaise(sender: string, amount: int) returns (o: Outcome)
      requires Valid()
      modifies this, state
      ensures Res(o, Snap()) == Raise(old(Snap()), sender, amount)
      ensures Valid()
    {
      var target := state.currentBet + amount;
      RaiseIsBet(Snap(), sender, amount, target);
      o := HandleBet(sender, target);
    }

    /** `handleFold`. */
    method HandleFold(sender: string) returns (o: Outcome)
      requires Valid()
      modifies this, state
      ensures Res(o, Snap()) == Fold(old(Snap()), sender)
      ensures Valid()
    {
      if sender != state.currentTurn || sender !in state.users || state.users[sender].isFolded {
        return Ignored;
      }
      FoldOutValid(Snap(), sender);
      var player := state.users[sender];
      state.users := state.users[sender := player.(isFolded := true)];
      playersInHand := Without(playersInHand, sender);
      if |playersInHand| == 1 {
        PokerProps.EndRoundGood(Snap(), [playersInHand[0]]);
        o := EndRound([playersInHand[0]]);
        return;
      }
      o := EndTurn();
    }

    /** `endTurn`: the street closes, or the turn passes on. */
    method EndTurn() returns (o: Outcome)
      requires Valid()
      modifies this, state
      ensures Res(o, Snap()) == Poker.EndTurn(old(Snap()))
      ensures Valid()
    {
      turnTimerArmed := false;
      var active := Excluding(NotFolded(state.users, playersInHand), playersAllIn);
      var allActed := forall i :: 0 <= i < |active| ==> active[i] in playersActedThisRound;
      if allActed && |active| > 0 {
        o := ProceedToNextPhase();
        return;
      }
      PokerProps.RotateGood(Snap());
      o := Rotate();
    }

    /**
     * The `do ... while (true)` loop of `endTurn`. With no seats `(i + 1) % 0` is NaN and the
     * loop never leaves; otherwise a seat not reached within |playersInHand| steps is never
     * reached. The index is kept in a local until a seat is found, since a loop that never
     * ends leaves nothing observable.
     */
    method Rotate() returns (o: Outcome)
      requires currentPlayerIndex >= -1
      modifies this`currentPlayerIndex, this`turnTimerArmed, state`currentTurn
      ensures Res(o, Snap()) == Poker.Rotate(old(Snap()))
    {
      var n := |playersInHand|;
      if n == 0 {
        return Hung;
      }
      var i := currentPlayerIndex;
      var tries := 0;
      while tries < n
        invariant 0 <= tries <= n && i >= -1
        invariant NextLive(state.users, playersInHand, i, n - tries)
               == NextLive(state.users, playersInHand, currentPlayerIndex, n)
      {
        i := (i + 1) % n;
        var nextPlayerId := playersInHand[i];
        if nextPlayerId in state.users && !state.users[nextPlayerId].isFolded {
          currentPlayerIndex := i;
          state.currentTurn := nextPlayerId;
          StartTurnTimer();
          return Done;
        }
        tries := tries + 1;
      }
      o := Hung;
    }

    /** `proceedToNextPhase`. */
    method ProceedToNextPhase() returns (o: Outcome)
      requires Valid()
      modifies this, state
      ensures Res(o, Snap()) == Poker.ProceedToNextPhase(old(Snap()))
      ensures Valid()
    {
      ghost var t := Snap();
      ResetBets();
      if state.phase == River {
        o := EndRound(NotFolded(state.users, playersInHand));
        PokerProps.ProceedGood(t);
        return;
      }
      DealStreet();
      o := OpenStreet();
      PokerProps.ProceedGood(t);
    }

    /** `users.forEach(player => player.currentBet = 0)` and the table's bet back to 0. */
    method ResetBets()
      modifies state`users, state`currentBet
      ensures Snap() == ClearBets(old(Snap()))
    {
      ghost var t := Snap();
      for i := 0 to |state.order|
        invariant state.users == ZeroBets(t.users, t.order[..i])
      {
        var id := state.order[i];
        assert t.order[..i + 1][..i] == t.order[..i];
        if id in state.users {
          var player := state.users[id];
          state.users := state.users[id := player.(currentBet := 0)];
        }
      }
      assert t.order[..|t.order|] == t.order;
      state.currentBet := 0;
    }

    /** The `switch` on the phase: advance it and deal the flop, the turn or the river. */
    method DealStreet()
      modifies state`phase, state`deck, state`communityCards
      ensures Snap() == Poker.DealStreet(old(Snap()))
    {
      match state.phase
      case Preflop =>
        state.phase := Flop;
        var c1 := state.DealCard();
        var c2 := state.DealCard();
        var c3 := state.DealCard();
        state.communityCards := state.communityCards + [c1, c2, c3];
      case Flop =>
        state.phase := Turn;
        var c := state.DealCard();
        state.communityCards := state.communityCards + [c];
      case Turn =>
        state.phase := River;
        var c := state.DealCard();
        state.communityCards := state.communityCards + [c];
      case _ =>
    }

    /** The tail of `proceedToNextPhase`: the first non-folded player in the hand opens the street. */
    method OpenStreet() returns (o: Outcome)
      requires forall id :: id in playersInHand ==> id in state.users
      modifies this, state
      ensures Res(o, Snap()) == Poker.OpenStreet(old(Snap()))
    {
      currentPlayerIndex := FirstNotFolded(state.users, playersInHand);
      if currentPlayerIndex == -1 {
        o := EndRound([]);
        return;
      }
      state.currentTurn := playersInHand[currentPlayerIndex];
      StartBettingRound();
      StartTurnTimer();
      o := Done;
    }

    /** `endRound(winners)`: clear the turn timer, pay each winner, schedule the next hand. */
    method EndRound(winners: seq<string>) returns (o: Outcome)
      modifies this`turnTimerArmed, this`pendingNextHand, state`users
      ensures Res(o, Snap()) == Poker.EndRound(old(Snap()), winners)
    {
      turnTimerArmed := false;
      var amount := if |winners| > 0 then state.pot / |winners| else 0;
      ghost var u0 := state.users;
      for i := 0 to |winners|
        modifies state`users
        invariant state.users == Credit(u0, winners[..i], amount)
      {
        var w := winners[i];
        assert winners[..i + 1][..i] == winners[..i];
        if w in state.users {
          var player := state.users[w];
          state.users := state.users[w := player.(chips := player.chips + amount)];
        }
      }
      assert winners[..|winners|] == winners;
      pendingNextHand := pendingNextHand + 1;
      o := Done;
    }

    /** The turn timer firing: auto-fold the player whose turn it is. */
    method TurnTimeout() returns (o: Outcome)
      requires Valid()
      modifies this, state
      ensures Res(o, Snap()) == Poker.TurnTimeout(old(Snap()))
      ensures Valid()
    {
      if !turnTimerArmed {
        return Ignored;
      }
      turnTimerArmed := false;
      if state.currentTurn in state.users && !state.users[state.currentTurn].isFolded {
        var player := state.users[state.currentTurn];
        o := HandleFold(player.sessionId);
      } else {
        o := Done;
      }
    }

    /** The next-hand callback firing. */
    method NextHandDelay(js: seq<int>) returns (o: Outcome)
      requires Valid() && ShuffleOracle(js)
      modifies this, state
      ensures Res(o, Snap()) == Poker.NextHandDelay(old(Snap()), js)
      ensures Valid()
    {
      if pendingNextHand == 0 {
        return Ignored;
      }
      pendingNextHand := pendingNextHand - 1;
      assert Snap() == old(Snap()).(pendingNextHand := old(Snap()).pendingNextHand - 1);
      if |state.users| >= 2 {
        o := StartNewHand(js);
      } else {
        state.roundStarted := false;
        o := Done;
      }
    }
  }
}
