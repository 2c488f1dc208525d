/**
 * Properties of the poker-table state machine of module Poker: the table
 * invariant every handler keeps, what each handler does to the chips, the
 * blinds, the streets and the payout, and the guards that make a message a
 * no-op.
 */
module PokerProps {
  import opened RoomSchema
  import opened Poker

  // ---------------------------------------------------------------------------
  // The table invariant
  // ---------------------------------------------------------------------------

  /** How many community cards lie on the table in each phase. */
  function CommunityCount(p: Phase): (n: nat)
    ensures n <= 5
  {
    match p
    case Waiting => 0
    case Preflop => 0
    case Flop => 3
    case Turn => 4
    case River => 5
  }

  /** `Valid`, and the community cards match the phase. */
  ghost predicate Good(t: Table)
  {
    Valid(t) && |t.communityCards| == CommunityCount(t.phase)
  }

  /** The room starts out with nobody seated, a full shuffled deck and nothing on the table. */
  lemma InitialState(js: seq<int>)
    requires ShuffleOracle(js)
    ensures Good(Initial(js))
    ensures var t := Initial(js);
      t.users == map[] && t.phase == Waiting && !t.roundStarted && t.pot == 0 && t.currentBet == 0
      && t.dealerIndex == Int(0) && t.playersInHand == [] && !t.turnTimerArmed && t.pendingNextHand == 0
    ensures |Initial(js).deck| == DeckSize && Distinct(Initial(js).deck)
  {
    ShuffledDeckIsPermutation(js);
  }

  /** Paying winners changes chips only. */
  lemma EndRoundGood(t: Table, winners: seq<string>)
    requires Good(t)
    ensures Good(EndRound(t, winners).table)
  {
    var share := if |winners| > 0 then t.pot / |winners| else 0;
    CreditSpec(t.users, winners, share);
    ValidFrame(t, EndRound(t, winners).table);
  }

  lemma ClearBetsValid(t: Table)
    requires Valid(t)
    ensures Valid(ClearBets(t))
  {
    ValidFrame(t, ClearBets(t));
  }

  lemma RotateGood(t: Table)
    requires Good(t)
    ensures Good(Rotate(t).table)
  {
  }

  lemma OpenStreetGood(t: Table)
    requires Good(t)
    ensures Good(OpenStreet(t).table)
  {
    var k := FirstNotFolded(t.users, t.playersInHand);
    if k == -1 {
      EndRoundGood(t.(currentPlayerIndex := -1), []);
    }
  }

  /** Each street deals its cards: three on the flop, one on the turn, one on the river. */
  lemma DealStreetCards(t: Table)
    ensures var t' := DealStreet(t);
      && (t.phase == Preflop ==> t'.phase == Flop && |t'.communityCards| == |t.communityCards| + 3)
      && (t.phase == Flop ==> t'.phase == Turn && |t'.communityCards| == |t.communityCards| + 1)
      && (t.phase == Turn ==> t'.phase == River && |t'.communityCards| == |t.communityCards| + 1)
      && (t.phase in {Waiting, River} ==> t' == t)
      && t'.communityCards[..|t.communityCards|] == t.communityCards
      && t'.users == t.users && t'.playersInHand == t.playersInHand && t'.pot == t.pot
  {
  }

  lemma DealStreetGood(t: Table)
    requires Good(t)
    ensures Good(DealStreet(t))
  {
    DealStreetCards(t);
  }

  lemma ProceedGood(t: Table)
    requires Good(t)
    ensures Good(ProceedToNextPhase(t).table)
  {
    var t1 := ClearBets(t);
    ClearBetsValid(t);
    assert Good(t1);
    if t1.phase == River {
      EndRoundGood(t1, DetermineWinners(t1));
    } else {
      DealStreetGood(t1);
      OpenStreetGood(DealStreet(t1));
    }
  }

  lemma EndTurnGood(t: Table)
    requires Good(t)
    ensures Good(EndTurn(t).table)
  {
    var t0 := t.(turnTimerArmed := false);
    if StreetComplete(t0) {
      ProceedGood(t0);
    } else {
      RotateGood(t0);
    }
  }

  lemma JoinGood(t: Table, id: string, name: string, chips: int)
    requires Good(t)
    ensures Good(Join(t, id, name, chips).table)
  {
    var t' := Join(t, id, name, chips).table;
    if id !in t.users {
      DistinctSnoc(t.order, id);
    }
    assert forall x :: x in t'.users <==> x in t'.order;
  }

  lemma SettleIfAloneGood(t: Table)
    requires Good(t)
    ensures Good(SettleIfAlone(t).table)
  {
    if |t.playersInHand| == 1 && t.roundStarted {
      EndRoundGood(t, [t.playersInHand[0]]);
    }
  }

  lemma MarkFoldedGood(t: Table, id: string)
    requires Good(t) && id in t.users
    ensures Good(t.(users := t.users[id := t.users[id].(isFolded := true)]))
  {
    ValidFrame(t, t.(users := t.users[id := t.users[id].(isFolded := true)]));
  }

  lemma DropFromHandGood(t: Table, id: string)
    requires Good(t)
    ensures Good(t.(playersInHand := RemoveFirst(t.playersInHand, id)))
  {
    RemoveFirstIsWithout(t.playersInHand, id);
  }

  lemma LeaveGood(t: Table, id: string)
    requires Good(t)
    ensures Good(Leave(t, id).table)
  {
    if id in t.users {
      var t1 := t.(users := t.users[id := t.users[id].(isFolded := true)]);
      MarkFoldedGood(t, id);
      var r1 := if t.currentTurn == id then EndTurn(t1) else Res(Done, t1);
      if t.currentTurn == id {
        EndTurnGood(t1);
      }
      assert Good(r1.table);
      if r1.outcome != Hung {
        DropFromHandGood(r1.table, id);
        SettleIfAloneGood(r1.table.(playersInHand := RemoveFirst(r1.table.playersInHand, id)));
      }
    } else {
      SettleIfAloneGood(t);
    }
  }

  lemma PostBlindsGood(t: Table)
    requires Good(t)
    ensures Good(PostBlinds(t).table)
  {
    if !(t.dealerIndex.NaN? || |t.playersInHand| == 0) {
      var sbId := t.playersInHand[Ahead(t.dealerIndex.n, 1, |t.playersInHand|)];
      var bbId := t.playersInHand[Ahead(t.dealerIndex.n, 2, |t.playersInHand|)];
      var t1 := PostBlind(t, sbId, SmallBlind);
      ValidFrame(t, t1);
      ValidFrame(t1, PostBlind(t1, bbId, BigBlind));
    }
  }

  lemma DealHandGood(t: Table, js: seq<int>)
    requires Good(t) && ShuffleOracle(js)
    ensures Good(DealHand(t, js))
  {
    DealHandValid(t, js);
  }

  lemma StartNewHandGood(t: Table, js: seq<int>)
    requires Good(t) && ShuffleOracle(js)
    ensures Good(StartNewHand(t, js).table)
  {
    DealHandGood(t, js);
    PostBlindsGood(DealHand(t, js));
  }

  lemma StartGameGood(t: Table, js: seq<int>)
    requires Good(t) && ShuffleOracle(js)
    ensures Good(StartGame(t, js).table)
  {
    if |t.users| >= 2 && !t.roundStarted {
      StartNewHandGood(t, js);
    }
  }

  lemma BetGood(t: Table, sender: string, amount: int)
    requires Good(t)
    ensures Good(Bet(t, sender, amount).table)
  {
    if CanAct(t, sender) && amount >= t.currentBet && amount - t.users[sender].currentBet <= t.users[sender].chips {
      PlaceBetGood(t, sender, amount);
      EndTurnGood(PlaceBet(t, sender, amount));
    }
  }

  lemma PlaceBetGood(t: Table, sender: string, amount: int)
    requires Good(t) && sender in t.users
    ensures Good(PlaceBet(t, sender, amount))
  {
    PlaceBetValid(t, sender, amount);
  }

  lemma RaiseGood(t: Table, sender: string, amount: int)
    requires Good(t)
    ensures Good(Raise(t, sender, amount).table)
  {
    BetGood(t, sender, RaiseTarget(t, amount));
  }

  lemma CheckGood(t: Table, sender: string)
    requires Good(t)
    ensures Good(Check(t, sender).table)
  {
    if CanAct(t, sender) && t.users[sender].currentBet >= t.currentBet {
      EndTurnGood(t.(playersActedThisRound := t.playersActedThisRound + {sender}));
    }
  }

  lemma CallGood(t: Table, sender: string)
    requires Good(t)
    ensures Good(Call(t, sender).table)
  {
    if CanAct(t, sender) {
      if t.currentBet - t.users[sender].currentBet <= 0 {
        CheckGood(t, sender);
      } else {
        PlaceCallValid(t, sender);
        EndTurnGood(PlaceCall(t, sender));
      }
    }
  }

  lemma FoldGood(t: Table, sender: string)
    requires Good(t)
    ensures Good(Fold(t, sender).table)
  {
    if CanAct(t, sender) {
      FoldOutValid(t, sender);
      var t1 := FoldOut(t, sender);
      if |t1.playersInHand| == 1 {
        EndRoundGood(t1, [t1.playersInHand[0]]);
      } else {
        EndTurnGood(t1);
      }
    }
  }

  lemma TurnTimeoutGood(t: Table)
    requires Good(t)
    ensures Good(TurnTimeout(t).table)
  {
    if t.turnTimerArmed {
      var t1 := t.(turnTimerArmed := false);
      if Live(t1.users, t1.currentTurn) {
        FoldGood(t1, t1.users[t1.currentTurn].sessionId);
      }
    }
  }

  lemma NextHandDelayGood(t: Table, js: seq<int>)
    requires Good(t) && ShuffleOracle(js)
    ensures Good(NextHandDelay(t, js).table)
  {
    if t.pendingNextHand > 0 && |t.users| >= 2 {
      StartNewHandGood(t.(pendingNextHand := t.pendingNextHand - 1), js);
    }
  }

  // ---------------------------------------------------------------------------
  // Guards and refusals
  // ---------------------------------------------------------------------------

  /** `endTurn` either hands the turn on or finishes the street; it never refuses or returns early. */
  lemma EndTurnOutcome(t: Table)
    requires Valid(t)
    ensures EndTurn(t).outcome == Done || EndTurn(t).outcome == Hung
  {
  }

  /** An action from a player who may not act is a silent no-op. */
  lemma ActionGuards(t: Table, sender: string, amount: int)
    requires Valid(t) && !CanAct(t, sender)
    ensures Bet(t, sender, amount) == Res(Ignored, t) && Raise(t, sender, amount) == Res(Ignored, t)
    ensures Call(t, sender) == Res(Ignored, t) && Check(t, sender) == Res(Ignored, t)
    ensures Fold(t, sender) == Res(Ignored, t)
  {
  }

  /**
   * `handleBet` refuses a bet below the current bet, and a bet that needs more
   * chips than the player holds (there is no all-in for less); a refusal
   * changes nothing.
   */
  lemma BetRefusals(t: Table, sender: string, amount: int)
    requires Valid(t) && CanAct(t, sender)
    ensures amount < t.currentBet ==> Bet(t, sender, amount) == Res(Rejected(BetTooSmall), t)
    ensures amount >= t.currentBet && amount - t.users[sender].currentBet > t.users[sender].chips ==>
      Bet(t, sender, amount) == Res(Rejected(NotEnoughChips), t)
  {
  }

  /** Any other amount is taken, whether or not it reaches `2 * currentBet`, and the turn ends. */
  lemma BetAccepted(t: Table, sender: string, amount: int)
    requires Valid(t) && CanAct(t, sender)
    requires amount >= t.currentBet && amount - t.users[sender].currentBet <= t.users[sender].chips
    ensures Valid(PlaceBet(t, sender, amount))
    ensures Bet(t, sender, amount) == EndTurn(PlaceBet(t, sender, amount))
    ensures Bet(t, sender, amount).outcome == Done || Bet(t, sender, amount).outcome == Hung
  {
    PlaceBetValid(t, sender, amount);
    EndTurnOutcome(PlaceBet(t, sender, amount));
  }

  /**
   * `handleRaise(d)` bets `currentBet + d`: a negative raise asks for less than
   * the current bet, a raise the stack cannot cover is refused, and a refusal
   * changes nothing.
   */
  lemma RaiseRefusals(t: Table, sender: string, d: int)
    requires Valid(t) && CanAct(t, sender)
    ensures d < 0 ==> Raise(t, sender, d) == Res(Rejected(BetTooSmall), t)
    ensures d >= 0 && t.currentBet + d - t.users[sender].currentBet > t.users[sender].chips ==>
      Raise(t, sender, d) == Res(Rejected(NotEnoughChips), t)
  {
    BetRefusals(t, sender, RaiseTarget(t, d));
  }

  /**
   * An accepted raise of `d` brings the player's bet and the table's bet to
   * `currentBet + d`, moves the difference from the stack to the pot and ends
   * the turn. A positive raise makes the player the last raiser and re-opens the
   * street, with only them having acted; a raise of 0 matches the bet and leaves
   * the street as open as it was.
   */
  lemma RaiseEffect(t: Table, sender: string, d: int)
    requires Valid(t) && CanAct(t, sender) && d >= 0
    requires t.currentBet + d - t.users[sender].currentBet <= t.users[sender].chips
    ensures RaiseTarget(t, d) == t.currentBet + d
    ensures Valid(PlaceBet(t, sender, RaiseTarget(t, d)))
      && Raise(t, sender, d) == EndTurn(PlaceBet(t, sender, RaiseTarget(t, d)))
    ensures var p := t.users[sender]; var b := RaiseTarget(t, d); var x := b - p.currentBet;
      var t' := PlaceBet(t, sender, b);
      && sender in t'.users && t'.users[sender].currentBet == b && t'.users[sender].chips == p.chips - x
      && t'.pot == t.pot + x
      && t'.currentBet == b
      && (d > 0 ==> t'.lastRaiser == sender && t'.playersActedThisRound == {sender})
      && (d == 0 ==> t'.lastRaiser == t.lastRaiser && t'.playersActedThisRound == t.playersActedThisRound + {sender})
  {
    var b := RaiseTarget(t, d);
    RaiseIsBet(t, sender, d, b);
    BetAccepted(t, sender, b);
    PlaceBetEffect(t, sender, b);
  }

  /** `handleCheck` refuses a player whose bet is below the current bet, and changes nothing then. */
  lemma CheckRefusal(t: Table, sender: string)
    requires Valid(t) && CanAct(t, sender) && t.users[sender].currentBet < t.currentBet
    ensures Check(t, sender) == Res(Rejected(MustCallOrFold), t)
  {
  }

  /** Otherwise the player is marked as having acted and the turn ends. */
  lemma CheckAccepted(t: Table, sender: string)
    requires Valid(t) && CanAct(t, sender) && t.users[sender].currentBet >= t.currentBet
    ensures Check(t, sender) == EndTurn(t.(playersActedThisRound := t.playersActedThisRound + {sender}))
    ensures Check(t, sender).outcome == Done || Check(t, sender).outcome == Hung
  {
    EndTurnOutcome(t.(playersActedThisRound := t.playersActedThisRound + {sender}));
  }

  /** `handleCall` with nothing to call is a check; otherwise the call is placed. A call is never refused. */
  lemma CallAccepted(t: Table, sender: string)
    requires Valid(t) && CanAct(t, sender)
    ensures t.currentBet - t.users[sender].currentBet <= 0 ==> Call(t, sender) == Check(t, sender)
    ensures t.currentBet - t.users[sender].currentBet > 0 ==>
      Valid(PlaceCall(t, sender)) && Call(t, sender) == EndTurn(PlaceCall(t, sender))
    ensures Call(t, sender).outcome == Done || Call(t, sender).outcome == Hung
  {
    if t.currentBet - t.users[sender].currentBet <= 0 {
      CheckAccepted(t, sender);
    } else {
      PlaceCallValid(t, sender);
      EndTurnOutcome(PlaceCall(t, sender));
    }
  }

  /** `handleFold`: the player is flagged and leaves the hand; the last one standing takes the pot, else the turn ends. */
  lemma FoldAccepted(t: Table, sender: string)
    requires Valid(t) && CanAct(t, sender)
    ensures Valid(FoldOut(t, sender))
    ensures |FoldOut(t, sender).playersInHand| == 1 ==>
      Fold(t, sender) == EndRound(FoldOut(t, sender), [FoldOut(t, sender).playersInHand[0]])
    ensures |FoldOut(t, sender).playersInHand| != 1 ==> Fold(t, sender) == EndTurn(FoldOut(t, sender))
    ensures Fold(t, sender).outcome == Done || Fold(t, sender).outcome == Hung
  {
    FoldOutValid(t, sender);
    if |FoldOut(t, sender).playersInHand| != 1 {
      EndTurnOutcome(FoldOut(t, sender));
    }
  }

  /** `handleStartGame` needs two players and no hand in progress; a refusal changes nothing. */
  lemma StartGameOutcomes(t: Table, js: seq<int>)
    requires Valid(t) && ShuffleOracle(js)
    ensures StartGame(t, js).outcome == Rejected(TooFewPlayers) <==> |t.users| < 2
    ensures StartGame(t, js).outcome == Rejected(GameInProgress) <==> |t.users| >= 2 && t.roundStarted
    ensures StartGame(t, js).outcome.Rejected? ==> StartGame(t, js).table == t
    ensures |t.users| >= 2 && !t.roundStarted ==> StartGame(t, js) == StartNewHand(t, js)
  {
    DealHandValid(t, js);
  }

  // ---------------------------------------------------------------------------
  // What the accepted actions do
  // ---------------------------------------------------------------------------

  /** An accepted bet moves `amount - currentBet` chips from the stack to the pot; a raise resets who has acted. */
  lemma PlaceBetEffect(t: Table, sender: string, amount: int)
    requires sender in t.users
    ensures var p := t.users[sender]; var x := amount - p.currentBet; var raised := amount > t.currentBet;
      PlaceBet(t, sender, amount) == t.(
        users := t.users[sender := p.(chips := p.chips - x, currentBet := amount)],
        pot := t.pot + x,
        currentBet := if raised then amount else t.currentBet,
        lastRaiser := if raised then sender else t.lastRaiser,
        playersActedThisRound := (if raised then {} else t.playersActedThisRound) + {sender})
  {
  }

  /**
   * A call moves what is owed, or the whole stack when that is less; a player
   * who could not cover the call is all-in, one who could now matches the bet.
   */
  lemma PlaceCallEffect(t: Table, sender: string)
    requires sender in t.users
    ensures var p := t.users[sender]; var owed := t.currentBet - p.currentBet;
      var x := if owed <= p.chips then owed else p.chips;
      var t' := PlaceCall(t, sender);
      && t'.users == t.users[sender := p.(chips := p.chips - x, currentBet := p.currentBet + x)]
      && t'.pot == t.pot + x
      && t'.playersActedThisRound == t.playersActedThisRound + {sender}
      && (sender in t'.playersAllIn <==> sender in t.playersAllIn || p.chips < owed)
      && (p.chips >= owed ==> t'.users[sender].currentBet == t.currentBet)
      && t' == t.(users := t'.users, pot := t'.pot, playersActedThisRound := t'.playersActedThisRound,
                  playersAllIn := t'.playersAllIn)
  {
  }

  /**
   * A call from a player with a non-negative stack leaves them a non-negative
   * stack, and either matching the current bet or all-in with nothing left.
   */
  lemma CallLeavesStack(t: Table, sender: string)
    requires sender in t.users && t.users[sender].chips >= 0
    ensures var p := PlaceCall(t, sender).users[sender];
      && p.chips >= 0
      && (t.currentBet - t.users[sender].currentBet > 0 ==>
            p.currentBet == t.currentBet || (p.chips == 0 && sender in PlaceCall(t, sender).playersAllIn))
  {
    PlaceCallEffect(t, sender);
  }

  /** A fold flags the player and removes them from the hand; nobody else changes. */
  lemma FoldOutEffect(t: Table, sender: string)
    requires Valid(t) && sender in t.users
    ensures var t' := FoldOut(t, sender);
      && t'.users == t.users[sender := t.users[sender].(isFolded := true)]
      && (forall id :: id in t'.playersInHand <==> id in t.playersInHand && id != sender)
      && |t'.playersInHand| <= |t.playersInHand|
      && t' == t.(users := t'.users, playersInHand := t'.playersInHand)
  {
  }

  /**
   * `endRound(winners)` with distinct winners credits each of them
   * `floor(pot / winners.length)`. It leaves the pot, the phase, the turn and
   * the round flag as they were, disarms the turn timer and schedules the next hand.
   */
  lemma EndRoundEffect(t: Table, winners: seq<string>)
    requires Distinct(winners)
    ensures var share := if |winners| > 0 then t.pot / |winners| else 0; var t' := EndRound(t, winners).table;
      && EndRound(t, winners).outcome == Done
      && t'.users.Keys == t.users.Keys
      && (forall id :: id in t.users ==>
            t'.users[id] == t.users[id].(chips := t.users[id].chips + if id in winners then share else 0))
      && t' == t.(users := t'.users, turnTimerArmed := false, pendingNextHand := t.pendingNextHand + 1)
  {
    var share := if |winners| > 0 then t.pot / |winners| else 0;
    CreditSpec(t.users, winners, share);
    forall id | id in t.users
      ensures multiset(winners)[id] == if id in winners then 1 else 0
    {
    }
  }

  /** The last player standing after a fold is credited the whole pot. */
  lemma FoldLastStanding(t: Table, sender: string)
    requires Valid(t) && CanAct(t, sender) && |FoldOut(t, sender).playersInHand| == 1
    ensures var w := FoldOut(t, sender).playersInHand[0]; var r := Fold(t, sender);
      && w != sender && w in t.playersInHand
      && r.outcome == Done
      && r.table.users[w].chips == t.users[w].chips + t.pot
      && (forall id :: id in t.users && id != w ==> r.table.users[id].chips == t.users[id].chips)
  {
    FoldAccepted(t, sender);
    var t1 := FoldOut(t, sender);
    var w := t1.playersInHand[0];
    assert w in t1.playersInHand;
    assert Distinct([w]) by {
      assert multiset([w]) == multiset{w};
    }
    EndRoundEffect(t1, [w]);
  }

  // ---------------------------------------------------------------------------
  // Chips
  // ---------------------------------------------------------------------------

  /** The chips in front of the players `ids`. */
  function ChipSum(users: map<string, Player>, ids: seq<string>): int
  {
    if ids == [] then 0 else (if ids[0] in users then users[ids[0]].chips else 0) + ChipSum(users, ids[1..])
  }

  /** Every chip at the table: the stacks of the seated players and the pot. */
  function Total(t: Table): int
  {
    t.pot + ChipSum(t.users, t.order)
  }

  /** Changing one player changes the sum by the change in their stack, counted once. */
  lemma {:induction false} ChipSumUpdate(users: map<string, Player>, ids: seq<string>, id: string, p: Player)
    requires id in users && Distinct(ids)
    ensures ChipSum(users[id := p], ids) == ChipSum(users, ids) + if id in ids then p.chips - users[id].chips else 0
  {
    if ids != [] {
      DistinctCons(ids[0], ids[1..]);
      assert ids == [ids[0]] + ids[1..];
      ChipSumUpdate(users, ids[1..], id, p);
    }
  }

  /** Two maps that agree on the stacks of `ids` have the same sum over `ids`. */
  lemma {:induction false} ChipSumSame(u1: map<string, Player>, u2: map<string, Player>, ids: seq<string>)
    requires forall id :: id in ids ==> (id in u1 <==> id in u2) && (id in u1 ==> u1[id].chips == u2[id].chips)
    ensures ChipSum(u1, ids) == ChipSum(u2, ids)
  {
    if ids != [] {
      assert forall id :: id in ids[1..] ==> id in ids;
      ChipSumSame(u1, u2, ids[1..]);
    }
  }

  /** Moving chips from a seated player's stack into the pot keeps the total. */
  lemma ContributeConserves(t: Table, id: string, x: int)
    requires Valid(t) && id in t.users
    ensures Total(Contribute(t, id, x)) == Total(t)
  {
    var p := t.users[id];
    ChipSumUpdate(t.users, t.order, id, p.(chips := p.chips - x, currentBet := p.currentBet + x));
  }

  lemma PlaceBetConserves(t: Table, sender: string, amount: int)
    requires Valid(t) && sender in t.users
    ensures Total(PlaceBet(t, sender, amount)) == Total(t)
  {
    ContributeConserves(t, sender, amount - t.users[sender].currentBet);
  }

  lemma PlaceCallConserves(t: Table, sender: string)
    requires Valid(t) && sender in t.users
    ensures Total(PlaceCall(t, sender)) == Total(t)
  {
    ContributeConserves(t, sender, Min(t.currentBet - t.users[sender].currentBet, t.users[sender].chips));
  }

  lemma PostBlindConserves(t: Table, id: string, cap: int)
    requires Valid(t) && id in t.users
    ensures Total(PostBlind(t, id, cap)) == Total(t)
  {
    var p := t.users[id];
    var x := Min(cap, p.chips);
    ChipSumUpdate(t.users, t.order, id, p.(chips := p.chips - x, currentBet := x));
  }

  /** Posting both blinds keeps the total. */
  lemma PostBlindsConserves(t: Table)
    requires Valid(t)
    ensures Total(PostBlinds(t).table) == Total(t)
  {
    if !(t.dealerIndex.NaN? || |t.playersInHand| == 0) {
      var sbId := t.playersInHand[Ahead(t.dealerIndex.n, 1, |t.playersInHand|)];
      var bbId := t.playersInHand[Ahead(t.dealerIndex.n, 2, |t.playersInHand|)];
      var t1 := PostBlind(t, sbId, SmallBlind);
      PostBlindConserves(t, sbId, SmallBlind);
      ValidFrame(t, t1);
      PostBlindConserves(t1, bbId, BigBlind);
    }
  }

  /** Clearing the bets and dealing a street move no chips. */
  lemma ClearBetsConserves(t: Table)
    ensures Total(ClearBets(t)) == Total(t) && Total(DealStreet(t)) == Total(t)
  {
    ChipSumSame(ClearBets(t).users, t.users, t.order);
  }

  /** Crediting `amount` to each of `winners` adds `amount` per winner to the stacks. */
  lemma {:induction false} CreditSum(users: map<string, Player>, ids: seq<string>, winners: seq<string>, amount: int)
    requires Distinct(ids) && forall w :: w in winners ==> w in users && w in ids
    ensures ChipSum(Credit(users, winners, amount), ids) == ChipSum(users, ids) + amount * |winners|
    decreases |winners|
  {
    if winners != [] {
      var front := winners[..|winners| - 1];
      var w := winners[|winners| - 1];
      assert forall x :: x in front ==> x in winners;
      CreditSum(users, ids, front, amount);
      var u := Credit(users, front, amount);
      var u' := u[w := u[w].(chips := u[w].chips + amount)];
      assert Credit(users, winners, amount) == u';
      ChipSumUpdate(u, ids, w, u'[w]);
      var before := amount * |front|;
      assert ChipSum(u', ids) == ChipSum(users, ids) + before + amount;
      MulSucc(amount, |front|);
    }
  }

  /** `floor(a / k)` shares of `k` leave less than `k` over. */
  lemma DivBound(a: int, k: nat)
    requires k > 0
    ensures 0 <= a - (a / k) * k < k
  {
    assert a == (a / k) * k + a % k;
  }

  /**
   * `endRound` credits `floor(pot / k)` to each of its `k` winners without
   * emptying the pot, so the total grows by that much.
   */
  lemma EndRoundTotal(t: Table, winners: seq<string>)
    requires Valid(t) && forall w :: w in winners ==> w in t.users
    ensures var share := if |winners| > 0 then t.pot / |winners| else 0;
      && Total(EndRound(t, winners).table) == Total(t) + share * |winners|
      && (winners != [] ==> 0 <= t.pot - share * |winners| < |winners|)
  {
    if winners != [] {
      DivBound(t.pot, |winners|);
    }
    var share := if |winners| > 0 then t.pot / |winners| else 0;
    CreditSum(t.users, t.order, winners, share);
  }

  // ---------------------------------------------------------------------------
  // A new hand
  // ---------------------------------------------------------------------------

  /** `k` copies of `n` make at least `n`. */
  lemma {:induction false} MulAtLeast(k: nat, n: nat)
    requires k >= 1
    ensures k * n >= n
  {
    if k > 1 {
      MulAtLeast(k - 1, n);
      assert k * n == (k - 1) * n + n;
    }
  }

  /** Multiplying by `n` keeps a gap between `q' < q` of at least `n`. */
  lemma MulGap(q: int, q': int, n: nat)
    requires q > q'
    ensures q * n >= q' * n + n
  {
    MulAtLeast(q - q', n);
    assert (q - q') * n == q * n - q' * n;
  }

  /** The remainder is the unique `r` in `[0, n)` with `x == q * n + r`. */
  lemma ModUnique(x: int, q: int, r: nat, n: nat)
    requires n > 0 && r < n && x == q * n + r
    ensures x % n == r
  {
    var q', r' := x / n, x % n;
    assert x == q' * n + r';
    if q > q' {
      MulGap(q, q', n);
      assert false;
    } else if q' > q {
      MulGap(q', q, n);
      assert false;
    }
  }

  lemma ModNext(a: nat, n: nat)
    requires n > 0
    ensures (a % n + 1) % n == (a + 1) % n
  {
    var q, r := a / n, a % n;
    assert a == q * n + r;
    if r + 1 < n {
      ModUnique(a + 1, q, r + 1, n);
      ModUnique(r + 1, 0, r + 1, n);
    } else {
      assert a + 1 == (q + 1) * n + 0;
      ModUnique(a + 1, q + 1, 0, n);
      ModUnique(r + 1, 1, 0, n);
    }
  }

  /**
   * `postBlinds`: the player one seat after the dealer posts
   * `min(10, chips)`, the one two seats after posts `min(20, chips)` of what they
   * have left (the same player when the hand has one seat), the current bet is
   * the big blind actually posted, and the player three seats after the dealer acts first.
   */
  lemma PostBlindsFacts(t: Table)
    requires Valid(t) && t.dealerIndex.Int? && |t.playersInHand| > 0
    ensures var n := |t.playersInHand|; var d := t.dealerIndex.n;
      var sb := t.playersInHand[Ahead(d, 1, n)]; var bb := t.playersInHand[Ahead(d, 2, n)];
      var x := Min(SmallBlind, t.users[sb].chips);
      var left := if sb == bb then t.users[bb].chips - x else t.users[bb].chips;
      var y := Min(BigBlind, left);
      var r := PostBlinds(t);
      && r.outcome == Done
      && r.table.pot == t.pot + x + y
      && r.table.currentBet == y
      && r.table.currentPlayerIndex == Ahead(d, 3, n)
      && r.table.currentTurn == t.playersInHand[Ahead(d, 3, n)]
      && r.table.turnTimerArmed
      && r.table.users.Keys == t.users.Keys
      && (sb != bb ==> r.table.users[sb] == t.users[sb].(chips := t.users[sb].chips - x, currentBet := x))
      && r.table.users[bb] == t.users[bb].(chips := left - y, currentBet := y)
      && (forall id :: id in t.users && id != sb && id != bb ==> r.table.users[id] == t.users[id])
      && r.table == t.(users := r.table.users, pot := r.table.pot, currentBet := r.table.currentBet,
                       currentPlayerIndex := r.table.currentPlayerIndex, currentTurn := r.table.currentTurn,
                       turnTimerArmed := true)
  {
    var n := |t.playersInHand|;
    var d := t.dealerIndex.n;
    ModNext(d + 2, n);
    assert Ahead(Ahead(d, 2, n), 1, n) == Ahead(d, 3, n);
  }

  /** The blinds never take a stack below zero. */
  lemma BlindsNeverOverdraw(t: Table)
    requires Valid(t) && t.dealerIndex.Int? && |t.playersInHand| > 0
    requires forall id :: id in t.playersInHand ==> t.users[id].chips >= 0
    ensures forall id :: id in t.playersInHand ==> PostBlinds(t).table.users[id].chips >= 0
  {
    PostBlindsFacts(t);
  }

  /**
   * The deal of `startNewHand`: the players with chips, in joining order, are
   * dealt in with two cards, no bet and the folded flag cleared; everybody else
   * is left alone; the button moves on by one seat of the new hand.
   */
  lemma DealHandFacts(t: Table, js: seq<int>)
    requires Valid(t) && ShuffleOracle(js)
    ensures var t' := DealHand(t, js); var players := Eligible(t.users, t.order);
      && t'.playersInHand == players
      && (forall id :: id in players <==> id in t.users && t.users[id].chips > 0)
      && t'.users.Keys == t.users.Keys
      && (forall id :: id in players ==>
            t'.users[id] == t.users[id].(hand := t'.users[id].hand, currentBet := 0, isFolded := false)
            && |t'.users[id].hand| == 2)
      && (forall id :: id in t.users && id !in players ==> t'.users[id] == t.users[id])
      && t'.dealerIndex == NextDealer(t.dealerIndex, |players|)
      && t'.pot == 0 && t'.currentBet == 0 && t'.communityCards == [] && t'.lastRaiser == ""
      && t'.phase == Preflop && t'.roundStarted
      && t'.playersActedThisRound == {} && t'.playersAllIn == {}
  {
    var t1 := ClearHand(t, js);
    SeatFacts(t1.users, t1.deck, Eligible(t1.users, t1.order));
  }

  /** `startNewHand` throws exactly when the dealer index is NaN or nobody has chips. */
  lemma StartNewHandThrows(t: Table, js: seq<int>)
    requires Valid(t) && ShuffleOracle(js)
    ensures var r := StartNewHand(t, js);
      && (r.outcome == Threw <==> t.dealerIndex.NaN? || |Eligible(t.users, t.order)| == 0)
      && (r.outcome == Threw ==> r.table.dealerIndex.NaN? && r.table.roundStarted)
      && (r.outcome != Threw ==> r.outcome == Done)
  {
    DealHandFacts(t, js);
    DealHandValid(t, js);
    var t1 := DealHand(t, js);
    if !(t1.dealerIndex.NaN? || |t1.playersInHand| == 0) {
      PostBlindsFacts(t1);
    }
  }

  /** Once the dealer index is NaN, every later hand throws and it stays NaN. */
  lemma DealerNaNSticks(t: Table, js: seq<int>)
    requires Valid(t) && ShuffleOracle(js) && t.dealerIndex.NaN?
    ensures StartNewHand(t, js).outcome == Threw && StartNewHand(t, js).table.dealerIndex.NaN?
  {
    StartNewHandThrows(t, js);
  }

  /** After a hand that threw, the round flag stays set, so `startGame` is refused from then on. */
  lemma ThrowBlocksStart(t: Table, js: seq<int>, js': seq<int>)
    requires Good(t) && ShuffleOracle(js) && ShuffleOracle(js') && StartNewHand(t, js).outcome == Threw
    ensures Valid(StartNewHand(t, js).table)
    ensures StartGame(StartNewHand(t, js).table, js').outcome.Rejected?
  {
    StartNewHandThrows(t, js);
    StartNewHandGood(t, js);
  }

  /**
   * A hand that starts: the dealer moves to `(d + 1) % n` over the `n` players
   * dealt in, the pot holds just the two blinds, the player three seats after the new
   * dealer acts first and nobody has acted yet. The chips left in the pot of the
   * previous hand are gone.
   */
  lemma StartNewHandFacts(t: Table, js: seq<int>)
    requires Valid(t) && ShuffleOracle(js) && t.dealerIndex.Int? && |Eligible(t.users, t.order)| > 0
    ensures var r := StartNewHand(t, js); var hand := Eligible(t.users, t.order); var n := |hand|;
      && r.outcome == Done
      && r.table.playersInHand == hand
      && r.table.dealerIndex == NextDealer(t.dealerIndex, n) && r.table.dealerIndex.Int?
      && r.table.currentPlayerIndex == Ahead(r.table.dealerIndex.n, 3, n)
      && r.table.currentTurn == hand[r.table.currentPlayerIndex]
      && r.table.phase == Preflop && r.table.communityCards == [] && r.table.playersActedThisRound == {}
      && Total(r.table) == Total(t) - t.pot
  {
    DealHandFacts(t, js);
    DealHandValid(t, js);
    var t1 := DealHand(t, js);
    StartNewHandSplit(t, js);
    PostBlindsFacts(t1);
    PostBlindsConserves(t1);
    DealHandTotal(t, js);
  }

  lemma StartNewHandSplit(t: Table, js: seq<int>)
    requires Valid(t) && ShuffleOracle(js) && t.dealerIndex.Int? && |Eligible(t.users, t.order)| > 0
    ensures Valid(DealHand(t, js))
    ensures StartNewHand(t, js) == Res(Done, PostBlinds(DealHand(t, js)).table.(playersActedThisRound := {}))
  {
    DealHandValid(t, js);
    DealHandFacts(t, js);
  }

  /** Dealing in moves no chips, but resets the pot. */
  lemma DealHandTotal(t: Table, js: seq<int>)
    requires Valid(t) && ShuffleOracle(js)
    ensures Total(DealHand(t, js)) == Total(t) - t.pot
  {
    DealHandFacts(t, js);
    ChipSumSame(DealHand(t, js).users, t.users, t.order);
  }

  // ---------------------------------------------------------------------------
  // Turn rotation
  // ---------------------------------------------------------------------------

  /** Going round `m` seats in two goes ends where going round in one go does. */
  lemma AheadTwice(i: int, m: nat, n: nat)
    requires n > 0
    ensures Ahead(Ahead(i, 1, n), m, n) == Ahead(i, m + 1, n)
  {
    var a := i + 1;
    var q, r := a / n, a % n;
    var q2, r2 := (r + m) / n, (r + m) % n;
    assert a + m == (q + q2) * n + r2;
    ModUnique(a + m, q + q2, r2, n);
  }

  /** Going round 1 to `n` seats from any seat reaches every seat. */
  lemma AheadCovers(i: int, k: nat, n: nat)
    requires k < n
    ensures var m := (k - i - 1) % n + 1; 1 <= m <= n && Ahead(i, m, n) == k
  {
    var m := (k - i - 1) % n + 1;
    var q := (k - i - 1) / n;
    assert k - i - 1 == q * n + (m - 1);
    assert i + m == k - q * n;
    ModUnique(i + m, -q, k, n);
  }

  /**
   * The bounded seat search finds nothing exactly when none of the next `fuel`
   * seats is live, and otherwise stops at the first live one.
   */
  lemma {:induction false} NextLiveSpec(users: map<string, Player>, ids: seq<string>, i: int, fuel: nat)
    requires |ids| > 0 && i >= -1
    ensures var n := |ids|; var r := NextLive(users, ids, i, fuel);
      && (r.None? <==> forall m :: 1 <= m <= fuel ==> !Live(users, ids[Ahead(i, m, n)]))
      && (r.Some? ==> exists s :: 1 <= s <= fuel && r.value == Ahead(i, s, n)
                        && forall m :: 1 <= m < s ==> !Live(users, ids[Ahead(i, m, n)]))
    decreases fuel
  {
    var n := |ids|;
    if fuel > 0 {
      var j := Ahead(i, 1, n);
      if !Live(users, ids[j]) {
        NextLiveSpec(users, ids, j, fuel - 1);
        forall m | 1 <= m <= fuel - 1
          ensures Ahead(j, m, n) == Ahead(i, m + 1, n)
        {
          AheadTwice(i, m, n);
        }
        var r := NextLive(users, ids, j, fuel - 1);
        assert (forall m :: 1 <= m <= fuel ==> !Live(users, ids[Ahead(i, m, n)]))
          <==> (forall m :: 1 <= m <= fuel - 1 ==> !Live(users, ids[Ahead(j, m, n)])) by {
          forall m | 1 <= m <= fuel - 1 ensures ids[Ahead(j, m, n)] == ids[Ahead(i, m + 1, n)] { }
          assert forall m :: 2 <= m <= fuel ==> Ahead(i, m, n) == Ahead(j, m - 1, n);
        }
        if r.Some? {
          var s :| 1 <= s <= fuel - 1 && r.value == Ahead(j, s, n)
                   && forall m :: 1 <= m < s ==> !Live(users, ids[Ahead(j, m, n)]);
          assert r.value == Ahead(i, s + 1, n);
          assert forall m :: 2 <= m < s + 1 ==> Ahead(i, m, n) == Ahead(j, m - 1, n);
        }
      }
    }
  }

  /**
   * The rotation of `endTurn` hangs exactly when no seat of the hand is live;
   * otherwise the turn passes to the first live seat after `currentPlayerIndex`.
   */
  lemma RotateFacts(t: Table)
    requires t.currentPlayerIndex >= -1
    ensures var n := |t.playersInHand|; var r := Rotate(t);
      && (r.outcome == Hung <==> forall k :: 0 <= k < n ==> !Live(t.users, t.playersInHand[k]))
      && (r.outcome == Hung ==> r.table == t)
      && (r.outcome != Hung ==>
            var j := r.table.currentPlayerIndex;
            && r.outcome == Done
            && 0 <= j < n && Live(t.users, t.playersInHand[j])
            && r.table == t.(currentPlayerIndex := j, currentTurn := t.playersInHand[j], turnTimerArmed := true)
            && exists s :: 1 <= s <= n && j == Ahead(t.currentPlayerIndex, s, n)
                 && forall m :: 1 <= m < s ==> !Live(t.users, t.playersInHand[Ahead(t.currentPlayerIndex, m, n)]))
  {
    var n := |t.playersInHand|;
    if n > 0 {
      NextLiveSpec(t.users, t.playersInHand, t.currentPlayerIndex, n);
      if NextLive(t.users, t.playersInHand, t.currentPlayerIndex, n).None? {
        forall k | 0 <= k < n ensures !Live(t.users, t.playersInHand[k]) {
          AheadCovers(t.currentPlayerIndex, k, n);
        }
      }
    }
  }

  // ---------------------------------------------------------------------------
  // Streets and the showdown
  // ---------------------------------------------------------------------------

  /** The street is complete exactly when somebody can still act and everybody who can has acted. */
  lemma StreetCompleteMeans(t: Table)
    requires Valid(t)
    ensures StreetComplete(t) <==>
      (exists id :: id in t.playersInHand && !t.users[id].isFolded && id !in t.playersAllIn)
      && forall id :: id in t.playersInHand && !t.users[id].isFolded && id !in t.playersAllIn ==>
           id in t.playersActedThisRound
  {
    var active := ActivePlayers(t);
    if |active| > 0 {
      assert active[0] in active;
    }
    if exists id :: id in t.playersInHand && !t.users[id].isFolded && id !in t.playersAllIn {
      var id :| id in t.playersInHand && !t.users[id].isFolded && id !in t.playersAllIn;
      assert id in active;
    }
  }

  /** Who is still in depends only on the folded flags. */
  lemma {:induction false} FoldsAgree(u1: map<string, Player>, u2: map<string, Player>, ids: seq<string>)
    requires forall id :: id in ids ==> id in u1 && id in u2 && u1[id].isFolded == u2[id].isFolded
    ensures NotFolded(u1, ids) == NotFolded(u2, ids) && FirstNotFolded(u1, ids) == FirstNotFolded(u2, ids)
  {
    if ids != [] {
      assert forall id :: id in ids[1..] ==> id in ids;
      FoldsAgree(u1, u2, ids[1..]);
    }
  }

  /** Closing a street zeroes every player's bet and the table's bet, and nothing else. */
  lemma ClearBetsEffect(t: Table)
    requires Valid(t)
    ensures var t' := ClearBets(t);
      && (forall id :: id in t.users ==> t'.users[id] == t.users[id].(currentBet := 0))
      && t' == t.(users := t'.users, currentBet := 0)
  {
  }

  /**
   * After the river every player of the hand who has not folded shares the pot:
   * each is credited `floor(pot / k)` for the `k` of them. The pot itself is
   * left as it was.
   */
  lemma RiverShowdown(t: Table)
    requires Valid(t) && t.phase == River
    ensures var w := NotFolded(t.users, t.playersInHand); var share := if |w| > 0 then t.pot / |w| else 0;
      var r := ProceedToNextPhase(t);
      && r.outcome == Done
      && (forall id :: id in w <==> id in t.playersInHand && !t.users[id].isFolded)
      && r.table.users.Keys == t.users.Keys
      && (forall id :: id in t.users ==>
            r.table.users[id] == t.users[id].(chips := t.users[id].chips + (if id in w then share else 0), currentBet := 0))
      && r.table.pot == t.pot && r.table.currentBet == 0 && r.table.phase == River
      && r.table.pendingNextHand == t.pendingNextHand + 1 && !r.table.turnTimerArmed
  {
    var t1 := ClearBets(t);
    ClearBetsValid(t);
    FoldsAgree(t1.users, t.users, t.playersInHand);
    var w := NotFolded(t.users, t.playersInHand);
    assert ProceedToNextPhase(t) == EndRound(t1, w);
    EndRoundEffect(t1, w);
  }

  /**
   * Before the river, closing a street deals the next one and hands the turn
   * to the first player of the hand who has not folded, with fresh bets and
   * nobody marked as having acted.
   */
  lemma StreetOpens(t: Table)
    requires Valid(t) && t.phase in {Preflop, Flop, Turn}
    requires FirstNotFolded(t.users, t.playersInHand) >= 0
    ensures var k := FirstNotFolded(t.users, t.playersInHand); var r := ProceedToNextPhase(t);
      && r.outcome == Done
      && r.table.phase == (if t.phase == Preflop then Flop else if t.phase == Flop then Turn else River)
      && |r.table.communityCards| == |t.communityCards| + (if t.phase == Preflop then 3 else 1)
      && r.table.communityCards[..|t.communityCards|] == t.communityCards
      && r.table.currentPlayerIndex == k && r.table.currentTurn == t.playersInHand[k]
      && !t.users[t.playersInHand[k]].isFolded
      && r.table.playersActedThisRound == {} && r.table.turnTimerArmed
      && r.table.currentBet == 0 && r.table.users.Keys == t.users.Keys
      && (forall id :: id in t.users ==> r.table.users[id] == t.users[id].(currentBet := 0))
      && r.table.pot == t.pot && r.table.playersInHand == t.playersInHand
  {
    var t1 := ClearBets(t);
    FoldsAgree(t1.users, t.users, t.playersInHand);
    DealStreetCards(t1);
    assert DealStreet(t1).users == t1.users && DealStreet(t1).playersInHand == t.playersInHand;
  }

  /** With everybody in the hand folded, the street still closes and `endRound([])` pays nobody. */
  lemma StreetNobodyLeft(t: Table)
    requires Valid(t) && t.phase in {Preflop, Flop, Turn}
    requires FirstNotFolded(t.users, t.playersInHand) == -1
    ensures var r := ProceedToNextPhase(t);
      && r.outcome == Done && r.table.currentPlayerIndex == -1 && r.table.users.Keys == t.users.Keys
      && (forall id :: id in t.users ==> r.table.users[id] == t.users[id].(currentBet := 0))
  {
    var t1 := ClearBets(t);
    FoldsAgree(t1.users, t.users, t.playersInHand);
    DealStreetCards(t1);
    var t2 := DealStreet(t1);
    EndRoundEffect(t2.(currentPlayerIndex := -1), []);
  }

  // ---------------------------------------------------------------------------
  // Folding and leaving
  // ---------------------------------------------------------------------------

  /** `t'` has the same players and the same hand as `t`, each folded exactly when they were. */
  ghost predicate SameFolds(t: Table, t': Table)
  {
    && t'.users.Keys == t.users.Keys && t'.playersInHand == t.playersInHand
    && forall id :: id in t.users ==> t'.users[id].isFolded == t.users[id].isFolded
  }

  lemma EndRoundKeepsFolds(t: Table, winners: seq<string>)
    ensures SameFolds(t, EndRound(t, winners).table)
  {
    var share := if |winners| > 0 then t.pot / |winners| else 0;
    CreditSpec(t.users, winners, share);
  }

  lemma ProceedKeepsFolds(t: Table)
    requires Valid(t)
    ensures SameFolds(t, ProceedToNextPhase(t).table)
  {
    var t1 := ClearBets(t);
    ClearBetsKeepsFolds(t);
    if t1.phase == River {
      EndRoundKeepsFolds(t1, DetermineWinners(t1));
    } else {
      OpenStreetKeepsFolds(DealStreet(t1));
      assert SameFolds(t1, DealStreet(t1));
    }
  }

  lemma ClearBetsKeepsFolds(t: Table)
    ensures SameFolds(t, ClearBets(t))
  {
  }

  lemma OpenStreetKeepsFolds(t: Table)
    requires forall id :: id in t.playersInHand ==> id in t.users
    ensures SameFolds(t, OpenStreet(t).table)
  {
    if FirstNotFolded(t.users, t.playersInHand) == -1 {
      EndRoundKeepsFolds(t.(currentPlayerIndex := -1), []);
    }
  }

  /** Ending a turn never folds or unfolds anybody, and keeps the hand. */
  lemma EndTurnKeepsFolds(t: Table)
    requires Valid(t)
    ensures SameFolds(t, EndTurn(t).table)
  {
    var t0 := t.(turnTimerArmed := false);
    if StreetComplete(t0) {
      ProceedKeepsFolds(t0);
    }
  }

  /** A fold leaves the player folded, so a second fold from them is ignored. */
  lemma FoldIdempotent(t: Table, sender: string)
    requires Good(t) && Fold(t, sender).outcome != Ignored
    ensures Valid(Fold(t, sender).table)
    ensures sender in Fold(t, sender).table.users && Fold(t, sender).table.users[sender].isFolded
    ensures Fold(Fold(t, sender).table, sender) == Res(Ignored, Fold(t, sender).table)
  {
    FoldGood(t, sender);
    FoldAccepted(t, sender);
    var t1 := FoldOut(t, sender);
    if |t1.playersInHand| == 1 {
      EndRoundKeepsFolds(t1, [t1.playersInHand[0]]);
    } else {
      EndTurnKeepsFolds(t1);
    }
  }

  /**
   * `onLeave` of a seated player: they stay in `users`, folded, and are no
   * longer in the hand (unless their turn's rotation hangs).
   */
  lemma LeaveFacts(t: Table, id: string)
    requires Valid(t) && id in t.users
    ensures var r := Leave(t, id);
      r.outcome != Hung ==>
        && r.table.users.Keys == t.users.Keys
        && r.table.users[id].isFolded
        && id !in r.table.playersInHand
        && (forall x :: x in r.table.playersInHand <==> x in t.playersInHand && x != id)
  {
    var t1 := t.(users := t.users[id := t.users[id].(isFolded := true)]);
    ValidFrame(t, t1);
    var r1 := if t.currentTurn == id then EndTurn(t1) else Res(Done, t1);
    if t.currentTurn == id {
      EndTurnKeepsFolds(t1);
    }
    if r1.outcome != Hung {
      assert r1.table.playersInHand == t.playersInHand;
      RemoveFirstIsWithout(t.playersInHand, id);
      var t2 := r1.table.(playersInHand := RemoveFirst(r1.table.playersInHand, id));
      if |t2.playersInHand| == 1 && t2.roundStarted {
        EndRoundKeepsFolds(t2, [t2.playersInHand[0]]);
      }
    }
  }

  /** A player who is not seated leaving only settles a hand that is down to one player. */
  lemma LeaveUnseated(t: Table, id: string)
    requires Valid(t) && id !in t.users
    ensures Leave(t, id) == SettleIfAlone(t)
  {
  }

  // ---------------------------------------------------------------------------
  // Joining, the timers and the button
  // ---------------------------------------------------------------------------

  /**
   * `onJoin` seats a fresh player under the session id, named after the option
   * or `Player-` and the first four characters of the id, with the chips option
   * or 1000 chips; a session already seated is replaced in place, keeping its seat.
   */
  lemma JoinFacts(t: Table, id: string, name: string, chips: int)
    ensures var r := Join(t, id, name, chips); var p := r.table.users[id];
      && r.outcome == Done
      && r.table.users.Keys == t.users.Keys + {id}
      && (forall x :: x in t.users && x != id ==> r.table.users[x] == t.users[x])
      && p.sessionId == id && p.hand == [] && p.currentBet == 0 && !p.isFolded
      && p.name == (if name != "" then name else "Player-" + id[..Min(4, |id|)])
      && p.chips == (if chips != 0 then chips else 1000)
      && r.table.order == (if id in t.users then t.order else t.order + [id])
      && r == Res(Done, t.(users := r.table.users, order := r.table.order))
  {
  }

  /**
   * The turn timer: a disarmed timer does nothing; an armed one folds the player
   * whose turn it is when they are seated and have not folded, and otherwise only
   * runs out.
   */
  lemma TurnTimeoutFacts(t: Table)
    requires Valid(t)
    ensures !t.turnTimerArmed ==> TurnTimeout(t) == Res(Ignored, t)
    ensures t.turnTimerArmed && Live(t.users, t.currentTurn) ==>
      && CanAct(t.(turnTimerArmed := false), t.currentTurn)
      && TurnTimeout(t) == Fold(t.(turnTimerArmed := false), t.currentTurn)
      && TurnTimeout(t).outcome != Ignored
    ensures t.turnTimerArmed && !Live(t.users, t.currentTurn) ==>
      TurnTimeout(t) == Res(Done, t.(turnTimerArmed := false))
  {
    if t.turnTimerArmed && Live(t.users, t.currentTurn) {
      FoldAccepted(t.(turnTimerArmed := false), t.currentTurn);
    }
  }

  /**
   * The next-hand callback: with two or more players seated it starts a hand,
   * otherwise it clears the round flag. Each scheduled callback runs once.
   */
  lemma NextHandDelayFacts(t: Table, js: seq<int>)
    requires Valid(t) && ShuffleOracle(js)
    ensures t.pendingNextHand == 0 ==> NextHandDelay(t, js) == Res(Ignored, t)
    ensures t.pendingNextHand > 0 && |t.users| >= 2 ==>
      NextHandDelay(t, js) == StartNewHand(t.(pendingNextHand := t.pendingNextHand - 1), js)
    ensures t.pendingNextHand > 0 && |t.users| < 2 ==>
      NextHandDelay(t, js) == Res(Done, t.(pendingNextHand := t.pendingNextHand - 1, roundStarted := false))
  {
  }

  /** The button moves one seat on; with nobody dealt in, `x % 0` makes it NaN. */
  lemma NextDealerStep(d: Num, n: nat)
    ensures d.Int? && n > 0 ==> NextDealer(d, n) == Int((d.n + 1) % n)
    ensures d.NaN? || n == 0 ==> NextDealer(d, n) == NaN
    ensures d.Int? && d.n >= 0 && n > 0 ==> 0 <= NextDealer(d, n).n < n
  {
  }

  // ---------------------------------------------------------------------------
  // Behaviour of the code as written
  // ---------------------------------------------------------------------------

  /**
   * `endRound` pays out but does not empty the pot, end the round or move the
   * turn: the player whose action closed the river may act again.
   */
  lemma EndRoundKeepsTurn(t: Table, winners: seq<string>)
    ensures var t' := EndRound(t, winners).table;
      && t'.pot == t.pot && t'.currentTurn == t.currentTurn && t'.phase == t.phase
      && t'.roundStarted == t.roundStarted && t'.playersActedThisRound == t.playersActedThisRound
      && t'.playersInHand == t.playersInHand && t'.playersAllIn == t.playersAllIn
      && t'.currentBet == t.currentBet
  {
  }

  /**
   * The showdown can be paid twice: after the river closes, the player whose
   * turn it still is can check again, which closes the river once more and
   * credits every winner their share a second time.
   */
  lemma ShowdownRepeats(t: Table)
    requires Valid(t) && t.phase == River && StreetComplete(t) && Live(t.users, t.currentTurn)
    ensures var t1 := ProceedToNextPhase(t).table; var s := t.currentTurn;
      var w := NotFolded(t.users, t.playersInHand); var share := if |w| > 0 then t.pot / |w| else 0;
      && Valid(t1) && CanAct(t1, s)
      && (var r := Check(t1, s);
          && r.outcome == Done
          && r.table.pendingNextHand == t.pendingNextHand + 2
          && forall id :: id in w ==> id in r.table.users && r.table.users[id].chips == t.users[id].chips + 2 * share)
  {
    var s := t.currentTurn;
    AfterShowdown(t);
    var t1 := ProceedToNextPhase(t).table;
    var t2 := t1.(playersActedThisRound := t1.playersActedThisRound + {s}, turnTimerArmed := false);
    StillComplete(t, t2);
    CheckClosesRiver(t1, s);
    RiverShowdown(t2);
    FoldsAgree(t2.users, t.users, t.playersInHand);
  }

  /** Right after the showdown the table is still on the river, with no bets and the same turn. */
  lemma AfterShowdown(t: Table)
    requires Valid(t) && t.phase == River && StreetComplete(t) && Live(t.users, t.currentTurn)
    ensures var t1 := ProceedToNextPhase(t).table; var s := t.currentTurn;
      var w := NotFolded(t.users, t.playersInHand); var share := if |w| > 0 then t.pot / |w| else 0;
      && Valid(t1) && CanAct(t1, s) && t1.phase == River && t1.currentBet == 0 && t1.users[s].currentBet == 0
      && t1.pot == t.pot && t1.pendingNextHand == t.pendingNextHand + 1
      && SameFolds(t, t1) && t1.playersAllIn == t.playersAllIn && t1.playersActedThisRound == t.playersActedThisRound
      && (forall id :: id in w ==> id in t1.users && t1.users[id].chips == t.users[id].chips + share)
  {
    RiverShowdown(t);
    ClearBetsValid(t);
    ValidFrame(ClearBets(t), ProceedToNextPhase(t).table);
    ProceedKeepsFolds(t);
  }

  /** A completed street stays complete while nobody folds, goes all-in or is forgotten as having acted. */
  lemma StillComplete(t: Table, t': Table)
    requires Valid(t) && Valid(t') && StreetComplete(t) && SameFolds(t, t')
    requires t'.playersAllIn == t.playersAllIn && t.playersActedThisRound <= t'.playersActedThisRound
    ensures StreetComplete(t')
  {
    StreetCompleteMeans(t);
    StreetCompleteMeans(t');
  }

  /** On a completed river, a check by the player to act closes the river again. */
  lemma CheckClosesRiver(t1: Table, s: string)
    requires Valid(t1) && t1.phase == River && CanAct(t1, s) && t1.users[s].currentBet >= t1.currentBet
    requires StreetComplete(t1.(playersActedThisRound := t1.playersActedThisRound + {s}, turnTimerArmed := false))
    ensures var t2 := t1.(playersActedThisRound := t1.playersActedThisRound + {s}, turnTimerArmed := false);
      Check(t1, s) == ProceedToNextPhase(t2)
  {
    CheckAccepted(t1, s);
  }

  /**
   * A fold takes the folder out of the hand before the rotation steps on from
   * their old index: with three players in the hand and the first to act
   * folding, the turn goes to the third and the second is passed over.
   */
  lemma FoldSkipsNextSeat(t: Table, a: string, b: string, c: string)
    requires Valid(t) && t.playersInHand == [a, b, c] && t.currentPlayerIndex == 0 && CanAct(t, a)
    requires Live(t.users, b) && Live(t.users, c) && b !in t.playersActedThisRound && b !in t.playersAllIn
    ensures Fold(t, a).outcome == Done && Fold(t, a).table.currentTurn == c
  {
    FoldAccepted(t, a);
    HandOfThree(t.playersInHand, a, b, c);
    var t0 := FoldOut(t, a).(turnTimerArmed := false);
    assert !StreetComplete(t0) by {
      StreetCompleteMeans(t0);
      assert b in t0.playersInHand;
    }
    RotateFromFirstOfTwo(t0);
  }

  lemma RotateFromFirstOfTwo(t: Table)
    requires t.currentPlayerIndex == 0 && |t.playersInHand| == 2 && Live(t.users, t.playersInHand[1])
    ensures Rotate(t).outcome == Done && Rotate(t).table.currentTurn == t.playersInHand[1]
  {
    assert Ahead(0, 1, 2) == 1;
    assert NextLive(t.users, t.playersInHand, 0, 2) == Some(1);
  }

  lemma HandOfThree(ids: seq<string>, a: string, b: string, c: string)
    requires ids == [a, b, c] && Distinct(ids)
    ensures Without(ids, a) == [b, c] && a != b && a != c
  {
    DistinctCons(a, [b, c]);
    assert ids == [a] + [b, c] && ids[1..] == [b, c];
    WithoutAbsent([b, c], a);
  }

  // ---------------------------------------------------------------------------
  // Cards
  // ---------------------------------------------------------------------------

  /** The hole cards of `ids`, in seating order. */
  function Holes(users: map<string, Player>, ids: seq<string>): seq<string>
    requires forall id :: id in ids ==> id in users
  {
    if ids == [] then [] else users[ids[0]].hand + Holes(users, ids[1..])
  }

  /** Seating deals the front of the deck, two cards a player, in seating order. */
  lemma {:induction false} SeatCards(users: map<string, Player>, deck: seq<string>, ids: seq<string>)
    requires forall id :: id in ids ==> id in users
    requires Distinct(ids) && |deck| >= 2 * |ids|
    ensures var (u, d) := Seat(users, deck, ids);
      (forall id :: id in ids ==> id in u) && Holes(u, ids) + d == deck
    decreases |ids|
  {
    if ids != [] {
      var users' := users[ids[0] := users[ids[0]].(hand := deck[..2], currentBet := 0, isFolded := false)];
      SeatFirst(users, deck, ids);
      var r := Seat(users', deck[2..], ids[1..]);
      assert (forall x :: x in ids[1..] ==> x in r.0) && Holes(r.0, ids[1..]) + r.1 == deck[2..] by {
        DistinctCons(ids[0], ids[1..]);
        assert ids == [ids[0]] + ids[1..];
        SeatCards(users', deck[2..], ids[1..]);
      }
      assert ids[0] in r.0 && Holes(r.0, ids) == deck[..2] + Holes(r.0, ids[1..]) by {
        DistinctCons(ids[0], ids[1..]);
        assert ids == [ids[0]] + ids[1..];
        SeatStepHoles(users', deck[2..], ids);
      }
      SplitTwo(deck, Holes(r.0, ids[1..]), r.1);
    }
  }

  /** Two cards off the top, then the rest: the whole deck again. */
  lemma SplitTwo(deck: seq<string>, rest: seq<string>, d: seq<string>)
    requires |deck| >= 2 && rest + d == deck[2..]
    ensures (deck[..2] + rest) + d == deck
  {
    assert (deck[..2] + rest) + d == deck[..2] + (rest + d);
  }

  /** Seating the first player deals them the top two cards of the deck. */
  lemma SeatFirst(users: map<string, Player>, deck: seq<string>, ids: seq<string>)
    requires ids != [] && |deck| >= 2 && forall id :: id in ids ==> id in users
    ensures Seat(users, deck, ids) ==
      Seat(users[ids[0] := users[ids[0]].(hand := deck[..2], currentBet := 0, isFolded := false)], deck[2..], ids[1..])
  {
    var (c1, d1) := Deal(deck);
    var (c2, d2) := Deal(d1);
    assert [c1, c2] == deck[..2] && d2 == deck[2..];
  }

  /** The first player seated keeps the two cards dealt to them while the rest are seated. */
  lemma SeatStepHoles(users': map<string, Player>, d2: seq<string>, ids: seq<string>)
    requires ids != [] && ids[0] !in ids[1..] && forall id :: id in ids ==> id in users'
    requires var u := Seat(users', d2, ids[1..]).0; (forall id :: id in ids[1..] ==> id in u)
    ensures var u := Seat(users', d2, ids[1..]).0;
      ids[0] in u && Holes(u, ids) == users'[ids[0]].hand + Holes(u, ids[1..])
  {
    assert forall x :: x in ids[1..] ==> x in ids;
    SeatFacts(users', d2, ids[1..]);
  }

  /**
   * When the deck covers two cards for each player dealt in, the hole cards
   * and the rest of the deck are the freshly shuffled deck: no card is dealt twice.
   */
  lemma DealHandCards(t: Table, js: seq<int>)
    requires Valid(t) && ShuffleOracle(js) && 2 * |Eligible(t.users, t.order)| <= DeckSize
    ensures var t' := DealHand(t, js);
      && (forall id :: id in t'.playersInHand ==> id in t'.users)
      && Holes(t'.users, t'.playersInHand) + t'.deck == ShuffledDeck(js)
      && Distinct(Holes(t'.users, t'.playersInHand) + t'.deck)
  {
    var t1 := ClearHand(t, js);
    ShuffledDeckIsPermutation(js);
    SeatCards(t1.users, t1.deck, Eligible(t1.users, t1.order));
  }

  /** Dealing one card moves the front of the deck onto the end of `c`. */
  lemma DealOnto(c: seq<string>, deck: seq<string>)
    requires deck != []
    ensures (c + [Deal(deck).0]) + Deal(deck).1 == c + deck
  {
    assert deck == [deck[0]] + deck[1..];
  }

  /** A street moves cards from the front of the deck to the community cards, when the deck has them. */
  lemma DealStreetKeepsCards(t: Table)
    requires t.phase == Preflop ==> |t.deck| >= 3
    requires t.phase in {Flop, Turn} ==> |t.deck| >= 1
    ensures DealStreet(t).communityCards + DealStreet(t).deck == t.communityCards + t.deck
  {
    match t.phase
    case Preflop =>
      var (c1, d1) := Deal(t.deck);
      var (c2, d2) := Deal(d1);
      var (c3, d3) := Deal(d2);
      DealOnto(t.communityCards, t.deck);
      DealOnto(t.communityCards + [c1], d1);
      DealOnto(t.communityCards + [c1] + [c2], d2);
      assert t.communityCards + [c1, c2, c3] == t.communityCards + [c1] + [c2] + [c3];
    case Flop => DealOnto(t.communityCards, t.deck);
    case Turn => DealOnto(t.communityCards, t.deck);
    case _ =>
  }

  /** Every card on the table: the hole cards of the players in the hand, the board, then the deck. */
  function Cards(t: Table): seq<string>
    requires forall id :: id in t.playersInHand ==> id in t.users
  {
    Holes(t.users, t.playersInHand) + t.communityCards + t.deck
  }

  /**
   * The card invariant: the cards on the table are tokens of the fresh deck,
   * none of them twice, and the deck still holds the cards the board lacks.
   */
  ghost predicate CardsOk(t: Table)
  {
    && (forall id :: id in t.playersInHand ==> id in t.users)
    && multiset(Cards(t)) <= multiset(FreshDeck())
    && |t.communityCards| + |t.deck| >= 5
  }

  /** Under the card invariant no card is on the table twice, and each is one of the 52 tokens. */
  lemma CardsOkMeans(t: Table)
    requires CardsOk(t)
    ensures Distinct(Cards(t))
    ensures forall c :: c in Cards(t) ==> c in FreshDeck()
  {
    FreshDeckDistinct();
    forall c | c in Cards(t)
      ensures c in FreshDeck()
    {
      assert multiset(Cards(t))[c] > 0;
    }
  }

  /** Keeping each hand or emptying it never adds a hole card. */
  lemma {:induction false} HolesShrink(u: map<string, Player>, u': map<string, Player>, ids: seq<string>)
    requires forall id :: id in ids ==> id in u && id in u' && (u'[id].hand == u[id].hand || u'[id].hand == [])
    ensures multiset(Holes(u', ids)) <= multiset(Holes(u, ids))
  {
    if ids != [] {
      assert forall id :: id in ids[1..] ==> id in ids;
      HolesShrink(u, u', ids[1..]);
    }
  }

  /** Filtering a player out of the hand drops their hole cards and keeps the others'. */
  lemma {:induction false} HolesWithout(u: map<string, Player>, ids: seq<string>, x: string)
    requires forall id :: id in ids ==> id in u
    ensures multiset(Holes(u, Without(ids, x))) <= multiset(Holes(u, ids))
  {
    if ids != [] {
      assert forall id :: id in ids[1..] ==> id in ids;
      HolesWithout(u, ids[1..], x);
      var rest := Without(ids[1..], x);
      if ids[0] != x {
        assert ([ids[0]] + rest)[1..] == rest;
      }
    }
  }

  /** Two cards for each listed player. */
  lemma {:induction false} HolesLength(u: map<string, Player>, ids: seq<string>)
    requires forall id :: id in ids ==> id in u && |u[id].hand| == 2
    ensures |Holes(u, ids)| == 2 * |ids|
  {
    if ids != [] {
      assert forall id :: id in ids[1..] ==> id in ids;
      HolesLength(u, ids[1..]);
    }
  }

  /** A step that keeps the hand, the board and the deck, and keeps or empties each hand, keeps the invariant. */
  lemma CardsKept(t: Table, t': Table)
    requires CardsOk(t)
    requires t'.playersInHand == t.playersInHand && t'.communityCards == t.communityCards && t'.deck == t.deck
    requires forall id :: id in t.playersInHand ==>
      id in t'.users && (t'.users[id].hand == t.users[id].hand || t'.users[id].hand == [])
    ensures CardsOk(t')
  {
    HolesShrink(t.users, t'.users, t.playersInHand);
  }

  /** Filtering a player out of the hand keeps the invariant. */
  lemma CardsDrop(t: Table, x: string)
    requires CardsOk(t)
    ensures CardsOk(t.(playersInHand := Without(t.playersInHand, x)))
  {
    HolesWithout(t.users, t.playersInHand, x);
  }

  /** At most 23 players are seated, so a hand dealt now leaves five cards for the board. */
  ghost predicate RoomForBoard(t: Table)
  {
    2 * |t.order| + 5 <= DeckSize
  }

  /**
   * Dealing a hand at a table of at most 23 establishes the card invariant:
   * the hole cards and the deck are the 52 shuffled tokens.
   */
  lemma DealHandCardsOk(t: Table, js: seq<int>)
    requires Valid(t) && ShuffleOracle(js) && RoomForBoard(t)
    ensures CardsOk(DealHand(t, js))
  {
    var t' := DealHand(t, js);
    DealHandFacts(t, js);
    DealHandCards(t, js);
    ShuffledDeckIsPermutation(js);
    FreshCards(t', ShuffledDeck(js));
  }

  /** A table whose board is empty and whose hole cards and deck are a full deck of tokens, two cards a player. */
  lemma FreshCards(t: Table, deck: seq<string>)
    requires forall id :: id in t.playersInHand ==> id in t.users && |t.users[id].hand| == 2
    requires t.communityCards == [] && Holes(t.users, t.playersInHand) + t.deck == deck
    requires |deck| == DeckSize && multiset(deck) == multiset(FreshDeck())
    requires 2 * |t.playersInHand| + 5 <= DeckSize
    ensures CardsOk(t)
  {
    HolesLength(t.users, t.playersInHand);
    var h := Holes(t.users, t.playersInHand);
    assert h + [] == h;
    assert Cards(t) == deck;
  }

  lemma EndRoundCards(t: Table, winners: seq<string>)
    requires CardsOk(t)
    ensures CardsOk(EndRound(t, winners).table)
  {
    var share := if |winners| > 0 then t.pot / |winners| else 0;
    CreditSpec(t.users, winners, share);
    CardsKept(t, EndRound(t, winners).table);
  }

  lemma ClearBetsCards(t: Table)
    requires CardsOk(t)
    ensures CardsOk(ClearBets(t))
  {
    CardsKept(t, ClearBets(t));
  }

  lemma OpenStreetCards(t: Table)
    requires CardsOk(t)
    ensures CardsOk(OpenStreet(t).table)
  {
    var k := FirstNotFolded(t.users, t.playersInHand);
    if k == -1 {
      EndRoundCards(t.(currentPlayerIndex := -1), []);
    }
  }

  /** A street moves cards from the deck to the board: the same cards, in the same order. */
  lemma DealStreetCardsOk(t: Table)
    requires Good(t) && CardsOk(t)
    ensures CardsOk(DealStreet(t))
  {
    DealStreetKeepsCards(t);
    DealStreetCards(t);
    SameCards(t, DealStreet(t));
  }

  /** Moving cards between the deck and the board, in order, keeps the invariant. */
  lemma SameCards(t: Table, t': Table)
    requires CardsOk(t)
    requires t'.users == t.users && t'.playersInHand == t.playersInHand
    requires t'.communityCards + t'.deck == t.communityCards + t.deck
    ensures CardsOk(t')
  {
    var h := Holes(t.users, t.playersInHand);
    assert Cards(t') == h + (t'.communityCards + t'.deck);
    assert Cards(t) == h + (t.communityCards + t.deck);
  }

  lemma ProceedCards(t: Table)
    requires Good(t) && CardsOk(t)
    ensures CardsOk(ProceedToNextPhase(t).table)
  {
    var t1 := ClearBets(t);
    ClearBetsValid(t);
    ClearBetsCards(t);
    if t1.phase == River {
      EndRoundCards(t1, DetermineWinners(t1));
    } else {
      DealStreetCardsOk(t1);
      DealStreetGood(t1);
      OpenStreetCards(DealStreet(t1));
    }
  }

  lemma EndTurnCards(t: Table)
    requires Good(t) && CardsOk(t)
    ensures CardsOk(EndTurn(t).table)
  {
    var t0 := t.(turnTimerArmed := false);
    if StreetComplete(t0) {
      ProceedCards(t0);
    }
  }

  lemma JoinCards(t: Table, id: string, name: string, chips: int)
    requires Good(t) && CardsOk(t)
    ensures CardsOk(Join(t, id, name, chips).table)
  {
    CardsKept(t, Join(t, id, name, chips).table);
  }

  lemma SettleIfAloneCards(t: Table)
    requires CardsOk(t)
    ensures CardsOk(SettleIfAlone(t).table)
  {
    if |t.playersInHand| == 1 && t.roundStarted {
      EndRoundCards(t, [t.playersInHand[0]]);
    }
  }

  lemma LeaveCards(t: Table, id: string)
    requires Good(t) && CardsOk(t)
    ensures CardsOk(Leave(t, id).table)
  {
    if id in t.users {
      var t1 := t.(users := t.users[id := t.users[id].(isFolded := true)]);
      MarkFoldedGood(t, id);
      CardsKept(t, t1);
      var r1 := if t.currentTurn == id then EndTurn(t1) else Res(Done, t1);
      if t.currentTurn == id {
        EndTurnGood(t1);
        EndTurnCards(t1);
      }
      if r1.outcome != Hung {
        RemoveFirstIsWithout(r1.table.playersInHand, id);
        CardsDrop(r1.table, id);
        SettleIfAloneCards(r1.table.(playersInHand := RemoveFirst(r1.table.playersInHand, id)));
      }
    } else {
      SettleIfAloneCards(t);
    }
  }

  lemma PostBlindsCards(t: Table)
    requires Valid(t) && CardsOk(t)
    ensures CardsOk(PostBlinds(t).table)
  {
    if !(t.dealerIndex.NaN? || |t.playersInHand| == 0) {
      var sbId := t.playersInHand[Ahead(t.dealerIndex.n, 1, |t.playersInHand|)];
      var bbId := t.playersInHand[Ahead(t.dealerIndex.n, 2, |t.playersInHand|)];
      var t1 := PostBlind(t, sbId, SmallBlind);
      CardsKept(t, t1);
      CardsKept(t1, PostBlind(t1, bbId, BigBlind));
    }
  }

  lemma StartNewHandCards(t: Table, js: seq<int>)
    requires Good(t) && ShuffleOracle(js) && RoomForBoard(t)
    ensures CardsOk(StartNewHand(t, js).table)
  {
    DealHandCardsOk(t, js);
    DealHandValid(t, js);
    PostBlindsCards(DealHand(t, js));
  }

  lemma StartGameCards(t: Table, js: seq<int>)
    requires Good(t) && CardsOk(t) && ShuffleOracle(js) && RoomForBoard(t)
    ensures CardsOk(StartGame(t, js).table)
  {
    if |t.users| >= 2 && !t.roundStarted {
      StartNewHandCards(t, js);
    }
  }

  lemma BetCards(t: Table, sender: string, amount: int)
    requires Good(t) && CardsOk(t)
    ensures CardsOk(Bet(t, sender, amount).table)
  {
    if CanAct(t, sender) && amount >= t.currentBet && amount - t.users[sender].currentBet <= t.users[sender].chips {
      BetAccepted(t, sender, amount);
      PlaceBetGood(t, sender, amount);
      PlaceBetCards(t, sender, amount);
      EndTurnCards(PlaceBet(t, sender, amount));
    }
  }

  lemma PlaceBetCards(t: Table, sender: string, amount: int)
    requires CardsOk(t) && sender in t.users
    ensures CardsOk(PlaceBet(t, sender, amount))
  {
    CardsKept(t, PlaceBet(t, sender, amount));
  }

  lemma PlaceCallCards(t: Table, sender: string)
    requires CardsOk(t) && sender in t.users
    ensures CardsOk(PlaceCall(t, sender))
  {
    CardsKept(t, PlaceCall(t, sender));
  }

  lemma RaiseCards(t: Table, sender: string, amount: int)
    requires Good(t) && CardsOk(t)
    ensures CardsOk(Raise(t, sender, amount).table)
  {
    BetCards(t, sender, RaiseTarget(t, amount));
  }

  lemma CheckCards(t: Table, sender: string)
    requires Good(t) && CardsOk(t)
    ensures CardsOk(Check(t, sender).table)
  {
    if CanAct(t, sender) && t.users[sender].currentBet >= t.currentBet {
      EndTurnCards(t.(playersActedThisRound := t.playersActedThisRound + {sender}));
    }
  }

  lemma CallCards(t: Table, sender: string)
    requires Good(t) && CardsOk(t)
    ensures CardsOk(Call(t, sender).table)
  {
    if CanAct(t, sender) {
      if t.currentBet - t.users[sender].currentBet <= 0 {
        CheckCards(t, sender);
      } else {
        PlaceCallValid(t, sender);
        PlaceCallCards(t, sender);
        EndTurnCards(PlaceCall(t, sender));
      }
    }
  }

  lemma FoldCards(t: Table, sender: string)
    requires Good(t) && CardsOk(t)
    ensures CardsOk(Fold(t, sender).table)
  {
    if CanAct(t, sender) {
      FoldOutValid(t, sender);
      var t0 := t.(users := t.users[sender := t.users[sender].(isFolded := true)]);
      CardsKept(t, t0);
      CardsDrop(t0, sender);
      var t1 := FoldOut(t, sender);
      assert t1 == t0.(playersInHand := Without(t0.playersInHand, sender));
      if |t1.playersInHand| == 1 {
        EndRoundCards(t1, [t1.playersInHand[0]]);
      } else {
        EndTurnCards(t1);
      }
    }
  }

  lemma TurnTimeoutCards(t: Table)
    requires Good(t) && CardsOk(t)
    ensures CardsOk(TurnTimeout(t).table)
  {
    if t.turnTimerArmed {
      var t1 := t.(turnTimerArmed := false);
      if Live(t1.users, t1.currentTurn) {
        FoldCards(t1, t1.users[t1.currentTurn].sessionId);
      }
    }
  }

  lemma NextHandDelayCards(t: Table, js: seq<int>)
    requires Good(t) && CardsOk(t) && ShuffleOracle(js) && RoomForBoard(t)
    ensures CardsOk(NextHandDelay(t, js).table)
  {
    if t.pendingNextHand > 0 && |t.users| >= 2 {
      StartNewHandCards(t.(pendingNextHand := t.pendingNextHand - 1), js);
    }
  }

  // ---------------------------------------------------------------------------
  // Runs of events
  // ---------------------------------------------------------------------------

  /** Every handler the room dispatches to keeps the table invariant. */
  lemma StepGood(t: Table, e: Event)
    requires Good(t) && Allowed(e)
    ensures Good(Step(t, e).table)
  {
    match e
    case Joined(id, name, chips) => JoinGood(t, id, name, chips);
    case Left(id) => LeaveGood(t, id);
    case StartGameMsg(js) => StartGameGood(t, js);
    case BetMsg(sender, amount) => BetGood(t, sender, amount);
    case CallMsg(sender) => CallGood(t, sender);
    case CheckMsg(sender) => CheckGood(t, sender);
    case FoldMsg(sender) => FoldGood(t, sender);
    case RaiseMsg(sender, amount) => RaiseGood(t, sender, amount);
    case TurnTimerFired => TurnTimeoutGood(t);
    case NextHandTimerFired(js) => NextHandDelayGood(t, js);
  }

  /**
   * The room handling a sequence of events one at a time. A handler that
   * never returns (Hung) or throws (Threw) ends the run; otherwise the result
   * is that of the last event. Every table along the way keeps the invariant.
   */
  ghost function Run(t: Table, es: seq<Event>): (r: Res)
    requires Good(t) && forall e :: e in es ==> Allowed(e)
    ensures Good(r.table)
    decreases |es|
  {
    if es == [] then Res(Done, t)
    else
      StepGood(t, es[0]);
      var r := Step(t, es[0]);
      if r.outcome == Hung || r.outcome == Threw then r
      else Run(r.table, es[1..])
  }

  /**
   * Every table the room can reach from its creation is well formed and
   * shows as many community cards as its phase calls for.
   */
  lemma ReachableGood(js: seq<int>, es: seq<Event>)
    requires ShuffleOracle(js) && forall e :: e in es ==> Allowed(e)
    ensures Good(Initial(js))
    ensures Good(Run(Initial(js), es).table)
    ensures |Run(Initial(js), es).table.communityCards| <= 5
  {
    InitialState(js);
  }

  /** Every handler keeps the card invariant, as long as a hand it deals has room for the board. */
  lemma StepCards(t: Table, e: Event)
    requires Good(t) && CardsOk(t) && Allowed(e)
    requires (e.StartGameMsg? || e.NextHandTimerFired?) ==> RoomForBoard(t)
    ensures CardsOk(Step(t, e).table)
  {
    match e
    case Joined(id, name, chips) => JoinCards(t, id, name, chips);
    case Left(id) => LeaveCards(t, id);
    case StartGameMsg(js) => StartGameCards(t, js);
    case BetMsg(sender, amount) => BetCards(t, sender, amount);
    case CallMsg(sender) => CallCards(t, sender);
    case CheckMsg(sender) => CheckCards(t, sender);
    case FoldMsg(sender) => FoldCards(t, sender);
    case RaiseMsg(sender, amount) => RaiseCards(t, sender, amount);
    case TurnTimerFired => TurnTimeoutCards(t);
    case NextHandTimerFired(js) => NextHandDelayCards(t, js);
  }

  /** Whenever an event of the run may deal a hand, at most 23 players are seated. */
  ghost predicate DealsFit(t: Table, es: seq<Event>)
    requires Good(t) && forall e :: e in es ==> Allowed(e)
    decreases |es|
  {
    es == [] ||
      (((es[0].StartGameMsg? || es[0].NextHandTimerFired?) ==> RoomForBoard(t))
       && (StepGood(t, es[0]);
           var r := Step(t, es[0]);
           r.outcome == Hung || r.outcome == Threw || DealsFit(r.table, es[1..])))
  }

  /** A run from a table with the card invariant keeps it when every hand it deals fits. */
  lemma {:induction false} RunCards(t: Table, es: seq<Event>)
    requires Good(t) && CardsOk(t) && forall e :: e in es ==> Allowed(e)
    requires DealsFit(t, es)
    ensures CardsOk(Run(t, es).table)
    decreases |es|
  {
    if es != [] {
      StepGood(t, es[0]);
      StepCards(t, es[0]);
      var r := Step(t, es[0]);
      if r.outcome != Hung && r.outcome != Threw {
        RunCards(r.table, es[1..]);
      }
    }
  }

  /**
   * In every table the room can reach, with at most 23 players seated whenever
   * a hand is dealt, the hole cards of the hand, the board and the deck hold
   * each of the 52 tokens at most once, and nothing else.
   */
  lemma ReachableCards(js: seq<int>, es: seq<Event>)
    requires ShuffleOracle(js) && forall e :: e in es ==> Allowed(e)
    requires (InitialState(js); DealsFit(Initial(js), es))
    ensures var t := Run(Initial(js), es).table;
      && CardsOk(t) && Distinct(Cards(t)) && forall c :: c in Cards(t) ==> c in FreshDeck()
  {
    ShuffledDeckIsPermutation(js);
    var t0 := Initial(js);
    assert Cards(t0) == t0.deck;
    RunCards(t0, es);
    CardsOkMeans(Run(t0, es).table);
  }
}
