/**
 * The money at the table of src/rooms/MyRoom.ts never goes below zero: no
 * stack, no bet and no pot, as long as every client joins with a stack of at
 * least zero. A bet below the player's own bet hands chips back out of the
 * pot, so the pot is tracked against the bets of the players still in the hand.
 */
module Solvency {
  import opened RoomSchema
  import opened Poker
  import opened PokerProps

  // ---------------------------------------------------------------------------
  // The invariant
  // ---------------------------------------------------------------------------

  /** A seat's bet as the hand counts it: nothing for an id with no player. */
  function BetOf(users: map<string, Player>, id: string): int
  {
    if id in users then users[id].currentBet else 0
  }

  /** The bets of the players listed in `ids`. */
  function HandBets(users: map<string, Player>, ids: seq<string>): int
  {
    if ids == [] then 0 else BetOf(users, ids[0]) + HandBets(users, ids[1..])
  }

  /**
   * Every stack and every bet is at least zero, so is the table's current bet,
   * and the pot holds at least the bets of the players still in the hand.
   */
  ghost predicate Funds(t: Table)
  {
    && (forall id :: id in t.users ==> t.users[id].chips >= 0 && t.users[id].currentBet >= 0)
    && t.currentBet >= 0
    && t.pot >= HandBets(t.users, t.playersInHand)
  }

  /**
   * `Funds`, and a player who may act without being in the hand (one who
   * rejoined under the id whose turn it is, say) has bet no more than the
   * table, so a bet of theirs never takes chips out of the pot.
   */
  ghost predicate Solvent(t: Table)
  {
    && Funds(t)
    && (Live(t.users, t.currentTurn) && t.currentTurn !in t.playersInHand ==>
          t.users[t.currentTurn].currentBet <= t.currentBet)
  }

  /** Under `Funds` the pot, every stack and every bet are at least zero. */
  lemma FundsMeans(t: Table)
    requires Funds(t)
    ensures t.pot >= 0
    ensures forall id :: id in t.users ==> t.users[id].chips >= 0 && t.users[id].currentBet >= 0
  {
    HandBetsNonneg(t.users, t.playersInHand);
  }

  // ---------------------------------------------------------------------------
  // Sums of bets
  // ---------------------------------------------------------------------------

  lemma {:induction false} HandBetsNonneg(users: map<string, Player>, ids: seq<string>)
    requires forall id :: id in ids ==> BetOf(users, id) >= 0
    ensures HandBets(users, ids) >= 0
  {
    if ids != [] {
      assert forall id :: id in ids[1..] ==> id in ids;
      HandBetsNonneg(users, ids[1..]);
    }
  }

  /** Bets that shrink or stay make a sum that shrinks or stays. */
  lemma {:induction false} HandBetsLess(u: map<string, Player>, u': map<string, Player>, ids: seq<string>)
    requires forall id :: id in ids ==> BetOf(u', id) <= BetOf(u, id)
    ensures HandBets(u', ids) <= HandBets(u, ids)
  {
    if ids != [] {
      assert forall id :: id in ids[1..] ==> id in ids;
      HandBetsLess(u, u', ids[1..]);
    }
  }

  lemma {:induction false} HandBetsZero(u: map<string, Player>, ids: seq<string>)
    requires forall id :: id in ids ==> BetOf(u, id) == 0
    ensures HandBets(u, ids) == 0
  {
    if ids != [] {
      assert forall id :: id in ids[1..] ==> id in ids;
      HandBetsZero(u, ids[1..]);
    }
  }

  /** Changing one player changes the sum by the change in their bet, counted once. */
  lemma {:induction false} HandBetsUpdate(users: map<string, Player>, ids: seq<string>, id: string, p: Player)
    requires id in users && Distinct(ids)
    ensures HandBets(users[id := p], ids) ==
      HandBets(users, ids) + if id in ids then p.currentBet - users[id].currentBet else 0
  {
    if ids != [] {
      DistinctCons(ids[0], ids[1..]);
      assert ids == [ids[0]] + ids[1..];
      HandBetsUpdate(users, ids[1..], id, p);
    }
  }

  /** Leaving players out, in order, never adds to a sum of non-negative bets. */
  lemma {:induction false} HandBetsSubseq(u: map<string, Player>, r: seq<string>, s: seq<string>)
    requires Subseq(r, s) && forall id :: id in s ==> BetOf(u, id) >= 0
    ensures HandBets(u, r) <= HandBets(u, s)
    decreases |s|
  {
    if r == [] {
      HandBetsNonneg(u, s);
    } else {
      assert forall id :: id in s[1..] ==> id in s;
      if r[0] == s[0] && Subseq(r[1..], s[1..]) {
        HandBetsSubseq(u, r[1..], s[1..]);
      } else {
        HandBetsSubseq(u, r, s[1..]);
        assert BetOf(u, s[0]) >= 0;
      }
    }
  }

  // ---------------------------------------------------------------------------
  // Steps that move no chips out of a stack
  // ---------------------------------------------------------------------------

  /**
   * A step that keeps the hand, the pot, the bets and whose turn it is, and
   * only adds to stacks or folds players, keeps the invariant.
   */
  lemma SolventKept(t: Table, t': Table)
    requires Solvent(t)
    requires t'.playersInHand == t.playersInHand && t'.pot == t.pot && t'.currentBet == t.currentBet
    requires t'.currentTurn == t.currentTurn && t'.users.Keys == t.users.Keys
    requires forall id :: id in t.users ==>
      && t'.users[id].chips >= t.users[id].chips && t'.users[id].currentBet == t.users[id].currentBet
      && (t.users[id].isFolded ==> t'.users[id].isFolded)
    ensures Solvent(t')
  {
    HandBetsLess(t.users, t'.users, t.playersInHand);
  }

  /** `endRound` only adds `floor(pot / k)` to stacks, and that share is at least zero. */
  lemma EndRoundSolvent(t: Table, winners: seq<string>)
    requires Solvent(t)
    ensures Solvent(EndRound(t, winners).table)
  {
    FundsMeans(t);
    var share := if |winners| > 0 then t.pot / |winners| else 0;
    assert share >= 0;
    CreditSpec(t.users, winners, share);
    var t' := EndRound(t, winners).table;
    forall id | id in t.users
      ensures t'.users[id].chips >= t.users[id].chips
    {
      MulNonneg(share, multiset(winners)[id]);
    }
    SolventKept(t, t');
  }

  lemma MulNonneg(a: int, b: int)
    requires a >= 0 && b >= 0
    ensures a * b >= 0
  {
  }

  /** Filtering a player who cannot act out of the hand keeps the invariant. */
  lemma DropSolvent(t: Table, x: string)
    requires Solvent(t) && !Live(t.users, x)
    ensures Solvent(t.(playersInHand := Without(t.playersInHand, x)))
  {
    FundsMeans(t);
    HandBetsSubseq(t.users, Without(t.playersInHand, x), t.playersInHand);
  }

  /** Zeroing every bet leaves a pot of at least zero covering a hand that owes nothing. */
  lemma ClearBetsSolvent(t: Table)
    requires Valid(t) && Solvent(t)
    ensures Solvent(ClearBets(t))
    ensures forall id :: id in ClearBets(t).users ==> ClearBets(t).users[id].currentBet == 0
  {
    FundsMeans(t);
    var t' := ClearBets(t);
    assert forall id :: id in t'.users ==> t'.users[id] == t.users[id].(currentBet := 0);
    HandBetsZero(t'.users, t'.playersInHand);
  }

  lemma DealStreetSolvent(t: Table)
    requires Solvent(t)
    ensures Solvent(DealStreet(t))
  {
    SolventKept(t, DealStreet(t));
  }

  /** Opening a street hands the turn to a player of the hand, or pays out nothing. */
  lemma OpenStreetSolvent(t: Table)
    requires Solvent(t) && forall id :: id in t.playersInHand ==> id in t.users
    ensures Solvent(OpenStreet(t).table)
  {
    if FirstNotFolded(t.users, t.playersInHand) == -1 {
      EndRoundSolvent(t.(currentPlayerIndex := -1), []);
    }
  }

  lemma ProceedSolvent(t: Table)
    requires Good(t) && Solvent(t)
    ensures Solvent(ProceedToNextPhase(t).table)
  {
    var t1 := ClearBets(t);
    ClearBetsValid(t);
    ClearBetsSolvent(t);
    if t1.phase == River {
      EndRoundSolvent(t1, DetermineWinners(t1));
    } else {
      DealStreetSolvent(t1);
      DealStreetGood(t1);
      OpenStreetSolvent(DealStreet(t1));
    }
  }

  /** The rotation hands the turn to a player of the hand, or hangs with nothing changed. */
  lemma RotateSolvent(t: Table)
    requires Solvent(t) && t.currentPlayerIndex >= -1
    ensures Solvent(Rotate(t).table)
  {
  }

  lemma EndTurnSolvent(t: Table)
    requires Good(t) && Solvent(t)
    ensures Solvent(EndTurn(t).table)
  {
    var t0 := t.(turnTimerArmed := false);
    if StreetComplete(t0) {
      ProceedSolvent(t0);
    } else {
      RotateSolvent(t0);
    }
  }

  // ---------------------------------------------------------------------------
  // One lemma per handler
  // ---------------------------------------------------------------------------

  /** A join seats a player with no bet and a stack of the given chips, at least zero, or 1000. */
  lemma JoinSolvent(t: Table, id: string, name: string, chips: int)
    requires Solvent(t) && chips >= 0
    ensures Solvent(Join(t, id, name, chips).table)
  {
    var t' := Join(t, id, name, chips).table;
    assert t'.users[id].currentBet == 0 && t'.users[id].chips >= 0;
    HandBetsLess(t.users, t'.users, t.playersInHand);
  }

  lemma SettleIfAloneSolvent(t: Table)
    requires Solvent(t)
    ensures Solvent(SettleIfAlone(t).table)
  {
    if |t.playersInHand| == 1 && t.roundStarted {
      EndRoundSolvent(t, [t.playersInHand[0]]);
    }
  }

  lemma LeaveSolvent(t: Table, id: string)
    requires Good(t) && Solvent(t)
    ensures Solvent(Leave(t, id).table)
  {
    if id in t.users {
      var t1 := t.(users := t.users[id := t.users[id].(isFolded := true)]);
      MarkFoldedGood(t, id);
      SolventKept(t, t1);
      var r1 := if t.currentTurn == id then EndTurn(t1) else Res(Done, t1);
      if t.currentTurn == id {
        EndTurnGood(t1);
        EndTurnSolvent(t1);
        EndTurnKeepsFolds(t1);
      }
      if r1.outcome != Hung {
        RemoveFirstIsWithout(r1.table.playersInHand, id);
        DropSolvent(r1.table, id);
        SettleIfAloneSolvent(r1.table.(playersInHand := RemoveFirst(r1.table.playersInHand, id)));
      }
    } else {
      SettleIfAloneSolvent(t);
    }
  }

  /** The reset and the deal of a new hand: nobody has bet and the pot is empty. */
  lemma DealHandFunds(t: Table, js: seq<int>)
    requires Valid(t) && Funds(t) && ShuffleOracle(js)
    ensures Funds(DealHand(t, js))
  {
    var t' := DealHand(t, js);
    DealHandFacts(t, js);
    HandBetsZero(t'.users, t'.playersInHand);
  }

  /** One blind moves at most the player's stack, and its bet replaces one that the pot already covered. */
  lemma PostBlindFunds(t: Table, id: string, cap: int)
    requires Funds(t) && Distinct(t.playersInHand) && id in t.users && id in t.playersInHand && cap >= 0
    ensures Funds(PostBlind(t, id, cap))
  {
    var p := t.users[id];
    var x := Min(cap, p.chips);
    HandBetsUpdate(t.users, t.playersInHand, id, p.(chips := p.chips - x, currentBet := x));
  }

  /** The blinds keep the money non-negative, and the turn goes to a player of the hand. */
  lemma PostBlindsSolvent(t: Table)
    requires Valid(t) && Funds(t)
    ensures Funds(PostBlinds(t).table)
    ensures PostBlinds(t).outcome == Done ==> Solvent(PostBlinds(t).table)
  {
    if !(t.dealerIndex.NaN? || |t.playersInHand| == 0) {
      var sbId := t.playersInHand[Ahead(t.dealerIndex.n, 1, |t.playersInHand|)];
      var bbId := t.playersInHand[Ahead(t.dealerIndex.n, 2, |t.playersInHand|)];
      var t1 := PostBlind(t, sbId, SmallBlind);
      PostBlindFunds(t, sbId, SmallBlind);
      PostBlindFunds(t1, bbId, BigBlind);
    }
  }

  /** A new hand keeps the money non-negative; only one that throws can leave the turn uncovered. */
  lemma StartNewHandSolvent(t: Table, js: seq<int>)
    requires Valid(t) && Funds(t) && ShuffleOracle(js)
    ensures Funds(StartNewHand(t, js).table)
    ensures StartNewHand(t, js).outcome != Threw ==> Solvent(StartNewHand(t, js).table)
  {
    DealHandValid(t, js);
    DealHandFunds(t, js);
    PostBlindsSolvent(DealHand(t, js));
  }

  lemma StartGameSolvent(t: Table, js: seq<int>)
    requires Good(t) && Solvent(t) && ShuffleOracle(js)
    ensures Funds(StartGame(t, js).table)
    ensures StartGame(t, js).outcome != Threw ==> Solvent(StartGame(t, js).table)
  {
    if |t.users| >= 2 && !t.roundStarted {
      StartNewHandSolvent(t, js);
    }
  }

  /**
   * An accepted bet takes `amount - currentBet` from a stack that covers it.
   * When that is negative, the player is in the hand and the pot gives back
   * part of their own bet.
   */
  lemma PlaceBetSolvent(t: Table, sender: string, amount: int)
    requires Valid(t) && Solvent(t) && CanAct(t, sender)
    requires amount >= t.currentBet && amount - t.users[sender].currentBet <= t.users[sender].chips
    ensures Solvent(PlaceBet(t, sender, amount))
  {
    var p := t.users[sender];
    PlaceBetEffect(t, sender, amount);
    HandBetsUpdate(t.users, t.playersInHand, sender, p.(chips := p.chips - (amount - p.currentBet), currentBet := amount));
  }

  lemma BetSolvent(t: Table, sender: string, amount: int)
    requires Good(t) && Solvent(t)
    ensures Solvent(Bet(t, sender, amount).table)
  {
    if CanAct(t, sender) && amount >= t.currentBet && amount - t.users[sender].currentBet <= t.users[sender].chips {
      BetAccepted(t, sender, amount);
      PlaceBetGood(t, sender, amount);
      PlaceBetSolvent(t, sender, amount);
      EndTurnSolvent(PlaceBet(t, sender, amount));
    }
  }

  lemma RaiseSolvent(t: Table, sender: string, amount: int)
    requires Good(t) && Solvent(t)
    ensures Solvent(Raise(t, sender, amount).table)
  {
    BetSolvent(t, sender, RaiseTarget(t, amount));
  }

  /** A call moves at least nothing and at most the stack, and never lifts the bet above the table's. */
  lemma PlaceCallSolvent(t: Table, sender: string)
    requires Valid(t) && Solvent(t) && CanAct(t, sender) && t.currentBet - t.users[sender].currentBet > 0
    ensures Solvent(PlaceCall(t, sender))
  {
    var p := t.users[sender];
    var owed := t.currentBet - p.currentBet;
    var x := if owed <= p.chips then owed else p.chips;
    PlaceCallEffect(t, sender);
    HandBetsUpdate(t.users, t.playersInHand, sender, p.(chips := p.chips - x, currentBet := p.currentBet + x));
  }

  lemma CheckSolvent(t: Table, sender: string)
    requires Good(t) && Solvent(t)
    ensures Solvent(Check(t, sender).table)
  {
    if CanAct(t, sender) && t.users[sender].currentBet >= t.currentBet {
      EndTurnSolvent(t.(playersActedThisRound := t.playersActedThisRound + {sender}));
    }
  }

  lemma CallSolvent(t: Table, sender: string)
    requires Good(t) && Solvent(t)
    ensures Solvent(Call(t, sender).table)
  {
    if CanAct(t, sender) {
      if t.currentBet - t.users[sender].currentBet <= 0 {
        CheckSolvent(t, sender);
      } else {
        PlaceCallValid(t, sender);
        PlaceCallSolvent(t, sender);
        EndTurnSolvent(PlaceCall(t, sender));
      }
    }
  }

  lemma FoldSolvent(t: Table, sender: string)
    requires Good(t) && Solvent(t)
    ensures Solvent(Fold(t, sender).table)
  {
    if CanAct(t, sender) {
      FoldOutValid(t, sender);
      var t0 := t.(users := t.users[sender := t.users[sender].(isFolded := true)]);
      SolventKept(t, t0);
      DropSolvent(t0, sender);
      var t1 := FoldOut(t, sender);
      assert t1 == t0.(playersInHand := Without(t0.playersInHand, sender));
      if |t1.playersInHand| == 1 {
        EndRoundSolvent(t1, [t1.playersInHand[0]]);
      } else {
        EndTurnSolvent(t1);
      }
    }
  }

  lemma TurnTimeoutSolvent(t: Table)
    requires Good(t) && Solvent(t)
    ensures Solvent(TurnTimeout(t).table)
  {
    if t.turnTimerArmed {
      var t1 := t.(turnTimerArmed := false);
      if Live(t1.users, t1.currentTurn) {
        FoldSolvent(t1, t1.users[t1.currentTurn].sessionId);
      }
    }
  }

  lemma NextHandDelaySolvent(t: Table, js: seq<int>)
    requires Good(t) && Solvent(t) && ShuffleOracle(js)
    ensures var r := NextHandDelay(t, js); Funds(r.table) && (r.outcome != Threw ==> Solvent(r.table))
  {
    NextHandDelayFacts(t, js);
    if t.pendingNextHand > 0 && |t.users| >= 2 {
      StartNewHandSolvent(t.(pendingNextHand := t.pendingNextHand - 1), js);
    }
  }

  // ---------------------------------------------------------------------------
  // Runs of events
  // ---------------------------------------------------------------------------

  /**
   * Every handler keeps the money non-negative once the joining stack is at
   * least zero; only a new hand that throws can leave the turn uncovered.
   */
  lemma StepSolvent(t: Table, e: Event)
    requires Good(t) && Solvent(t) && Allowed(e)
    requires e.Joined? ==> e.chips >= 0
    ensures Funds(Step(t, e).table)
    ensures Step(t, e).outcome != Threw ==> Solvent(Step(t, e).table)
  {
    match e
    case Joined(id, name, chips) => JoinSolvent(t, id, name, chips);
    case Left(id) => LeaveSolvent(t, id);
    case StartGameMsg(js) => StartGameSolvent(t, js);
    case BetMsg(sender, amount) => BetSolvent(t, sender, amount);
    case CallMsg(sender) => CallSolvent(t, sender);
    case CheckMsg(sender) => CheckSolvent(t, sender);
    case FoldMsg(sender) => FoldSolvent(t, sender);
    case RaiseMsg(sender, amount) => RaiseSolvent(t, sender, amount);
    case TurnTimerFired => TurnTimeoutSolvent(t);
    case NextHandTimerFired(js) => NextHandDelaySolvent(t, js);
  }

  /** A run in which every client joins with a stack of at least zero keeps the invariant. */
  lemma {:induction false} RunSolvent(t: Table, es: seq<Event>)
    requires Good(t) && Solvent(t) && forall e :: e in es ==> Allowed(e)
    requires forall e :: e in es ==> (e.Joined? ==> e.chips >= 0)
    ensures Funds(Run(t, es).table)
    ensures Run(t, es).outcome != Threw ==> Solvent(Run(t, es).table)
    decreases |es|
  {
    if es != [] {
      StepGood(t, es[0]);
      StepSolvent(t, es[0]);
      var r := Step(t, es[0]);
      if r.outcome != Hung && r.outcome != Threw {
        assert forall e :: e in es[1..] ==> e in es;
        RunSolvent(r.table, es[1..]);
      }
    }
  }

  /**
   * In every table the room can reach, when no client joins with a negative
   * stack, every stack, every bet, the current bet and the pot are at least
   * zero, and the pot covers the bets of the players still in the hand.
   */
  lemma ReachableSolvent(js: seq<int>, es: seq<Event>)
    requires ShuffleOracle(js) && forall e :: e in es ==> Allowed(e)
    requires forall e :: e in es ==> (e.Joined? ==> e.chips >= 0)
    ensures var t := Run(Initial(js), es).table;
      && Funds(t) && t.pot >= 0 && t.currentBet >= 0
      && forall id :: id in t.users ==> t.users[id].chips >= 0 && t.users[id].currentBet >= 0
  {
    InitialState(js);
    var t0 := Initial(js);
    assert HandBets(t0.users, t0.playersInHand) == 0;
    RunSolvent(t0, es);
    FundsMeans(Run(t0, es).table);
  }
}
