/**
 * The poker-table state machine of src/rooms/MyRoom.ts as pure functions.
 *
 * A `Table` is a snapshot of every field the room and its schema state hold.
 * Each handler maps a table (and the message's arguments) to `Res(outcome, table')`:
 * the outcome says whether the handler ran to the end, returned early, sent an
 * error to the client, never returned (the rotation loop finds no seat) or threw.
 */
module Poker {
  import opened RoomSchema

  const SmallBlind: int := 10
  const BigBlind: int := 20

  /** A JavaScript number that is either an integer or NaN (`x % 0`). */
  datatype Num = Int(n: int) | NaN

  datatype Refusal = TooFewPlayers | GameInProgress | BetTooSmall | NotEnoughChips | MustCallOrFold

  datatype Outcome =
    | Done                      // the handler ran to its end
    | Ignored                   // a guard returned without a message
    | Rejected(reason: Refusal) // `client.send("error", ...)`, nothing changed
    | Hung                      // the `do ... while (true)` seat search never ends
    | Threw                      // a TypeError was raised part-way

  datatype Table = Table(
    users: map<string, Player>,
    order: seq<string>,
    deck: seq<string>,
    communityCards: seq<string>,
    pot: int,
    currentBet: int,
    currentTurn: string,
    roundStarted: bool,
    phase: Phase,
    lastRaiser: string,
    dealerIndex: Num,
    currentPlayerIndex: int,
    playersInHand: seq<string>,
    playersActedThisRound: set<string>,
    playersAllIn: set<string>,
    turnTimerArmed: bool,
    pendingNextHand: nat)

  datatype Res = Res(outcome: Outcome, table: Table)

  function Min(a: int, b: int): int { if a <= b then a else b }

  /** Every id names its own player; `order` lists the keys of `users` once each. */
  ghost predicate Valid(t: Table)
  {
    (forall id :: id in t.users ==> t.users[id].sessionId == id)
    && (forall id :: id in t.users <==> id in t.order)
    && Distinct(t.order)
    && (forall id :: id in t.playersInHand ==> id in t.users)
    && Distinct(t.playersInHand)
    && t.currentPlayerIndex >= -1
    && (t.dealerIndex.Int? ==> t.dealerIndex.n >= 0)
  }

  /** The state right after `onCreate`: a fresh `MyRoomState` and the room's field initialisers. */
  function Initial(js: seq<int>): Table
    requires ShuffleOracle(js)
  {
    Table(map[], [], ShuffledDeck(js), [], 0, 0, "", false, Waiting, "",
          Int(0), 0, [], {}, {}, false, 0)
  }

  // ---------------------------------------------------------------------------
  // Sequence helpers
  // ---------------------------------------------------------------------------

  lemma DistinctCons(x: string, s: seq<string>)
    ensures Distinct([x] + s) <==> x !in s && Distinct(s)
  {
    assert multiset([x] + s) == multiset{x} + multiset(s);
    DistinctAdd(x, s, [x] + s);
  }

  lemma DistinctSnoc(s: seq<string>, x: string)
    ensures Distinct(s + [x]) <==> x !in s && Distinct(s)
  {
    assert multiset(s + [x]) == multiset{x} + multiset(s);
    DistinctAdd(x, s, s + [x]);
  }

  /** `c` is `s` with one more occurrence of `x`. */
  lemma DistinctAdd(x: string, s: seq<string>, c: seq<string>)
    requires multiset(c) == multiset{x} + multiset(s)
    ensures Distinct(c) <==> x !in s && Distinct(s)
  {
    assert x in s <==> multiset(s)[x] > 0;
    assert forall y :: multiset(c)[y] == (if y == x then 1 else 0) + multiset(s)[y];
  }

  /** `r` is `s` with some of its elements left out and the rest in the same order. */
  ghost predicate Subseq(r: seq<string>, s: seq<string>)
    decreases |s|
  {
    r == [] || (s != [] && ((r[0] == s[0] && Subseq(r[1..], s[1..])) || Subseq(r, s[1..])))
  }

  /** `ids.filter(id => id !== x)`. */
  function Without(ids: seq<string>, x: string): (r: seq<string>)
    ensures forall y :: y in r <==> y in ids && y != x
    ensures Distinct(ids) ==> Distinct(r)
    ensures |r| <= |ids| && Subseq(r, ids)
  {
    if ids == [] then []
    else
      var rest := Without(ids[1..], x);
      DistinctCons(ids[0], ids[1..]);
      assert ids == [ids[0]] + ids[1..];
      if ids[0] != x then DistinctCons(ids[0], rest); assert ([ids[0]] + rest)[1..] == rest; [ids[0]] + rest else rest
  }

  /** `ids.splice(ids.indexOf(x), 1)` when `x` occurs; `ids` otherwise. */
  function RemoveFirst(ids: seq<string>, x: string): (r: seq<string>)
    ensures multiset(r) == multiset(ids) - multiset{x}
  {
    if ids == [] then []
    else
      assert ids == [ids[0]] + ids[1..];
      if ids[0] == x then ids[1..] else [ids[0]] + RemoveFirst(ids[1..], x)
  }

  /** On a list without repeats, removing the first occurrence is the filter. */
  lemma {:induction false} RemoveFirstIsWithout(ids: seq<string>, x: string)
    requires Distinct(ids)
    ensures RemoveFirst(ids, x) == Without(ids, x)
  {
    if ids != [] {
      DistinctCons(ids[0], ids[1..]);
      assert ids == [ids[0]] + ids[1..];
      if ids[0] == x {
        WithoutAbsent(ids[1..], x);
      } else {
        RemoveFirstIsWithout(ids[1..], x);
      }
    }
  }

  lemma {:induction false} WithoutAbsent(ids: seq<string>, x: string)
    ensures x !in ids ==> Without(ids, x) == ids
  {
    if ids != [] {
      WithoutAbsent(ids[1..], x);
    }
  }

  /** `Array.from(users.values()).filter(p => p.chips > 0)`, as session ids. */
  function Eligible(users: map<string, Player>, ids: seq<string>): (r: seq<string>)
    requires forall id :: id in ids ==> id in users
    ensures forall id :: id in r <==> id in ids && users[id].chips > 0
    ensures Distinct(ids) ==> Distinct(r)
    ensures |r| <= |ids| && Subseq(r, ids)
  {
    if ids == [] then []
    else
      var rest := Eligible(users, ids[1..]);
      DistinctCons(ids[0], ids[1..]);
      assert ids == [ids[0]] + ids[1..];
      if users[ids[0]].chips > 0 then
        DistinctCons(ids[0], rest); assert ([ids[0]] + rest)[1..] == rest; [ids[0]] + rest
      else rest
  }

  /** `ids.filter(id => !users.get(id)!.isFolded)`. */
  function NotFolded(users: map<string, Player>, ids: seq<string>): (r: seq<string>)
    requires forall id :: id in ids ==> id in users
    ensures forall id :: id in r <==> id in ids && !users[id].isFolded
    ensures Distinct(ids) ==> Distinct(r)
    ensures |r| <= |ids| && Subseq(r, ids)
  {
    if ids == [] then []
    else
      var rest := NotFolded(users, ids[1..]);
      DistinctCons(ids[0], ids[1..]);
      assert ids == [ids[0]] + ids[1..];
      if !users[ids[0]].isFolded then
        DistinctCons(ids[0], rest); assert ([ids[0]] + rest)[1..] == rest; [ids[0]] + rest
      else rest
  }

  /** `ids.findIndex(id => !users.get(id)!.isFolded)`: the first non-folded position, or -1. */
  function FirstNotFolded(users: map<string, Player>, ids: seq<string>): (k: int)
    requires forall id :: id in ids ==> id in users
    ensures -1 <= k < |ids|
    ensures k == -1 <==> forall i :: 0 <= i < |ids| ==> users[ids[i]].isFolded
    ensures k >= 0 ==> !users[ids[k]].isFolded && forall i :: 0 <= i < k ==> users[ids[i]].isFolded
  {
    if ids == [] then -1
    else if !users[ids[0]].isFolded then 0
    else
      var k := FirstNotFolded(users, ids[1..]);
      if k == -1 then -1 else k + 1
  }

  // ---------------------------------------------------------------------------
  // Helpers over the users map (the `forEach` loops)
  // ---------------------------------------------------------------------------

  /** `users.forEach(player => player.currentBet = 0)` over the ids `ids`. */
  function ZeroBets(users: map<string, Player>, ids: seq<string>): (u: map<string, Player>)
    ensures u.Keys == users.Keys
    ensures forall id :: id in u ==> u[id] == if id in ids then users[id].(currentBet := 0) else users[id]
    decreases |ids|
  {
    if ids == [] then users
    else
      var u := ZeroBets(users, ids[..|ids| - 1]);
      var id := ids[|ids| - 1];
      assert forall x :: x in ids <==> x in ids[..|ids| - 1] || x == id;
      if id in u then u[id := u[id].(currentBet := 0)] else u
  }

  /** Credits `amount` to each listed winner present in `users`, once per occurrence. */
  function Credit(users: map<string, Player>, winners: seq<string>, amount: int): (u: map<string, Player>)
    ensures u.Keys == users.Keys
    decreases |winners|
  {
    if winners == [] then users
    else
      var u := Credit(users, winners[..|winners| - 1], amount);
      var w := winners[|winners| - 1];
      if w in u then u[w := u[w].(chips := u[w].chips + amount)] else u
  }

  /** Each player gains `amount` once for every time they are listed; nothing else about them changes. */
  lemma {:induction false} CreditSpec(users: map<string, Player>, winners: seq<string>, amount: int)
    ensures forall id :: id in users ==>
      Credit(users, winners, amount)[id] == users[id].(chips := users[id].chips + amount * multiset(winners)[id])
    decreases |winners|
  {
    if winners != [] {
      var front := winners[..|winners| - 1];
      var w := winners[|winners| - 1];
      assert winners == front + [w];
      CreditSpec(users, front, amount);
      CreditStep(users, Credit(users, front, amount), front, w, amount);
    }
  }

  lemma CreditStep(users: map<string, Player>, u: map<string, Player>, front: seq<string>, w: string, amount: int)
    requires u.Keys == users.Keys
    requires forall id :: id in u ==> u[id] == users[id].(chips := users[id].chips + amount * multiset(front)[id])
    ensures var u' := if w in u then u[w := u[w].(chips := u[w].chips + amount)] else u;
      forall id :: id in u' ==> u'[id] == users[id].(chips := users[id].chips + amount * multiset(front + [w])[id])
  {
    var u' := if w in u then u[w := u[w].(chips := u[w].chips + amount)] else u;
    forall id | id in u'
      ensures u'[id] == users[id].(chips := users[id].chips + amount * multiset(front + [w])[id])
    {
      CountSnoc(front, w, id);
      if id == w {
        MulSucc(amount, multiset(front)[id]);
      }
    }
  }

  /** Appending `w` adds one to the count of `w` and leaves every other count alone. */
  lemma CountSnoc(front: seq<string>, w: string, id: string)
    ensures multiset(front + [w])[id] == multiset(front)[id] + if id == w then 1 else 0
  {
    assert multiset(front + [w]) == multiset(front) + multiset{w};
  }

  lemma MulSucc(a: int, c: int)
    ensures a * (c + 1) == a * c + a
  {
  }

  /**
   * The seating loop of `startNewHand`: each listed player gets two cards dealt
   * from the front of the deck, a zero bet and the folded flag cleared.
   */
  function Seat(users: map<string, Player>, deck: seq<string>, ids: seq<string>): (map<string, Player>, seq<string>)
    requires forall id :: id in ids ==> id in users
  {
    if ids == [] then (users, deck)
    else
      var id := ids[0];
      var (c1, d1) := Deal(deck);
      var (c2, d2) := Deal(d1);
      Seat(users[id := users[id].(hand := [c1, c2], currentBet := 0, isFolded := false)], d2, ids[1..])
  }

  /** Seating keeps the players and touches only the listed ones: two cards each, no bet, not folded. */
  lemma {:induction false} SeatFacts(users: map<string, Player>, deck: seq<string>, ids: seq<string>)
    requires forall id :: id in ids ==> id in users
    ensures var u := Seat(users, deck, ids).0;
      && u.Keys == users.Keys
      && (forall id :: id in users && id !in ids ==> u[id] == users[id])
      && (forall id :: id in ids ==>
            u[id] == users[id].(hand := u[id].hand, currentBet := 0, isFolded := false) && |u[id].hand| == 2)
  {
    if ids != [] {
      var id := ids[0];
      var (c1, d1) := Deal(deck);
      var (c2, d2) := Deal(d1);
      var users' := users[id := users[id].(hand := [c1, c2], currentBet := 0, isFolded := false)];
      SeatFacts(users', d2, ids[1..]);
      assert forall x :: x in ids <==> x == id || x in ids[1..];
    }
  }

  // ---------------------------------------------------------------------------
  // Turn rotation
  // ---------------------------------------------------------------------------

  /** The loop's `continue` test: the seat holds a player who has not folded. */
  predicate Live(users: map<string, Player>, id: string)
  {
    id in users && !users[id].isFolded
  }

  /**
   * At most `fuel` turns of the `do ... while (true)` loop of `endTurn`, from
   * index `i`: the first live seat reached, or None.
   */
  function NextLive(users: map<string, Player>, ids: seq<string>, i: int, fuel: nat): (r: Option<nat>)
    requires |ids| > 0 && i >= -1
    ensures r.Some? ==> r.value < |ids| && Live(users, ids[r.value])
    decreases fuel
  {
    if fuel == 0 then None
    else
      var j := Ahead(i, 1, |ids|);
      if Live(users, ids[j]) then Some(j) else NextLive(users, ids, j, fuel - 1)
  }

  /** The seat `k` places after seat `i` around a table of `n` seats: `(i + k) % n`. */
  function Ahead(i: int, k: nat, n: nat): (j: nat)
    requires n > 0
    ensures j < n
  {
    (i + k) % n
  }

  /** The players that still have to act: in the hand, not folded, not all-in. */
  function ActivePlayers(t: Table): (r: seq<string>)
    requires Valid(t)
    ensures forall id :: id in r <==> id in t.playersInHand && !t.users[id].isFolded && id !in t.playersAllIn
  {
    var notFolded := NotFolded(t.users, t.playersInHand);
    Excluding(notFolded, t.playersAllIn)
  }

  /** `ids.filter(id => !s.has(id))`. */
  function Excluding(ids: seq<string>, s: set<string>): (r: seq<string>)
    ensures forall y :: y in r <==> y in ids && y !in s
  {
    if ids == [] then []
    else
      var rest := Excluding(ids[1..], s);
      assert ids == [ids[0]] + ids[1..];
      if ids[0] !in s then [ids[0]] + rest else rest
  }

  /** The street is over: somebody can still act and all of them have acted. */
  predicate StreetComplete(t: Table)
    requires Valid(t)
  {
    var active := ActivePlayers(t);
    |active| > 0 && forall i :: 0 <= i < |active| ==> active[i] in t.playersActedThisRound
  }

  /** A table that differs from a valid one only outside what `Valid` looks at is valid. */
  lemma ValidFrame(t: Table, t': Table)
    requires Valid(t)
    requires t'.users.Keys == t.users.Keys
    requires forall id :: id in t'.users ==> t'.users[id].sessionId == t.users[id].sessionId
    requires t'.order == t.order && t'.playersInHand == t.playersInHand
    requires t'.currentPlayerIndex == t.currentPlayerIndex && t'.dealerIndex == t.dealerIndex
    ensures Valid(t')
  {
  }

  // ---------------------------------------------------------------------------
  // The handlers
  // ---------------------------------------------------------------------------

  /** `onJoin(client, options)`: name "" and chips 0 stand for the option being absent (or falsy). */
  function Join(t: Table, id: string, name: string, chips: int): Res
  {
    var p := NewPlayer(id).(
      name := if name != "" then name else "Player-" + id[..Min(4, |id|)],
      chips := if chips != 0 then chips else StartingChips);
    Res(Done, t.(users := t.users[id := p], order := if id in t.users then t.order else t.order + [id]))
  }

  /** `onLeave(client)`: fold the leaver, end their turn if it is theirs, drop them from the hand. */
  function Leave(t: Table, id: string): Res
    requires Valid(t)
  {
    if id in t.users then
      var t1 := t.(users := t.users[id := t.users[id].(isFolded := true)]);
      ValidFrame(t, t1);
      var r1 := if t.currentTurn == id then EndTurn(t1) else Res(Done, t1);
      if r1.outcome == Hung then r1
      else SettleIfAlone(r1.table.(playersInHand := RemoveFirst(r1.table.playersInHand, id)))
    else SettleIfAlone(t)
  }

  /** The tail of `onLeave`: one player left in a running hand wins it. */
  function SettleIfAlone(t: Table): Res
  {
    if |t.playersInHand| == 1 && t.roundStarted then EndRound(t, [t.playersInHand[0]]) else Res(Done, t)
  }

  /** `handleStartGame`. */
  function StartGame(t: Table, js: seq<int>): Res
    requires Valid(t) && ShuffleOracle(js)
  {
    if |t.users| < 2 then Res(Rejected(TooFewPlayers), t)
    else if t.roundStarted then Res(Rejected(GameInProgress), t)
    else StartNewHand(t, js)
  }

  /** `(dealerIndex + 1) % players.length`. */
  function NextDealer(d: Num, n: nat): Num
  {
    if d.Int? && n > 0 then Int((d.n + 1) % n) else NaN
  }

  /** The resets at the top of `startNewHand`, `resetDeck()` included. */
  function ClearHand(t: Table, js: seq<int>): Table
    requires ShuffleOracle(js)
  {
    t.(deck := ShuffledDeck(js), communityCards := [], pot := 0, currentBet := 0, lastRaiser := "",
       playersInHand := [], playersActedThisRound := {}, playersAllIn := {})
  }

  /** The part of `startNewHand` before `postBlinds`: reset, seat the players with chips, deal, move the button. */
  function DealHand(t: Table, js: seq<int>): Table
    requires Valid(t) && ShuffleOracle(js)
  {
    var t1 := ClearHand(t, js);
    var players := Eligible(t1.users, t1.order);
    var (u, d) := Seat(t1.users, t1.deck, players);
    t1.(users := u, deck := d, playersInHand := players,
        dealerIndex := NextDealer(t1.dealerIndex, |players|), roundStarted := true, phase := Preflop)
  }

  lemma DealHandValid(t: Table, js: seq<int>)
    requires Valid(t) && ShuffleOracle(js)
    ensures Valid(DealHand(t, js))
  {
    var t1 := ClearHand(t, js);
    var players := Eligible(t1.users, t1.order);
    SeatFacts(t1.users, t1.deck, players);
  }

  /** `startNewHand`: deal, post the blinds, open the preflop street. */
  function StartNewHand(t: Table, js: seq<int>): Res
    requires Valid(t) && ShuffleOracle(js)
  {
    DealHandValid(t, js);
    var r := PostBlinds(DealHand(t, js));
    if r.outcome == Threw then r else Res(r.outcome, StartBettingRound(r.table))
  }

  /** `startBettingRound`. */
  function StartBettingRound(t: Table): Table
  {
    t.(playersActedThisRound := {})
  }

  /** One blind: the player puts in `cap` or their whole stack, whichever is less, as their bet. */
  function PostBlind(t: Table, id: string, cap: int): Table
    requires id in t.users
  {
    var p := t.users[id];
    var x := Min(cap, p.chips);
    t.(users := t.users[id := p.(chips := p.chips - x, currentBet := x)], pot := t.pot + x)
  }

  /** `postBlinds`; it throws when the dealer index is NaN or nobody is in the hand. */
  function PostBlinds(t: Table): Res
    requires Valid(t)
  {
    if t.dealerIndex.NaN? || |t.playersInHand| == 0 then Res(Threw, t)
    else
      var n := |t.playersInHand|;
      var sbId := t.playersInHand[Ahead(t.dealerIndex.n, 1, n)];
      var bbPos := Ahead(t.dealerIndex.n, 2, n);
      var bbId := t.playersInHand[bbPos];
      var t1 := PostBlind(t, sbId, SmallBlind);
      var t2 := PostBlind(t1, bbId, BigBlind);
      var next := Ahead(bbPos, 1, n);
      Res(Done, t2.(currentBet := Min(BigBlind, t1.users[bbId].chips), currentPlayerIndex := next,
                    currentTurn := t.playersInHand[next], turnTimerArmed := true))
  }

  /** The shared guard of the player actions. */
  predicate CanAct(t: Table, sender: string)
  {
    sender == t.currentTurn && sender in t.users && !t.users[sender].isFolded
  }

  /** `handleBet(amount)`. */
  function Bet(t: Table, sender: string, amount: int): Res
    requires Valid(t)
  {
    if !CanAct(t, sender) then Res(Ignored, t)
    else if amount < t.currentBet then Res(Rejected(BetTooSmall), t)
    else if amount - t.users[sender].currentBet > t.users[sender].chips then Res(Rejected(NotEnoughChips), t)
    else PlaceBetValid(t, sender, amount); EndTurn(PlaceBet(t, sender, amount))
  }

  /** Moving `x` chips from a player's stack to their bet and to the pot. */
  function Contribute(t: Table, id: string, x: int): Table
    requires id in t.users
  {
    var p := t.users[id];
    t.(users := t.users[id := p.(chips := p.chips - x, currentBet := p.currentBet + x)], pot := t.pot + x)
  }

  /** The state change of an accepted bet, before `endTurn`. */
  function PlaceBet(t: Table, sender: string, amount: int): Table
    requires sender in t.users
  {
    var t1 := Contribute(t, sender, amount - t.users[sender].currentBet);
    var t2 := if amount > t.currentBet
              then t1.(currentBet := amount, lastRaiser := sender, playersActedThisRound := {})
              else t1;
    t2.(playersActedThisRound := t2.playersActedThisRound + {sender})
  }

  /** An accepted bet keeps the table well formed. */
  lemma PlaceBetValid(t: Table, sender: string, amount: int)
    requires Valid(t) && sender in t.users
    ensures Valid(PlaceBet(t, sender, amount))
  {
    ValidFrame(t, PlaceBet(t, sender, amount));
  }

  /** `handleRaise(amount)`: a bet of the current bet plus `amount`. */
  function Raise(t: Table, sender: string, amount: int): Res
    requires Valid(t)
  {
    Bet(t, sender, RaiseTarget(t, amount))
  }

  /** The amount `handleRaise` bets: the table's current bet plus the raise. */
  function RaiseTarget(t: Table, amount: int): int
  {
    t.currentBet + amount
  }

  /** The bridge from a raise to the bet it places, for callers that name the target. */
  lemma RaiseIsBet(t: Table, sender: string, amount: int, target: int)
    requires Valid(t) && target == RaiseTarget(t, amount)
    ensures Raise(t, sender, amount) == Bet(t, sender, target)
  {
  }

  /** `handleCall`. */
  function Call(t: Table, sender: string): Res
    requires Valid(t)
  {
    if !CanAct(t, sender) then Res(Ignored, t)
    else if t.currentBet - t.users[sender].currentBet <= 0 then Check(t, sender)
    else PlaceCallValid(t, sender); EndTurn(PlaceCall(t, sender))
  }

  /** The state change of a call, before `endTurn`: at most the player's whole stack moves. */
  function PlaceCall(t: Table, sender: string): Table
    requires sender in t.users
  {
    var toCall := t.currentBet - t.users[sender].currentBet;
    var actual := Min(toCall, t.users[sender].chips);
    var t1 := Contribute(t, sender, actual).(playersActedThisRound := t.playersActedThisRound + {sender});
    if actual < toCall then t1.(playersAllIn := t.playersAllIn + {sender}) else t1
  }

  /** An accepted call keeps the table well formed. */
  lemma PlaceCallValid(t: Table, sender: string)
    requires Valid(t) && sender in t.users
    ensures Valid(PlaceCall(t, sender))
  {
    ValidFrame(t, PlaceCall(t, sender));
  }

  /** `handleCheck`. */
  function Check(t: Table, sender: string): Res
    requires Valid(t)
  {
    if !CanAct(t, sender) then Res(Ignored, t)
    else if t.users[sender].currentBet < t.currentBet then Res(Rejected(MustCallOrFold), t)
    else EndTurn(t.(playersActedThisRound := t.playersActedThisRound + {sender}))
  }

  /** `handleFold`. */
  function Fold(t: Table, sender: string): Res
    requires Valid(t)
  {
    if !CanAct(t, sender) then Res(Ignored, t)
    else
      FoldOutValid(t, sender);
      var t1 := FoldOut(t, sender);
      if |t1.playersInHand| == 1 then EndRound(t1, [t1.playersInHand[0]]) else EndTurn(t1)
  }

  /** The state change of a fold: flag the player and filter them out of the hand. */
  function FoldOut(t: Table, sender: string): Table
    requires sender in t.users
  {
    t.(users := t.users[sender := t.users[sender].(isFolded := true)],
       playersInHand := Without(t.playersInHand, sender))
  }

  lemma FoldOutValid(t: Table, sender: string)
    requires Valid(t) && sender in t.users
    ensures Valid(FoldOut(t, sender))
  {
    ValidFrame(t, t.(users := t.users[sender := t.users[sender].(isFolded := true)]));
  }

  /** `endTurn`: close the street if everyone able to act has acted, otherwise pass the turn on. */
  function EndTurn(t: Table): Res
    requires Valid(t)
  {
    var t0 := t.(turnTimerArmed := false);
    if StreetComplete(t0) then ProceedToNextPhase(t0) else Rotate(t0)
  }

  /** The rotation loop of `endTurn`: the next seat after `currentPlayerIndex` whose player has not folded. */
  function Rotate(t: Table): Res
    requires t.currentPlayerIndex >= -1
  {
    var n := |t.playersInHand|;
    if n == 0 then Res(Hung, t)
    else
      match NextLive(t.users, t.playersInHand, t.currentPlayerIndex, n)
      case None => Res(Hung, t)
      case Some(j) =>
        Res(Done, t.(currentPlayerIndex := j, currentTurn := t.playersInHand[j], turnTimerArmed := true))
  }

  /** `proceedToNextPhase`: clear the bets, then pay out after the river or open the next street. */
  function ProceedToNextPhase(t: Table): Res
    requires Valid(t)
  {
    var t1 := ClearBets(t);
    if t1.phase == River then EndRound(t1, DetermineWinners(t1))
    else OpenStreet(DealStreet(t1))
  }

  /** The `forEach` that zeroes every player's bet, and the table's current bet. */
  function ClearBets(t: Table): (t': Table)
    ensures t'.users.Keys == t.users.Keys
  {
    t.(users := ZeroBets(t.users, t.order), currentBet := 0)
  }

  /** The `switch` of `proceedToNextPhase`: the next phase and its community cards. */
  function DealStreet(t: Table): Table
  {
    match t.phase
    case Preflop =>
      var (c1, d1) := Deal(t.deck);
      var (c2, d2) := Deal(d1);
      var (c3, d3) := Deal(d2);
      t.(phase := Flop, communityCards := t.communityCards + [c1, c2, c3], deck := d3)
    case Flop =>
      var (c, d) := Deal(t.deck);
      t.(phase := Turn, communityCards := t.communityCards + [c], deck := d)
    case Turn =>
      var (c, d) := Deal(t.deck);
      t.(phase := River, communityCards := t.communityCards + [c], deck := d)
    case _ => t
  }

  /** The tail of `proceedToNextPhase`: the first non-folded player in the hand opens the street. */
  function OpenStreet(t: Table): Res
    requires forall id :: id in t.playersInHand ==> id in t.users
  {
    var k := FirstNotFolded(t.users, t.playersInHand);
    if k == -1 then EndRound(t.(currentPlayerIndex := -1), [])
    else Res(Done, StartBettingRound(t.(currentPlayerIndex := k, currentTurn := t.playersInHand[k])).(turnTimerArmed := true))
  }

  /** `determineWinners`: every player of the hand who has not folded. */
  function DetermineWinners(t: Table): seq<string>
    requires forall id :: id in t.playersInHand ==> id in t.users
  {
    NotFolded(t.users, t.playersInHand)
  }

  /** `endRound(winners)`: each winner gets `floor(pot / winners.length)`; the next hand is scheduled. */
  function EndRound(t: Table, winners: seq<string>): Res
  {
    var share := if |winners| > 0 then t.pot / |winners| else 0;
    Res(Done, t.(turnTimerArmed := false, users := Credit(t.users, winners, share),
                 pendingNextHand := t.pendingNextHand + 1))
  }

  /** The turn-timer callback: fold the player whose turn it is, if they are seated and not folded. */
  function TurnTimeout(t: Table): Res
    requires Valid(t)
  {
    if !t.turnTimerArmed then Res(Ignored, t)
    else
      var t1 := t.(turnTimerArmed := false);
      if Live(t1.users, t1.currentTurn) then Fold(t1, t1.users[t1.currentTurn].sessionId) else Res(Done, t1)
  }

  /** The next-hand callback scheduled by `endRound`. */
  function NextHandDelay(t: Table, js: seq<int>): Res
    requires Valid(t) && ShuffleOracle(js)
  {
    if t.pendingNextHand == 0 then Res(Ignored, t)
    else
      var t1 := t.(pendingNextHand := t.pendingNextHand - 1);
      if |t1.users| >= 2 then StartNewHand(t1, js) else Res(Done, t1.(roundStarted := false))
  }

  // ---------------------------------------------------------------------------
  // Dispatch
  // ---------------------------------------------------------------------------

  /** What can happen to the room: a client joins or leaves, a message arrives, a timer fires. */
  datatype Event =
    | Joined(id: string, name: string, chips: int)
    | Left(id: string)
    | StartGameMsg(js: seq<int>)
    | BetMsg(sender: string, amount: int)
    | CallMsg(sender: string)
    | CheckMsg(sender: string)
    | FoldMsg(sender: string)
    | RaiseMsg(sender: string, amount: int)
    | TurnTimerFired
    | NextHandTimerFired(js: seq<int>)

  /** The random draws an event brings with it are in range. */
  ghost predicate Allowed(e: Event)
  {
    match e
    case StartGameMsg(js) => ShuffleOracle(js)
    case NextHandTimerFired(js) => ShuffleOracle(js)
    case _ => true
  }

  /** The handler `onCreate` registers for each message, the lifecycle hooks and the two timer callbacks. */
  function Step(t: Table, e: Event): Res
    requires Valid(t) && Allowed(e)
  {
    match e
    case Joined(id, name, chips) => Join(t, id, name, chips)
    case Left(id) => Leave(t, id)
    case StartGameMsg(js) => StartGame(t, js)
    case BetMsg(sender, amount) => Bet(t, sender, amount)
    case CallMsg(sender) => Call(t, sender)
    case CheckMsg(sender) => Check(t, sender)
    case FoldMsg(sender) => Fold(t, sender)
    case RaiseMsg(sender, amount) => Raise(t, sender, amount)
    case TurnTimerFired => TurnTimeout(t)
    case NextHandTimerFired(js) => NextHandDelay(t, js)
  }
}
