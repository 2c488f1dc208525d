/**
 * The table's replicated state: the per-player record, the card deck and the
 * shared fields of the room (src/rooms/schema/MyRoomState.ts).
 */
module RoomSchema {

  datatype Option<T> = None | Some(value: T)

  /** The suits and ranks, in the order `resetDeck` walks them (suits outer, ranks inner). */
  const Suits: seq<string> := ["H", "D", "C", "S"]
  const Ranks: seq<string> := ["2", "3", "4", "5", "6", "7", "8", "9", "10", "J", "Q", "K", "A"]
  const DeckSize: nat := 52

  /** The chip stack a new `Player` is created with. */
  const StartingChips: int := 1000

  /** The phases the `phase` string takes on the live path ("showdown" is never stored). */
  datatype Phase = Waiting | Preflop | Flop | Turn | River

  /** One seated player; the room keeps these as values in its `users` map. */
  datatype Player = Player(
    sessionId: string,
    name: string,
    hand: seq<string>,
    chips: int,
    currentBet: int,
    isFolded: bool)

  /** `new Player(sessionId)` with the schema's field defaults. */
  function NewPlayer(sessionId: string): (p: Player)
    ensures p.sessionId == sessionId && p.name == "" && p.hand == []
    ensures p.chips == StartingChips && p.currentBet == 0 && !p.isFolded
  {
    Player(sessionId, "", [], StartingChips, 0, false)
  }

  // ---------------------------------------------------------------------------
  // The deck
  // ---------------------------------------------------------------------------

  /** The token pushed at position k of the construction loop: rank `k % 13` of suit `k / 13`. */
  function Token(k: nat): string
    requires k < DeckSize
  {
    Ranks[k % 13] + Suits[k / 13]
  }

  /** The deck as the nested construction loop leaves it, before shuffling. */
  function FreshDeck(): seq<string>
  {
    seq(DeckSize, k requires 0 <= k < DeckSize => Token(k))
  }

  /** No value occurs twice. */
  ghost predicate Distinct(s: seq<string>)
  {
    forall x :: multiset(s)[x] <= 1
  }

  lemma SuitsAndRanksDistinct()
    ensures forall i, j :: 0 <= i < j < |Suits| ==> Suits[i] != Suits[j]
    ensures forall i, j :: 0 <= i < j < |Ranks| ==> Ranks[i] != Ranks[j]
    ensures forall i :: 0 <= i < |Suits| ==> |Suits[i]| == 1
  {
  }

  /** A token determines its position in the fresh deck: the suit is its last character, the rank the rest. */
  lemma TokenInjective(a: nat, b: nat)
    requires a < DeckSize && b < DeckSize && Token(a) == Token(b)
    ensures a == b
  {
    SuitsAndRanksDistinct();
    var ra, sa, rb, sb := Ranks[a % 13], Suits[a / 13], Ranks[b % 13], Suits[b / 13];
    var t := Token(a);
    assert t == ra + sa && t == rb + sb;
    assert t[|t| - 1] == sa[0] && t[|t| - 1] == sb[0];
    assert sa == [sa[0]] && sb == [sb[0]];
    assert a / 13 == b / 13;
    assert |ra| == |rb|;
    assert ra == t[..|ra|] == rb;
    assert a % 13 == b % 13;
  }

  /** The construction loop yields 52 tokens, the k-th being `Token(k)`. */
  lemma FreshDeckIndex()
    ensures |FreshDeck()| == DeckSize
    ensures forall k :: 0 <= k < DeckSize ==> FreshDeck()[k] == Token(k)
  {
  }

  /** Rank r of suit s sits at position 13 * s + r of the fresh deck. */
  lemma FreshDeckBySuit()
    ensures forall s, r :: 0 <= s < |Suits| && 0 <= r < |Ranks| ==> FreshDeck()[13 * s + r] == Ranks[r] + Suits[s]
  {
    FreshDeckIndex();
    forall s, r | 0 <= s < |Suits| && 0 <= r < |Ranks|
      ensures FreshDeck()[13 * s + r] == Ranks[r] + Suits[s]
    {
      TokenAt(s, r);
    }
  }

  /** No token occurs twice in the fresh deck. */
  lemma FreshDeckDistinct()
    ensures Distinct(FreshDeck())
  {
    var d := FreshDeck();
    FreshDeckIndex();
    forall i, j | 0 <= i < j < |d|
      ensures d[i] != d[j]
    {
      if d[i] == d[j] {
        TokenInjective(i, j);
      }
    }
    DistinctIndices(d);
  }

  /** A deck of 52 holding rank r of suit s at position 13 * s + r is the fresh deck. */
  lemma FreshDeckBySuitAndRank(d: seq<string>)
    requires |d| == DeckSize
    requires forall s, r :: 0 <= s < |Suits| && 0 <= r < |Ranks| ==> d[13 * s + r] == Ranks[r] + Suits[s]
    ensures d == FreshDeck()
  {
    FreshDeckIndex();
    forall k | 0 <= k < DeckSize ensures d[k] == FreshDeck()[k] {
      var s, r := k / 13, k % 13;
      TokenAt(s, r);
      assert k == 13 * s + r;
    }
  }

  /** Distinctness by multiplicity is distinctness by position. */
  lemma {:induction false} DistinctIndices(s: seq<string>)
    ensures Distinct(s) <==> forall i, j :: 0 <= i < j < |s| ==> s[i] != s[j]
  {
    if s != [] {
      var t, y := s[..|s| - 1], s[|s| - 1];
      assert s == t + [y];
      DistinctIndices(t);
      assert multiset(s) == multiset(t) + multiset{y};
      assert forall x :: multiset(t)[x] <= multiset(s)[x];
      if Distinct(s) {
        assert multiset(t)[y] == 0;
        forall i, j | 0 <= i < j < |s| ensures s[i] != s[j] {
          if j < |s| - 1 {
            assert s[i] == t[i] && s[j] == t[j];
          } else {
            assert s[i] == t[i] && t[i] in t;
          }
        }
      }
      if forall i, j :: 0 <= i < j < |s| ==> s[i] != s[j] {
        assert forall i :: 0 <= i < |t| ==> t[i] == s[i] && s[i] != s[|s| - 1];
        assert y !in t;
        assert Distinct(t);
      }
    }
  }

  /** The token of rank r and suit s sits at position 13 * s + r. */
  lemma TokenAt(s: nat, r: nat)
    requires s < |Suits| && r < |Ranks|
    ensures 13 * s + r < DeckSize && Token(13 * s + r) == Ranks[r] + Suits[s]
  {
    var k := 13 * s + r;
    assert k / 13 == s && k % 13 == r;
  }

  /** Exchanging two positions, as the destructuring assignment in the shuffle loop does. */
  function Swap(d: seq<string>, i: nat, j: nat): (r: seq<string>)
    requires i < |d| && j < |d|
    ensures |r| == |d|
  {
    d[i := d[j]][j := d[i]]
  }

  /** An exchange moves cards but neither adds nor loses any. */
  lemma SwapPermutes(d: seq<string>, i: nat, j: nat)
    requires i < |d| && j < |d|
    ensures multiset(Swap(d, i, j)) == multiset(d)
  {
  }

  /**
   * The random indices the shuffle draws: `js[i]` stands for
   * `Math.floor(Math.random() * (i + 1))`, which always lies in [0, i].
   */
  predicate ShuffleOracle(js: seq<int>)
  {
    |js| == DeckSize && forall i :: 0 < i < DeckSize ==> 0 <= js[i] <= i
  }

  /** The countdown loop of the shuffle from position i down to 1. */
  function ShuffleFrom(d: seq<string>, js: seq<int>, i: int): (r: seq<string>)
    requires i < |d| && i < |js|
    requires forall k :: 0 < k <= i ==> 0 <= js[k] <= k
    ensures |r| == |d|
    decreases i
  {
    if i <= 0 then d else ShuffleFrom(Swap(d, i, js[i]), js, i - 1)
  }

  /** The countdown loop only rearranges the deck. */
  lemma {:induction false} ShuffleFromPermutes(d: seq<string>, js: seq<int>, i: int)
    requires i < |d| && i < |js|
    requires forall k :: 0 < k <= i ==> 0 <= js[k] <= k
    ensures multiset(ShuffleFrom(d, js, i)) == multiset(d)
    decreases i
  {
    if i > 0 {
      SwapPermutes(d, i, js[i]);
      ShuffleFromPermutes(Swap(d, i, js[i]), js, i - 1);
    }
  }

  /** The deck `resetDeck` leaves for the oracle `js`. */
  function ShuffledDeck(js: seq<int>): seq<string>
    requires ShuffleOracle(js)
  {
    FreshDeckIndex();
    ShuffleFrom(FreshDeck(), js, DeckSize - 1)
  }

  /** Whatever indices the shuffle draws, the deck holds each of the 52 tokens exactly once. */
  lemma ShuffledDeckIsPermutation(js: seq<int>)
    requires ShuffleOracle(js)
    ensures |ShuffledDeck(js)| == DeckSize
    ensures multiset(ShuffledDeck(js)) == multiset(FreshDeck())
    ensures Distinct(ShuffledDeck(js))
    ensures forall k :: 0 <= k < DeckSize ==> Token(k) in ShuffledDeck(js)
    ensures forall c :: c in ShuffledDeck(js) ==> c in FreshDeck()
  {
    FreshDeckIndex();
    FreshDeckDistinct();
    var d, f := ShuffledDeck(js), FreshDeck();
    ShuffleFromPermutes(f, js, DeckSize - 1);
    SameMembers(d, f);
    forall k | 0 <= k < DeckSize ensures Token(k) in d {
      assert f[k] == Token(k);
    }
  }

  /** Two sequences with the same multiset have the same members. */
  lemma SameMembers(a: seq<string>, b: seq<string>)
    requires multiset(a) == multiset(b)
    ensures forall c :: c in a <==> c in b
  {
    forall c ensures c in a <==> c in b {
      assert c in a <==> c in multiset(a);
      assert c in b <==> c in multiset(b);
    }
  }

  /** `deck.shift() || ""`: the front card and the rest; "" and an empty deck when there is none. */
  function Deal(deck: seq<string>): (r: (string, seq<string>))
    ensures deck != [] ==> [r.0] + r.1 == deck
    ensures deck == [] ==> r.0 == "" && r.1 == []
  {
    if deck == [] then ("", []) else (deck[0], deck[1..])
  }

  // ---------------------------------------------------------------------------
  // The room state object
  // ---------------------------------------------------------------------------

  /**
   * The shared table fields. `users` is a map from session id to player;
   * `order` is the map's insertion order, which `Array.from(users.values())`
   * and `users.forEach` follow.
   */
  class RoomState {
    var users: map<string, Player>
    var order: seq<string>
    var deck: seq<string>
    var communityCards: seq<string>
    var pot: int
    var currentBet: int
    var currentTurn: string
    var roundStarted: bool
    var phase: Phase
    var lastRaiser: string

    /** The field initialisers followed by `resetDeck()`. */
    constructor (js: seq<int>)
      requires ShuffleOracle(js)
      ensures users == map[] && order == []
      ensures deck == ShuffledDeck(js) && communityCards == []
      ensures pot == 0 && currentBet == 0 && currentTurn == ""
      ensures !roundStarted && phase == Waiting && lastRaiser == ""
    {
      users := map[];
      order := [];
      deck := [];
      communityCards := [];
      pot := 0;
      currentBet := 0;
      currentTurn := "";
      roundStarted := false;
      phase := Waiting;
      lastRaiser := "";
      new;
      ResetDeck(js);
    }

    /** Rebuilds the 52 tokens and shuffles them in place with the indices `js`. */
    method ResetDeck(js: seq<int>)
      requires ShuffleOracle(js)
      modifies this`deck
      ensures deck == ShuffledDeck(js)
    {
      deck := [];
      for s := 0 to |Suits|
        invariant |deck| == 13 * s
        invariant forall s', r' :: 0 <= s' < s && 0 <= r' < |Ranks| ==> deck[13 * s' + r'] == Ranks[r'] + Suits[s']
      {
        for r := 0 to |Ranks|
          invariant |deck| == 13 * s + r
          invariant forall s', r' :: 0 <= s' < s && 0 <= r' < |Ranks| ==> deck[13 * s' + r'] == Ranks[r'] + Suits[s']
          invariant forall r' :: 0 <= r' < r ==> deck[13 * s + r'] == Ranks[r'] + Suits[s]
        {
          deck := deck + [Ranks[r] + Suits[s]];
        }
      }
      FreshDeckBySuitAndRank(deck);
      Shuffle(js);
    }

    /** The countdown loop of `resetDeck`: position i trades places with the drawn position `js[i]`. */
    method Shuffle(js: seq<int>)
      requires ShuffleOracle(js) && |deck| == DeckSize
      modifies this`deck
      ensures deck == ShuffleFrom(old(deck), js, DeckSize - 1)
    {
      ghost var d0 := deck;
      var i := |deck| - 1;
      while i > 0
        invariant 0 <= i < DeckSize && |deck| == DeckSize
        invariant ShuffleFrom(deck, js, i) == ShuffleFrom(d0, js, DeckSize - 1)
      {
        var j := js[i];
        deck := deck[i := deck[j]][j := deck[i]];
        i := i - 1;
      }
    }

    /** Removes and returns the front card, or "" when the deck is empty. */
    method DealCard() returns (card: string)
      modifies this`deck
      ensures (card, deck) == Deal(old(deck))
    {
      if |deck| > 0 {
        card := deck[0];
        deck := deck[1..];
      } else {
        card := "";
      }
    }
  }
}
