/**
 * The card deck (`CardDeck.cs`): an array of card ids that is shuffled in
 * place under one of three deal disciplines, drawing its swap partners from
 * the deck's own random generator.
 */
module Deck {
  import opened Arith
  import opened Cards
  import opened Swaps
  import opened Randomness
  import opened Deals

  /** The deal disciplines `Shuffle` distinguishes; `Standard` stands for every other value of the enumeration. */
  datatype DealType = SequentialSuits | RandomSuits | Standard

  /** The card order a shuffle under `deal` leaves, from cards `s` and the choices from `at` on. */
  function DealOf(deal: DealType, s: seq<int>, stream: nat -> nat, at: nat, S: nat, V: nat): (d: seq<int>)
    requires S >= 1 && |s| == S * V
    ensures |d| == |s|
  {
    match deal
    case SequentialSuits => SequentialDeal(stream, at, S, V)
    case RandomSuits => RandomDeal(stream, at, S, V)
    case Standard => SwapPass(s, DrawnPartners(stream, at, |s|), Draws(|s|))
  }

  /** How many random choices a shuffle under `deal` draws. */
  function DrawsOf(deal: DealType, S: nat, V: nat): nat {
    match deal
    case SequentialSuits => SuitStart(0, S, V)
    case RandomSuits => BlockStart(SuitStart(0, S, V), V, S)
    case Standard => Draws(S * V)
  }

  /** The sequential deal holds every card once, so with its Aces pulled out it is a fresh deal. */
  lemma SequentialDealKeepsAces(stream: nat -> nat, at: nat, S: nat, V: nat)
    requires S >= 1 && V >= 1
    ensures Dealable(SequentialDeal(stream, at, S, V), S, V)
  {
    SequentialDealIsPermutation(stream, at, S, V);
    ZeroAcesPermutation(SequentialDeal(stream, at, S, V), Identity(S * V), V);
  }

  /** So does the random deal. */
  lemma RandomDealKeepsAces(stream: nat -> nat, at: nat, S: nat, V: nat)
    requires S >= 1 && V >= 1
    ensures Dealable(RandomDeal(stream, at, S, V), S, V)
  {
    RandomDealIsPermutation(stream, at, S, V);
    ZeroAcesPermutation(RandomDeal(stream, at, S, V), Identity(S * V), V);
  }

  /** A standard shuffle rearranges the deck, so it keeps the deck's invariant. */
  lemma SwapPassKeepsAces(s: seq<int>, ps: seq<int>, n: nat, S: nat, V: nat)
    requires n <= |ps| && SattoloPartners(ps, |s|)
    requires V > 0 && Dealable(s, S, V)
    ensures Dealable(SwapPass(s, ps, n), S, V)
  {
    SwapPassPermutes(s, ps, n);
    ZeroAcesPermutation(SwapPass(s, ps, n), s, V);
  }

  /**
   * `c` with slot `j' * S + i` holding `col[j']` for every `j' < j`: the
   * first `j` writes with which the sequential deal places suit `i`.
   */
  ghost function DealColumn(c: seq<int>, S: nat, i: nat, col: seq<int>, j: nat): (r: seq<int>)
    requires i < S && j <= |col| && |c| == S * |col|
    ensures |r| == |c|
  {
    if j == 0 then c
    else
      GridIndexInRange(j - 1, S, i, |col|);
      DealColumn(c, S, i, col, j - 1)[(j - 1) * S + i := col[j - 1]]
  }

  lemma {:induction false} DealColumnAt(c: seq<int>, S: nat, i: nat, col: seq<int>, j: nat, q: int, r: int)
    requires i < S && j <= |col| && |c| == S * |col| && 0 <= r < S && 0 <= q * S + r < |c|
    ensures DealColumn(c, S, i, col, j)[q * S + r] == if r == i && 0 <= q < j then col[q] else c[q * S + r]
  {
    if j > 0 {
      DealColumnAt(c, S, i, col, j - 1, q, r);
      GridSlotInjective(q, r, j - 1, i, S);
    }
  }

  /** The slots of the first `i` suits' columns hold what the sequential deal puts there. */
  ghost predicate DealtUpTo(c: seq<int>, stream: nat -> nat, at: nat, S: nat, V: nat, i: nat)
    requires S >= 1 && |c| == S * V
  {
    forall k :: 0 <= k < |c| && k % S < i ==> c[k] == DealtCard(stream, at, S, V, k)
  }

  /** Placing shuffled suit `i` as column `i` extends a deal of the columns before it to the columns up to it. */
  lemma DealColumnExtends(c: seq<int>, stream: nat -> nat, at: nat, S: nat, V: nat, i: nat)
    requires i < S && |c| == S * V && DealtUpTo(c, stream, at, S, V, i)
    ensures DealtUpTo(DealColumn(c, S, i, ShuffledSuit(stream, SuitStart(at, i, V), i, V), V), stream, at, S, V, i + 1)
  {
    var col := ShuffledSuit(stream, SuitStart(at, i, V), i, V);
    forall k | 0 <= k < |c| && k % S <= i
      ensures DealColumn(c, S, i, col, V)[k] == DealtCard(stream, at, S, V, k)
    {
      Split(k, S);
      QuotientBelow(k, S, V);
      DealColumnAt(c, S, i, col, V, k / S, k % S);
    }
  }

  /** Once every column is placed, the slots hold the whole sequential deal. */
  lemma DealtUpToAll(c: seq<int>, stream: nat -> nat, at: nat, S: nat, V: nat)
    requires S >= 1 && |c| == S * V && DealtUpTo(c, stream, at, S, V, S)
    ensures c == SequentialDeal(stream, at, S, V)
  {
    forall k | 0 <= k < |c| ensures c[k] == SequentialDeal(stream, at, S, V)[k] {
      assert k % S < S;
    }
  }

  /**
   * The shuffle loop all three deals share: step `j` exchanges slot `base + j`
   * with slot `base + Next(j + 1, L)`, for every slot of the range but its last.
   */
  method ShuffleRange(a: array<int>, base: nat, L: nat, rng: Rng)
    requires base + L <= a.Length
    modifies a, rng
    ensures a[..] == SwapPassAt(old(a[..]), base, L, DrawnPartners(rng.stream, old(rng.drawn), L), Draws(L))
    ensures rng.drawn == old(rng.drawn) + Draws(L)
  {
    ghost var ps := DrawnPartners(rng.stream, rng.drawn, L);
    var j := 0;
    while j < L - 1
      invariant 0 <= j <= Draws(L)
      invariant rng.drawn == old(rng.drawn) + j
      invariant a[..] == SwapPassAt(old(a[..]), base, L, ps, j)
    {
      ShuffleStep(a, base, L, j, rng, old(a[..]), ps);
      j := j + 1;
    }
  }

  /** Step `j` of `ShuffleRange`: draws `ps[j]` and exchanges slots `base + j` and `base + ps[j]`. */
  method ShuffleStep(a: array<int>, base: nat, L: nat, j: nat, rng: Rng, ghost s: seq<int>, ghost ps: seq<int>)
    requires base + L <= |s| == a.Length && j + 1 < L && j < |ps| && SattoloPartners(ps, L)
    requires ps[j] == Pick(rng.stream, rng.drawn, j + 1, L)
    requires a[..] == SwapPassAt(s, base, L, ps, j)
    modifies a, rng
    ensures rng.drawn == old(rng.drawn) + 1
    ensures a[..] == SwapPassAt(s, base, L, ps, j + 1)
  {
    var partner := rng.Next(j + 1, L);
    var indexToSwap := base + partner;
    var temp := a[base + j];
    a[base + j] := a[indexToSwap];
    a[indexToSwap] := temp;
  }

  /** The source's card counter is a `ushort`: incrementing 65535 gives 0. */
  function UShortIncrement(c: int): (r: int)
    requires 0 <= c < 0x1_0000
    ensures 0 <= r < 0x1_0000
    ensures c < 0xFFFF ==> r == c + 1
    ensures c == 0xFFFF ==> r == 0
  {
    (c + 1) % 0x1_0000
  }

  /** The source's card counter after `k` turns of the fill loop. */
  function CounterAfter(k: nat): (c: int)
    ensures 0 <= c < 0x1_0000
  {
    if k == 0 then 0 else UShortIncrement(CounterAfter(k - 1))
  }

  /** After `k` turns the counter holds `k` modulo 65536. */
  lemma {:induction false} CounterAfterIs(k: nat)
    ensures CounterAfter(k) == k % 0x1_0000
  {
    if k > 0 {
      CounterAfterIs(k - 1);
      ModSucc(k - 1, 0x1_0000);
    }
  }

  /**
   * The fill loop as written: with 65536 cards or more the counter wraps
   * back to 0 after every 65536 turns, and the loop test `cardNumber < n`
   * holds after every number of turns, so the loop never ends.
   */
  lemma CounterNeverReaches(n: int, k: nat)
    requires n >= 0x1_0000
    ensures CounterAfter(k) < n
    ensures k % 0x1_0000 == 0 ==> CounterAfter(k) == 0
  {
    CounterAfterIs(k);
  }

  class CardDeck {
    const suitCount: nat
    const valueCount: nat
    const cards: array<int>
    const rng: Rng

    /**
     * With its Aces pulled out, the deck is a fresh deal. Positions made from
     * the deck zero its Aces in place, and this invariant survives that.
     */
    ghost predicate Valid()
      reads cards
    {
      suitCount >= 1 && valueCount >= 1 && cards.Length == suitCount * valueCount &&
      Dealable(cards[..], suitCount, valueCount)
    }

    /**
     * A deck in id order. The counter is unbounded here; the source's 16-bit
     * counter never reaches the end of a deck of 65536 or more cards (`CounterNeverReaches`).
     */
    constructor (suitCount: nat, valueCount: nat, stream: nat -> nat)
      requires suitCount >= 1 && valueCount >= 1
      ensures this.suitCount == suitCount && this.valueCount == valueCount
      ensures cards[..] == Identity(suitCount * valueCount) && Valid()
      ensures fresh(cards) && fresh(rng) && rng.stream == stream && rng.drawn == 0
    {
      this.suitCount := suitCount;
      this.valueCount := valueCount;
      MulNonNegative(suitCount, valueCount);
      var a := new int[suitCount * valueCount];
      var cardNumber := 0;
      while cardNumber < suitCount * valueCount
        invariant 0 <= cardNumber <= suitCount * valueCount
        invariant forall k :: 0 <= k < cardNumber ==> a[k] == k
      {
        a[cardNumber] := cardNumber;
        cardNumber := cardNumber + 1;
      }
      cards := a;
      rng := new Rng(stream);
      new;
      assert cards[..] == Identity(suitCount * valueCount);
    }

    /** Shuffles under the given discipline. */
    method Shuffle(deal: DealType)
      requires Valid()
      modifies cards, rng
      ensures Valid()
      ensures cards[..] == DealOf(deal, old(cards[..]), rng.stream, old(rng.drawn), suitCount, valueCount)
      ensures rng.drawn == old(rng.drawn) + DrawsOf(deal, suitCount, valueCount)
    {
      match deal {
        case SequentialSuits =>
          ShuffleBySuitDealSequentially();
        case RandomSuits =>
          ShuffleBySuitDealRandomly();
        case Standard =>
          ShuffleStandard();
      }
    }

    /** Step `i` swaps slot `i` with a slot drawn from `(i, length)`. */
    method ShuffleStandard()
      requires Valid()
      modifies cards, rng
      ensures Valid()
      ensures cards[..] == SwapPass(old(cards[..]), DrawnPartners(rng.stream, old(rng.drawn), cards.Length), Draws(cards.Length))
      ensures rng.drawn == old(rng.drawn) + Draws(cards.Length)
    {
      ShuffleRange(cards, 0, cards.Length, rng);
      SwapPassAtWhole(old(cards[..]), DrawnPartners(rng.stream, old(rng.drawn), cards.Length), Draws(cards.Length));
      SwapPassKeepsAces(old(cards[..]), DrawnPartners(rng.stream, old(rng.drawn), cards.Length), Draws(cards.Length), suitCount, valueCount);
    }

    /**
     * Each suit in turn: its `V` cards are shuffled in a buffer, then card `j`
     * of the buffer goes to slot `j * S + i`.
     */
    method ShuffleBySuitDealSequentially()
      requires Valid()
      modifies cards, rng
      ensures Valid()
      ensures cards[..] == SequentialDeal(rng.stream, old(rng.drawn), suitCount, valueCount)
      ensures rng.drawn == SuitStart(old(rng.drawn), suitCount, valueCount)
    {
      DealSuitsSequentially();
      SequentialDealKeepsAces(rng.stream, old(rng.drawn), suitCount, valueCount);
    }

    /** The loop of the sequential deal: suit `i` is shuffled in a buffer, then placed as column `i`. */
    method DealSuitsSequentially()
      requires suitCount >= 1 && cards.Length == suitCount * valueCount
      modifies cards, rng
      ensures cards[..] == SequentialDeal(rng.stream, old(rng.drawn), suitCount, valueCount)
      ensures rng.drawn == SuitStart(old(rng.drawn), suitCount, valueCount)
    {
      var S, V := suitCount, valueCount;
      var i := 0;
      while i < S
        invariant 0 <= i <= S
        invariant rng.drawn == SuitStart(old(rng.drawn), i, V)
        invariant DealtUpTo(cards[..], rng.stream, old(rng.drawn), S, V, i)
      {
        ghost var dealtSoFar := cards[..];
        var cardsInSingleSuit := ShuffledSuitBuffer(i);
        PlaceSuit(i, cardsInSingleSuit);
        DealColumnExtends(dealtSoFar, rng.stream, old(rng.drawn), S, V, i);
        SuitStartStep(old(rng.drawn), i, V);
        i := i + 1;
      }
      DealtUpToAll(cards[..], rng.stream, old(rng.drawn), S, V);
    }

    /** The first half of a step of the sequential deal: a fresh buffer holding suit `i`, shuffled. */
    method ShuffledSuitBuffer(i: nat) returns (cardsInSingleSuit: array<int>)
      modifies rng
      ensures fresh(cardsInSingleSuit)
      ensures cardsInSingleSuit[..] == ShuffledSuit(rng.stream, old(rng.drawn), i, valueCount)
      ensures rng.drawn == old(rng.drawn) + Draws(valueCount)
    {
      var V := valueCount;
      cardsInSingleSuit := new int[V];
      var j := 0;
      while j < V
        invariant 0 <= j <= V
        invariant forall j' :: 0 <= j' < j ==> cardsInSingleSuit[j'] == i * V + j'
        modifies cardsInSingleSuit
      {
        cardsInSingleSuit[j] := i * V + j;
        j := j + 1;
      }
      assert cardsInSingleSuit[..] == SuitCards(i, V);
      ShuffleRange(cardsInSingleSuit, 0, V, rng);
      SwapPassAtWhole(SuitCards(i, V), DrawnPartners(rng.stream, old(rng.drawn), V), Draws(V));
    }

    /** The second half of a step of the sequential deal: card `j` of the buffer goes to slot `j * S + i`. */
    method PlaceSuit(i: nat, cardsInSingleSuit: array<int>)
      requires i < suitCount && cardsInSingleSuit.Length == valueCount && cardsInSingleSuit != cards
      requires cards.Length == suitCount * valueCount
      modifies cards
      ensures cards[..] == DealColumn(old(cards[..]), suitCount, i, cardsInSingleSuit[..], valueCount)
    {
      var S, V := suitCount, valueCount;
      var j := 0;
      while j < cardsInSingleSuit.Length
        invariant 0 <= j <= V
        invariant cards[..] == DealColumn(old(cards[..]), S, i, cardsInSingleSuit[..], j)
      {
        GridIndexInRange(j, S, i, V);
        cards[j * S + i] := cardsInSingleSuit[j];
        j := j + 1;
      }
    }

    /**
     * The sequential deal, then every block of `S` consecutive slots shuffled
     * among itself: step `j` of block `i` swaps slot `i * S + j` with a slot
     * of the block drawn from `(j, S)`.
     */
    method ShuffleBySuitDealRandomly()
      requires Valid()
      modifies cards, rng
      ensures Valid()
      ensures cards[..] == RandomDeal(rng.stream, old(rng.drawn), suitCount, valueCount)
      ensures rng.drawn == BlockStart(SuitStart(old(rng.drawn), suitCount, valueCount), valueCount, suitCount)
    {
      ShuffleBySuitDealSequentially();
      ShuffleEachBlock();
      RandomDealKeepsAces(rng.stream, old(rng.drawn), suitCount, valueCount);
    }

    /** The loop of the random deal: block `i`, slots `[i * S, i * S + S)`, is shuffled among itself. */
    method ShuffleEachBlock()
      requires cards.Length == suitCount * valueCount
      modifies cards, rng
      ensures cards[..] == ShuffleBlocks(old(cards[..]), suitCount, valueCount, rng.stream, old(rng.drawn), valueCount)
      ensures rng.drawn == BlockStart(old(rng.drawn), valueCount, suitCount)
    {
      var S, V := suitCount, valueCount;
      var i := 0;
      while i < V
        invariant 0 <= i <= V
        invariant rng.drawn == BlockStart(old(rng.drawn), i, S)
        invariant cards[..] == ShuffleBlocks(old(cards[..]), S, V, rng.stream, old(rng.drawn), i)
      {
        BlockFits(i, S, V);
        ShuffleRange(cards, i * S, S, rng);
        BlockStartStep(old(rng.drawn), i, S);
        i := i + 1;
      }
    }
  }
}
