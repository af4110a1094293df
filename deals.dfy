/**
 * The three deal disciplines of the card deck, as functions of the random
 * choices they draw. `Deck.CardDeck` is proved to compute exactly these, and
 * the lemmas here state what each deal guarantees about the resulting card
 * order.
 */
module Deals {
  import opened Arith
  import opened Cards
  import opened Swaps

  /** How many partners a shuffle of `n` slots draws: one for every slot but the last. */
  function Draws(n: int): (d: nat)
    ensures d == if n > 1 then n - 1 else 0
  {
    if n > 1 then n - 1 else 0
  }

  /** The `V` cards of suit `i`, in id order. */
  function SuitCards(i: int, V: nat): (s: seq<int>)
    ensures |s| == V && forall j :: 0 <= j < V ==> s[j] == i * V + j
  {
    seq(V, j => i * V + j)
  }

  /** Suit `i` after the shuffle that the sequential deal gives it, drawing from choice `at` on. */
  function ShuffledSuit(stream: nat -> nat, at: nat, i: int, V: nat): (s: seq<int>)
    ensures |s| == V
  {
    SwapPass(SuitCards(i, V), DrawnPartners(stream, at, V), Draws(V))
  }

  /** The choice at which the sequential deal starts shuffling suit `i`. */
  function SuitStart(at: nat, i: nat, V: nat): nat {
    MulNonNegative(i, Draws(V));
    at + i * Draws(V)
  }

  /** Suit `i + 1` starts where the shuffle of suit `i` stopped drawing. */
  lemma SuitStartStep(at: nat, i: nat, V: nat)
    ensures SuitStart(at, i + 1, V) == SuitStart(at, i, V) + Draws(V)
  {
    assert (i + 1) * Draws(V) == i * Draws(V) + Draws(V);
  }

  /** The card the sequential deal puts at slot `k`: card `k / S` of shuffled suit `k % S`. */
  function DealtCard(stream: nat -> nat, at: nat, S: nat, V: nat, k: int): int
    requires S >= 1 && 0 <= k < S * V
  {
    QuotientBelow(k, S, V);
    ShuffledSuit(stream, SuitStart(at, k % S, V), k % S, V)[k / S]
  }

  /** The whole sequential deal: the `V` cards of suit `i` go to slots `i, S + i, 2S + i, ...`. */
  function SequentialDeal(stream: nat -> nat, at: nat, S: nat, V: nat): (d: seq<int>)
    requires S >= 1
    ensures |d| == S * V
  {
    MulNonNegative(S, V);
    seq(S * V, k requires 0 <= k < S * V => DealtCard(stream, at, S, V, k))
  }

  lemma SuitCardsDistinct(i: int, V: nat)
    ensures Distinct(SuitCards(i, V))
  {
  }

  /** Every card of a shuffled suit `i` is a card of suit `i`. */
  lemma ShuffledSuitCard(stream: nat -> nat, at: nat, i: int, V: nat, j: int)
    requires V > 0 && 0 <= j < V
    ensures i * V <= ShuffledSuit(stream, at, i, V)[j] < i * V + V
    ensures ShuffledSuit(stream, at, i, V)[j] / V == i
  {
    var s := ShuffledSuit(stream, at, i, V);
    SwapPassPermutes(SuitCards(i, V), DrawnPartners(stream, at, V), Draws(V));
    assert s[j] in multiset(SuitCards(i, V)) by {
      assert s[j] in multiset(s);
    }
    var j' :| 0 <= j' < V && SuitCards(i, V)[j'] == s[j];
    DivModUnique(s[j], V, i, j');
  }

  lemma ShuffledSuitDistinct(stream: nat -> nat, at: nat, i: int, V: nat)
    ensures Distinct(ShuffledSuit(stream, at, i, V))
  {
    SuitCardsDistinct(i, V);
    SwapPassKeepsDistinct(SuitCards(i, V), DrawnPartners(stream, at, V), Draws(V));
  }

  /** After the sequential deal, slot `k` holds a card of suit `k % S`. */
  lemma SequentialDealSuits(stream: nat -> nat, at: nat, S: nat, V: nat, k: int)
    requires S >= 1 && 0 <= k < S * V
    ensures SequentialDeal(stream, at, S, V)[k] / V == k % S
    ensures 0 <= SequentialDeal(stream, at, S, V)[k] < S * V
  {
    var i, q := k % S, k / S;
    QuotientBelow(k, S, V);
    var c := SequentialDeal(stream, at, S, V)[k];
    assert c == ShuffledSuit(stream, SuitStart(at, i, V), i, V)[q];
    ShuffledSuitCard(stream, SuitStart(at, i, V), i, V, q);
    RowInGrid(c, i, S, V);
  }

  /** The sequential deal gives every card id exactly once, whatever the deck held before. */
  lemma SequentialDealIsPermutation(stream: nat -> nat, at: nat, S: nat, V: nat)
    requires S >= 1
    ensures multiset(SequentialDeal(stream, at, S, V)) == multiset(Identity(S * V))
  {
    var d := SequentialDeal(stream, at, S, V);
    forall a, b | 0 <= a < b < |d| ensures d[a] != d[b] {
      SequentialDealSuits(stream, at, S, V, a);
      SequentialDealSuits(stream, at, S, V, b);
      if a % S == b % S {
        SequentialDealSameSuit(stream, at, S, V, a, b);
      }
    }
    forall k | 0 <= k < |d| ensures 0 <= d[k] < S * V {
      SequentialDealSuits(stream, at, S, V, k);
    }
    DistinctInRangeIsPermutation(d, S * V);
  }

  lemma SequentialDealSameSuit(stream: nat -> nat, at: nat, S: nat, V: nat, a: int, b: int)
    requires S >= 1 && 0 <= a < b < S * V && a % S == b % S
    ensures SequentialDeal(stream, at, S, V)[a] != SequentialDeal(stream, at, S, V)[b]
  {
    var i := a % S;
    var s := ShuffledSuit(stream, SuitStart(at, i, V), i, V);
    QuotientBelow(a, S, V);
    QuotientBelow(b, S, V);
    Split(a, S);
    Split(b, S);
    assert a / S != b / S;
    ShuffledSuitDistinct(stream, SuitStart(at, i, V), i, V);
    assert SequentialDeal(stream, at, S, V)[a] == s[a / S];
    assert SequentialDeal(stream, at, S, V)[b] == s[b / S];
  }

  /** Block `i` ends within a sequence of `V` blocks of `S` slots. */
  lemma BlockFits(i: int, S: nat, V: nat)
    requires 0 <= i < V
    ensures 0 <= i * S && i * S + S <= S * V
  {
    MulNonNegative(i, S);
    MulMonotone(i + 1, V, S);
  }

  /** The choice at which the random deal starts shuffling block `i`. */
  function BlockStart(at: nat, i: nat, S: nat): nat {
    MulNonNegative(i, Draws(S));
    at + i * Draws(S)
  }

  /** Block `i + 1` starts where the shuffle of block `i` stopped drawing. */
  lemma BlockStartStep(at: nat, i: nat, S: nat)
    ensures BlockStart(at, i + 1, S) == BlockStart(at, i, S) + Draws(S)
  {
    assert (i + 1) * Draws(S) == i * Draws(S) + Draws(S);
  }

  /** The partners the random deal draws for block `i`. */
  function BlockPartners(stream: nat -> nat, at: nat, i: nat, S: nat): (ps: seq<int>)
    ensures |ps| == Draws(S) && SattoloPartners(ps, S)
  {
    DrawnPartners(stream, BlockStart(at, i, S), S)
  }

  /** `s` with each of its first `n` blocks of `S` slots shuffled in turn. */
  function ShuffleBlocks(s: seq<int>, S: nat, V: nat, stream: nat -> nat, at: nat, n: nat): (r: seq<int>)
    requires |s| == S * V && n <= V
    ensures |r| == |s|
  {
    if n == 0 then s
    else
      BlockFits(n - 1, S, V);
      SwapPassAt(ShuffleBlocks(s, S, V, stream, at, n - 1), (n - 1) * S, S, BlockPartners(stream, at, n - 1, S), Draws(S))
  }

  /** The random deal: the sequential deal, then every block of `S` slots shuffled among itself. */
  function RandomDeal(stream: nat -> nat, at: nat, S: nat, V: nat): (d: seq<int>)
    requires S >= 1
    ensures |d| == S * V
  {
    ShuffleBlocks(SequentialDeal(stream, at, S, V), S, V, stream, SuitStart(at, S, V), V)
  }

  /** Slots `[i * S, (i + 1) * S)`. */
  function Block(s: seq<int>, i: nat, S: nat, V: nat): (b: seq<int>)
    requires |s| == S * V && i < V
    ensures |b| == S
  {
    BlockFits(i, S, V);
    s[i * S .. i * S + S]
  }

  /** Shuffling blocks rearranges the cards and nothing else. */
  lemma {:induction false} ShuffleBlocksPermutes(s: seq<int>, S: nat, V: nat, stream: nat -> nat, at: nat, n: nat)
    requires |s| == S * V && n <= V
    ensures multiset(ShuffleBlocks(s, S, V, stream, at, n)) == multiset(s)
  {
    if n > 0 {
      ShuffleBlocksPermutes(s, S, V, stream, at, n - 1);
      BlockPassPermutes(s, S, V, stream, at, n);
    }
  }

  lemma BlockPassPermutes(s: seq<int>, S: nat, V: nat, stream: nat -> nat, at: nat, n: nat)
    requires |s| == S * V && 0 < n <= V
    ensures multiset(ShuffleBlocks(s, S, V, stream, at, n)) == multiset(ShuffleBlocks(s, S, V, stream, at, n - 1))
  {
    BlockFits(n - 1, S, V);
    SwapPassAtPermutes(ShuffleBlocks(s, S, V, stream, at, n - 1), (n - 1) * S, S, BlockPartners(stream, at, n - 1, S), Draws(S));
  }

  /** The pass over block `n - 1` leaves every other block as it was. */
  lemma ShuffleBlocksOther(s: seq<int>, S: nat, V: nat, stream: nat -> nat, at: nat, n: nat, i: nat)
    requires |s| == S * V && 0 < n <= V && i < V && i != n - 1
    ensures Block(ShuffleBlocks(s, S, V, stream, at, n), i, S, V) == Block(ShuffleBlocks(s, S, V, stream, at, n - 1), i, S, V)
  {
    PassOnBlock(ShuffleBlocks(s, S, V, stream, at, n - 1), S, V, BlockPartners(stream, at, n - 1, S), n - 1, i);
  }

  /** A block is untouched until its own pass. */
  lemma {:induction false} ShuffleBlocksBefore(s: seq<int>, S: nat, V: nat, stream: nat -> nat, at: nat, n: nat, i: nat)
    requires |s| == S * V && n <= i < V
    ensures Block(ShuffleBlocks(s, S, V, stream, at, n), i, S, V) == Block(s, i, S, V)
  {
    if n > 0 {
      ShuffleBlocksBefore(s, S, V, stream, at, n - 1, i);
      ShuffleBlocksOther(s, S, V, stream, at, n, i);
    }
  }

  /** After its own pass, no later pass touches a block. */
  lemma {:induction false} ShuffleBlocksAfter(s: seq<int>, S: nat, V: nat, stream: nat -> nat, at: nat, n: nat, i: nat)
    requires |s| == S * V && i < n <= V
    ensures Block(ShuffleBlocks(s, S, V, stream, at, n), i, S, V) == Block(ShuffleBlocks(s, S, V, stream, at, i + 1), i, S, V)
  {
    if n > i + 1 {
      ShuffleBlocksAfter(s, S, V, stream, at, n - 1, i);
      ShuffleBlocksOther(s, S, V, stream, at, n, i);
    }
  }

  /** Each block is shuffled once, by its own pass. */
  lemma ShuffleBlocksBlock(s: seq<int>, S: nat, V: nat, stream: nat -> nat, at: nat, i: nat)
    requires |s| == S * V && i < V
    ensures Block(ShuffleBlocks(s, S, V, stream, at, V), i, S, V) ==
      SwapPass(Block(s, i, S, V), BlockPartners(stream, at, i, S), Draws(S))
  {
    var t := ShuffleBlocks(s, S, V, stream, at, i);
    ShuffleBlocksAfter(s, S, V, stream, at, V, i);
    ShuffleBlocksBefore(s, S, V, stream, at, i, i);
    PassOnBlock(t, S, V, BlockPartners(stream, at, i, S), i, i);
  }

  /** The pass over block `j` shuffles that block and leaves every other block alone. */
  lemma PassOnBlock(t: seq<int>, S: nat, V: nat, ps: seq<int>, j: nat, i: nat)
    requires |t| == S * V && j < V && i < V && |ps| == Draws(S) && SattoloPartners(ps, S)
    ensures (BlockFits(j, S, V);
      Block(SwapPassAt(t, j * S, S, ps, Draws(S)), i, S, V) ==
      if i == j then SwapPass(Block(t, i, S, V), ps, Draws(S)) else Block(t, i, S, V))
  {
    BlockFits(j, S, V);
    BlockFits(i, S, V);
    var base := j * S;
    var r := SwapPassAt(t, base, S, ps, Draws(S));
    SwapPassAtSlots(t, base, S, ps, Draws(S));
    if i == j {
      assert t[base..base + S] == Block(t, i, S, V);
      forall k | 0 <= k < S ensures Block(r, i, S, V)[k] == SwapPass(Block(t, i, S, V), ps, Draws(S))[k] {
        assert Block(r, i, S, V)[k] == r[base + k];
      }
    } else {
      BlockApart(i, j, S);
      forall k | 0 <= k < S ensures Block(r, i, S, V)[k] == Block(t, i, S, V)[k] {
        assert Block(r, i, S, V)[k] == r[i * S + k];
        assert Block(t, i, S, V)[k] == t[i * S + k];
      }
    }
  }

  /** Two different blocks do not overlap. */
  lemma BlockApart(i: int, j: int, S: nat)
    requires 0 <= i && 0 <= j && i != j
    ensures i < j ==> i * S + S <= j * S
    ensures j < i ==> j * S + S <= i * S
  {
    if i < j {
      MulMonotone(i + 1, j, S);
    } else {
      MulMonotone(j + 1, i, S);
    }
  }

  /** The suit of a card. */
  function SuitOf(V: nat): int -> int
    requires V > 0
  {
    c => c / V
  }

  /** The suit of every card of a sequence. */
  function Suits(s: seq<int>, V: nat): (r: seq<int>)
    requires V > 0
    ensures |r| == |s| && forall k :: 0 <= k < |s| ==> r[k] == s[k] / V
  {
    Map(s, SuitOf(V))
  }

  /** In the sequential deal, block `i` holds the `i`-th card of every suit, suit `g` at offset `g`. */
  lemma SequentialBlockSuits(stream: nat -> nat, at: nat, S: nat, V: nat, i: nat)
    requires S >= 1 && V > 0 && i < V
    ensures Suits(Block(SequentialDeal(stream, at, S, V), i, S, V), V) == Identity(S)
  {
    var d := SequentialDeal(stream, at, S, V);
    var b := Block(d, i, S, V);
    BlockFits(i, S, V);
    forall g | 0 <= g < S ensures Suits(b, V)[g] == g {
      assert b[g] == d[i * S + g];
      SequentialDealSuits(stream, at, S, V, i * S + g);
      DivModUnique(i * S + g, S, i, g);
    }
  }

  /**
   * After the random deal the whole deck is still a permutation of the card ids;
   * every block holds the cards it held after the sequential deal, and so one card of each suit.
   */
  lemma RandomDealIsPermutation(stream: nat -> nat, at: nat, S: nat, V: nat)
    requires S >= 1
    ensures multiset(RandomDeal(stream, at, S, V)) == multiset(Identity(S * V))
  {
    SequentialDealIsPermutation(stream, at, S, V);
    ShuffleBlocksPermutes(SequentialDeal(stream, at, S, V), S, V, stream, SuitStart(at, S, V), V);
  }

  lemma RandomDealBlocks(stream: nat -> nat, at: nat, S: nat, V: nat, i: nat)
    requires S >= 1 && V > 0 && i < V
    ensures multiset(Block(RandomDeal(stream, at, S, V), i, S, V)) == multiset(Block(SequentialDeal(stream, at, S, V), i, S, V))
    ensures multiset(Suits(Block(RandomDeal(stream, at, S, V), i, S, V), V)) == multiset(Identity(S))
  {
    var d := SequentialDeal(stream, at, S, V);
    var b := Block(d, i, S, V);
    var ps := BlockPartners(stream, SuitStart(at, S, V), i, S);
    ShuffleBlocksBlock(d, S, V, stream, SuitStart(at, S, V), i);
    assert Block(RandomDeal(stream, at, S, V), i, S, V) == SwapPass(b, ps, Draws(S));
    SwapPassPermutes(b, ps, Draws(S));
    MapSwapPass(b, ps, Draws(S), SuitOf(V));
    SequentialBlockSuits(stream, at, S, V, i);
    SwapPassPermutes(Suits(b, V), ps, Draws(S));
  }
}
