/**
 * Card identities. A deck of `S` suits of `V` values holds the ids
 * `0 .. S*V-1`; id `c` is suit `c / V`, rank `c % V`, and rank 0 is the
 * Ace. After the deal every Ace is pulled out and its slot holds 0, the hole
 * marker, so a dealt tableau holds `S` zeros and every non-Ace id once.
 */
module Cards {
  import opened Arith

  /** The hole marker: id 0 is the Ace of the first suit, and Aces never return. */
  const NoCard := 0

  /** `[0, 1, .., n-1]`: a fresh deck, card `i` at slot `i`. */
  function Identity(n: nat): (s: seq<int>)
    ensures |s| == n
  {
    seq(n, i => i)
  }

  /** The hole marker for an Ace, the card itself otherwise. */
  function ZeroAce(c: int, V: nat): int
    requires V > 0
  {
    if c % V == 0 then NoCard else c
  }

  /** Exactly the Aces become holes: no other card is the hole marker. */
  lemma ZeroAceIsHole(c: int, V: nat)
    requires V > 0
    ensures (ZeroAce(c, V) == NoCard) == (c % V == 0)
  {
    if c == NoCard {
      assert c % V == 0;
    }
  }

  /** A card sequence with every Ace replaced by the hole marker. */
  function ZeroAces(s: seq<int>, V: nat): (r: seq<int>)
    requires V > 0
    ensures |r| == |s|
    ensures forall i :: 0 <= i < |s| ==> r[i] == ZeroAce(s[i], V)
  {
    seq(|s|, i requires 0 <= i < |s| => ZeroAce(s[i], V))
  }

  /** The multiset of values a freshly dealt tableau holds. */
  ghost function Dealt(S: nat, V: nat): multiset<int>
    requires V > 0
  {
    multiset(ZeroAces(Identity(S * V), V))
  }

  /** With its Aces pulled out, `s` holds exactly what a freshly dealt tableau holds. */
  ghost predicate Dealable(s: seq<int>, S: nat, V: nat)
    requires V > 0
  {
    multiset(ZeroAces(s, V)) == Dealt(S, V)
  }

  /** A card that is not an Ace and lies in the deck. */
  predicate IsNonAce(c: int, S: nat, V: nat)
    requires V > 0
  {
    0 < c < S * V && c % V != 0
  }

  lemma ZeroAcesConcat(a: seq<int>, b: seq<int>, V: nat)
    requires V > 0
    ensures ZeroAces(a + b, V) == ZeroAces(a, V) + ZeroAces(b, V)
  {
  }

  /** Zeroing Aces twice changes nothing: the hole marker is itself an Ace id. */
  lemma ZeroAcesIdempotent(s: seq<int>, V: nat)
    requires V > 0
    ensures ZeroAces(ZeroAces(s, V), V) == ZeroAces(s, V)
  {
  }

  /** The values of a dealt tableau: the hole marker (when there is a suit) and every non-Ace card. */
  lemma DealtMembers(S: nat, V: nat, c: int)
    requires V > 0
    ensures c in Dealt(S, V) <==> (c == NoCard && S > 0) || IsNonAce(c, S, V)
  {
    var z := ZeroAces(Identity(S * V), V);
    if c == NoCard && S > 0 {
      MulAtLeast(V, S);
      assert z[0] == NoCard;
    } else if IsNonAce(c, S, V) {
      assert z[c] == c;
    }
    if c in Dealt(S, V) {
      var i :| 0 <= i < |z| && z[i] == c;
    }
  }

  /** Every value of a dealt tableau is a card id or the hole marker. */
  lemma DealtRange(S: nat, V: nat, c: int)
    requires V > 0 && c in Dealt(S, V)
    ensures 0 <= c < S * V
  {
    DealtMembers(S, V, c);
    if c == NoCard {
      MulAtLeast(V, S);
    }
  }

  /** Among the first `n = q * V + r` ids, `q` (plus one if `r > 0`) are Aces. */
  lemma {:induction false} AceCountPrefix(n: nat, q: nat, r: nat, V: nat)
    requires V > 0 && r < V && n == q * V + r
    ensures multiset(ZeroAces(Identity(n), V))[NoCard] == q + (if r > 0 then 1 else 0)
    decreases n
  {
    if n > 0 {
      AceCountStep(n, V);
      if r > 0 {
        LastIsNotAce(n - 1, q, r - 1, V);
        AceCountPrefix(n - 1, q, r - 1, V);
      } else {
        LastBeforeMultiple(n, q, V);
        AceCountPrefix(n - 1, q - 1, V - 1, V);
      }
    }
  }

  /** Dealing one more id adds a hole exactly when that id is an Ace. */
  lemma AceCountStep(n: nat, V: nat)
    requires V > 0 && n > 0
    ensures multiset(ZeroAces(Identity(n), V))[NoCard] ==
      multiset(ZeroAces(Identity(n - 1), V))[NoCard] + (if ZeroAce(n - 1, V) == NoCard then 1 else 0)
  {
    var z := ZeroAces(Identity(n - 1), V);
    var last := ZeroAce(n - 1, V);
    assert Identity(n) == Identity(n - 1) + [n - 1];
    ZeroAcesConcat(Identity(n - 1), [n - 1], V);
    assert ZeroAces(Identity(n), V) == z + [last];
  }

  lemma LastIsNotAce(k: int, q: nat, r: nat, V: nat)
    requires V > 0 && r + 1 < V && k == q * V + r
    ensures (ZeroAce(k, V) == NoCard) == (r == 0)
  {
    DivModUnique(k, V, q, r);
    if r > 0 {
      MulNonNegative(q, V);
    }
  }

  lemma LastBeforeMultiple(n: nat, q: nat, V: nat)
    requires V > 0 && n > 0 && n == q * V
    ensures q > 0 && n - 1 == (q - 1) * V + (V - 1)
    ensures (ZeroAce(n - 1, V) == NoCard) == (V == 1)
  {
    assert q * V == (q - 1) * V + V;
    DivModUnique(n - 1, V, q - 1, V - 1);
  }

  /** A dealt tableau has exactly one hole per suit. */
  lemma DealtHoleCount(S: nat, V: nat)
    requires V > 0
    ensures Dealt(S, V)[NoCard] == S
  {
    MulNonNegative(S, V);
    AceCountPrefix(S * V, S, 0, V);
  }

  /** Replacing Aces commutes with any rearrangement of the cards. */
  lemma {:induction false} ZeroAcesPermutation(a: seq<int>, b: seq<int>, V: nat)
    requires V > 0 && multiset(a) == multiset(b)
    ensures multiset(ZeroAces(a, V)) == multiset(ZeroAces(b, V))
    decreases |a|
  {
    if a != [] {
      var x := a[0];
      assert x in multiset(b) by { assert x in multiset(a); }
      var j :| 0 <= j < |b| && b[j] == x;
      var rest := b[..j] + b[j + 1..];
      assert b == b[..j] + [x] + b[j + 1..];
      assert a == [x] + a[1..];
      assert multiset(a) == multiset{x} + multiset(a[1..]);
      assert multiset(b) == multiset(b[..j]) + multiset{x} + multiset(b[j + 1..]);
      assert multiset(rest) == multiset(b[..j]) + multiset(b[j + 1..]);
      assert multiset(a[1..]) == multiset(a) - multiset{x};
      assert multiset(rest) == multiset(b) - multiset{x};
      ZeroAcesPermutation(a[1..], rest, V);
      ZeroAcesConcat([x], a[1..], V);
      ZeroAcesConcat(b[..j] + [x], b[j + 1..], V);
      ZeroAcesConcat(b[..j], [x], V);
      ZeroAcesConcat(b[..j], b[j + 1..], V);
    }
  }

  /** The slots among the first `n` whose card is an Ace, in increasing order: where the holes go. */
  function AceSlots(s: seq<int>, V: nat, n: nat): (r: seq<int>)
    requires V > 0 && n <= |s|
    ensures |r| <= n
  {
    if n == 0 then []
    else AceSlots(s, V, n - 1) + (if s[n - 1] % V == 0 then [n - 1] else [])
  }

  /** Slot `k` is listed exactly when it lies among the first `n` and holds an Ace. */
  lemma {:induction false} AceSlotsMembers(s: seq<int>, V: nat, n: nat, k: int)
    requires V > 0 && n <= |s|
    ensures k in AceSlots(s, V, n) <==> 0 <= k < n && s[k] % V == 0
  {
    if n > 0 {
      AceSlotsMembers(s, V, n - 1, k);
    }
  }

  /** The slots are listed in strictly increasing order, inside `[0, n)`. */
  lemma {:induction false} AceSlotsIncreasing(s: seq<int>, V: nat, n: nat)
    requires V > 0 && n <= |s|
    ensures forall a, b :: 0 <= a < b < |AceSlots(s, V, n)| ==> AceSlots(s, V, n)[a] < AceSlots(s, V, n)[b]
    ensures forall a :: 0 <= a < |AceSlots(s, V, n)| ==> 0 <= AceSlots(s, V, n)[a] < n
  {
    if n > 0 {
      AceSlotsIncreasing(s, V, n - 1);
    }
  }

  /** Listing one more slot adds it exactly when it holds an Ace. */
  lemma AceSlotsStep(s: seq<int>, V: nat, n: nat)
    requires V > 0 && n < |s|
    ensures AceSlots(s, V, n + 1) == AceSlots(s, V, n) + (if s[n] % V == 0 then [n] else [])
  {
  }

  /** There are as many Ace slots as holes once the Aces are pulled out. */
  lemma {:induction false} AceSlotsCount(s: seq<int>, V: nat, n: nat)
    requires V > 0 && n <= |s|
    ensures |AceSlots(s, V, n)| == multiset(ZeroAces(s[..n], V))[NoCard]
  {
    if n > 0 {
      var z, last := ZeroAces(s[..n - 1], V), ZeroAce(s[n - 1], V);
      AceSlotsCount(s, V, n - 1);
      assert s[..n] == s[..n - 1] + [s[n - 1]];
      ZeroAcesConcat(s[..n - 1], [s[n - 1]], V);
      assert ZeroAces(s[..n], V) == z + [last];
      assert multiset(z + [last])[NoCard] == multiset(z)[NoCard] + (if last == NoCard then 1 else 0);
      ZeroAceIsHole(s[n - 1], V);
    }
  }

  /** The Ace slots of a prefix are a prefix of the Ace slots. */
  lemma {:induction false} AceSlotsPrefix(s: seq<int>, V: nat, m: nat, n: nat)
    requires V > 0 && m <= n <= |s|
    ensures AceSlots(s, V, m) <= AceSlots(s, V, n)
  {
    if m < n {
      AceSlotsPrefix(s, V, m, n - 1);
    }
  }
}
