/**
 * The in-place shuffle every deal of the repository uses: step `k` swaps slot
 * `k` with a partner drawn from `(k, len)`. Because the partner is never `k`
 * itself, this is Sattolo's scheme rather than Fisher-Yates: on a deck of
 * two or more distinct cards, every card ends up in another slot
 * (`SattoloMovesEveryCard`).
 */
module Swaps {
  import opened Randomness

  /** `s` with the entries at `i` and `j` exchanged. */
  function Swap(s: seq<int>, i: int, j: int): (r: seq<int>)
    requires 0 <= i < |s| && 0 <= j < |s|
    ensures |r| == |s|
  {
    seq(|s|, k requires 0 <= k < |s| => if k == i then s[j] else if k == j then s[i] else s[k])
  }

  /** A swap rearranges the cards and nothing else. */
  lemma SwapPermutes(s: seq<int>, i: int, j: int)
    requires 0 <= i < |s| && 0 <= j < |s|
    ensures multiset(Swap(s, i, j)) == multiset(s)
  {
    assert Swap(s, i, j) == s[i := s[j]][j := s[i]];
  }

  /** Every step `k` swaps with a slot strictly after `k` and inside the range. */
  predicate SattoloPartners(ps: seq<int>, len: int) {
    forall k :: 0 <= k < |ps| ==> k < ps[k] < len
  }

  /** The first `n` steps of a shuffle whose step `k` swaps slot `k` with slot `ps[k]`. */
  function SwapPass(s: seq<int>, ps: seq<int>, n: nat): (r: seq<int>)
    requires n <= |ps| && SattoloPartners(ps, |s|)
    ensures |r| == |s|
  {
    if n == 0 then s else Swap(SwapPass(s, ps, n - 1), n - 1, ps[n - 1])
  }

  /** The partners a shuffle of `len` slots draws, starting at choice `at` of the stream. */
  function DrawnPartners(stream: nat -> nat, at: nat, len: int): (ps: seq<int>)
    ensures |ps| == if len > 1 then len - 1 else 0
    ensures SattoloPartners(ps, len)
    ensures forall k :: 0 <= k < |ps| ==> ps[k] == Pick(stream, at + k, k + 1, len)
  {
    if len <= 1 then []
    else
      var ps := seq(len - 1, k requires 0 <= k < len - 1 => Pick(stream, at + k, k + 1, len));
      assert forall k :: 0 <= k < |ps| ==> ps[k] == Pick(stream, at + k, k + 1, len);
      ps
  }

  /** A shuffle pass rearranges the cards and nothing else. */
  lemma {:induction false} SwapPassPermutes(s: seq<int>, ps: seq<int>, n: nat)
    requires n <= |ps| && SattoloPartners(ps, |s|)
    ensures multiset(SwapPass(s, ps, n)) == multiset(s)
  {
    if n > 0 {
      var t := SwapPass(s, ps, n - 1);
      var p := ps[n - 1];
      assert n - 1 < p < |s|;
      SwapPassPermutes(s, ps, n - 1);
      SwapPermutes(t, n - 1, p);
      assert SwapPass(s, ps, n) == Swap(t, n - 1, p);
    }
  }

  predicate Distinct(s: seq<int>) {
    forall a, b :: 0 <= a < b < |s| ==> s[a] != s[b]
  }

  lemma SwapKeepsDistinct(s: seq<int>, i: int, j: int)
    requires 0 <= i < |s| && 0 <= j < |s| && Distinct(s)
    ensures Distinct(Swap(s, i, j))
  {
    var r := Swap(s, i, j);
    forall a, b | 0 <= a < b < |r| ensures r[a] != r[b] {
      var a' := if a == i then j else if a == j then i else a;
      var b' := if b == i then j else if b == j then i else b;
      assert r[a] == s[a'] && r[b] == s[b'];
      assert a' != b';
    }
  }

  /**
   * The shape of a shuffle after `n` steps: the first `n` slots are final and
   * none holds its original card; every later slot holds its original card,
   * or that card has already moved into the final part.
   */
  ghost predicate Progress(s: seq<int>, t: seq<int>, n: nat) {
    |t| == |s| && n <= |s| && Distinct(t) &&
    (forall k :: 0 <= k < n ==> t[k] != s[k]) &&
    (forall k :: n <= k < |s| ==> t[k] == s[k] || s[k] in t[..n])
  }

  lemma StepKeepsProgress(s: seq<int>, t: seq<int>, n: nat, p: int)
    requires Progress(s, t, n) && n < p < |s|
    ensures Progress(s, Swap(t, n, p), n + 1)
  {
    var t' := Swap(t, n, p);
    SwapKeepsDistinct(t, n, p);
    assert t'[..n] == t[..n];
    // the card that lands on slot n is not the one dealt there
    if t[n] == s[n] {
      assert t'[n] == t[p] != t[n];
    } else {
      var m :| 0 <= m < n && t[m] == s[n];
      assert t'[n] == t[p] != t[m];
    }
    forall k | n + 1 <= k < |s|
      ensures t'[k] == s[k] || s[k] in t'[..n + 1]
    {
      if k == p {
        if t[p] == s[p] {
          assert t'[n] == s[p];
        } else {
          var m :| 0 <= m < n && t[m] == s[k];
          assert t'[m] == s[k];
        }
      } else if t[k] != s[k] {
        var m :| 0 <= m < n && t[m] == s[k];
        assert t'[m] == s[k];
      }
    }
  }

  lemma {:induction false} SattoloProgress(s: seq<int>, ps: seq<int>, n: nat)
    requires n <= |ps| && SattoloPartners(ps, |s|) && Distinct(s)
    ensures Progress(s, SwapPass(s, ps, n), n)
  {
    if n > 0 {
      SattoloProgress(s, ps, n - 1);
      StepKeepsProgress(s, SwapPass(s, ps, n - 1), n - 1, ps[n - 1]);
    } else {
      assert SwapPass(s, ps, 0) == s;
    }
  }

  /** A complete pass over distinct cards leaves no card in the slot it started in. */
  lemma SattoloMovesEveryCard(s: seq<int>, ps: seq<int>)
    requires |s| >= 2 && |ps| == |s| - 1 && SattoloPartners(ps, |s|) && Distinct(s)
    ensures forall k :: 0 <= k < |s| ==> SwapPass(s, ps, |ps|)[k] != s[k]
  {
    var n := |ps|;
    SattoloProgress(s, ps, n - 1);
    SattoloProgress(s, ps, n);
    var t := SwapPass(s, ps, n - 1);
    assert ps[n - 1] == n;
    var last := SwapPass(s, ps, n);
    assert last == Swap(t, n - 1, n);
    if t[n] == s[n] {
      assert last[n] == t[n - 1] != t[n];
    } else {
      var m :| 0 <= m < n - 1 && t[m] == s[n];
      assert last[n] == t[n - 1] != t[m];
    }
  }

  /** A shuffle pass of distinct cards leaves them distinct. */
  lemma {:induction false} SwapPassKeepsDistinct(s: seq<int>, ps: seq<int>, n: nat)
    requires n <= |ps| && SattoloPartners(ps, |s|) && Distinct(s)
    ensures Distinct(SwapPass(s, ps, n))
  {
    if n > 0 {
      SwapPassKeepsDistinct(s, ps, n - 1);
      SwapKeepsDistinct(SwapPass(s, ps, n - 1), n - 1, ps[n - 1]);
    }
  }

  /**
   * The first `n` steps of a shuffle of the `L` slots starting at `base`, inside
   * a longer sequence: step `k` swaps slot `base + k` with slot `base + ps[k]`.
   */
  function SwapPassAt(s: seq<int>, base: nat, L: nat, ps: seq<int>, n: nat): (r: seq<int>)
    requires base + L <= |s| && n <= |ps| && SattoloPartners(ps, L)
    ensures |r| == |s|
  {
    if n == 0 then s
    else
      var t, x, y := SwapPassAt(s, base, L, ps, n - 1), base + n - 1, base + ps[n - 1];
      t[x := t[y]][y := t[x]]
  }

  /** A swap is two updates. */
  lemma SwapIsUpdate(s: seq<int>, i: int, j: int)
    requires 0 <= i < |s| && 0 <= j < |s|
    ensures Swap(s, i, j) == s[i := s[j]][j := s[i]]
  {
  }

  /** A pass over a block that spans the whole sequence is the plain pass. */
  lemma {:induction false} SwapPassAtWhole(s: seq<int>, ps: seq<int>, n: nat)
    requires n <= |ps| && SattoloPartners(ps, |s|)
    ensures SwapPassAt(s, 0, |s|, ps, n) == SwapPass(s, ps, n)
  {
    if n > 0 {
      SwapPassAtWhole(s, ps, n - 1);
      SwapIsUpdate(SwapPass(s, ps, n - 1), n - 1, ps[n - 1]);
    }
  }

  /** A shuffle pass inside a block rearranges the cards and nothing else. */
  lemma SwapPassAtPermutes(s: seq<int>, base: nat, L: nat, ps: seq<int>, n: nat)
    requires base + L <= |s| && n <= |ps| && SattoloPartners(ps, L)
    ensures multiset(SwapPassAt(s, base, L, ps, n)) == multiset(s)
  {
    var a, b, c := s[..base], s[base..base + L], s[base + L..];
    SwapPassAtBlock(s, base, L, ps, n);
    SwapPassPermutes(b, ps, n);
    assert s == a + b + c;
    calc {
      multiset(SwapPassAt(s, base, L, ps, n));
      multiset(a + SwapPass(b, ps, n) + c);
      multiset(a) + multiset(SwapPass(b, ps, n)) + multiset(c);
      multiset(a) + multiset(b) + multiset(c);
      multiset(a + b + c);
    }
  }

  /** A shuffle of one block is the shuffle of that block, with the rest left alone. */
  lemma SwapPassAtBlock(s: seq<int>, base: nat, L: nat, ps: seq<int>, n: nat)
    requires base + L <= |s| && n <= |ps| && SattoloPartners(ps, L)
    ensures SwapPassAt(s, base, L, ps, n) == s[..base] + SwapPass(s[base..base + L], ps, n) + s[base + L..]
  {
    SwapPassAtSlots(s, base, L, ps, n);
    var lhs := SwapPassAt(s, base, L, ps, n);
    var block := SwapPass(s[base..base + L], ps, n);
    var rhs := s[..base] + block + s[base + L..];
    forall k | 0 <= k < |s| ensures lhs[k] == rhs[k] {
      if k < base {
        assert rhs[k] == s[k];
      } else if k < base + L {
        assert rhs[k] == block[k - base];
      } else {
        assert rhs[k] == s[base + L..][k - base - L];
      }
    }
  }

  lemma {:induction false} SwapPassAtSlots(s: seq<int>, base: nat, L: nat, ps: seq<int>, n: nat)
    requires base + L <= |s| && n <= |ps| && SattoloPartners(ps, L)
    ensures forall k :: 0 <= k < |s| && (k < base || base + L <= k) ==> SwapPassAt(s, base, L, ps, n)[k] == s[k]
    ensures forall k :: base <= k < base + L ==> SwapPassAt(s, base, L, ps, n)[k] == SwapPass(s[base..base + L], ps, n)[k - base]
  {
    if n > 0 {
      SwapPassAtSlots(s, base, L, ps, n - 1);
      var t := SwapPassAt(s, base, L, ps, n - 1);
      var u := SwapPass(s[base..base + L], ps, n - 1);
      var i, j := n - 1, ps[n - 1];
      assert t[base + i] == u[i] && t[base + j] == u[j];
      var r := t[base + i := t[base + j]][base + j := t[base + i]];
      var w := Swap(u, i, j);
      assert w == SwapPass(s[base..base + L], ps, n);
      forall k | 0 <= k < |s| && (k < base || base + L <= k) ensures r[k] == s[k] {
        assert r[k] == t[k];
      }
      forall k | base <= k < base + L ensures r[k] == w[k - base] {
        if k == base + j {
          assert r[k] == t[base + i] && w[k - base] == u[i];
        } else if k == base + i {
          assert r[k] == t[base + j] && w[k - base] == u[j];
        } else {
          assert r[k] == t[k] && w[k - base] == u[k - base];
        }
      }
    } else {
      forall k | base <= k < base + L ensures s[k] == s[base..base + L][k - base] {
      }
    }
  }

  /** The cards `f` assigns to a sequence, slot by slot. */
  function Map(s: seq<int>, f: int -> int): (r: seq<int>)
    ensures |r| == |s| && forall i :: 0 <= i < |s| ==> r[i] == f(s[i])
  {
    seq(|s|, i requires 0 <= i < |s| => f(s[i]))
  }

  /** Relabelling the cards commutes with a swap. */
  lemma MapSwap(s: seq<int>, i: int, j: int, f: int -> int)
    requires 0 <= i < |s| && 0 <= j < |s|
    ensures Map(Swap(s, i, j), f) == Swap(Map(s, f), i, j)
  {
  }

  /** Relabelling the cards commutes with a shuffle pass. */
  lemma {:induction false} MapSwapPass(s: seq<int>, ps: seq<int>, n: nat, f: int -> int)
    requires n <= |ps| && SattoloPartners(ps, |s|)
    ensures Map(SwapPass(s, ps, n), f) == SwapPass(Map(s, f), ps, n)
  {
    if n > 0 {
      var t := SwapPass(s, ps, n - 1);
      MapSwapPass(s, ps, n - 1, f);
      MapSwap(t, n - 1, ps[n - 1], f);
    }
  }

  /** A distinct sequence holds each of its values once. */
  lemma {:induction false} DistinctCounts(s: seq<int>, x: int)
    requires Distinct(s)
    ensures multiset(s)[x] == if x in s then 1 else 0
  {
    if s != [] {
      var init := s[..|s| - 1];
      assert s == init + [s[|s| - 1]];
      assert Distinct(init);
      DistinctCounts(init, x);
      assert s[|s| - 1] !in init;
    }
  }

  lemma {:induction false} DistinctSetSize(s: seq<int>)
    requires Distinct(s)
    ensures |set x | x in s| == |s|
  {
    if s != [] {
      var init := s[..|s| - 1];
      var last := s[|s| - 1];
      assert s == init + [last];
      assert Distinct(init);
      DistinctSetSize(init);
      assert (set x | x in s) == (set x | x in init) + {last};
      assert last !in init;
    }
  }

  /** Pigeonhole: `n` distinct values below `n` take every value below `n`. */
  lemma DistinctInRangeCovers(s: seq<int>, n: nat)
    requires |s| == n && Distinct(s) && forall i :: 0 <= i < |s| ==> 0 <= s[i] < n
    ensures forall x :: 0 <= x < n ==> x in s
  {
    var id := seq(n, i => i);
    var A := set x | x in s;
    var B := set x | x in id;
    assert Distinct(id);
    DistinctSetSize(s);
    DistinctSetSize(id);
    forall x | x in A ensures x in B {
      var i :| 0 <= i < |s| && s[i] == x;
      assert id[x] == x;
    }
    assert B == A + (B - A);
    assert A * (B - A) == {};
    forall x | 0 <= x < n ensures x in s {
      assert id[x] == x;
      assert x in B;
    }
  }

  /** `n` distinct values below `n` are a rearrangement of a fresh deck. */
  lemma DistinctInRangeIsPermutation(s: seq<int>, n: nat)
    requires |s| == n && Distinct(s) && forall i :: 0 <= i < |s| ==> 0 <= s[i] < n
    ensures multiset(s) == multiset(seq(n, i => i))
  {
    var id := seq(n, i => i);
    assert Distinct(id);
    DistinctInRangeCovers(s, n);
    forall x ensures multiset(s)[x] == multiset(id)[x] {
      DistinctCounts(s, x);
      DistinctCounts(id, x);
      if 0 <= x < n {
        assert id[x] == x;
      }
    }
  }
}
