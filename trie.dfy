/**
 * The dedup index of the search (`PretzelSolver.cs`): a trie of nested
 * dictionaries keyed by the tableau's slot values, one level per slot. A node
 * below the last level maps a value to the node of the next level; a node at
 * the last level maps a value to a boxed list index. Here a node is a map
 * value and the boxing is the `Child` datatype; a cast the source would fail
 * is the outcome `CastFailure`.
 */
module Trie {

  datatype Child = Sub(node: map<int, Child>) | Leaf(index: int)

  type Node = map<int, Child>

  /** What walking a key down the trie finds. */
  datatype Found = Absent | At(index: int) | InvalidCast

  /** What the walk-and-insert of the search yields. */
  datatype Outcome = Attained(index: int) | Inserted(root: Node) | CastFailure

  /**
   * The walk alone, from level `c` on: each level's value leads one level
   * down, and the last one to the stored index.
   */
  function Lookup(n: Node, t: seq<int>, c: nat): Found
    requires c < |t|
    decreases |t| - c
  {
    if t[c] !in n then Absent
    else if c < |t| - 1 then
      match n[t[c]]
      case Sub(m) => Lookup(m, t, c + 1)
      case Leaf(_) => InvalidCast
    else
      match n[t[c]]
      case Leaf(i) => At(i)
      case Sub(_) => InvalidCast
  }

  /** The chain of fresh nodes holding `t[c..]`, ending in the index `idx`. */
  function Chain(t: seq<int>, c: nat, idx: int): Node
    requires c < |t|
    decreases |t| - c
  {
    if c == |t| - 1 then map[t[c] := Leaf(idx)]
    else map[t[c] := Sub(Chain(t, c + 1, idx))]
  }

  /**
   * The shape every stored key gives the trie from level `c` on: nodes below
   * the last level hold non-empty sub-nodes, the last level holds indexes.
   */
  ghost predicate WellFormed(n: Node, c: nat, L: nat)
    decreases L - c
  {
    c < L &&
    forall x :: x in n ==>
      if c < L - 1 then n[x].Sub? && (exists y :: y in n[x].node) && WellFormed(n[x].node, c + 1, L)
      else n[x].Leaf?
  }

  /** What well-formedness says of one child. */
  lemma WellFormedChild(n: Node, c: nat, L: nat, x: int)
    requires WellFormed(n, c, L) && x in n
    ensures c < L - 1 ==> n[x].Sub? && (exists y :: y in n[x].node) && WellFormed(n[x].node, c + 1, L)
    ensures c == L - 1 ==> n[x].Leaf?
  {
  }

  /**
   * The walk-and-insert with the divergent key attached as it must be: a
   * chain below the last level, the index itself at the last level.
   */
  function Attain(n: Node, t: seq<int>, c: nat, idx: int): Outcome
    requires c < |t|
    decreases |t| - c
  {
    if t[c] !in n then
      Inserted(n[t[c] := if c == |t| - 1 then Leaf(idx) else Sub(Chain(t, c + 1, idx))])
    else if c < |t| - 1 then
      match n[t[c]]
      case Leaf(_) => CastFailure
      case Sub(m) =>
        match Attain(m, t, c + 1, idx)
        case Inserted(m2) => Inserted(n[t[c] := Sub(m2)])
        case other => other
    else
      match n[t[c]]
      case Leaf(i) => Attained(i)
      case Sub(_) => CastFailure
  }

  /**
   * The walk-and-insert as the source writes it: on divergence it always
   * attaches a dictionary, holding the chain from the level after the
   * divergent one, or, when the divergence is at the last level, a dictionary
   * holding the last value and the index.
   */
  function AttainAsWritten(n: Node, t: seq<int>, c: nat, idx: int): Outcome
    requires c < |t|
    decreases |t| - c
  {
    if t[c] !in n then
      Inserted(n[t[c] := Sub(Chain(t, if c == |t| - 1 then c else c + 1, idx))])
    else if c < |t| - 1 then
      match n[t[c]]
      case Leaf(_) => CastFailure
      case Sub(m) =>
        match AttainAsWritten(m, t, c + 1, idx)
        case Inserted(m2) => Inserted(n[t[c] := Sub(m2)])
        case other => other
    else
      match n[t[c]]
      case Leaf(i) => Attained(i)
      case Sub(_) => CastFailure
  }

  /** A walk from level `c` on reads no slot before `c`. */
  lemma {:induction false} LookupSuffix(n: Node, k: seq<int>, k2: seq<int>, c: nat)
    requires c < |k| == |k2| && k[c..] == k2[c..]
    ensures Lookup(n, k, c) == Lookup(n, k2, c)
    decreases |k| - c
  {
    assert k[c] == k[c..][0] && k2[c] == k2[c..][0];
    if c < |k| - 1 && k[c] in n && n[k[c]].Sub? {
      assert k[c + 1..] == k[c..][1..] && k2[c + 1..] == k2[c..][1..];
      LookupSuffix(n[k[c]].node, k, k2, c + 1);
    }
  }

  /** A chain holds exactly its own key. */
  lemma {:induction false} LookupChain(t: seq<int>, c: nat, idx: int, k: seq<int>)
    requires c < |t| == |k|
    ensures Lookup(Chain(t, c, idx), k, c) == if k[c..] == t[c..] then At(idx) else Absent
    ensures WellFormed(Chain(t, c, idx), c, |t|)
    decreases |t| - c
  {
    SuffixSplit(k, t, c);
    var n := Chain(t, c, idx);
    if c < |t| - 1 {
      LookupChain(t, c + 1, idx, k);
      ChainHolds(t, c + 1, idx);
    }
    forall x | x in n
      ensures if c < |t| - 1 then n[x].Sub? && (exists y :: y in n[x].node) && WellFormed(n[x].node, c + 1, |t|)
        else n[x].Leaf?
    {
      assert x == t[c];
      if c < |t| - 1 {
        assert n[x].node == Chain(t, c + 1, idx);
        NonEmpty(n[x].node, t[c + 1]);
      }
    }
  }

  /** A node holding `y` is not empty. */
  lemma NonEmpty(m: Node, y: int)
    requires y in m
    ensures exists z :: z in m
  {
  }

  /** A chain's top node holds the first value of its key. */
  lemma ChainHolds(t: seq<int>, c: nat, idx: int)
    requires c < |t|
    ensures t[c] in Chain(t, c, idx)
  {
  }

  /** Two suffixes agree exactly when their first slots and the rest agree. */
  lemma SuffixSplit(k: seq<int>, t: seq<int>, c: nat)
    requires c < |t| == |k|
    ensures k[c..] == t[c..] <==> k[c] == t[c] && k[c + 1..] == t[c + 1..]
  {
    if k[c..] == t[c..] {
      assert k[c] == k[c..][0] && t[c] == t[c..][0];
      assert k[c + 1..] == k[c..][1..] && t[c + 1..] == t[c..][1..];
    }
    if k[c] == t[c] && k[c + 1..] == t[c + 1..] {
      assert k[c..] == [k[c]] + k[c + 1..] && t[c..] == [t[c]] + t[c + 1..];
    }
  }

  /** In a well-formed trie no walk fails a cast. */
  lemma {:induction false} WellFormedLookup(n: Node, k: seq<int>, c: nat)
    requires c < |k| && WellFormed(n, c, |k|)
    ensures !Lookup(n, k, c).InvalidCast?
    decreases |k| - c
  {
    if k[c] in n {
      WellFormedChild(n, c, |k|, k[c]);
      if c < |k| - 1 {
        WellFormedLookup(n[k[c]].node, k, c + 1);
      }
    }
  }

  /**
   * On a well-formed trie the walk-and-insert finds the stored index of a key
   * that is present, and inserts a key that is absent: afterwards that key
   * yields `idx`, every other key what it yielded before, and the trie is
   * still well-formed. No cast fails.
   */
  lemma {:induction false} AttainSpec(n: Node, t: seq<int>, c: nat, idx: int)
    requires c < |t| && WellFormed(n, c, |t|)
    ensures var o := Attain(n, t, c, idx);
      && !o.CastFailure?
      && (o.Attained? <==> Lookup(n, t, c).At?)
      && (o.Attained? ==> o.index == Lookup(n, t, c).index)
      && (o.Inserted? ==> t[c] in o.root && WellFormed(o.root, c, |t|))
    ensures var o := Attain(n, t, c, idx);
      o.Inserted? ==> forall k {:trigger Lookup(o.root, k, c)} :: |k| == |t| ==>
        Lookup(o.root, k, c) == if k[c..] == t[c..] then At(idx) else Lookup(n, k, c)
    decreases |t| - c
  {
    var o := Attain(n, t, c, idx);
    if t[c] !in n {
      var r := o.root;
      forall x | x in r
        ensures if c < |t| - 1 then r[x].Sub? && (exists y :: y in r[x].node) && WellFormed(r[x].node, c + 1, |t|)
          else r[x].Leaf?
      {
        if x != t[c] {
          WellFormedChild(n, c, |t|, x);
        } else if c < |t| - 1 {
          LookupChain(t, c + 1, idx, t);
          ChainHolds(t, c + 1, idx);
          NonEmpty(r[x].node, t[c + 1]);
        }
      }
      forall k | |k| == |t|
        ensures Lookup(r, k, c) == if k[c..] == t[c..] then At(idx) else Lookup(n, k, c)
      {
        SuffixSplit(k, t, c);
        if c < |t| - 1 {
          LookupChain(t, c + 1, idx, k);
        }
      }
    } else if c < |t| - 1 {
      WellFormedChild(n, c, |t|, t[c]);
      var m := n[t[c]].node;
      AttainSpec(m, t, c + 1, idx);
      var o2 := Attain(m, t, c + 1, idx);
      if o2.Inserted? {
        var r := o.root;
        assert r == n[t[c] := Sub(o2.root)];
        forall x | x in r
          ensures r[x].Sub? && (exists y :: y in r[x].node) && WellFormed(r[x].node, c + 1, |t|)
        {
          if x != t[c] {
            WellFormedChild(n, c, |t|, x);
          } else {
            NonEmpty(r[x].node, t[c + 1]);
          }
        }
        forall k | |k| == |t|
          ensures Lookup(r, k, c) == if k[c..] == t[c..] then At(idx) else Lookup(n, k, c)
        {
          SuffixSplit(k, t, c);
        }
      }
    } else {
      WellFormedChild(n, c, |t|, t[c]);
    }
  }

  /**
   * The source's defect is out of reach while every stored key is a
   * rearrangement of the key being inserted: two such keys that agree up to
   * the last slot agree there too, so the walk never diverges at the last
   * level, where alone the two versions differ.
   */
  lemma {:induction false} AsWrittenAgrees(n: Node, t: seq<int>, c: nat, idx: int)
    requires c < |t| && WellFormed(n, c, |t|) && (c < |t| - 1 || exists x :: x in n)
    requires forall k :: |k| == |t| && k[..c] == t[..c] && Lookup(n, k, c).At? ==> multiset(k) == multiset(t)
    ensures AttainAsWritten(n, t, c, idx) == Attain(n, t, c, idx)
    decreases |t| - c
  {
    var L := |t|;
    if c == L - 1 {
      var x :| x in n;
      WellFormedChild(n, c, L, x);
      var k := t[..L - 1] + [x];
      assert k[..c] == t[..c] && k[c] == x;
      assert Lookup(n, k, c) == At(n[x].index);
      assert multiset(k) == multiset(t);
      assert t == t[..L - 1] + [t[L - 1]];
      assert multiset(k)[x] == multiset(t[..L - 1])[x] + 1;
      assert multiset(t)[x] == multiset(t[..L - 1])[x] + (if x == t[L - 1] then 1 else 0);
      assert t[c] in n;
    } else if t[c] in n {
      WellFormedChild(n, c, L, t[c]);
      var m := n[t[c]].node;
      forall k | |k| == L && k[..c + 1] == t[..c + 1] && Lookup(m, k, c + 1).At?
        ensures multiset(k) == multiset(t)
      {
        assert k[c] == t[c] && k[..c] == t[..c];
      }
      AsWrittenAgrees(m, t, c + 1, idx);
    }
  }

  /**
   * The defect itself: two keys that differ only in their last slot. The
   * source stores the second under a dictionary at the last level, and a
   * later walk for it fails the cast; the corrected insertion finds it.
   */
  lemma AsWrittenLosesLastLevelKey()
    ensures var root := Chain([1, 2], 0, 7);
      && AttainAsWritten(root, [1, 3], 0, 8).Inserted?
      && AttainAsWritten(AttainAsWritten(root, [1, 3], 0, 8).root, [1, 3], 0, 9) == CastFailure
      && Attain(root, [1, 3], 0, 8).Inserted?
      && Attain(Attain(root, [1, 3], 0, 8).root, [1, 3], 0, 9) == Attained(8)
  {
    var root := Chain([1, 2], 0, 7);
    assert root == map[1 := Sub(map[2 := Leaf(7)])];
    var bad := AttainAsWritten(root, [1, 3], 0, 8);
    assert bad == Inserted(map[1 := Sub(map[2 := Leaf(7), 3 := Sub(map[3 := Leaf(8)])])]);
    var good := Attain(root, [1, 3], 0, 8);
    assert good == Inserted(map[1 := Sub(map[2 := Leaf(7), 3 := Leaf(8)])]);
  }
}
