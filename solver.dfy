/**
 * The search engine (`Simulator.Solve`): a breadth-first walk over the list of
 * attainable positions, where entry 0 is the starting position. Each visited
 * entry is either solved, a dead end or expanded. Expanding an entry appends its
 * successors, deduplicated through a trie of tableaux, or in random play one
 * successor chosen at random without any deduplication. When a solved entry
 * was found, its number of moves is the length of its chain of first parents.
 *
 * The positions are the objects of module `Position`. Beside them the proofs
 * keep, as ghost state, the board each entry holds and the map from every
 * indexed tableau to the entry holding it.
 */
module Solver {
  import opened Arith
  import opened Cards
  import opened Rules
  import opened Trie
  import Position
  import Randomness

  /** The parent of entry 0, and the solution index before any solved entry is seen. */
  const None := -1

  /** The source's counters are `ushort`: they count modulo this. */
  const UShortRange := 0x1_0000

  datatype ApproachType = ShortestPath | FullTree | RandomPlay

  /**
   * An entry of the attainable-position list: a position and the entries it
   * was reached from, the first of which queued it.
   */
  datatype PositionInfo = PositionInfo(position: Position.PretzelPosition, parentIndexes: seq<int>)

  datatype SolveResults = SolveResults(solvable: bool, moves: int, deadends: int)

  /** Entry `i` with `p` added to its parents: another path to it, which the full-tree approach records. */
  function AddParent(list: seq<PositionInfo>, i: nat, p: int): (r: seq<PositionInfo>)
    requires i < |list|
    ensures |r| == |list| && r[i].parentIndexes == list[i].parentIndexes + [p]
    ensures forall e :: 0 <= e < |list| ==> r[e].position == list[e].position
    ensures forall e :: 0 <= e < |list| && e != i ==> r[e] == list[e]
  {
    list[i := list[i].(parentIndexes := list[i].parentIndexes + [p])]
  }

  /**
   * Every entry has a first parent: `None` for entry 0, an earlier entry for
   * every other one, so the first-parent chains all end at entry 0.
   */
  predicate Rooted(list: seq<PositionInfo>)
  {
    |list| >= 1 &&
    (forall e :: 0 <= e < |list| ==> list[e].parentIndexes != []) &&
    list[0].parentIndexes[0] == None &&
    (forall e :: 1 <= e < |list| ==> 0 <= list[e].parentIndexes[0] < e)
  }

  /** The number of first-parent hops from entry `e` back to entry 0. */
  function Depth(list: seq<PositionInfo>, e: nat): nat
    requires Rooted(list) && e < |list|
    decreases e
  {
    if e == 0 then 0 else 1 + Depth(list, list[e].parentIndexes[0])
  }

  /** First parents never decrease along the list: entries are queued in the order their parents are visited. */
  predicate Ordered(list: seq<PositionInfo>)
    requires Rooted(list)
  {
    forall e, f :: 1 <= e < f < |list| ==> list[e].parentIndexes[0] <= list[f].parentIndexes[0]
  }

  /** In a list ordered by first parents, depth never decreases along the list. */
  lemma {:induction false} DepthOrdered(list: seq<PositionInfo>, e: nat, f: nat)
    requires Rooted(list) && Ordered(list) && e < |list| && f < |list|
    ensures e <= f ==> Depth(list, e) <= Depth(list, f)
    decreases f
  {
    if 0 < e < f {
      DepthOrdered(list, list[e].parentIndexes[0], list[f].parentIndexes[0]);
    }
  }

  ghost predicate AllValid(boards: seq<Board>, S: nat, V: nat)
  {
    forall e :: 0 <= e < |boards| ==> ValidBoard(boards[e], S, V)
  }

  /**
   * `r` is one move away from the valid board `b`: it is among `Next(b)`
   * (`IsMoveIs`). It sits one recursion level down so that reasoning about
   * the tree of plays does not search the successors for it.
   */
  ghost predicate IsMove(b: Board, r: Board, S: nat, V: nat)
    requires ValidBoard(b, S, V)
  {
    var below := IsMoveBelow(b, r, S, V, |r.tableau| + 1);
    below
  }

  ghost predicate IsMoveBelow(b: Board, r: Board, S: nat, V: nat, depth: nat)
    requires ValidBoard(b, S, V)
    decreases depth
  {
    if depth == 0 then r in Next(b, S, V) else IsMoveBelow(b, r, S, V, depth - 1)
  }

  lemma {:induction false} IsMoveBelowIs(b: Board, r: Board, S: nat, V: nat, depth: nat)
    requires ValidBoard(b, S, V)
    ensures IsMoveBelow(b, r, S, V, depth) <==> r in Next(b, S, V)
    decreases depth
  {
    if depth > 0 {
      IsMoveBelowIs(b, r, S, V, depth - 1);
    }
  }

  lemma IsMoveIs(b: Board, r: Board, S: nat, V: nat)
    requires ValidBoard(b, S, V)
    ensures IsMove(b, r, S, V) <==> r in Next(b, S, V)
  {
    IsMoveBelowIs(b, r, S, V, |r.tableau| + 1);
  }

  /** A play: a valid board followed by boards each one move from the one before. */
  ghost predicate IsPlay(path: seq<Board>, S: nat, V: nat)
  {
    |path| >= 1 && ValidBoard(path[0], S, V) &&
    forall k :: 0 <= k < |path| - 1 ==> ValidBoard(path[k], S, V) && IsMove(path[k], path[k + 1], S, V)
  }

  /** No play from `b` reaches the goal. */
  ghost predicate NoSolution(b: Board, S: nat, V: nat)
  {
    forall path: seq<Board> :: IsPlay(path, S, V) && path[0] == b ==> !Solved(path[|path| - 1].tableau)
  }

  /** Every play from `b` that reaches the goal makes at least `d` moves. */
  ghost predicate NoShorterSolution(b: Board, S: nat, V: nat, d: nat)
  {
    forall path: seq<Board> :: IsPlay(path, S, V) && path[0] == b && Solved(path[|path| - 1].tableau) ==> |path| - 1 >= d
  }

  /** Every entry after the first holds a move from its first parent's board. */
  ghost predicate Linked(list: seq<PositionInfo>, boards: seq<Board>, S: nat, V: nat)
    requires Rooted(list) && |boards| == |list| && AllValid(boards, S, V)
  {
    forall e :: 1 <= e < |list| ==> IsMove(boards[list[e].parentIndexes[0]], boards[e], S, V)
  }

  /**
   * The list as a tree of plays: each entry holds a valid board, every
   * entry after the first is a move from its first parent, and every parent
   * is one of the first `expanded` entries.
   */
  ghost predicate Tree(list: seq<PositionInfo>, boards: seq<Board>, S: nat, V: nat, expanded: nat)
  {
    Rooted(list) && |boards| == |list| && expanded <= |list| &&
    AllValid(boards, S, V) && Linked(list, boards, S, V) &&
    (forall e :: 1 <= e < |list| ==> list[e].parentIndexes[0] < expanded) &&
    (forall e, j :: 0 <= e < |list| && 1 <= j < |list[e].parentIndexes| ==> 0 <= list[e].parentIndexes[j] < expanded)
  }

  /** Each entry's position holds that entry's board; with `Tree`, every position is valid. */
  ghost predicate Holds(list: seq<PositionInfo>, boards: seq<Board>, S: nat, V: nat)
    reads set e | 0 <= e < |list| :: list[e].position.tableau
    reads set e | 0 <= e < |list| :: list[e].position.holeIndices
  {
    |list| == |boards| &&
    forall e :: 0 <= e < |list| ==>
      list[e].position.suitCount == S && list[e].position.valueCount == V &&
      list[e].position.tableau != list[e].position.holeIndices &&
      list[e].position.tableau.Length <= Position.MaxSlots &&
      list[e].position.Contents() == boards[e]
  }

  /** The entries of `list` keep their positions in `list'`, which may have more entries. */
  predicate Keeps(list: seq<PositionInfo>, list': seq<PositionInfo>)
  {
    |list| <= |list'| &&
    forall e :: 0 <= e < |list| ==> list'[e].position == list[e].position && list[e].parentIndexes <= list'[e].parentIndexes
  }

  /** Every entry has a single parent: no second path was recorded. */
  predicate SingleParents(list: seq<PositionInfo>)
  {
    forall e :: 0 <= e < |list| ==> |list[e].parentIndexes| == 1
  }

  /** Each position owns two distinct arrays of a size the position class accepts. */
  predicate Separate(ps: seq<Position.PretzelPosition>)
  {
    forall k :: 0 <= k < |ps| ==> ps[k].tableau != ps[k].holeIndices && ps[k].tableau.Length <= Position.MaxSlots
  }

  /** `owner` maps the tableau of every board after the first to that board's index, and nothing else. */
  ghost predicate Owns(boards: seq<Board>, owner: map<seq<int>, nat>)
  {
    |owner| == |boards| - 1 &&
    (forall k :: k in owner ==> 1 <= owner[k] < |boards| && boards[owner[k]].tableau == k) &&
    (forall e :: 1 <= e < |boards| ==> boards[e].tableau in owner && owner[boards[e].tableau] == e)
  }

  /**
   * The dedup index: `owner` maps the tableau of every entry after the first
   * to that entry, and the trie is well-formed and yields, for exactly those
   * tableaux, the first parent of the entry holding it.
   */
  ghost predicate Indexed(list: seq<PositionInfo>, boards: seq<Board>, trie: Node, owner: map<seq<int>, nat>)
    requires Rooted(list) && |boards| == |list|
  {
    var L := |boards[0].tableau|;
    L >= 1 && WellFormed(trie, 0, L) && Owns(boards, owner) &&
    (forall k {:trigger Lookup(trie, k, 0)} :: |k| == L ==>
      Lookup(trie, k, 0) == if k in owner then At(list[owner[k]].parentIndexes[0]) else Absent)
  }

  /**
   * Every successor of each of the first `n` entries that is not solved has
   * an indexed tableau (`ClosedIs`). It sits one recursion level down like
   * `Searching`.
   */
  ghost predicate Closed(list: seq<PositionInfo>, boards: seq<Board>, S: nat, V: nat, owner: map<seq<int>, nat>, n: nat)
    requires n <= |boards| && AllValid(boards, S, V)
  {
    var below := ClosedBelow(list, boards, S, V, owner, n, |boards| + 1);
    below
  }

  ghost predicate ClosedBelow(list: seq<PositionInfo>, boards: seq<Board>, S: nat, V: nat, owner: map<seq<int>, nat>,
                              n: nat, depth: nat)
    requires n <= |boards| && AllValid(boards, S, V)
    decreases depth
  {
    if depth == 0 then SuccessorsIndexed(list, boards, S, V, owner, n) else ClosedBelow(list, boards, S, V, owner, n, depth - 1)
  }

  ghost predicate SuccessorsIndexed(list: seq<PositionInfo>, boards: seq<Board>, S: nat, V: nat, owner: map<seq<int>, nat>, n: nat)
    requires n <= |boards| && AllValid(boards, S, V)
  {
    forall e, i :: 0 <= e < n && !Solved(boards[e].tableau) && 0 <= i < |Next(boards[e], S, V)| ==>
      SuccessorIndexed(list, boards, S, V, owner, e, i)
  }

  /** Successor `i` of entry `e` has an indexed tableau, whose entry entry `e` or an earlier one queued. */
  ghost predicate SuccessorIndexed(list: seq<PositionInfo>, boards: seq<Board>, S: nat, V: nat, owner: map<seq<int>, nat>,
                                   e: nat, i: nat)
    requires e < |boards| && AllValid(boards, S, V) && i < |Next(boards[e], S, V)|
  {
    Next(boards[e], S, V)[i].tableau in owner && QueuedBy(list, owner[Next(boards[e], S, V)[i].tableau], e)
  }

  /** Entry `f` exists and its first parent is entry `e` or an earlier one. */
  predicate QueuedBy(list: seq<PositionInfo>, f: nat, e: nat)
  {
    f < |list| && list[f].parentIndexes != [] && list[f].parentIndexes[0] <= e
  }

  lemma {:induction false} ClosedBelowIs(list: seq<PositionInfo>, boards: seq<Board>, S: nat, V: nat, owner: map<seq<int>, nat>,
                                         n: nat, depth: nat)
    requires n <= |boards| && AllValid(boards, S, V)
    ensures ClosedBelow(list, boards, S, V, owner, n, depth) <==> SuccessorsIndexed(list, boards, S, V, owner, n)
    decreases depth
  {
    if depth > 0 {
      ClosedBelowIs(list, boards, S, V, owner, n, depth - 1);
    }
  }

  lemma ClosedIs(list: seq<PositionInfo>, boards: seq<Board>, S: nat, V: nat, owner: map<seq<int>, nat>, n: nat)
    requires n <= |boards| && AllValid(boards, S, V)
    ensures Closed(list, boards, S, V, owner, n) <==> SuccessorsIndexed(list, boards, S, V, owner, n)
  {
    ClosedBelowIs(list, boards, S, V, owner, n, |boards| + 1);
  }

  /**
   * The search's invariant once `expanded` entries are visited: the tree,
   * the index outside random play, and a single parent per entry unless the
   * full tree is built (`SearchIs`). `Holds` ties the entries' positions to
   * its boards. It sits one recursion level down so that a lemma about the
   * loop state does not unfold all of it.
   */
  ghost predicate Search(approach: ApproachType, list: seq<PositionInfo>, boards: seq<Board>, trie: Node,
                         owner: map<seq<int>, nat>, S: nat, V: nat, expanded: nat)
  {
    expanded <= |list| == |boards| && AllValid(boards, S, V) &&
    var below := SearchBelow(approach, list, boards, trie, owner, S, V, expanded, |list| + 1);
    below
  }

  ghost predicate SearchBelow(approach: ApproachType, list: seq<PositionInfo>, boards: seq<Board>, trie: Node,
                              owner: map<seq<int>, nat>, S: nat, V: nat, expanded: nat, depth: nat)
    decreases depth
  {
    if depth == 0 then SearchParts(approach, list, boards, trie, owner, S, V, expanded)
    else SearchBelow(approach, list, boards, trie, owner, S, V, expanded, depth - 1)
  }

  ghost predicate SearchParts(approach: ApproachType, list: seq<PositionInfo>, boards: seq<Board>, trie: Node,
                              owner: map<seq<int>, nat>, S: nat, V: nat, expanded: nat)
  {
    Tree(list, boards, S, V, expanded) && Ordered(list) &&
    (approach != RandomPlay ==> Indexed(list, boards, trie, owner)) &&
    (approach != FullTree ==> SingleParents(list))
  }

  lemma {:induction false} SearchBelowIs(approach: ApproachType, list: seq<PositionInfo>, boards: seq<Board>, trie: Node,
                                         owner: map<seq<int>, nat>, S: nat, V: nat, expanded: nat, depth: nat)
    ensures SearchBelow(approach, list, boards, trie, owner, S, V, expanded, depth) <==>
      SearchParts(approach, list, boards, trie, owner, S, V, expanded)
    decreases depth
  {
    if depth > 0 {
      SearchBelowIs(approach, list, boards, trie, owner, S, V, expanded, depth - 1);
    }
  }

  lemma SearchIs(approach: ApproachType, list: seq<PositionInfo>, boards: seq<Board>, trie: Node,
                 owner: map<seq<int>, nat>, S: nat, V: nat, expanded: nat)
    ensures Search(approach, list, boards, trie, owner, S, V, expanded) <==>
      Tree(list, boards, S, V, expanded) && Ordered(list) &&
      (approach != RandomPlay ==> Indexed(list, boards, trie, owner)) &&
      (approach != FullTree ==> SingleParents(list))
  {
    SearchBelowIs(approach, list, boards, trie, owner, S, V, expanded, |list| + 1);
  }

  /** The tree of the search invariant. */
  lemma SearchTree(approach: ApproachType, list: seq<PositionInfo>, boards: seq<Board>, trie: Node,
                   owner: map<seq<int>, nat>, S: nat, V: nat, expanded: nat)
    requires Search(approach, list, boards, trie, owner, S, V, expanded)
    ensures Tree(list, boards, S, V, expanded) && Ordered(list) && (approach != FullTree ==> SingleParents(list))
  {
    SearchIs(approach, list, boards, trie, owner, S, V, expanded);
  }

  /** Once entry `n` is expanded, every first parent is entry `n` or an earlier one. */
  lemma SearchSpawned(approach: ApproachType, list: seq<PositionInfo>, boards: seq<Board>, trie: Node,
                      owner: map<seq<int>, nat>, S: nat, V: nat, n: nat)
    requires Search(approach, list, boards, trie, owner, S, V, n + 1)
    ensures Spawned(list, boards, n)
  {
    SearchIs(approach, list, boards, trie, owner, S, V, n + 1);
  }

  /** Outside random play, the owner map of the search invariant. */
  lemma SearchOwns(approach: ApproachType, list: seq<PositionInfo>, boards: seq<Board>, trie: Node,
                   owner: map<seq<int>, nat>, S: nat, V: nat, expanded: nat)
    requires Search(approach, list, boards, trie, owner, S, V, expanded) && approach != RandomPlay
    ensures |boards| >= 1 && Rooted(list) && Owns(boards, owner)
  {
    SearchIs(approach, list, boards, trie, owner, S, V, expanded);
  }

  /** A valid board that is not solved and has no successors. */
  ghost predicate IsDeadEnd(b: Board, S: nat, V: nat)
  {
    !Solved(b.tableau) && ValidBoard(b, S, V) && |Next(b, S, V)| == 0
  }

  /** The `e < n` satisfying `p`, in increasing order. */
  function Indices(p: nat -> bool, n: nat): (d: seq<nat>)
    ensures forall j :: 0 <= j < |d| ==> d[j] < n
  {
    if n == 0 then [] else Indices(p, n - 1) + (if p(n - 1) then [n - 1] else [])
  }

  /** The dead ends among the first `n` entries, in order. */
  ghost function DeadEnds(boards: seq<Board>, S: nat, V: nat, n: nat): seq<nat>
  {
    Indices((e: nat) => e < |boards| && IsDeadEnd(boards[e], S, V), n)
  }

  /** The last solved entry among the first `n`, or `None`. */
  function LastSolved(boards: seq<Board>, n: nat): int
    requires n <= |boards|
  {
    if n == 0 then None
    else if Solved(boards[n - 1].tableau) then n - 1
    else LastSolved(boards, n - 1)
  }

  /** The first `n` successors in `rs` whose tableau is neither in `seen` nor an earlier one's: those the search queues. */
  ghost function Fresh(rs: seq<Board>, seen: set<seq<int>>, n: nat): seq<Board>
    requires n <= |rs|
  {
    if n == 0 then []
    else Fresh(rs, seen, n - 1) + (if rs[n - 1].tableau in seen || Repeated(rs, n - 1) then [] else [rs[n - 1]])
  }

  /** The tableau of `rs[j]` is that of an earlier board. */
  ghost predicate Repeated(rs: seq<Board>, j: nat)
    requires j < |rs|
  {
    exists k :: 0 <= k < j && rs[k].tableau == rs[j].tableau
  }

  /** `Indices` lists exactly the `e < n` satisfying `p`, in increasing order. */
  lemma {:induction false} IndicesMembers(p: nat -> bool, n: nat)
    ensures forall e: nat :: e in Indices(p, n) <==> e < n && p(e)
    ensures forall a, b :: 0 <= a < b < |Indices(p, n)| ==> Indices(p, n)[a] < Indices(p, n)[b]
  {
    if n > 0 {
      IndicesMembers(p, n - 1);
    }
  }

  /** `Indices` reads `p` only below `n`. */
  lemma {:induction false} IndicesAgree(p: nat -> bool, q: nat -> bool, n: nat)
    requires forall e: nat :: e < n ==> p(e) == q(e)
    ensures Indices(p, n) == Indices(q, n)
  {
    if n > 0 {
      IndicesAgree(p, q, n - 1);
    }
  }

  /** Visiting one more entry adds it to the dead ends exactly when it is one; what is appended later does not matter. */
  lemma DeadEndsStep(boards: seq<Board>, more: seq<Board>, S: nat, V: nat, n: nat)
    requires n < |boards| && boards <= more
    ensures DeadEnds(more, S, V, n + 1) == DeadEnds(boards, S, V, n) + (if IsDeadEnd(boards[n], S, V) then [n] else [])
  {
    var p := (e: nat) => e < |boards| && IsDeadEnd(boards[e], S, V);
    var q := (e: nat) => e < |more| && IsDeadEnd(more[e], S, V);
    forall e: nat | e < n ensures p(e) == q(e) {
      assert boards[e] == more[e];
    }
    IndicesAgree(p, q, n);
    assert boards[n] == more[n];
  }

  /** `LastSolved` names the last solved entry among the first `n`, and is `None` when there is none. */
  lemma {:induction false} LastSolvedSpec(boards: seq<Board>, n: nat)
    requires n <= |boards|
    ensures var r := LastSolved(boards, n);
      (r == None || (0 <= r < n && Solved(boards[r].tableau))) &&
      forall e :: r < e < n ==> !Solved(boards[e].tableau)
  {
    if n > 0 {
      LastSolvedSpec(boards, n - 1);
    }
  }

  lemma {:induction false} LastSolvedPrefix(boards: seq<Board>, more: seq<Board>, n: nat)
    requires n <= |boards| && boards <= more
    ensures LastSolved(boards, n) == LastSolved(more, n)
  {
    if n > 0 {
      LastSolvedPrefix(boards, more, n - 1);
      assert boards[n - 1] == more[n - 1];
    }
  }

  /**
   * The moves counted for entry `e` are those of a real play: a path of
   * entries from entry 0 to `e`, each a move from the one before.
   */
  lemma {:induction false} DepthIsPlay(list: seq<PositionInfo>, boards: seq<Board>, S: nat, V: nat, e: nat)
    returns (path: seq<nat>)
    requires Rooted(list) && |boards| == |list| && AllValid(boards, S, V) && Linked(list, boards, S, V) && e < |list|
    ensures |path| == Depth(list, e) + 1 && path[0] == 0 && path[|path| - 1] == e
    ensures forall j :: 0 <= j < |path| ==> path[j] < |list|
    ensures forall j :: 0 <= j < |path| - 1 ==> boards[path[j + 1]] in Next(boards[path[j]], S, V)
    decreases e
  {
    if e == 0 {
      path := [0];
    } else {
      var p := list[e].parentIndexes[0];
      var init := DepthIsPlay(list, boards, S, V, p);
      IsMoveIs(boards[p], boards[e], S, V);
      path := init + [e];
      assert path[|path| - 2] == p;
    }
  }

  /** Each board `Fresh` keeps is one of the first `n` successors, with a tableau outside `seen`. */
  lemma {:induction false} FreshOrigin(rs: seq<Board>, seen: set<seq<int>>, n: nat, k: nat) returns (j: nat)
    requires n <= |rs| && k < |Fresh(rs, seen, n)|
    ensures j < n && rs[j] == Fresh(rs, seen, n)[k] && rs[j].tableau !in seen
  {
    var f := Fresh(rs, seen, n - 1);
    if k < |f| {
      j := FreshOrigin(rs, seen, n - 1, k);
    } else {
      j := n - 1;
    }
  }

  /** Each of the first `n` successors has a tableau in `seen` or that of a board `Fresh` keeps. */
  lemma {:induction false} FreshCover(rs: seq<Board>, seen: set<seq<int>>, n: nat, j: nat) returns (k: nat)
    requires j < n <= |rs| && rs[j].tableau !in seen
    ensures k < |Fresh(rs, seen, n)| && Fresh(rs, seen, n)[k].tableau == rs[j].tableau
  {
    var f := Fresh(rs, seen, n - 1);
    if j < n - 1 {
      k := FreshCover(rs, seen, n - 1, j);
    } else if Repeated(rs, j) {
      var m :| 0 <= m < j && rs[m].tableau == rs[j].tableau;
      k := FreshCover(rs, seen, n - 1, m);
    } else {
      k := |f|;
    }
  }

  /**
   * After the successors before `i` went through the index, a tableau is
   * indexed exactly when it was indexed before or one of those successors
   * has it.
   */
  lemma Known(boards0: seq<Board>, owner0: map<seq<int>, nat>, boards: seq<Board>, owner: map<seq<int>, nat>,
              rs: seq<Board>, i: nat, t: seq<int>)
    requires |boards0| >= 1 && Owns(boards0, owner0) && Owns(boards, owner)
    requires i <= |rs| && boards == boards0 + Fresh(rs, owner0.Keys, i)
    ensures t in owner <==> t in owner0 || exists j :: 0 <= j < i && rs[j].tableau == t
  {
    var f := Fresh(rs, owner0.Keys, i);
    if t in owner {
      var e := owner[t];
      if e >= |boards0| {
        var j := FreshOrigin(rs, owner0.Keys, i, e - |boards0|);
        assert rs[j].tableau == t;
      } else {
        assert boards0[e] == boards[e];
      }
    }
    if t in owner0 {
      var e := owner0[t];
      assert boards0[e] == boards[e];
    } else if j :| 0 <= j < i && rs[j].tableau == t {
      var k := FreshCover(rs, owner0.Keys, i, j);
      assert boards[|boards0| + k] == f[k];
    }
  }

  /** One more successor handled: the queued boards grow as `Fresh` says. */
  lemma FreshInvariant(boards: seq<Board>, before: seq<Board>, after: seq<Board>, rs: seq<Board>, seen: set<seq<int>>, i: nat)
    requires i < |rs| && before == boards + Fresh(rs, seen, i)
    requires rs[i].tableau in seen || Repeated(rs, i) ==> after == before
    requires !(rs[i].tableau in seen || Repeated(rs, i)) ==> after == before + [rs[i]]
    ensures after == boards + Fresh(rs, seen, i + 1)
  {
  }

  lemma {:induction false} SubsetCard(a: set<seq<int>>, b: set<seq<int>>)
    requires a <= b
    ensures |a| <= |b|
    decreases a
  {
    if a != {} {
      var x :| x in a;
      SubsetCard(a - {x}, b - {x});
    }
  }

  /** The index can hold no more tableaux than there are: the search is finite. */
  lemma IndexBound(list: seq<PositionInfo>, boards: seq<Board>, trie: Node, owner: map<seq<int>, nat>, S: nat, V: nat, expanded: nat)
    requires Tree(list, boards, S, V, expanded) && Indexed(list, boards, trie, owner)
    ensures |list| <= |Tableaux(S * V, S * V)| + 1
  {
    forall k | k in owner.Keys ensures k in Tableaux(S * V, S * V) {
      ValidBoardInUniverse(boards[owner[k]], S, V);
    }
    SubsetCard(owner.Keys, Tableaux(S * V, S * V));
  }

  /**
   * One walk-and-insert of a tableau holding the dealt cards. The source's
   * version agrees with the corrected one here, since every indexed tableau
   * holds the same cards, and it finds exactly the indexed tableaux.
   */
  lemma InsertStep(approach: ApproachType, list: seq<PositionInfo>, boards: seq<Board>, trie: Node, owner: map<seq<int>, nat>,
                   S: nat, V: nat, expanded: nat, t: seq<int>, idx: int)
    requires Search(approach, list, boards, trie, owner, S, V, expanded) && approach != RandomPlay
    requires Rooted(list) && Owns(boards, owner)
    requires 1 <= |t| == S * V && multiset(t) == Dealt(S, V)
    ensures var o := AttainAsWritten(trie, t, 0, idx);
      && !o.CastFailure?
      && (o.Attained? <==> t in owner)
      && (o.Attained? ==> o.index == list[owner[t]].parentIndexes[0])
      && (o.Inserted? ==> WellFormed(o.root, 0, |t|))
      && (o.Inserted? ==> forall k {:trigger Lookup(o.root, k, 0)} :: |k| == |t| ==> Lookup(o.root, k, 0) == if k == t then At(idx) else Lookup(trie, k, 0))
  {
    SearchIs(approach, list, boards, trie, owner, S, V, expanded);
    var L := |t|;
    assert ValidBoard(boards[0], S, V);
    MulAtLeast(V, S);
    forall k | |k| == L && k[..0] == t[..0] && Lookup(trie, k, 0).At?
      ensures multiset(k) == multiset(t)
    {
      assert ValidBoard(boards[owner[k]], S, V);
      ValidBoardOpen(boards[owner[k]], S, V);
    }
    AsWrittenAgrees(trie, t, 0, idx);
    AttainSpec(trie, t, 0, idx);
    forall k | |k| == L
      ensures k[0..] == t[0..] <==> k == t
    {
      assert k[0..] == k && t[0..] == t;
    }
  }

  lemma TreeWiden(list: seq<PositionInfo>, boards: seq<Board>, S: nat, V: nat, expanded: nat, more: nat)
    requires Tree(list, boards, S, V, expanded) && expanded <= more <= |list|
    ensures Tree(list, boards, S, V, more)
  {
  }

  lemma KeepsTransitive(a: seq<PositionInfo>, b: seq<PositionInfo>, c: seq<PositionInfo>)
    requires Keeps(a, b) && Keeps(b, c)
    ensures Keeps(a, c)
  {
  }

  lemma AppendKeeps(list: seq<PositionInfo>, info: PositionInfo)
    ensures Keeps(list, list + [info])
    ensures SingleParents(list) && |info.parentIndexes| == 1 ==> SingleParents(list + [info])
  {
  }

  lemma AddParentKeeps(list: seq<PositionInfo>, i: nat, p: int)
    requires i < |list|
    ensures Keeps(list, AddParent(list, i, p))
  {
  }

  /** Queuing a move from an expanded entry keeps the tree. */
  lemma TreeAppend(list: seq<PositionInfo>, boards: seq<Board>, S: nat, V: nat, expanded: nat,
                   p: nat, sub: Position.PretzelPosition, m: Board)
    requires Tree(list, boards, S, V, expanded) && p < expanded && m in Next(boards[p], S, V)
    ensures Tree(list + [PositionInfo(sub, [p])], boards + [m], S, V, expanded)
    ensures Ordered(list) && p + 1 == expanded ==> Ordered(list + [PositionInfo(sub, [p])])
  {
    var list', boards' := list + [PositionInfo(sub, [p])], boards + [m];
    NextIsValid(boards[p], S, V, m);
    forall e | 1 <= e < |list'|
      ensures list'[e].parentIndexes[0] < expanded && IsMove(boards'[list'[e].parentIndexes[0]], boards'[e], S, V)
    {
      if e < |list| {
        assert list'[e] == list[e] && boards'[e] == boards[e];
        assert boards'[list[e].parentIndexes[0]] == boards[list[e].parentIndexes[0]];
      } else {
        IsMoveIs(boards[p], m, S, V);
      }
    }
  }

  /** Recording another path to an entry keeps the tree. */
  lemma TreeAddParent(list: seq<PositionInfo>, boards: seq<Board>, S: nat, V: nat, expanded: nat, i: nat, p: nat)
    requires Tree(list, boards, S, V, expanded) && i < |list| && p < expanded
    ensures Tree(AddParent(list, i, p), boards, S, V, expanded)
    ensures Ordered(list) ==> Ordered(AddParent(list, i, p))
  {
    var list' := AddParent(list, i, p);
    assert forall e :: 0 <= e < |list| ==> list'[e].parentIndexes[0] == list[e].parentIndexes[0];
  }

  /** Queuing an entry whose tableau the trie now yields keeps the index. */
  lemma IndexedAppend(list: seq<PositionInfo>, boards: seq<Board>, trie: Node, root: Node, owner: map<seq<int>, nat>,
                      p: nat, sub: Position.PretzelPosition, m: Board)
    requires Rooted(list) && |boards| == |list| && Indexed(list, boards, trie, owner)
    requires p < |list| && |m.tableau| == |boards[0].tableau| && m.tableau !in owner
    requires WellFormed(root, 0, |m.tableau|)
    requires forall k {:trigger Lookup(root, k, 0)} :: |k| == |m.tableau| ==> Lookup(root, k, 0) == if k == m.tableau then At(p) else Lookup(trie, k, 0)
    ensures Rooted(list + [PositionInfo(sub, [p])])
    ensures Indexed(list + [PositionInfo(sub, [p])], boards + [m], root, owner[m.tableau := |list|])
  {
    var list', boards', owner' := list + [PositionInfo(sub, [p])], boards + [m], owner[m.tableau := |list|];
    assert boards'[0] == boards[0];
    forall e | 1 <= e < |list'|
      ensures boards'[e].tableau in owner' && owner'[boards'[e].tableau] == e
    {
      if e < |list| {
        assert boards'[e] == boards[e];
      }
    }
    forall k | k in owner' ensures 1 <= owner'[k] < |list'| && boards'[owner'[k]].tableau == k {
      if k != m.tableau {
        assert boards'[owner[k]] == boards[owner[k]];
      }
    }
    forall k | |k| == |boards'[0].tableau|
      ensures Lookup(root, k, 0) == if k in owner' then At(list'[owner'[k]].parentIndexes[0]) else Absent
    {
      if k != m.tableau && k in owner {
        assert list'[owner[k]] == list[owner[k]];
      }
    }
  }

  /** Recording another path to an entry keeps the index: first parents are unchanged. */
  lemma IndexedAddParent(list: seq<PositionInfo>, boards: seq<Board>, trie: Node, owner: map<seq<int>, nat>, i: nat, p: int)
    requires Rooted(list) && |boards| == |list| && Indexed(list, boards, trie, owner) && i < |list|
    ensures Rooted(AddParent(list, i, p)) && Indexed(AddParent(list, i, p), boards, trie, owner)
  {
    var list' := AddParent(list, i, p);
    assert forall e :: 0 <= e < |list| ==> list'[e].parentIndexes[0] == list[e].parentIndexes[0];
  }

  lemma HoldsAppend(list: seq<PositionInfo>, boards: seq<Board>, S: nat, V: nat, info: PositionInfo, m: Board)
    requires Holds(list, boards, S, V)
    requires info.position.suitCount == S && info.position.valueCount == V
    requires info.position.tableau != info.position.holeIndices && info.position.tableau.Length <= Position.MaxSlots
    requires info.position.Contents() == m
    ensures Holds(list + [info], boards + [m], S, V)
  {
    var list' := list + [info];
    assert forall e :: 0 <= e < |list| ==> list'[e] == list[e];
  }

  lemma HoldsAddParent(list: seq<PositionInfo>, boards: seq<Board>, S: nat, V: nat, i: nat, p: int)
    requires Holds(list, boards, S, V) && i < |list|
    ensures Holds(AddParent(list, i, p), boards, S, V)
  {
  }

  /**
   * One successor of the expanded entry: walk its tableau down the trie;
   * queue it with the expanded entry as parent when the tableau is new, or,
   * in the full-tree approach, add the expanded entry as a parent of the
   * entry the trie leads to.
   */
  method Record(approach: ApproachType, list: seq<PositionInfo>, attainedPositions: Node, currentIndex: nat,
                sub: Position.PretzelPosition, ghost boards: seq<Board>, ghost owner: map<seq<int>, nat>,
                ghost S: nat, ghost V: nat)
    returns (list': seq<PositionInfo>, attained': Node, ghost boards': seq<Board>, ghost owner': map<seq<int>, nat>)
    requires approach != RandomPlay && currentIndex < |list|
    requires Search(approach, list, boards, attainedPositions, owner, S, V, currentIndex + 1) && Holds(list, boards, S, V)
    requires Rooted(list) && Owns(boards, owner)
    requires sub.tableau != sub.holeIndices && sub.tableau.Length <= Position.MaxSlots
    requires sub.suitCount == S && sub.valueCount == V && sub.Contents() in Next(boards[currentIndex], S, V)
    ensures Search(approach, list', boards', attained', owner', S, V, currentIndex + 1) && Holds(list', boards', S, V) && Keeps(list, list')
    ensures sub.tableau[..] !in owner ==>
      owner' == owner[sub.tableau[..] := |list|] && boards' == boards + [sub.Contents()] &&
      list' == list + [PositionInfo(sub, [currentIndex])]
    ensures sub.tableau[..] in owner ==>
      owner' == owner && boards' == boards &&
      list' == if approach == FullTree then AddParent(list, list[owner[sub.tableau[..]]].parentIndexes[0], currentIndex) else list
  {
    ghost var m := sub.Contents();
    var tableau := sub.tableau[..];
    NextIsValid(boards[currentIndex], S, V, m);
    ValidBoardOpen(m, S, V);
    InsertStep(approach, list, boards, attainedPositions, owner, S, V, currentIndex + 1, tableau, currentIndex);
    var outcome := AttainAsWritten(attainedPositions, tableau, 0, currentIndex);
    if outcome.Inserted? {
      list', attained', boards', owner' := Queue(approach, list, outcome.root, currentIndex, sub, boards, owner, attainedPositions, S, V);
    } else {
      list', boards' := AddPath(approach, list, outcome.index, currentIndex, boards, attainedPositions, owner, S, V);
      attained', owner' := attainedPositions, owner;
    }
  }

  /** A new tableau: the trie now leads to it, and it is queued with the expanded entry as parent. */
  method Queue(approach: ApproachType, list: seq<PositionInfo>, root: Node, currentIndex: nat, sub: Position.PretzelPosition,
               ghost boards: seq<Board>, ghost owner: map<seq<int>, nat>, ghost trie: Node, ghost S: nat, ghost V: nat)
    returns (list': seq<PositionInfo>, attained': Node, ghost boards': seq<Board>, ghost owner': map<seq<int>, nat>)
    requires approach != RandomPlay && currentIndex < |list|
    requires Search(approach, list, boards, trie, owner, S, V, currentIndex + 1) && Holds(list, boards, S, V)
    requires sub.tableau != sub.holeIndices && sub.tableau.Length <= Position.MaxSlots
    requires sub.suitCount == S && sub.valueCount == V && sub.Contents() in Next(boards[currentIndex], S, V)
    requires |sub.tableau[..]| == |boards[0].tableau| && sub.tableau[..] !in owner && WellFormed(root, 0, |sub.tableau[..]|)
    requires forall k {:trigger Lookup(root, k, 0)} :: |k| == |sub.tableau[..]| ==>
      Lookup(root, k, 0) == if k == sub.tableau[..] then At(currentIndex) else Lookup(trie, k, 0)
    ensures list' == list + [PositionInfo(sub, [currentIndex])] && attained' == root
    ensures boards' == boards + [sub.Contents()] && owner' == owner[sub.tableau[..] := |list|]
    ensures Search(approach, list', boards', attained', owner', S, V, currentIndex + 1) && Holds(list', boards', S, V) && Keeps(list, list')
  {
    SearchAppend(approach, list, boards, trie, root, owner, S, V, currentIndex, sub, sub.Contents());
    HoldsAppend(list, boards, S, V, PositionInfo(sub, [currentIndex]), sub.Contents());
    AppendKeeps(list, PositionInfo(sub, [currentIndex]));
    list', attained' := list + [PositionInfo(sub, [currentIndex])], root;
    boards', owner' := boards + [sub.Contents()], owner[sub.tableau[..] := |list|];
  }

  /** Queuing a successor whose tableau the trie now yields keeps the search invariant. */
  lemma SearchAppend(approach: ApproachType, list: seq<PositionInfo>, boards: seq<Board>, trie: Node, root: Node,
                     owner: map<seq<int>, nat>, S: nat, V: nat, currentIndex: nat, sub: Position.PretzelPosition, m: Board)
    requires approach != RandomPlay && currentIndex < |list|
    requires Search(approach, list, boards, trie, owner, S, V, currentIndex + 1) && m in Next(boards[currentIndex], S, V)
    requires |m.tableau| == |boards[0].tableau| && m.tableau !in owner && WellFormed(root, 0, |m.tableau|)
    requires forall k {:trigger Lookup(root, k, 0)} :: |k| == |m.tableau| ==> Lookup(root, k, 0) == if k == m.tableau then At(currentIndex) else Lookup(trie, k, 0)
    ensures Search(approach, list + [PositionInfo(sub, [currentIndex])], boards + [m], root, owner[m.tableau := |list|],
                   S, V, currentIndex + 1)
  {
    SearchIs(approach, list, boards, trie, owner, S, V, currentIndex + 1);
    TreeAppend(list, boards, S, V, currentIndex + 1, currentIndex, sub, m);
    IndexedAppend(list, boards, trie, root, owner, currentIndex, sub, m);
    SearchIs(approach, list + [PositionInfo(sub, [currentIndex])], boards + [m], root, owner[m.tableau := |list|],
             S, V, currentIndex + 1);
  }

  /** A tableau seen before: in the full-tree approach the entry the trie leads to gains the expanded entry as a parent. */
  method AddPath(approach: ApproachType, list: seq<PositionInfo>, attainablePositionListIndex: int, currentIndex: nat,
                 ghost boards: seq<Board>, ghost trie: Node, ghost owner: map<seq<int>, nat>, ghost S: nat, ghost V: nat)
    returns (list': seq<PositionInfo>, ghost boards': seq<Board>)
    requires approach != RandomPlay && currentIndex < |list| && 0 <= attainablePositionListIndex < |list|
    requires Search(approach, list, boards, trie, owner, S, V, currentIndex + 1) && Holds(list, boards, S, V)
    ensures list' == if approach == FullTree then AddParent(list, attainablePositionListIndex, currentIndex) else list
    ensures boards' == boards
    ensures Search(approach, list', boards', trie, owner, S, V, currentIndex + 1) && Holds(list', boards', S, V) && Keeps(list, list')
  {
    boards' := boards;
    if approach == FullTree {
      SearchAddParent(list, boards, trie, owner, S, V, currentIndex + 1, attainablePositionListIndex, currentIndex);
      HoldsAddParent(list, boards, S, V, attainablePositionListIndex, currentIndex);
      AddParentKeeps(list, attainablePositionListIndex, currentIndex);
      list' := AddParent(list, attainablePositionListIndex, currentIndex);
    } else {
      list' := list;
    }
  }

  /** In the full-tree approach, recording another path to an entry keeps the search invariant. */
  lemma SearchAddParent(list: seq<PositionInfo>, boards: seq<Board>, trie: Node, owner: map<seq<int>, nat>,
                        S: nat, V: nat, expanded: nat, i: nat, p: nat)
    requires Search(FullTree, list, boards, trie, owner, S, V, expanded) && i < |list| && p < expanded
    ensures Search(FullTree, AddParent(list, i, p), boards, trie, owner, S, V, expanded)
  {
    SearchIs(FullTree, list, boards, trie, owner, S, V, expanded);
    TreeAddParent(list, boards, S, V, expanded, i, p);
    IndexedAddParent(list, boards, trie, owner, i, p);
    SearchIs(FullTree, AddParent(list, i, p), boards, trie, owner, S, V, expanded);
  }

  /**
   * The state the expansion loop keeps from one successor to the next:
   * `Search` and `Holds` (`ExpandingOpen`, `ExpandingClose`), one recursion
   * level down like `Searching`.
   */
  ghost predicate Expanding(approach: ApproachType, list: seq<PositionInfo>, boards: seq<Board>, trie: Node,
                      owner: map<seq<int>, nat>, S: nat, V: nat, expanded: nat)
    reads set e | 0 <= e < |list| :: list[e].position.tableau
    reads set e | 0 <= e < |list| :: list[e].position.holeIndices
  {
    expanded <= |list| == |boards| &&
    var below := ExpandingBelow(approach, list, boards, trie, owner, S, V, expanded, |list| + 1);
    below
  }

  ghost predicate ExpandingBelow(approach: ApproachType, list: seq<PositionInfo>, boards: seq<Board>, trie: Node,
                      owner: map<seq<int>, nat>, S: nat, V: nat, expanded: nat, depth: nat)
    reads set e | 0 <= e < |list| :: list[e].position.tableau
    reads set e | 0 <= e < |list| :: list[e].position.holeIndices
    decreases depth
  {
    if depth == 0 then Search(approach, list, boards, trie, owner, S, V, expanded) && Holds(list, boards, S, V) else ExpandingBelow(approach, list, boards, trie, owner, S, V, expanded, depth - 1)
  }

  lemma {:induction false} ExpandingBelowIs(approach: ApproachType, list: seq<PositionInfo>, boards: seq<Board>, trie: Node,
                      owner: map<seq<int>, nat>, S: nat, V: nat, expanded: nat, depth: nat)
    ensures ExpandingBelow(approach, list, boards, trie, owner, S, V, expanded, depth) <==> Search(approach, list, boards, trie, owner, S, V, expanded) && Holds(list, boards, S, V)
    decreases depth
  {
    if depth > 0 {
      ExpandingBelowIs(approach, list, boards, trie, owner, S, V, expanded, depth - 1);
    }
  }

  lemma ExpandingOpen(approach: ApproachType, list: seq<PositionInfo>, boards: seq<Board>, trie: Node,
                      owner: map<seq<int>, nat>, S: nat, V: nat, expanded: nat)
    requires Expanding(approach, list, boards, trie, owner, S, V, expanded)
    ensures Search(approach, list, boards, trie, owner, S, V, expanded) && Holds(list, boards, S, V)
  {
    ExpandingBelowIs(approach, list, boards, trie, owner, S, V, expanded, |list| + 1);
  }

  lemma ExpandingClose(approach: ApproachType, list: seq<PositionInfo>, boards: seq<Board>, trie: Node,
                      owner: map<seq<int>, nat>, S: nat, V: nat, expanded: nat)
    requires Search(approach, list, boards, trie, owner, S, V, expanded) && Holds(list, boards, S, V)
    ensures Expanding(approach, list, boards, trie, owner, S, V, expanded)
  {
    ExpandingBelowIs(approach, list, boards, trie, owner, S, V, expanded, |list| + 1);
  }

  /** The index of the expansion state has an owner for every board after the first. */
  lemma ExpandingOwns(approach: ApproachType, list: seq<PositionInfo>, boards: seq<Board>, trie: Node,
                      owner: map<seq<int>, nat>, S: nat, V: nat, expanded: nat)
    requires Expanding(approach, list, boards, trie, owner, S, V, expanded) && approach != RandomPlay
    ensures |boards| >= 1 && Owns(boards, owner)
  {
    ExpandingOpen(approach, list, boards, trie, owner, S, V, expanded);
    SearchOwns(approach, list, boards, trie, owner, S, V, expanded);
  }

  /**
   * The expansion loop: every successor of the expanded entry, in hole
   * order, goes through `Record`. The boards queued are exactly the fresh
   * ones, and afterwards the tableau of every successor is indexed.
   */
  method RecordSuccessors(approach: ApproachType, list: seq<PositionInfo>, attainedPositions: Node, currentIndex: nat,
                          subsequentPositions: seq<Position.PretzelPosition>, ghost boards: seq<Board>,
                          ghost owner: map<seq<int>, nat>, ghost S: nat, ghost V: nat)
    returns (list': seq<PositionInfo>, attained': Node, ghost boards': seq<Board>, ghost owner': map<seq<int>, nat>)
    requires approach != RandomPlay && currentIndex < |list|
    requires Expanding(approach, list, boards, attainedPositions, owner, S, V, currentIndex + 1)
    requires ValidBoard(boards[currentIndex], S, V)
    requires Position.Models(subsequentPositions, Next(boards[currentIndex], S, V), S, V)
    requires Separate(subsequentPositions)
    ensures Expanding(approach, list', boards', attained', owner', S, V, currentIndex + 1)
    ensures Keeps(list, list')
    ensures boards' == boards + Fresh(Next(boards[currentIndex], S, V), owner.Keys, |subsequentPositions|)
  {
    ghost var rs := Next(boards[currentIndex], S, V);
    ExpandingOwns(approach, list, boards, attainedPositions, owner, S, V, currentIndex + 1);
    list', attained', boards', owner' := list, attainedPositions, boards, owner;
    for i := 0 to |subsequentPositions|
      invariant Expanding(approach, list', boards', attained', owner', S, V, currentIndex + 1)
      invariant Keeps(list, list')
      invariant boards' == boards + Fresh(rs, owner.Keys, i)
    {
      list', attained', boards', owner' :=
        RecordAt(approach, list', attained', currentIndex, subsequentPositions, i, list, boards, owner, boards', owner', S, V);
    }
  }

  /** One turn of the expansion loop: the `i`-th successor goes through `Record`. */
  method RecordAt(approach: ApproachType, list: seq<PositionInfo>, attainedPositions: Node, currentIndex: nat,
                  subsequentPositions: seq<Position.PretzelPosition>, i: nat, ghost list0: seq<PositionInfo>,
                  ghost boards0: seq<Board>, ghost owner0: map<seq<int>, nat>,
                  ghost boards: seq<Board>, ghost owner: map<seq<int>, nat>, ghost S: nat, ghost V: nat)
    returns (list': seq<PositionInfo>, attained': Node, ghost boards': seq<Board>, ghost owner': map<seq<int>, nat>)
    requires approach != RandomPlay && currentIndex < |boards0| && i < |subsequentPositions|
    requires |boards0| >= 1 && Owns(boards0, owner0)
    requires ValidBoard(boards0[currentIndex], S, V)
    requires Position.Models(subsequentPositions, Next(boards0[currentIndex], S, V), S, V)
    requires Separate(subsequentPositions)
    requires Expanding(approach, list, boards, attainedPositions, owner, S, V, currentIndex + 1) && Keeps(list0, list)
    requires boards == boards0 + Fresh(Next(boards0[currentIndex], S, V), owner0.Keys, i)
    ensures Expanding(approach, list', boards', attained', owner', S, V, currentIndex + 1) && Keeps(list0, list')
    ensures boards' == boards0 + Fresh(Next(boards0[currentIndex], S, V), owner0.Keys, i + 1)
  {
    ExpandingOpen(approach, list, boards, attainedPositions, owner, S, V, currentIndex + 1);
    ghost var rs := Next(boards0[currentIndex], S, V);
    var sub := subsequentPositions[i];
    assert sub.Contents() == rs[i] && sub.tableau[..] == rs[i].tableau;
    assert boards[currentIndex] == boards0[currentIndex];
    SearchOwns(approach, list, boards, attainedPositions, owner, S, V, currentIndex + 1);
    Known(boards0, owner0, boards, owner, rs, i, rs[i].tableau);
    list', attained', boards', owner' := Record(approach, list, attainedPositions, currentIndex, sub, boards, owner, S, V);
    FreshInvariant(boards0, boards, boards', rs, owner0.Keys, i);
    KeepsTransitive(list0, list, list');
    ExpandingClose(approach, list', boards', attained', owner', S, V, currentIndex + 1);
  }

  /**
   * The trace loop: first-parent hops from the solution back to entry 0,
   * counted in a `ushort` that wraps, less one for the starting position.
   */
  method CountMoves(list: seq<PositionInfo>, solutionIndex: nat) returns (solutionMoveCount: int)
    requires Rooted(list) && solutionIndex < |list|
    ensures solutionMoveCount == Depth(list, solutionIndex) % UShortRange
  {
    var count := 0;
    ghost var hops: nat := 0;
    var index: int := solutionIndex;
    while index != None
      invariant index == None || 0 <= index < |list|
      invariant count == hops % UShortRange
      invariant index != None ==> hops + Depth(list, index) == Depth(list, solutionIndex)
      invariant index == None ==> hops == Depth(list, solutionIndex) + 1
      decreases index + 1
    {
      ModSucc(hops, UShortRange);
      index := list[index].parentIndexes[0];
      count, hops := (count + 1) % UShortRange, hops + 1;
    }
    ModPred(hops, UShortRange);
    solutionMoveCount := (count + UShortRange - 1) % UShortRange;
  }

  /**
   * What the visits of the first `visited` entries established: the dead
   * ends and the last solved entry among them; outside the full tree, a
   * solution only as the last visit; outside random play, every successor
   * of a visited unsolved entry indexed; in random play, one chain of plays
   * through an empty trie, no longer than the fuel (`ProgressIs`). It sits
   * one recursion level down like `Search`.
   */
  ghost predicate Progress(approach: ApproachType, list: seq<PositionInfo>, boards: seq<Board>, trie: Node,
                           owner: map<seq<int>, nat>, S: nat, V: nat, visited: nat,
                           solutionIndex: int, deadendIndexes: seq<int>, fuel: nat)
    requires visited <= |boards| && AllValid(boards, S, V)
  {
    (approach == RandomPlay ==> visited <= fuel) &&
    var below := ProgressBelow(approach, list, boards, trie, owner, S, V, visited, solutionIndex, deadendIndexes, fuel, |boards| + 1);
    below
  }

  ghost predicate ProgressBelow(approach: ApproachType, list: seq<PositionInfo>, boards: seq<Board>, trie: Node,
                                owner: map<seq<int>, nat>, S: nat, V: nat, visited: nat,
                                solutionIndex: int, deadendIndexes: seq<int>, fuel: nat, depth: nat)
    requires visited <= |boards| && AllValid(boards, S, V)
    decreases depth
  {
    if depth == 0 then ProgressParts(approach, list, boards, trie, owner, S, V, visited, solutionIndex, deadendIndexes, fuel)
    else ProgressBelow(approach, list, boards, trie, owner, S, V, visited, solutionIndex, deadendIndexes, fuel, depth - 1)
  }

  lemma {:induction false} ProgressBelowIs(approach: ApproachType, list: seq<PositionInfo>, boards: seq<Board>, trie: Node,
                                           owner: map<seq<int>, nat>, S: nat, V: nat, visited: nat,
                                           solutionIndex: int, deadendIndexes: seq<int>, fuel: nat, depth: nat)
    requires visited <= |boards| && AllValid(boards, S, V)
    ensures ProgressBelow(approach, list, boards, trie, owner, S, V, visited, solutionIndex, deadendIndexes, fuel, depth) <==>
      ProgressParts(approach, list, boards, trie, owner, S, V, visited, solutionIndex, deadendIndexes, fuel)
    decreases depth
  {
    if depth > 0 {
      ProgressBelowIs(approach, list, boards, trie, owner, S, V, visited, solutionIndex, deadendIndexes, fuel, depth - 1);
    }
  }

  lemma ProgressIs(approach: ApproachType, list: seq<PositionInfo>, boards: seq<Board>, trie: Node,
                   owner: map<seq<int>, nat>, S: nat, V: nat, visited: nat,
                   solutionIndex: int, deadendIndexes: seq<int>, fuel: nat)
    requires visited <= |boards| && AllValid(boards, S, V)
    ensures Progress(approach, list, boards, trie, owner, S, V, visited, solutionIndex, deadendIndexes, fuel) <==>
      deadendIndexes == DeadEnds(boards, S, V, visited) &&
      solutionIndex == LastSolved(boards, visited) &&
      (approach != FullTree && solutionIndex != None ==>
        visited >= 1 && solutionIndex == visited - 1 && LastSolved(boards, visited - 1) == None) &&
      (approach != RandomPlay ==> Closed(list, boards, S, V, owner, visited)) &&
      (approach == RandomPlay ==> trie == map[] && visited <= fuel && |list| <= visited + 1 && Chained(list))
  {
    ProgressBelowIs(approach, list, boards, trie, owner, S, V, visited, solutionIndex, deadendIndexes, fuel, |boards| + 1);
  }

  ghost predicate ProgressParts(approach: ApproachType, list: seq<PositionInfo>, boards: seq<Board>, trie: Node,
                                owner: map<seq<int>, nat>, S: nat, V: nat, visited: nat,
                                solutionIndex: int, deadendIndexes: seq<int>, fuel: nat)
    requires visited <= |boards| && AllValid(boards, S, V)
  {
    deadendIndexes == DeadEnds(boards, S, V, visited) &&
    solutionIndex == LastSolved(boards, visited) &&
    (approach != FullTree && solutionIndex != None ==>
      visited >= 1 && solutionIndex == visited - 1 && LastSolved(boards, visited - 1) == None) &&
    (approach != RandomPlay ==> Closed(list, boards, S, V, owner, visited)) &&
    (approach == RandomPlay ==> trie == map[] && visited <= fuel && |list| <= visited + 1 && Chained(list))
  }

  /** Every entry after the first was played from the one before it. */
  predicate Chained(list: seq<PositionInfo>)
  {
    forall e :: 1 <= e < |list| ==> list[e].parentIndexes == [e - 1]
  }

  /**
   * Entry `e` of a random play is the successor of entry `e - 1` that the
   * generator picked with its draw number `first + e - 1`.
   */
  ghost predicate Played(boards: seq<Board>, S: nat, V: nat, stream: nat -> nat, first: nat, e: nat)
    requires 1 <= e < |boards|
  {
    ValidBoard(boards[e - 1], S, V) && |Next(boards[e - 1], S, V)| > 0 &&
    boards[e] == Next(boards[e - 1], S, V)[Randomness.Pick(stream, first + e - 1, 0, |Next(boards[e - 1], S, V)|)]
  }

  /**
   * A random play that began when the generator had made `first` draws: one
   * draw per entry after the first, each entry the pick of its draw
   * (`RandomDrawsIs`). The picks sit one recursion level down, like the
   * pairs of `Distinct`.
   */
  ghost predicate RandomDraws(boards: seq<Board>, S: nat, V: nat, stream: nat -> nat, first: nat, drawn: nat)
  {
    var below := RandomDrawsBelow(boards, S, V, stream, first, drawn, 1);
    below
  }

  ghost predicate RandomDrawsBelow(boards: seq<Board>, S: nat, V: nat, stream: nat -> nat, first: nat, drawn: nat, depth: nat)
    decreases depth
  {
    if depth == 0 then
      |boards| >= 1 && drawn == first + |boards| - 1 &&
      forall e :: 1 <= e < |boards| ==> Played(boards, S, V, stream, first, e)
    else RandomDrawsBelow(boards, S, V, stream, first, drawn, depth - 1)
  }

  lemma RandomDrawsIs(boards: seq<Board>, S: nat, V: nat, stream: nat -> nat, first: nat, drawn: nat)
    ensures RandomDraws(boards, S, V, stream, first, drawn) <==>
      |boards| >= 1 && drawn == first + |boards| - 1 &&
      forall e :: 1 <= e < |boards| ==> Played(boards, S, V, stream, first, e)
  {
    assert RandomDrawsBelow(boards, S, V, stream, first, drawn, 1) == RandomDrawsBelow(boards, S, V, stream, first, drawn, 0);
  }

  /** The loop may visit entry `currentIndex`: it exists, no solution stops the search, and random play has fuel left. */
  predicate Visitable(approach: ApproachType, list: seq<PositionInfo>, currentIndex: nat, solutionIndex: int, fuel: nat)
  {
    currentIndex < |list| && (approach != FullTree ==> solutionIndex == None) &&
    (approach == RandomPlay ==> currentIndex < fuel)
  }

  /**
   * Entries after the first hold pairwise different tableaux: the index
   * deduplicates (`DistinctIs`). The pairs sit one recursion level down, so
   * that a context holding many boards does not compare all of them.
   */
  ghost predicate Distinct(boards: seq<Board>)
  {
    var below := DistinctBelow(boards, |boards| + 1);
    below
  }

  ghost predicate DistinctBelow(boards: seq<Board>, depth: nat)
    decreases depth
  {
    if depth == 0 then forall e, f :: 1 <= e < f < |boards| ==> boards[e].tableau != boards[f].tableau
    else DistinctBelow(boards, depth - 1)
  }

  lemma {:induction false} DistinctBelowIs(boards: seq<Board>, depth: nat)
    ensures DistinctBelow(boards, depth) <==> forall e, f :: 1 <= e < f < |boards| ==> boards[e].tableau != boards[f].tableau
    decreases depth
  {
    if depth > 0 {
      DistinctBelowIs(boards, depth - 1);
    }
  }

  lemma DistinctIs(boards: seq<Board>)
    ensures Distinct(boards) <==> forall e, f :: 1 <= e < f < |boards| ==> boards[e].tableau != boards[f].tableau
  {
    DistinctBelowIs(boards, |boards| + 1);
  }

  /** Every successor of each of the first `n` unsolved entries has the tableau of an entry after the first. */
  ghost predicate Covered(boards: seq<Board>, S: nat, V: nat, n: nat)
    requires n <= |boards| && AllValid(boards, S, V)
  {
    forall e, i :: 0 <= e < n && !Solved(boards[e].tableau) && 0 <= i < |Next(boards[e], S, V)| ==>
      exists f :: 1 <= f < |boards| && boards[f].tableau == Next(boards[e], S, V)[i].tableau
  }

  lemma OwnsDistinct(boards: seq<Board>, owner: map<seq<int>, nat>)
    requires Owns(boards, owner)
    ensures Distinct(boards)
  {
    DistinctIs(boards);
  }

  lemma ClosedCovered(list: seq<PositionInfo>, boards: seq<Board>, owner: map<seq<int>, nat>, S: nat, V: nat, n: nat)
    requires n <= |boards| && AllValid(boards, S, V) && Owns(boards, owner) && Closed(list, boards, S, V, owner, n)
    ensures Covered(boards, S, V, n)
  {
    ClosedIs(list, boards, S, V, owner, n);
    forall e, i | 0 <= e < n && !Solved(boards[e].tableau) && 0 <= i < |Next(boards[e], S, V)|
      ensures exists f :: 1 <= f < |boards| && boards[f].tableau == Next(boards[e], S, V)[i].tableau
    {
      assert SuccessorIndexed(list, boards, S, V, owner, e, i);
      var f := owner[Next(boards[e], S, V)[i].tableau];
      assert 1 <= f < |boards| && boards[f].tableau == Next(boards[e], S, V)[i].tableau;
    }
  }

  /** Expanding entry `n` indexes every one of its successors; earlier entries stay closed. */
  lemma ClosedStep(list: seq<PositionInfo>, boards: seq<Board>, owner: map<seq<int>, nat>,
                   list': seq<PositionInfo>, boards': seq<Board>, owner': map<seq<int>, nat>, S: nat, V: nat, n: nat)
    requires n < |boards| && AllValid(boards, S, V) && AllValid(boards', S, V)
    requires Owns(boards, owner) && Owns(boards', owner') && Closed(list, boards, S, V, owner, n)
    requires Keeps(list, list') && Spawned(list', boards', n)
    requires boards' == boards + Fresh(Next(boards[n], S, V), owner.Keys, |Next(boards[n], S, V)|)
    ensures Closed(list', boards', S, V, owner', n + 1)
  {
    ClosedIs(list', boards', S, V, owner', n + 1);
    forall e, i | 0 <= e < n + 1 && !Solved(boards'[e].tableau) && 0 <= i < |Next(boards'[e], S, V)|
      ensures SuccessorIndexed(list', boards', S, V, owner', e, i)
    {
      ClosedStepAt(list, boards, owner, list', boards', owner', S, V, n, e, i);
    }
  }

  /** Every entry after the first of `list` has a first parent among the first `n + 1` entries, and a board. */
  predicate Spawned(list: seq<PositionInfo>, boards: seq<Board>, n: nat)
  {
    Rooted(list) && |list| == |boards| && forall e :: 1 <= e < |list| ==> list[e].parentIndexes[0] <= n
  }

  /** `ClosedStep` for successor `i` of entry `e`. */
  lemma ClosedStepAt(list: seq<PositionInfo>, boards: seq<Board>, owner: map<seq<int>, nat>,
                     list': seq<PositionInfo>, boards': seq<Board>, owner': map<seq<int>, nat>, S: nat, V: nat, n: nat,
                     e: nat, i: nat)
    requires n < |boards| && AllValid(boards, S, V) && AllValid(boards', S, V)
    requires Owns(boards, owner) && Owns(boards', owner') && Closed(list, boards, S, V, owner, n)
    requires Keeps(list, list') && Spawned(list', boards', n)
    requires boards' == boards + Fresh(Next(boards[n], S, V), owner.Keys, |Next(boards[n], S, V)|)
    requires e <= n && !Solved(boards'[e].tableau) && i < |Next(boards'[e], S, V)|
    ensures SuccessorIndexed(list', boards', S, V, owner', e, i)
  {
    assert boards'[e] == boards[e];
    var rs := Next(boards[n], S, V);
    var t := Next(boards[e], S, V)[i].tableau;
    Known(boards, owner, boards', owner', rs, |rs|, t);
    if e == n {
      assert rs[i].tableau == t;
      assert 1 <= owner'[t] < |list'|;
    } else {
      ClosedIs(list, boards, S, V, owner, n);
      assert SuccessorIndexed(list, boards, S, V, owner, e, i);
      var f := owner[t];
      assert boards'[f] == boards[f];
      assert owner'[t] == f;
      assert list[f].parentIndexes <= list'[f].parentIndexes;
    }
    assert QueuedBy(list', owner'[t], e);
  }

  /** Visiting an entry that is solved or has no successors indexes nothing new. */
  lemma ClosedWiden(list: seq<PositionInfo>, boards: seq<Board>, S: nat, V: nat, owner: map<seq<int>, nat>, n: nat)
    requires n < |boards| && AllValid(boards, S, V) && Closed(list, boards, S, V, owner, n)
    requires Solved(boards[n].tableau) || |Next(boards[n], S, V)| == 0
    ensures Closed(list, boards, S, V, owner, n + 1)
  {
    ClosedIs(list, boards, S, V, owner, n);
    ClosedIs(list, boards, S, V, owner, n + 1);
  }

  /**
   * The state the search loop keeps from one visit to the next: `Search`,
   * `Holds` and `Progress` once `visited` entries are visited
   * (`SearchingIs`). It sits one recursion level down so that the loop does
   * not unfold it.
   */
  ghost predicate Searching(approach: ApproachType, list: seq<PositionInfo>, boards: seq<Board>, trie: Node,
                            owner: map<seq<int>, nat>, S: nat, V: nat, visited: nat,
                            solutionIndex: int, deadendIndexes: seq<int>, fuel: nat)
  {
    visited <= |list| == |boards| && (approach == RandomPlay ==> visited <= fuel) &&
    var below := SearchingBelow(approach, list, boards, trie, owner, S, V, visited, solutionIndex, deadendIndexes, fuel, |list| + 1);
    below
  }

  ghost predicate SearchingBelow(approach: ApproachType, list: seq<PositionInfo>, boards: seq<Board>, trie: Node,
                                 owner: map<seq<int>, nat>, S: nat, V: nat, visited: nat,
                                 solutionIndex: int, deadendIndexes: seq<int>, fuel: nat, depth: nat)
    decreases depth
  {
    if depth == 0 then
      Search(approach, list, boards, trie, owner, S, V, visited) &&
      Progress(approach, list, boards, trie, owner, S, V, visited, solutionIndex, deadendIndexes, fuel)
    else
      SearchingBelow(approach, list, boards, trie, owner, S, V, visited, solutionIndex, deadendIndexes, fuel, depth - 1)
  }

  lemma {:induction false} SearchingBelowIs(approach: ApproachType, list: seq<PositionInfo>, boards: seq<Board>, trie: Node,
                                            owner: map<seq<int>, nat>, S: nat, V: nat, visited: nat,
                                            solutionIndex: int, deadendIndexes: seq<int>, fuel: nat, depth: nat)
    ensures SearchingBelow(approach, list, boards, trie, owner, S, V, visited, solutionIndex, deadendIndexes, fuel, depth) <==>
      Search(approach, list, boards, trie, owner, S, V, visited) &&
      Progress(approach, list, boards, trie, owner, S, V, visited, solutionIndex, deadendIndexes, fuel)
    decreases depth
  {
    if depth > 0 {
      SearchingBelowIs(approach, list, boards, trie, owner, S, V, visited, solutionIndex, deadendIndexes, fuel, depth - 1);
    }
  }

  /** The loop state holds the tree, the index, the positions' boards and the progress of the visits. */
  lemma SearchingOpen(approach: ApproachType, list: seq<PositionInfo>, boards: seq<Board>, trie: Node,
                      owner: map<seq<int>, nat>, S: nat, V: nat, visited: nat,
                      solutionIndex: int, deadendIndexes: seq<int>, fuel: nat)
    requires Searching(approach, list, boards, trie, owner, S, V, visited, solutionIndex, deadendIndexes, fuel)
    ensures Search(approach, list, boards, trie, owner, S, V, visited) &&
      Progress(approach, list, boards, trie, owner, S, V, visited, solutionIndex, deadendIndexes, fuel)
  {
    SearchingBelowIs(approach, list, boards, trie, owner, S, V, visited, solutionIndex, deadendIndexes, fuel, |list| + 1);
  }

  /** The tree, the index, the positions' boards and the progress of the visits make up the loop state. */
  lemma SearchingClose(approach: ApproachType, list: seq<PositionInfo>, boards: seq<Board>, trie: Node,
                      owner: map<seq<int>, nat>, S: nat, V: nat, visited: nat,
                      solutionIndex: int, deadendIndexes: seq<int>, fuel: nat)
    requires Search(approach, list, boards, trie, owner, S, V, visited) &&
      Progress(approach, list, boards, trie, owner, S, V, visited, solutionIndex, deadendIndexes, fuel)
    ensures Searching(approach, list, boards, trie, owner, S, V, visited, solutionIndex, deadendIndexes, fuel)
  {
    SearchingBelowIs(approach, list, boards, trie, owner, S, V, visited, solutionIndex, deadendIndexes, fuel, |list| + 1);
  }

  /** Outside random play the loop visits no more entries than there are tableaux, plus the first. */
  lemma SearchingBound(approach: ApproachType, list: seq<PositionInfo>, boards: seq<Board>, trie: Node,
                       owner: map<seq<int>, nat>, S: nat, V: nat, visited: nat,
                       solutionIndex: int, deadendIndexes: seq<int>, fuel: nat)
    requires Searching(approach, list, boards, trie, owner, S, V, visited, solutionIndex, deadendIndexes, fuel)
    requires approach != RandomPlay
    ensures |list| <= |Tableaux(S * V, S * V)| + 1
  {
    SearchingOpen(approach, list, boards, trie, owner, S, V, visited, solutionIndex, deadendIndexes, fuel);
    SearchIs(approach, list, boards, trie, owner, S, V, visited);
    IndexBound(list, boards, trie, owner, S, V, visited);
  }

  /** The entry about to be visited holds a valid position whose contents are that entry's board. */
  lemma SearchingEntry(approach: ApproachType, list: seq<PositionInfo>, boards: seq<Board>, trie: Node,
                       owner: map<seq<int>, nat>, S: nat, V: nat, visited: nat,
                       solutionIndex: int, deadendIndexes: seq<int>, fuel: nat)
    requires Searching(approach, list, boards, trie, owner, S, V, visited, solutionIndex, deadendIndexes, fuel) && Holds(list, boards, S, V)
    requires visited < |list|
    ensures list[visited].position.Valid() && list[visited].position.Contents() == boards[visited]
    ensures list[visited].position.suitCount == S && list[visited].position.valueCount == V
    ensures ValidBoard(boards[visited], S, V)
  {
    SearchingOpen(approach, list, boards, trie, owner, S, V, visited, solutionIndex, deadendIndexes, fuel);
  }

  /** The state before the first visit. */
  lemma Start(approach: ApproachType, position: Position.PretzelPosition, fuel: nat)
    requires position.Valid()
    ensures Search(approach, [PositionInfo(position, [None])], [position.Contents()], map[], map[],
                   position.suitCount, position.valueCount, 0)
    ensures Holds([PositionInfo(position, [None])], [position.Contents()], position.suitCount, position.valueCount)
    ensures Progress(approach, [PositionInfo(position, [None])], [position.Contents()], map[], map[],
                     position.suitCount, position.valueCount, 0, None, [], fuel)
  {
    MulAtLeast(position.valueCount, position.suitCount);
    ClosedIs([PositionInfo(position, [None])], [position.Contents()], position.suitCount, position.valueCount, map[], 0);
    ProgressIs(approach, [PositionInfo(position, [None])], [position.Contents()], map[], map[],
               position.suitCount, position.valueCount, 0, None, [], fuel);
  }

  /** Visiting a solved entry makes it the solution. */
  lemma VisitSolved(approach: ApproachType, list: seq<PositionInfo>, boards: seq<Board>, trie: Node,
                    owner: map<seq<int>, nat>, S: nat, V: nat, currentIndex: nat,
                    solutionIndex: int, deadendIndexes: seq<int>, fuel: nat)
    requires Visitable(approach, list, currentIndex, solutionIndex, fuel)
    requires Searching(approach, list, boards, trie, owner, S, V, currentIndex, solutionIndex, deadendIndexes, fuel)
    requires Solved(boards[currentIndex].tableau)
    ensures Searching(approach, list, boards, trie, owner, S, V, currentIndex + 1, currentIndex, deadendIndexes, fuel)
  {
    SearchingOpen(approach, list, boards, trie, owner, S, V, currentIndex, solutionIndex, deadendIndexes, fuel);
    SearchWiden(approach, list, boards, trie, owner, S, V, currentIndex);
    ProgressSolved(approach, list, boards, trie, owner, S, V, currentIndex, solutionIndex, deadendIndexes, fuel);
    SearchingClose(approach, list, boards, trie, owner, S, V, currentIndex + 1, currentIndex, deadendIndexes, fuel);
  }

  /** Visiting an unsolved entry without successors records a dead end. */
  lemma VisitDeadEnd(approach: ApproachType, list: seq<PositionInfo>, boards: seq<Board>, trie: Node,
                     owner: map<seq<int>, nat>, S: nat, V: nat, currentIndex: nat,
                     solutionIndex: int, deadendIndexes: seq<int>, fuel: nat)
    requires Visitable(approach, list, currentIndex, solutionIndex, fuel)
    requires Searching(approach, list, boards, trie, owner, S, V, currentIndex, solutionIndex, deadendIndexes, fuel)
    requires ValidBoard(boards[currentIndex], S, V)
    requires !Solved(boards[currentIndex].tableau) && |Next(boards[currentIndex], S, V)| == 0
    ensures Searching(approach, list, boards, trie, owner, S, V, currentIndex + 1, solutionIndex,
                      deadendIndexes + [currentIndex], fuel)
  {
    SearchingOpen(approach, list, boards, trie, owner, S, V, currentIndex, solutionIndex, deadendIndexes, fuel);
    SearchWiden(approach, list, boards, trie, owner, S, V, currentIndex);
    ProgressDeadEnd(approach, list, boards, trie, owner, S, V, currentIndex, solutionIndex, deadendIndexes, fuel);
    SearchingClose(approach, list, boards, trie, owner, S, V, currentIndex + 1, solutionIndex, deadendIndexes + [currentIndex], fuel);
  }

  /** Visiting an entry makes it one of the expanded ones. */
  lemma SearchWiden(approach: ApproachType, list: seq<PositionInfo>, boards: seq<Board>, trie: Node,
                    owner: map<seq<int>, nat>, S: nat, V: nat, expanded: nat)
    requires expanded < |list| && Search(approach, list, boards, trie, owner, S, V, expanded)
    ensures Search(approach, list, boards, trie, owner, S, V, expanded + 1)
  {
    SearchIs(approach, list, boards, trie, owner, S, V, expanded);
    SearchIs(approach, list, boards, trie, owner, S, V, expanded + 1);
    TreeWiden(list, boards, S, V, expanded, expanded + 1);
  }

  /** The progress of the visits after a solved entry: it is the last solved one, and no dead end. */
  lemma ProgressSolved(approach: ApproachType, list: seq<PositionInfo>, boards: seq<Board>, trie: Node,
                       owner: map<seq<int>, nat>, S: nat, V: nat, currentIndex: nat,
                       solutionIndex: int, deadendIndexes: seq<int>, fuel: nat)
    requires Visitable(approach, list, currentIndex, solutionIndex, fuel)
    requires |list| == |boards| && AllValid(boards, S, V)
    requires Progress(approach, list, boards, trie, owner, S, V, currentIndex, solutionIndex, deadendIndexes, fuel)
    requires Solved(boards[currentIndex].tableau)
    ensures Progress(approach, list, boards, trie, owner, S, V, currentIndex + 1, currentIndex, deadendIndexes, fuel)
  {
    ProgressIs(approach, list, boards, trie, owner, S, V, currentIndex, solutionIndex, deadendIndexes, fuel);
    ProgressIs(approach, list, boards, trie, owner, S, V, currentIndex + 1, currentIndex, deadendIndexes, fuel);
    DeadEndsStep(boards, boards, S, V, currentIndex);
    if approach != RandomPlay {
      ClosedWiden(list, boards, S, V, owner, currentIndex);
    }
  }

  /** The progress of the visits after a dead end: it is recorded, and nothing is indexed. */
  lemma ProgressDeadEnd(approach: ApproachType, list: seq<PositionInfo>, boards: seq<Board>, trie: Node,
                        owner: map<seq<int>, nat>, S: nat, V: nat, currentIndex: nat,
                        solutionIndex: int, deadendIndexes: seq<int>, fuel: nat)
    requires Visitable(approach, list, currentIndex, solutionIndex, fuel)
    requires |list| == |boards| && AllValid(boards, S, V)
    requires Progress(approach, list, boards, trie, owner, S, V, currentIndex, solutionIndex, deadendIndexes, fuel)
    requires !Solved(boards[currentIndex].tableau) && |Next(boards[currentIndex], S, V)| == 0
    ensures Progress(approach, list, boards, trie, owner, S, V, currentIndex + 1, solutionIndex,
                     deadendIndexes + [currentIndex], fuel)
  {
    ProgressIs(approach, list, boards, trie, owner, S, V, currentIndex, solutionIndex, deadendIndexes, fuel);
    ProgressIs(approach, list, boards, trie, owner, S, V, currentIndex + 1, solutionIndex, deadendIndexes + [currentIndex], fuel);
    DeadEndsStep(boards, boards, S, V, currentIndex);
    if approach != RandomPlay {
      ClosedWiden(list, boards, S, V, owner, currentIndex);
    }
  }

  /** Random play: the chosen successor is appended with the visited entry as its parent. */
  method Play(approach: ApproachType, list: seq<PositionInfo>, currentIndex: nat,
              subsequentPositions: seq<Position.PretzelPosition>, randomPlayIndex: int,
              ghost boards: seq<Board>, ghost trie: Node, ghost owner: map<seq<int>, nat>, ghost S: nat, ghost V: nat,
              ghost solutionIndex: int, ghost deadendIndexes: seq<int>, ghost fuel: nat)
    returns (list': seq<PositionInfo>, ghost boards': seq<Board>)
    requires approach == RandomPlay && Visitable(approach, list, currentIndex, solutionIndex, fuel)
    requires Searching(approach, list, boards, trie, owner, S, V, currentIndex, solutionIndex, deadendIndexes, fuel) && Holds(list, boards, S, V)
    requires ValidBoard(boards[currentIndex], S, V) && !Solved(boards[currentIndex].tableau)
    requires Position.Models(subsequentPositions, Next(boards[currentIndex], S, V), S, V)
    requires Separate(subsequentPositions) && 0 <= randomPlayIndex < |subsequentPositions|
    ensures list' == list + [PositionInfo(subsequentPositions[randomPlayIndex], [currentIndex])]
    ensures boards' == boards + [subsequentPositions[randomPlayIndex].Contents()] && |boards| == currentIndex + 1
    ensures Searching(approach, list', boards', trie, owner, S, V, currentIndex + 1, solutionIndex, deadendIndexes, fuel) && Holds(list', boards', S, V)
    ensures Keeps(list, list')
  {
    SearchingOpen(approach, list, boards, trie, owner, S, V, currentIndex, solutionIndex, deadendIndexes, fuel);
    var sub := subsequentPositions[randomPlayIndex];
    var info := PositionInfo(sub, [currentIndex]);
    HoldsAppend(list, boards, S, V, info, sub.Contents());
    PlayStep(list, boards, trie, owner, S, V, currentIndex, solutionIndex, deadendIndexes, fuel, info, sub.Contents());
    list', boards' := list + [info], boards + [sub.Contents()];
    SearchingClose(approach, list', boards', trie, owner, S, V, currentIndex + 1, solutionIndex, deadendIndexes, fuel);
  }

  /** The play of random play, on the values: one more link of the chain. */
  lemma PlayStep(list: seq<PositionInfo>, boards: seq<Board>, trie: Node, owner: map<seq<int>, nat>, S: nat, V: nat,
                 currentIndex: nat, solutionIndex: int, deadendIndexes: seq<int>, fuel: nat, info: PositionInfo, m: Board)
    requires Visitable(RandomPlay, list, currentIndex, solutionIndex, fuel)
    requires Search(RandomPlay, list, boards, trie, owner, S, V, currentIndex)
    requires Progress(RandomPlay, list, boards, trie, owner, S, V, currentIndex, solutionIndex, deadendIndexes, fuel)
    requires !Solved(boards[currentIndex].tableau) && m in Next(boards[currentIndex], S, V) && info.parentIndexes == [currentIndex]
    ensures Search(RandomPlay, list + [info], boards + [m], trie, owner, S, V, currentIndex + 1)
    ensures Keeps(list, list + [info]) && |boards| == |list| == currentIndex + 1
    ensures Progress(RandomPlay, list + [info], boards + [m], trie, owner, S, V, currentIndex + 1, solutionIndex, deadendIndexes, fuel)
  {
    SearchIs(RandomPlay, list, boards, trie, owner, S, V, currentIndex);
    ProgressIs(RandomPlay, list, boards, trie, owner, S, V, currentIndex, solutionIndex, deadendIndexes, fuel);
    TreeWiden(list, boards, S, V, currentIndex, currentIndex + 1);
    TreeAppend(list, boards, S, V, currentIndex + 1, currentIndex, info.position, m);
    AppendKeeps(list, info);
    DeadEndsStep(boards, boards + [m], S, V, currentIndex);
    LastSolvedPrefix(boards, boards + [m], currentIndex);
    SearchIs(RandomPlay, list + [info], boards + [m], trie, owner, S, V, currentIndex + 1);
    ProgressIs(RandomPlay, list + [info], boards + [m], trie, owner, S, V, currentIndex + 1, solutionIndex, deadendIndexes, fuel);
  }

  /** Appending the pick of the next draw to a random play keeps it a random play of one more draw. */
  lemma PlayedStep(boards: seq<Board>, S: nat, V: nat, stream: nat -> nat, first: nat, m: Board)
    requires |boards| >= 1 && RandomDraws(boards, S, V, stream, first, first + |boards| - 1)
    requires ValidBoard(boards[|boards| - 1], S, V) && |Next(boards[|boards| - 1], S, V)| > 0
    requires m == Next(boards[|boards| - 1], S, V)[Randomness.Pick(stream, first + |boards| - 1, 0, |Next(boards[|boards| - 1], S, V)|)]
    ensures RandomDraws(boards + [m], S, V, stream, first, first + |boards|)
  {
    var boards' := boards + [m];
    RandomDrawsIs(boards, S, V, stream, first, first + |boards| - 1);
    RandomDrawsIs(boards', S, V, stream, first, first + |boards|);
    forall e | 1 <= e < |boards'| ensures Played(boards', S, V, stream, first, e) {
      if e < |boards| {
        assert Played(boards, S, V, stream, first, e);
        assert boards'[e - 1] == boards[e - 1] && boards'[e] == boards[e];
      }
    }
  }

  /** The generator decides a random play: two plays from one board on the same stream and draw agree entry by entry. */
  lemma {:induction false} RandomPlayDetermined(b1: seq<Board>, b2: seq<Board>, S: nat, V: nat, stream: nat -> nat, first: nat,
                                                d1: nat, d2: nat, k: nat)
    requires RandomDraws(b1, S, V, stream, first, d1) && RandomDraws(b2, S, V, stream, first, d2)
    requires b1[0] == b2[0] && k < |b1| && k < |b2|
    ensures b1[k] == b2[k]
    decreases k
  {
    if k > 0 {
      RandomPlayDetermined(b1, b2, S, V, stream, first, d1, d2, k - 1);
      RandomDrawsIs(b1, S, V, stream, first, d1);
      RandomDrawsIs(b2, S, V, stream, first, d2);
      assert Played(b1, S, V, stream, first, k) && Played(b2, S, V, stream, first, k);
    }
  }

  /** Breadth-first expansion: every successor goes through the index, and all of them end up indexed. */
  method Expand(approach: ApproachType, list: seq<PositionInfo>, attainedPositions: Node, currentIndex: nat,
                subsequentPositions: seq<Position.PretzelPosition>, ghost boards: seq<Board>,
                ghost owner: map<seq<int>, nat>, ghost S: nat, ghost V: nat,
                ghost solutionIndex: int, ghost deadendIndexes: seq<int>, ghost fuel: nat)
    returns (list': seq<PositionInfo>, attained': Node, ghost boards': seq<Board>, ghost owner': map<seq<int>, nat>)
    requires approach != RandomPlay && Visitable(approach, list, currentIndex, solutionIndex, fuel)
    requires Searching(approach, list, boards, attainedPositions, owner, S, V, currentIndex, solutionIndex, deadendIndexes, fuel) && Holds(list, boards, S, V)
    requires ValidBoard(boards[currentIndex], S, V) && !Solved(boards[currentIndex].tableau)
    requires Position.Models(subsequentPositions, Next(boards[currentIndex], S, V), S, V)
    requires Separate(subsequentPositions) && |subsequentPositions| > 0
    ensures Searching(approach, list', boards', attained', owner', S, V, currentIndex + 1, solutionIndex, deadendIndexes, fuel) && Holds(list', boards', S, V)
    ensures Keeps(list, list') && boards <= boards'
  {
    ExpandEnter(approach, list, boards, attainedPositions, owner, S, V, currentIndex, solutionIndex, deadendIndexes, fuel);
    list', attained', boards', owner' :=
      RecordSuccessors(approach, list, attainedPositions, currentIndex, subsequentPositions, boards, owner, S, V);
    ExpandLeave(approach, list, boards, attainedPositions, owner, list', boards', attained', owner', S, V,
                currentIndex, solutionIndex, deadendIndexes, fuel);
  }

  /** Before the expansion loop: the entry to expand counts as expanded. */
  lemma ExpandEnter(approach: ApproachType, list: seq<PositionInfo>, boards: seq<Board>, trie: Node,
                    owner: map<seq<int>, nat>, S: nat, V: nat, currentIndex: nat,
                    solutionIndex: int, deadendIndexes: seq<int>, fuel: nat)
    requires currentIndex < |list|
    requires Searching(approach, list, boards, trie, owner, S, V, currentIndex, solutionIndex, deadendIndexes, fuel) && Holds(list, boards, S, V)
    ensures Expanding(approach, list, boards, trie, owner, S, V, currentIndex + 1)
  {
    SearchingOpen(approach, list, boards, trie, owner, S, V, currentIndex, solutionIndex, deadendIndexes, fuel);
    SearchWiden(approach, list, boards, trie, owner, S, V, currentIndex);
    ExpandingClose(approach, list, boards, trie, owner, S, V, currentIndex + 1);
  }

  /** After the expansion loop: the expanded entry is visited, and every one of its successors is indexed. */
  lemma ExpandLeave(approach: ApproachType, list: seq<PositionInfo>, boards: seq<Board>, trie: Node, owner: map<seq<int>, nat>,
                    list': seq<PositionInfo>, boards': seq<Board>, trie': Node, owner': map<seq<int>, nat>,
                    S: nat, V: nat, currentIndex: nat, solutionIndex: int, deadendIndexes: seq<int>, fuel: nat)
    requires approach != RandomPlay && Visitable(approach, list, currentIndex, solutionIndex, fuel)
    requires Searching(approach, list, boards, trie, owner, S, V, currentIndex, solutionIndex, deadendIndexes, fuel)
    requires ValidBoard(boards[currentIndex], S, V) && !Solved(boards[currentIndex].tableau) && |Next(boards[currentIndex], S, V)| > 0
    requires Expanding(approach, list', boards', trie', owner', S, V, currentIndex + 1)
    requires boards' == boards + Fresh(Next(boards[currentIndex], S, V), owner.Keys, |Next(boards[currentIndex], S, V)|)
    requires Keeps(list, list')
    ensures Searching(approach, list', boards', trie', owner', S, V, currentIndex + 1, solutionIndex, deadendIndexes, fuel)
    ensures Holds(list', boards', S, V) && boards <= boards'
  {
    SearchingOpen(approach, list, boards, trie, owner, S, V, currentIndex, solutionIndex, deadendIndexes, fuel);
    ExpandingOpen(approach, list', boards', trie', owner', S, V, currentIndex + 1);
    ProgressExpand(approach, list, boards, trie, owner, list', boards', trie', owner', S, V,
                   currentIndex, solutionIndex, deadendIndexes, fuel);
    SearchingClose(approach, list', boards', trie', owner', S, V, currentIndex + 1, solutionIndex, deadendIndexes, fuel);
  }

  /** The progress of the visits after an expansion: no dead end, no solution, and every successor indexed. */
  lemma ProgressExpand(approach: ApproachType, list: seq<PositionInfo>, boards: seq<Board>, trie: Node, owner: map<seq<int>, nat>,
                       list': seq<PositionInfo>, boards': seq<Board>, trie': Node, owner': map<seq<int>, nat>,
                       S: nat, V: nat, currentIndex: nat, solutionIndex: int, deadendIndexes: seq<int>, fuel: nat)
    requires approach != RandomPlay && currentIndex < |boards|
    requires Search(approach, list, boards, trie, owner, S, V, currentIndex)
    requires Search(approach, list', boards', trie', owner', S, V, currentIndex + 1)
    requires Progress(approach, list, boards, trie, owner, S, V, currentIndex, solutionIndex, deadendIndexes, fuel)
    requires (approach != FullTree ==> solutionIndex == None)
    requires !Solved(boards[currentIndex].tableau) && |Next(boards[currentIndex], S, V)| > 0
    requires boards' == boards + Fresh(Next(boards[currentIndex], S, V), owner.Keys, |Next(boards[currentIndex], S, V)|)
    requires Keeps(list, list')
    ensures Progress(approach, list', boards', trie', owner', S, V, currentIndex + 1, solutionIndex, deadendIndexes, fuel)
  {
    ProgressIs(approach, list, boards, trie, owner, S, V, currentIndex, solutionIndex, deadendIndexes, fuel);
    ProgressIs(approach, list', boards', trie', owner', S, V, currentIndex + 1, solutionIndex, deadendIndexes, fuel);
    ExpandClosed(approach, list, boards, trie, owner, list', boards', trie', owner', S, V, currentIndex);
    DeadEndsStep(boards, boards', S, V, currentIndex);
    LastSolvedPrefix(boards, boards', currentIndex);
  }

  /** The index part of `ProgressExpand`: the expanded entry's successors are indexed, and its new entries queued by it. */
  lemma ExpandClosed(approach: ApproachType, list: seq<PositionInfo>, boards: seq<Board>, trie: Node, owner: map<seq<int>, nat>,
                     list': seq<PositionInfo>, boards': seq<Board>, trie': Node, owner': map<seq<int>, nat>,
                     S: nat, V: nat, currentIndex: nat)
    requires approach != RandomPlay && currentIndex < |boards|
    requires Search(approach, list, boards, trie, owner, S, V, currentIndex)
    requires Search(approach, list', boards', trie', owner', S, V, currentIndex + 1)
    requires Closed(list, boards, S, V, owner, currentIndex)
    requires boards' == boards + Fresh(Next(boards[currentIndex], S, V), owner.Keys, |Next(boards[currentIndex], S, V)|)
    requires Keeps(list, list')
    ensures Closed(list', boards', S, V, owner', currentIndex + 1)
  {
    SearchOwns(approach, list, boards, trie, owner, S, V, currentIndex);
    SearchOwns(approach, list', boards', trie', owner', S, V, currentIndex + 1);
    SearchSpawned(approach, list', boards', trie', owner', S, V, currentIndex);
    ClosedStep(list, boards, owner, list', boards', owner', S, V, currentIndex);
  }

  /** The solution the visits record is the last solved entry, and outside the full tree the first. */
  lemma SolutionFound(approach: ApproachType, boards: seq<Board>, visited: nat, solutionIndex: int)
    requires visited <= |boards| && solutionIndex == LastSolved(boards, visited)
    requires approach != FullTree && solutionIndex != None ==>
      visited >= 1 && solutionIndex == visited - 1 && LastSolved(boards, visited - 1) == None
    ensures solutionIndex == None ==> forall e :: 0 <= e < visited ==> !Solved(boards[e].tableau)
    ensures solutionIndex != None ==>
      0 <= solutionIndex < visited && Solved(boards[solutionIndex].tableau) &&
      forall e :: solutionIndex < e < visited ==> !Solved(boards[e].tableau)
    ensures approach != FullTree && solutionIndex != None ==>
      solutionIndex == visited - 1 && forall e :: 0 <= e < solutionIndex ==> !Solved(boards[e].tableau)
  {
    LastSolvedSpec(boards, visited);
    if approach != FullTree && solutionIndex != None {
      LastSolvedSpec(boards, visited - 1);
    }
  }

  /**
   * Every play from the first board ends on the tableau of some entry, when
   * every successor of every unsolved entry has an entry's tableau and none
   * is solved: moves depend on the tableau alone (`SameTableauSuccessor`).
   */
  lemma {:induction false} PlayCovered(boards: seq<Board>, S: nat, V: nat, path: seq<Board>) returns (f: nat)
    requires |boards| >= 1 && AllValid(boards, S, V) && Covered(boards, S, V, |boards|)
    requires forall e :: 0 <= e < |boards| ==> !Solved(boards[e].tableau)
    requires IsPlay(path, S, V) && path[0] == boards[0]
    ensures f < |boards| && boards[f].tableau == path[|path| - 1].tableau
    decreases |path|
  {
    if |path| == 1 {
      f := 0;
    } else {
      var front := path[..|path| - 1];
      assert forall k :: 0 <= k < |front| ==> front[k] == path[k];
      var g := PlayCovered(boards, S, V, front);
      var b, m := path[|path| - 2], path[|path| - 1];
      IsMoveIs(b, m, S, V);
      var r := SameTableauSuccessor(b, boards[g], S, V, m);
      var i :| 0 <= i < |Next(boards[g], S, V)| && Next(boards[g], S, V)[i] == r;
      f :| 1 <= f < |boards| && boards[f].tableau == Next(boards[g], S, V)[i].tableau;
    }
  }

  /** A search that covered every successor and met no solved entry proves that the game cannot be won. */
  lemma Unsolvable(boards: seq<Board>, S: nat, V: nat)
    requires |boards| >= 1 && AllValid(boards, S, V) && Covered(boards, S, V, |boards|)
    requires forall e :: 0 <= e < |boards| ==> !Solved(boards[e].tableau)
    ensures NoSolution(boards[0], S, V)
  {
    forall path: seq<Board> | IsPlay(path, S, V) && path[0] == boards[0] ensures !Solved(path[|path| - 1].tableau) {
      var f := PlayCovered(boards, S, V, path);
    }
  }

  /**
   * Breadth first: a play shorter than the depth of entry `s` ends on the
   * tableau of an entry no deeper than the play is long, when the entries
   * before `s` are unsolved and their successors queued by them or earlier.
   */
  lemma {:induction false} PlayReaches(list: seq<PositionInfo>, boards: seq<Board>, owner: map<seq<int>, nat>,
                                       S: nat, V: nat, n: nat, s: nat, path: seq<Board>) returns (f: nat)
    requires Rooted(list) && Ordered(list) && |boards| == |list| && AllValid(boards, S, V) && Owns(boards, owner)
    requires s < n <= |boards| && Closed(list, boards, S, V, owner, n)
    requires forall e :: 0 <= e < s ==> !Solved(boards[e].tableau)
    requires IsPlay(path, S, V) && path[0] == boards[0]
    ensures f < |list|
    ensures |path| - 1 < Depth(list, s) ==> boards[f].tableau == path[|path| - 1].tableau && Depth(list, f) <= |path| - 1
    decreases |path|
  {
    if |path| == 1 || |path| - 1 >= Depth(list, s) {
      f := 0;
    } else {
      var front := path[..|path| - 1];
      assert forall k :: 0 <= k < |front| ==> front[k] == path[k];
      var g := PlayReaches(list, boards, owner, S, V, n, s, front);
      DepthOrdered(list, s, g);
      var b, m := path[|path| - 2], path[|path| - 1];
      IsMoveIs(b, m, S, V);
      var r := SameTableauSuccessor(b, boards[g], S, V, m);
      var i :| 0 <= i < |Next(boards[g], S, V)| && Next(boards[g], S, V)[i] == r;
      ClosedIs(list, boards, S, V, owner, n);
      assert SuccessorIndexed(list, boards, S, V, owner, g, i);
      f := owner[r.tableau];
      DepthOrdered(list, list[f].parentIndexes[0], g);
    }
  }

  /** The first solved entry of a breadth-first search is reached by a shortest play. */
  lemma Minimal(list: seq<PositionInfo>, boards: seq<Board>, owner: map<seq<int>, nat>, S: nat, V: nat, n: nat, s: nat)
    requires Rooted(list) && Ordered(list) && |boards| == |list| && AllValid(boards, S, V) && Owns(boards, owner)
    requires s < n <= |boards| && Closed(list, boards, S, V, owner, n)
    requires forall e :: 0 <= e < s ==> !Solved(boards[e].tableau)
    ensures NoShorterSolution(boards[0], S, V, Depth(list, s))
  {
    forall path: seq<Board> | IsPlay(path, S, V) && path[0] == boards[0] && Solved(path[|path| - 1].tableau)
      ensures |path| - 1 >= Depth(list, s)
    {
      var f := PlayReaches(list, boards, owner, S, V, n, s, path);
      DepthOrdered(list, s, f);
    }
  }

  /** A solved first board is never expanded: the goal has no successors. */
  lemma RootSolvedAlone(list: seq<PositionInfo>, boards: seq<Board>, S: nat, V: nat)
    requires Rooted(list) && |boards| == |list| && AllValid(boards, S, V) && Linked(list, boards, S, V)
    ensures Solved(boards[0].tableau) ==> |boards| == 1
  {
    if |boards| >= 2 {
      assert list[1].parentIndexes[0] == 0;
      IsMoveIs(boards[0], boards[1], S, V);
      SolvedHasNoMoves(boards[0], S, V);
    }
  }

  /** With distinct tableaux at most one entry is solved: the goal is one tableau. */
  lemma SolvedOnce(list: seq<PositionInfo>, boards: seq<Board>, S: nat, V: nat, s: nat)
    requires Rooted(list) && |boards| == |list| && AllValid(boards, S, V) && Linked(list, boards, S, V)
    requires Distinct(boards) && s < |boards| && Solved(boards[s].tableau)
    ensures forall e :: 0 <= e < |boards| && e != s ==> !Solved(boards[e].tableau)
  {
    DistinctIs(boards);
    RootSolvedAlone(list, boards, S, V);
    forall e | 0 <= e < |boards| && e != s ensures !Solved(boards[e].tableau) {
      SolvedIsUnique(boards[e], S, V);
      SolvedIsUnique(boards[s], S, V);
    }
  }

  /** What the invariant says once the loop is over. */
  lemma Finish(approach: ApproachType, list: seq<PositionInfo>, boards: seq<Board>, trie: Node, owner: map<seq<int>, nat>,
               S: nat, V: nat, visited: nat, solutionIndex: int, deadendIndexes: seq<int>, fuel: nat)
    requires Search(approach, list, boards, trie, owner, S, V, visited)
    requires Progress(approach, list, boards, trie, owner, S, V, visited, solutionIndex, deadendIndexes, fuel)
    requires visited == |list| || (approach != FullTree && solutionIndex != None) || (approach == RandomPlay && visited == fuel)
    ensures solutionIndex == None ==> forall e :: 0 <= e < visited ==> !Solved(boards[e].tableau)
    ensures solutionIndex != None ==>
      0 <= solutionIndex < visited && Solved(boards[solutionIndex].tableau) &&
      forall e :: solutionIndex < e < visited ==> !Solved(boards[e].tableau)
    ensures approach != FullTree && solutionIndex != None ==>
      solutionIndex == visited - 1 && forall e :: 0 <= e < solutionIndex ==> !Solved(boards[e].tableau)
    ensures approach != RandomPlay ==> Distinct(boards) && Covered(boards, S, V, visited)
    ensures deadendIndexes == DeadEnds(boards, S, V, visited)
    ensures approach == RandomPlay ==> Chained(list) && visited <= fuel && |list| <= visited + 1
    ensures Tree(list, boards, S, V, visited) && (approach != FullTree ==> SingleParents(list))
    ensures approach == FullTree && solutionIndex != None ==>
      forall e :: 0 <= e < visited && e != solutionIndex ==> !Solved(boards[e].tableau)
    ensures approach != RandomPlay && solutionIndex == None ==> NoSolution(boards[0], S, V)
    ensures approach != RandomPlay && solutionIndex != None ==> NoShorterSolution(boards[0], S, V, Depth(list, solutionIndex))
  {
    ProgressIs(approach, list, boards, trie, owner, S, V, visited, solutionIndex, deadendIndexes, fuel);
    SearchTree(approach, list, boards, trie, owner, S, V, visited);
    SolutionFound(approach, boards, visited, solutionIndex);
    if approach != RandomPlay {
      SearchOwns(approach, list, boards, trie, owner, S, V, visited);
      OwnsDistinct(boards, owner);
      ClosedCovered(list, boards, owner, S, V, visited);
      if solutionIndex == None {
        Unsolvable(boards, S, V);
      } else {
        if approach == FullTree {
          SolvedOnce(list, boards, S, V, solutionIndex);
        }
        Minimal(list, boards, owner, S, V, visited, solutionIndex);
      }
    }
  }

  /**
   * The solver. Only the generator of random play is state; the suit and
   * value counts, trial settings and output mode of the source's simulator
   * are configuration that `Solve` does not read.
   */
  class Simulator {
    const rng: Randomness.Rng

    constructor (rng: Randomness.Rng)
      ensures this.rng == rng
    {
      this.rng := rng;
    }

    /**
     * The search from `position`. The list it builds is returned as ghost
     * state with the board of every entry and the number of entries visited.
     * Random play makes at most `fuel` visits; the other approaches end on
     * their own, since the index holds each tableau at most once.
     */
    method Solve(position: Position.PretzelPosition, approach: ApproachType, fuel: nat)
      returns (results: SolveResults, ghost list: seq<PositionInfo>, ghost boards: seq<Board>, ghost visited: nat,
               ghost solution: int)
      requires position.Valid()
      modifies rng
      ensures Tree(list, boards, position.suitCount, position.valueCount, visited)
      ensures Holds(list, boards, position.suitCount, position.valueCount)
      ensures list[0].position == position && boards[0] == position.Contents()
      ensures visited == |list| || (approach != FullTree && results.solvable) || (approach == RandomPlay && visited == fuel)
      ensures results.deadends == |DeadEnds(boards, position.suitCount, position.valueCount, visited)| % UShortRange
      ensures results.solvable <==> solution != None
      ensures solution == None ==> results.moves == 0 && forall e :: 0 <= e < visited ==> !Solved(boards[e].tableau)
      ensures solution != None ==>
        0 <= solution < visited && Solved(boards[solution].tableau) &&
        forall e :: solution < e < visited ==> !Solved(boards[e].tableau)
      ensures solution != None ==> results.moves == Depth(list, solution) % UShortRange
      ensures approach != FullTree && solution != None ==>
        solution == visited - 1 && forall e :: 0 <= e < solution ==> !Solved(boards[e].tableau)
      ensures approach != FullTree ==> SingleParents(list)
      ensures approach != RandomPlay ==> Distinct(boards) && Covered(boards, position.suitCount, position.valueCount, visited)
      ensures approach == RandomPlay ==> Chained(list) && visited <= fuel && |list| <= visited + 1
      ensures approach != RandomPlay && !results.solvable ==> NoSolution(boards[0], position.suitCount, position.valueCount)
      ensures approach != RandomPlay && results.solvable ==>
        NoShorterSolution(boards[0], position.suitCount, position.valueCount, Depth(list, solution))
      ensures approach == FullTree && results.solvable ==>
        forall e :: 0 <= e < visited && e != solution ==> !Solved(boards[e].tableau)
      ensures approach != RandomPlay ==> rng.drawn == old(rng.drawn)
      ensures approach == RandomPlay ==> RandomDraws(boards, position.suitCount, position.valueCount, rng.stream, old(rng.drawn), rng.drawn)
    {
      ghost var S, V := position.suitCount, position.valueCount;
      var attainablePositionList := [PositionInfo(position, [None])];
      var attainedPositions: Node := map[];
      MulAtLeast(V, S);
      // The chain of the initial tableau is built but never attached to the trie.
      var childNode := Chain(position.tableau[..], 0, 0);
      var solutionIndex := None;
      var deadendIndexes: seq<int> := [];
      var currentIndex: nat := 0;
      ghost var owner: map<seq<int>, nat> := map[];
      boards := [position.Contents()];
      ghost var first := rng.drawn;
      RandomDrawsIs(boards, S, V, rng.stream, first, first);
      Start(approach, position, fuel);
      SearchingClose(approach, attainablePositionList, boards, attainedPositions, owner, S, V, currentIndex,
                  solutionIndex, deadendIndexes, fuel);
      attainablePositionList, attainedPositions, solutionIndex, deadendIndexes, currentIndex, boards, owner :=
        Run(approach, attainablePositionList, attainedPositions, solutionIndex, deadendIndexes, currentIndex,
            boards, owner, S, V, fuel, first);
      SearchingOpen(approach, attainablePositionList, boards, attainedPositions, owner, S, V, currentIndex,
                  solutionIndex, deadendIndexes, fuel);
      list, visited, solution := attainablePositionList, currentIndex, solutionIndex;
      Finish(approach, list, boards, attainedPositions, owner, S, V, visited, solutionIndex, deadendIndexes, fuel);
      var deadends := |deadendIndexes| % UShortRange;
      if solutionIndex != None {
        var solutionMoveCount := CountMoves(attainablePositionList, solutionIndex);
        results := SolveResults(true, solutionMoveCount, deadends);
      } else {
        results := SolveResults(false, 0, deadends);
      }
    }

    /** The search loop: visit entries in list order until a solution stops it, the list is exhausted or the fuel is spent. */
    method Run(approach: ApproachType, list: seq<PositionInfo>, attainedPositions: Node, solutionIndex: int,
               deadendIndexes: seq<int>, currentIndex: nat, ghost boards: seq<Board>, ghost owner: map<seq<int>, nat>,
               ghost S: nat, ghost V: nat, fuel: nat, ghost first: nat)
      returns (list': seq<PositionInfo>, attained': Node, solutionIndex': int, deadendIndexes': seq<int>,
               currentIndex': nat, ghost boards': seq<Board>, ghost owner': map<seq<int>, nat>)
      requires Searching(approach, list, boards, attainedPositions, owner, S, V, currentIndex, solutionIndex, deadendIndexes, fuel) && Holds(list, boards, S, V)
      requires approach == RandomPlay ==> RandomDraws(boards, S, V, rng.stream, first, rng.drawn)
      modifies rng
      ensures approach != RandomPlay ==> rng.drawn == old(rng.drawn)
      ensures approach == RandomPlay ==> RandomDraws(boards', S, V, rng.stream, first, rng.drawn)
      ensures Searching(approach, list', boards', attained', owner', S, V, currentIndex', solutionIndex', deadendIndexes', fuel) && Holds(list', boards', S, V)
      ensures Keeps(list, list') && boards <= boards'
      ensures currentIndex' == |list'| || (approach != FullTree && solutionIndex' != None) ||
              (approach == RandomPlay && currentIndex' == fuel)
    {
      list', attained', solutionIndex', deadendIndexes', currentIndex', boards', owner' :=
        list, attainedPositions, solutionIndex, deadendIndexes, currentIndex, boards, owner;
      while (solutionIndex' == None || approach == FullTree) && currentIndex' < |list'| &&
            (approach != RandomPlay || currentIndex' < fuel)
        invariant Searching(approach, list', boards', attained', owner', S, V, currentIndex', solutionIndex', deadendIndexes', fuel) && Holds(list', boards', S, V)
        invariant Keeps(list, list') && boards <= boards'
        invariant approach != RandomPlay ==> rng.drawn == old(rng.drawn)
        invariant approach == RandomPlay ==> RandomDraws(boards', S, V, rng.stream, first, rng.drawn)
        decreases (if approach == RandomPlay then fuel else |Tableaux(S * V, S * V)| + 1) - currentIndex'
      {
        if approach != RandomPlay {
          SearchingBound(approach, list', boards', attained', owner', S, V, currentIndex', solutionIndex', deadendIndexes', fuel);
        }
        ghost var list0 := list';
        list', attained', solutionIndex', deadendIndexes', boards', owner' :=
          Visit(approach, list', attained', currentIndex', solutionIndex', deadendIndexes', boards', owner', S, V, fuel, first);
        KeepsTransitive(list, list0, list');
        currentIndex' := currentIndex' + 1;
      }
    }

    /** One turn of the search loop: visit entry `currentIndex`. */
    method Visit(approach: ApproachType, list: seq<PositionInfo>, attainedPositions: Node, currentIndex: nat,
                 solutionIndex: int, deadendIndexes: seq<int>, ghost boards: seq<Board>,
                 ghost owner: map<seq<int>, nat>, ghost S: nat, ghost V: nat, ghost fuel: nat, ghost first: nat)
      returns (list': seq<PositionInfo>, attained': Node, solutionIndex': int, deadendIndexes': seq<int>,
               ghost boards': seq<Board>, ghost owner': map<seq<int>, nat>)
      requires Visitable(approach, list, currentIndex, solutionIndex, fuel)
      requires Searching(approach, list, boards, attainedPositions, owner, S, V, currentIndex, solutionIndex, deadendIndexes, fuel) && Holds(list, boards, S, V)
      requires approach == RandomPlay ==> RandomDraws(boards, S, V, rng.stream, first, rng.drawn)
      modifies rng
      ensures approach != RandomPlay ==> rng.drawn == old(rng.drawn)
      ensures approach == RandomPlay ==> RandomDraws(boards', S, V, rng.stream, first, rng.drawn)
      ensures Searching(approach, list', boards', attained', owner', S, V, currentIndex + 1, solutionIndex', deadendIndexes', fuel) && Holds(list', boards', S, V)
      ensures Keeps(list, list') && boards <= boards'
    {
      SearchingEntry(approach, list, boards, attainedPositions, owner, S, V, currentIndex, solutionIndex, deadendIndexes, fuel);
      var position := list[currentIndex].position;
      var solved := position.IsSolved();
      if solved {
        list', attained', solutionIndex', deadendIndexes', boards', owner' :=
          list, attainedPositions, currentIndex, deadendIndexes, boards, owner;
        VisitSolved(approach, list, boards, attainedPositions, owner, S, V, currentIndex, solutionIndex, deadendIndexes, fuel);
      } else {
        var subsequentPositions := position.GetSubsequentPositions();
        solutionIndex' := solutionIndex;
        list', attained', deadendIndexes', boards', owner' := Advance(approach, list, attainedPositions, currentIndex,
          subsequentPositions, solutionIndex, deadendIndexes, boards, owner, S, V, fuel, first);
      }
    }

    /** An unsolved entry with the given successors: play one, expand them all, or record a dead end. */
    method Advance(approach: ApproachType, list: seq<PositionInfo>, attainedPositions: Node, currentIndex: nat,
                   subsequentPositions: seq<Position.PretzelPosition>, solutionIndex: int, deadendIndexes: seq<int>,
                   ghost boards: seq<Board>, ghost owner: map<seq<int>, nat>, ghost S: nat, ghost V: nat, ghost fuel: nat,
                   ghost first: nat)
      returns (list': seq<PositionInfo>, attained': Node, deadendIndexes': seq<int>,
               ghost boards': seq<Board>, ghost owner': map<seq<int>, nat>)
      requires Visitable(approach, list, currentIndex, solutionIndex, fuel)
      requires Searching(approach, list, boards, attainedPositions, owner, S, V, currentIndex, solutionIndex, deadendIndexes, fuel) && Holds(list, boards, S, V)
      requires ValidBoard(boards[currentIndex], S, V) && !Solved(boards[currentIndex].tableau)
      requires Position.Models(subsequentPositions, Next(boards[currentIndex], S, V), S, V)
      requires Separate(subsequentPositions)
      requires approach == RandomPlay ==> RandomDraws(boards, S, V, rng.stream, first, rng.drawn)
      modifies rng
      ensures approach != RandomPlay ==> rng.drawn == old(rng.drawn)
      ensures approach == RandomPlay ==> RandomDraws(boards', S, V, rng.stream, first, rng.drawn)
      ensures Searching(approach, list', boards', attained', owner', S, V, currentIndex + 1, solutionIndex, deadendIndexes', fuel) && Holds(list', boards', S, V)
      ensures Keeps(list, list') && boards <= boards'
    {
      list', attained', deadendIndexes', boards', owner' := list, attainedPositions, deadendIndexes, boards, owner;
      if approach == RandomPlay && |subsequentPositions| > 0 {
        var randomPlayIndex := rng.Next(0, |subsequentPositions|);
        list', boards' := Play(approach, list, currentIndex, subsequentPositions, randomPlayIndex, boards,
                               attainedPositions, owner, S, V, solutionIndex, deadendIndexes, fuel);
        PlayedStep(boards, S, V, rng.stream, first, subsequentPositions[randomPlayIndex].Contents());
      } else if |subsequentPositions| > 0 {
        list', attained', boards', owner' := Expand(approach, list, attainedPositions, currentIndex, subsequentPositions,
                                                    boards, owner, S, V, solutionIndex, deadendIndexes, fuel);
      } else {
        deadendIndexes' := deadendIndexes + [currentIndex];
        VisitDeadEnd(approach, list, boards, attainedPositions, owner, S, V, currentIndex, solutionIndex, deadendIndexes, fuel);
      }
    }
  }
}
