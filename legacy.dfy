/**
 * The older iteration of the engine (`Program.cs`): a deck with one shuffle,
 * a position class over arrays whose methods follow the same move rule and
 * goal test as module `Rules`, and a breadth-first `Solve` that deduplicates
 * by scanning the whole list with `EqualTo`, where the later solver keys a
 * trie by the tableau alone.
 */
module Legacy {
  import opened Arith
  import opened Cards
  import opened Swaps
  import opened Randomness
  import opened Deals
  import opened Rules
  import Deck
  import Position
  import Solver

  /** The older deck: cards in id order, shuffled by a single swap pass. */
  class CardDeck {
    const suitCount: nat
    const valueCount: nat
    const cards: array<int>

    /** With its Aces pulled out, the deck is a fresh deal. */
    ghost predicate Valid()
      reads cards
    {
      suitCount >= 1 && valueCount >= 1 && cards.Length == suitCount * valueCount &&
      Dealable(cards[..], suitCount, valueCount)
    }

    /**
     * A deck in id order. The counter is unbounded here; the source's 16-bit
     * counter never reaches the end of a deck of 65536 or more cards (`Deck.CounterNeverReaches`).
     */
    constructor (suitCount: nat, valueCount: nat)
      requires suitCount >= 1 && valueCount >= 1
      ensures this.suitCount == suitCount && this.valueCount == valueCount
      ensures cards[..] == Identity(suitCount * valueCount) && Valid() && fresh(cards)
    {
      this.suitCount := suitCount;
      this.valueCount := valueCount;
      MulNonNegative(suitCount, valueCount);
      var a := new int[suitCount * valueCount];
      var cardNumber := 0;
      while cardNumber < suitCount * valueCount
        invariant 0 <= cardNumber <= suitCount * valueCount
        invariant forall k :: 0 <= k < cardNumber ==> a[k] == k
      {
        a[cardNumber] := cardNumber;
        cardNumber := cardNumber + 1;
      }
      cards := a;
      new;
      assert cards[..] == Identity(suitCount * valueCount);
    }

    /**
     * Step `i` swaps slot `i` with a slot drawn from `(i, length)`. The source
     * makes a new generator on every call; its choices are `stream`.
     */
    method Shuffle(stream: nat -> nat)
      requires Valid()
      modifies cards
      ensures Valid()
      ensures cards[..] == SwapPass(old(cards[..]), DrawnPartners(stream, 0, cards.Length), Draws(cards.Length))
    {
      var rng := new Rng(stream);
      Deck.ShuffleRange(cards, 0, cards.Length, rng);
      SwapPassAtWhole(old(cards[..]), DrawnPartners(stream, 0, cards.Length), Draws(cards.Length));
      Deck.SwapPassKeepsAces(old(cards[..]), DrawnPartners(stream, 0, cards.Length), Draws(cards.Length), suitCount, valueCount);
    }
  }

  /** Position `k` of `ps` holds board `bs[k]`, with the given suit and value counts. */
  ghost predicate Models(ps: seq<PretzelPosition>, bs: seq<Board>, S: nat, V: nat)
    reads set k | 0 <= k < |ps| :: ps[k].tableau
    reads set k | 0 <= k < |ps| :: ps[k].holeIndices
  {
    |ps| == |bs| &&
    forall k :: 0 <= k < |ps| ==>
      ps[k].suitCount == S && ps[k].valueCount == V && ps[k].Contents() == bs[k]
  }

  /** Models of two runs side by side model the joined runs. */
  lemma ModelsConcat(ps: seq<PretzelPosition>, bs: seq<Board>, qs: seq<PretzelPosition>, cs: seq<Board>, S: nat, V: nat)
    requires Models(ps, bs, S, V) && Models(qs, cs, S, V)
    ensures Models(ps + qs, bs + cs, S, V)
  {
    forall k | 0 <= k < |ps + qs|
      ensures (ps + qs)[k].suitCount == S && (ps + qs)[k].valueCount == V && (ps + qs)[k].Contents() == (bs + cs)[k]
    {
      if k >= |ps| {
        assert (ps + qs)[k] == qs[k - |ps|] && (bs + cs)[k] == cs[k - |ps|];
      }
    }
  }

  class PretzelPosition {
    const tableau: array<int>
    const holeIndices: array<int>
    const suitCount: nat
    const valueCount: nat

    /** The position's contents as a board value. */
    ghost function Contents(): Board
      reads tableau, holeIndices
    {
      Board(tableau[..], holeIndices[..])
    }

    /** The position is one the game can reach. */
    ghost predicate Valid()
      reads tableau, holeIndices
    {
      tableau != holeIndices && ValidBoard(Contents(), suitCount, valueCount)
    }

    /** What the move generation needs: separate arrays, holes inside the tableau, every wanted card present. */
    ghost predicate Movable()
      reads tableau, holeIndices
    {
      tableau != holeIndices && valueCount > 1 && Playable(Contents(), suitCount, valueCount)
    }

    /**
     * The initial position of a dealt deck. As in the later iteration the
     * tableau IS the deck's array, so the Aces are pulled out of the deck.
     */
    constructor FromDeck(deck: CardDeck)
      requires deck.Valid() && deck.valueCount >= 2
      modifies deck.cards
      ensures tableau == deck.cards && fresh(holeIndices)
      ensures suitCount == deck.suitCount && valueCount == deck.valueCount
      ensures Contents() == Position.DealtBoard(old(deck.cards[..]), valueCount)
      ensures Valid() && deck.Valid()
    {
      var S, V := deck.suitCount, deck.valueCount;
      ghost var s := deck.cards[..];
      assert s[..|s|] == s;
      AceSlotsCount(s, V, |s|);
      DealtHoleCount(S, V);
      var h := new int[S](_ => 0);
      Position.PullOutAces(deck.cards, h, V);
      tableau := deck.cards;
      holeIndices := h;
      suitCount := S;
      valueCount := V;
      new;
      assert holeIndices[..] == h[..|AceSlots(s, V, |s|)|];
      Position.DealtBoardIsValid(s, S, V);
      ZeroAcesIdempotent(s, V);
    }

    /** A fork: fresh arrays with the same contents. */
    constructor Copy(precedingPosition: PretzelPosition)
      ensures fresh(tableau) && fresh(holeIndices) && tableau != holeIndices
      ensures Contents() == precedingPosition.Contents()
      ensures suitCount == precedingPosition.suitCount && valueCount == precedingPosition.valueCount
    {
      var t := new int[precedingPosition.tableau.Length];
      forall k | 0 <= k < t.Length {
        t[k] := precedingPosition.tableau[k];
      }
      var h := new int[precedingPosition.holeIndices.Length];
      forall k | 0 <= k < h.Length {
        h[k] := precedingPosition.holeIndices[k];
      }
      tableau := t;
      holeIndices := h;
      suitCount := precedingPosition.suitCount;
      valueCount := precedingPosition.valueCount;
      new;
      assert tableau[..] == precedingPosition.tableau[..];
      assert holeIndices[..] == precedingPosition.holeIndices[..];
    }

    /**
     * The hole lists agree, then the tableaux agree, each over the length of
     * this position's array (a shorter array in `position` would be indexed
     * past its end). On arrays of equal lengths: equal contents.
     */
    method EqualTo(position: PretzelPosition) returns (equal: bool)
      requires holeIndices.Length <= position.holeIndices.Length && tableau.Length <= position.tableau.Length
      ensures equal <==>
        holeIndices[..] == position.holeIndices[..holeIndices.Length] && tableau[..] == position.tableau[..tableau.Length]
      ensures holeIndices.Length == position.holeIndices.Length && tableau.Length == position.tableau.Length ==>
        (equal <==> Contents() == position.Contents())
    {
      var i := 0;
      while i < holeIndices.Length
        invariant 0 <= i <= holeIndices.Length
        invariant holeIndices[..i] == position.holeIndices[..i]
      {
        if holeIndices[i] != position.holeIndices[i] {
          return false;
        }
        i := i + 1;
      }
      assert holeIndices[..] == holeIndices[..i];
      i := 0;
      while i < tableau.Length
        invariant 0 <= i <= tableau.Length
        invariant tableau[..i] == position.tableau[..i]
      {
        if tableau[i] != position.tableau[i] {
          return false;
        }
        i := i + 1;
      }
      assert tableau[..] == tableau[..i];
      assert position.holeIndices.Length == holeIndices.Length ==> position.holeIndices[..] == position.holeIndices[..holeIndices.Length];
      assert position.tableau.Length == tableau.Length ==> position.tableau[..] == position.tableau[..tableau.Length];
      return true;
    }

    /** Every position one move away, one per hole that wants a card, in hole order, each a fork. */
    method GetSubsequentPositions() returns (newPositions: seq<PretzelPosition>)
      requires Valid()
      ensures Models(newPositions, Next(Contents(), suitCount, valueCount), suitCount, valueCount)
      ensures forall k :: 0 <= k < |newPositions| ==> newPositions[k].Valid()
      ensures forall k :: 0 <= k < |newPositions| ==>
        fresh(newPositions[k].tableau) && fresh(newPositions[k].holeIndices) &&
        newPositions[k].tableau != newPositions[k].holeIndices
    {
      NextIsSuccessors(Contents(), suitCount, valueCount);
      newPositions := SubsequentPositions();
      forall k | 0 <= k < |newPositions| ensures newPositions[k].Valid() {
        SuccessorsAreValid(Contents(), suitCount, valueCount, newPositions[k].Contents());
      }
    }

    /** The loop of `GetSubsequentPositions`, which needs no more than a movable position. */
    method SubsequentPositions() returns (newPositions: seq<PretzelPosition>)
      requires Movable()
      ensures Models(newPositions, Successors(Contents(), suitCount, valueCount), suitCount, valueCount)
      ensures forall k :: 0 <= k < |newPositions| ==>
        fresh(newPositions[k].tableau) && fresh(newPositions[k].holeIndices) &&
        newPositions[k].tableau != newPositions[k].holeIndices
    {
      ghost var b := Contents();
      newPositions := [];
      Position.ForksIs(b, suitCount, valueCount, 0);
      var i := 0;
      while i < suitCount
        invariant 0 <= i <= suitCount
        invariant Models(newPositions, Position.Forks(b, suitCount, valueCount, i), suitCount, valueCount)
        invariant forall k :: 0 <= k < |newPositions| ==>
          fresh(newPositions[k].tableau) && fresh(newPositions[k].holeIndices) &&
          newPositions[k].tableau != newPositions[k].holeIndices
      {
        var added := AddSubsequent(b, i);
        Position.ForksStep(b, suitCount, valueCount, i);
        ModelsConcat(newPositions, Position.Forks(b, suitCount, valueCount, i), added, MoveAt(b, suitCount, valueCount, i), suitCount, valueCount);
        newPositions := newPositions + added;
        i := i + 1;
      }
      Position.ForksIs(b, suitCount, valueCount, suitCount);
    }

    /** One turn of the loop above: the fork for hole `i`, if that hole wants a card. */
    method AddSubsequent(ghost b: Board, i: nat) returns (added: seq<PretzelPosition>)
      requires tableau != holeIndices && valueCount > 1 && Playable(b, suitCount, valueCount)
      requires b == Contents() && i < suitCount
      ensures Models(added, MoveAt(b, suitCount, valueCount, i), suitCount, valueCount)
      ensures forall k :: 0 <= k < |added| ==>
        fresh(added[k].tableau) && fresh(added[k].holeIndices) && added[k].tableau != added[k].holeIndices
    {
      added := [];
      var cardNumberThatFitsHole := WantedCard(i);
      if cardNumberThatFitsHole != NoCard {
        var newPosition := Fork(i, cardNumberThatFitsHole);
        added := [newPosition];
      }
    }

    /** The card that fits the hole of suit `i`, or `NoCard`. */
    method WantedCard(i: nat) returns (cardNumberThatFitsHole: int)
      requires valueCount > 0 && HolesInside(Contents(), suitCount) && i < suitCount
      ensures cardNumberThatFitsHole == Wanted(Contents(), valueCount, i)
    {
      var hole := holeIndices[i];
      cardNumberThatFitsHole := NoCard;
      if hole % valueCount == 0 {
        cardNumberThatFitsHole := hole + 1;
      } else if tableau[hole - 1] == NoCard {
        cardNumberThatFitsHole := NoCard;
      } else if tableau[hole - 1] % valueCount < valueCount - 1 {
        cardNumberThatFitsHole := tableau[hole - 1] + 1;
      }
    }

    /** A fork with the wanted card of suit `g` moved into that suit's hole. */
    method Fork(g: nat, cardNumberThatFitsHole: int) returns (newPosition: PretzelPosition)
      requires Movable() && g < suitCount
      requires cardNumberThatFitsHole == Wanted(Contents(), valueCount, g) != NoCard
      ensures fresh(newPosition.tableau) && fresh(newPosition.holeIndices)
      ensures newPosition.tableau != newPosition.holeIndices
      ensures newPosition.suitCount == suitCount && newPosition.valueCount == valueCount
      ensures newPosition.Contents() == Move(Contents(), suitCount, valueCount, g)
    {
      WantedPresentAt(Contents(), suitCount, valueCount, suitCount, g);
      newPosition := new PretzelPosition.Copy(this);
      var indexOfCardThatFitsHole := IndexOf(newPosition.tableau[..], cardNumberThatFitsHole);
      newPosition.tableau[holeIndices[g]] := newPosition.tableau[indexOfCardThatFitsHole];
      newPosition.tableau[indexOfCardThatFitsHole] := NoCard;
      newPosition.holeIndices[g] := indexOfCardThatFitsHole;
    }

    /** The goal test: every slot `i` is a hole or holds card `i + 1`. */
    method IsSolved() returns (solved: bool)
      ensures solved == Solved(tableau[..])
    {
      solved := true;
      var i := 0;
      while solved && i < tableau.Length
        invariant 0 <= i <= tableau.Length
        invariant solved == forall k :: 0 <= k < i ==> tableau[k] == NoCard || tableau[k] == k + 1
      {
        if tableau[i] != NoCard && tableau[i] != i + 1 {
          solved := false;
        }
        i := i + 1;
      }
    }

    /**
     * The breadth-first search of the older iteration. Entry 0 is `position`;
     * each visited entry that is not solved has its successors appended, each
     * unless an entry of the list is `EqualTo` it; the first solved entry in
     * list order ends the search. The result is that entry's number of moves
     * in a `short`, or -1 when the list ran out. `this` is not used.
     */
    method Solve(position: PretzelPosition)
      returns (solutionMoveCount: int, ghost nodes: seq<AttainablePosition>, ghost boards: seq<Board>, ghost solution: int)
      requires position.Valid()
      ensures Tree(nodes, boards, position.suitCount, position.valueCount) && Unique(boards)
      ensures nodes[0].position == position && Holds(nodes, boards, position.suitCount, position.valueCount)
      ensures solution == None ==>
        solutionMoveCount == -1 && Passed(boards, |boards|) &&
        Complete(boards, position.suitCount, position.valueCount, |boards|)
      ensures solution != None ==>
        0 <= solution < |boards| && Solved(boards[solution].tableau) && Passed(boards, solution) &&
        Complete(boards, position.suitCount, position.valueCount, solution) &&
        solutionMoveCount == ShortOf(Depth(nodes, solution))
      ensures solution == None ==> Solver.NoSolution(boards[0], position.suitCount, position.valueCount)
      ensures solution != None ==> Solver.NoShorterSolution(boards[0], position.suitCount, position.valueCount, Depth(nodes, solution))
    {
      ghost var S, V := position.suitCount, position.valueCount;
      var positionNodes := [AttainablePosition(position, None)];
      boards := [position.Contents()];
      var solutionIndex := None;
      var currentIndex := 0;
      Begin(positionNodes, boards, S, V);
      UniverseBound(positionNodes, boards, S, V, 0);
      while solutionIndex == None && currentIndex < |positionNodes|
        invariant solutionIndex == None
        invariant Explored(positionNodes, boards, S, V, currentIndex) && Holds(positionNodes, boards, S, V)
        invariant positionNodes[0].position == position
        invariant |positionNodes| <= |Universe(S, V)|
        decreases |Universe(S, V)| - currentIndex
      {
        var solved;
        solved, positionNodes, boards := Visit(positionNodes, boards, currentIndex, S, V);
        if solved {
          solutionIndex := currentIndex;
          break;
        }
        UniverseBound(positionNodes, boards, S, V, currentIndex + 1);
        currentIndex := currentIndex + 1;
      }
      nodes, solution := positionNodes, solutionIndex;
      Finish(nodes, boards, S, V, currentIndex);
      if solutionIndex != None {
        Minimal(nodes, boards, S, V, solutionIndex);
      } else {
        Unsolvable(boards, S, V);
      }
      if solutionIndex != None {
        solutionMoveCount := TraceMoves(positionNodes, solutionIndex);
      } else {
        solutionMoveCount := -1;
      }
    }
  }
  /** The parent of entry 0, and the solution index before a solved entry is seen. */
  const None := -1

  /** An entry of the search list: a position and the index of the entry it was reached from. */
  datatype AttainablePosition = AttainablePosition(position: PretzelPosition, parentIndex: int)

  /** Entry 0 has no parent and every later entry's parent comes before it, so every chain of parents ends at entry 0. */
  predicate Rooted(nodes: seq<AttainablePosition>)
  {
    |nodes| >= 1 && nodes[0].parentIndex == None &&
    forall e :: 1 <= e < |nodes| ==> 0 <= nodes[e].parentIndex < e
  }

  /** The number of parent hops from entry `e` back to entry 0. */
  function Depth(nodes: seq<AttainablePosition>, e: nat): nat
    requires Rooted(nodes) && e < |nodes|
    decreases e
  {
    if e == 0 then 0 else 1 + Depth(nodes, nodes[e].parentIndex)
  }

  /** `n` held in a 16-bit signed counter, which wraps. */
  function ShortOf(n: int): (r: int)
    ensures -0x8000 <= r < 0x8000
    ensures -0x8000 <= n < 0x8000 ==> r == n
  {
    (n + 0x8000) % 0x1_0000 - 0x8000
  }

  /** Incrementing the counter holding `n` leaves it holding `n + 1`. */
  lemma ShortSucc(n: nat)
    ensures ShortOf(ShortOf(n) + 1) == ShortOf(n + 1)
  {
    ModSucc(n + 0x8000, 0x1_0000);
  }

  /** Decrementing the counter holding `n` leaves it holding `n - 1`. */
  lemma ShortPred(n: nat)
    requires n >= 1
    ensures ShortOf(ShortOf(n) - 1) == ShortOf(n - 1)
  {
    var h := n + 0x8000;
    ModPred(h, 0x1_0000);
    var x := h % 0x1_0000 - 1;
    if x < 0 {
      DivModUnique(x, 0x1_0000, -1, x + 0x1_0000);
    }
  }

  /** Each entry's position holds that entry's board. */
  ghost predicate Holds(nodes: seq<AttainablePosition>, boards: seq<Board>, S: nat, V: nat)
    reads set e | 0 <= e < |nodes| :: nodes[e].position.tableau
    reads set e | 0 <= e < |nodes| :: nodes[e].position.holeIndices
  {
    |nodes| == |boards| &&
    forall e :: 0 <= e < |nodes| ==>
      nodes[e].position.suitCount == S && nodes[e].position.valueCount == V &&
      nodes[e].position.tableau != nodes[e].position.holeIndices &&
      nodes[e].position.Contents() == boards[e]
  }

  /** The list as a tree of plays: valid boards, each entry after the first a move from its parent's board. */
  ghost predicate Tree(nodes: seq<AttainablePosition>, boards: seq<Board>, S: nat, V: nat)
  {
    Rooted(nodes) && |boards| == |nodes| && Solver.AllValid(boards, S, V) && Linked(nodes, boards, S, V)
  }

  ghost predicate Linked(nodes: seq<AttainablePosition>, boards: seq<Board>, S: nat, V: nat)
    requires Rooted(nodes) && |boards| == |nodes| && Solver.AllValid(boards, S, V)
  {
    forall e :: 1 <= e < |nodes| ==> Solver.IsMove(boards[nodes[e].parentIndex], boards[e], S, V)
  }

  /** No board is held by two entries. */
  ghost predicate Unique(bs: seq<Board>)
  {
    forall e, f :: 0 <= e < f < |bs| ==> bs[e] != bs[f]
  }

  /** None of the first `n` entries is solved. */
  ghost predicate Passed(bs: seq<Board>, n: nat)
    requires n <= |bs|
  {
    forall e :: 0 <= e < n ==> !Solved(bs[e].tableau)
  }

  /** Every board one move away from one of the first `n` boards is in the list. */
  ghost predicate Complete(bs: seq<Board>, S: nat, V: nat, n: nat)
    requires n <= |bs| && Solver.AllValid(bs, S, V)
  {
    forall e, k :: 0 <= e < n && 0 <= k < |Next(bs[e], S, V)| ==> Next(bs[e], S, V)[k] in bs
  }

  /** Parents never decrease along the list: entries are appended in the order their parents were visited. */
  predicate Ordered(nodes: seq<AttainablePosition>)
  {
    forall e, f :: 1 <= e < f < |nodes| ==> nodes[e].parentIndex <= nodes[f].parentIndex
  }

  /**
   * Every board one move away from one of the first `n` boards is listed,
   * at entry 0 or at an entry whose parent comes no later than that board's
   * entry: the breadth-first layering (`NearIsComplete`).
   */
  ghost predicate Near(nodes: seq<AttainablePosition>, bs: seq<Board>, S: nat, V: nat, n: nat)
    requires |bs| == |nodes| && n <= |bs| && Solver.AllValid(bs, S, V)
  {
    forall e, k :: 0 <= e < n && 0 <= k < |Next(bs[e], S, V)| ==>
      exists f :: 0 <= f < |bs| && bs[f] == Next(bs[e], S, V)[k] && (f == 0 || nodes[f].parentIndex <= e)
  }

  lemma NearIsComplete(nodes: seq<AttainablePosition>, bs: seq<Board>, S: nat, V: nat, n: nat)
    requires |bs| == |nodes| && n <= |bs| && Solver.AllValid(bs, S, V) && Near(nodes, bs, S, V, n)
    ensures Complete(bs, S, V, n)
  {
  }

  /**
   * What the visits of the first `visited` entries established: a tree of
   * plays whose parents are all visited, in list order, no board twice, no
   * visited entry solved, every successor of a visited entry listed near its
   * parent (`ExploredOpen`). It sits one recursion level down, so that the
   * loop's state does not unfold it.
   */
  ghost predicate Explored(nodes: seq<AttainablePosition>, boards: seq<Board>, S: nat, V: nat, visited: nat)
  {
    Rooted(nodes) && |boards| == |nodes| && visited <= |nodes| && Solver.AllValid(boards, S, V) &&
    var below := ExploredBelow(nodes, boards, S, V, visited, |nodes| + 1);
    below
  }

  ghost predicate ExploredBelow(nodes: seq<AttainablePosition>, boards: seq<Board>, S: nat, V: nat, visited: nat, depth: nat)
    requires Rooted(nodes) && |boards| == |nodes| && visited <= |nodes| && Solver.AllValid(boards, S, V)
    decreases depth
  {
    if depth == 0 then ExploredParts(nodes, boards, S, V, visited)
    else ExploredBelow(nodes, boards, S, V, visited, depth - 1)
  }

  ghost predicate ExploredParts(nodes: seq<AttainablePosition>, boards: seq<Board>, S: nat, V: nat, visited: nat)
    requires Rooted(nodes) && |boards| == |nodes| && visited <= |nodes| && Solver.AllValid(boards, S, V)
  {
    Linked(nodes, boards, S, V) && Unique(boards) && Ordered(nodes) &&
    (forall e :: 1 <= e < |nodes| ==> nodes[e].parentIndex < visited) &&
    Passed(boards, visited) && Near(nodes, boards, S, V, visited)
  }

  lemma {:induction false} ExploredBelowIs(nodes: seq<AttainablePosition>, boards: seq<Board>, S: nat, V: nat, visited: nat, depth: nat)
    requires Rooted(nodes) && |boards| == |nodes| && visited <= |nodes| && Solver.AllValid(boards, S, V)
    ensures ExploredBelow(nodes, boards, S, V, visited, depth) <==> ExploredParts(nodes, boards, S, V, visited)
    decreases depth
  {
    if depth > 0 {
      ExploredBelowIs(nodes, boards, S, V, visited, depth - 1);
    }
  }

  lemma ExploredOpen(nodes: seq<AttainablePosition>, boards: seq<Board>, S: nat, V: nat, visited: nat)
    requires Explored(nodes, boards, S, V, visited)
    ensures ExploredParts(nodes, boards, S, V, visited)
  {
    ExploredBelowIs(nodes, boards, S, V, visited, |nodes| + 1);
  }

  lemma ExploredClose(nodes: seq<AttainablePosition>, boards: seq<Board>, S: nat, V: nat, visited: nat)
    requires Rooted(nodes) && |boards| == |nodes| && visited <= |nodes| && Solver.AllValid(boards, S, V)
    requires ExploredParts(nodes, boards, S, V, visited)
    ensures Explored(nodes, boards, S, V, visited)
  {
    ExploredBelowIs(nodes, boards, S, V, visited, |nodes| + 1);
  }

  /** The starting list: one valid entry, nothing visited. */
  lemma Begin(nodes: seq<AttainablePosition>, boards: seq<Board>, S: nat, V: nat)
    requires |nodes| == 1 && nodes[0].parentIndex == None && |boards| == 1 && ValidBoard(boards[0], S, V)
    ensures Explored(nodes, boards, S, V, 0)
  {
    ExploredClose(nodes, boards, S, V, 0);
  }

  /**
   * The boards after one entry's successors `rs` were offered in turn: each
   * is appended unless the list already holds it.
   */
  ghost function Appended(bs: seq<Board>, rs: seq<Board>, n: nat): (r: seq<Board>)
    requires n <= |rs|
    ensures |bs| <= |r| && r[..|bs|] == bs
  {
    if n == 0 then bs
    else
      var a := Appended(bs, rs, n - 1);
      if rs[n - 1] in a then a else a + [rs[n - 1]]
  }

  /**
   * `b` is what `Appended(bs, rs, n)` leaves (`AppendedAtIs`), one recursion
   * level down so that the expansion loop does not unfold `Appended`.
   */
  ghost predicate AppendedAt(b: seq<Board>, bs: seq<Board>, rs: seq<Board>, n: nat)
    requires n <= |rs|
  {
    var below := AppendedAtBelow(b, bs, rs, n, n + 1);
    below
  }

  ghost predicate AppendedAtBelow(b: seq<Board>, bs: seq<Board>, rs: seq<Board>, n: nat, depth: nat)
    requires n <= |rs|
    decreases depth
  {
    if depth == 0 then b == Appended(bs, rs, n) else AppendedAtBelow(b, bs, rs, n, depth - 1)
  }

  lemma {:induction false} AppendedAtBelowIs(b: seq<Board>, bs: seq<Board>, rs: seq<Board>, n: nat, depth: nat)
    requires n <= |rs|
    ensures AppendedAtBelow(b, bs, rs, n, depth) <==> b == Appended(bs, rs, n)
    decreases depth
  {
    if depth > 0 {
      AppendedAtBelowIs(b, bs, rs, n, depth - 1);
    }
  }

  lemma AppendedAtIs(b: seq<Board>, bs: seq<Board>, rs: seq<Board>, n: nat)
    requires n <= |rs|
    ensures AppendedAt(b, bs, rs, n) <==> b == Appended(bs, rs, n)
  {
    AppendedAtBelowIs(b, bs, rs, n, n + 1);
  }

  /** One more board offered. */
  lemma AppendedAtStep(b: seq<Board>, b': seq<Board>, bs: seq<Board>, rs: seq<Board>, n: nat)
    requires n < |rs| && AppendedAt(b, bs, rs, n)
    requires b' == if rs[n] in b then b else b + [rs[n]]
    ensures AppendedAt(b', bs, rs, n + 1)
  {
    AppendedAtIs(b, bs, rs, n);
    AppendedAtIs(b', bs, rs, n + 1);
  }

  /** `Appended` adds on to what is already there. */
  lemma {:induction false} AppendedGrows(bs: seq<Board>, rs: seq<Board>, n: nat, m: nat)
    requires m <= n <= |rs|
    ensures |Appended(bs, rs, m)| <= |Appended(bs, rs, n)| && Appended(bs, rs, n)[..|Appended(bs, rs, m)|] == Appended(bs, rs, m)
    decreases n
  {
    if m < n {
      AppendedGrows(bs, rs, n - 1, m);
    }
  }

  /** Every offered board ends up in the list. */
  lemma {:induction false} AppendedContains(bs: seq<Board>, rs: seq<Board>, n: nat, k: nat)
    requires k < n <= |rs|
    ensures rs[k] in Appended(bs, rs, n)
    decreases n
  {
    if k < n - 1 {
      AppendedContains(bs, rs, n - 1, k);
    }
  }

  /** Every appended board is one of the offered ones. */
  lemma {:induction false} AppendedFrom(bs: seq<Board>, rs: seq<Board>, n: nat, e: nat) returns (k: nat)
    requires n <= |rs| && |bs| <= e < |Appended(bs, rs, n)|
    ensures k < n && Appended(bs, rs, n)[e] == rs[k]
    decreases n
  {
    var a := Appended(bs, rs, n - 1);
    if e < |a| {
      k := AppendedFrom(bs, rs, n - 1, e);
    } else {
      k := n - 1;
    }
  }

  /** Appending only boards not already present keeps the boards unique. */
  lemma {:induction false} AppendedUnique(bs: seq<Board>, rs: seq<Board>, n: nat)
    requires n <= |rs| && Unique(bs)
    ensures Unique(Appended(bs, rs, n))
    decreases n
  {
    if n > 0 {
      AppendedUnique(bs, rs, n - 1);
    }
  }

  /** `nodes'` extends `nodes` by entries whose parent is entry `ci`. */
  predicate Grown(nodes: seq<AttainablePosition>, nodes': seq<AttainablePosition>, ci: nat)
  {
    |nodes| <= |nodes'| && nodes'[..|nodes|] == nodes &&
    forall e :: |nodes| <= e < |nodes'| ==> nodes'[e].parentIndex == ci
  }

  /** Entry list and boards after one more offered successor. */
  lemma HoldsAppend(nodes: seq<AttainablePosition>, boards: seq<Board>, S: nat, V: nat, node: AttainablePosition)
    requires Holds(nodes, boards, S, V)
    requires node.position.suitCount == S && node.position.valueCount == V
    requires node.position.tableau != node.position.holeIndices
    ensures Holds(nodes + [node], boards + [node.position.Contents()], S, V)
  {
    var nodes', boards' := nodes + [node], boards + [node.position.Contents()];
    forall e | 0 <= e < |nodes'|
      ensures nodes'[e].position.suitCount == S && nodes'[e].position.valueCount == V &&
        nodes'[e].position.tableau != nodes'[e].position.holeIndices &&
        nodes'[e].position.Contents() == boards'[e]
    {
      if e < |nodes| {
        assert nodes'[e] == nodes[e] && boards'[e] == boards[e];
      }
    }
  }

  /**
   * Whether `sub` is already listed: the scan runs from the last entry back
   * to entry 0 and stops at the first `EqualTo`.
   */
  method Attained(sub: PretzelPosition, nodes: seq<AttainablePosition>, ghost boards: seq<Board>, ghost S: nat, ghost V: nat)
    returns (positionFound: bool)
    requires Holds(nodes, boards, S, V) && Solver.AllValid(boards, S, V) && ValidBoard(sub.Contents(), S, V)
    ensures positionFound <==> sub.Contents() in boards
  {
    positionFound := false;
    var j := |nodes| - 1;
    while !positionFound && j >= 0
      invariant -1 <= j < |nodes|
      invariant positionFound <==> exists k :: j < k < |nodes| && boards[k] == sub.Contents()
    {
      assert ValidBoard(boards[j], S, V);
      var equal := sub.EqualTo(nodes[j].position);
      if equal {
        positionFound := true;
      }
      j := j - 1;
    }
  }

  /**
   * The successors of entry `ci`, offered in order: each whose board is not
   * yet listed is appended with parent `ci`.
   */
  method Expand(nodes: seq<AttainablePosition>, ghost boards: seq<Board>, ci: nat, subsequentPositions: seq<PretzelPosition>,
                ghost S: nat, ghost V: nat)
    returns (nodes': seq<AttainablePosition>, ghost boards': seq<Board>)
    requires ci < |nodes| && Holds(nodes, boards, S, V) && Solver.AllValid(boards, S, V)
    requires Models(subsequentPositions, Next(boards[ci], S, V), S, V)
    requires forall k :: 0 <= k < |subsequentPositions| ==> subsequentPositions[k].tableau != subsequentPositions[k].holeIndices
    ensures Holds(nodes', boards', S, V) && Solver.AllValid(boards', S, V) && Grown(nodes, nodes', ci)
    ensures boards' == Appended(boards, Next(boards[ci], S, V), |Next(boards[ci], S, V)|)
  {
    nodes', boards' := nodes, boards;
    AppendedAtIs(boards', boards, Next(boards[ci], S, V), 0);
    for i := 0 to |subsequentPositions|
      invariant Holds(nodes', boards', S, V) && Solver.AllValid(boards', S, V) && Grown(nodes, nodes', ci)
      invariant AppendedAt(boards', boards, Next(boards[ci], S, V), i)
    {
      nodes', boards' := Offer(nodes', boards', ci, subsequentPositions, i, nodes, boards, S, V);
    }
    AppendedAtIs(boards', boards, Next(boards[ci], S, V), |subsequentPositions|);
  }

  /** One turn of the expansion loop: successor `i` is appended with parent `ci` unless its board is already listed. */
  method Offer(nodes: seq<AttainablePosition>, ghost boards: seq<Board>, ci: nat, subsequentPositions: seq<PretzelPosition>, i: nat,
               ghost nodes0: seq<AttainablePosition>, ghost boards0: seq<Board>, ghost S: nat, ghost V: nat)
    returns (nodes': seq<AttainablePosition>, ghost boards': seq<Board>)
    requires ci < |boards0| && Solver.AllValid(boards0, S, V) && i < |subsequentPositions|
    requires Models(subsequentPositions, Next(boards0[ci], S, V), S, V)
    requires forall k :: 0 <= k < |subsequentPositions| ==> subsequentPositions[k].tableau != subsequentPositions[k].holeIndices
    requires Holds(nodes, boards, S, V) && Solver.AllValid(boards, S, V) && Grown(nodes0, nodes, ci)
    requires AppendedAt(boards, boards0, Next(boards0[ci], S, V), i)
    ensures Holds(nodes', boards', S, V) && Solver.AllValid(boards', S, V) && Grown(nodes0, nodes', ci)
    ensures AppendedAt(boards', boards0, Next(boards0[ci], S, V), i + 1)
  {
    ghost var rs := Next(boards0[ci], S, V);
    var sub := subsequentPositions[i];
    assert sub.Contents() == rs[i];
    NextIsValid(boards0[ci], S, V, rs[i]);
    var positionFound := Attained(sub, nodes, boards, S, V);
    nodes', boards' := nodes, boards;
    if !positionFound {
      HoldsAppend(nodes, boards, S, V, AttainablePosition(sub, ci));
      nodes', boards' := nodes + [AttainablePosition(sub, ci)], boards + [sub.Contents()];
    }
    GrownStep(nodes0, nodes, nodes', ci);
    AppendedAtStep(boards, boards', boards0, rs, i);
  }

  /** `Grown` survives one more entry with parent `ci`. */
  lemma GrownStep(nodes: seq<AttainablePosition>, mid: seq<AttainablePosition>, nodes': seq<AttainablePosition>, ci: nat)
    requires Grown(nodes, mid, ci)
    requires nodes' == mid || (|nodes'| == |mid| + 1 && nodes'[..|mid|] == mid && nodes'[|mid|].parentIndex == ci)
    ensures Grown(nodes, nodes', ci)
  {
    if nodes' != mid {
      assert nodes'[..|nodes|] == mid[..|nodes|];
    }
  }

  /**
   * One turn of the search loop: entry `ci` is tested for the goal and, if
   * it is not solved, its successors are offered to the list.
   */
  method Visit(nodes: seq<AttainablePosition>, ghost boards: seq<Board>, ci: nat, ghost S: nat, ghost V: nat)
    returns (solved: bool, nodes': seq<AttainablePosition>, ghost boards': seq<Board>)
    requires Explored(nodes, boards, S, V, ci) && Holds(nodes, boards, S, V) && ci < |nodes|
    ensures solved <==> Solved(boards[ci].tableau)
    ensures solved ==> nodes' == nodes && boards' == boards
    ensures !solved ==>
      Explored(nodes', boards', S, V, ci + 1) && Holds(nodes', boards', S, V) && nodes'[0] == nodes[0]
  {
    nodes', boards' := nodes, boards;
    ExploredOpen(nodes, boards, S, V, ci);
    solved := nodes[ci].position.IsSolved();
    if !solved {
      var subsequentPositions := nodes[ci].position.GetSubsequentPositions();
      nodes', boards' := Expand(nodes, boards, ci, subsequentPositions, S, V);
      ExpandKeepsExplored(nodes, boards, nodes', boards', S, V, ci);
      assert nodes'[..|nodes|][0] == nodes[0];
    }
  }

  /** The entries and boards already listed stay where they were. */
  lemma GrownPrefix(nodes: seq<AttainablePosition>, boards: seq<Board>, nodes': seq<AttainablePosition>, boards': seq<Board>, ci: nat)
    requires Grown(nodes, nodes', ci) && |boards| <= |boards'| && boards'[..|boards|] == boards
    ensures forall e :: 0 <= e < |nodes| ==> nodes'[e] == nodes[e]
    ensures forall e :: 0 <= e < |boards| ==> boards'[e] == boards[e]
  {
    forall e | 0 <= e < |nodes| ensures nodes'[e] == nodes[e] {
      assert nodes'[..|nodes|][e] == nodes[e];
    }
    forall e | 0 <= e < |boards| ensures boards'[e] == boards[e] {
      assert boards'[..|boards|][e] == boards[e];
    }
  }

  /** The appended entries are moves from entry `ci`, so the tree stays linked. */
  lemma GrownLinked(nodes: seq<AttainablePosition>, boards: seq<Board>, nodes': seq<AttainablePosition>, boards': seq<Board>,
                    S: nat, V: nat, ci: nat)
    requires Explored(nodes, boards, S, V, ci) && ci < |nodes|
    requires |boards'| == |nodes'| && Solver.AllValid(boards', S, V) && Grown(nodes, nodes', ci)
    requires boards' == Appended(boards, Next(boards[ci], S, V), |Next(boards[ci], S, V)|)
    ensures Rooted(nodes') && Linked(nodes', boards', S, V)
    ensures forall e :: 1 <= e < |nodes'| ==> nodes'[e].parentIndex < ci + 1
  {
    ExploredOpen(nodes, boards, S, V, ci);
    var rs := Next(boards[ci], S, V);
    GrownPrefix(nodes, boards, nodes', boards', ci);
    forall e | 1 <= e < |nodes'| ensures Solver.IsMove(boards'[nodes'[e].parentIndex], boards'[e], S, V) {
      if e >= |nodes| {
        var k := AppendedFrom(boards, rs, |rs|, e);
        Solver.IsMoveIs(boards[ci], rs[k], S, V);
      }
    }
  }

  /** After entry `ci`'s successors are appended, the first `ci + 1` entries have all their successors listed near them. */
  lemma GrownNear(nodes: seq<AttainablePosition>, boards: seq<Board>, nodes': seq<AttainablePosition>, boards': seq<Board>,
                  S: nat, V: nat, ci: nat)
    requires Explored(nodes, boards, S, V, ci) && ci < |nodes|
    requires |boards'| == |nodes'| && Solver.AllValid(boards', S, V) && Grown(nodes, nodes', ci)
    requires boards' == Appended(boards, Next(boards[ci], S, V), |Next(boards[ci], S, V)|)
    ensures Near(nodes', boards', S, V, ci + 1)
  {
    ExploredOpen(nodes, boards, S, V, ci);
    var rs := Next(boards[ci], S, V);
    GrownPrefix(nodes, boards, nodes', boards', ci);
    forall e, k | 0 <= e < ci + 1 && 0 <= k < |Next(boards'[e], S, V)|
      ensures exists f :: 0 <= f < |boards'| && boards'[f] == Next(boards'[e], S, V)[k] && (f == 0 || nodes'[f].parentIndex <= e)
    {
      assert boards'[e] == boards[e];
      if e == ci {
        AppendedContains(boards, rs, |rs|, k);
        var f :| 0 <= f < |boards'| && boards'[f] == rs[k];
        assert f < |nodes| ==> nodes'[f] == nodes[f];
      } else {
        var f :| 0 <= f < |boards| && boards[f] == Next(boards[e], S, V)[k] && (f == 0 || nodes[f].parentIndex <= e);
        assert boards'[f] == boards[f] && nodes'[f] == nodes[f];
      }
    }
  }

  /** Entries appended with parent `ci`, after entries whose parents come before `ci`, keep the parents in order. */
  lemma GrownOrdered(nodes: seq<AttainablePosition>, boards: seq<Board>, nodes': seq<AttainablePosition>, S: nat, V: nat, ci: nat)
    requires Explored(nodes, boards, S, V, ci) && Grown(nodes, nodes', ci)
    ensures Ordered(nodes')
  {
    ExploredOpen(nodes, boards, S, V, ci);
    forall e, f | 1 <= e < f < |nodes'| ensures nodes'[e].parentIndex <= nodes'[f].parentIndex {
      if e < |nodes| {
        assert nodes'[..|nodes|][e] == nodes[e];
      }
      if f < |nodes| {
        assert nodes'[..|nodes|][f] == nodes[f];
      }
    }
  }

  /** Visiting an unsolved entry and appending its new successors explores one entry more. */
  lemma ExpandKeepsExplored(nodes: seq<AttainablePosition>, boards: seq<Board>, nodes': seq<AttainablePosition>, boards': seq<Board>,
                            S: nat, V: nat, ci: nat)
    requires Explored(nodes, boards, S, V, ci) && ci < |nodes| && !Solved(boards[ci].tableau)
    requires |boards'| == |nodes'| && Solver.AllValid(boards', S, V) && Grown(nodes, nodes', ci)
    requires boards' == Appended(boards, Next(boards[ci], S, V), |Next(boards[ci], S, V)|)
    ensures Explored(nodes', boards', S, V, ci + 1)
  {
    GrownLinked(nodes, boards, nodes', boards', S, V, ci);
    GrownNear(nodes, boards, nodes', boards', S, V, ci);
    GrownOrdered(nodes, boards, nodes', S, V, ci);
    GrownPassed(nodes, boards, nodes', boards', S, V, ci);
    ExploredClose(nodes', boards', S, V, ci + 1);
  }

  /** The appended boards are new and entry `ci` is not solved, so the boards stay unique and the visited ones unsolved. */
  lemma GrownPassed(nodes: seq<AttainablePosition>, boards: seq<Board>, nodes': seq<AttainablePosition>, boards': seq<Board>,
                    S: nat, V: nat, ci: nat)
    requires Explored(nodes, boards, S, V, ci) && ci < |nodes| && !Solved(boards[ci].tableau)
    requires Grown(nodes, nodes', ci)
    requires boards' == Appended(boards, Next(boards[ci], S, V), |Next(boards[ci], S, V)|)
    ensures Unique(boards') && ci + 1 <= |boards'| && Passed(boards', ci + 1)
  {
    ExploredOpen(nodes, boards, S, V, ci);
    AppendedUnique(boards, Next(boards[ci], S, V), |Next(boards[ci], S, V)|);
    GrownPrefix(nodes, boards, nodes', boards', ci);
  }

  /** Every valid board: a tableau and a hole list with entries below `S * V`. */
  ghost function Universe(S: nat, V: nat): set<Board>
  {
    set t, h | t in Tableaux(S * V, S * V) && h in Tableaux(S, S * V) :: Board(t, h)
  }

  lemma InUniverse(b: Board, S: nat, V: nat)
    requires ValidBoard(b, S, V)
    ensures b in Universe(S, V)
  {
    ValidBoardInUniverse(b, S, V);
    InTableaux(b.holes, S * V);
    assert b == Board(b.tableau, b.holes);
  }

  /** Pairwise distinct boards from `U` are no more than `U` holds. */
  lemma {:induction false} UniqueBound(bs: seq<Board>, U: set<Board>)
    requires Unique(bs) && forall e :: 0 <= e < |bs| ==> bs[e] in U
    ensures |bs| <= |U|
    decreases |bs|
  {
    if bs != [] {
      var n := |bs| - 1;
      var x := bs[n];
      assert forall e :: 0 <= e < n ==> bs[..n][e] == bs[e] && bs[e] != x;
      UniqueBound(bs[..n], U - {x});
    }
  }

  /** A list of distinct valid boards fits in the universe, which bounds the search. */
  lemma UniverseBound(nodes: seq<AttainablePosition>, boards: seq<Board>, S: nat, V: nat, visited: nat)
    requires Explored(nodes, boards, S, V, visited)
    ensures |nodes| <= |Universe(S, V)|
  {
    ExploredOpen(nodes, boards, S, V, visited);
    forall e | 0 <= e < |boards| ensures boards[e] in Universe(S, V) {
      InUniverse(boards[e], S, V);
    }
    UniqueBound(boards, Universe(S, V));
  }

  /** The search's result from its final state. */
  lemma Finish(nodes: seq<AttainablePosition>, boards: seq<Board>, S: nat, V: nat, visited: nat)
    requires Explored(nodes, boards, S, V, visited)
    ensures Tree(nodes, boards, S, V) && Unique(boards) && Passed(boards, visited) && Complete(boards, S, V, visited)
    ensures Ordered(nodes) && Near(nodes, boards, S, V, visited)
  {
    ExploredOpen(nodes, boards, S, V, visited);
    NearIsComplete(nodes, boards, S, V, visited);
  }

  /**
   * The trace back from the solved entry: every entry on the parent chain
   * counts one in a `short`, less one for the starting position.
   */
  method TraceMoves(nodes: seq<AttainablePosition>, solutionIndex: nat) returns (solutionMoveCount: int)
    requires Rooted(nodes) && solutionIndex < |nodes|
    ensures solutionMoveCount == ShortOf(Depth(nodes, solutionIndex))
  {
    solutionMoveCount := 0;
    ghost var hops: nat := 0;
    var index: int := solutionIndex;
    while index != None
      invariant index == None || 0 <= index < |nodes|
      invariant solutionMoveCount == ShortOf(hops)
      invariant index != None ==> hops + Depth(nodes, index) == Depth(nodes, solutionIndex)
      invariant index == None ==> hops == Depth(nodes, solutionIndex) + 1
      decreases index + 1
    {
      ShortSucc(hops);
      index := nodes[index].parentIndex;
      solutionMoveCount, hops := ShortOf(solutionMoveCount + 1), hops + 1;
    }
    ShortPred(hops);
    solutionMoveCount := ShortOf(solutionMoveCount - 1);
  }

  /** The parent chain of entry `e`, read from entry 0: a play of `Depth(e)` moves. */
  lemma {:induction false} SolutionPlay(nodes: seq<AttainablePosition>, boards: seq<Board>, S: nat, V: nat, e: nat)
    returns (path: seq<Board>)
    requires Tree(nodes, boards, S, V) && e < |nodes|
    ensures Solver.IsPlay(path, S, V) && |path| == Depth(nodes, e) + 1
    ensures path[0] == boards[0] && path[|path| - 1] == boards[e]
    decreases e
  {
    if e == 0 {
      path := [boards[0]];
    } else {
      var p := nodes[e].parentIndex;
      var front := SolutionPlay(nodes, boards, S, V, p);
      path := front + [boards[e]];
      assert Solver.IsMove(boards[p], boards[e], S, V);
      forall k | 0 <= k < |path| - 1 ensures ValidBoard(path[k], S, V) && Solver.IsMove(path[k], path[k + 1], S, V) {
        if k < |front| - 1 {
          assert path[k] == front[k] && path[k + 1] == front[k + 1];
        }
      }
    }
  }

  /** A list closed under moves holds every board of every play that starts in it. */
  lemma {:induction false} ClosedHoldsPlays(boards: seq<Board>, S: nat, V: nat, path: seq<Board>)
    requires Solver.AllValid(boards, S, V) && Complete(boards, S, V, |boards|)
    requires Solver.IsPlay(path, S, V) && path[0] in boards
    ensures path[|path| - 1] in boards
    decreases |path|
  {
    if |path| > 1 {
      var front := path[..|path| - 1];
      assert forall k :: 0 <= k < |front| ==> front[k] == path[k];
      ClosedHoldsPlays(boards, S, V, front);
      var b := path[|path| - 2];
      var e :| 0 <= e < |boards| && boards[e] == b;
      Solver.IsMoveIs(b, path[|path| - 1], S, V);
      var k :| 0 <= k < |Next(b, S, V)| && Next(b, S, V)[k] == path[|path| - 1];
    }
  }

  /**
   * When the search runs out: the list is closed under moves and holds no
   * solved board, so no play from the starting position reaches the goal.
   */
  lemma Unsolvable(boards: seq<Board>, S: nat, V: nat)
    requires |boards| >= 1 && Solver.AllValid(boards, S, V)
    requires Complete(boards, S, V, |boards|) && Passed(boards, |boards|)
    ensures Solver.NoSolution(boards[0], S, V)
  {
    forall path: seq<Board> | Solver.IsPlay(path, S, V) && path[0] == boards[0] ensures !Solved(path[|path| - 1].tableau) {
      ClosedHoldsPlays(boards, S, V, path);
    }
  }

  /** With parents in list order, depth never decreases along the list. */
  lemma {:induction false} DepthOrdered(nodes: seq<AttainablePosition>, e: nat, f: nat)
    requires Rooted(nodes) && Ordered(nodes) && e < |nodes| && f < |nodes|
    ensures e <= f ==> Depth(nodes, e) <= Depth(nodes, f)
    decreases f
  {
    if 0 < e < f {
      DepthOrdered(nodes, nodes[e].parentIndex, nodes[f].parentIndex);
    }
  }

  /**
   * While the boards before entry `s` are expanded, a play from the starting
   * board of fewer moves than entry `s`'s depth ends on a board listed at an
   * entry no deeper than the play is long.
   */
  lemma {:induction false} PlayListed(nodes: seq<AttainablePosition>, boards: seq<Board>, S: nat, V: nat, s: nat, path: seq<Board>)
    returns (f: nat)
    requires Tree(nodes, boards, S, V) && Ordered(nodes) && s < |nodes| && Near(nodes, boards, S, V, s)
    requires Solver.IsPlay(path, S, V) && path[0] == boards[0]
    ensures f < |nodes|
    ensures |path| - 1 < Depth(nodes, s) ==> boards[f] == path[|path| - 1] && Depth(nodes, f) <= |path| - 1
    decreases |path|
  {
    if |path| == 1 || |path| - 1 >= Depth(nodes, s) {
      f := 0;
    } else {
      var front := path[..|path| - 1];
      assert forall k :: 0 <= k < |front| ==> front[k] == path[k];
      var g := PlayListed(nodes, boards, S, V, s, front);
      DepthOrdered(nodes, s, g);
      assert g < s;
      var b, m := path[|path| - 2], path[|path| - 1];
      Solver.IsMoveIs(b, m, S, V);
      var k :| 0 <= k < |Next(b, S, V)| && Next(b, S, V)[k] == m;
      f :| 0 <= f < |boards| && boards[f] == m && (f == 0 || nodes[f].parentIndex <= g);
      if f != 0 {
        DepthOrdered(nodes, nodes[f].parentIndex, g);
      }
    }
  }

  /**
   * Breadth-first order makes the first solved entry a shortest solution:
   * every play from the starting board that reaches the goal makes at least
   * as many moves as that entry's depth.
   */
  lemma Minimal(nodes: seq<AttainablePosition>, boards: seq<Board>, S: nat, V: nat, s: nat)
    requires Tree(nodes, boards, S, V) && Ordered(nodes) && s < |nodes| && Near(nodes, boards, S, V, s) && Passed(boards, s)
    ensures Solver.NoShorterSolution(boards[0], S, V, Depth(nodes, s))
  {
    forall path: seq<Board> | Solver.IsPlay(path, S, V) && path[0] == boards[0] && Solved(path[|path| - 1].tableau)
      ensures |path| - 1 >= Depth(nodes, s)
    {
      var f := PlayListed(nodes, boards, S, V, s, path);
      DepthOrdered(nodes, s, f);
    }
  }

  /**
   * The older dedup against the trie of the later solver in shortest-path
   * mode (`Solver.Owns`: the trie indexes the tableau of every entry after
   * the first). The list rejects a successor whose whole board is listed,
   * the trie one whose tableau is. They disagree only when an entry after
   * the first has the same tableau with the holes in another order, which
   * only the list keeps, or when the successor is the starting board, which
   * only the list rejects.
   */
  lemma DedupDifference(boards: seq<Board>, owner: map<seq<int>, nat>, m: Board)
    requires |boards| >= 1 && Solver.Owns(boards, owner)
    ensures m !in boards && m.tableau in owner ==>
      exists f :: 1 <= f < |boards| && boards[f].tableau == m.tableau && boards[f].holes != m.holes
    ensures m in boards && m.tableau !in owner ==> m == boards[0]
    ensures m != boards[0] && (forall f :: 1 <= f < |boards| && boards[f].tableau == m.tableau ==> boards[f].holes == m.holes) ==>
      (m in boards <==> m.tableau in owner)
  {
    if m !in boards && m.tableau in owner {
      var f := owner[m.tableau];
      assert boards[f].holes != m.holes by {
        assert boards[f] == Board(boards[f].tableau, boards[f].holes);
      }
    }
    if m in boards {
      var f :| 0 <= f < |boards| && boards[f] == m;
      if f >= 1 {
        assert m.tableau in owner;
      }
    }
    if m != boards[0] && m.tableau in owner {
      var f := owner[m.tableau];
      if boards[f].holes == m.holes {
        assert boards[f] == m;
      }
    }
  }

  /**
   * Two valid boards of the two-suit, two-value game that the trie treats
   * as one and the list as two: one tableau, the holes in either order.
   */
  lemma HoleOrderSeparates()
    ensures var b, c := Board([0, 1, 0, 3], [0, 2]), Board([0, 1, 0, 3], [2, 0]);
      ValidBoard(b, 2, 2) && ValidBoard(c, 2, 2) && b.tableau == c.tableau && b != c
  {
    var b, c := Board([0, 1, 0, 3], [0, 2]), Board([0, 1, 0, 3], [2, 0]);
    assert ZeroAces(Identity(4), 2) == [0, 1, 0, 3];
    ValidBoardClose(b, 2, 2);
    ValidBoardClose(c, 2, 2);
  }
}
