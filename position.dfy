/**
 * A position as the later iteration of the repository keeps it
 * (`PretzelPosition.cs`): a tableau array of card ids, 0 marking a hole, and
 * an array naming the hole slot of each suit. The methods are proved against
 * the value-level rules of module `Rules`.
 */
module Position {
  import opened Arith
  import opened Cards
  import opened Rules
  import Deck

  /** Slot indices are 16-bit signed in the source, so a tableau has at most this many slots. */
  const MaxSlots := 0x7FFF

  /**
   * What the deck constructor makes of a deck holding `s`: the Aces pulled
   * out, and the hole list naming their slots in scan order.
   */
  function DealtBoard(s: seq<int>, V: nat): Board
    requires V > 0
  {
    Board(ZeroAces(s, V), AceSlots(s, V, |s|))
  }

  /** A valid deck gives a valid board: one hole per suit, each non-Ace card once. */
  lemma DealtBoardIsValid(s: seq<int>, S: nat, V: nat)
    requires S >= 1 && V >= 2 && |s| == S * V && Dealable(s, S, V)
    ensures ValidBoard(DealtBoard(s, V), S, V)
  {
    var b := DealtBoard(s, V);
    assert s[..|s|] == s;
    AceSlotsCount(s, V, |s|);
    DealtHoleCount(S, V);
    AceSlotsIncreasing(s, V, |s|);
    forall g | 0 <= g < S ensures b.tableau[b.holes[g]] == NoCard {
      AceSlotsMembers(s, V, |s|, b.holes[g]);
      ZeroAceIsHole(s[b.holes[g]], V);
    }
    ValidBoardClose(b, S, V);
  }

  /**
   * Zeroes every Ace of `t` and lists its slots in `h`, in scan order; the
   * source does this in the deck constructor, through a hole counter.
   */
  method PullOutAces(t: array<int>, h: array<int>, V: nat)
    requires t != h && V > 0 && |AceSlots(t[..], V, t.Length)| <= h.Length
    modifies t, h
    ensures t[..] == ZeroAces(old(t[..]), V)
    ensures h[..|AceSlots(old(t[..]), V, t.Length)|] == AceSlots(old(t[..]), V, t.Length)
  {
    ghost var s := t[..];
    var holeCounter := 0;
    var i := 0;
    while i < t.Length
      invariant 0 <= i <= t.Length && holeCounter == |AceSlots(s, V, i)| <= h.Length
      invariant forall k :: 0 <= k < i ==> t[k] == ZeroAce(s[k], V)
      invariant forall k :: i <= k < t.Length ==> t[k] == s[k]
      invariant h[..holeCounter] == AceSlots(s, V, i)
    {
      AceSlotsStep(s, V, i);
      AceSlotsPrefix(s, V, i + 1, t.Length);
      if t[i] % V == 0 {
        t[i] := NoCard;
        h[holeCounter] := i;
        holeCounter := holeCounter + 1;
      }
      i := i + 1;
    }
    assert t[..] == ZeroAces(s, V);
  }

  /** Position `k` of `ps` holds board `bs[k]`, with the given suit and value counts. */
  ghost predicate Models(ps: seq<PretzelPosition>, bs: seq<Board>, S: nat, V: nat)
    reads set k | 0 <= k < |ps| :: ps[k].tableau
    reads set k | 0 <= k < |ps| :: ps[k].holeIndices
  {
    |ps| == |bs| &&
    forall k :: 0 <= k < |ps| ==>
      ps[k].suitCount == S && ps[k].valueCount == V && ps[k].Contents() == bs[k]
  }

  /** Models of two runs side by side model the joined runs. */
  lemma ModelsConcat(ps: seq<PretzelPosition>, bs: seq<Board>, qs: seq<PretzelPosition>, cs: seq<Board>, S: nat, V: nat)
    requires Models(ps, bs, S, V) && Models(qs, cs, S, V)
    ensures Models(ps + qs, bs + cs, S, V)
  {
    forall k | 0 <= k < |ps + qs|
      ensures (ps + qs)[k].suitCount == S && (ps + qs)[k].valueCount == V && (ps + qs)[k].Contents() == (bs + cs)[k]
    {
      if k >= |ps| {
        assert (ps + qs)[k] == qs[k - |ps|] && (bs + cs)[k] == cs[k - |ps|];
      }
    }
  }

  /**
   * The successors the first `n` holes produce (`ForksIs`), one recursion
   * level down, so that the loop building them does not unfold the move
   * generation.
   */
  ghost function Forks(b: Board, S: nat, V: nat, n: nat): seq<Board>
    requires Playable(b, S, V) && n <= S
  {
    ForksBelow(b, S, V, n, n + 1)
  }

  ghost function ForksBelow(b: Board, S: nat, V: nat, n: nat, depth: nat): seq<Board>
    requires Playable(b, S, V) && n <= S
    decreases depth
  {
    if depth == 0 then SuccessorsUpTo(b, S, V, n) else ForksBelow(b, S, V, n, depth - 1)
  }

  lemma {:induction false} ForksBelowIs(b: Board, S: nat, V: nat, n: nat, depth: nat)
    requires Playable(b, S, V) && n <= S
    ensures ForksBelow(b, S, V, n, depth) == SuccessorsUpTo(b, S, V, n)
    decreases depth
  {
    if depth > 0 {
      ForksBelowIs(b, S, V, n, depth - 1);
    }
  }

  lemma ForksIs(b: Board, S: nat, V: nat, n: nat)
    requires Playable(b, S, V) && n <= S
    ensures Forks(b, S, V, n) == SuccessorsUpTo(b, S, V, n)
  {
    ForksBelowIs(b, S, V, n, n + 1);
  }

  /** One more hole: its fork, if it wants a card, comes after those of the holes before it. */
  lemma ForksStep(b: Board, S: nat, V: nat, n: nat)
    requires Playable(b, S, V) && n < S
    ensures Forks(b, S, V, n + 1) == Forks(b, S, V, n) + MoveAt(b, S, V, n)
  {
    ForksIs(b, S, V, n);
    ForksIs(b, S, V, n + 1);
  }

  class PretzelPosition {
    const tableau: array<int>
    const holeIndices: array<int>
    const suitCount: nat
    const valueCount: nat

    /** The position's contents as a board value. */
    ghost function Contents(): Board
      reads tableau, holeIndices
    {
      Board(tableau[..], holeIndices[..])
    }

    /** The position is one the game can reach: a valid board that 16-bit slot indices address. */
    ghost predicate Valid()
      reads tableau, holeIndices
    {
      tableau != holeIndices && tableau.Length <= MaxSlots &&
      ValidBoard(Contents(), suitCount, valueCount)
    }

    /** What the move generation needs: separate arrays, holes inside the tableau, every wanted card present. */
    ghost predicate Movable()
      reads tableau, holeIndices
    {
      tableau != holeIndices && valueCount > 1 && Playable(Contents(), suitCount, valueCount)
    }

    /** Wraps existing arrays; nothing is copied. */
    constructor (tableau: array<int>, holeIndices: array<int>, suitCount: nat, valueCount: nat)
      ensures this.tableau == tableau && this.holeIndices == holeIndices
      ensures this.suitCount == suitCount && this.valueCount == valueCount
    {
      this.tableau := tableau;
      this.holeIndices := holeIndices;
      this.suitCount := suitCount;
      this.valueCount := valueCount;
    }

    /**
     * The initial position of a dealt deck. The tableau IS the deck's array,
     * so pulling out the Aces writes into the deck, which stays valid.
     */
    constructor FromDeck(deck: Deck.CardDeck)
      requires deck.Valid() && deck.valueCount >= 2 && deck.cards.Length <= MaxSlots
      modifies deck.cards
      ensures tableau == deck.cards && fresh(holeIndices)
      ensures suitCount == deck.suitCount && valueCount == deck.valueCount
      ensures Contents() == DealtBoard(old(deck.cards[..]), valueCount)
      ensures Valid() && deck.Valid()
    {
      var S, V := deck.suitCount, deck.valueCount;
      ghost var s := deck.cards[..];
      assert s[..|s|] == s;
      AceSlotsCount(s, V, |s|);
      DealtHoleCount(S, V);
      var h := new int[S](_ => 0);
      PullOutAces(deck.cards, h, V);
      tableau := deck.cards;
      holeIndices := h;
      suitCount := S;
      valueCount := V;
      new;
      assert holeIndices[..] == h[..|AceSlots(s, V, |s|)|];
      DealtBoardIsValid(s, S, V);
      ZeroAcesIdempotent(s, V);
    }

    /** A fork: fresh arrays with the same contents. */
    constructor Copy(previousPosition: PretzelPosition)
      ensures fresh(tableau) && fresh(holeIndices) && tableau != holeIndices
      ensures Contents() == previousPosition.Contents()
      ensures suitCount == previousPosition.suitCount && valueCount == previousPosition.valueCount
    {
      var t := new int[previousPosition.tableau.Length];
      forall k | 0 <= k < t.Length {
        t[k] := previousPosition.tableau[k];
      }
      var h := new int[previousPosition.holeIndices.Length];
      forall k | 0 <= k < h.Length {
        h[k] := previousPosition.holeIndices[k];
      }
      tableau := t;
      holeIndices := h;
      suitCount := previousPosition.suitCount;
      valueCount := previousPosition.valueCount;
      new;
      assert tableau[..] == previousPosition.tableau[..];
      assert holeIndices[..] == previousPosition.holeIndices[..];
    }

    /**
     * Every position one move away, one per hole that wants a card, in hole
     * order. Each is a fork, so this position is left as it was.
     */
    method GetSubsequentPositions() returns (newPositions: seq<PretzelPosition>)
      requires Valid()
      ensures Models(newPositions, Next(Contents(), suitCount, valueCount), suitCount, valueCount)
      ensures forall k :: 0 <= k < |newPositions| ==> newPositions[k].Valid()
      ensures forall k :: 0 <= k < |newPositions| ==>
        fresh(newPositions[k].tableau) && fresh(newPositions[k].holeIndices) &&
        newPositions[k].tableau != newPositions[k].holeIndices
    {
      NextIsSuccessors(Contents(), suitCount, valueCount);
      newPositions := SubsequentPositions();
      forall k | 0 <= k < |newPositions| ensures newPositions[k].Valid() {
        SuccessorsAreValid(Contents(), suitCount, valueCount, newPositions[k].Contents());
      }
    }

    /** The loop of `GetSubsequentPositions`, which needs no more than a movable position. */
    method SubsequentPositions() returns (newPositions: seq<PretzelPosition>)
      requires Movable()
      ensures Models(newPositions, Successors(Contents(), suitCount, valueCount), suitCount, valueCount)
      ensures forall k :: 0 <= k < |newPositions| ==>
        fresh(newPositions[k].tableau) && fresh(newPositions[k].holeIndices) &&
        newPositions[k].tableau != newPositions[k].holeIndices
    {
      ghost var b := Contents();
      newPositions := [];
      ForksIs(b, suitCount, valueCount, 0);
      var i := 0;
      while i < suitCount
        invariant 0 <= i <= suitCount
        invariant Models(newPositions, Forks(b, suitCount, valueCount, i), suitCount, valueCount)
        invariant forall k :: 0 <= k < |newPositions| ==>
          fresh(newPositions[k].tableau) && fresh(newPositions[k].holeIndices) &&
          newPositions[k].tableau != newPositions[k].holeIndices
      {
        var added := AddSubsequent(b, i);
        ForksStep(b, suitCount, valueCount, i);
        ModelsConcat(newPositions, Forks(b, suitCount, valueCount, i), added, MoveAt(b, suitCount, valueCount, i), suitCount, valueCount);
        newPositions := newPositions + added;
        i := i + 1;
      }
      ForksIs(b, suitCount, valueCount, suitCount);
    }

    /** One turn of the loop above: the fork for hole `i`, if that hole wants a card. */
    method AddSubsequent(ghost b: Board, i: nat) returns (added: seq<PretzelPosition>)
      requires tableau != holeIndices && valueCount > 1 && Playable(b, suitCount, valueCount)
      requires b == Contents() && i < suitCount
      ensures Models(added, MoveAt(b, suitCount, valueCount, i), suitCount, valueCount)
      ensures forall k :: 0 <= k < |added| ==>
        fresh(added[k].tableau) && fresh(added[k].holeIndices) && added[k].tableau != added[k].holeIndices
    {
      added := [];
      var cardNumberThatFitsHole := WantedCard(i);
      if cardNumberThatFitsHole != NoCard {
        var newPosition := Fork(i, cardNumberThatFitsHole);
        added := [newPosition];
      }
    }

    /** The card that fits the hole of suit `i`, or `NoCard`. */
    method WantedCard(i: nat) returns (cardNumberThatFitsHole: int)
      requires valueCount > 0 && HolesInside(Contents(), suitCount) && i < suitCount
      ensures cardNumberThatFitsHole == Wanted(Contents(), valueCount, i)
    {
      var hole := holeIndices[i];
      cardNumberThatFitsHole := NoCard;
      if hole % valueCount == 0 {
        cardNumberThatFitsHole := hole + 1;
      } else if tableau[hole - 1] == NoCard {
        cardNumberThatFitsHole := NoCard;
      } else if tableau[hole - 1] % valueCount < valueCount - 1 {
        cardNumberThatFitsHole := tableau[hole - 1] + 1;
      }
    }

    /** A fork with the wanted card of suit `g` moved into that suit's hole. */
    method Fork(g: nat, cardNumberThatFitsHole: int) returns (newPosition: PretzelPosition)
      requires Movable() && g < suitCount
      requires cardNumberThatFitsHole == Wanted(Contents(), valueCount, g) != NoCard
      ensures fresh(newPosition.tableau) && fresh(newPosition.holeIndices)
      ensures newPosition.tableau != newPosition.holeIndices
      ensures newPosition.suitCount == suitCount && newPosition.valueCount == valueCount
      ensures newPosition.Contents() == Move(Contents(), suitCount, valueCount, g)
    {
      WantedPresentAt(Contents(), suitCount, valueCount, suitCount, g);
      newPosition := new PretzelPosition.Copy(this);
      var indexOfCardThatFitsHole := IndexOf(newPosition.tableau[..], cardNumberThatFitsHole);
      newPosition.tableau[holeIndices[g]] := newPosition.tableau[indexOfCardThatFitsHole];
      newPosition.tableau[indexOfCardThatFitsHole] := NoCard;
      newPosition.holeIndices[g] := indexOfCardThatFitsHole;
    }

    /** The goal test: every slot `i` is a hole or holds card `i + 1`. */
    method IsSolved() returns (solved: bool)
      ensures solved == Solved(tableau[..])
    {
      solved := true;
      var i := 0;
      while solved && i < tableau.Length
        invariant 0 <= i <= tableau.Length
        invariant solved == forall k :: 0 <= k < i ==> tableau[k] == NoCard || tableau[k] == k + 1
      {
        if tableau[i] != NoCard && tableau[i] != i + 1 {
          solved := false;
        }
        i := i + 1;
      }
    }
  }
}
