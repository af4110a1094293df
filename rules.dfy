/**
 * The rules of Pretzel patience on values: a board is a tableau (one entry per
 * slot, 0 for a hole) and the list of hole slots, one entry per suit. Both
 * iterations of the position class in the repository implement exactly this
 * move rule and goal test; their imperative methods are proved against the
 * functions here.
 */
module Rules {
  import opened Arith
  import opened Cards
  import opened Swaps

  datatype Board = Board(tableau: seq<int>, holes: seq<int>)

  /** `S` holes, each naming an empty slot of the tableau. */
  predicate HolesInside(b: Board, S: nat) {
    |b.holes| == S &&
    forall g :: 0 <= g < S ==> 0 <= b.holes[g] < |b.tableau| && b.tableau[b.holes[g]] == NoCard
  }

  /**
   * A board reachable from a deal: `S` rows of `V` slots holding each non-Ace
   * card once and `S` holes, with the hole list naming `S` distinct empty slots
   * (`ValidBoardIs`). The card contents sit one recursion level down, so that
   * reasoning about many boards at once does not unfold them.
   */
  ghost predicate ValidBoard(b: Board, S: nat, V: nat) {
    S >= 1 && V >= 2 && |b.tableau| == S * V && HolesInside(b, S) &&
    var below := DealtBelow(b, S, V, |b.holes| + 1);
    below
  }

  /** The cards of a valid board: each dealt value once, and distinct holes. */
  ghost predicate DealtLayout(b: Board, S: nat, V: nat) {
    V > 0 && multiset(b.tableau) == Dealt(S, V) &&
    (forall g, h :: 0 <= g < h < |b.holes| ==> b.holes[g] != b.holes[h])
  }

  ghost predicate DealtBelow(b: Board, S: nat, V: nat, depth: nat)
    decreases depth
  {
    if depth == 0 then DealtLayout(b, S, V) else DealtBelow(b, S, V, depth - 1)
  }

  lemma {:induction false} DealtBelowIs(b: Board, S: nat, V: nat, depth: nat)
    ensures DealtBelow(b, S, V, depth) <==> DealtLayout(b, S, V)
    decreases depth
  {
    if depth > 0 {
      DealtBelowIs(b, S, V, depth - 1);
    }
  }

  /** A valid board holds the dealt cards and distinct holes. */
  lemma ValidBoardOpen(b: Board, S: nat, V: nat)
    requires ValidBoard(b, S, V)
    ensures DealtLayout(b, S, V)
  {
    DealtBelowIs(b, S, V, |b.holes| + 1);
  }

  /** A board of the right shape holding the dealt cards and distinct holes is valid. */
  lemma ValidBoardClose(b: Board, S: nat, V: nat)
    requires S >= 1 && V >= 2 && |b.tableau| == S * V && HolesInside(b, S) && DealtLayout(b, S, V)
    ensures ValidBoard(b, S, V)
  {
    DealtBelowIs(b, S, V, |b.holes| + 1);
  }

  /**
   * The card that may move into the hole of row group `g`, or `NoCard`: at the
   * start of a row the 2 of that row's suit (id `hole + 1`); behind another hole
   * nothing; otherwise the successor of the card to the left, unless that card
   * is the last of its suit.
   */
  function Wanted(b: Board, V: nat, g: nat): int
    requires V > 0 && g < |b.holes| && 0 <= b.holes[g] < |b.tableau|
  {
    var hole := b.holes[g];
    if hole % V == 0 then hole + 1
    else if b.tableau[hole - 1] == NoCard then NoCard
    else if b.tableau[hole - 1] % V < V - 1 then b.tableau[hole - 1] + 1
    else NoCard
  }

  /**
   * The game's rule, stated on suits and ranks: card `c` may fill `hole` when
   * the hole starts a row and `c` is the rank-1 card of that row's suit, or when
   * the slot to the left holds a card and `c` is the next rank of the same suit.
   */
  ghost predicate Fits(b: Board, V: nat, hole: int, c: int)
    requires V > 0 && 0 <= hole < |b.tableau|
  {
    if hole % V == 0 then c / V == hole / V && c % V == 1
    else
      var left := b.tableau[hole - 1];
      left != NoCard && c / V == left / V && c % V == left % V + 1
  }

  /** The first slot of `s` holding `x`, or -1 (`Array.IndexOf`). */
  function IndexOf(s: seq<int>, x: int): (i: int)
    ensures -1 <= i < |s|
    ensures i >= 0 ==> s[i] == x
    ensures i == -1 <==> x !in s
  {
    if s == [] then -1
    else if s[0] == x then 0
    else
      var j := IndexOf(s[1..], x);
      if j == -1 then -1 else j + 1
  }

  /** `IndexOf` finds the first occurrence. */
  lemma {:induction false} IndexOfIsFirst(s: seq<int>, x: int, k: int)
    requires 0 <= k < IndexOf(s, x)
    ensures s[k] != x
  {
    if k > 0 {
      IndexOfIsFirst(s[1..], x, k - 1);
    }
  }

  lemma ValidBoardValues(b: Board, S: nat, V: nat, i: int)
    requires ValidBoard(b, S, V) && 0 <= i < |b.tableau|
    ensures 0 <= b.tableau[i] < S * V
    ensures b.tableau[i] == NoCard || IsNonAce(b.tableau[i], S, V)
  {
    ValidBoardOpen(b, S, V);
    assert b.tableau[i] in multiset(b.tableau);
    DealtRange(S, V, b.tableau[i]);
    DealtMembers(S, V, b.tableau[i]);
  }

  /**
   * The wanted card is exactly the card the rule lets into the hole; it is never
   * an Ace, so on a valid board it is present and `IndexOf` finds it.
   */
  lemma WantedFits(b: Board, S: nat, V: nat, g: nat)
    requires ValidBoard(b, S, V) && g < S
    ensures forall c :: c >= 0 ==> (Fits(b, V, b.holes[g], c) <==> c == Wanted(b, V, g) && c != NoCard)
    ensures Wanted(b, V, g) != NoCard ==> IsNonAce(Wanted(b, V, g), S, V) && Wanted(b, V, g) in b.tableau
  {
    var hole := b.holes[g];
    var w := Wanted(b, V, g);
    Split(hole, V);
    if hole % V != 0 {
      ValidBoardValues(b, S, V, hole - 1);
    }
    RankDeterminesCard(b, V, g);
    if w != NoCard {
      if hole % V == 0 {
        QuotientBelow(hole, V, S);
        NextRankInDeck(hole / V, 1, S, V);
      } else {
        var left := b.tableau[hole - 1];
        Split(left, V);
        QuotientBelow(left, V, S);
        NextRankInDeck(left / V, left % V + 1, S, V);
      }
      DealtMembers(S, V, w);
      ValidBoardOpen(b, S, V);
      assert w in multiset(b.tableau);
    }
  }

  /** Rank `r > 0` of suit `q` is a non-Ace card of the deck. */
  lemma NextRankInDeck(q: int, r: int, S: nat, V: nat)
    requires 0 <= q < S && 1 <= r < V
    ensures IsNonAce(q * V + r, S, V)
  {
    DivModUnique(q * V + r, V, q, r);
    GridIndexInRange(q, V, r, S);
    MulNonNegative(q, V);
  }

  /** Suit and rank determine a card id, so at most one card fits a hole. */
  lemma RankDeterminesCard(b: Board, V: nat, g: nat)
    requires V > 1 && g < |b.holes| && 0 <= b.holes[g] < |b.tableau|
    requires b.holes[g] % V != 0 ==> b.tableau[b.holes[g] - 1] >= 0
    ensures forall c :: c >= 0 ==> (Fits(b, V, b.holes[g], c) <==> c == Wanted(b, V, g) && c != NoCard)
  {
    var hole := b.holes[g];
    forall c | c >= 0
      ensures Fits(b, V, hole, c) <==> c == Wanted(b, V, g) && c != NoCard
    {
      if hole % V == 0 {
        SuccessorCard(hole, V, c);
      } else {
        var left := b.tableau[hole - 1];
        if left != NoCard {
          SuccessorCard(left, V, c);
        }
      }
    }
  }

  /** Card `c` is the next rank of `k`'s suit exactly when it is `k + 1` and `k` is not a suit's last card. */
  lemma SuccessorCard(k: int, V: nat, c: int)
    requires V > 1 && k >= 0 && c >= 0
    ensures c / V == k / V && c % V == k % V + 1 <==> c == k + 1 && k % V < V - 1
  {
    Split(c, V);
    Split(k, V);
    if c == k + 1 && k % V < V - 1 {
      DivModUnique(c, V, k / V, k % V + 1);
    }
  }

  /** Every card wanted by one of the first `n` holes is on the board. */
  predicate WantedPresent(b: Board, S: nat, V: nat, n: nat)
    requires V > 0 && HolesInside(b, S) && n <= S
  {
    n == 0 ||
    (WantedPresent(b, S, V, n - 1) && (Wanted(b, V, n - 1) != NoCard ==> Wanted(b, V, n - 1) in b.tableau))
  }

  /**
   * What the move generator relies on: holes inside the tableau, and every
   * wanted card present in it. Every valid board is playable (`ValidIsPlayable`).
   */
  predicate Playable(b: Board, S: nat, V: nat) {
    V > 0 && HolesInside(b, S) && WantedPresent(b, S, V, S)
  }

  lemma {:induction false} WantedPresentAt(b: Board, S: nat, V: nat, n: nat, g: nat)
    requires V > 0 && HolesInside(b, S) && n <= S && WantedPresent(b, S, V, n) && g < n
    ensures Wanted(b, V, g) != NoCard ==> Wanted(b, V, g) in b.tableau
  {
    if g < n - 1 {
      WantedPresentAt(b, S, V, n - 1, g);
    }
  }

  lemma {:induction false} ValidWantedPresent(b: Board, S: nat, V: nat, n: nat)
    requires ValidBoard(b, S, V) && n <= S
    ensures HolesInside(b, S) && WantedPresent(b, S, V, n)
  {
    if n > 0 {
      ValidWantedPresent(b, S, V, n - 1);
      WantedFits(b, S, V, n - 1);
    }
  }

  lemma ValidIsPlayable(b: Board, S: nat, V: nat)
    requires ValidBoard(b, S, V)
    ensures Playable(b, S, V)
  {
    ValidWantedPresent(b, S, V, S);
  }

  /** The board after the hole of row group `g` receives its wanted card. */
  function Move(b: Board, S: nat, V: nat, g: nat): (r: Board)
    requires Playable(b, S, V) && g < S && Wanted(b, V, g) != NoCard
    ensures |r.tableau| == |b.tableau| && |r.holes| == |b.holes|
  {
    WantedPresentAt(b, S, V, S, g);
    Exchange(b, g, IndexOf(b.tableau, Wanted(b, V, g)))
  }

  /** The hole of group `g` takes the card at `idx`, and `idx` becomes that group's hole. */
  function Exchange(b: Board, g: nat, idx: int): Board
    requires g < |b.holes| && 0 <= b.holes[g] < |b.tableau| && 0 <= idx < |b.tableau|
  {
    Board(b.tableau[b.holes[g] := b.tableau[idx]][idx := NoCard], b.holes[g := idx])
  }

  lemma MoveKeepsValid(b: Board, S: nat, V: nat, g: nat, idx: int)
    requires ValidBoard(b, S, V) && g < S && 0 <= idx < |b.tableau|
    requires b.tableau[idx] != NoCard
    ensures ValidBoard(Exchange(b, g, idx), S, V)
    ensures multiset(Exchange(b, g, idx).tableau) == multiset(b.tableau)
  {
    var r := Exchange(b, g, idx);
    var hole := b.holes[g];
    ValidBoardOpen(b, S, V);
    assert r.tableau == Swap(b.tableau, hole, idx);
    SwapPermutes(b.tableau, hole, idx);
    forall h | 0 <= h < S && h != g ensures b.holes[h] != idx && b.holes[h] != hole {
    }
    ValidBoardClose(r, S, V);
  }

  /** A move leads from a valid board to a valid board holding the same cards. */
  lemma MoveIsValid(b: Board, S: nat, V: nat, g: nat)
    requires ValidBoard(b, S, V) && g < S && Wanted(b, V, g) != NoCard
    ensures Playable(b, S, V)
    ensures ValidBoard(Move(b, S, V, g), S, V)
    ensures multiset(Move(b, S, V, g).tableau) == multiset(b.tableau)
  {
    ValidIsPlayable(b, S, V);
    WantedFits(b, S, V, g);
    MoveKeepsValid(b, S, V, g, IndexOf(b.tableau, Wanted(b, V, g)));
  }

  /**
   * What a move changes: the hole now holds the wanted card, the card's old
   * slot is the new hole of group `g`, and no other slot or hole changes.
   */
  lemma MoveEffect(b: Board, S: nat, V: nat, g: nat)
    requires Playable(b, S, V) && g < S && Wanted(b, V, g) != NoCard
    ensures var r := Move(b, S, V, g);
      && 0 <= r.holes[g] < |r.tableau|
      && r.tableau[b.holes[g]] == Wanted(b, V, g)
      && b.tableau[r.holes[g]] == Wanted(b, V, g) && r.tableau[r.holes[g]] == NoCard
      && (forall k :: 0 <= k < |b.tableau| && k != b.holes[g] && k != r.holes[g] ==> r.tableau[k] == b.tableau[k])
      && (forall h :: 0 <= h < S && h != g ==> r.holes[h] == b.holes[h])
  {
    WantedPresentAt(b, S, V, S, g);
  }

  /** The successor for group `g`, if its hole wants a card. */
  function MoveAt(b: Board, S: nat, V: nat, g: nat): seq<Board>
    requires Playable(b, S, V) && g < S
  {
    if Wanted(b, V, g) == NoCard then [] else [Move(b, S, V, g)]
  }

  /** The successors the first `n` row groups produce, in group order. */
  function SuccessorsUpTo(b: Board, S: nat, V: nat, n: nat): (rs: seq<Board>)
    requires Playable(b, S, V) && n <= S
    ensures |rs| <= n
  {
    if n == 0 then [] else SuccessorsUpTo(b, S, V, n - 1) + MoveAt(b, S, V, n - 1)
  }

  /** Every position one legal move away from `b`, one per hole that wants a card. */
  function Successors(b: Board, S: nat, V: nat): seq<Board>
    requires Playable(b, S, V)
  {
    SuccessorsUpTo(b, S, V, S)
  }

  /** The row groups among the first `n` whose hole wants a card. */
  ghost function WantingGroups(b: Board, S: nat, V: nat, n: nat): set<nat>
    requires Playable(b, S, V) && n <= S
  {
    set g: nat | g < n && Wanted(b, V, g) != NoCard
  }

  /** `r` is the outcome of filling the hole of group `g`. */
  predicate IsMove(b: Board, S: nat, V: nat, g: nat, r: Board)
    requires Playable(b, S, V)
  {
    g < S && Wanted(b, V, g) != NoCard && r == Move(b, S, V, g)
  }

  /** The outcome of every hole that wants a card is among the successors. */
  lemma {:induction false} MoveIsSuccessor(b: Board, S: nat, V: nat, n: nat, g: nat)
    requires Playable(b, S, V) && n <= S && g < n && Wanted(b, V, g) != NoCard
    ensures Move(b, S, V, g) in SuccessorsUpTo(b, S, V, n)
  {
    SuccessorsStep(b, S, V, n);
    if g < n - 1 {
      MoveIsSuccessor(b, S, V, n - 1, g);
    }
  }

  /** Every successor is the outcome of a hole that wants a card; `g` names that hole's group. */
  lemma {:induction false} SuccessorGroup(b: Board, S: nat, V: nat, n: nat, r: Board) returns (g: nat)
    requires Playable(b, S, V) && n <= S && r in SuccessorsUpTo(b, S, V, n)
    ensures g < n && IsMove(b, S, V, g, r)
  {
    assert n > 0;
    SuccessorsStep(b, S, V, n);
    if IsMove(b, S, V, n - 1, r) {
      g := n - 1;
    } else {
      g := SuccessorGroup(b, S, V, n - 1, r);
    }
  }

  /** There is one successor for every group whose hole wants a card. */
  lemma {:induction false} SuccessorsUpToCount(b: Board, S: nat, V: nat, n: nat)
    requires Playable(b, S, V) && n <= S
    ensures |SuccessorsUpTo(b, S, V, n)| == |WantingGroups(b, S, V, n)|
  {
    if n > 0 {
      var inc := if Wanted(b, V, n - 1) == NoCard then 0 else 1;
      SuccessorsUpToCount(b, S, V, n - 1);
      SuccessorsStepLength(b, S, V, n);
      WantingStep(b, S, V, n);
      assert |SuccessorsUpTo(b, S, V, n)| == |SuccessorsUpTo(b, S, V, n - 1)| + inc;
      assert |WantingGroups(b, S, V, n)| == |WantingGroups(b, S, V, n - 1)| + inc;
    } else {
      assert WantingGroups(b, S, V, n) == {};
    }
  }

  lemma WantingStep(b: Board, S: nat, V: nat, n: nat)
    requires Playable(b, S, V) && 0 < n <= S
    ensures |WantingGroups(b, S, V, n)| == |WantingGroups(b, S, V, n - 1)| + (if Wanted(b, V, n - 1) == NoCard then 0 else 1)
  {
    var prev := WantingGroups(b, S, V, n - 1);
    if Wanted(b, V, n - 1) == NoCard {
      assert WantingGroups(b, S, V, n) == prev;
    } else {
      assert WantingGroups(b, S, V, n) == prev + {n - 1};
    }
  }

  lemma SuccessorsStepLength(b: Board, S: nat, V: nat, n: nat)
    requires Playable(b, S, V) && 0 < n <= S
    ensures |SuccessorsUpTo(b, S, V, n)| == |SuccessorsUpTo(b, S, V, n - 1)| + (if Wanted(b, V, n - 1) == NoCard then 0 else 1)
  {
    SuccessorsStep(b, S, V, n);
  }

  lemma SuccessorsStep(b: Board, S: nat, V: nat, n: nat)
    requires Playable(b, S, V) && 0 < n <= S
    ensures SuccessorsUpTo(b, S, V, n) ==
      SuccessorsUpTo(b, S, V, n - 1) + (if Wanted(b, V, n - 1) == NoCard then [] else [Move(b, S, V, n - 1)])
  {
  }

  /** Every successor of a valid board is valid and holds the same cards. */
  lemma SuccessorsAreValid(b: Board, S: nat, V: nat, r: Board)
    requires ValidBoard(b, S, V)
    requires Playable(b, S, V) && r in Successors(b, S, V)
    ensures ValidBoard(r, S, V) && multiset(r.tableau) == multiset(b.tableau)
  {
    var g := SuccessorGroup(b, S, V, S, r);
    MoveIsValid(b, S, V, g);
  }

  /** A board is a successor exactly when some hole's wanted card moved into it. */
  lemma SuccessorsAreMoves(b: Board, S: nat, V: nat, r: Board)
    requires Playable(b, S, V)
    ensures r in Successors(b, S, V) <==> exists g: nat :: g < S && IsMove(b, S, V, g, r)
    ensures |Successors(b, S, V)| == |WantingGroups(b, S, V, S)|
  {
    if r in Successors(b, S, V) {
      var g := SuccessorGroup(b, S, V, S, r);
    }
    if exists g: nat :: g < S && IsMove(b, S, V, g, r) {
      var g: nat :| g < S && IsMove(b, S, V, g, r);
      MoveIsSuccessor(b, S, V, S, g);
    }
    SuccessorsUpToCount(b, S, V, S);
  }

  /**
   * The boards one move away from a valid board (which is always playable),
   * in hole order: its `Successors` (`NextIsSuccessors`), reached through
   * `Layered` so that reasoning about the search does not unfold the move
   * generation.
   */
  ghost function Next(b: Board, S: nat, V: nat): seq<Board>
    requires ValidBoard(b, S, V)
  {
    Layered(b, S, V, |b.tableau| + 1)
  }

  /** The successors of a valid board, `depth` recursion levels down. */
  ghost function Layered(b: Board, S: nat, V: nat, depth: nat): seq<Board>
    requires ValidBoard(b, S, V)
    decreases depth
  {
    if depth == 0 then (ValidIsPlayable(b, S, V); Successors(b, S, V)) else Layered(b, S, V, depth - 1)
  }

  lemma {:induction false} LayeredIsSuccessors(b: Board, S: nat, V: nat, depth: nat)
    requires ValidBoard(b, S, V)
    ensures Playable(b, S, V) && Layered(b, S, V, depth) == Successors(b, S, V)
    decreases depth
  {
    ValidIsPlayable(b, S, V);
    if depth > 0 {
      LayeredIsSuccessors(b, S, V, depth - 1);
    }
  }

  /** The boards one move away are the successors of the move generation. */
  lemma NextIsSuccessors(b: Board, S: nat, V: nat)
    requires ValidBoard(b, S, V)
    ensures Playable(b, S, V) && Next(b, S, V) == Successors(b, S, V)
  {
    LayeredIsSuccessors(b, S, V, |b.tableau| + 1);
  }

  /** A move keeps a board valid. */
  lemma NextIsValid(b: Board, S: nat, V: nat, r: Board)
    requires ValidBoard(b, S, V) && r in Next(b, S, V)
    ensures ValidBoard(r, S, V)
  {
    NextIsSuccessors(b, S, V);
    SuccessorsAreValid(b, S, V, r);
  }

  /** The goal: every slot is a hole or holds card `i + 1`. */
  predicate Solved(t: seq<int>) {
    forall i :: 0 <= i < |t| ==> t[i] == NoCard || t[i] == i + 1
  }

  /** The unique solved layout: card `c` at slot `c - 1`, holes where `i + 1` would be an Ace. */
  function SolvedLayout(S: nat, V: nat): (t: seq<int>)
    requires V > 0
    ensures |t| == S * V
  {
    seq(S * V, i => if (i + 1) % V == 0 then NoCard else i + 1)
  }

  /** The solved layout is a valid deal outcome: it holds exactly the dealt values. */
  lemma SolvedLayoutIsDealt(S: nat, V: nat)
    requires S >= 1 && V >= 2
    ensures multiset(SolvedLayout(S, V)) == Dealt(S, V) && Solved(SolvedLayout(S, V))
  {
    var z := ZeroAces(Identity(S * V), V);
    var t := SolvedLayout(S, V);
    MulAtLeast(V, S);
    MultipleMod(S, V);
    assert t == z[1..] + [z[0]];
    assert z == [z[0]] + z[1..];
  }

  /** On a valid board the goal test admits exactly one tableau. */
  lemma SolvedIsUnique(b: Board, S: nat, V: nat)
    requires ValidBoard(b, S, V)
    ensures Solved(b.tableau) <==> b.tableau == SolvedLayout(S, V)
  {
    if Solved(b.tableau) {
      forall i | 0 <= i < |b.tableau| ensures b.tableau[i] == SolvedLayout(S, V)[i] {
        SolvedSlot(b, S, V, i);
      }
    }
  }

  lemma SolvedSlot(b: Board, S: nat, V: nat, i: int)
    requires ValidBoard(b, S, V) && Solved(b.tableau) && 0 <= i < |b.tableau|
    ensures b.tableau[i] == if (i + 1) % V == 0 then NoCard else i + 1
  {
    var t := b.tableau;
    ValidBoardOpen(b, S, V);
    if (i + 1) % V != 0 && i + 1 < S * V {
      // card i + 1 is dealt, so it sits somewhere, and only slot i may hold it
      DealtMembers(S, V, i + 1);
      assert i + 1 in multiset(t);
      var j :| 0 <= j < |t| && t[j] == i + 1;
      assert t[j] == j + 1;
    } else {
      ValidBoardValues(b, S, V, i);
      MultipleMod(S, V);
    }
  }

  /** Every sequence of `L` entries drawn from `[0, N)`. */
  ghost function Tableaux(L: nat, N: nat): set<seq<int>>
  {
    if L == 0 then {[]} else set t, x | t in Tableaux(L - 1, N) && 0 <= x < N :: [x] + t
  }

  lemma {:induction false} InTableaux(t: seq<int>, N: nat)
    requires forall i :: 0 <= i < |t| ==> 0 <= t[i] < N
    ensures t in Tableaux(|t|, N)
  {
    if t != [] {
      InTableaux(t[1..], N);
      assert t == [t[0]] + t[1..];
    }
  }

  /** Every valid tableau lies in one finite universe, which bounds any search. */
  lemma ValidBoardInUniverse(b: Board, S: nat, V: nat)
    requires ValidBoard(b, S, V)
    ensures b.tableau in Tableaux(S * V, S * V)
  {
    forall i | 0 <= i < |b.tableau| ensures 0 <= b.tableau[i] < S * V {
      ValidBoardValues(b, S, V, i);
    }
    InTableaux(b.tableau, S * V);
  }

  /** The slots of `t` holding `x`. */
  ghost function SlotsOf(t: seq<int>, x: int): set<int>
  {
    set i | 0 <= i < |t| && t[i] == x
  }

  /** `x` fills as many slots of `t` as `t` holds copies of it. */
  lemma {:induction false} SlotsOfCount(t: seq<int>, x: int)
    ensures |SlotsOf(t, x)| == multiset(t)[x]
    decreases |t|
  {
    if t != [] {
      var n := |t| - 1;
      var init := t[..n];
      SlotsOfCount(init, x);
      assert t == init + [t[n]];
      assert SlotsOf(t, x) == SlotsOf(init, x) + (if t[n] == x then {n} else {});
    }
  }

  /**
   * The holes of a valid board are all of its empty slots: a dealt tableau
   * has one empty slot per suit, and the `S` holes are distinct empty slots.
   */
  lemma HolesAreEmptySlots(b: Board, S: nat, V: nat, i: int)
    requires ValidBoard(b, S, V) && 0 <= i < |b.tableau| && b.tableau[i] == NoCard
    ensures i in b.holes
  {
    ValidBoardOpen(b, S, V);
    DealtHoleCount(S, V);
    var empty := SlotsOf(b.tableau, NoCard);
    var holes := set x | x in b.holes;
    SlotsOfCount(b.tableau, NoCard);
    assert Distinct(b.holes);
    DistinctSetSize(b.holes);
    assert holes <= empty;
    assert empty == holes + (empty - holes);
    assert holes * (empty - holes) == {};
    assert i in empty;
  }

  /**
   * The tableaux one move away depend on the tableau alone: two valid boards
   * with the same tableau have their holes in the same slots, in some order,
   * so each move of one is a move of the other to the same tableau.
   */
  lemma SameTableauSuccessor(b: Board, c: Board, S: nat, V: nat, r: Board) returns (r': Board)
    requires ValidBoard(b, S, V) && ValidBoard(c, S, V) && b.tableau == c.tableau && r in Next(b, S, V)
    ensures r' in Next(c, S, V) && r'.tableau == r.tableau
  {
    NextIsSuccessors(b, S, V);
    NextIsSuccessors(c, S, V);
    var g := SuccessorGroup(b, S, V, S, r);
    var hole := b.holes[g];
    HolesAreEmptySlots(c, S, V, hole);
    var g': nat :| g' < S && c.holes[g'] == hole;
    SameHoleMove(b, c, S, V, g, g');
    MoveIsSuccessor(c, S, V, S, g');
    r' := Move(c, S, V, g');
  }

  /** Filling the same hole of the same tableau gives the same tableau, whichever group the hole belongs to. */
  lemma SameHoleMove(b: Board, c: Board, S: nat, V: nat, g: nat, g': nat)
    requires Playable(b, S, V) && Playable(c, S, V) && g < S && g' < S
    requires b.tableau == c.tableau && b.holes[g] == c.holes[g'] && Wanted(b, V, g) != NoCard
    ensures Wanted(c, V, g') == Wanted(b, V, g) && Move(c, S, V, g').tableau == Move(b, S, V, g).tableau
  {
  }

  /**
   * On a solved board every hole ends a row, behind the last card of its
   * suit, so no hole wants a card.
   */
  lemma SolvedHoleWantsNothing(b: Board, S: nat, V: nat, g: nat)
    requires ValidBoard(b, S, V) && Solved(b.tableau) && g < S
    ensures Wanted(b, V, g) == NoCard
  {
    var hole := b.holes[g];
    SolvedSlot(b, S, V, hole);
    ModSucc(hole, V);
    var r := hole % V;
    if r + 1 < V {
      DivModUnique(r + 1, V, 0, r + 1);
    }
    assert r == V - 1;
    SolvedSlot(b, S, V, hole - 1);
  }

  /** The goal is final: a solved board has no successors. */
  lemma SolvedHasNoMoves(b: Board, S: nat, V: nat)
    requires ValidBoard(b, S, V)
    ensures Solved(b.tableau) ==> Next(b, S, V) == []
  {
    if Solved(b.tableau) {
      NextIsSuccessors(b, S, V);
      forall g | 0 <= g < S ensures Wanted(b, V, g) == NoCard {
        SolvedHoleWantsNothing(b, S, V, g);
      }
      assert WantingGroups(b, S, V, S) == {};
      SuccessorsUpToCount(b, S, V, S);
    }
  }
}
