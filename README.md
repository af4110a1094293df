# Pretzel solitaire solver, modelled in Dafny

Pretzel is a patience game. A deck has `S` suits of `V` values. It is dealt
into `S` rows of `V` slots and the Aces are pulled out, which leaves `S`
holes. A hole at the start of a row takes the Two of that row's suit. Any
other hole takes the next card of the suit of its left neighbour, unless
that neighbour is a hole or a King. The game is solved when every suit sits
in its own row in order: each slot `i` holds card `i + 1` or a hole.

The repository contains two iterations of the same solver, and both are
modelled.

- **The later engine** is a `Simulator` (`PretzelSolver.cs`). It shuffles a
  `CardDeck` (`CardDeck.cs`) by one of three deal types and builds a
  `PretzelPosition` (`PretzelPosition.cs`) over the deck's own array. It then
  searches the positions it can reach, breadth first, in a list of
  `PositionInfo` entries. Positions already seen are found through a trie of
  nested dictionaries, keyed by tableau.
  - Approach `ShortestPath` stops at the first solved entry.
  - `FullTree` explores everything. When a tableau comes up again, the
    current index is added to the parents of the entry that first queued
    that tableau, which is the entry whose index the trie leaf holds
    (PretzelSolver.cs:167, :180). The comment at PretzelSolver.cs:166 says
    the leaf holds the entry's own index; the code is followed here. Only
    the first parent of an entry is ever read (PretzelSolver.cs:199-204),
    so the results do not depend on where the extra parents go.
  - `RandomPlay` follows one random move per step.

  The results are the solvable flag, the `ushort` move count along the first
  parents, and the `ushort` dead-end count.
- **The older engine** is in `Program.cs`: a deck with a single shuffle, a
  position class, and a breadth-first `Solve`. `Solve` finds duplicates by
  scanning the whole list with `EqualTo`, which compares the holes and then
  the tableau. It returns the `short` move count, or -1.
- **`UtilityTypes.cs`** holds the `ushort` `Clamp` and two record shapes.

### Modules

Each module follows one source file or one concept of the program.

| module | models |
|---|---|
| `Cards` | card numbers; pulling out the Aces (`ZeroAces`); the multiset of a dealt tableau (`Dealt`) |
| `Swaps`, `Deals` | the swap passes behind the three shuffles, as functions of the random choices |
| `Randomness` | `System.Random`, as a class over an infinite stream of choices and a draw counter |
| `Deck` | `CardDeck.cs`, as a class over an `array<int>` |
| `Rules` | the move rule, the goal test and the successor order, on a `Board` value (tableau and hole list) |
| `Position` | `PretzelPosition.cs`, as a class over two arrays; its methods are proved against `Rules` |
| `Trie` | the nested-dictionary trie, as a datatype; the source's walk of it is given twice, as written and as intended |
| `Solver` | `PretzelSolver.cs`: `Simulator.Solve` and its loop, as methods |
| `Legacy` | `Program.cs`: its deck, position class and `Solve`, as classes and methods |
| `Utility` | `UtilityTypes.cs` |

### Search methods

The search methods take the list and the trie as values (`seq`, `Node`).
Beside them they carry the boards the entries hold, as ghost state.

Most source loops that change state are `while` or `for` loops in methods.
- The two search loops (`Solver.Simulator.Run`, `Legacy.PretzelPosition.Solve`)
  and the two successor loops (`Solver.RecordSuccessors`, `Legacy.Expand`)
  have a body that is one call of a method whose contract is the loop's
  invariant step.
- The other loops have ordinary bodies with their own invariants: the card
  loops of both decks, the shuffles, the Ace scan, the move loops, `EqualTo`,
  `IsSolved`, the backward scan (`Legacy.Attained`) and both move traces
  (`Solver.CountMoves`, `Legacy.TraceMoves`).
- The trie walk (PretzelSolver.cs:155-174) and the two chain builders
  (PretzelSolver.cs:131-135 and :168-171) are not loops here. They are
  recursive functions over the trie value: `Trie.AttainAsWritten` and
  `Trie.Chain`.

Termination of the breadth-first loops is proved, not assumed.
- In the later engine, the entries after the first hold pairwise different
  tableaux, all drawn from the finite set of tableaux of `S * V` cards. The
  list therefore has at most one entry more than that set has members.
- In the older engine, every board in the list is different, from the
  finite set of boards of `S * V` cards.

## Model

All source paths are under `Simulator/PretzelSolitaireSolver/`.

| member | source | states |
|---|---|---|
| Deck.CardDeck.constructor | Simulator/PretzelSolitaireSolver/CardDeck.cs:11-18 | the deck holds card ids `0 .. S*V-1` in order, it is a valid deal, and its generator has drawn nothing yet |
| Deck.CardDeck.Shuffle | Simulator/PretzelSolitaireSolver/CardDeck.cs:20-26 | the new cards are the deal `DealOf` names for the deal type: sequential suits, random suits, or the standard shuffle for any other value; the draw counter advances by that deal's number of draws; the deck stays a valid deal |
| Deck.CardDeck.ShuffleStandard | Simulator/PretzelSolitaireSolver/CardDeck.cs:28-35 | in place, the cards become the swap pass whose step `k` swaps slot `k` with a slot drawn from `[k+1, length)`; `length - 1` draws |
| Deck.CardDeck.ShuffleBySuitDealSequentially | Simulator/PretzelSolitaireSolver/CardDeck.cs:37-55 | the cards become `SequentialDeal`: suit `i`'s values are shuffled in a buffer and written to slots `j*S + i` |
| Deck.CardDeck.DealSuitsSequentially | Simulator/PretzelSolitaireSolver/CardDeck.cs:38-54 | the outer loop over suits leaves exactly `SequentialDeal` and advances the counter suit by suit |
| Deck.CardDeck.ShuffledSuitBuffer | Simulator/PretzelSolitaireSolver/CardDeck.cs:40-49 | the fresh buffer for suit `i` holds `ShuffledSuit`, the swap pass over `i*V .. i*V+V-1` |
| Deck.CardDeck.PlaceSuit | Simulator/PretzelSolitaireSolver/CardDeck.cs:51-53 | writing the buffer changes exactly column `i` of the `V` rows of `S` slots |
| Deck.CardDeck.ShuffleBySuitDealRandomly | Simulator/PretzelSolitaireSolver/CardDeck.cs:57-68 | the cards become `RandomDeal`: the sequential deal, then a swap pass inside each block of `S` slots |
| Deck.CardDeck.ShuffleEachBlock | Simulator/PretzelSolitaireSolver/CardDeck.cs:60-67 | the block loop leaves `ShuffleBlocks` of the old cards |
| Deck.ShuffleRange | Simulator/PretzelSolitaireSolver/CardDeck.cs:29-34 | a swap pass over the range `[base, base+L)` of an array leaves `SwapPassAt` with partners drawn in order, and uses `L-1` draws |
| Deck.SwapPassKeepsAces | Simulator/PretzelSolitaireSolver/CardDeck.cs:28-35 | reshuffling a deck whose Aces a position already zeroed still gives a valid deal |
| Deck.SequentialDealKeepsAces | Simulator/PretzelSolitaireSolver/CardDeck.cs:37-55 | the sequential deal is a valid deal |
| Deck.RandomDealKeepsAces | Simulator/PretzelSolitaireSolver/CardDeck.cs:57-68 | the random-suits deal is a valid deal |
| Deck.UShortIncrement | Simulator/PretzelSolitaireSolver/CardDeck.cs:15 | `++` on a `ushort` adds one below 65535 and wraps 65535 to 0 |
| Deck.CounterAfterIs | Simulator/PretzelSolitaireSolver/CardDeck.cs:15 | after `k` increments from 0, the `ushort` card counter holds `k mod 65536` |
| Deck.CounterNeverReaches | Simulator/PretzelSolitaireSolver/CardDeck.cs:15 | when the deck has 65536 or more cards, the counter is below the loop bound after any number of steps, and every multiple of 65536 steps brings it back to 0, so the loop does not end |
| Randomness.Pick | Simulator/PretzelSolitaireSolver/CardDeck.cs:30 | a draw from `Next(lo, hi)` lies in `[lo, hi)` |
| Randomness.Rng.Next | Simulator/PretzelSolitaireSolver/CardDeck.cs:30 | `Next(lo, hi)` returns the next choice of the stream, reduced into `[lo, hi)`, and counts one draw |
| Swaps.DrawnPartners | Simulator/PretzelSolitaireSolver/CardDeck.cs:29-30 | the partners a pass draws: one per slot but the last, partner `k` in `[k+1, length)`, each the `k`-th draw |
| Swaps.SwapPermutes | Simulator/PretzelSolitaireSolver/CardDeck.cs:31-33 | one swap rearranges the cards |
| Swaps.SwapPassPermutes | Simulator/PretzelSolitaireSolver/CardDeck.cs:28-35 | a whole pass rearranges the cards |
| Swaps.SwapPassKeepsDistinct | Simulator/PretzelSolitaireSolver/CardDeck.cs:28-35 | a pass over distinct cards leaves them distinct |
| Swaps.SattoloMovesEveryCard | Simulator/PretzelSolitaireSolver/CardDeck.cs:28-35 | because partner `k` is drawn above `k`, a pass over two or more distinct cards leaves no card in its slot |
| Swaps.SwapPassAtBlock | Simulator/PretzelSolitaireSolver/CardDeck.cs:60-67 | a pass on a range of slots is the pass on that slice, with the rest of the deck unchanged |
| Deals.ShuffledSuitCard | Simulator/PretzelSolitaireSolver/CardDeck.cs:40-49 | every card in suit `i`'s buffer is of suit `i` |
| Deals.SequentialDealSuits | Simulator/PretzelSolitaireSolver/CardDeck.cs:50-53 | in the sequential deal, slot `k` holds a card of suit `k mod S` |
| Deals.SequentialDealSameSuit | Simulator/PretzelSolitaireSolver/CardDeck.cs:37-55 | two slots of one suit hold different cards |
| Deals.SequentialDealIsPermutation | Simulator/PretzelSolitaireSolver/CardDeck.cs:37-55 | the sequential deal is a rearrangement of `0 .. S*V-1` |
| Deals.ShuffleBlocksBlock | Simulator/PretzelSolitaireSolver/CardDeck.cs:60-67 | after all blocks are shuffled, block `i` is the swap pass of block `i` with that block's partners |
| Deals.RandomDealIsPermutation | Simulator/PretzelSolitaireSolver/CardDeck.cs:57-68 | the random-suits deal is a rearrangement of `0 .. S*V-1` |
| Deals.RandomDealBlocks | Simulator/PretzelSolitaireSolver/CardDeck.cs:57-68 | each block of `S` slots holds the same cards as in the sequential deal, one of each suit |
| Cards.ZeroAces | Simulator/PretzelSolitaireSolver/PretzelPosition.cs:29-36 | pulling out the Aces replaces exactly the cards with value 0 by holes |
| Cards.ZeroAcesIdempotent | Simulator/PretzelSolitaireSolver/PretzelPosition.cs:29-36 | pulling out the Aces twice is pulling them out once |
| Cards.DealtHoleCount | Simulator/PretzelSolitaireSolver/PretzelPosition.cs:25-35 | a dealt tableau has exactly `S` holes, so `HoleIndices` has room for every Ace |
| Cards.DealtMembers | Simulator/PretzelSolitaireSolver/PretzelPosition.cs:29-36 | a dealt tableau holds the hole and every card that is not an Ace, and nothing else |
| Cards.AceSlotsMembers | Simulator/PretzelSolitaireSolver/PretzelPosition.cs:29-36 | the recorded holes are exactly the slots that held an Ace |
| Cards.AceSlotsIncreasing | Simulator/PretzelSolitaireSolver/PretzelPosition.cs:29-36 | the holes are recorded in scan order |
| Rules.IndexOf | Simulator/PretzelSolitaireSolver/PretzelPosition.cs:69 | `Array.IndexOf` gives a slot holding the card, or -1 exactly when the card is absent |
| Rules.IndexOfIsFirst | Simulator/PretzelSolitaireSolver/PretzelPosition.cs:69 | no earlier slot holds the card |
| Rules.WantedFits | Simulator/PretzelSolitaireSolver/PretzelPosition.cs:52-65 | on a valid board, a card fits suit `g`'s hole exactly when it is the card `Wanted` names; that card is not an Ace and lies in the tableau |
| Rules.MoveEffect | Simulator/PretzelSolitaireSolver/PretzelPosition.cs:67-72 | a move puts the wanted card in the hole and leaves a hole where the card was; every other slot and every other suit's hole are unchanged |
| Rules.MoveIsValid | Simulator/PretzelSolitaireSolver/PretzelPosition.cs:66-72 | a move keeps the board valid and rearranges its cards |
| Rules.SuccessorsAreMoves | Simulator/PretzelSolitaireSolver/PretzelPosition.cs:48-78 | a board is a successor exactly when it is one suit's move, and there is one successor per hole that wants a card |
| Rules.SuccessorsStep | Simulator/PretzelSolitaireSolver/PretzelPosition.cs:50-76 | successors come in suit order: suit `n-1`'s move, if any, follows those of suits `0 .. n-2` |
| Rules.SolvedHoleWantsNothing | Simulator/PretzelSolitaireSolver/PretzelPosition.cs:52-65 | on a solved board no hole wants a card: every hole ends a row, behind the King of its suit |
| Rules.SolvedHasNoMoves | Simulator/PretzelSolitaireSolver/PretzelPosition.cs:48-78 | a solved board has no successors |
| Rules.HolesAreEmptySlots | Simulator/PretzelSolitaireSolver/PretzelPosition.cs:23-37 | on a valid board every empty slot is one of the recorded holes |
| Rules.SameTableauSuccessor | Simulator/PretzelSolitaireSolver/PretzelPosition.cs:48-78 | two valid boards with one tableau and the holes in any order have successors with the same tableaux, which is what makes a tableau-keyed duplicate test sound |
| Rules.SolvedIsUnique | Simulator/PretzelSolitaireSolver/PretzelPosition.cs:80-90 | a valid board is solved exactly when its tableau is the one solved layout |
| Rules.SolvedLayoutIsDealt | Simulator/PretzelSolitaireSolver/PretzelPosition.cs:80-90 | the solved layout holds the cards of a deal and meets the goal test |
| Position.PretzelPosition.constructor | Simulator/PretzelSolitaireSolver/PretzelPosition.cs:16-21 | the fields are the given arrays and counts |
| Position.PretzelPosition.FromDeck | Simulator/PretzelSolitaireSolver/PretzelPosition.cs:23-37 | the tableau is the deck's own array with its Aces pulled out, the holes are the Ace slots in scan order, and the position is valid |
| Position.PullOutAces | Simulator/PretzelSolitaireSolver/PretzelPosition.cs:28-36 | the scan zeroes the Aces in place and writes the Ace slots, in order, to the front of the hole array |
| Position.DealtBoardIsValid | Simulator/PretzelSolitaireSolver/PretzelPosition.cs:23-37 | the board made from a valid deal is valid |
| Position.PretzelPosition.Copy | Simulator/PretzelSolitaireSolver/PretzelPosition.cs:39-46 | fresh, separate arrays holding the same board |
| Position.PretzelPosition.WantedCard | Simulator/PretzelSolitaireSolver/PretzelPosition.cs:52-65 | the card found for hole `i` is `Wanted` |
| Position.PretzelPosition.Fork | Simulator/PretzelSolitaireSolver/PretzelPosition.cs:67-72 | the new position is a fresh copy holding the board after suit `g`'s move |
| Position.PretzelPosition.GetSubsequentPositions | Simulator/PretzelSolitaireSolver/PretzelPosition.cs:48-78 | the new positions hold exactly the successor boards, in suit order; each is valid and separately allocated |
| Position.ForksIs | Simulator/PretzelSolitaireSolver/PretzelPosition.cs:50-76 | the moves the loop produces for holes `0 .. n-1` are the first-`n`-suits successors |
| Position.PretzelPosition.IsSolved | Simulator/PretzelSolitaireSolver/PretzelPosition.cs:80-90 | the early-exit scan returns the goal test of the tableau; the holes play no part |
| Trie.LookupChain | Simulator/PretzelSolitaireSolver/PretzelSolver.cs:130-135 | the initial chain of dictionaries holds the starting tableau with index 0 and nothing else |
| Trie.AttainSpec | Simulator/PretzelSolitaireSolver/PretzelSolver.cs:148-174 | the corrected walk never fails a cast: it finds a tableau exactly when it is stored, with its stored index; otherwise it inserts it under the index it is given and leaves every other key unchanged. The engine passes the index of the entry being expanded (PretzelSolver.cs:167) |
| Trie.AsWrittenAgrees | Simulator/PretzelSolitaireSolver/PretzelSolver.cs:148-174 | the walk as written agrees with the corrected one when every stored key that matches the prefix is a rearrangement of the new tableau |
| Trie.AsWrittenLosesLastLevelKey | Simulator/PretzelSolitaireSolver/PretzelSolver.cs:160-172 | a concrete trie on which the walk as written, diverging only at the last slot, stores a dictionary where an index belongs; the next lookup of that tableau fails the cast, where the corrected walk finds it |
| Solver.Start | Simulator/PretzelSolitaireSolver/PretzelSolver.cs:125-138 | the list holding only the starting position, with an empty trie, meets the loop's invariant |
| Solver.InsertStep | Simulator/PretzelSolitaireSolver/PretzelSolver.cs:148-174 | in the engine, where every tableau is a deal, the walk as written never fails a cast; it reports a tableau exactly when an entry after the first holds it, and otherwise indexes it under the index of the entry being expanded, which the engine passes at PretzelSolver.cs:167 |
| Solver.Record | Simulator/PretzelSolitaireSolver/PretzelSolver.cs:148-181 | a successor whose tableau is new is appended to the list and the trie; for a known one, FullTree mode adds the current index to the parents of the entry that first queued that tableau (the index the trie leaf holds), and any other mode changes nothing; the search invariant is kept |
| Solver.Queue | Simulator/PretzelSolitaireSolver/PretzelSolver.cs:176-177 | a new tableau becomes a new last entry whose parent is the current entry |
| Solver.AddPath | Simulator/PretzelSolitaireSolver/PretzelSolver.cs:178-181 | in FullTree mode the current index is added to the parents of the entry whose index the trie leaf holds, which is the entry that first queued the known tableau; any other approach leaves the list as it was |
| Solver.AddParent | Simulator/PretzelSolitaireSolver/PretzelSolver.cs:180 | only entry `i` changes, and only by one more parent at the end |
| Solver.RecordSuccessors | Simulator/PretzelSolitaireSolver/PretzelSolver.cs:148-182 | offering all successors appends exactly those whose tableau is new, first occurrence first |
| Solver.Play | Simulator/PretzelSolitaireSolver/PretzelSolver.cs:144-146 | in RandomPlay mode the chosen successor is appended with the current entry as parent |
| Solver.Expand | Simulator/PretzelSolitaireSolver/PretzelSolver.cs:147-182 | expanding an entry keeps the search invariant and only adds to the list |
| Solver.DeadEndsStep | Simulator/PretzelSolitaireSolver/PretzelSolver.cs:183-186 | an entry is added to the dead ends exactly when it is unsolved and has no successor |
| Solver.LastSolvedSpec | Simulator/PretzelSolitaireSolver/PretzelSolver.cs:139-141 | the solution index is the last solved entry visited: a later visit overwrites an earlier one in FullTree mode. `Solver.SolvedOnce` shows that FullTree never holds a second solved entry, so the last one is also the first |
| Solver.SolutionFound | Simulator/PretzelSolitaireSolver/PretzelSolver.cs:139-141 | outside FullTree, the search stops at the first solved entry |
| Solver.Simulator.Visit | Simulator/PretzelSolitaireSolver/PretzelSolver.cs:140-188 | one visit keeps the search invariant, one entry further on; outside RandomPlay it draws nothing from the generator, and in RandomPlay the entries after the first are still the picks of consecutive draws, one draw per entry |
| Solver.Simulator.Advance | Simulator/PretzelSolitaireSolver/PretzelSolver.cs:143-186 | an unsolved entry is expanded, played at random, or counted as a dead end, keeping the invariant; only a random play draws, once, and the entry it appends is the successor that draw picks from `Next(0, count)` |
| Solver.Simulator.Run | Simulator/PretzelSolitaireSolver/PretzelSolver.cs:139-189 | the loop ends with the invariant, for one of three reasons: every entry is visited, a solution stops it outside FullTree, or RandomPlay used up its fuel; the generator is untouched outside RandomPlay, and in RandomPlay every entry after the first is the pick of one draw, in order |
| Solver.CountMoves | Simulator/PretzelSolitaireSolver/PretzelSolver.cs:198-205 | the `ushort` count of first-parent hops from the solution back to entry 0, modulo 65536 |
| Solver.DepthIsPlay | Simulator/PretzelSolitaireSolver/PretzelSolver.cs:199-204 | the first-parent chain of an entry, read from entry 0, is a play of `Depth` moves |
| Solver.OwnsDistinct | Simulator/PretzelSolitaireSolver/PretzelSolver.cs:148-177 | no two entries after the first share a tableau |
| Solver.ClosedCovered | Simulator/PretzelSolitaireSolver/PretzelSolver.cs:139-189 | every successor of a visited unsolved entry has its tableau in the list |
| Solver.Finish | Simulator/PretzelSolitaireSolver/PretzelSolver.cs:139-189 | at the end: the list is a tree of plays, the dead ends are exactly the unsolved entries without moves, the solution index is right, and the breadth-first modes hold distinct tableaux and cover every successor. In those modes no solution means no play reaches the goal, and a solution's depth is the least number of moves of any winning play; in FullTree no other entry is solved |
| Solver.DepthOrdered | Simulator/PretzelSolitaireSolver/PretzelSolver.cs:176-177 | entries are queued in the order their first parents are visited, so their depth never decreases along the list |
| Solver.SolvedOnce | Simulator/PretzelSolitaireSolver/PretzelSolver.cs:139-141 | with distinct tableaux, at most one entry is solved: a solved start has no moves, and any other solved entry holds the one solved layout |
| Solver.RootSolvedAlone | Simulator/PretzelSolitaireSolver/PretzelSolver.cs:139-146 | a solved starting position is never expanded, so the list holds it alone |
| Solver.ClosedStep | Simulator/PretzelSolitaireSolver/PretzelSolver.cs:147-182 | after entry `n` is expanded, every successor of every unsolved entry up to `n` has its tableau in the list, on an entry whose first parent is no later than that entry |
| Solver.PlayCovered | Simulator/PretzelSolitaireSolver/PretzelSolver.cs:139-189 | when every successor of every entry is listed and no entry is solved, every play from the starting board ends on the tableau of a listed entry |
| Solver.Unsolvable | Simulator/PretzelSolitaireSolver/PretzelSolver.cs:139-214 | a search that listed every successor of every entry and met no solved entry proves that no play from the starting board reaches a solved board |
| Solver.PlayReaches | Simulator/PretzelSolitaireSolver/PretzelSolver.cs:139-189 | a play from the start with fewer moves than entry `s`'s depth ends on the tableau of an entry no deeper than the play |
| Solver.Minimal | Simulator/PretzelSolitaireSolver/PretzelSolver.cs:139-205 | when the breadth-first search stops at a solved entry, no winning play has fewer moves than its depth |
| Solver.PlayedStep | Simulator/PretzelSolitaireSolver/PretzelSolver.cs:144-146 | appending the successor picked by the next draw extends a random play by one entry and one draw |
| Solver.RandomPlayDetermined | Simulator/PretzelSolitaireSolver/PretzelSolver.cs:139-189 | the generator decides a random play: two plays from the same board on the same stream, from the same draw, agree entry by entry |
| Solver.Simulator.constructor | Simulator/PretzelSolitaireSolver/PretzelSolver.cs:17-33 | the simulator keeps the given generator |
| Solver.Simulator.Solve | Simulator/PretzelSolitaireSolver/PretzelSolver.cs:124-214 | the list is a tree of plays from the given position; solvable exactly when a solved entry was visited, the last one visited; moves is its first-parent depth modulo 65536, and 0 when unsolvable; the dead-end count modulo 65536; outside FullTree the solution is the first solved entry; the breadth-first modes keep distinct tableaux and cover every successor; RandomPlay keeps a chain within its fuel. In ShortestPath and FullTree: not solvable means no play from the starting board reaches a solved board, and when solvable no winning play is shorter than the solution's depth, so `moves` is the minimum modulo 65536. In FullTree the reported solved entry is the only one. Outside RandomPlay the generator's draw count is unchanged. In RandomPlay the generator has made one draw per entry after the first, and entry `e` is the successor of entry `e - 1` that draw number `e - 1` of the run picks (`Solver.RandomDraws`) |
| Legacy.CardDeck.constructor | Simulator/PretzelSolitaireSolver/Program.cs:11-18 | the deck holds card ids `0 .. S*V-1` in order and is a valid deal |
| Legacy.CardDeck.Shuffle | Simulator/PretzelSolitaireSolver/Program.cs:20-28 | a new generator's choices drive one swap pass with partners from `[k+1, length)`; the deck stays a valid deal |
| Legacy.PretzelPosition.FromDeck | Simulator/PretzelSolitaireSolver/Program.cs:38-52 | the tableau is the deck's array with its Aces pulled out, the holes are the Ace slots in scan order; valid |
| Legacy.PretzelPosition.Copy | Simulator/PretzelSolitaireSolver/Program.cs:54-61 | fresh, separate arrays holding the same board |
| Legacy.PretzelPosition.EqualTo | Simulator/PretzelSolitaireSolver/Program.cs:63-76 | true exactly when the hole lists agree and then the tableaux agree, over this position's lengths; for equal lengths exactly when the boards are equal |
| Legacy.PretzelPosition.WantedCard | Simulator/PretzelSolitaireSolver/Program.cs:82-92 | the card found for hole `i` is `Wanted` |
| Legacy.PretzelPosition.Fork | Simulator/PretzelSolitaireSolver/Program.cs:94-100 | the new position holds the board after suit `g`'s move |
| Legacy.PretzelPosition.AddSubsequent | Simulator/PretzelSolitaireSolver/Program.cs:81-101 | hole `i` contributes its move, or nothing when it wants no card |
| Legacy.PretzelPosition.SubsequentPositions | Simulator/PretzelSolitaireSolver/Program.cs:78-104 | the loop's positions hold the successors in suit order |
| Legacy.PretzelPosition.GetSubsequentPositions | Simulator/PretzelSolitaireSolver/Program.cs:78-104 | the new positions hold exactly the successor boards, in suit order; each is valid and separately allocated |
| Legacy.PretzelPosition.IsSolved | Simulator/PretzelSolitaireSolver/Program.cs:106-116 | the scan returns the goal test of the tableau |
| Legacy.Attained | Simulator/PretzelSolitaireSolver/Program.cs:143-150 | the backward scan with `EqualTo` finds the successor exactly when some entry, the first one included, holds its whole board |
| Legacy.Offer | Simulator/PretzelSolitaireSolver/Program.cs:142-154 | offering successor `i` appends it exactly when no entry holds its board |
| Legacy.Expand | Simulator/PretzelSolitaireSolver/Program.cs:140-155 | the boards become `Appended`: each successor in order, unless already listed; the new entries' parent is the current entry |
| Legacy.Visit | Simulator/PretzelSolitaireSolver/Program.cs:136-157 | a visit reports solved exactly when the entry's tableau is solved and then changes nothing; otherwise it expands the entry and the invariant holds one entry further |
| Legacy.Finish | Simulator/PretzelSolitaireSolver/Program.cs:134-158 | the loop's invariant gives a tree of plays, boards all different, no visited entry solved, and every successor of a visited entry listed |
| Legacy.UniverseBound | Simulator/PretzelSolitaireSolver/Program.cs:134 | the list never holds more entries than there are boards of `S*V` cards, so the loop ends |
| Legacy.ShortOf | Simulator/PretzelSolitaireSolver/Program.cs:162-170 | a value held in a `short` lies in `[-32768, 32767]`, and values in that range are kept |
| Legacy.ShortSucc | Simulator/PretzelSolitaireSolver/Program.cs:166 | incrementing the `short` holding `n` gives the `short` holding `n + 1` |
| Legacy.ShortPred | Simulator/PretzelSolitaireSolver/Program.cs:168 | decrementing the `short` holding `n` gives the `short` holding `n - 1` |
| Legacy.TraceMoves | Simulator/PretzelSolitaireSolver/Program.cs:161-170 | the `short` count of parent hops from the solution back to the root |
| Legacy.PretzelPosition.Solve | Simulator/PretzelSolitaireSolver/Program.cs:128-175 | the list is a tree of plays from the given position with no board twice; -1 when no entry is solved, and then every successor of every entry is listed; otherwise the first solved entry, with every earlier entry unsolved and expanded, and the `short` depth of its parent chain returned. -1 means no play from the starting board reaches a solved board, and otherwise no winning play is shorter than the solution's depth |
| Legacy.SolutionPlay | Simulator/PretzelSolitaireSolver/Program.cs:161-170 | the parent chain of the solution is a play of exactly the returned number of moves from the starting board |
| Legacy.Unsolvable | Simulator/PretzelSolitaireSolver/Program.cs:171-174 | when -1 is returned, no play from the starting board reaches a solved board |
| Legacy.DepthOrdered | Simulator/PretzelSolitaireSolver/Program.cs:151-153 | nodes are appended in the order their parents are visited, so depth never decreases along the list |
| Legacy.PlayListed | Simulator/PretzelSolitaireSolver/Program.cs:134-157 | a play from the start with fewer moves than the solution's depth ends on a listed board no deeper than the play |
| Legacy.Minimal | Simulator/PretzelSolitaireSolver/Program.cs:134-170 | no winning play from the starting board has fewer moves than the depth of the first solved node |
| Legacy.DedupDifference | Simulator/PretzelSolitaireSolver/Program.cs:141-155 | the older dedup against the later trie, keyed by tableau: a board only the trie rejects has a listed twin with the same tableau and the holes in another order; a board only the list rejects is the starting board; otherwise both agree |
| Legacy.HoleOrderSeparates | Simulator/PretzelSolitaireSolver/Program.cs:63-69 | two valid boards with one tableau and the holes in another order, which `EqualTo` tells apart and the trie does not |
| Utility.Clamp | Simulator/PretzelSolitaireSolver/UtilityTypes.cs:23-27 | with ordered bounds the result is inside them, and a value already inside is kept. With crossed bounds the minimum is tested first: the result is the minimum exactly when the value is below it, and the maximum otherwise |
| Utility.ClampIsNearest | Simulator/PretzelSolitaireSolver/UtilityTypes.cs:23-27 | with ordered bounds no point of the range is nearer the value than the clamp |
| Utility.ClampIdempotent | Simulator/PretzelSolitaireSolver/UtilityTypes.cs:23-27 | clamping twice is clamping once |
| Utility.ClampMonotone | Simulator/PretzelSolitaireSolver/UtilityTypes.cs:23-27 | the clamp keeps the order of values |

## Left out

- `Simulator.RunTrials` (PretzelSolver.cs:35-121) and `MainClass.Main` (Program.cs:197-236) are left out. They are trial loops that only print statistics, time the run and ring the bell. Main's reuse of one deck across iterations is covered: reshuffling a deck whose Aces were zeroed is still a valid deal (`Deck.SwapPassKeepsAces`,
  `Deck.CardDeck.Shuffle`, `Legacy.CardDeck.Shuffle`).
- Both `ToString` methods are left out, and so is all `Console` output: the verbose lines in `Solve` and the solution printout.
- `System.Random` is a stream of choices `nat -> nat` plus a draw counter. `Next(lo, hi)` is `lo + choice mod (hi - lo)`. What the real generator produces is not modelled.
- The legacy `Shuffle` makes a new generator on each call. It is given its choices as a parameter.
- The simulator's constructor keeps only the generator. Suit and value counts, trials, iterations, deal, approach and output type are plain parameters of the operations that use them. The deal type and the approach type are enumerations, and their source files are not part of this model. `Standard` stands for every deal other than the two suit deals, and `ShortestPath` for every approach other than `FullTree` and `RandomPlay`.
- Solver.Simulator.Solve: takes a `fuel` bound that limits RandomPlay to `fuel` visits. The source's random play can go on as long as moves exist. The breadth-first modes are proved to end without any such bound.
- The trie is an immutable `map`-based datatype, not a mutable `Dictionary<ushort, object>`. Boxing is the `Child` datatype, and a failing cast is the outcome `CastFailure`. The source walks the trie with a `while` loop; that walk is a recursive function, `Trie.AttainAsWritten`.
- Position.PretzelPosition.FromDeck: requires at most 32767 slots (`Position.MaxSlots`), because the source indexes the tableau with a `short` and stores hole indices as `short`. Larger decks are not modelled.
- Solver.Record: requires at most 32767 slots for the same reason: `IndexOf`'s result is cast to `short`.
- `PretzelPosition.cs:24` assigns the deck's `uint[]` cards to the `ushort[]` tableau, which C# rejects. The model takes the evident intent: the position shares the deck's array of card numbers.
- `UtilityTypes.cs` declares a `PositionInfo` with one `ParentIndex` and an anti-goal flag, and a `SolveResults` with `MinimumMoves` and `AntiGoalMoves`. `PretzelSolver.cs` uses other shapes: a `ParentIndexes` list and `Moves`/`Deadends`. The code is followed here. `Solver` declares the shapes the solver uses; `Utility` declares the ones `UtilityTypes.cs` states, and no operation uses them.
- The anti-goal flag computed at `PretzelPosition.cs:73` is discarded by the source and is not modelled.
- Solver.Simulator.Solve: in RandomPlay mode the reported moves are only the length of the one play followed, which the source does not claim to be minimal; minimality and unsolvability are stated for ShortestPath and FullTree only.
- There is no single theorem that the two engines report the same solvability for every deal. `Legacy.DedupDifference` and `Legacy.HoleOrderSeparates` state exactly where their duplicate tests differ.
- Signed and unsigned widths are written out only where they change a result: the `ushort` card counter, the `ushort` move and dead-end counts, and the `short` move count. Elsewhere card numbers and indices are unbounded integers, within the slot bound above.

## Findings

| source | as written | input that shows it | evidently intended | confidence | as-written member | corrected member |
|---|---|---|---|---|---|---|
| Simulator/PretzelSolitaireSolver/PretzelSolver.cs:160-172 | when the walk misses a key at the last slot, the inserted child is a dictionary holding the last card, where an index belongs (the chain loop adds nothing, and `Add` attaches the dictionary). The next lookup of that tableau unboxes that dictionary as `int` at :160 and throws | tableaux `[1, 2]` stored, then `[1, 3]` inserted twice | at the last slot, store the boxed index itself | not executed; cannot occur in the engine, because two tableaux of one deal that agree on every slot but the last agree on the last too (`Trie.AsWrittenAgrees`, `Solver.InsertStep`) | Trie.AsWrittenLosesLastLevelKey | Trie.AttainSpec |
| Simulator/PretzelSolitaireSolver/CardDeck.cs:15 | the card loop's counter is a `ushort`, compared with the `int` product `suitCount * valueCount`; from 65536 cards on, the counter wraps to 0 before it reaches the bound, so the constructor never ends (the same loop is at Program.cs:15) | `suitCount = 256`, `valueCount = 256` | an `int` counter, which fills every slot and ends | not executed | Deck.CounterNeverReaches | Deck.CardDeck.constructor |
