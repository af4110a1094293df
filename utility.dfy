/**
 * The helper types of `UtilityTypes.cs`: the `ushort` clamp, and the record
 * shapes declared there (the search uses its own shapes, in module `Solver`).
 */
module Utility {
  import Position

  /** The values of a C# `ushort`. */
  newtype UShort = x: int | 0 <= x < 0x1_0000

  /** The record of a search entry as declared here: the position, its parent and the anti-goal flag. */
  datatype PositionInfo = PositionInfo(position: Position.PretzelPosition, parentIndex: int, isAntiGoalMove: bool)

  /** The result record as declared here. */
  datatype SolveResults = SolveResults(solvable: bool, minimumMoves: UShort, antiGoalMoves: UShort)

  /**
   * `value` pulled into `[inclusiveMinimum, inclusiveMaximum]`. The minimum
   * is tested first: when the bounds cross, a value below the minimum gives
   * the minimum and every other value the maximum.
   */
  function Clamp(value: UShort, inclusiveMinimum: UShort, inclusiveMaximum: UShort): (r: UShort)
    ensures inclusiveMinimum <= inclusiveMaximum ==> inclusiveMinimum <= r <= inclusiveMaximum
    ensures inclusiveMinimum <= value <= inclusiveMaximum ==> r == value
    ensures r == value || r == inclusiveMinimum || r == inclusiveMaximum
    ensures inclusiveMinimum > inclusiveMaximum ==>
      (r == inclusiveMinimum <==> value < inclusiveMinimum) && (r == inclusiveMinimum || r == inclusiveMaximum)
  {
    if value < inclusiveMinimum then inclusiveMinimum
    else if value > inclusiveMaximum then inclusiveMaximum
    else value
  }

  /** With ordered bounds the clamp is the nearest point of the range. */
  lemma ClampIsNearest(value: UShort, inclusiveMinimum: UShort, inclusiveMaximum: UShort, x: UShort)
    requires inclusiveMinimum <= x <= inclusiveMaximum
    ensures Distance(Clamp(value, inclusiveMinimum, inclusiveMaximum), value) <= Distance(x, value)
  {
  }

  function Distance(a: UShort, b: UShort): (d: int)
    ensures d >= 0 && (d == 0 <==> a == b)
  {
    if a < b then b as int - a as int else a as int - b as int
  }

  /** Clamping twice into ordered bounds is clamping once. */
  lemma ClampIdempotent(value: UShort, inclusiveMinimum: UShort, inclusiveMaximum: UShort)
    requires inclusiveMinimum <= inclusiveMaximum
    ensures Clamp(Clamp(value, inclusiveMinimum, inclusiveMaximum), inclusiveMinimum, inclusiveMaximum) ==
      Clamp(value, inclusiveMinimum, inclusiveMaximum)
  {
  }

  /** With ordered bounds the clamp keeps the order of its values. */
  lemma ClampMonotone(v: UShort, w: UShort, inclusiveMinimum: UShort, inclusiveMaximum: UShort)
    requires inclusiveMinimum <= inclusiveMaximum && v <= w
    ensures Clamp(v, inclusiveMinimum, inclusiveMaximum) <= Clamp(w, inclusiveMinimum, inclusiveMaximum)
  {
  }
}
