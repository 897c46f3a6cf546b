/** The six strategic allocation sleeves (ips/sleeves.py). */
module Sleeves {
  datatype Sleeve = Equity | FixedIncome | Commodities | Fx | Alternatives | Cash

  /** The canonical enumeration order. */
  const SLEEVES := [Equity, FixedIncome, Commodities, Fx, Alternatives, Cash]

  /** The place of a sleeve in the canonical order. */
  function Rank(s: Sleeve): nat {
    match s
    case Equity => 0
    case FixedIncome => 1
    case Commodities => 2
    case Fx => 3
    case Alternatives => 4
    case Cash => 5
  }

  /** Listed in canonical order, each sleeve once. */
  predicate Ordered(universe: seq<Sleeve>) {
    forall i, j :: 0 <= i < j < |universe| ==> Rank(universe[i]) < Rank(universe[j])
  }

  ghost predicate Distinct(universe: seq<Sleeve>) {
    forall i, j :: 0 <= i < j < |universe| ==> universe[i] != universe[j]
  }
}
