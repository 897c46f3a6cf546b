/** Decimal.quantize with ROUND_HALF_EVEN, on exact reals. */
module Rounding {
  import opened Vectors
  import opened CappedSimplex

  /** The nearest integer; a tie goes to the even neighbour. */
  function RoundHalfEven(q: real): int {
    var f := q.Floor;
    var d := q - f as real;
    if d < 0.5 then f
    else if d > 0.5 then f + 1
    else if f % 2 == 0 then f
    else f + 1
  }

  const TICKS := 1000000.0

  /** x rounded to a whole number of ticks per unit. */
  function QuantizeTo(x: real, ticks: real): real
    requires ticks != 0.0
  {
    RoundHalfEven(x * ticks) as real / ticks
  }

  /** x rounded to six decimals. */
  function Quantize(x: real): real {
    QuantizeTo(x, TICKS)
  }

  function Tick(k: int): real {
    k as real / TICKS
  }

  ghost predicate OnGrid(x: real) {
    exists k :: x == Tick(k)
  }

  lemma RoundNear(q: real)
    ensures -0.5 <= RoundHalfEven(q) as real - q <= 0.5
  {
  }

  lemma RoundMonotone(x: real, y: real)
    requires x <= y
    ensures RoundHalfEven(x) <= RoundHalfEven(y)
  {
  }

  lemma QuantizeToNear(x: real, ticks: real)
    requires ticks > 0.0
    ensures Abs(QuantizeTo(x, ticks) - x) <= 0.5 / ticks
  {
    var q := x * ticks;
    RoundNear(q);
    hide RoundHalfEven;
    var r := RoundHalfEven(q) as real;
    assert r / ticks - x == (r - q) / ticks;
    QuotientBetween(r - q, ticks);
  }

  lemma QuotientBetween(d: real, t: real)
    requires t > 0.0 && -0.5 <= d <= 0.5
    ensures -0.5 / t <= d / t <= 0.5 / t && -0.5 / t == -(0.5 / t)
  {
  }

  lemma QuantizeNear(x: real)
    ensures Abs(Quantize(x) - x) <= 0.5 / TICKS
  {
  }

  /** The result is a whole number of ticks, the nearest one, and the even one of two that are as near. */
  lemma NearestEven(x: real, ticks: real) returns (n: int)
    requires ticks > 0.0
    ensures QuantizeTo(x, ticks) * ticks == n as real
    ensures -0.5 <= n as real - x * ticks <= 0.5
    ensures n as real - x * ticks == 0.5 || n as real - x * ticks == -0.5 ==> n % 2 == 0
  {
    n := RoundHalfEven(x * ticks);
    TieIsEven(x * ticks);
  }

  lemma TieIsEven(q: real)
    ensures -0.5 <= RoundHalfEven(q) as real - q <= 0.5
    ensures RoundHalfEven(q) as real - q == 0.5 || RoundHalfEven(q) as real - q == -0.5 ==> RoundHalfEven(q) % 2 == 0
  {
  }

  /** Six decimals: a whole number of millionths, at most half of one away. */
  lemma SixDecimals(x: real) returns (n: int)
    ensures Quantize(x) * 1000000.0 == n as real && -0.0000005 <= Quantize(x) - x <= 0.0000005
    ensures Quantize(x) - x == 0.0000005 || Quantize(x) - x == -0.0000005 ==> n % 2 == 0
  {
    n := NearestEven(x, 1000000.0);
  }

  lemma QuantizeMonotone(x: real, y: real)
    requires x <= y
    ensures Quantize(x) <= Quantize(y)
  {
    RoundMonotone(x * TICKS, y * TICKS);
  }

  lemma QuantizeOnGrid(x: real)
    ensures OnGrid(Quantize(x))
    ensures OnGrid(x) <==> Quantize(x) == x
  {
    assert Quantize(x) == Tick(RoundHalfEven(x * TICKS));
    if OnGrid(x) {
      var k :| x == Tick(k);
      assert x * TICKS == k as real;
    }
  }

  /** Clip into the bounds, then quantize. */
  function QuantizeBox(value: real, lo: real, hi: real): real {
    Quantize(Clip(value, lo, hi))
  }

  /**
   * Quantizing after the clip keeps every value in its bounds exactly when it does not push the bounds themselves
   * out.
   */
  lemma QuantizeBoxIff(lo: real, hi: real)
    requires lo <= hi
    ensures (forall v :: lo <= QuantizeBox(v, lo, hi) <= hi) <==> lo <= Quantize(lo) && Quantize(hi) <= hi
  {
    if lo <= Quantize(lo) && Quantize(hi) <= hi {
      forall v
        ensures lo <= QuantizeBox(v, lo, hi) <= hi
      {
        QuantizeMonotone(lo, Clip(v, lo, hi));
        QuantizeMonotone(Clip(v, lo, hi), hi);
      }
    }
    if forall v :: lo <= QuantizeBox(v, lo, hi) <= hi {
      assert lo <= QuantizeBox(lo, lo, hi);
      assert QuantizeBox(hi, lo, hi) <= hi;
    }
  }

  /** A floor off the six-decimal grid can be undercut: 0.0000004 becomes 0. */
  lemma OffGridFloorEscapes()
    ensures QuantizeBox(0.0, 0.0000004, 1.0) < 0.0000004
  {
  }

  lemma GridBoundsHold(v: real, lo: real, hi: real)
    requires lo <= hi && OnGrid(lo) && OnGrid(hi)
    ensures lo <= QuantizeBox(v, lo, hi) <= hi
  {
    QuantizeOnGrid(lo);
    QuantizeOnGrid(hi);
    QuantizeBoxIff(lo, hi);
  }
}
