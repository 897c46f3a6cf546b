/** L1 geometry of the turnover-capped step: the scaled step, its projection and its quantization (rebalance.py). */
module Turnover {
  import opened Vectors
  import opened CappedSimplex
  import opened Rounding

  /** cur + alpha (unc - cur), coordinate by coordinate. */
  function StepToward(cur: Vec, unc: Vec, alpha: real): (v: Vec)
    requires |cur| == |unc|
    ensures |v| == |cur|
  {
    seq(|cur|, i requires 0 <= i < |cur| => cur[i] + Mul(alpha, unc[i] - cur[i]))
  }

  function QuantizeVec(w: Vec, lo: Vec, hi: Vec): (q: Vec)
    requires |w| == |lo| == |hi|
    ensures |q| == |w|
  {
    seq(|w|, i requires 0 <= i < |w| => QuantizeBox(w[i], lo[i], hi[i]))
  }

  /** The total distance of v from the box. */
  function Violation(v: Vec, lo: Vec, hi: Vec): real
    requires |v| == |lo| == |hi|
  {
    L1(v, ClipAt(v, lo, hi, 0.0))
  }

  /** The fraction of the way to the unconstrained target that the budget pays for. */
  function BudgetShare(cur: Vec, unc: Vec, budget: real): real
    requires |cur| == |unc| && L1(unc, cur) != 0.0
  {
    budget / L1(unc, cur)
  }

  /** The part of the current violation that a step of the budgeted length leaves. */
  function RemainingViolation(cur: Vec, unc: Vec, budget: real, lo: Vec, hi: Vec): real
    requires |cur| == |unc| == |lo| == |hi| && L1(unc, cur) != 0.0
  {
    Mul(1.0 - BudgetShare(cur, unc, budget), Violation(cur, lo, hi))
  }

  ghost predicate GridBounds(lo: Vec, hi: Vec) {
    IsBox(lo, hi) && forall i :: 0 <= i < |lo| ==> OnGrid(lo[i]) && OnGrid(hi[i])
  }

  // ----- L1 facts

  lemma {:induction false} L1Triangle(x: Vec, y: Vec, z: Vec)
    requires |x| == |y| == |z|
    ensures L1(x, z) <= L1(x, y) + L1(y, z)
  {
    if |x| == 0 {
    } else {
      L1Triangle(x[1..], y[1..], z[1..]);
    }
  }

  lemma {:induction false} L1Symmetric(x: Vec, y: Vec)
    requires |x| == |y|
    ensures L1(x, y) == L1(y, x)
  {
    if |x| == 0 {
    } else {
      L1Symmetric(x[1..], y[1..]);
    }
  }

  lemma {:induction false} TotalsWithinL1(x: Vec, y: Vec)
    requires |x| == |y|
    ensures Abs(Total(x) - Total(y)) <= L1(x, y)
  {
    if |x| == 0 {
    } else {
      TotalsWithinL1(x[1..], y[1..]);
    }
  }

  /** Between ordered vectors the L1 distance is the difference of the totals. */
  lemma {:induction false} L1Ordered(x: Vec, y: Vec)
    requires |x| == |y|
    requires forall i :: 0 <= i < |x| ==> x[i] <= y[i]
    ensures L1(x, y) == Total(y) - Total(x)
  {
    if |x| == 0 {
    } else {
      L1Ordered(x[1..], y[1..]);
    }
  }

  lemma {:induction false} L1AtMost(x: Vec, y: Vec, c: real)
    requires |x| == |y|
    requires forall i :: 0 <= i < |x| ==> Abs(x[i] - y[i]) <= c
    ensures L1(x, y) <= Times(|x|, c)
  {
    hide Mul;
    if |x| == 0 {
      MulZero(c);
    } else {
      forall i | 0 <= i < |x[1..]|
        ensures Abs(x[1..][i] - y[1..][i]) <= c
      {
        assert Abs(x[i + 1] - y[i + 1]) <= c;
      }
      L1AtMost(x[1..], y[1..], c);
      TimesStep(|x[1..]|, c);
    }
  }

  // ----- the scaled step

  lemma {:induction false} StepLength(cur: Vec, unc: Vec, v: Vec, alpha: real)
    requires |cur| == |unc| == |v| && 0.0 <= alpha
    requires forall i :: 0 <= i < |v| ==> v[i] == cur[i] + Mul(alpha, unc[i] - cur[i])
    ensures L1(v, cur) == Mul(alpha, L1(unc, cur))
  {
    hide Mul;
    if |cur| == 0 {
      MulZero(alpha);
    } else {
      StepLength(cur[1..], unc[1..], v[1..], alpha);
      AbsOfMultiple(alpha, unc[0] - cur[0]);
      MulAdd(alpha, Abs(unc[0] - cur[0]), L1(unc[1..], cur[1..]));
    }
  }

  lemma AbsOfMultiple(a: real, d: real)
    requires 0.0 <= a
    ensures Abs(Mul(a, d)) == Mul(a, Abs(d))
  {
  }

  /** The scaled step has exactly the budgeted length. */
  lemma BudgetedStepLength(cur: Vec, unc: Vec, budget: real)
    requires |cur| == |unc| && 0.0 <= budget < L1(unc, cur)
    ensures var alpha := BudgetShare(cur, unc, budget);
            0.0 <= alpha <= 1.0 && L1(StepToward(cur, unc, alpha), cur) == budget
  {
    var alpha := BudgetShare(cur, unc, budget);
    UnitFraction(budget, L1(unc, cur));
    hide Mul, L1;
    StepLength(cur, unc, StepToward(cur, unc, alpha), alpha);
  }

  lemma StepTotal(cur: Vec, unc: Vec, alpha: real)
    requires |cur| == |unc|
    ensures Total(StepToward(cur, unc, alpha)) == Total(cur) + Mul(alpha, Total(unc) - Total(cur))
  {
    var v := StepToward(cur, unc, alpha);
    hide Mul, Total;
    forall i | 0 <= i < |v|
      ensures v[i] == Mul(1.0 - alpha, cur[i]) + Mul(alpha, unc[i])
    {
      MulSub(unc[i], cur[i], alpha);
      Mixture(alpha, cur[i]);
    }
    TotalLinear(1.0 - alpha, cur, alpha, unc, v);
    MulSub(Total(unc), Total(cur), alpha);
    Mixture(alpha, Total(cur));
  }

  /** Stepping toward a box point shrinks the violation in proportion; from inside the box it stays inside. */
  lemma {:induction false} StepViolation(cur: Vec, unc: Vec, alpha: real, lo: Vec, hi: Vec)
    requires |cur| == |lo| && InBox(unc, lo, hi) && 0.0 <= alpha <= 1.0
    ensures Violation(StepToward(cur, unc, alpha), lo, hi) <= Mul(1.0 - alpha, Violation(cur, lo, hi))
  {
    hide Mul, Clip;
    if |cur| == 0 {
      MulZero(1.0 - alpha);
    } else {
      var v := StepToward(cur, unc, alpha);
      assert v[1..] == StepToward(cur[1..], unc[1..], alpha);
      ClipTail(v, lo, hi, 0.0);
      ClipTail(cur, lo, hi, 0.0);
      StepViolation(cur[1..], unc[1..], alpha, lo[1..], hi[1..]);
      ScalarViolation(cur[0], unc[0], alpha, lo[0], hi[0]);
      MulAdd(1.0 - alpha, Abs(cur[0] - Clip(cur[0], lo[0], hi[0])), Violation(cur[1..], lo[1..], hi[1..]));
    }
  }

  lemma ScalarViolation(c: real, u: real, alpha: real, lo: real, hi: real)
    requires lo <= u <= hi && 0.0 <= alpha <= 1.0
    ensures var v := c + Mul(alpha, u - c);
            Abs(v - Clip(v, lo, hi)) <= Mul(1.0 - alpha, Abs(c - Clip(c, lo, hi)))
  {
    hide Mul;
    var v := c + Mul(alpha, u - c);
    Mixture(alpha, u - c);
    assert v == u - Mul(1.0 - alpha, u - c);
    if c < lo {
      MulSigns(1.0 - alpha, u - lo);
      MulSigns(1.0 - alpha, lo - c);
      MulAdd(1.0 - alpha, u - lo, lo - c);
      MulSigns(alpha, u - lo);
      Mixture(alpha, u - lo);
    } else if c > hi {
      MulSigns(1.0 - alpha, hi - u);
      MulSigns(1.0 - alpha, c - hi);
      MulAdd(1.0 - alpha, hi - u, c - hi);
      MulSigns(alpha, hi - u);
      Mixture(alpha, hi - u);
      MulMinus(1.0 - alpha, u - c);
    } else {
      MulSigns(1.0 - alpha, u - c);
      MulSigns(1.0 - alpha, c - u);
      MulSigns(alpha, u - c);
      MulSigns(alpha, c - u);
      MulMinus(alpha, u - c);
      MulMinus(1.0 - alpha, u - c);
      MulZero(1.0 - alpha);
      assert lo <= v <= hi;
    }
  }

  lemma NoViolationInBox(v: Vec, lo: Vec, hi: Vec)
    requires InBox(v, lo, hi)
    ensures ClipAt(v, lo, hi, 0.0) == v && Violation(v, lo, hi) == 0.0
  {
    assert ClipAt(v, lo, hi, 0.0) == v;
    L1Ordered(v, v);
  }

  lemma StepStaysInBox(cur: Vec, unc: Vec, alpha: real, lo: Vec, hi: Vec)
    requires InBox(cur, lo, hi) && InBox(unc, lo, hi) && 0.0 <= alpha <= 1.0
    ensures InBox(StepToward(cur, unc, alpha), lo, hi)
  {
    var v := StepToward(cur, unc, alpha);
    forall i | 0 <= i < |v|
      ensures lo[i] <= v[i] <= hi[i]
    {
      assert lo[i] <= cur[i] <= hi[i] && lo[i] <= unc[i] <= hi[i];
      hide Mul;
      MulSigns(alpha, unc[i] - cur[i]);
      MulSigns(alpha, cur[i] - unc[i]);
      MulSigns(1.0 - alpha, unc[i] - cur[i]);
      MulSigns(1.0 - alpha, cur[i] - unc[i]);
      MulMinus(alpha, unc[i] - cur[i]);
      MulMinus(1.0 - alpha, unc[i] - cur[i]);
      Mixture(alpha, unc[i] - cur[i]);
    }
  }

  // ----- its projection

  /** Projections of one vector differ in L1 by exactly the difference of their masses. */
  lemma ShiftMovesByMass(v: Vec, lo: Vec, hi: Vec, s: real, t: real)
    requires |v| == |lo| == |hi|
    ensures L1(ClipAt(v, lo, hi, s), ClipAt(v, lo, hi, t)) == Abs(MassAt(v, lo, hi, s) - MassAt(v, lo, hi, t))
  {
    hide Total, L1, Clip, Mul;
    var x, y := ClipAt(v, lo, hi, s), ClipAt(v, lo, hi, t);
    if s <= t {
      MassMonotone(v, lo, hi, s, t);
      forall i | 0 <= i < |v| ensures y[i] <= x[i] { ClipLipschitz(v[i], lo[i], hi[i], s, t); }
      L1Ordered(y, x);
      L1Symmetric(x, y);
    } else {
      MassMonotone(v, lo, hi, t, s);
      forall i | 0 <= i < |v| ensures x[i] <= y[i] { ClipLipschitz(v[i], lo[i], hi[i], t, s); }
      L1Ordered(x, y);
    }
  }

  /** Projecting a box point moves it in L1 by exactly the mass it gains or loses. */
  lemma ProjectionMovesByMass(v: Vec, lo: Vec, hi: Vec, tau: real)
    requires InBox(v, lo, hi)
    ensures L1(ClipAt(v, lo, hi, tau), v) == Abs(MassAt(v, lo, hi, tau) - Total(v))
  {
    NoViolationInBox(v, lo, hi);
    ShiftMovesByMass(v, lo, hi, tau, 0.0);
  }

  /** Projecting any point moves it by at most twice its violation plus the mass it gains or loses. */
  lemma ProjectionMoves(v: Vec, lo: Vec, hi: Vec, tau: real)
    requires |v| == |lo| == |hi|
    ensures L1(ClipAt(v, lo, hi, tau), v) <= 2.0 * Violation(v, lo, hi) + Abs(MassAt(v, lo, hi, tau) - Total(v))
  {
    hide L1, Total, Clip, ClipAt;
    var w, c := ClipAt(v, lo, hi, tau), ClipAt(v, lo, hi, 0.0);
    ShiftMovesByMass(v, lo, hi, tau, 0.0);
    L1Triangle(w, c, v);
    L1Symmetric(c, v);
    TotalsWithinL1(v, c);
  }

  // ----- its quantization

  lemma QuantizeMoves(w: Vec, lo: Vec, hi: Vec)
    requires InBox(w, lo, hi)
    ensures L1(QuantizeVec(w, lo, hi), w) <= Times(|w|, 0.5 / TICKS)
    ensures Abs(Total(QuantizeVec(w, lo, hi)) - Total(w)) <= Times(|w|, 0.5 / TICKS)
  {
    hide L1, Total, Mul, Quantize, Clip;
    var q := QuantizeVec(w, lo, hi);
    forall i | 0 <= i < |w|
      ensures Abs(q[i] - w[i]) <= 0.5 / TICKS
    {
      ClipInside(w[i], lo[i], hi[i]);
      QuantizeNear(w[i]);
    }
    L1AtMost(q, w, 0.5 / TICKS);
    TotalsWithinL1(q, w);
  }

  lemma ClipInside(x: real, lo: real, hi: real)
    requires lo <= x <= hi
    ensures Clip(x, lo, hi) == x
  {
  }

  lemma QuantizeStaysInBox(w: Vec, lo: Vec, hi: Vec)
    requires |w| == |lo| && GridBounds(lo, hi)
    ensures InBox(QuantizeVec(w, lo, hi), lo, hi)
  {
    forall i | 0 <= i < |w|
      ensures lo[i] <= QuantizeVec(w, lo, hi)[i] <= hi[i]
    {
      GridBoundsHold(w[i], lo[i], hi[i]);
    }
  }

  /**
   * The whole budgeted step: scaled, projected with any multiplier, quantized. Its turnover is the budget up to
   * rounding, the mass the projection moved, and twice the part of the current violation that remains.
   */
  lemma BudgetedTurnover(cur: Vec, unc: Vec, budget: real, lo: Vec, hi: Vec, tau: real)
    requires IsBox(lo, hi) && |cur| == |unc| == |lo| && 0.0 <= budget < L1(unc, cur)
    ensures var alpha := BudgetShare(cur, unc, budget);
            var v := StepToward(cur, unc, alpha);
            var w := ClipAt(v, lo, hi, tau);
            && 0.0 <= alpha <= 1.0
            && Abs(L1(QuantizeVec(w, lo, hi), cur) - budget)
                 <= 2.0 * Violation(v, lo, hi) + Abs(Total(w) - Total(v)) + Times(|cur|, 0.5 / TICKS)
            && (InBox(unc, lo, hi) ==> Violation(v, lo, hi) <= RemainingViolation(cur, unc, budget, lo, hi))
  {
    hide Mul, L1, Total, ClipAt, QuantizeVec, BudgetShare, Violation, StepToward, RemainingViolation, Times;
    var alpha := BudgetShare(cur, unc, budget);
    var v := StepToward(cur, unc, alpha);
    var w := ClipAt(v, lo, hi, tau);
    BudgetedStepLength(cur, unc, budget);
    ProjectionMoves(v, lo, hi, tau);
    ClipInBox(v, lo, hi, tau);
    QuantizeMoves(w, lo, hi);
    L1Detour(QuantizeVec(w, lo, hi), w, v, cur);
    if InBox(unc, lo, hi) {
      StepViolationShare(cur, unc, budget, lo, hi);
    }
  }

  /** Distances to one point differ by at most the length of the way between the two others. */
  lemma L1Detour(q: Vec, w: Vec, v: Vec, cur: Vec)
    requires |q| == |w| == |v| == |cur|
    ensures Abs(L1(q, cur) - L1(v, cur)) <= L1(q, w) + L1(w, v)
  {
    hide L1;
    L1Triangle(q, w, cur);
    L1Triangle(w, v, cur);
    L1Triangle(v, w, cur);
    L1Triangle(w, q, cur);
    L1Symmetric(w, q);
    L1Symmetric(v, w);
  }

  lemma StepViolationShare(cur: Vec, unc: Vec, budget: real, lo: Vec, hi: Vec)
    requires |cur| == |lo| && InBox(unc, lo, hi) && 0.0 <= budget < L1(unc, cur)
    ensures Violation(StepToward(cur, unc, BudgetShare(cur, unc, budget)), lo, hi)
         <= RemainingViolation(cur, unc, budget, lo, hi)
  {
    hide Mul, L1, Violation, StepToward;
    BudgetedStepLength(cur, unc, budget);
    StepViolation(cur, unc, BudgetShare(cur, unc, budget), lo, hi);
  }

  // ----- when the budget is met exactly

  /** What x lacks against y, coordinate by coordinate. */
  function Shortfall(x: Vec, y: Vec): (s: Vec)
    requires |x| == |y|
    ensures |s| == |x|
  {
    seq(|x|, i requires 0 <= i < |x| => Max(0.0, y[i] - x[i]))
  }

  /** Turnover is twice what is sold, less what the total lost; and twice what is bought, less what it gained. */
  lemma {:induction false} TurnoverSplits(x: Vec, cur: Vec)
    requires |x| == |cur|
    ensures L1(x, cur) == 2.0 * Total(Shortfall(x, cur)) + Total(x) - Total(cur)
    ensures L1(x, cur) == 2.0 * Total(Shortfall(cur, x)) + Total(cur) - Total(x)
  {
    if |x| > 0 {
      TurnoverSplits(x[1..], cur[1..]);
      assert Shortfall(x, cur)[1..] == Shortfall(x[1..], cur[1..]);
      assert Shortfall(cur, x)[1..] == Shortfall(cur[1..], x[1..]);
    }
  }

  /** Two vectors of different coordinates and one total: some coordinate falls and some rises. */
  lemma SomeFallsSomeRises(x: Vec, y: Vec) returns (down: nat, up: nat)
    requires |x| == |y| && Total(x) == Total(y) && x != y
    ensures down < |x| && y[down] < x[down] && up < |x| && x[up] < y[up]
  {
    var k :| 0 <= k < |x| && x[k] != y[k];
    if forall i :: 0 <= i < |x| ==> x[i] <= y[i] {
      TotalStrict(x, y, k);
    }
    if forall i :: 0 <= i < |x| ==> y[i] <= x[i] {
      TotalStrict(y, x, k);
    }
    down :| 0 <= down < |x| && y[down] < x[down];
    up :| 0 <= up < |x| && x[up] < y[up];
  }

  /** A coordinate of the step lies between the current weight and the target, strictly inside a proper step. */
  lemma StepBetween(c: real, u: real, alpha: real)
    requires 0.0 < alpha < 1.0
    ensures var v := c + Mul(alpha, u - c);
            (u < c ==> u < v < c) && (u == c ==> v == c) && (u > c ==> c < v < u)
  {
    hide Mul;
    MulSigns(alpha, u - c);
    MulSigns(alpha, c - u);
    MulSigns(1.0 - alpha, u - c);
    MulSigns(1.0 - alpha, c - u);
    MulMinus(alpha, u - c);
    MulMinus(1.0 - alpha, u - c);
    MulZero(alpha);
    Mixture(alpha, u - c);
  }

  /** A step between a current weight and a target inside the bounds. */
  predicate Between(c: real, v: real, u: real) {
    (u < c ==> u < v < c) && (u == c ==> v == c) && (u > c ==> c < v < u)
  }

  /** Clipping with tau >= 0 sells no less; strictly more of a coordinate above its cap, or if tau is positive. */
  lemma SellsMore(c: real, v: real, u: real, lo: real, hi: real, tau: real)
    requires lo <= u <= hi && Between(c, v, u) && tau >= 0.0
    ensures var w := Clip(v - tau, lo, hi);
            && Max(0.0, c - v) <= Max(0.0, c - w)
            && (v > hi || (tau > 0.0 && u < c) ==> Max(0.0, c - v) < Max(0.0, c - w))
  {
  }

  lemma BuysMore(c: real, v: real, u: real, lo: real, hi: real, tau: real)
    requires lo <= u <= hi && Between(c, v, u) && tau <= 0.0
    ensures var w := Clip(v - tau, lo, hi);
            && Max(0.0, v - c) <= Max(0.0, w - c)
            && (v < lo || (tau < 0.0 && u > c) ==> Max(0.0, v - c) < Max(0.0, w - c))
  {
  }

  /** Every coordinate of v is a proper step from cur toward unc. */
  ghost predicate ProperStep(cur: Vec, v: Vec, unc: Vec) {
    |cur| == |v| == |unc| && forall i :: 0 <= i < |v| ==> Between(cur[i], v[i], unc[i])
  }

  /** Projected with tau >= 0, a proper step sells no less, and strictly more unless it is in the box. */
  lemma ProjectionSells(cur: Vec, v: Vec, unc: Vec, lo: Vec, hi: Vec, tau: real)
    requires ProperStep(cur, v, unc) && InBox(unc, lo, hi) && tau >= 0.0
    ensures var w := ClipAt(v, lo, hi, tau);
            && Total(Shortfall(v, cur)) <= Total(Shortfall(w, cur))
            && ((exists i :: 0 <= i < |v| && (v[i] > hi[i] || (tau > 0.0 && unc[i] < cur[i]))) ==>
                  Total(Shortfall(v, cur)) < Total(Shortfall(w, cur)))
  {
    var w := ClipAt(v, lo, hi, tau);
    forall i | 0 <= i < |v|
      ensures Shortfall(v, cur)[i] <= Shortfall(w, cur)[i]
      ensures v[i] > hi[i] || (tau > 0.0 && unc[i] < cur[i]) ==> Shortfall(v, cur)[i] < Shortfall(w, cur)[i]
    {
      SellsMore(cur[i], v[i], unc[i], lo[i], hi[i], tau);
    }
    hide Clip, Shortfall, Total;
    TotalMonotone(Shortfall(v, cur), Shortfall(w, cur));
    if i :| 0 <= i < |v| && (v[i] > hi[i] || (tau > 0.0 && unc[i] < cur[i])) {
      TotalStrict(Shortfall(v, cur), Shortfall(w, cur), i);
    }
  }

  lemma ProjectionBuys(cur: Vec, v: Vec, unc: Vec, lo: Vec, hi: Vec, tau: real)
    requires ProperStep(cur, v, unc) && InBox(unc, lo, hi) && tau <= 0.0
    ensures var w := ClipAt(v, lo, hi, tau);
            && Total(Shortfall(cur, v)) <= Total(Shortfall(cur, w))
            && ((exists i :: 0 <= i < |v| && (v[i] < lo[i] || (tau < 0.0 && unc[i] > cur[i]))) ==>
                  Total(Shortfall(cur, v)) < Total(Shortfall(cur, w)))
  {
    var w := ClipAt(v, lo, hi, tau);
    forall i | 0 <= i < |v|
      ensures Shortfall(cur, v)[i] <= Shortfall(cur, w)[i]
      ensures v[i] < lo[i] || (tau < 0.0 && unc[i] > cur[i]) ==> Shortfall(cur, v)[i] < Shortfall(cur, w)[i]
    {
      BuysMore(cur[i], v[i], unc[i], lo[i], hi[i], tau);
    }
    hide Clip, Shortfall, Total;
    TotalMonotone(Shortfall(cur, v), Shortfall(cur, w));
    if i :| 0 <= i < |v| && (v[i] < lo[i] || (tau < 0.0 && unc[i] > cur[i])) {
      TotalStrict(Shortfall(cur, v), Shortfall(cur, w), i);
    }
  }

  /**
   * The projection of a proper step with the same total: never shorter, and as long exactly when the step is in the
   * box.
   */
  lemma ProjectionNeverShortens(cur: Vec, v: Vec, unc: Vec, lo: Vec, hi: Vec, tau: real)
    requires ProperStep(cur, v, unc) && InBox(unc, lo, hi) && cur != unc
    requires Total(cur) == Total(unc) == Total(v) == MassAt(v, lo, hi, tau)
    ensures var w := ClipAt(v, lo, hi, tau);
            L1(w, cur) >= L1(v, cur) && (L1(w, cur) == L1(v, cur) <==> InBox(v, lo, hi))
  {
    hide Total, L1, Clip, Shortfall, Between;
    var w := ClipAt(v, lo, hi, tau);
    TurnoverSplits(w, cur);
    TurnoverSplits(v, cur);
    var sold, bought := SomeFallsSomeRises(cur, unc);
    if InBox(v, lo, hi) {
      ProjectionMovesByMass(v, lo, hi, tau);
      L1Triangle(w, v, cur);
    }
    if tau >= 0.0 {
      ProjectionSells(cur, v, unc, lo, hi, tau);
    }
    if tau <= 0.0 {
      ProjectionBuys(cur, v, unc, lo, hi, tau);
    }
    if !InBox(v, lo, hi) {
      var i :| 0 <= i < |v| && !(lo[i] <= v[i] <= hi[i]);
      assert v[i] > hi[i] || v[i] < lo[i];
    }
  }

  lemma {:induction false} L1Zero(x: Vec, y: Vec)
    requires |x| == |y|
    ensures L1(x, y) >= 0.0 && (L1(x, y) == 0.0 <==> x == y)
  {
    if |x| > 0 {
      L1Zero(x[1..], y[1..]);
      assert x == [x[0]] + x[1..] && y == [y[0]] + y[1..];
    }
  }

  /**
   * The budget and the projection: with exact totals, the projected step never trades less than the budget, and
   * trades exactly the budget if and only if the scaled step itself lies in the box.
   */
  lemma BudgetMetIff(cur: Vec, unc: Vec, budget: real, lo: Vec, hi: Vec, tau: real)
    requires |cur| == |unc| && InBox(unc, lo, hi) && 0.0 <= budget < L1(unc, cur)
    requires Total(cur) == Total(unc) == MassAt(StepToward(cur, unc, BudgetShare(cur, unc, budget)), lo, hi, tau)
    ensures var v := StepToward(cur, unc, BudgetShare(cur, unc, budget));
            var w := ClipAt(v, lo, hi, tau);
            L1(w, cur) >= budget && (L1(w, cur) == budget <==> InBox(v, lo, hi))
  {
    hide Total, L1, Clip, BudgetShare, StepToward, Mul;
    var alpha := BudgetShare(cur, unc, budget);
    var v := StepToward(cur, unc, alpha);
    BudgetedStepLength(cur, unc, budget);
    StepTotal(cur, unc, alpha);
    MulZero(alpha);
    L1Zero(unc, cur);
    if budget == 0.0 {
      L1Zero(v, cur);
      L1Zero(ClipAt(v, lo, hi, tau), cur);
      if InBox(v, lo, hi) {
        ProjectionMovesByMass(v, lo, hi, tau);
        L1Zero(ClipAt(v, lo, hi, tau), v);
      } else {
        ClipInBox(v, lo, hi, tau);
      }
    } else {
      ProperShare(cur, unc, budget);
      ProjectionNeverShortens(cur, v, unc, lo, hi, tau);
    }
  }

  /** With a projection that misses its total, both halves hold up to that miss. */
  lemma BudgetMetNearly(cur: Vec, unc: Vec, budget: real, lo: Vec, hi: Vec, tau: real)
    requires |cur| == |unc| && InBox(unc, lo, hi) && 0.0 <= budget < L1(unc, cur) && Total(cur) == Total(unc)
    ensures var v := StepToward(cur, unc, BudgetShare(cur, unc, budget));
            var w := ClipAt(v, lo, hi, tau);
            && L1(w, cur) >= budget - Abs(Total(w) - Total(cur))
            && (InBox(v, lo, hi) ==> L1(w, cur) <= budget + Abs(Total(w) - Total(cur)))
  {
    hide Total, L1, Clip, BudgetShare, StepToward, Mul;
    var v := StepToward(cur, unc, BudgetShare(cur, unc, budget));
    if |cur| == 0 {
      L1Zero(unc, cur);
    }
    BoxMass(unc, lo, hi);
    ProjectionExists(v, lo, hi, Total(cur));
    var rho :| MassAt(v, lo, hi, rho) == Total(cur);
    BudgetMetIff(cur, unc, budget, lo, hi, rho);
    ShiftMovesByMass(v, lo, hi, tau, rho);
    L1Symmetric(ClipAt(v, lo, hi, tau), ClipAt(v, lo, hi, rho));
    L1Triangle(ClipAt(v, lo, hi, tau), ClipAt(v, lo, hi, rho), cur);
    L1Triangle(ClipAt(v, lo, hi, rho), ClipAt(v, lo, hi, tau), cur);
  }

  lemma ProperShare(cur: Vec, unc: Vec, budget: real)
    requires |cur| == |unc| && 0.0 < budget < L1(unc, cur)
    ensures ProperStep(cur, StepToward(cur, unc, BudgetShare(cur, unc, budget)), unc)
  {
    hide L1, Mul;
    var alpha := BudgetShare(cur, unc, budget);
    ProperFraction(budget, L1(unc, cur));
    forall i | 0 <= i < |cur|
      ensures Between(cur[i], cur[i] + Mul(alpha, unc[i] - cur[i]), unc[i])
    {
      StepBetween(cur[i], unc[i], alpha);
    }
  }

  lemma ProperFraction(x: real, y: real)
    requires 0.0 < x < y
    ensures 0.0 < x / y < 1.0
  {
    UnitFraction(x, y);
    MulZero(y);
    MulOne(y);
  }

  /** A violating book whose budget is missed: the cap of one half forces five times the budget. */
  lemma BudgetMissed()
    ensures var cur, unc, lo, hi := [1.0, 0.0], [0.5, 0.5], [0.0, 0.0], [0.5, 1.0];
            && L1(unc, cur) == 1.0
            && var w := ClipAt(StepToward(cur, unc, BudgetShare(cur, unc, 0.2)), lo, hi, -0.4);
               Total(w) == 1.0 && L1(w, cur) == 1.0
  {
    var cur, unc := [1.0, 0.0], [0.5, 0.5];
    assert L1(unc[1..], cur[1..]) == 0.5;
    assert StepToward(cur, unc, BudgetShare(cur, unc, 0.2)) == [0.9, 0.1];
    assert ClipAt([0.9, 0.1], [0.0, 0.0], [0.5, 1.0], -0.4) == unc;
    assert Total(unc[1..]) == 0.5;
  }

  /** A violating book whose budget is met: the step itself ends inside the box. */
  lemma ViolatorMeetsBudget()
    ensures var cur, unc, lo, hi := [0.6, 0.4], [0.5, 0.5], [0.0, 0.0], [0.55, 1.0];
            && !InBox(cur, lo, hi) && L1(unc, cur) == 0.2
            && var w := ClipAt(StepToward(cur, unc, BudgetShare(cur, unc, 0.15)), lo, hi, 0.0);
               Total(w) == 1.0 && L1(w, cur) == 0.15
  {
    var cur, unc := [0.6, 0.4], [0.5, 0.5];
    assert L1(unc[1..], cur[1..]) == 0.1;
    var v := [0.525, 0.475];
    assert StepToward(cur, unc, BudgetShare(cur, unc, 0.15)) == v;
    assert ClipAt(v, [0.0, 0.0], [0.55, 1.0], 0.0) == v;
    assert Total(v[1..]) == 0.475 && L1(v[1..], cur[1..]) == 0.075;
  }
}
