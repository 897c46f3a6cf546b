/** Bisection projection onto { w : sum w = total, lo <= w <= hi } (qp.py). */
module CappedSimplex {
  import opened Vectors

  datatype ProjectionResult = Projected(w: Vec) | EmptyVector

  const SUM_TOLERANCE := 0.000000000001

  function Clip(x: real, lo: real, hi: real): real {
    Min(Max(x, lo), hi)
  }

  /** w(tau): every coordinate shifted down by tau, then clipped into its bounds. */
  function ClipAt(v: Vec, lo: Vec, hi: Vec, tau: real): (w: Vec)
    requires |v| == |lo| == |hi|
    ensures |w| == |v|
  {
    seq(|v|, i requires 0 <= i < |v| => Clip(v[i] - tau, lo[i], hi[i]))
  }

  function MassAt(v: Vec, lo: Vec, hi: Vec, tau: real): real
    requires |v| == |lo| == |hi|
  {
    Total(ClipAt(v, lo, hi, tau))
  }

  predicate IsBox(lo: Vec, hi: Vec) {
    |lo| == |hi| && forall i :: 0 <= i < |lo| ==> lo[i] <= hi[i]
  }

  predicate InBox(w: Vec, lo: Vec, hi: Vec) {
    |w| == |lo| == |hi| && forall i :: 0 <= i < |w| ==> lo[i] <= w[i] <= hi[i]
  }

  function LoTau(v: Vec, hi: Vec): real
    requires 0 < |v| == |hi|
  {
    MinOf(Sub(v, hi))
  }

  function HiTau(v: Vec, lo: Vec): real
    requires 0 < |v| == |lo|
  {
    MaxOf(Sub(v, lo))
  }

  /** The width of the initial bisection bracket. */
  function Width(v: Vec, lo: Vec, hi: Vec): real
    requires 0 < |v| == |lo| == |hi|
  {
    HiTau(v, lo) - LoTau(v, hi)
  }

  /** How far the clipped vector can still be from the requested mass after the given number of halvings. */
  function MassError(v: Vec, lo: Vec, hi: Vec, iters: nat): real
    requires 0 < |v| == |lo| == |hi|
  {
    Max(SUM_TOLERANCE, Times(|v|, Width(v, lo, hi)) / Pow2(iters))
  }

  /** How far the requested mass lies outside what the box can hold. */
  function Infeasibility(lo: Vec, hi: Vec, total: real): real {
    Max(0.0, Max(Total(lo) - total, total - Total(hi)))
  }

  /** The requested mass moved to the nearest mass that the box can hold. */
  function Attainable(lo: Vec, hi: Vec, total: real): real {
    Clip(total, Total(lo), Total(hi))
  }

  // ----- the clipped vector as a projection

  lemma ClipInBox(v: Vec, lo: Vec, hi: Vec, tau: real)
    requires |v| == |lo| == |hi|
    ensures IsBox(lo, hi) <==> InBox(ClipAt(v, lo, hi, tau), lo, hi)
  {
  }

  /** The variational inequality of the clip: it holds for any multiplier, not only the exact one. */
  lemma {:induction false} ClipVariational(v: Vec, lo: Vec, hi: Vec, tau: real, u: Vec)
    requires |v| == |lo| == |hi| && InBox(u, lo, hi)
    ensures var w := ClipAt(v, lo, hi, tau);
            Dot(Sub(v, w), Sub(u, w)) <= Mul(tau, Total(u) - Total(w))
  {
    hide Mul, Clip;
    if |v| == 0 {
      MulZero(tau);
    } else {
      var w := ClipAt(v, lo, hi, tau);
      ClipVariational(v[1..], lo[1..], hi[1..], tau, u[1..]);
      ClipTail(v, lo, hi, tau);
      SubTail(v, w);
      SubTail(u, w);
      ScalarVariational(v[0], lo[0], hi[0], tau, u[0], w[0]);
      MulAdd(tau, u[0] - w[0], Total(u[1..]) - Total(w[1..]));
    }
  }

  lemma ScalarVariational(v: real, lo: real, hi: real, tau: real, u: real, w: real)
    requires lo <= u <= hi && w == Clip(v - tau, lo, hi)
    ensures Mul(v - w, u - w) <= Mul(tau, u - w)
  {
  }

  /** The clipped vector is the closest point to v among the box points of its own mass. */
  lemma ClipIsClosest(v: Vec, lo: Vec, hi: Vec, tau: real, u: Vec)
    requires |v| == |lo| == |hi| && InBox(u, lo, hi)
    requires Total(u) == MassAt(v, lo, hi, tau)
    ensures var w := ClipAt(v, lo, hi, tau);
            && NormSq(Sub(v, u)) >= NormSq(Sub(v, w)) + NormSq(Sub(u, w))
            && (NormSq(Sub(v, u)) <= NormSq(Sub(v, w)) ==> u == w)
  {
    var w := ClipAt(v, lo, hi, tau);
    hide Mul, Clip, Dot;
    ClipVariational(v, lo, hi, tau, u);
    MulZero(tau);
    NormSqOfDifference(Sub(v, w), Sub(u, w));
    assert Sub(Sub(v, w), Sub(u, w)) == Sub(v, u);
    NormSqNonNegative(Sub(u, w));
    if NormSq(Sub(v, u)) <= NormSq(Sub(v, w)) {
      NormSqZero(u, w);
    }
  }

  // ----- the mass as a function of the multiplier

  lemma ClipLipschitz(x: real, lo: real, hi: real, s: real, t: real)
    requires s <= t
    ensures 0.0 <= Clip(x - s, lo, hi) - Clip(x - t, lo, hi) <= t - s
  {
  }

  /** Mass falls as the multiplier rises, by at most n per unit. */
  lemma {:induction false} MassMonotone(v: Vec, lo: Vec, hi: Vec, s: real, t: real)
    requires |v| == |lo| == |hi| && s <= t
    ensures 0.0 <= MassAt(v, lo, hi, s) - MassAt(v, lo, hi, t) <= Times(|v|, t - s)
  {
    hide Mul, Clip;
    if |v| == 0 {
      MulZero(t - s);
    } else {
      MassMonotone(v[1..], lo[1..], hi[1..], s, t);
      MassStep(v, lo, hi, s);
      MassStep(v, lo, hi, t);
      ClipLipschitz(v[0], lo[0], hi[0], s, t);
      TimesStep(|v[1..]|, t - s);
    }
  }

  lemma MassStep(v: Vec, lo: Vec, hi: Vec, tau: real)
    requires 0 < |v| == |lo| == |hi|
    ensures MassAt(v, lo, hi, tau) == Clip(v[0] - tau, lo[0], hi[0]) + MassAt(v[1..], lo[1..], hi[1..], tau)
  {
    ClipTail(v, lo, hi, tau);
  }

  lemma ClipTail(v: Vec, lo: Vec, hi: Vec, tau: real)
    requires 0 < |v| == |lo| == |hi|
    ensures ClipAt(v, lo, hi, tau)[1..] == ClipAt(v[1..], lo[1..], hi[1..], tau)
  {
  }

  lemma MassAtEnds(v: Vec, lo: Vec, hi: Vec)
    requires 0 < |v| == |lo| == |hi| && IsBox(lo, hi)
    ensures ClipAt(v, lo, hi, LoTau(v, hi)) == hi
    ensures ClipAt(v, lo, hi, HiTau(v, lo)) == lo
    ensures LoTau(v, hi) <= HiTau(v, lo)
  {
    forall i | 0 <= i < |v|
      ensures LoTau(v, hi) <= v[i] - hi[i] && v[i] - lo[i] <= HiTau(v, lo)
    {
      assert Sub(v, hi)[i] == v[i] - hi[i];
      assert Sub(v, lo)[i] == v[i] - lo[i];
    }
    assert LoTau(v, hi) <= v[0] - hi[0] <= v[0] - lo[0] <= HiTau(v, lo);
  }

  lemma MassInRange(v: Vec, lo: Vec, hi: Vec, tau: real)
    requires |v| == |lo| == |hi| && IsBox(lo, hi)
    ensures Total(lo) <= MassAt(v, lo, hi, tau) <= Total(hi)
  {
    BoxMass(ClipAt(v, lo, hi, tau), lo, hi);
  }

  lemma BoxMass(u: Vec, lo: Vec, hi: Vec)
    requires InBox(u, lo, hi)
    ensures Total(lo) <= Total(u) <= Total(hi)
  {
    TotalMonotone(lo, u);
    TotalMonotone(u, hi);
  }

  /** The multipliers at which some coordinate starts or stops being clipped. */
  function Breakpoints(v: Vec, lo: Vec, hi: Vec): set<real>
    requires |v| == |lo| == |hi|
  {
    (set i | 0 <= i < |v| :: v[i] - lo[i]) + (set i | 0 <= i < |v| :: v[i] - hi[i])
  }

  function BreakpointsWithin(v: Vec, lo: Vec, hi: Vec, a: real, b: real): set<real>
    requires |v| == |lo| == |hi|
  {
    set p | p in Breakpoints(v, lo, hi) && a < p < b
  }

  /** An exact multiplier exists between any two multipliers whose masses straddle the total. */
  lemma {:induction false} RootBetween(v: Vec, lo: Vec, hi: Vec, total: real, a: real, b: real) returns (tau: real)
    requires |v| == |lo| == |hi| && IsBox(lo, hi) && a <= b
    requires MassAt(v, lo, hi, b) <= total <= MassAt(v, lo, hi, a)
    ensures a <= tau <= b && MassAt(v, lo, hi, tau) == total
    decreases BreakpointsWithin(v, lo, hi, a, b)
  {
    hide MassAt, Breakpoints;
    if p :| p in BreakpointsWithin(v, lo, hi, a, b) {
      if MassAt(v, lo, hi, p) <= total {
        assert p !in BreakpointsWithin(v, lo, hi, a, p);
        tau := RootBetween(v, lo, hi, total, a, p);
      } else {
        assert p !in BreakpointsWithin(v, lo, hi, p, b);
        tau := RootBetween(v, lo, hi, total, p, b);
      }
    } else if MassAt(v, lo, hi, a) == MassAt(v, lo, hi, b) {
      tau := a;
    } else {
      var t;
      t, tau := Interpolate(a, b, MassAt(v, lo, hi, a), MassAt(v, lo, hi, b), total);
      MassAffine(v, lo, hi, a, b, tau, t);
    }
  }

  lemma Interpolate(a: real, b: real, p: real, q: real, total: real) returns (t: real, x: real)
    requires a <= b && q <= total <= p && q < p
    ensures 0.0 <= t <= 1.0 && a <= x <= b && x == Mul(1.0 - t, a) + Mul(t, b)
    ensures Mul(1.0 - t, p) + Mul(t, q) == total
  {
    t := (p - total) / (p - q);
    UnitFraction(p - total, p - q);
    hide Mul;
    x := Mul(1.0 - t, a) + Mul(t, b);
    MulSub(b, a, t);
    MulSub(b, a, 1.0 - t);
    MulSub(p, q, t);
    MulSigns(t, b - a);
    MulSigns(1.0 - t, b - a);
    Mixture(t, a);
    Mixture(t, b);
    Mixture(t, p);
  }

  lemma UnitFraction(x: real, y: real)
    requires 0.0 <= x <= y && 0.0 < y
    ensures 0.0 <= x / y <= 1.0 && Mul(x / y, y) == x
  {
  }

  /** Between neighbouring breakpoints the mass is affine in the multiplier. */
  lemma MassAffine(v: Vec, lo: Vec, hi: Vec, a: real, b: real, tau: real, t: real)
    requires |v| == |lo| == |hi| && IsBox(lo, hi)
    requires 0.0 <= t <= 1.0 && a <= tau <= b && tau == Mul(1.0 - t, a) + Mul(t, b)
    requires BreakpointsWithin(v, lo, hi, a, b) == {}
    ensures MassAt(v, lo, hi, tau) == Mul(1.0 - t, MassAt(v, lo, hi, a)) + Mul(t, MassAt(v, lo, hi, b))
  {
    hide Clip, Total, Mul;
    var x, y, z := ClipAt(v, lo, hi, a), ClipAt(v, lo, hi, b), ClipAt(v, lo, hi, tau);
    forall i | 0 <= i < |v|
      ensures z[i] == Mul(1.0 - t, x[i]) + Mul(t, y[i])
    {
      assert v[i] - lo[i] in Breakpoints(v, lo, hi) && v[i] - hi[i] in Breakpoints(v, lo, hi);
      assert v[i] - lo[i] !in BreakpointsWithin(v, lo, hi, a, b);
      assert v[i] - hi[i] !in BreakpointsWithin(v, lo, hi, a, b);
      ClipAffine(v[i], lo[i], hi[i], a, b, tau, t);
    }
    TotalLinear(1.0 - t, x, t, y, z);
  }

  lemma ClipAffine(v: real, lo: real, hi: real, a: real, b: real, tau: real, t: real)
    requires lo <= hi && 0.0 <= t <= 1.0 && a <= tau <= b && tau == Mul(1.0 - t, a) + Mul(t, b)
    requires !(a < v - lo < b) && !(a < v - hi < b)
    ensures Clip(v - tau, lo, hi) == Mul(1.0 - t, Clip(v - a, lo, hi)) + Mul(t, Clip(v - b, lo, hi))
  {
  }

  lemma Mixture(t: real, x: real)
    ensures Mul(1.0 - t, x) + Mul(t, x) == x
  {
  }

  /** A multiplier with exactly the requested mass exists if and only if the box can hold that mass. */
  lemma ProjectionExists(v: Vec, lo: Vec, hi: Vec, total: real)
    requires 0 < |v| == |lo| == |hi| && IsBox(lo, hi)
    ensures (exists tau :: MassAt(v, lo, hi, tau) == total) <==> Total(lo) <= total <= Total(hi)
  {
    if Total(lo) <= total <= Total(hi) {
      MassAtEnds(v, lo, hi);
      var tau := RootBetween(v, lo, hi, total, LoTau(v, hi), HiTau(v, lo));
    }
    forall tau
      ensures Total(lo) <= MassAt(v, lo, hi, tau) <= Total(hi)
    {
      MassInRange(v, lo, hi, tau);
    }
  }

  // ----- when the multiplier is unique

  /** Some coordinate falls as the multiplier rises from tau. */
  ghost predicate FallsAbove(v: Vec, lo: Vec, hi: Vec, tau: real)
    requires |v| == |lo| == |hi|
  {
    exists i :: 0 <= i < |v| && lo[i] < v[i] - tau <= hi[i]
  }

  /** Some coordinate rises as the multiplier falls from tau. */
  ghost predicate RisesBelow(v: Vec, lo: Vec, hi: Vec, tau: real)
    requires |v| == |lo| == |hi|
  {
    exists i :: 0 <= i < |v| && lo[i] <= v[i] - tau < hi[i]
  }

  /** One coordinate that moves strictly between two multipliers makes the masses differ. */
  lemma MassMoves(v: Vec, lo: Vec, hi: Vec, s: real, t: real, k: nat)
    requires |v| == |lo| == |hi| && s < t && k < |v|
    requires Clip(v[k] - t, lo[k], hi[k]) < Clip(v[k] - s, lo[k], hi[k])
    ensures MassAt(v, lo, hi, t) < MassAt(v, lo, hi, s)
  {
    hide Clip, Total;
    forall i | 0 <= i < |v|
      ensures ClipAt(v, lo, hi, t)[i] <= ClipAt(v, lo, hi, s)[i]
    {
      ClipLipschitz(v[i], lo[i], hi[i], s, t);
    }
    TotalStrict(ClipAt(v, lo, hi, t), ClipAt(v, lo, hi, s), k);
  }

  /** When no coordinate falls above tau, every coordinate stays at its bound up to some larger multiplier. */
  lemma {:induction false} StuckAbove(v: Vec, lo: Vec, hi: Vec, tau: real) returns (t: real)
    requires |v| == |lo| == |hi| && IsBox(lo, hi) && !FallsAbove(v, lo, hi, tau)
    ensures t > tau
    ensures forall i :: 0 <= i < |v| ==> v[i] - tau <= lo[i] || t <= v[i] - hi[i]
  {
    if |v| == 0 {
      t := tau + 1.0;
    } else {
      var n := |v| - 1;
      t := StuckAbove(v[..n], lo[..n], hi[..n], tau);
      if v[n] - tau > hi[n] {
        t := Min(t, v[n] - hi[n]);
      }
      assert forall i :: 0 <= i < n ==> v[..n][i] == v[i] && lo[..n][i] == lo[i] && hi[..n][i] == hi[i];
    }
  }

  /** When no coordinate rises below tau, every coordinate stays at its bound down to some smaller multiplier. */
  lemma {:induction false} StuckBelow(v: Vec, lo: Vec, hi: Vec, tau: real) returns (t: real)
    requires |v| == |lo| == |hi| && IsBox(lo, hi) && !RisesBelow(v, lo, hi, tau)
    ensures t < tau
    ensures forall i :: 0 <= i < |v| ==> hi[i] <= v[i] - tau || v[i] - lo[i] <= t
  {
    if |v| == 0 {
      t := tau - 1.0;
    } else {
      var n := |v| - 1;
      t := StuckBelow(v[..n], lo[..n], hi[..n], tau);
      if v[n] - tau < lo[n] {
        t := Max(t, v[n] - lo[n]);
      }
      assert forall i :: 0 <= i < n ==> v[..n][i] == v[i] && lo[..n][i] == lo[i] && hi[..n][i] == hi[i];
    }
  }

  lemma UniqueAboveIff(v: Vec, lo: Vec, hi: Vec, tau: real)
    requires |v| == |lo| == |hi| && IsBox(lo, hi)
    ensures (forall t :: t > tau ==> MassAt(v, lo, hi, t) != MassAt(v, lo, hi, tau)) <==> FallsAbove(v, lo, hi, tau)
  {
    if FallsAbove(v, lo, hi, tau) {
      var i :| 0 <= i < |v| && lo[i] < v[i] - tau <= hi[i];
      forall t | t > tau
        ensures MassAt(v, lo, hi, t) != MassAt(v, lo, hi, tau)
      {
        MassMoves(v, lo, hi, tau, t, i);
      }
    } else {
      var t := StuckAbove(v, lo, hi, tau);
      assert ClipAt(v, lo, hi, t) == ClipAt(v, lo, hi, tau);
      assert MassAt(v, lo, hi, t) == MassAt(v, lo, hi, tau);
    }
  }

  lemma UniqueBelowIff(v: Vec, lo: Vec, hi: Vec, tau: real)
    requires |v| == |lo| == |hi| && IsBox(lo, hi)
    ensures (forall t :: t < tau ==> MassAt(v, lo, hi, t) != MassAt(v, lo, hi, tau)) <==> RisesBelow(v, lo, hi, tau)
  {
    if RisesBelow(v, lo, hi, tau) {
      var i :| 0 <= i < |v| && lo[i] <= v[i] - tau < hi[i];
      forall t | t < tau
        ensures MassAt(v, lo, hi, t) != MassAt(v, lo, hi, tau)
      {
        MassMoves(v, lo, hi, t, tau, i);
      }
    } else {
      var t := StuckBelow(v, lo, hi, tau);
      assert ClipAt(v, lo, hi, t) == ClipAt(v, lo, hi, tau);
      assert MassAt(v, lo, hi, t) == MassAt(v, lo, hi, tau);
    }
  }

  /**
   * A multiplier is the only one of its mass exactly when some coordinate still falls above it and some coordinate
   * still rises below it; one coordinate strictly inside its bounds is enough for both.
   */
  lemma MultiplierUniqueIff(v: Vec, lo: Vec, hi: Vec, tau: real)
    requires |v| == |lo| == |hi| && IsBox(lo, hi)
    ensures (forall t :: MassAt(v, lo, hi, t) == MassAt(v, lo, hi, tau) ==> t == tau)
       <==> FallsAbove(v, lo, hi, tau) && RisesBelow(v, lo, hi, tau)
  {
    hide MassAt, FallsAbove, RisesBelow;
    UniqueAboveIff(v, lo, hi, tau);
    UniqueBelowIff(v, lo, hi, tau);
  }

  /** The sum with the coordinates of top at their caps and the others at their floors. */
  function CornerMass(lo: Vec, hi: Vec, top: set<nat>): real
    requires |lo| == |hi|
  {
    Total(seq(|lo|, i requires 0 <= i < |lo| => if i in top then hi[i] else lo[i]))
  }

  /** Every coordinate of top leaves its cap only after every other coordinate has reached its floor. */
  ghost predicate Separated(v: Vec, lo: Vec, hi: Vec, top: set<nat>)
    requires |v| == |lo| == |hi|
  {
    forall i, j :: 0 <= i < |v| && 0 <= j < |v| && i in top && j !in top ==> v[j] - lo[j] < v[i] - hi[i]
  }

  /** The vector reaches the requested mass at a corner of the box, where the multiplier can move freely. */
  ghost predicate RestsOnCorner(v: Vec, lo: Vec, hi: Vec, total: real)
    requires |v| == |lo| == |hi|
  {
    exists top: set<nat> :: Separated(v, lo, hi, top) && CornerMass(lo, hi, top) == total
  }

  lemma TwoRootsRest(v: Vec, lo: Vec, hi: Vec, total: real, s: real, t: real)
    requires |v| == |lo| == |hi| && IsBox(lo, hi) && s < t
    requires MassAt(v, lo, hi, s) == total == MassAt(v, lo, hi, t)
    ensures RestsOnCorner(v, lo, hi, total)
  {
    var top: set<nat> := set i | 0 <= i < |v| && v[i] - hi[i] > s;
    forall j | 0 <= j < |v| && j !in top
      ensures v[j] - lo[j] <= s
    {
      if v[j] - lo[j] > s {
        MassMoves(v, lo, hi, s, t, j);
      }
    }
    assert Separated(v, lo, hi, top);
    assert ClipAt(v, lo, hi, s) == seq(|lo|, i requires 0 <= i < |lo| => if i in top then hi[i] else lo[i]);
    assert CornerMass(lo, hi, top) == total;
  }

  /** The coordinate outside top that reaches its floor last, if there is one. */
  lemma {:induction false} LastFloor(v: Vec, lo: Vec, top: set<nat>, n: nat) returns (k: int)
    requires n <= |v| == |lo|
    ensures -1 <= k < n && (k == -1 ==> forall j :: 0 <= j < n ==> j in top)
    ensures k >= 0 ==> k !in top && forall j :: 0 <= j < n && j !in top ==> v[j] - lo[j] <= v[k] - lo[k]
  {
    k := -1;
    if n > 0 {
      k := LastFloor(v, lo, top, n - 1);
      if n - 1 !in top && (k == -1 || v[k] - lo[k] < v[n - 1] - lo[n - 1]) {
        k := n - 1;
      }
    }
  }

  /** The coordinate of top that leaves its cap first, if there is one. */
  lemma {:induction false} FirstCap(v: Vec, hi: Vec, top: set<nat>, n: nat) returns (k: int)
    requires n <= |v| == |hi|
    ensures -1 <= k < n && (k == -1 ==> forall i :: 0 <= i < n ==> i !in top)
    ensures k >= 0 ==> k in top && forall i :: 0 <= i < n && i in top ==> v[k] - hi[k] <= v[i] - hi[i]
  {
    k := -1;
    if n > 0 {
      k := FirstCap(v, hi, top, n - 1);
      if n - 1 in top && (k == -1 || v[n - 1] - hi[n - 1] < v[k] - hi[k]) {
        k := n - 1;
      }
    }
  }

  lemma CornerHasTwoRoots(v: Vec, lo: Vec, hi: Vec, top: set<nat>) returns (s: real, t: real)
    requires |v| == |lo| == |hi| && IsBox(lo, hi) && Separated(v, lo, hi, top)
    ensures s < t && MassAt(v, lo, hi, s) == CornerMass(lo, hi, top) == MassAt(v, lo, hi, t)
  {
    var f := LastFloor(v, lo, top, |v|);
    var c := FirstCap(v, hi, top, |v|);
    s := if f >= 0 then v[f] - lo[f] else if c >= 0 then v[c] - hi[c] - 1.0 else 0.0;
    t := if c >= 0 then v[c] - hi[c] else s + 1.0;
    var corner := seq(|lo|, i requires 0 <= i < |lo| => if i in top then hi[i] else lo[i]);
    assert ClipAt(v, lo, hi, s) == corner && ClipAt(v, lo, hi, t) == corner;
  }

  /** Over a box, the requested mass has two multipliers exactly when it is the mass of a separated corner. */
  lemma RootUniqueIff(v: Vec, lo: Vec, hi: Vec, total: real)
    requires |v| == |lo| == |hi| && IsBox(lo, hi)
    ensures (exists s, t :: s != t && MassAt(v, lo, hi, s) == total == MassAt(v, lo, hi, t))
            <==> RestsOnCorner(v, lo, hi, total)
  {
    hide MassAt, CornerMass, Separated;
    if s, t :| s != t && MassAt(v, lo, hi, s) == total == MassAt(v, lo, hi, t) {
      TwoRootsRest(v, lo, hi, total, Min(s, t), Max(s, t));
    }
    if top: set<nat> :| Separated(v, lo, hi, top) && CornerMass(lo, hi, top) == total {
      var s, t := CornerHasTwoRoots(v, lo, hi, top);
    }
  }

  /** The exact multiplier is not unique, although the projected vector is. */
  lemma MultiplierNotUnique()
    ensures exists s, t :: s != t && MassAt([5.0], [0.0], [1.0], s) == 1.0 == MassAt([5.0], [0.0], [1.0], t)
  {
    assert ClipAt([5.0], [0.0], [1.0], 0.0) == [1.0];
    assert ClipAt([5.0], [0.0], [1.0], 1.0) == [1.0];
    assert MassAt([5.0], [0.0], [1.0], 0.0) == 1.0 == MassAt([5.0], [0.0], [1.0], 1.0) by {
      TotalStep([1.0]);
    }
  }

  // ----- the bisection

  /** k halvings of a bracket of the given width. */
  ghost predicate Halved(loTau: real, hiTau: real, k: nat, width: real) {
    (hiTau - loTau) * Pow2(k) == width
  }

  lemma Halve(loTau: real, hiTau: real, k: nat, width: real)
    requires Halved(loTau, hiTau, k, width)
    ensures var mid := 0.5 * (loTau + hiTau);
            Halved(loTau, mid, k + 1, width) && Halved(mid, hiTau, k + 1, width)
  {
  }

  /** What a bracket of known width says about the mass at one of its ends, or anywhere if it was never halved. */
  lemma BracketMass(v: Vec, lo: Vec, hi: Vec, goal: real, loTau: real, hiTau: real, tau: real, k: nat)
    requires 0 < |v| == |lo| == |hi| && IsBox(lo, hi) && loTau <= hiTau
    requires MassAt(v, lo, hi, hiTau) <= goal <= MassAt(v, lo, hi, loTau)
    requires Halved(loTau, hiTau, k, Width(v, lo, hi))
    requires tau == loTau || tau == hiTau || (loTau == LoTau(v, hi) && hiTau == HiTau(v, lo))
    ensures Abs(MassAt(v, lo, hi, tau) - goal) <= MassError(v, lo, hi, k)
  {
    hide MassAt, Halved, Mul;
    MassMonotone(v, lo, hi, loTau, hiTau);
    assert MassAt(v, lo, hi, hiTau) <= MassAt(v, lo, hi, tau) <= MassAt(v, lo, hi, loTau) by {
      EndsBracketMass(v, lo, hi, tau);
    }
    BracketQuotient(|v|, loTau, hiTau, k, Width(v, lo, hi));
  }

  lemma EndsBracketMass(v: Vec, lo: Vec, hi: Vec, tau: real)
    requires 0 < |v| == |lo| == |hi| && IsBox(lo, hi)
    ensures MassAt(v, lo, hi, HiTau(v, lo)) <= MassAt(v, lo, hi, tau) <= MassAt(v, lo, hi, LoTau(v, hi))
  {
    MassAtEnds(v, lo, hi);
    MassInRange(v, lo, hi, tau);
  }

  lemma BracketQuotient(n: nat, loTau: real, hiTau: real, k: nat, width: real)
    requires Halved(loTau, hiTau, k, width)
    ensures Times(n, hiTau - loTau) == Times(n, width) / Pow2(k)
  {
  }

  /** From the error against the attainable mass to the error against the requested mass. */
  lemma ErrorAgainstTotal(lo: Vec, hi: Vec, total: real, s: real, err: real)
    requires Total(lo) <= s <= Total(hi)
    ensures Abs(s - Attainable(lo, hi, total)) <= Abs(s - total)
    ensures Abs(s - Attainable(lo, hi, total)) <= err ==> Abs(s - total) <= err + Infeasibility(lo, hi, total)
  {
    hide Total;
  }

  /** Bisection on the multiplier. The ghost result is the multiplier of the returned vector. */
  method ProjectCappedSimplex(v: Vec, wMin: Vec, wMax: Vec, total: real, iters: nat)
    returns (r: ProjectionResult, ghost tau: real)
    requires |v| == |wMin| == |wMax|
    ensures r.EmptyVector? <==> |v| == 0
    ensures r.Projected? ==> r.w == ClipAt(v, wMin, wMax, tau)
    ensures r.Projected? && IsBox(wMin, wMax) ==>
              && InBox(r.w, wMin, wMax)
              && Abs(Total(r.w) - Attainable(wMin, wMax, total)) <= MassError(v, wMin, wMax, iters)
              && Abs(Total(r.w) - total) <= MassError(v, wMin, wMax, iters) + Infeasibility(wMin, wMax, total)
              && (iters > 0 ==> LoTau(v, wMax) <= tau <= HiTau(v, wMin))
  {
    hide Clip, Total, Pow2, Infeasibility, Halved, MassError;
    tau := 0.0;
    if |v| == 0 {
      return EmptyVector, tau;
    }
    var loTau := MinOf(Sub(v, wMax));
    var hiTau := MaxOf(Sub(v, wMin));
    var w := ClipAt(v, wMin, wMax, 0.0);
    ghost var goal := Attainable(wMin, wMax, total);
    ghost var close := false;
    StartBisection(v, wMin, wMax, total);
    var k := 0;
    while k < iters
      invariant 0 <= k <= iters
      invariant w == ClipAt(v, wMin, wMax, tau)
      invariant Halved(loTau, hiTau, k, Width(v, wMin, wMax))
      invariant tau == loTau || tau == hiTau || (loTau == LoTau(v, wMax) && hiTau == HiTau(v, wMin))
      invariant IsBox(wMin, wMax) ==>
                  loTau <= hiTau && MassAt(v, wMin, wMax, hiTau) <= goal <= MassAt(v, wMin, wMax, loTau)
      invariant IsBox(wMin, wMax) ==> LoTau(v, wMax) <= loTau && hiTau <= HiTau(v, wMin)
      invariant IsBox(wMin, wMax) && k > 0 ==> loTau <= tau <= hiTau
    {
      var mid := 0.5 * (loTau + hiTau);
      tau := mid;
      w := ClipAt(v, wMin, wMax, mid);
      var s := Total(w);
      if Abs(s - total) <= SUM_TOLERANCE {
        close := true;
        break;
      }
      Halve(loTau, hiTau, k, Width(v, wMin, wMax));
      GoalSide(v, wMin, wMax, total, mid);
      if s > total {
        loTau := mid;
      } else {
        hiTau := mid;
      }
      k := k + 1;
    }
    r := Projected(w);
    if IsBox(wMin, wMax) {
      ClipInBox(v, wMin, wMax, tau);
      MassInRange(v, wMin, wMax, tau);
      ToleranceWithinError(v, wMin, wMax, iters);
      if !close {
        BracketMass(v, wMin, wMax, goal, loTau, hiTau, tau, iters);
      }
      ErrorAgainstTotal(wMin, wMax, total, Total(w), MassError(v, wMin, wMax, iters));
    }
  }

  lemma ToleranceWithinError(v: Vec, lo: Vec, hi: Vec, iters: nat)
    requires 0 < |v| == |lo| == |hi|
    ensures SUM_TOLERANCE <= MassError(v, lo, hi, iters)
  {
  }

  lemma StartBisection(v: Vec, lo: Vec, hi: Vec, total: real)
    requires 0 < |v| == |lo| == |hi|
    ensures Halved(LoTau(v, hi), HiTau(v, lo), 0, Width(v, lo, hi))
    ensures IsBox(lo, hi) ==>
              && LoTau(v, hi) <= HiTau(v, lo)
              && MassAt(v, lo, hi, HiTau(v, lo)) <= Attainable(lo, hi, total) <= MassAt(v, lo, hi, LoTau(v, hi))
  {
    if IsBox(lo, hi) {
      MassAtEnds(v, lo, hi);
      BoxMass(lo, lo, hi);
    }
  }

  /** The attainable mass lies on the side of the midpoint that the comparison with the total picks. */
  lemma GoalSide(v: Vec, lo: Vec, hi: Vec, total: real, mid: real)
    requires |v| == |lo| == |hi|
    ensures IsBox(lo, hi) ==>
              if MassAt(v, lo, hi, mid) > total then Attainable(lo, hi, total) <= MassAt(v, lo, hi, mid)
              else MassAt(v, lo, hi, mid) <= Attainable(lo, hi, total)
  {
    if IsBox(lo, hi) {
      MassInRange(v, lo, hi, mid);
    }
  }
}
