/** Projected-gradient ascent for the constrained mean-variance problem (qp.py). */
module QpSolver {
  import opened Vectors
  import opened CappedSimplex

  /** Maximise w.mu - (lam/2) w.(sigma w) over wMin <= w <= wMax, sum w = 1. */
  datatype Problem = Problem(mu: Vec, sigma: Matrix, wMin: Vec, wMax: Vec, lam: real)

  datatype QpResult =
    | Solved(w: Vec)
    | EmptyUniverse
    | DimensionMismatch
    | FloorsTooHigh(sumMin: real)
    | CapsTooLow(sumMax: real)

  const FEASIBILITY_SLACK := 0.000000001
  const FLAT_LIPSCHITZ := 0.000000000001
  const BISECTIONS := 200

  /** Every covariance row has at least n entries; the solver indexes the first n of each, unchecked. */
  predicate RowsCover(sigma: Matrix, n: nat) {
    forall i :: 0 <= i < |sigma| ==> |sigma[i]| >= n
  }

  /** The shape the solver checks, plus covariance rows that are long enough. */
  predicate Shaped(p: Problem) {
    |p.mu| == |p.wMin| == |p.wMax| == |p.sigma| && RowsCover(p.sigma, |p.mu|)
  }

  /** The part of the covariance that the gradient reads. */
  function Cov(p: Problem): (c: Matrix)
    requires Shaped(p)
    ensures Square(c, |p.mu|)
  {
    seq(|p.mu|, i requires 0 <= i < |p.mu| => p.sigma[i][..|p.mu|])
  }

  function AbsVec(v: Vec): (a: Vec)
    ensures |a| == |v|
  {
    seq(|v|, i requires 0 <= i < |v| => Abs(v[i]))
  }

  function RowSums(sigma: Matrix): (r: Vec)
    ensures |r| == |sigma|
  {
    seq(|sigma|, i requires 0 <= i < |sigma| => Total(AbsVec(sigma[i])))
  }

  /** The Gershgorin row-sum bound. */
  function SpectralBound(sigma: Matrix): real {
    if |sigma| == 0 then 0.0 else MaxOf(RowSums(sigma))
  }

  function StepSize(lam: real, rho: real): real {
    if Mul(lam, rho) > FLAT_LIPSCHITZ then 1.0 / Mul(lam, rho) else 1.0
  }

  function StepOf(p: Problem): real {
    StepSize(p.lam, SpectralBound(p.sigma))
  }

  function Gradient(p: Problem, w: Vec): (g: Vec)
    requires Shaped(p) && |w| == |p.mu|
    ensures |g| == |w|
  {
    seq(|w|, i requires 0 <= i < |w| => p.mu[i] - Mul(p.lam, Dot(Cov(p)[i], w)))
  }

  function Candidate(p: Problem, w: Vec): (c: Vec)
    requires Shaped(p) && |w| == |p.mu|
    ensures |c| == |w|
  {
    var g := Gradient(p, w);
    seq(|w|, i requires 0 <= i < |w| => w[i] + Mul(StepOf(p), g[i]))
  }

  /** One pass of the ascent loop: the gradient step, projected with the multiplier tau. */
  function Advance(p: Problem, w: Vec, tau: real): (w': Vec)
    requires Shaped(p) && |w| == |p.mu|
    ensures |w'| == |w|
  {
    ClipAt(Candidate(p, w), p.wMin, p.wMax, tau)
  }

  function Quad(sigma: Matrix, x: Vec): real
    requires Square(sigma, |x|)
  {
    Dot(x, MatVec(sigma, x))
  }

  function Objective(p: Problem, w: Vec): real
    requires Shaped(p) && |w| == |p.mu|
  {
    Dot(w, p.mu) - 0.5 * Mul(p.lam, Quad(Cov(p), w))
  }

  ghost predicate PositiveSemidefinite(sigma: Matrix, n: nat)
    requires Square(sigma, n)
  {
    forall x: Vec :: |x| == n ==> 0.0 <= Quad(sigma, x)
  }

  /** What the analysis assumes of a problem: a real box, a symmetric covariance, no risk seeking. */
  predicate Regular(p: Problem) {
    Shaped(p) && |p.mu| > 0 && IsBox(p.wMin, p.wMax) && Symmetric(Cov(p), |p.mu|) && 0.0 <= p.lam
  }

  /** The stop test of the loop. */
  predicate Close(x: Vec, y: Vec, tol: real)
    requires |x| == |y|
  {
    forall i :: 0 <= i < |x| ==> Abs(y[i] - x[i]) < tol
  }

  // ----- the Gershgorin bound

  function Squares(x: Vec): (s: Vec)
    ensures |s| == |x|
  {
    seq(|x|, i requires 0 <= i < |x| => Mul(x[i], x[i]))
  }

  function AbsMatrix(a: Matrix): (b: Matrix)
    ensures |b| == |a|
  {
    seq(|a|, i requires 0 <= i < |a| => AbsVec(a[i]))
  }

  lemma ScalarYoung(c: real, a: real, d: real)
    ensures 2.0 * Mul(c, Mul(a, d)) <= Mul(Mul(c, c), Abs(a)) + Mul(Abs(a), Mul(d, d))
  {
    var m := Abs(a);
    if 0.0 <= a {
      YoungNonNegative(c, m, d);
    } else {
      YoungNonNegative(-c, m, d);
      assert (-c) * (m * d) == c * (a * d);
      assert (-c) * (-c) == c * c;
    }
  }

  lemma YoungNonNegative(c: real, m: real, d: real)
    requires 0.0 <= m
    ensures 2.0 * (c * (m * d)) <= (c * c) * m + m * (d * d)
  {
  }

  lemma {:induction false} RowBound(c: real, a: Vec, d: Vec)
    requires |a| == |d|
    ensures 2.0 * Mul(c, Dot(a, d)) <= Mul(Mul(c, c), Total(AbsVec(a))) + Dot(AbsVec(a), Squares(d))
  {
    hide Mul;
    if |a| == 0 {
      MulZero(c);
      MulZero(Mul(c, c));
    } else {
      RowBound(c, a[1..], d[1..]);
      assert AbsVec(a)[1..] == AbsVec(a[1..]);
      assert Squares(d)[1..] == Squares(d[1..]);
      ScalarYoung(c, a[0], d[0]);
      MulAdd(c, Mul(a[0], d[0]), Dot(a[1..], d[1..]));
      MulAdd(Mul(c, c), Abs(a[0]), Total(AbsVec(a[1..])));
    }
  }

  lemma {:induction false} RowsBound(x: Vec, a: Matrix, d: Vec)
    requires |x| == |a| && Rows(a, |d|)
    ensures 2.0 * Dot(x, MatVec(a, d)) <= Dot(Squares(x), RowSums(a)) + Total(MatVec(AbsMatrix(a), Squares(d)))
  {
    hide Mul;
    if |a| == 0 {
    } else {
      RowsBound(x[1..], a[1..], d);
      RowBound(x[0], a[0], d);
      assert Squares(x)[1..] == Squares(x[1..]);
      assert RowSums(a)[1..] == RowSums(a[1..]);
      assert MatVec(a, d)[1..] == MatVec(a[1..], d);
      assert MatVec(AbsMatrix(a), Squares(d))[1..] == MatVec(AbsMatrix(a[1..]), Squares(d));
    }
  }

  function Ones(n: nat): (v: Vec)
    ensures |v| == n
  {
    seq(n, i => 1.0)
  }

  lemma {:induction false} DotOnes(v: Vec)
    ensures Dot(Ones(|v|), v) == Total(v)
  {
    hide Mul;
    if |v| == 0 {
    } else {
      DotOnes(v[1..]);
      assert Ones(|v|)[1..] == Ones(|v[1..]|);
      MulOne(v[0]);
    }
  }

  lemma {:induction false} NormIsTotalOfSquares(d: Vec)
    ensures Total(Squares(d)) == NormSq(d)
  {
    hide Mul;
    if |d| == 0 {
    } else {
      NormIsTotalOfSquares(d[1..]);
      assert Squares(d)[1..] == Squares(d[1..]);
    }
  }

  lemma {:induction false} WeightedAtMost(e: Vec, r: Vec, rho: real)
    requires |e| == |r|
    requires forall i :: 0 <= i < |e| ==> 0.0 <= e[i] && r[i] <= rho
    ensures Dot(e, r) <= Mul(rho, Total(e))
  {
    hide Mul;
    if |e| == 0 {
      MulZero(rho);
    } else {
      WeightedAtMost(e[1..], r[1..], rho);
      MulAdd(rho, e[0], Total(e[1..]));
      MulSigns(e[0], rho - r[0]);
      MulSub(rho, r[0], e[0]);
      MulCommutes(rho, e[0]);
    }
  }

  /** x . (sigma x) is at most the squares weighted by the absolute row sums. */
  lemma WeightedRowBound(sigma: Matrix, x: Vec)
    requires |x| > 0 && Symmetric(sigma, |x|)
    ensures Quad(sigma, x) <= Dot(Squares(x), RowSums(sigma))
  {
    var n, b, e := |x|, AbsMatrix(sigma), Squares(x);
    RowsBound(x, sigma, x);
    assert Symmetric(b, n) by {
      forall i, j | 0 <= i < n && 0 <= j < n
        ensures b[i][j] == b[j][i]
      {
        assert sigma[i][j] == sigma[j][i];
      }
    }
    hide Mul, Dot, Total;
    SymmetricAdjoint(b, e, Ones(n));
    DotOnes(MatVec(b, e));
    forall i | 0 <= i < n
      ensures MatVec(b, Ones(n))[i] == RowSums(sigma)[i]
    {
      DotOnes(b[i]);
      DotCommutes(b[i], Ones(n));
    }
    assert MatVec(b, Ones(n)) == RowSums(sigma);
  }

  lemma SquaresNonNegative(x: Vec)
    ensures forall i :: 0 <= i < |x| ==> 0.0 <= Squares(x)[i]
  {
    hide Mul;
    forall i | 0 <= i < |x|
      ensures 0.0 <= Squares(x)[i]
    {
      MulSigns(x[i], x[i]);
    }
  }

  /** x . (sigma x) is at most the largest absolute row sum times |x|^2. */
  lemma GershgorinBound(sigma: Matrix, x: Vec)
    requires |x| > 0 && Symmetric(sigma, |x|)
    ensures Quad(sigma, x) <= Mul(SpectralBound(sigma), NormSq(x))
  {
    hide Mul, Dot, Total, Quad;
    WeightedRowBound(sigma, x);
    SquaresNonNegative(x);
    WeightedAtMost(Squares(x), RowSums(sigma), SpectralBound(sigma));
    NormIsTotalOfSquares(x);
  }

  /** The step size is small enough: step * lam * d.(sigma d) <= |d|^2, in both branches. */
  lemma StepCurvature(p: Problem, d: Vec)
    requires Regular(p) && |d| == |p.mu|
    ensures Mul(StepOf(p), Mul(p.lam, Quad(Cov(p), d))) <= NormSq(d)
  {
    hide Quad, NormSq, SpectralBound, Mul;
    GershgorinBound(Cov(p), d);
    NormSqNonNegative(d);
    CovBound(p);
    MulSigns(SpectralBound(p.sigma) - SpectralBound(Cov(p)), NormSq(d));
    MulSub(SpectralBound(p.sigma), SpectralBound(Cov(p)), NormSq(d));
    StepCurvatureScalar(p.lam, SpectralBound(p.sigma), Quad(Cov(p), d), NormSq(d));
  }

  lemma {:induction false} PrefixTotal(row: Vec, n: nat)
    requires n <= |row|
    ensures 0.0 <= Total(AbsVec(row[..n])) <= Total(AbsVec(row))
  {
    if |row| == 0 {
      assert row[..n] == row;
    } else {
      assert AbsVec(row)[1..] == AbsVec(row[1..]);
      PrefixTotal(row[1..], if n == 0 then 0 else n - 1);
      if n > 0 {
        assert AbsVec(row[..n])[1..] == AbsVec(row[1..][..n - 1]);
      }
    }
  }

  /** The bound is taken over whole rows, so it bounds the part that the gradient reads. */
  lemma CovBound(p: Problem)
    requires Shaped(p) && |p.mu| > 0
    ensures SpectralBound(Cov(p)) <= SpectralBound(p.sigma)
    ensures forall i :: 0 <= i < |p.mu| ==> Total(AbsVec(Cov(p)[i])) <= SpectralBound(p.sigma)
  {
    hide Total, AbsVec;
    forall i | 0 <= i < |p.mu|
      ensures RowSums(Cov(p))[i] <= RowSums(p.sigma)[i] && Total(AbsVec(Cov(p)[i])) <= SpectralBound(p.sigma)
    {
      PrefixTotal(p.sigma[i], |p.mu|);
      assert RowSums(Cov(p))[i] == Total(AbsVec(Cov(p)[i])) && RowSums(p.sigma)[i] <= SpectralBound(p.sigma);
    }
  }

  lemma StepCurvatureScalar(lam: real, rho: real, q: real, norm: real)
    requires 0.0 <= lam && 0.0 <= norm && q <= Mul(rho, norm)
    ensures 0.0 < StepSize(lam, rho)
    ensures Mul(StepSize(lam, rho), Mul(lam, q)) <= norm
  {
  }

  // ----- one step

  lemma QuadExpansion(sigma: Matrix, u: Vec, w: Vec)
    requires |u| == |w| && Symmetric(sigma, |w|)
    ensures Quad(sigma, u) == Quad(sigma, w) + 2.0 * Dot(Sub(u, w), MatVec(sigma, w)) + Quad(sigma, Sub(u, w))
  {
    hide Mul, Dot;
    MatVecSub(sigma, u, w);
    DotSub(u, w, MatVec(sigma, w));
    DotSub(u, w, MatVec(sigma, u));
    DotSub(MatVec(sigma, u), MatVec(sigma, w), Sub(u, w));
    SymmetricAdjoint(sigma, u, w);
  }

  lemma GradientDot(p: Problem, w: Vec, d: Vec)
    requires Shaped(p) && |w| == |d| == |p.mu|
    ensures Dot(Gradient(p, w), d) == Dot(p.mu, d) - Mul(p.lam, Dot(d, MatVec(Cov(p), w)))
  {
    var g, s := Gradient(p, w), MatVec(Cov(p), w);
    hide Dot, Mul;
    forall i | 0 <= i < |g|
      ensures g[i] == Mul(1.0, p.mu[i]) + Mul(-p.lam, s[i])
    {
      MulOne(p.mu[i]);
      MulMinus(p.lam, s[i]);
    }
    DotLinear(1.0, p.mu, -p.lam, s, g, d);
    MulOne(Dot(p.mu, d));
    MulMinus(p.lam, Dot(s, d));
    DotCommutes(s, d);
  }

  /** The objective is exactly its gradient part plus the curvature of the difference. */
  lemma ObjectiveExpansion(p: Problem, u: Vec, w: Vec)
    requires Regular(p) && |u| == |w| == |p.mu|
    ensures Objective(p, u) - Objective(p, w)
         == Dot(Gradient(p, w), Sub(u, w)) - 0.5 * Mul(p.lam, Quad(Cov(p), Sub(u, w)))
  {
    hide Mul, Dot, Quad;
    GradientDot(p, w, Sub(u, w));
    DotSub(u, w, p.mu);
    DotCommutes(p.mu, Sub(u, w));
    QuadExpansion(Cov(p), u, w);
    var t := Dot(Sub(u, w), MatVec(Cov(p), w));
    MulAdd(p.lam, Quad(Cov(p), w) + 2.0 * t, Quad(Cov(p), Sub(u, w)));
    MulAdd(p.lam, Quad(Cov(p), w), 2.0 * t);
    MulAdd(p.lam, t, t);
  }

  lemma CandidateMinus(p: Problem, w: Vec, w': Vec, e: Vec)
    requires Shaped(p) && |w| == |w'| == |e| == |p.mu|
    ensures Dot(Sub(Candidate(p, w), w'), e) == Mul(StepOf(p), Dot(Gradient(p, w), e)) - Dot(Sub(w', w), e)
  {
    var step, g, z := StepOf(p), Gradient(p, w), Sub(Candidate(p, w), w');
    hide Dot, Mul, Gradient, StepOf;
    forall i | 0 <= i < |z|
      ensures z[i] == Mul(step, g[i]) + Mul(-1.0, Sub(w', w)[i])
    {
      MulMinus(1.0, Sub(w', w)[i]);
      MulOne(Sub(w', w)[i]);
    }
    DotLinear(step, g, -1.0, Sub(w', w), z, e);
    MulMinus(1.0, Dot(Sub(w', w), e));
    MulOne(Dot(Sub(w', w), e));
  }

  /**
   * The three-point inequality of one ascent step, for any multiplier tau, exact or not.
   * The tau term vanishes when u carries the same mass as the new point.
   */
  lemma ThreePoint(p: Problem, w: Vec, tau: real, u: Vec)
    requires Regular(p) && |w| == |p.mu| && InBox(u, p.wMin, p.wMax)
    requires 0.0 <= Quad(Cov(p), Sub(u, w))
    ensures var w' := Advance(p, w, tau);
            2.0 * Mul(StepOf(p), Objective(p, u) - Objective(p, w'))
              <= NormSq(Sub(u, w)) - NormSq(Sub(u, w')) + 2.0 * Mul(tau, Total(u) - Total(w'))
  {
    hide Mul, Dot, Quad, NormSq, Objective, Clip, StepOf, Gradient, Candidate;
    var w', step, g := Advance(p, w, tau), StepOf(p), Gradient(p, w);
    var d, e := Sub(w', w), Sub(u, w');
    ClipVariational(Candidate(p, w), p.wMin, p.wMax, tau, u);
    CandidateMinus(p, w, w', e);
    ObjectiveExpansion(p, w', w);
    ObjectiveExpansion(p, u, w);
    assert Sub(u, w') == Sub(Sub(u, w), d);
    DotSub(Sub(u, w), d, g);
    DotCommutes(g, e);
    DotCommutes(g, d);
    DotCommutes(g, Sub(u, w));
    StepCurvature(p, d);
    assert 0.0 < step by {
      StepPositive(p);
    }
    SplitNorm(u, w, w');
    ThreePointScalar(step, p.lam, Dot(g, e), Dot(g, d), Quad(Cov(p), d), Quad(Cov(p), Sub(u, w)),
                     Objective(p, u) - Objective(p, w'));
  }

  lemma StepPositive(p: Problem)
    requires Regular(p)
    ensures 0.0 < StepOf(p)
  {
  }

  /** |u - w|^2 = |w' - w|^2 + 2 (w' - w).(u - w') + |u - w'|^2 */
  lemma SplitNorm(u: Vec, w: Vec, w': Vec)
    requires |u| == |w| == |w'|
    ensures NormSq(Sub(u, w)) == NormSq(Sub(w', w)) + 2.0 * Dot(Sub(w', w), Sub(u, w')) + NormSq(Sub(u, w'))
  {
    hide Dot, Mul, NormSq;
    var a, d := Sub(u, w), Sub(w', w);
    assert Sub(a, d) == Sub(u, w');
    NormSqOfDifference(a, d);
    DotSub(a, d, d);
    DotCommutes(a, d);
    assert Dot(d, d) == NormSq(d) by {
      SquareIsNorm(d);
    }
  }

  lemma SquareIsNorm(d: Vec)
    ensures Dot(d, d) == NormSq(d)
  {
    hide Dot;
  }

  lemma ThreePointScalar(step: real, lam: real, ge: real, gd: real, qd: real, qu: real, gap: real)
    requires 0.0 < step && 0.0 <= lam && 0.0 <= qu
    requires gap == (ge + gd - 0.5 * Mul(lam, qu)) - (gd - 0.5 * Mul(lam, qd))
    ensures 2.0 * Mul(step, gap) <= 2.0 * Mul(step, ge) + Mul(step, Mul(lam, qd))
  {
    hide Mul;
    MulSigns(lam, qu);
    MulSigns(step, ge + 0.5 * Mul(lam, qd) - gap);
    MulSub(ge + 0.5 * Mul(lam, qd), gap, step);
    MulAdd(step, ge, 0.5 * Mul(lam, qd));
    MulAdd(step, 0.5 * Mul(lam, qd), 0.5 * Mul(lam, qd));
  }

  lemma {:induction false} ZeroQuad(sigma: Matrix, x: Vec)
    requires Square(sigma, |x|) && (forall i :: 0 <= i < |x| ==> x[i] == 0.0)
    ensures Quad(sigma, x) == 0.0 && NormSq(x) == 0.0
  {
    hide Mul;
    DotZero(x, MatVec(sigma, x));
    DotZero(x, x);
  }

  /** Every step ascends: by |w' - w|^2 / (2 step), less what a change of mass can cost. No convexity is needed. */
  lemma StepAscends(p: Problem, w: Vec, tau: real)
    requires Regular(p) && InBox(w, p.wMin, p.wMax)
    ensures var w' := Advance(p, w, tau);
            2.0 * StepOf(p) * (Objective(p, w') - Objective(p, w))
              >= NormSq(Sub(w', w)) - 2.0 * tau * (Total(w) - Total(w'))
  {
    var w' := Advance(p, w, tau);
    ZeroQuad(Cov(p), Sub(w, w));
    ThreePoint(p, w, tau, w);
    NormSymmetric(w, w');
    MulIsProduct(StepOf(p), Objective(p, w) - Objective(p, w'));
    MulIsProduct(tau, Total(w) - Total(w'));
    hide *;
    AscentScalar(StepOf(p), Objective(p, w), Objective(p, w'), tau, Total(w) - Total(w'));
  }

  lemma AscentScalar(step: real, f: real, f': real, tau: real, m: real)
    ensures 2.0 * step * (f' - f) == -2.0 * (step * (f - f')) && 2.0 * tau * m == 2.0 * (tau * m)
  {
  }

  lemma MulIsProduct(a: real, b: real)
    ensures Mul(a, b) == a * b
  {
  }

  lemma NormSymmetric(x: Vec, y: Vec)
    requires |x| == |y|
    ensures NormSq(Sub(x, y)) == NormSq(Sub(y, x))
  {
    hide Mul, Dot, NormSq;
    NormSqOfDifference(x, y);
    NormSqOfDifference(y, x);
    DotCommutes(x, y);
  }

  // ----- optimality

  ghost predicate Maximises(p: Problem, w: Vec)
    requires Shaped(p) && |w| == |p.mu|
  {
    forall u: Vec :: InBox(u, p.wMin, p.wMax) && Total(u) == Total(w) ==> Objective(p, u) <= Objective(p, w)
  }

  /** With a positive semidefinite covariance, the points the loop body leaves alone are exactly the maximisers. */
  lemma FixedPointIffOptimal(p: Problem, w: Vec)
    requires Regular(p) && PositiveSemidefinite(Cov(p), |p.mu|) && InBox(w, p.wMin, p.wMax)
    ensures (exists tau :: Advance(p, w, tau) == w) <==> Maximises(p, w)
  {
    hide Mul, Objective, NormSq, StepOf, Advance, Candidate;
    if tau :| Advance(p, w, tau) == w {
      forall u: Vec | InBox(u, p.wMin, p.wMax) && Total(u) == Total(w)
        ensures Objective(p, u) <= Objective(p, w)
      {
        FixedPointBeats(p, w, tau, u);
      }
    }
    if Maximises(p, w) {
      var tau := OptimalIsFixed(p, w);
    }
  }

  lemma FixedPointBeats(p: Problem, w: Vec, tau: real, u: Vec)
    requires Regular(p) && PositiveSemidefinite(Cov(p), |p.mu|) && |w| == |p.mu| && Advance(p, w, tau) == w
    requires InBox(u, p.wMin, p.wMax) && Total(u) == Total(w)
    ensures Objective(p, u) <= Objective(p, w)
  {
    hide Mul, Objective, NormSq, StepOf, Advance, Quad, Candidate;
    ThreePoint(p, w, tau, u);
    StepPositiveHidden(p);
    MulZero(tau);
    MulSigns(StepOf(p), Objective(p, u) - Objective(p, w));
  }

  lemma StepPositiveHidden(p: Problem)
    requires Regular(p)
    ensures 0.0 < StepOf(p)
  {
  }

  lemma OptimalIsFixed(p: Problem, w: Vec) returns (tau: real)
    requires Regular(p) && InBox(w, p.wMin, p.wMax) && Maximises(p, w)
    ensures Advance(p, w, tau) == w
  {
    hide Mul, Objective, NormSq, StepOf, Clip, Candidate;
    var c := Candidate(p, w);
    BoxMass(w, p.wMin, p.wMax);
    ProjectionExists(c, p.wMin, p.wMax, Total(w));
    tau :| MassAt(c, p.wMin, p.wMax, tau) == Total(w);
    var w' := Advance(p, w, tau);
    ClipInBox(c, p.wMin, p.wMax, tau);
    ZeroQuad(Cov(p), Sub(w, w));
    ThreePoint(p, w, tau, w);
    MulZero(tau);
    StepPositiveHidden(p);
    MulSigns(StepOf(p), Objective(p, w) - Objective(p, w'));
    NormSqZero(w, w');
  }

  // ----- whole runs of the loop

  /** The successive iterates of the loop, with the multiplier of each projection. */
  ghost predicate IsRun(p: Problem, ws: seq<Vec>, taus: seq<real>)
    requires Shaped(p)
  {
    && |ws| == |taus| + 1
    && (forall k :: 0 <= k < |ws| ==> |ws[k]| == |p.mu|)
    && (forall k :: 0 <= k < |taus| ==> ws[k + 1] == Advance(p, ws[k], taus[k]))
  }

  /** What the changes of mass along a run can take away from the ascent; zero when every projection is exact. */
  function Drift(ws: seq<Vec>, taus: seq<real>): real
    requires |ws| == |taus| + 1
  {
    if |taus| == 0 then 0.0
    else
      var n := |taus|;
      Drift(ws[..n], taus[..n - 1]) + Mul(taus[n - 1], Total(ws[n - 1]) - Total(ws[n]))
  }

  predicate ConstantMass(ws: seq<Vec>) {
    forall k :: 0 <= k < |ws| ==> Total(ws[k]) == Total(ws[0])
  }

  lemma {:induction false} ConstantMassNoDrift(ws: seq<Vec>, taus: seq<real>)
    requires |ws| == |taus| + 1 && ConstantMass(ws)
    ensures Drift(ws, taus) == 0.0
  {
    hide Mul, Total;
    if |taus| == 0 {
    } else {
      var n := |taus|;
      ConstantMassNoDrift(ws[..n], taus[..n - 1]);
      assert Total(ws[n - 1]) == Total(ws[0]) && Total(ws[n]) == Total(ws[0]);
      MulZero(taus[n - 1]);
    }
  }

  lemma RunStaysInBox(p: Problem, ws: seq<Vec>, taus: seq<real>, k: nat)
    requires Regular(p) && IsRun(p, ws, taus) && InBox(ws[0], p.wMin, p.wMax) && k < |ws|
    ensures InBox(ws[k], p.wMin, p.wMax)
  {
    hide Clip, Candidate;
    if k > 0 {
      assert ws[k - 1 + 1] == Advance(p, ws[k - 1], taus[k - 1]);
      ClipInBox(Candidate(p, ws[k - 1]), p.wMin, p.wMax, taus[k - 1]);
    }
  }

  lemma NotCloseMoves(x: Vec, y: Vec, tol: real)
    requires |x| == |y| && 0.0 <= tol && !Close(x, y, tol)
    ensures Mul(tol, tol) <= NormSq(Sub(y, x))
  {
    hide Mul, NormSq;
    var i :| 0 <= i < |x| && Abs(y[i] - x[i]) >= tol;
    CoordinateAtMostNorm(Sub(y, x), i);
    SquareMonotone(tol, y[i] - x[i]);
  }

  lemma SquareMonotone(a: real, b: real)
    requires 0.0 <= a <= Abs(b)
    ensures Mul(a, a) <= Mul(b, b)
  {
  }

  /** The passes that fail the stop test pay for themselves: N tol^2 <= 2 step (f_N - f_0), up to the drift. */
  lemma {:induction false} FailedTestsAscend(p: Problem, ws: seq<Vec>, taus: seq<real>, tol: real)
    requires Regular(p) && IsRun(p, ws, taus) && InBox(ws[0], p.wMin, p.wMax) && 0.0 <= tol
    requires forall k :: 0 <= k < |taus| ==> !Close(ws[k], ws[k + 1], tol)
    ensures Times(|taus|, Mul(tol, tol))
         <= 2.0 * Mul(StepOf(p), Objective(p, ws[|taus|]) - Objective(p, ws[0])) + 2.0 * Drift(ws, taus)
  {
    hide Mul, NormSq, StepOf, Objective, Advance, Total, Close;
    var n := |taus|;
    if n == 0 {
      MulZero(Mul(tol, tol));
      MulZero(StepOf(p));
    } else {
      var w, w' := ws[n - 1], ws[n];
      assert w' == Advance(p, w, taus[n - 1]) && !Close(w, w', tol) by {
        assert ws[n - 1 + 1] == Advance(p, ws[n - 1], taus[n - 1]);
      }
      FailedTestsAscend(p, ws[..n], taus[..n - 1], tol);
      RunStaysInBox(p, ws, taus, n - 1);
      NotCloseMoves(w, w', tol);
      StepAscendsMul(p, w, taus[n - 1]);
      TimesStep(n - 1, Mul(tol, tol));
      MulAdd(StepOf(p), Objective(p, w) - Objective(p, ws[0]), Objective(p, w') - Objective(p, w));
    }
  }

  lemma StepAscendsMul(p: Problem, w: Vec, tau: real)
    requires Regular(p) && InBox(w, p.wMin, p.wMax)
    ensures var w' := Advance(p, w, tau);
            NormSq(Sub(w', w)) <= 2.0 * Mul(StepOf(p), Objective(p, w') - Objective(p, w))
                + 2.0 * Mul(tau, Total(w) - Total(w'))
  {
    hide Mul, NormSq, StepOf, Objective, Advance, Total, Quad;
    var w' := Advance(p, w, tau);
    ZeroQuad(Cov(p), Sub(w, w));
    ThreePoint(p, w, tau, w);
    NormSymmetric(w, w');
    MulMinus(StepOf(p), Objective(p, w) - Objective(p, w'));
  }

  /**
   * With exact projections and f bounded by top on the box, the stop test fires within 2 step (top - f_0) / tol^2
   * passes.
   */
  lemma StopTestFires(p: Problem, ws: seq<Vec>, taus: seq<real>, tol: real, top: real)
    requires Regular(p) && IsRun(p, ws, taus) && InBox(ws[0], p.wMin, p.wMax) && ConstantMass(ws)
    requires 0.0 < tol
    requires forall u: Vec :: InBox(u, p.wMin, p.wMax) ==> Objective(p, u) <= top
    requires |taus| as real * (tol * tol) > 2.0 * (StepOf(p) * (top - Objective(p, ws[0])))
    ensures exists k :: 0 <= k < |taus| && Close(ws[k], ws[k + 1], tol)
  {
    hide Mul, StepOf, Objective, Advance, Close, ConstantMass;
    if forall k :: 0 <= k < |taus| ==> !Close(ws[k], ws[k + 1], tol) {
      FailedTestsAscend(p, ws, taus, tol);
      ConstantMassNoDrift(ws, taus);
      RunStaysInBox(p, ws, taus, |taus|);
      StepPositiveHidden(p);
      StopScalar(|taus|, tol, StepOf(p), Objective(p, ws[|taus|]), Objective(p, ws[0]), top);
      assert false;
    }
  }

  lemma StopScalar(n: nat, tol: real, step: real, last: real, first: real, top: real)
    requires 0.0 < step && last <= top
    requires Times(n, Mul(tol, tol)) <= 2.0 * Mul(step, last - first)
    ensures n as real * (tol * tol) <= 2.0 * (step * (top - first))
  {
  }

  // ----- how good the iterates are

  /** Against any box point, the run's shortfalls add up to at most |u - w_0|^2, up to the mass terms of each step. */
  function Regret(p: Problem, ws: seq<Vec>, taus: seq<real>, u: Vec): real
    requires Shaped(p) && IsRun(p, ws, taus) && |u| == |p.mu|
  {
    if |taus| == 0 then 0.0
    else
      var n := |taus|;
      assert ws[..n][|taus[..n - 1]|] == ws[n - 1];
      Regret(p, ws[..n], taus[..n - 1], u)
        + 2.0 * Mul(StepOf(p), Objective(p, u) - Objective(p, ws[n]))
        - 2.0 * Mul(taus[n - 1], Total(u) - Total(ws[n]))
  }

  lemma {:induction false} RegretBound(p: Problem, ws: seq<Vec>, taus: seq<real>, u: Vec)
    requires Regular(p) && PositiveSemidefinite(Cov(p), |p.mu|) && IsRun(p, ws, taus)
    requires InBox(u, p.wMin, p.wMax)
    ensures Regret(p, ws, taus, u) <= NormSq(Sub(u, ws[0])) - NormSq(Sub(u, ws[|taus|]))
  {
    hide Mul, NormSq, StepOf, Objective, Advance, Total, Quad;
    var n := |taus|;
    if n == 0 {
    } else {
      RegretBound(p, ws[..n], taus[..n - 1], u);
      assert ws[n - 1 + 1] == Advance(p, ws[n - 1], taus[n - 1]);
      ThreePoint(p, ws[n - 1], taus[n - 1], u);
    }
  }

  /**
   * With exact projections the N-th iterate is within |u - w_0|^2 / (2 step N) of any feasible u, the maximiser
   * included.
   */
  lemma {:induction false} ConvergenceRate(p: Problem, ws: seq<Vec>, taus: seq<real>, u: Vec)
    requires Regular(p) && PositiveSemidefinite(Cov(p), |p.mu|) && IsRun(p, ws, taus)
    requires InBox(ws[0], p.wMin, p.wMax) && ConstantMass(ws)
    requires InBox(u, p.wMin, p.wMax) && Total(u) == Total(ws[0])
    ensures 2.0 * Times(|taus|, Mul(StepOf(p), Objective(p, u) - Objective(p, ws[|taus|])))
         <= NormSq(Sub(u, ws[0])) - NormSq(Sub(u, ws[|taus|]))
  {
    hide Mul, NormSq, StepOf, Objective, Advance, Total, Quad;
    var n := |taus|;
    if n == 0 {
      MulZero(Mul(StepOf(p), Objective(p, u) - Objective(p, ws[0])));
    } else {
      var w, w' := ws[n - 1], ws[n];
      ConvergenceRate(p, ws[..n], taus[..n - 1], u);
      assert ws[n - 1 + 1] == Advance(p, w, taus[n - 1]);
      assert Total(w') == Total(u) && Total(w) == Total(u);
      ThreePoint(p, w, taus[n - 1], u);
      MulZero(taus[n - 1]);
      RunStaysInBox(p, ws, taus, n - 1);
      StepAscendsMul(p, w, taus[n - 1]);
      NormSqNonNegative(Sub(w', w));
      var step := StepOf(p);
      var before, after := Mul(step, Objective(p, u) - Objective(p, w)), Mul(step, Objective(p, u) - Objective(p, w'));
      assert after <= before by {
        MulSub(Objective(p, w'), Objective(p, w), step);
        MulSub(Objective(p, u), Objective(p, w), step);
        MulSub(Objective(p, u), Objective(p, w'), step);
      }
      TimesStep(n - 1, after);
      TimesMonotone(n - 1, after, before);
    }
  }

  lemma TimesMonotone(n: nat, a: real, b: real)
    requires a <= b
    ensures Times(n, a) <= Times(n, b)
  {
  }

  /** When the stop test passes, the new point is within tol * sum(wMax - wMin) / step of the best of its mass. */
  lemma StopCertificate(p: Problem, w: Vec, tau: real, tol: real, u: Vec)
    requires Regular(p) && PositiveSemidefinite(Cov(p), |p.mu|) && InBox(w, p.wMin, p.wMax)
    requires Close(w, Advance(p, w, tau), tol)
    requires InBox(u, p.wMin, p.wMax) && Total(u) == Total(Advance(p, w, tau))
    ensures StepOf(p) * (Objective(p, u) - Objective(p, Advance(p, w, tau))) <= tol * (Total(p.wMax) - Total(p.wMin))
  {
    hide Mul, NormSq, StepOf, Objective, Quad, Candidate, Clip, Close, Total;
    var w' := Advance(p, w, tau);
    ClipInBox(Candidate(p, w), p.wMin, p.wMax, tau);
    MulIsProduct(StepOf(p), Objective(p, u) - Objective(p, w'));
    MulIsProduct(tol, Total(p.wMax) - Total(p.wMin));
    ThreePoint(p, w, tau, u);
    MulZero(tau);
    NormGap(u, w, w', p.wMin, p.wMax, tol);
  }

  /** Between two points closer than tol, squared distances to a box point differ by at most 2 tol sum(hi - lo). */
  lemma {:induction false} NormGap(u: Vec, w: Vec, w': Vec, lo: Vec, hi: Vec, tol: real)
    requires InBox(u, lo, hi) && InBox(w, lo, hi) && InBox(w', lo, hi) && Close(w, w', tol)
    ensures NormSq(Sub(u, w)) - NormSq(Sub(u, w')) <= 2.0 * Mul(tol, Total(hi) - Total(lo))
  {
    hide Mul;
    if |u| == 0 {
      MulZero(tol);
    } else {
      forall i | 0 <= i < |w[1..]|
        ensures Abs(w'[1..][i] - w[1..][i]) < tol
      {
        assert Abs(w'[i + 1] - w[i + 1]) < tol;
      }
      NormGap(u[1..], w[1..], w'[1..], lo[1..], hi[1..], tol);
      SubTail(u, w);
      SubTail(u, w');
      ScalarGap(u[0], w[0], w'[0], lo[0], hi[0], tol);
      MulAdd(tol, hi[0] - lo[0], Total(hi[1..]) - Total(lo[1..]));
    }
  }

  lemma ScalarGap(u: real, w: real, w': real, lo: real, hi: real, tol: real)
    requires lo <= u <= hi && lo <= w <= hi && lo <= w' <= hi && Abs(w' - w) < tol
    ensures Mul(u - w, u - w) - Mul(u - w', u - w') <= 2.0 * Mul(tol, hi - lo)
  {
    var d, a, b := w' - w, u - w, u - w';
    assert Mul(a, a) - Mul(b, b) == Mul(d, a) + Mul(d, b);
    hide Mul;
    ProductAtMost(d, a, tol, hi - lo);
    ProductAtMost(d, b, tol, hi - lo);
  }

  lemma ProductAtMost(d: real, a: real, tol: real, width: real)
    requires Abs(d) <= tol && Abs(a) <= width
    ensures Mul(d, a) <= Mul(tol, width)
  {
  }

  // ----- the solver

  /** No pass of the run has passed the stop test. */
  ghost predicate NoneClose(ws: seq<Vec>, tol: real) {
    forall k :: 0 <= k < |ws| - 1 ==> |ws[k]| == |ws[k + 1]| && !Close(ws[k], ws[k + 1], tol)
  }

  /** The loop stopped where it should: it ran out of passes, or the last pass is the first to pass the stop test. */
  ghost predicate StoppedRight(ws: seq<Vec>, tol: real, maxIters: nat) {
    var n := |ws| - 1;
    || (n == maxIters && NoneClose(ws, tol))
    || (1 <= n <= maxIters && NoneClose(ws[..n], tol) && |ws[n - 1]| == |ws[n]| && Close(ws[n - 1], ws[n], tol))
  }

  /** How far the projection of c may miss a total of one once the feasibility guard has passed. */
  function MassMiss(p: Problem, c: Vec): real
    requires 0 < |c| == |p.wMin| == |p.wMax|
  {
    MassError(c, p.wMin, p.wMax, BISECTIONS) + FEASIBILITY_SLACK
  }

  /** The mass every projection of the solver aims at: one, or the nearest that the box can hold. */
  function Goal(p: Problem): real {
    Attainable(p.wMin, p.wMax, 1.0)
  }

  /** How close the projection of c comes: to one within the guard's slack, to the common goal without it. */
  predicate Hits(p: Problem, c: Vec, w: Vec)
    requires 0 < |c| == |p.wMin| == |p.wMax|
  {
    && Abs(Total(w) - 1.0) <= MassMiss(p, c)
    && Abs(Total(w) - Goal(p)) <= MassError(c, p.wMin, p.wMax, BISECTIONS)
  }

  function Uniform(n: nat): Vec
    requires n > 0
  {
    seq(n, i => 1.0 / (n as real))
  }

  ghost predicate GuardPasses(p: Problem) {
    Total(p.wMin) <= 1.0 + FEASIBILITY_SLACK && Total(p.wMax) >= 1.0 - FEASIBILITY_SLACK
  }

  /** The guard lets a box through exactly when some point of it sums to one within the slack. */
  lemma GuardIsFeasibility(p: Problem)
    requires IsBox(p.wMin, p.wMax)
    ensures GuardPasses(p) <==> exists u: Vec :: InBox(u, p.wMin, p.wMax) && Abs(Total(u) - 1.0) <= FEASIBILITY_SLACK
  {
    var lo, hi := p.wMin, p.wMax;
    BoxMass(lo, lo, hi);
    if GuardPasses(p) {
      if |lo| == 0 {
        assert false;
      }
      var goal := Clip(1.0, Total(lo), Total(hi));
      ProjectionExists(lo, lo, hi, goal);
      var tau :| MassAt(lo, lo, hi, tau) == goal;
      ClipInBox(lo, lo, hi, tau);
      var u := ClipAt(lo, lo, hi, tau);
      assert InBox(u, lo, hi) && Abs(Total(u) - 1.0) <= FEASIBILITY_SLACK;
    }
    if u :| InBox(u, lo, hi) && Abs(Total(u) - 1.0) <= FEASIBILITY_SLACK {
      BoxMass(u, lo, hi);
    }
  }

  /**
   * A floor above its cap passes the guard and is undercut: every projection of mass one puts the first weight on its
   * cap of 0.4, under its floor of 0.6, and that of the uniform weights is one.
   */
  lemma FloorAboveCap(c: Vec, tau: real)
    requires |c| == 2 && MassAt(c, [0.6, 0.0], [0.4, 0.6], tau) == 1.0
    ensures ClipAt(c, [0.6, 0.0], [0.4, 0.6], tau) == [0.4, 0.6]
    ensures GuardPasses(Problem([0.0, 0.0], [[1.0, 0.0], [0.0, 1.0]], [0.6, 0.0], [0.4, 0.6], 1.0))
    ensures MassAt(Uniform(2), [0.6, 0.0], [0.4, 0.6], -0.1) == 1.0
  {
    var w := ClipAt(c, [0.6, 0.0], [0.4, 0.6], tau);
    TotalOfTwo(w);
    TotalOfTwo([0.6, 0.0]);
    TotalOfTwo([0.4, 0.6]);
    TotalOfTwo(ClipAt(Uniform(2), [0.6, 0.0], [0.4, 0.6], -0.1));
  }

  lemma TotalOfTwo(v: Vec)
    requires |v| == 2
    ensures Total(v) == v[0] + v[1]
  {
    TotalStep(v);
    TotalStep(v[1..]);
  }

  /** Every iterate of the run is a projection: inside the box, and as close to its goal as bisection gets. */
  ghost predicate MassesControlled(p: Problem, ws: seq<Vec>)
    requires Shaped(p) && |p.mu| > 0 && |ws| > 0 && (forall k :: 0 <= k < |ws| ==> |ws[k]| == |p.mu|)
  {
    && (forall k :: 0 <= k < |ws| ==> InBox(ws[k], p.wMin, p.wMax))
    && Hits(p, Uniform(|p.mu|), ws[0])
    && (forall k :: 0 <= k < |ws| - 1 ==> Hits(p, Candidate(p, ws[k]), ws[k + 1]))
  }

  /** Every multiplier of the run lies in the bracket of its bisection. */
  ghost predicate MultipliersControlled(p: Problem, ws: seq<Vec>, taus: seq<real>)
    requires Shaped(p) && |p.mu| > 0 && |ws| == |taus| + 1 && (forall k :: 0 <= k < |ws| ==> |ws[k]| == |p.mu|)
  {
    forall k :: 0 <= k < |taus| ==>
      LoTau(Candidate(p, ws[k]), p.wMax) <= taus[k] <= HiTau(Candidate(p, ws[k]), p.wMin)
  }

  /** A run as the solver makes it: it starts at the projection of the uniform weights. */
  ghost predicate IsSolverRun(p: Problem, ws: seq<Vec>, taus: seq<real>)
    requires Shaped(p) && |p.mu| > 0
  {
    && IsRun(p, ws, taus)
    && (exists tau :: ws[0] == ClipAt(Uniform(|p.mu|), p.wMin, p.wMax, tau))
    && (IsBox(p.wMin, p.wMax) ==> MassesControlled(p, ws) && MultipliersControlled(p, ws, taus))
  }

  /** What one call of the projection promises inside the solver. */
  ghost predicate ProjectedTo(p: Problem, c: Vec, w: Vec, tau: real)
    requires 0 < |c| == |p.wMin| == |p.wMax|
  {
    && w == ClipAt(c, p.wMin, p.wMax, tau)
    && (IsBox(p.wMin, p.wMax) ==>
          && InBox(w, p.wMin, p.wMax) && Hits(p, c, w)
          && LoTau(c, p.wMax) <= tau <= HiTau(c, p.wMin))
  }

  method ProjectToOne(p: Problem, c: Vec) returns (w: Vec, ghost tau: real)
    requires 0 < |c| == |p.wMin| == |p.wMax| && GuardPasses(p)
    ensures ProjectedTo(p, c, w, tau)
    ensures |w| == |c| && (IsBox(p.wMin, p.wMax) ==> InBox(w, p.wMin, p.wMax) && Hits(p, c, w))
  {
    var r;
    r, tau := ProjectCappedSimplex(c, p.wMin, p.wMax, 1.0, BISECTIONS);
    w := r.w;
    hide Clip, Total, MassError;
    assert Infeasibility(p.wMin, p.wMax, 1.0) <= FEASIBILITY_SLACK;
  }

  lemma StartRun(p: Problem, w: Vec, tau: real)
    requires Shaped(p) && |p.mu| > 0 && ProjectedTo(p, Uniform(|p.mu|), w, tau)
    ensures IsSolverRun(p, [w], []) && |w| == |p.mu|
  {
    hide Clip, Total, Hits;
  }

  lemma ExtendIsRun(p: Problem, ws: seq<Vec>, taus: seq<real>, tau: real)
    requires Shaped(p) && IsRun(p, ws, taus)
    ensures IsRun(p, ws + [Advance(p, ws[|taus|], tau)], taus + [tau])
  {
    hide Advance;
  }

  lemma ExtendMasses(p: Problem, ws: seq<Vec>, w': Vec)
    requires Shaped(p) && |p.mu| == |w'| > 0 && |ws| > 0 && (forall k :: 0 <= k < |ws| ==> |ws[k]| == |p.mu|)
    requires MassesControlled(p, ws) && InBox(w', p.wMin, p.wMax) && Hits(p, Candidate(p, ws[|ws| - 1]), w')
    ensures MassesControlled(p, ws + [w'])
  {
    hide Hits, Candidate, InBox, Uniform;
  }

  lemma ExtendMultipliers(p: Problem, ws: seq<Vec>, taus: seq<real>, w': Vec, tau: real)
    requires Shaped(p) && |p.mu| == |w'| > 0 && |ws| == |taus| + 1 && (forall k :: 0 <= k < |ws| ==> |ws[k]| == |p.mu|)
    requires MultipliersControlled(p, ws, taus)
    requires LoTau(Candidate(p, ws[|taus|]), p.wMax) <= tau <= HiTau(Candidate(p, ws[|taus|]), p.wMin)
    ensures MultipliersControlled(p, ws + [w'], taus + [tau])
  {
    hide Candidate, LoTau, HiTau;
  }

  lemma ExtendRun(p: Problem, ws: seq<Vec>, taus: seq<real>, w': Vec, tau: real)
    requires Shaped(p) && |p.mu| > 0 && |ws| == |taus| + 1 && IsSolverRun(p, ws, taus)
    requires |ws[|taus|]| == |p.mu| && ProjectedTo(p, Candidate(p, ws[|taus|]), w', tau)
    ensures IsSolverRun(p, ws + [w'], taus + [tau]) && |w'| == |p.mu|
  {
    hide IsRun, ClipAt, Candidate, Hits, InBox, LoTau, HiTau, MassesControlled, MultipliersControlled, Uniform, IsBox;
    RunLengths(p, ws, taus);
    assert w' == Advance(p, ws[|taus|], tau);
    ExtendIsRun(p, ws, taus, tau);
    assert (ws + [w'])[0] == ws[0];
    if IsBox(p.wMin, p.wMax) {
      ExtendMasses(p, ws, w');
      ExtendMultipliers(p, ws, taus, w', tau);
    }
  }

  lemma RunLengths(p: Problem, ws: seq<Vec>, taus: seq<real>)
    requires Shaped(p) && IsRun(p, ws, taus)
    ensures |ws| == |taus| + 1 && forall k :: 0 <= k < |ws| ==> |ws[k]| == |p.mu|
  {
  }

  method GradientStep(p: Problem, w: Vec, step: real) returns (candidate: Vec)
    requires Shaped(p) && |w| == |p.mu| && step == StepOf(p)
    ensures candidate == Candidate(p, w)
  {
    var n := |w|;
    hide Mul, Dot, StepOf;
    var grad := seq(n, i requires 0 <= i < n => p.mu[i] - Mul(p.lam, Dot(p.sigma[i][..n], w)));
    candidate := seq(n, i requires 0 <= i < n => w[i] + Mul(step, grad[i]));
    assert grad == Gradient(p, w);
  }

  lemma NotCloseExtends(ws: seq<Vec>, w': Vec, tol: real)
    requires |ws| > 0 && |ws[|ws| - 1]| == |w'| && NoneClose(ws, tol) && !Close(ws[|ws| - 1], w', tol)
    ensures NoneClose(ws + [w'], tol)
  {
    hide Close;
  }

  lemma NoneCloseYet(w: Vec, tol: real)
    ensures NoneClose([w], tol)
  {
  }

  lemma RanOut(ws: seq<Vec>, tol: real, maxIters: nat)
    requires |ws| == maxIters + 1 && NoneClose(ws, tol)
    ensures StoppedRight(ws, tol, maxIters)
  {
    hide NoneClose;
  }

  lemma StopsHere(ws: seq<Vec>, w': Vec, tol: real, maxIters: nat)
    requires 0 < |ws| <= maxIters && |ws[|ws| - 1]| == |w'| && NoneClose(ws, tol) && Close(ws[|ws| - 1], w', tol)
    ensures StoppedRight(ws + [w'], tol, maxIters)
  {
    hide Close, NoneClose;
    assert (ws + [w'])[..|ws|] == ws;
  }

  method SolveQp(p: Problem, tol: real, maxIters: nat)
    returns (r: QpResult, ghost ws: seq<Vec>, ghost taus: seq<real>)
    requires |p.sigma| == |p.mu| ==> RowsCover(p.sigma, |p.mu|)
    ensures r.EmptyUniverse? <==> |p.mu| == 0
    ensures r.DimensionMismatch? <==> |p.mu| > 0 && !Shaped(p)
    ensures r.Solved? <==> |p.mu| > 0 && Shaped(p) && GuardPasses(p)
    ensures r.FloorsTooHigh? ==> r.sumMin == Total(p.wMin) > 1.0 + FEASIBILITY_SLACK
    ensures r.CapsTooLow? ==>
              Total(p.wMin) <= 1.0 + FEASIBILITY_SLACK && r.sumMax == Total(p.wMax) < 1.0 - FEASIBILITY_SLACK
    ensures r.Solved? ==> IsSolverRun(p, ws, taus) && StoppedRight(ws, tol, maxIters) && r.w == ws[|taus|]
  {
    ws, taus := [], [];
    var n := |p.mu|;
    if n == 0 {
      return EmptyUniverse, ws, taus;
    }
    if !(|p.sigma| == n && |p.wMin| == n && |p.wMax| == n) {
      return DimensionMismatch, ws, taus;
    }
    var sumMin := Total(p.wMin);
    var sumMax := Total(p.wMax);
    if sumMin > 1.0 + FEASIBILITY_SLACK {
      return FloorsTooHigh(sumMin), ws, taus;
    }
    if sumMax < 1.0 - FEASIBILITY_SLACK {
      return CapsTooLow(sumMax), ws, taus;
    }
    var lipschitz := Mul(p.lam, SpectralBound(p.sigma));
    var step := if lipschitz > FLAT_LIPSCHITZ then 1.0 / lipschitz else 1.0;
    assert step == StepOf(p);
    hide Mul, Total, Close, ProjectedTo, IsSolverRun, SpectralBound, StepOf, Candidate, Uniform, NoneClose,
         StoppedRight;

    var w, tau := ProjectToOne(p, Uniform(n));
    ws := [w];
    StartRun(p, w, tau);
    NoneCloseYet(w, tol);
    var k := 0;
    while k < maxIters
      invariant 0 <= k <= maxIters && |taus| == k
      invariant |ws| == k + 1 && w == ws[k] && |w| == n
      invariant IsSolverRun(p, ws, taus) && NoneClose(ws, tol)
    {
      var candidate := GradientStep(p, w, step);
      var wNext;
      wNext, tau := ProjectToOne(p, candidate);
      ExtendRun(p, ws, taus, wNext, tau);
      ghost var was := ws;
      ws, taus := ws + [wNext], taus + [tau];
      var previous := w;
      w := wNext;
      if Close(previous, wNext, tol) {
        StopsHere(was, wNext, tol, maxIters);
        return Solved(w), ws, taus;
      }
      NotCloseExtends(was, wNext, tol);
      k := k + 1;
    }
    RanOut(ws, tol, maxIters);
    r := Solved(w);
  }
}
