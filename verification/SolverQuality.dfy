/** What the solver's answer is worth, written from the inputs of the problem alone (qp.py). */
module SolverQuality {
  import opened Vectors
  import opened CappedSimplex
  import opened QpSolver
  import opened SolverBounds

  // ----- one pass and the objective, on the inputs

  /** The entries of z are the products of those of x and y. */
  predicate AreProducts(z: Vec, x: Vec, y: Vec) {
    |z| == |x| == |y| && forall i :: 0 <= i < |z| ==> z[i] == Mul(x[i], y[i])
  }

  lemma {:induction false} DotIsTotal(x: Vec, y: Vec, z: Vec)
    requires AreProducts(z, x, y)
    ensures Dot(x, y) == Total(z)
  {
    hide Mul;
    if |x| > 0 {
      DotIsTotal(x[1..], y[1..], z[1..]);
    }
  }

  /** The entries of mags are the magnitudes of those of a. */
  predicate AreMagnitudes(mags: Matrix, a: Matrix) {
    |mags| == |a| && forall i :: 0 <= i < |a| ==>
      && |mags[i]| == |a[i]|
      && forall j :: 0 <= j < |a[i]| ==> mags[i][j] >= 0.0 && (mags[i][j] == a[i][j] || mags[i][j] == -a[i][j])
  }

  lemma MagnitudesAreSums(sigma: Matrix, mags: Matrix, i: nat)
    requires AreMagnitudes(mags, sigma) && i < |sigma|
    ensures RowSums(sigma)[i] == Total(mags[i])
  {
    hide Total;
    assert AbsVec(sigma[i]) == mags[i];
  }

  /** The largest row sum of magnitudes, whole rows counted, decides the step. */
  lemma LargestRowSum(sigma: Matrix, mags: Matrix, k: nat)
    requires AreMagnitudes(mags, sigma) && k < |sigma|
    requires forall i :: 0 <= i < |sigma| ==> Total(mags[i]) <= Total(mags[k])
    ensures SpectralBound(sigma) == Total(mags[k])
  {
    hide Total, RowSums, AreMagnitudes, MaxOf;
    var i :| 0 <= i < |sigma| && RowSums(sigma)[i] == SpectralBound(sigma);
    MagnitudesAreSums(sigma, mags, i);
    MagnitudesAreSums(sigma, mags, k);
    assert RowSums(sigma)[k] <= SpectralBound(sigma);
  }

  lemma StepIsReciprocal(lam: real, rho: real)
    ensures Mul(if Mul(lam, rho) > 0.000000000001 then Mul(lam, rho) else 1.0, StepSize(lam, rho)) == 1.0
  {
    var x := Mul(lam, rho);
    if x > 0.000000000001 {
      assert Mul(x, 1.0 / x) == 1.0;
    }
  }

  /**
   * What one pass projects: each weight moved along its gradient mu - lam sigma w, divided by lam times the largest row
   * sum, or by one where that product is at most 1e-12.
   */
  lemma PassOnInputs(p: Problem, w: Vec, i: nat, terms: Vec, mags: Matrix, k: nat)
    requires Shaped(p) && i < |w| == |p.mu|
    requires |terms| == |w| && forall j :: 0 <= j < |w| ==> terms[j] == Mul(p.sigma[i][j], w[j])
    requires AreMagnitudes(mags, p.sigma) && k < |p.sigma|
            && forall r :: 0 <= r < |p.sigma| ==> Total(mags[r]) <= Total(mags[k])
    ensures var scale := if Mul(p.lam, Total(mags[k])) > 0.000000000001 then Mul(p.lam, Total(mags[k])) else 1.0;
            Mul(scale, Candidate(p, w)[i] - w[i]) == p.mu[i] - Mul(p.lam, Total(terms))
  {
    hide Mul, Dot, Total, StepSize, SpectralBound;
    LargestRowSum(p.sigma, mags, k);
    StepIsReciprocal(p.lam, Total(mags[k]));
    assert AreProducts(terms, Cov(p)[i], w);
    DotIsTotal(Cov(p)[i], w, terms);
    var scale := if Mul(p.lam, Total(mags[k])) > 0.000000000001 then Mul(p.lam, Total(mags[k])) else 1.0;
    Associates(scale, StepOf(p), Gradient(p, w)[i]);
    MulOne(Gradient(p, w)[i]);
  }

  /** The mean-variance objective w.mu - (lam / 2) w.(sigma w), coordinate by coordinate. */
  lemma ObjectiveOnInputs(p: Problem, w: Vec, gains: Vec, risks: Vec, terms: Matrix)
    requires Shaped(p) && |w| == |p.mu| && AreProducts(gains, w, p.mu)
    requires |terms| == |risks| == |w| && forall i :: 0 <= i < |w| ==>
               && |terms[i]| == |w| && risks[i] == Mul(w[i], Total(terms[i]))
               && forall j :: 0 <= j < |w| ==> terms[i][j] == Mul(p.sigma[i][j], w[j])
    ensures Objective(p, w) == Total(gains) - 0.5 * Mul(p.lam, Total(risks))
  {
    hide Mul, Dot, Total;
    var y := MatVec(Cov(p), w);
    DotIsTotal(w, p.mu, gains);
    forall i | 0 <= i < |w|
      ensures y[i] == Total(terms[i])
    {
      assert AreProducts(terms[i], Cov(p)[i], w);
      DotIsTotal(Cov(p)[i], w, terms[i]);
    }
    assert AreProducts(risks, w, y);
    DotIsTotal(w, y, risks);
  }

  /** The first iterate: the uniform weights 1/n, shifted by one multiplier and held between the bounds. */
  lemma StartOnInputs(p: Problem, ws: seq<Vec>, taus: seq<real>) returns (tau: real)
    requires Regular(p) && IsSolverRun(p, ws, taus)
    ensures |ws| > 0 && |ws[0]| == |p.mu|
    ensures forall i :: 0 <= i < |p.mu| ==>
              var x := 1.0 / (|p.mu| as real) - tau;
              ws[0][i] == if x < p.wMin[i] then p.wMin[i] else if x > p.wMax[i] then p.wMax[i] else x
  {
    hide MassesControlled, MultipliersControlled, Advance;
    tau :| ws[0] == ClipAt(Uniform(|p.mu|), p.wMin, p.wMax, tau);
  }

  lemma CloseOnInputs(x: Vec, y: Vec, tol: real)
    requires |x| == |y|
    ensures Close(x, y, tol) <==> forall i :: 0 <= i < |x| ==> -tol < y[i] - x[i] < tol
  {
    forall i | 0 <= i < |x|
      ensures Abs(y[i] - x[i]) < tol <==> -tol < y[i] - x[i] < tol
    {
    }
  }

  /**
   * When the loop stops: every pass k but the last moved some weight by at least the tolerance, and unless the passes
   * ran out the last one moved every weight by less.
   */
  lemma StopOnInputs(ws: seq<Vec>, tol: real, maxIters: nat, n: nat, k: nat)
    requires StoppedRight(ws, tol, maxIters) && |ws| == n + 1
    ensures n <= maxIters
    ensures k + 1 < n ==> && |ws[k]| == |ws[k + 1]|
                          && !forall i :: 0 <= i < |ws[k]| ==> -tol < ws[k + 1][i] - ws[k][i] < tol
    ensures n < maxIters ==> && n > 0 && |ws[n - 1]| == |ws[n]|
                             && forall i :: 0 <= i < |ws[n - 1]| ==> -tol < ws[n][i] - ws[n - 1][i] < tol
  {
    hide Close, StoppedRight;
    LastClose(ws, tol, maxIters, n);
    if k + 1 < n {
      EarlierNotClose(ws, tol, maxIters, n, k);
      CloseOnInputs(ws[k], ws[k + 1], tol);
    }
    if n < maxIters {
      CloseOnInputs(ws[n - 1], ws[n], tol);
    }
  }

  lemma EarlierNotClose(ws: seq<Vec>, tol: real, maxIters: nat, n: nat, k: nat)
    requires StoppedRight(ws, tol, maxIters) && |ws| == n + 1 && k + 1 < n
    ensures |ws[k]| == |ws[k + 1]| && !Close(ws[k], ws[k + 1], tol)
  {
    hide Close;
    assert ws[..n][k] == ws[k] && ws[..n][k + 1] == ws[k + 1];
  }

  lemma LastClose(ws: seq<Vec>, tol: real, maxIters: nat, n: nat)
    requires StoppedRight(ws, tol, maxIters) && |ws| == n + 1
    ensures n <= maxIters
    ensures n < maxIters ==> n > 0 && |ws[n - 1]| == |ws[n]| && Close(ws[n - 1], ws[n], tol)
  {
    hide Close, NoneClose;
  }

  // ----- the answer

  /** The magnitudes of the inputs. */
  ghost predicate Bounded(p: Problem, m: real, b: real) {
    && 0.0 <= m && 0.0 <= b && (forall i :: 0 <= i < |p.mu| ==> -m <= p.mu[i] <= m)
    && (forall i :: 0 <= i < |p.wMin| ==> -b <= p.wMin[i] <= b)
    && (forall i :: 0 <= i < |p.wMax| ==> -b <= p.wMax[i] <= b)
  }

  lemma SizeWithin(v: Vec, c: real)
    requires |v| > 0 && forall i :: 0 <= i < |v| ==> -c <= v[i] <= c
    ensures Size(v) <= c
  {
    hide MaxOf;
    var i :| 0 <= i < |v| && AbsVec(v)[i] == MaxOf(AbsVec(v));
    assert AbsVec(v)[i] == Abs(v[i]);
  }

  lemma ReachOnInputs(p: Problem, m: real, b: real)
    requires Shaped(p) && |p.mu| > 0 && Bounded(p, m, b)
    ensures Reach(p) <= 1.0 + 3.0 * b + Mul(StepOf(p), Size(p.mu)) && Size(p.mu) <= m
  {
    hide Size, Mul;
    SizeWithin(p.mu, m);
    SizeWithin(p.wMin, b);
    SizeWithin(p.wMax, b);
  }

  /** How far a sum can miss one, for inputs of these magnitudes: the slack of the guard and 200 halvings. */
  ghost predicate MissAtMost(n: nat, m: real, b: real, miss: real) {
    && 0.000000001 + 0.000000000001 <= miss
    && 0.000000001 + Times(n, 2.0 * (1.0 + 3.0 * b + Mul(1000000000000.0, m))) / Pow2(200) <= miss
  }

  lemma MissOnInputs(p: Problem, m: real, b: real, miss: real)
    requires Regular(p) && Bounded(p, m, b) && MissAtMost(|p.mu|, m, b, miss)
    ensures Miss(p) <= miss
  {
    hide Mul, Times, Size, StepOf, Pow2, Reach, Bounded, Regular;
    RegularBox(p);
    RegularLam(p);
    ReachOnInputs(p, m, b);
    StepOfBounds(p);
    SizePositive(p.mu);
    ProductAtMost(StepOf(p), Size(p.mu), 1000000000000.0, m);
    var top := 2.0 * (1.0 + 3.0 * b + Mul(1000000000000.0, m));
    TimesMonotone(|p.mu|, 2.0 * Reach(p), top);
    QuotientMonotone(Times(|p.mu|, 2.0 * Reach(p)), Times(|p.mu|, top), Pow2(200));
  }

  /**
   * When the box can hold a total of one, every iterate sums to one within 1e-12, as long as 200 halvings of a bracket
   * of this size come that far.
   */
  lemma SumOnInputs(p: Problem, ws: seq<Vec>, taus: seq<real>, k: nat, m: real, b: real)
    requires Regular(p) && IsSolverRun(p, ws, taus) && k <= |taus| && Bounded(p, m, b)
    requires Total(p.wMin) <= 1.0 <= Total(p.wMax)
    requires Times(|p.mu|, 2.0 * (1.0 + 3.0 * b + Mul(1000000000000.0, m))) / Pow2(200) <= 0.000000000001
    ensures |ws| == |taus| + 1 && 1.0 - 0.000000000001 <= Total(ws[k]) <= 1.0 + 0.000000000001
  {
    hide Mul, Times, Total, Size, StepOf, Pow2, Reach, Bounded, IsSolverRun, Regular, Off;
    RegularBox(p);
    MissOnInputs(p, m, b, 0.000000001001);
    SolverErrors(p, ws, taus);
    RunBasics(p, ws, taus);
    MissIsOff(p);
    assert OnTarget(p, ws[k]) && |ws[k]| == |p.mu|;
  }

  lemma MissIsOff(p: Problem)
    requires Shaped(p) && |p.mu| > 0
    ensures Miss(p) == Off(p) + 0.000000001
  {
    hide Off;
  }

  lemma StepAtLeast(p: Problem, rho: real)
    requires Regular(p) && SpectralBound(p.sigma) <= rho
    ensures 0.0 < StepOf(p) && 1.0 <= Mul(StepOf(p), Max(1.0, Mul(p.lam, rho)))
  {
    hide Mul, SpectralBound, Regular, StepOf, StepSize;
    var rho0 := SpectralBound(p.sigma);
    RegularLam(p);
    MulMonotoneLeft(p.lam, rho0, rho);
    StepIsReciprocal(p.lam, rho0);
    StepPositiveHidden(p);
    StepUnfolds(p);
    MulCommutes(p.lam, rho0);
    MulCommutes(p.lam, rho);
    var scale := if Mul(p.lam, rho0) > 0.000000000001 then Mul(p.lam, rho0) else 1.0;
    MulMonotoneLeft(StepOf(p), scale, Max(1.0, Mul(p.lam, rho)));
    MulCommutes(StepOf(p), Max(1.0, Mul(p.lam, rho)));
  }

  lemma RegularLam(p: Problem)
    requires Regular(p)
    ensures 0.0 <= p.lam
  {
  }

  lemma StepUnfolds(p: Problem)
    ensures StepOf(p) == StepSize(p.lam, SpectralBound(p.sigma))
  {
  }

  lemma RowSumsAtMost(sigma: Matrix, mags: Matrix, rho: real)
    requires |sigma| > 0 && AreMagnitudes(mags, sigma) && forall i :: 0 <= i < |sigma| ==> Total(mags[i]) <= rho
    ensures SpectralBound(sigma) <= rho
  {
    hide Total, RowSums, AreMagnitudes, MaxOf;
    var i :| 0 <= i < |sigma| && RowSums(sigma)[i] == SpectralBound(sigma);
    MagnitudesAreSums(sigma, mags, i);
  }

  /**
   * The answer that passed the stop test is near the best: no portfolio of the box that sums to one beats it by more
   * than max(1, lam rho) (tol sum(hi - lo) + (1 + 3 b + m) miss), rho bounding the row sums of the covariance, m the
   * expected returns and b the bounds. The step size plays no part.
   */
  lemma AnswerNearBest(p: Problem, ws: seq<Vec>, taus: seq<real>, tol: real, u: Vec, mags: Matrix, rho: real, m: real,
                       b: real, miss: real)
    requires Regular(p) && PositiveSemidefinite(Cov(p), |p.mu|) && IsSolverRun(p, ws, taus)
            && StoppedByTest(ws, taus, tol)
    requires InBox(u, p.wMin, p.wMax) && Total(u) == 1.0 && 0.0 <= tol
    requires AreMagnitudes(mags, p.sigma) && forall i :: 0 <= i < |p.sigma| ==> Total(mags[i]) <= rho
    requires Bounded(p, m, b) && MissAtMost(|p.mu|, m, b, miss)
    ensures |ws| == |taus| + 1 && |ws[|taus|]| == |p.mu|
    ensures Objective(p, u) - Objective(p, ws[|taus|])
         <= Mul(Max(1.0, Mul(p.lam, rho)), Mul(tol, Total(p.wMax) - Total(p.wMin)) + Mul(1.0 + 3.0 * b + m, miss))
  {
    hide Mul, StepOf, Objective, Total, Reach, Miss, IsSolverRun, StoppedByTest, Size, PositiveSemidefinite, Pow2,
         SpectralBound, RowSums, MissAtMost, AreMagnitudes, Regular;
    RunBasics(p, ws, taus);
    SolverCertificate(p, ws, taus, tol, u);
    RegularBox(p);
    RowSumsAtMost(p.sigma, mags, rho);
    StepAtLeast(p, rho);
    ReachOnInputs(p, m, b);
    MissOnInputs(p, m, b, miss);
    ReachMissPositive(p);
    BoxMass(u, p.wMin, p.wMax);
    SizePositive(p.mu);
    QualityScalar(StepOf(p), Max(1.0, Mul(p.lam, rho)), Objective(p, u) - Objective(p, ws[|taus|]), tol,
                  Total(p.wMax) - Total(p.wMin), Reach(p), Miss(p), 1.0 + 3.0 * b, Size(p.mu), m, miss);
  }

  lemma RegularBox(p: Problem)
    requires Regular(p)
    ensures Shaped(p) && IsBox(p.wMin, p.wMax) && |p.mu| > 0 && |p.sigma| > 0
  {
  }

  lemma SizePositive(v: Vec)
    requires |v| > 0
    ensures 0.0 <= Size(v)
  {
  }

  lemma ReachMissPositive(p: Problem)
    requires Regular(p)
    ensures Reach(p) >= 0.0 && Miss(p) >= 0.0
  {
    hide Mul, StepOf, Size, BoundSize, Times, Pow2;
    StepPositiveHidden(p);
    MulSigns(StepOf(p), Size(p.mu));
  }

  /** Dividing step gap <= tol s + (c + step d) miss by the step, when scale is at least one and 1 / step. */
  lemma QualityScalar(step: real, scale: real, gap: real, tol: real, s: real, reach: real, miss: real, c: real,
                      d: real, m: real, top: real)
    requires 0.0 < step && 1.0 <= Mul(step, scale) && 1.0 <= scale
    requires Mul(step, gap) <= Mul(tol, s) + Mul(reach, miss)
    requires 0.0 <= tol && 0.0 <= s && 0.0 <= miss <= top && 0.0 <= c && 0.0 <= d <= m
    requires reach <= c + Mul(step, d)
    ensures gap <= Mul(scale, Mul(tol, s) + Mul(c + m, top))
  {
    hide Mul;
    var x := Mul(tol, s) + Mul(c, top);
    MulMonotoneLeft(miss, reach, c + Mul(step, d));
    MulAdd(miss, c, Mul(step, d));
    Associates(step, d, miss);
    MulSub(gap, Mul(d, miss), step);
    ProductAtMost(c, miss, c, top);
    MulSigns(tol, s);
    MulSigns(c, top);
    DivideByStep(step, scale, gap - Mul(d, miss), x);
    ProductAtMost(d, miss, m, top);
    MulSigns(m, top);
    MulMonotoneLeft(Mul(m, top), 1.0, scale);
    MulOne(Mul(m, top));
    MulAdd(scale, x, Mul(m, top));
    MulAdd(top, c, m);
  }

  lemma MulMonotoneLeft(a: real, x: real, y: real)
    requires 0.0 <= a && x <= y
    ensures Mul(x, a) <= Mul(y, a)
  {
  }

  lemma Associates(a: real, b: real, c: real)
    ensures Mul(Mul(a, b), c) == Mul(a, Mul(b, c))
  {
  }

  lemma DivideByStep(step: real, scale: real, g: real, x: real)
    requires 0.0 < step && 1.0 <= Mul(step, scale) && Mul(step, g) <= x && 0.0 <= x && 0.0 <= scale
    ensures g <= Mul(scale, x)
  {
    hide Mul;
    if g > 0.0 {
      MulMonotoneLeft(g, 1.0, Mul(step, scale));
      MulOne(g);
      MulCommutes(step, scale);
      Associates(scale, step, g);
      MulMonotoneLeft(scale, Mul(step, g), x);
      MulCommutes(scale, x);
      MulCommutes(scale, Mul(step, g));
    } else {
      MulSigns(scale, x);
    }
  }

  // ----- a problem by hand

  /** Two uncorrelated sleeves, risk aversion six: the best mix is two to one. */
  const MIX := Problem([0.1, 0.02], [[0.04, 0.0], [0.0, 0.04]], [0.0, 0.0], [1.0, 1.0], 6.0)

  /** From anywhere, one step leads to mu / 0.24. */
  lemma MixCandidate(w: Vec)
    requires |w| == 2
    ensures Candidate(MIX, w)[0] * 0.24 == 0.1 && Candidate(MIX, w)[1] * 0.24 == 0.02
  {
    hide Candidate;
    var t0, t1 := [Mul(0.04, w[0]), Mul(0.0, w[1])], [Mul(0.0, w[0]), Mul(0.04, w[1])];
    TotalOfTwo(MIX.sigma[0]);
    TotalOfTwo(MIX.sigma[1]);
    TotalOfTwo(t0);
    TotalOfTwo(t1);
    hide Total;
    PassOnInputs(MIX, w, 0, t0, MIX.sigma, 0);
    PassOnInputs(MIX, w, 1, t1, MIX.sigma, 0);
  }

  lemma MixRegular()
    ensures Regular(MIX) && Bounded(MIX, 0.1, 1.0)
  {
    assert Cov(MIX)[0] == MIX.sigma[0] && Cov(MIX)[1] == MIX.sigma[1];
  }

  lemma MixMiss()
    ensures Miss(MIX) <= 0.00000000101
  {
    hide Pow2, Miss, Regular, Bounded;
    MixRegular();
    Pow2Large();
    var q := Times(2, 2.0 * (1.0 + 3.0 * 1.0 + Mul(1000000000000.0, 0.1)));
    QuotientSmall(q, Pow2(200));
    MissOnInputs(MIX, 0.1, 1.0, 0.00000000101);
  }

  lemma QuotientSmall(q: real, p: real)
    requires 0.0 <= q <= 1000000000000.0 && p >= 1000000000000000000000000000000000000000000000.0
    ensures q / p <= 0.000000000001
  {
    assert q <= p * 0.000000000001;
  }

  lemma MixScalar(c0: real, c1: real, tau: real, x0: real, x1: real)
    requires c0 * 0.24 == 0.1 && c1 * 0.24 == 0.02
    requires x0 == Clip(c0 - tau, 0.0, 1.0) && x1 == Clip(c1 - tau, 0.0, 1.0)
    requires Abs(x0 + x1 - 1.0) <= 0.00000000101
    ensures Abs(x0 - 2.0 / 3.0) <= 0.000000001 && Abs(x1 - 1.0 / 3.0) <= 0.000000001
  {
  }

  /** After its first pass the solver is at (2/3, 1/3), and it stays there. */
  lemma MixAnswer(ws: seq<Vec>, taus: seq<real>, k: nat)
    requires IsSolverRun(MIX, ws, taus) && 1 <= k <= |taus|
    ensures |ws| == |taus| + 1 && |ws[k]| == 2
    ensures Abs(ws[k][0] - 2.0 / 3.0) <= 0.000000001 && Abs(ws[k][1] - 1.0 / 3.0) <= 0.000000001
  {
    hide Miss, Reach, Candidate, Off, Goal, IsSolverRun, Regular;
    MixRegular();
    SolverErrors(MIX, ws, taus);
    RunBasics(MIX, ws, taus);
    MixMiss();
    var w := ws[k - 1];
    assert ws[k] == Advance(MIX, w, taus[k - 1]) by { assert ws[k - 1 + 1] == ws[k]; }
    MixCandidate(w);
    TotalOfTwo(ws[k]);
    assert OnTarget(MIX, ws[k]);
    MixScalar(Candidate(MIX, w)[0], Candidate(MIX, w)[1], taus[k - 1], ws[k][0], ws[k][1]);
  }
}
