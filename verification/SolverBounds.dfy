/**
 * The solver with the errors of its bisection left in: how far its multipliers and its sums can be off, from the
 * inputs alone, and what that does to termination, convergence and the quality of the answer (qp.py).
 */
module SolverBounds {
  import opened Vectors
  import opened CappedSimplex
  import opened QpSolver

  ghost predicate Within(v: Vec, c: real) {
    forall i :: 0 <= i < |v| ==> Abs(v[i]) <= c
  }

  // ----- the size of what is projected

  lemma {:induction false} DotWithin(row: Vec, w: Vec, b: real)
    requires |row| == |w| && Within(w, b) && 0.0 <= b
    ensures Abs(Dot(row, w)) <= Mul(b, Total(AbsVec(row)))
  {
    hide Mul;
    if |row| == 0 {
      MulZero(b);
    } else {
      forall i | 0 <= i < |w[1..]|
        ensures Abs(w[1..][i]) <= b
      {
        assert Abs(w[i + 1]) <= b;
      }
      DotWithin(row[1..], w[1..], b);
      assert AbsVec(row)[1..] == AbsVec(row[1..]);
      ProductAtMost(row[0], w[0], Abs(row[0]), b);
      ProductAtMost(-row[0], w[0], Abs(row[0]), b);
      MulMinus(row[0], w[0]);
      MulCommutes(Abs(row[0]), b);
      MulAdd(b, Abs(row[0]), Total(AbsVec(row[1..])));
    }
  }

  lemma StepSizeBounds(lam: real, rho: real)
    requires 0.0 <= lam && 0.0 <= rho
    ensures 0.0 < StepSize(lam, rho) <= 1000000000000.0
    ensures 0.0 <= Mul(StepSize(lam, rho), Mul(lam, rho)) <= 1.0
  {
  }

  lemma StepOfBounds(p: Problem)
    requires Shaped(p) && |p.mu| > 0 && 0.0 <= p.lam
    ensures 0.0 <= SpectralBound(p.sigma)
    ensures 0.0 < StepOf(p) <= 1000000000000.0
    ensures 0.0 <= Mul(StepOf(p), Mul(p.lam, SpectralBound(p.sigma))) <= 1.0
  {
    hide Mul, Total, StepSize;
    CovBound(p);
    PrefixTotal(p.sigma[0], |p.mu|);
    assert RowSums(p.sigma)[0] <= SpectralBound(p.sigma);
    StepSizeBounds(p.lam, SpectralBound(p.sigma));
  }

  /** |step (mu - lam dot)| <= step m + b when |mu| <= m, |dot| <= b rho and step lam rho <= 1. */
  lemma GradientSize(step: real, lam: real, rho: real, mu: real, dot: real, b: real, m: real)
    requires 0.0 < step && 0.0 <= lam && 0.0 <= b && 0.0 <= Mul(step, Mul(lam, rho)) <= 1.0
    requires Abs(mu) <= m && Abs(dot) <= Mul(b, rho)
    ensures Abs(Mul(step, mu - Mul(lam, dot))) <= Mul(step, m) + b
  {
    hide Mul;
    var r := Mul(step, Mul(lam, rho));
    MulRegroup(step, lam, b, rho);
    MulSigns(b, 1.0 - r);
    MulSub(1.0, r, b);
    MulCommutes(b, 1.0);
    MulOne(b);
    ProductAtMost(lam, dot, lam, Mul(b, rho));
    ProductAtMost(lam, -dot, lam, Mul(b, rho));
    MulMinus(lam, dot);
    ProductAtMost(step, Mul(lam, dot), step, Mul(lam, Mul(b, rho)));
    ProductAtMost(step, -Mul(lam, dot), step, Mul(lam, Mul(b, rho)));
    MulMinus(step, Mul(lam, dot));
    ProductAtMost(step, mu, step, m);
    ProductAtMost(step, -mu, step, m);
    MulMinus(step, mu);
    MulSub(mu, Mul(lam, dot), step);
  }

  lemma MulRegroup(a: real, b: real, c: real, d: real)
    ensures Mul(a, Mul(b, Mul(c, d))) == Mul(c, Mul(a, Mul(b, d)))
  {
  }

  /** The point the loop projects, from the size of the iterate and of the expected returns; the covariance cancels. */
  lemma CandidateReach(p: Problem, w: Vec, b: real, m: real)
    requires Shaped(p) && |p.mu| > 0 && 0.0 <= p.lam && Within(p.mu, m)
    requires |w| == |p.mu| && Within(w, b) && 0.0 <= b
    ensures Within(Candidate(p, w), 2.0 * b + Mul(StepOf(p), m))
  {
    hide Mul, Dot, Total, StepSize;
    var rho, step := SpectralBound(p.sigma), StepOf(p);
    StepOfBounds(p);
    CovBound(p);
    forall i | 0 <= i < |w|
      ensures Abs(Candidate(p, w)[i]) <= 2.0 * b + Mul(step, m)
    {
      var row := Cov(p)[i];
      DotWithin(row, w, b);
      MulSigns(b, rho - Total(AbsVec(row)));
      MulSub(rho, Total(AbsVec(row)), b);
      GradientSize(step, p.lam, rho, p.mu[i], Dot(row, w), b, m);
      assert Abs(w[i]) <= b;
    }
  }

  /** The largest magnitude in a vector. */
  function Size(v: Vec): (s: real)
    requires |v| > 0
    ensures s >= 0.0 && Within(v, s)
  {
    assert MaxOf(AbsVec(v)) >= AbsVec(v)[0];
    assert forall i :: 0 <= i < |v| ==> AbsVec(v)[i] == Abs(v[i]);
    MaxOf(AbsVec(v))
  }

  function BoundSize(p: Problem): (b: real)
    requires Shaped(p) && |p.mu| > 0
    ensures b >= 0.0 && Within(p.wMin, b) && Within(p.wMax, b)
  {
    Max(Size(p.wMin), Size(p.wMax))
  }

  /** No multiplier of the solver is larger than this, whatever the covariance. */
  function Reach(p: Problem): real
    requires Shaped(p) && |p.mu| > 0
  {
    1.0 + 3.0 * BoundSize(p) + Mul(StepOf(p), Size(p.mu))
  }

  /** No iterate of the solver misses its common goal by more than this. */
  function Off(p: Problem): real
    requires Shaped(p) && |p.mu| > 0
  {
    Max(SUM_TOLERANCE, Times(|p.mu|, 2.0 * Reach(p)) / Pow2(BISECTIONS))
  }

  /** No iterate of the solver misses a sum of one by more than this. */
  function Miss(p: Problem): real
    requires Shaped(p) && |p.mu| > 0
  {
    Off(p) + FEASIBILITY_SLACK
  }

  lemma BracketWithin(p: Problem, c: Vec)
    requires Shaped(p) && |p.mu| > 0 && |c| == |p.mu|
    requires Within(c, 1.0 + 2.0 * BoundSize(p) + Mul(StepOf(p), Size(p.mu)))
    ensures -Reach(p) <= LoTau(c, p.wMax) && HiTau(c, p.wMin) <= Reach(p)
    ensures MassError(c, p.wMin, p.wMax, BISECTIONS) <= Off(p) && MassMiss(p, c) <= Miss(p)
  {
    hide Mul, StepOf, BoundSize, Size, Times, Pow2;
    var i :| 0 <= i < |c| && Sub(c, p.wMin)[i] == HiTau(c, p.wMin);
    var j :| 0 <= j < |c| && Sub(c, p.wMax)[j] == LoTau(c, p.wMax);
    assert Abs(c[i]) <= 1.0 + 2.0 * BoundSize(p) + Mul(StepOf(p), Size(p.mu)) && Abs(p.wMin[i]) <= BoundSize(p);
    assert Abs(c[j]) <= 1.0 + 2.0 * BoundSize(p) + Mul(StepOf(p), Size(p.mu)) && Abs(p.wMax[j]) <= BoundSize(p);
    TimesMonotone(|c|, Width(c, p.wMin, p.wMax), 2.0 * Reach(p));
    QuotientMonotone(Times(|c|, Width(c, p.wMin, p.wMax)), Times(|c|, 2.0 * Reach(p)), Pow2(BISECTIONS));
  }

  lemma Pow2Large()
    ensures Pow2(BISECTIONS) >= 1000000000000000000000000000000000000000000000.0
  {
    assert Pow2(10) == 1024.0;
    Pow2Add(10, 10);
    Pow2Add(20, 20);
    Pow2Add(40, 40);
    Pow2Add(80, 80);
    Pow2Add(160, 40);
  }

  lemma QuotientMonotone(a: real, b: real, p: real)
    requires p >= 1.0 && a <= b
    ensures a / p <= b / p
  {
  }

  lemma InBoxWithin(p: Problem, w: Vec)
    requires Shaped(p) && |p.mu| > 0 && InBox(w, p.wMin, p.wMax)
    ensures Within(w, BoundSize(p))
  {
    hide BoundSize;
    forall i | 0 <= i < |w|
      ensures Abs(w[i]) <= BoundSize(p)
    {
      assert Abs(p.wMin[i]) <= BoundSize(p) && Abs(p.wMax[i]) <= BoundSize(p);
    }
  }

  lemma UniformSmall(n: nat)
    requires n > 0
    ensures Within(Uniform(n), 1.0)
  {
  }

  lemma MassAndMultiplier(p: Problem, ws: seq<Vec>, taus: seq<real>, k: nat)
    requires Regular(p) && IsSolverRun(p, ws, taus) && k < |taus|
    ensures |ws| == |taus| + 1 && |ws[k]| == |p.mu| && InBox(ws[k], p.wMin, p.wMax)
    ensures LoTau(Candidate(p, ws[k]), p.wMax) <= taus[k] <= HiTau(Candidate(p, ws[k]), p.wMin)
    ensures Hits(p, Candidate(p, ws[k]), ws[k + 1])
  {
    hide Candidate, Total, Hits, LoTau, HiTau, Clip, Close;
  }

  lemma RunBasics(p: Problem, ws: seq<Vec>, taus: seq<real>)
    requires Regular(p) && IsSolverRun(p, ws, taus)
    ensures IsRun(p, ws, taus) && |ws| == |taus| + 1 && InBox(ws[0], p.wMin, p.wMax)
    ensures forall k :: 0 <= k < |ws| ==> |ws[k]| == |p.mu|
    ensures Hits(p, Uniform(|p.mu|), ws[0])
  {
    hide Candidate, Total, Hits, LoTau, HiTau, Clip;
  }

  /** A total within the bounds of its goal and of one. */
  predicate OnTarget(p: Problem, w: Vec)
    requires Shaped(p) && |p.mu| > 0
  {
    Abs(Total(w) - Goal(p)) <= Off(p) && Abs(Total(w) - 1.0) <= Miss(p)
  }

  lemma TauAt(p: Problem, ws: seq<Vec>, taus: seq<real>, k: nat)
    requires Regular(p) && IsSolverRun(p, ws, taus) && k < |taus|
    ensures |ws| == |taus| + 1 && Abs(taus[k]) <= Reach(p) && OnTarget(p, ws[k + 1])
  {
    hide Mul, Candidate, Total, MassMiss, MassError, Off, Miss, Goal, Reach, LoTau, HiTau, BoundSize, Size, StepOf,
         IsSolverRun, Within;
    MassAndMultiplier(p, ws, taus, k);
    InBoxWithin(p, ws[k]);
    CandidateReach(p, ws[k], BoundSize(p), Size(p.mu));
    WithinMore(Candidate(p, ws[k]), 2.0 * BoundSize(p) + Mul(StepOf(p), Size(p.mu)), 1.0);
    BracketWithin(p, Candidate(p, ws[k]));
  }

  lemma WithinMore(v: Vec, c: real, more: real)
    requires Within(v, c) && more >= 0.0
    ensures Within(v, more + c)
  {
    forall i | 0 <= i < |v|
      ensures Abs(v[i]) <= more + c
    {
      assert Abs(v[i]) <= c;
    }
  }

  lemma StartMiss(p: Problem, ws: seq<Vec>, taus: seq<real>)
    requires Regular(p) && IsSolverRun(p, ws, taus)
    ensures |ws| > 0 && OnTarget(p, ws[0])
  {
    hide Mul, Total, MassMiss, MassError, Off, Miss, Goal, BoundSize, Size, StepOf, IsSolverRun, Within;
    RunBasics(p, ws, taus);
    StepOfBounds(p);
    MulSigns(StepOf(p), Size(p.mu));
    UniformSmall(|p.mu|);
    WithinMore(Uniform(|p.mu|), 1.0, 2.0 * BoundSize(p) + Mul(StepOf(p), Size(p.mu)));
    assert 2.0 * BoundSize(p) + Mul(StepOf(p), Size(p.mu)) + 1.0
        == 1.0 + 2.0 * BoundSize(p) + Mul(StepOf(p), Size(p.mu));
    BracketWithin(p, Uniform(|p.mu|));
  }

  /** The multipliers and the sums of a solver run, bounded from the inputs alone. */
  lemma SolverErrors(p: Problem, ws: seq<Vec>, taus: seq<real>)
    requires Regular(p) && IsSolverRun(p, ws, taus)
    ensures |ws| == |taus| + 1
    ensures forall k :: 0 <= k < |taus| ==> Abs(taus[k]) <= Reach(p)
    ensures forall k :: 0 <= k < |ws| ==> |ws[k]| == |p.mu| && OnTarget(p, ws[k])
  {
    hide OnTarget, Reach, IsSolverRun;
    RunBasics(p, ws, taus);
    forall k | 0 <= k < |taus|
      ensures Abs(taus[k]) <= Reach(p)
    {
      TauAt(p, ws, taus, k);
    }
    forall k | 0 <= k < |ws|
      ensures OnTarget(p, ws[k])
    {
      if k == 0 {
        StartMiss(p, ws, taus);
      } else {
        TauAt(p, ws, taus, k - 1);
      }
    }
  }

  // ----- runs with bounded errors

  /** What the miss of one projection costs: at most d between neighbours' totals, at most e against a total of one. */
  ghost predicate Errs(ws: seq<Vec>, taus: seq<real>, d: real, e: real) {
    && |ws| == |taus| + 1
    && forall k :: 0 <= k < |taus| ==>
         && Abs(Mul(taus[k], Total(ws[k]) - Total(ws[k + 1]))) <= 2.0 * d
         && Abs(Mul(taus[k], 1.0 - Total(ws[k + 1]))) <= e
  }

  lemma ErrsAt(ws: seq<Vec>, taus: seq<real>, d: real, e: real, n: nat)
    requires Errs(ws, taus, d, e) && 0 < n == |taus|
    ensures Errs(ws[..n], taus[..n - 1], d, e)
    ensures Abs(Mul(taus[n - 1], Total(ws[n - 1]) - Total(ws[n]))) <= 2.0 * d
            && Abs(Mul(taus[n - 1], 1.0 - Total(ws[n]))) <= e
  {
    hide Mul, Total;
    assert ws[n - 1 + 1] == ws[n];
  }

  lemma ProductWithin(t: real, x: real, r: real, m: real)
    requires Abs(t) <= r && Abs(x) <= m
    ensures Abs(Mul(t, x)) <= Mul(r, m)
  {
    hide Mul;
    ProductAtMost(t, x, r, m);
    ProductAtMost(t, -x, r, m);
    MulMinus(t, x);
  }

  /** The largest multiplier times the largest miss; between neighbours the guard's slack cancels. */
  lemma SolverErrs(p: Problem, ws: seq<Vec>, taus: seq<real>)
    requires Regular(p) && IsSolverRun(p, ws, taus)
    ensures Errs(ws, taus, Mul(Reach(p), Off(p)), Mul(Reach(p), Miss(p)))
  {
    hide Mul, Total, Reach, Off, Miss, Goal, IsSolverRun;
    SolverErrors(p, ws, taus);
    var r, d := Reach(p), Off(p);
    MulAdd(r, d, d);
    forall k | 0 <= k < |taus|
      ensures Abs(Mul(taus[k], Total(ws[k]) - Total(ws[k + 1]))) <= 2.0 * Mul(r, d)
      ensures Abs(Mul(taus[k], 1.0 - Total(ws[k + 1]))) <= Mul(r, Miss(p))
    {
      assert OnTarget(p, ws[k]) && OnTarget(p, ws[k + 1]);
      ProductWithin(taus[k], Total(ws[k]) - Total(ws[k + 1]), r, d + d);
      ProductWithin(taus[k], 1.0 - Total(ws[k + 1]), r, Miss(p));
    }
  }

  lemma {:induction false} DriftBound(ws: seq<Vec>, taus: seq<real>, d: real, e: real)
    requires |ws| == |taus| + 1 && Errs(ws, taus, d, e)
    ensures Abs(Drift(ws, taus)) <= Times(|taus|, 2.0 * d)
  {
    hide Mul, Total, Errs;
    var n := |taus|;
    if n == 0 {
      MulZero(2.0 * d);
    } else {
      ErrsAt(ws, taus, d, e, n);
      DriftBound(ws[..n], taus[..n - 1], d, e);
      TimesStep(n - 1, 2.0 * d);
    }
  }

  /** What a failed stop test gains for sure: tol^2, less what the misses of a pass can cost. */
  function Gain(p: Problem, tol: real): real
    requires Shaped(p) && |p.mu| > 0
  {
    Mul(tol, tol) - 4.0 * Mul(Reach(p), Off(p))
  }

  /**
   * With the bisection's own errors, the stop test fires within 2 step (top - f_0) / (tol^2 - 4 Reach Off) passes,
   * f being bounded by top on the box; the number of passes allowed plays no part.
   */
  lemma SolverStops(p: Problem, ws: seq<Vec>, taus: seq<real>, tol: real, top: real)
    requires Regular(p) && IsSolverRun(p, ws, taus) && 0.0 < tol
    requires forall u: Vec :: InBox(u, p.wMin, p.wMax) ==> Objective(p, u) <= top
    requires |ws| > 0 && |ws[0]| == |p.mu|
    requires Times(|taus|, Gain(p, tol)) > 2.0 * Mul(StepOf(p), top - Objective(p, ws[0]))
    ensures |ws| == |taus| + 1
    ensures exists k :: 0 <= k < |taus| && |ws[k]| == |ws[k + 1]| && Close(ws[k], ws[k + 1], tol)
  {
    hide Mul, StepOf, Objective, Advance, Close, Total, Reach, Off, Miss, Drift, IsSolverRun, Errs, Times, IsRun;
    SolverErrs(p, ws, taus);
    RunBasics(p, ws, taus);
    var d, e, n := Mul(Reach(p), Off(p)), Mul(Reach(p), Miss(p)), |taus|;
    if forall k :: 0 <= k < n ==> !Close(ws[k], ws[k + 1], tol) {
      FailedTestsAscend(p, ws, taus, tol);
      DriftBound(ws, taus, d, e);
      RunStaysInBox(p, ws, taus, n);
      StepPositiveHidden(p);
      TimesSplit(n, Mul(tol, tol), 2.0 * d);
      MulSigns(StepOf(p), top - Objective(p, ws[n]));
      MulAdd(StepOf(p), top - Objective(p, ws[n]), Objective(p, ws[n]) - Objective(p, ws[0]));
      assert false;
    }
  }

  /** At tolerances up to 2e-6 a failed test gains nothing for sure: the ascent argument is silent there. */
  lemma GainIsCoarse(p: Problem, tol: real)
    requires Regular(p) && 0.0 < tol <= 0.000002
    ensures Gain(p, tol) <= 0.0
  {
    hide Mul, StepOf, Size, BoundSize, Times, Pow2;
    StepPositiveHidden(p);
    MulSigns(StepOf(p), Size(p.mu));
    ProductAtMost(tol, tol, 0.000002, 0.000002);
    ProductAtMost(1.0, SUM_TOLERANCE, Reach(p), Off(p));
    MulOne(SUM_TOLERANCE);
    MulIsProduct(0.000002, 0.000002);
  }

  lemma TimesSplit(n: nat, a: real, b: real)
    ensures Times(n, a - 2.0 * b) == Times(n, a) - 2.0 * Times(n, b)
  {
  }

  /** So a solver that may make that many passes leaves its loop through the stop test. */
  lemma SolverStopsByTest(p: Problem, ws: seq<Vec>, taus: seq<real>, tol: real, maxIters: nat, top: real)
    requires Regular(p) && IsSolverRun(p, ws, taus) && StoppedRight(ws, tol, maxIters) && 0.0 < tol
    requires forall u: Vec :: InBox(u, p.wMin, p.wMax) ==> Objective(p, u) <= top
    requires |ws| > 0 && |ws[0]| == |p.mu|
    requires Times(maxIters, Gain(p, tol)) > 2.0 * Mul(StepOf(p), top - Objective(p, ws[0]))
    ensures StoppedByTest(ws, taus, tol)
  {
    hide Mul, StepOf, Objective, Close, Gain, Times;
    if |taus| == maxIters && NoneClose(ws, tol) {
      SolverStops(p, ws, taus, tol, top);
    }
  }

  ghost predicate StoppedByTest(ws: seq<Vec>, taus: seq<real>, tol: real) {
    && 1 <= |taus| == |ws| - 1 && |ws[|taus| - 1]| == |ws[|taus|]|
    && Close(ws[|taus| - 1], ws[|taus|], tol)
  }

  /**
   * The quality of an answer that passed the stop test: against every feasible portfolio, the maximiser included, it
   * is short by at most (tol sum(hi - lo) + Reach Miss) / step.
   */
  lemma SolverCertificate(p: Problem, ws: seq<Vec>, taus: seq<real>, tol: real, u: Vec)
    requires Regular(p) && PositiveSemidefinite(Cov(p), |p.mu|) && IsSolverRun(p, ws, taus)
            && StoppedByTest(ws, taus, tol)
    requires InBox(u, p.wMin, p.wMax) && Total(u) == 1.0
    ensures |ws[|taus|]| == |p.mu|
    ensures Mul(StepOf(p), Objective(p, u) - Objective(p, ws[|taus|]))
         <= Mul(tol, Total(p.wMax) - Total(p.wMin)) + Mul(Reach(p), Miss(p))
  {
    hide Mul, NormSq, StepOf, Objective, Quad, Candidate, Clip, Close, Total, Reach, Miss, IsSolverRun, Errs, LoTau,
         HiTau, MassMiss;
    var n := |taus|;
    SolverErrs(p, ws, taus);
    RunBasics(p, ws, taus);
    ErrsAt(ws, taus, Mul(Reach(p), Off(p)), Mul(Reach(p), Miss(p)), n);
    MassAndMultiplier(p, ws, taus, n - 1);
    var w, w' := ws[n - 1], ws[n];
    assert ws[n - 1 + 1] == Advance(p, ws[n - 1], taus[n - 1]);
    ClipInBox(Candidate(p, w), p.wMin, p.wMax, taus[n - 1]);
    ThreePoint(p, w, taus[n - 1], u);
    NormGap(u, w, w', p.wMin, p.wMax, tol);
  }

  // ----- convergence

  /** The ordered pairs of different passes among n. */
  function Pairs(n: nat): nat {
    if n == 0 then 0 else n * (n - 1)
  }

  lemma {:induction false} InexactRate(p: Problem, ws: seq<Vec>, taus: seq<real>, u: Vec, d: real, e: real)
    requires Regular(p) && PositiveSemidefinite(Cov(p), |p.mu|) && IsRun(p, ws, taus)
    requires InBox(ws[0], p.wMin, p.wMax) && Errs(ws, taus, d, e)
    requires InBox(u, p.wMin, p.wMax) && Total(u) == 1.0
    ensures 2.0 * Times(|taus|, Mul(StepOf(p), Objective(p, u) - Objective(p, ws[|taus|])))
         <= NormSq(Sub(u, ws[0])) - NormSq(Sub(u, ws[|taus|]))
              + 2.0 * Times(|taus|, e) + 2.0 * Times(Pairs(|taus|), d)
  {
    hide Mul, NormSq, StepOf, Objective, Advance, Total, Quad, Errs, Times, Pairs;
    var n := |taus|;
    if n == 0 {
      NoTimes(Mul(StepOf(p), Objective(p, u) - Objective(p, ws[0])), d, e);
    } else {
      var w, w', tau := ws[n - 1], ws[n], taus[n - 1];
      ErrsAt(ws, taus, d, e, n);
      InexactRate(p, ws[..n], taus[..n - 1], u, d, e);
      assert ws[n - 1 + 1] == Advance(p, w, tau);
      ThreePoint(p, w, tau, u);
      RunStaysInBox(p, ws, taus, n - 1);
      StepAscendsMul(p, w, tau);
      NormSqNonNegative(Sub(w', w));
      var step := StepOf(p);
      var before, after := Mul(step, Objective(p, u) - Objective(p, w)), Mul(step, Objective(p, u) - Objective(p, w'));
      assert after <= before + 2.0 * d by {
        MulSub(Objective(p, w'), Objective(p, w), step);
        MulSub(Objective(p, u), Objective(p, w), step);
        MulSub(Objective(p, u), Objective(p, w'), step);
      }
      RateScalar(n, before, after, d, e);
    }
  }

  lemma NoTimes(a: real, d: real, e: real)
    ensures Times(0, a) == Times(0, e) == Times(Pairs(0), d) == 0.0
  {
  }

  lemma RateScalar(n: nat, before: real, after: real, d: real, e: real)
    requires n > 0 && after <= before + 2.0 * d
    ensures 2.0 * Times(n, after)
         <= 2.0 * Times(n - 1, before) + 2.0 * after + 2.0 * Times(Pairs(n), d) - 2.0 * Times(Pairs(n - 1), d)
    ensures Times(n, e) == Times(n - 1, e) + e
  {
    hide Times, Pairs;
    TimesStep(n - 1, after);
    TimesStep(n - 1, e);
    TimesMonotone(n - 1, after, before + 2.0 * d);
    TimesAdds(n - 1, before, d);
    PairsStep(n, d);
  }

  lemma TimesAdds(n: nat, a: real, d: real)
    ensures Times(n, a + 2.0 * d) == Times(n, a) + 2.0 * Times(n, d)
  {
  }

  lemma PairsStep(n: nat, d: real)
    requires n > 0
    ensures Times(Pairs(n), d) == Times(Pairs(n - 1), d) + 2.0 * Times(n - 1, d)
  {
    assert Pairs(n) == Pairs(n - 1) + 2 * (n - 1);
    var a, b := Pairs(n - 1) as real, (n - 1) as real;
    assert (a + 2.0 * b) * d == a * d + 2.0 * (b * d);
  }

  /**
   * With the bisection's own errors, for every feasible u after N passes:
   * 2 N step (f(u) - f(w_N)) <= |u - w_0|^2 + 2 N Reach Miss + 2 N (N - 1) Reach Off.
   */
  lemma SolverRate(p: Problem, ws: seq<Vec>, taus: seq<real>, u: Vec)
    requires Regular(p) && PositiveSemidefinite(Cov(p), |p.mu|) && IsSolverRun(p, ws, taus)
    requires InBox(u, p.wMin, p.wMax) && Total(u) == 1.0
    ensures |ws| == |taus| + 1 && |ws[0]| == |ws[|taus|]| == |p.mu|
    ensures 2.0 * Times(|taus|, Mul(StepOf(p), Objective(p, u) - Objective(p, ws[|taus|])))
         <= NormSq(Sub(u, ws[0]))
              + 2.0 * Times(|taus|, Mul(Reach(p), Miss(p))) + 2.0 * Times(Pairs(|taus|), Mul(Reach(p), Off(p)))
  {
    hide Mul, Times, Pairs, NormSq, StepOf, Objective, Total, Errs, Reach, Off, Miss, IsSolverRun, IsRun,
         PositiveSemidefinite, Symmetric;
    SolverErrs(p, ws, taus);
    RunBasics(p, ws, taus);
    InexactRate(p, ws, taus, u, Mul(Reach(p), Off(p)), Mul(Reach(p), Miss(p)));
    NormSqNonNegative(Sub(u, ws[|taus|]));
  }
}
