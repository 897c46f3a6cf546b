/**
 * The solver when the covariance curves: one pass shrinks distances by a fixed factor, so that the passes settle, and
 * settle on the maximiser, down to the resolution of the bisection (qp.py).
 */
module SolverContraction {
  import opened Vectors
  import opened CappedSimplex
  import opened QpSolver
  import opened SolverBounds
  import opened Turnover

  /** The step uses at least the share 1 - q of the curvature in every direction. */
  ghost predicate Curved(p: Problem, q: real)
    requires Shaped(p)
  {
    forall x: Vec :: |x| == |p.mu| ==> Mul(1.0 - q, NormSq(x)) <= Mul(StepOf(p), Mul(p.lam, Quad(Cov(p), x)))
  }

  // ----- lengths without square roots

  /** x is no longer than r. */
  predicate Short(x: Vec, r: real) {
    0.0 <= r && NormSq(x) <= Mul(r, r)
  }

  function Scale(c: real, x: Vec): (y: Vec)
    ensures |y| == |x|
  {
    seq(|x|, i requires 0 <= i < |x| => Mul(c, x[i]))
  }

  lemma {:induction false} DotScale(c: real, x: Vec, y: Vec)
    requires |x| == |y|
    ensures Dot(y, Scale(c, x)) == Mul(c, Dot(y, x)) == Dot(Scale(c, x), y)
  {
    hide Mul;
    DotCommutes(y, Scale(c, x));
    DotCommutes(y, x);
    MulZero(0.0);
    forall i | 0 <= i < |x|
      ensures Scale(c, x)[i] == Mul(c, x[i]) + Mul(0.0, x[i])
    {
      MulZero(x[i]);
    }
    DotLinear(c, x, 0.0, x, Scale(c, x), y);
    MulZero(Dot(x, y));
  }

  lemma NormScale(c: real, x: Vec)
    ensures NormSq(Scale(c, x)) == Mul(Mul(c, c), NormSq(x))
  {
    hide Mul, Dot;
    DotScale(c, x, x);
    DotScale(c, x, Scale(c, x));
    MulTwice(c, NormSq(x));
  }

  lemma MulTwice(c: real, n: real)
    ensures Mul(c, Mul(c, n)) == Mul(Mul(c, c), n)
  {
  }

  /** x . y <= r s for vectors no longer than r and s. */
  lemma CauchySchwarz(x: Vec, y: Vec, r: real, s: real)
    requires |x| == |y| && Short(x, r) && Short(y, s)
    ensures Dot(x, y) <= Mul(r, s)
  {
    hide Mul, Dot, NormSq;
    var z := Sub(Scale(s, x), Scale(r, y));
    NormSqNonNegative(z);
    NormSqOfDifference(Scale(s, x), Scale(r, y));
    NormScale(s, x);
    NormScale(r, y);
    DotScale(s, x, Scale(r, y));
    DotScale(r, y, x);
    NormSqNonNegative(x);
    NormSqNonNegative(y);
    if r == 0.0 || s == 0.0 {
      ShortIsZero(x, y, r, s);
    } else {
      SchwarzScalar(NormSq(x), NormSq(y), Dot(x, y), r, s);
    }
  }

  lemma ShortIsZero(x: Vec, y: Vec, r: real, s: real)
    requires |x| == |y| && Short(x, r) && Short(y, s) && (r == 0.0 || s == 0.0)
    ensures Dot(x, y) == 0.0 && Mul(r, s) == 0.0
  {
    hide Mul, Dot, NormSq;
    MulZero(r);
    MulZero(s);
    DotCommutes(x, y);
    if r == 0.0 {
      NoLength(x);
      DotZero(x, y);
    } else {
      NoLength(y);
      DotZero(y, x);
    }
  }

  lemma NoLength(x: Vec)
    requires NormSq(x) <= 0.0
    ensures forall i :: 0 <= i < |x| ==> x[i] == 0.0
  {
    hide Mul, NormSq;
    forall i | 0 <= i < |x|
      ensures x[i] == 0.0
    {
      CoordinateAtMostNorm(x, i);
      MulSigns(x[i], x[i]);
    }
  }

  lemma SchwarzScalar(nx: real, ny: real, d: real, r: real, s: real)
    requires 0.0 < r && 0.0 < s && nx <= Mul(r, r) && ny <= Mul(s, s)
    requires 0.0 <= Mul(Mul(s, s), nx) - 2.0 * Mul(s, Mul(r, d)) + Mul(Mul(r, r), ny)
    ensures d <= Mul(r, s)
  {
    hide Mul;
    var t := Mul(r, s);
    MulSigns(r, r);
    MulSigns(s, s);
    MulSigns(r, s);
    MulMonotone(Mul(s, s), nx, Mul(r, r));
    MulMonotone(Mul(r, r), ny, Mul(s, s));
    FourProduct(r, s, d);
    if d > t {
      MulSigns(t, d - t);
      MulSub(d, t, t);
    }
  }

  lemma MulMonotone(a: real, x: real, y: real)
    requires 0.0 <= a && x <= y
    ensures Mul(a, x) <= Mul(a, y)
  {
  }

  lemma FourProduct(r: real, s: real, d: real)
    ensures var t := Mul(r, s);
            && Mul(Mul(s, s), Mul(r, r)) == Mul(Mul(r, r), Mul(s, s)) == Mul(t, t)
            && Mul(s, Mul(r, d)) == Mul(t, d)
  {
    assert (s * s) * (r * r) == (r * s) * (r * s);
  }

  /** The triangle inequality. */
  lemma ShortSum(x: Vec, y: Vec, z: Vec, r: real, s: real)
    requires |x| == |y| == |z| && Short(Sub(x, y), r) && Short(Sub(y, z), s)
    ensures Short(Sub(x, z), r + s)
  {
    hide Mul, Dot, NormSq;
    SplitNorm(x, z, y);
    CauchySchwarz(Sub(y, z), Sub(x, y), s, r);
    MulCommutes(r, s);
    MulAdd(r + s, r, s);
    MulAdd(r, r, s);
    MulAdd(s, r, s);
  }

  /** Euclidean length is at most L1 length. */
  lemma {:induction false} ShortByL1(x: Vec, y: Vec)
    requires |x| == |y|
    ensures Short(Sub(x, y), L1(x, y))
  {
    hide Mul;
    if |x| == 0 {
      MulZero(0.0);
    } else {
      ShortByL1(x[1..], y[1..]);
      SubTail(x, y);
      LongerSquare(x[0] - y[0], L1(x[1..], y[1..]));
    }
  }

  lemma LongerSquare(a: real, l: real)
    requires 0.0 <= l
    ensures Mul(a, a) + Mul(l, l) <= Mul(Abs(a) + l, Abs(a) + l)
  {
    assert 0.0 <= Mul(Abs(a), l);
  }

  lemma ShortIsClose(x: Vec, y: Vec, r: real, tol: real)
    requires |x| == |y| && Short(Sub(y, x), r) && r < tol
    ensures Close(x, y, tol)
  {
    hide NormSq;
    forall i | 0 <= i < |x|
      ensures Abs(y[i] - x[i]) < tol
    {
      CoordinateAtMostNorm(Sub(y, x), i);
      if tol <= Abs(y[i] - x[i]) {
        SmallerSquare(r, y[i] - x[i]);
      }
    }
  }

  lemma SmallerSquare(a: real, b: real)
    requires 0.0 <= a < Abs(b)
    ensures Mul(a, a) < Mul(b, b)
  {
    var c := Abs(b);
    assert Mul(c, c) == Mul(b, b);
    assert Mul(c, c) - Mul(a, a) == Mul(c - a, c) + Mul(a, c - a);
    hide Mul;
    MulSigns(c - a, c);
    MulSigns(a, c - a);
  }

  // ----- one pass shrinks distances

  /** Two clips of one mass are no further apart than what was clipped. */
  lemma ClipPairs(c: Vec, c': Vec, lo: Vec, hi: Vec, tau: real, sigma: real)
    requires |c| == |c'| == |lo| == |hi| && IsBox(lo, hi)
    requires MassAt(c, lo, hi, tau) == MassAt(c', lo, hi, sigma)
    ensures var d := Sub(ClipAt(c', lo, hi, sigma), ClipAt(c, lo, hi, tau));
            NormSq(d) <= Dot(Sub(c', c), d)
  {
    hide Mul, Dot, Total, Clip, NormSq;
    var w, v := ClipAt(c, lo, hi, tau), ClipAt(c', lo, hi, sigma);
    var d := Sub(v, w);
    ClipInBox(c, lo, hi, tau);
    ClipInBox(c', lo, hi, sigma);
    ClipVariational(c, lo, hi, tau, v);
    ClipVariational(c', lo, hi, sigma, w);
    MulZero(tau);
    MulZero(sigma);
    DotSub(c, w, d);
    DotSub(v, w, Sub(c', v));
    DotSub(w, v, Sub(c', v));
    DotSub(c', v, d);
    DotCommutes(Sub(c', v), d);
    DotCommutes(Sub(c', v), Sub(w, v));
    DotSub(c', c, d);
    DotSub(v, w, d);
    SquareIsNorm(d);
  }

  /** The candidates of two points differ by what the step leaves of their difference. */
  lemma CandidatesDiffer(p: Problem, w: Vec, v: Vec, d: Vec)
    requires Shaped(p) && |w| == |v| == |d| == |p.mu|
    ensures Dot(Sub(Candidate(p, v), Candidate(p, w)), d)
         == Dot(d, Sub(v, w)) - Mul(StepOf(p), Mul(p.lam, Dot(d, MatVec(Cov(p), Sub(v, w)))))
  {
    hide Mul, Dot, StepOf, Gradient, Candidate;
    CandidateAlong(p, w, d);
    CandidateAlong(p, v, d);
    DotSub(Candidate(p, v), Candidate(p, w), d);
    MatVecSub(Cov(p), v, w);
    DotSub(MatVec(Cov(p), v), MatVec(Cov(p), w), d);
    DotSub(v, w, d);
    var step, lam, a, b := StepOf(p), p.lam, Dot(d, MatVec(Cov(p), v)), Dot(d, MatVec(Cov(p), w));
    MulSub(Dot(p.mu, d) - Mul(lam, a), Dot(p.mu, d) - Mul(lam, b), step);
    MulSub(a, b, lam);
    MulMinus(step, Mul(lam, a - b));
  }

  lemma CandidateAlong(p: Problem, w: Vec, d: Vec)
    requires Shaped(p) && |w| == |d| == |p.mu|
    ensures Dot(Candidate(p, w), d)
         == Dot(d, w) + Mul(StepOf(p), Dot(p.mu, d) - Mul(p.lam, Dot(d, MatVec(Cov(p), w))))
  {
    hide Mul, Dot, StepOf, Gradient, Candidate;
    CandidateMinus(p, w, w, d);
    GradientDot(p, w, d);
    DotSub(Candidate(p, w), w, d);
    DotSub(w, w, d);
    DotCommutes(w, d);
  }

  /** What the step leaves of a bilinear form; it lies between 0 and q times the inner product. */
  function Left(p: Problem, x: Vec, y: Vec): real
    requires Shaped(p) && |x| == |y| == |p.mu|
  {
    Dot(x, y) - Mul(StepOf(p), Mul(p.lam, Dot(x, MatVec(Cov(p), y))))
  }

  lemma LeftBounds(p: Problem, q: real, x: Vec)
    requires Regular(p) && Curved(p, q) && |x| == |p.mu|
    ensures 0.0 <= Left(p, x, x) <= Mul(q, NormSq(x))
  {
    hide Mul, NormSq, StepOf;
    StepCurvature(p, x);
    SquareIsNorm(x);
    MulSub(1.0, q, NormSq(x));
    MulOne(NormSq(x));
    assert Quad(Cov(p), x) == Dot(x, MatVec(Cov(p), x));
  }

  /** 2 q Left(d, e) <= Left(d, d) + q^2 Left(e, e), for the form is never negative. */
  lemma LeftYoung(p: Problem, q: real, d: Vec, e: Vec)
    requires Regular(p) && |d| == |e| == |p.mu|
    ensures 2.0 * Mul(q, Left(p, d, e)) <= Left(p, d, d) + Mul(Mul(q, q), Left(p, e, e))
  {
    hide Mul, Dot, NormSq, StepOf;
    var step, lam, sigma, f := StepOf(p), p.lam, Cov(p), Scale(q, e);
    var z := Sub(d, f);
    StepCurvature(p, z);
    NormSqOfDifference(d, f);
    NormScale(q, e);
    DotScale(q, e, d);
    SquareIsNorm(d);
    SquareIsNorm(e);
    QuadExpansion(sigma, d, f);
    DotSub(d, f, MatVec(sigma, f));
    MatVecScale(sigma, q, e);
    DotScale(q, MatVec(sigma, e), d);
    DotScale(q, MatVec(sigma, e), f);
    DotScale(q, e, MatVec(sigma, e));
    DotCommutes(MatVec(sigma, e), e);
    MulTwice(q, Dot(e, MatVec(sigma, e)));
    YoungCollect(step, lam, q, Dot(d, d), Dot(d, e), Dot(e, e), Quad(sigma, d), Dot(d, MatVec(sigma, e)),
                 Quad(sigma, e), Quad(sigma, z));
  }

  lemma MatVecScale(a: Matrix, c: real, x: Vec)
    requires Rows(a, |x|)
    ensures MatVec(a, Scale(c, x)) == Scale(c, MatVec(a, x))
  {
    hide Mul, Dot;
    forall i | 0 <= i < |a|
      ensures Dot(a[i], Scale(c, x)) == Mul(c, Dot(a[i], x))
    {
      DotScale(c, x, a[i]);
    }
  }

  lemma YoungCollect(step: real, lam: real, q: real, dd: real, de: real, ee: real, sd: real, sde: real, se: real,
                     sz: real)
    requires sz == sd - 2.0 * Mul(q, sde) + Mul(Mul(q, q), se)
    requires Mul(step, Mul(lam, sz)) <= dd - 2.0 * Mul(q, de) + Mul(Mul(q, q), ee)
    ensures 2.0 * Mul(q, de - Mul(step, Mul(lam, sde)))
         <= dd - Mul(step, Mul(lam, sd)) + Mul(Mul(q, q), ee - Mul(step, Mul(lam, se)))
  {
    hide Mul;
    MulAdd(lam, sd, Mul(Mul(q, q), se) - 2.0 * Mul(q, sde));
    MulSub(Mul(Mul(q, q), se), 2.0 * Mul(q, sde), lam);
    MulAdd(lam, Mul(q, sde), Mul(q, sde));
    MulAdd(step, Mul(lam, sd), Mul(lam, Mul(Mul(q, q), se)) - 2.0 * Mul(lam, Mul(q, sde)));
    MulSub(Mul(lam, Mul(Mul(q, q), se)), 2.0 * Mul(lam, Mul(q, sde)), step);
    MulAdd(step, Mul(lam, Mul(q, sde)), Mul(lam, Mul(q, sde)));
    MulRegroup(step, lam, q, sde);
    MulRegroup(step, lam, Mul(q, q), se);
    MulSub(de, Mul(step, Mul(lam, sde)), q);
    MulSub(ee, Mul(step, Mul(lam, se)), Mul(q, q));
  }

  /** Between two points whose new points carry one mass, a pass shrinks the distance by the factor q. */
  lemma PassContracts(p: Problem, q: real, w: Vec, v: Vec, tau: real, sigma: real)
    requires Regular(p) && 0.0 < q && Curved(p, q) && |w| == |v| == |p.mu|
    requires Total(Advance(p, w, tau)) == Total(Advance(p, v, sigma))
    ensures NormSq(Sub(Advance(p, v, sigma), Advance(p, w, tau))) <= Mul(Mul(q, q), NormSq(Sub(v, w)))
  {
    hide Mul, Dot, NormSq, StepOf, Candidate, Total, Clip, Curved;
    var d, e := Sub(Advance(p, v, sigma), Advance(p, w, tau)), Sub(v, w);
    ClipPairs(Candidate(p, w), Candidate(p, v), p.wMin, p.wMax, tau, sigma);
    CandidatesDiffer(p, w, v, d);
    LeftYoung(p, q, d, e);
    LeftBounds(p, q, d);
    LeftBounds(p, q, e);
    ContractScalar(q, NormSq(d), NormSq(e), Left(p, d, e), Left(p, d, d), Left(p, e, e));
  }

  lemma ContractScalar(q: real, nd: real, ne: real, de: real, dd: real, ee: real)
    requires 0.0 < q && nd <= de && dd <= Mul(q, nd) && ee <= Mul(q, ne)
    requires 2.0 * Mul(q, de) <= dd + Mul(Mul(q, q), ee)
    ensures nd <= Mul(Mul(q, q), ne)
  {
    hide Mul;
    var goal := Mul(Mul(q, q), ne);
    MulSigns(q, q);
    MulMonotone(Mul(q, q), ee, Mul(q, ne));
    MulRotate(q, ne);
    MulMonotone(q, nd, de);
    if nd > goal {
      MulSigns(q, nd - goal);
      MulSub(nd, goal, q);
    }
  }

  lemma MulRotate(q: real, n: real)
    ensures Mul(Mul(q, q), Mul(q, n)) == Mul(q, Mul(Mul(q, q), n))
  {
  }

  /** Whatever the masses: a pass shrinks distances by the factor q, up to the difference of the new masses. */
  lemma PassShrinks(p: Problem, q: real, w: Vec, v: Vec, tau: real, sigma: real, r: real)
    requires Regular(p) && 0.0 < q && Curved(p, q) && |w| == |v| == |p.mu| && Short(Sub(v, w), r)
    ensures Short(Sub(Advance(p, v, sigma), Advance(p, w, tau)),
                  Mul(q, r) + Abs(Total(Advance(p, v, sigma)) - Total(Advance(p, w, tau))))
  {
    hide Mul, NormSq, StepOf, Candidate, Total, Clip, Curved, L1;
    var c, lo, hi := Candidate(p, v), p.wMin, p.wMax;
    var w', v' := Advance(p, w, tau), Advance(p, v, sigma);
    ClipInBox(Candidate(p, w), lo, hi, tau);
    BoxMass(w', lo, hi);
    ProjectionExists(c, lo, hi, Total(w'));
    var rho :| MassAt(c, lo, hi, rho) == Total(w');
    var m := Advance(p, v, rho);
    PassContracts(p, q, w, v, tau, rho);
    ShortProduct(Sub(v, w), Sub(m, w'), q, r);
    ShiftMovesByMass(c, lo, hi, sigma, rho);
    ShortByL1(v', m);
    ShortSum(v', m, w', Abs(Total(v') - Total(w')), Mul(q, r));
  }

  lemma ShortProduct(x: Vec, y: Vec, q: real, r: real)
    requires Short(x, r) && 0.0 <= q && NormSq(y) <= Mul(Mul(q, q), NormSq(x))
    ensures Short(y, Mul(q, r))
  {
    hide Mul, NormSq;
    MulSigns(q, r);
    MulSigns(q, q);
    MulMonotone(Mul(q, q), NormSq(x), Mul(r, r));
    FourProduct(q, r, 0.0);
    MulCommutes(Mul(q, q), Mul(r, r));
  }

  lemma ShortMore(x: Vec, r: real, s: real)
    requires Short(x, r) && r <= s
    ensures Short(x, s)
  {
    SquareMonotone(r, s);
  }

  // ----- whole runs

  function Pow(q: real, k: nat): real {
    if k == 0 then 1.0 else Mul(q, Pow(q, k - 1))
  }

  /** How far apart two box points can be. */
  function Spread(p: Problem): real {
    Total(p.wMax) - Total(p.wMin)
  }

  lemma {:induction false} BoxApart(x: Vec, y: Vec, lo: Vec, hi: Vec)
    requires InBox(x, lo, hi) && InBox(y, lo, hi)
    ensures L1(x, y) <= Total(hi) - Total(lo)
  {
    if |x| > 0 {
      BoxApart(x[1..], y[1..], lo[1..], hi[1..]);
    }
  }

  /** The length after k passes that shrink a length of r by q and add e each. */
  function Settled(q: real, r: real, e: real, k: nat): real
    requires q < 1.0
  {
    Mul(Pow(q, k), r) + Div(e, 1.0 - q)
  }

  lemma SettledStart(q: real, r: real, e: real)
    requires 0.0 < q < 1.0 && 0.0 <= e
    ensures r <= Settled(q, r, e, 0)
  {
    hide Mul;
    MulOne(r);
    SettledShare(q, e);
  }

  lemma SettledShare(q: real, e: real)
    requires 0.0 < q < 1.0 && 0.0 <= e
    ensures 0.0 <= Div(e, 1.0 - q) && Mul(q, Div(e, 1.0 - q)) + e == Div(e, 1.0 - q)
  {
    var x := Div(e, 1.0 - q);
    assert Mul(1.0 - q, x) == e;
    hide Mul, Div;
    if x < 0.0 {
      MulSigns(1.0 - q, -x);
      MulMinus(1.0 - q, x);
    }
    MulSub(1.0, q, x);
    MulOne(x);
  }

  lemma SettledStep(q: real, r: real, e: real, k: nat)
    requires 0.0 < q < 1.0 && 0.0 <= e
    ensures Mul(q, Settled(q, r, e, k)) + e == Settled(q, r, e, k + 1)
  {
    hide Mul, Div;
    SettledShare(q, e);
    MulAdd(q, Mul(Pow(q, k), r), Div(e, 1.0 - q));
    MulThree(q, Pow(q, k), r);
  }

  lemma MulThree(a: real, b: real, c: real)
    ensures Mul(a, Mul(b, c)) == Mul(Mul(a, b), c)
  {
  }

  lemma OffPositive(p: Problem)
    requires Shaped(p) && |p.mu| > 0
    ensures SUM_TOLERANCE <= Off(p)
  {
    hide Times, Pow2, Reach;
  }

  /** Consecutive iterates of a solver run: q^k times the spread of the box, plus the resolution of the bisection. */
  lemma {:induction false} PassesSettle(p: Problem, q: real, ws: seq<Vec>, taus: seq<real>, k: nat)
    requires Regular(p) && IsSolverRun(p, ws, taus) && 0.0 < q < 1.0 && Curved(p, q) && k < |taus|
    ensures |ws| == |taus| + 1 && |ws[k]| == |ws[k + 1]| == |p.mu|
    ensures Short(Sub(ws[k + 1], ws[k]), Settled(q, Spread(p), 2.0 * Off(p), k))
  {
    hide Mul, Total, Off, Goal, Settled, Curved, L1, Short, IsSolverRun, Advance, Miss, Reach;
    RunBasics(p, ws, taus);
    SolverErrors(p, ws, taus);
    OffPositive(p);
    if k == 0 {
      RunStaysInBox(p, ws, taus, 1);
      ShortByL1(ws[1], ws[0]);
      BoxApart(ws[1], ws[0], p.wMin, p.wMax);
      SettledStart(q, Spread(p), 2.0 * Off(p));
      ShortMore(Sub(ws[1], ws[0]), L1(ws[1], ws[0]), Settled(q, Spread(p), 2.0 * Off(p), 0));
    } else {
      PassesSettle(p, q, ws, taus, k - 1);
      assert ws[k] == Advance(p, ws[k - 1], taus[k - 1]) by { assert ws[k - 1 + 1] == ws[k]; }
      assert ws[k + 1] == Advance(p, ws[k], taus[k]);
      var r := Settled(q, Spread(p), 2.0 * Off(p), k - 1);
      PassShrinks(p, q, ws[k - 1], ws[k], taus[k - 1], taus[k], r);
      SettledStep(q, Spread(p), 2.0 * Off(p), k - 1);
      ShortMore(Sub(ws[k + 1], ws[k]), Mul(q, r) + Abs(Total(ws[k + 1]) - Total(ws[k])), Mul(q, r) + 2.0 * Off(p));
    }
  }

  /** Once q^k spread(box) + 2 Off / (1 - q) is under the tolerance, every pass passes the stop test. */
  lemma StopTestHolds(p: Problem, q: real, ws: seq<Vec>, taus: seq<real>, tol: real, k: nat)
    requires Regular(p) && IsSolverRun(p, ws, taus) && 0.0 < q < 1.0 && Curved(p, q)
    requires k < |taus| && Settled(q, Spread(p), 2.0 * Off(p), k) < tol
    ensures |ws| == |taus| + 1 && |ws[k]| == |ws[k + 1]| == |p.mu| && Close(ws[k], ws[k + 1], tol)
  {
    hide Settled, Curved, Short, Close, IsSolverRun;
    PassesSettle(p, q, ws, taus, k);
    ShortIsClose(ws[k], ws[k + 1], Settled(q, Spread(p), 2.0 * Off(p), k), tol);
  }

  /** So a solver that may make more than k passes leaves its loop through the stop test, after k + 1 at the latest. */
  lemma StopsByContraction(p: Problem, q: real, ws: seq<Vec>, taus: seq<real>, tol: real, maxIters: nat, k: nat)
    requires Regular(p) && IsSolverRun(p, ws, taus) && StoppedRight(ws, tol, maxIters)
    requires 0.0 < q < 1.0 && Curved(p, q)
    requires k < maxIters && Settled(q, Spread(p), 2.0 * Off(p), k) < tol
    ensures StoppedByTest(ws, taus, tol) && |taus| <= k + 1
  {
    hide Settled, Curved, Close, IsSolverRun;
    RunBasics(p, ws, taus);
    if k < |taus| {
      StopTestHolds(p, q, ws, taus, tol, k);
    }
  }

  /** Two maximisers of one mass are the same portfolio. */
  lemma MaximiserUnique(p: Problem, q: real, u: Vec, v: Vec)
    requires Regular(p) && 0.0 < q < 1.0 && Curved(p, q)
    requires InBox(u, p.wMin, p.wMax) && InBox(v, p.wMin, p.wMax) && Total(u) == Total(v)
    requires Maximises(p, u) && Maximises(p, v)
    ensures u == v
  {
    hide Mul, NormSq, Curved, Maximises, Advance, Total;
    var tau := OptimalIsFixed(p, u);
    var sigma := OptimalIsFixed(p, v);
    PassContracts(p, q, u, v, tau, sigma);
    NoGap(q, NormSq(Sub(v, u)));
    NormSqZero(v, u);
  }

  lemma NoGap(q: real, n: real)
    requires 0.0 < q < 1.0 && n <= Mul(Mul(q, q), n)
    ensures n <= 0.0
  {
    if n > 0.0 {
      assert Mul(q, q) < 1.0;
      hide Mul;
      MulSigns(1.0 - Mul(q, q), n);
      MulSub(1.0, Mul(q, q), n);
      MulOne(n);
    }
  }

  /** The iterates close in on the maximiser of the goal's mass: q^k spread(box), plus Off / (1 - q). */
  lemma {:induction false} SolverConverges(p: Problem, q: real, ws: seq<Vec>, taus: seq<real>, u: Vec, k: nat)
    requires Regular(p) && IsSolverRun(p, ws, taus) && 0.0 < q < 1.0 && Curved(p, q) && k <= |taus|
    requires InBox(u, p.wMin, p.wMax) && Total(u) == Goal(p) && Maximises(p, u)
    ensures |ws| == |taus| + 1 && |ws[k]| == |p.mu|
    ensures Short(Sub(ws[k], u), Settled(q, Spread(p), Off(p), k))
  {
    hide Mul, Total, Off, Goal, Settled, Curved, L1, Short, IsSolverRun, Advance, Miss, Reach, Maximises;
    RunBasics(p, ws, taus);
    SolverErrors(p, ws, taus);
    OffPositive(p);
    if k == 0 {
      ShortByL1(ws[0], u);
      BoxApart(ws[0], u, p.wMin, p.wMax);
      SettledStart(q, Spread(p), Off(p));
      ShortMore(Sub(ws[0], u), L1(ws[0], u), Settled(q, Spread(p), Off(p), 0));
    } else {
      SolverConverges(p, q, ws, taus, u, k - 1);
      var sigma := OptimalIsFixed(p, u);
      assert ws[k] == Advance(p, ws[k - 1], taus[k - 1]) by { assert ws[k - 1 + 1] == ws[k]; }
      var r := Settled(q, Spread(p), Off(p), k - 1);
      PassShrinks(p, q, u, ws[k - 1], sigma, taus[k - 1], r);
      SettledStep(q, Spread(p), Off(p), k - 1);
      ShortMore(Sub(ws[k], u), Mul(q, r) + Abs(Total(ws[k]) - Total(u)), Mul(q, r) + Off(p));
    }
  }

  // ----- the configured tolerance

  const QP_TOLERANCE := 0.000000001
  const QP_MAX_ITERS := 5000

  lemma {:induction false} PowAdd(q: real, a: nat, b: nat)
    ensures Pow(q, a + b) == Mul(Pow(q, a), Pow(q, b))
  {
    hide Mul;
    if a == 0 {
      MulOne(Pow(q, b));
    } else {
      PowAdd(q, a - 1, b);
      MulThree(q, Pow(q, a - 1), Pow(q, b));
    }
  }

  lemma PowSum(q: real, a: nat, b: nat, x: real, y: real, z: real)
    requires 0.0 <= Pow(q, a) <= x && 0.0 <= Pow(q, b) <= y && x * y <= z
    ensures 0.0 <= Pow(q, a + b) <= z
  {
    hide Mul, Pow;
    PowAdd(q, a, b);
    MulSigns(Pow(q, a), Pow(q, b));
    ProductAtMost(Pow(q, a), Pow(q, b), x, y);
    MulIsProduct(x, y);
  }

  /** 0.99^2870 < 1e-12 / 2 */
  lemma PowSmall(q: real)
    requires 0.0 < q <= 0.99
    ensures 0.0 <= Pow(q, 2870) <= 0.0000000000005
  {
    assert 0.0 <= Pow(q, 1) <= 0.99;
    hide Pow;
    PowSum(q, 1, 1, 0.99, 0.99, 0.9801);
    PowSum(q, 2, 2, 0.9801, 0.9801, 0.9606);
    PowSum(q, 4, 4, 0.9606, 0.9606, 0.9228);
    PowSum(q, 8, 8, 0.9228, 0.9228, 0.8516);
    PowSum(q, 16, 16, 0.8516, 0.8516, 0.7253);
    PowSum(q, 32, 32, 0.7253, 0.7253, 0.5261);
    PowSum(q, 64, 4, 0.5261, 0.9606, 0.5055);
    PowSum(q, 68, 2, 0.5055, 0.9801, 0.5);
    PowSum(q, 70, 70, 0.5, 0.5, 0.25);
    PowSum(q, 140, 140, 0.25, 0.25, 0.0625);
    PowSum(q, 280, 280, 0.0625, 0.0625, 0.00390625);
    PowSum(q, 560, 560, 0.00390625, 0.00390625, 0.0000152588);
    PowSum(q, 1120, 1120, 0.0000152588, 0.0000152588, 0.0000000002329);
    PowSum(q, 2240, 560, 0.0000000002329, 0.00390625, 0.00000000000091);
    PowSum(q, 2800, 70, 0.00000000000091, 0.5, 0.0000000000005);
  }

  /** A problem whose numbers are of sane size: the bisection resolves its totals to 1e-12. */
  predicate SaneSize(p: Problem)
    requires Shaped(p) && |p.mu| > 0
  {
    |p.mu| <= 1000 && Reach(p) <= 1000000.0 && Spread(p) <= 1000.0
  }

  lemma OffIsTolerance(p: Problem)
    requires Shaped(p) && |p.mu| > 0 && SaneSize(p)
    ensures Off(p) == SUM_TOLERANCE
  {
    hide Reach, Pow2, Spread;
    Pow2Large();
    TimesMonotone(|p.mu|, 2.0 * Reach(p), 2000000.0);
    var x := Times(|p.mu|, 2.0 * Reach(p));
    assert x <= 2000000000.0;
    QuotientMonotone(x, 2000000000.0, Pow2(BISECTIONS));
  }

  /**
   * As configured (config.py:69-70), with a step that uses at least one percent of the curvature, the solver always
   * leaves its loop through the stop test, well before the passes run out.
   */
  lemma StopsAsConfigured(p: Problem, q: real, ws: seq<Vec>, taus: seq<real>)
    requires Regular(p) && IsSolverRun(p, ws, taus) && StoppedRight(ws, QP_TOLERANCE, QP_MAX_ITERS)
    requires 0.0 < q <= 0.99 && Curved(p, q) && SaneSize(p)
    ensures StoppedByTest(ws, taus, QP_TOLERANCE) && |taus| <= 2871
  {
    hide Mul, Div, Pow, Curved, Off, Reach, IsSolverRun, StoppedRight, StoppedByTest;
    OffIsTolerance(p);
    PowSmall(q);
    BoxMass(p.wMin, p.wMin, p.wMax);
    ProductAtMost(Pow(q, 2870), Spread(p), 0.0000000000005, 1000.0);
    MulIsProduct(0.0000000000005, 1000.0);
    ShareAtMost(2.0 * SUM_TOLERANCE, q);
    StopsByContraction(p, q, ws, taus, QP_TOLERANCE, QP_MAX_ITERS, 2870);
  }

  lemma ShareAtMost(e: real, q: real)
    requires q <= 0.99 && 0.0 <= e
    ensures Div(e, 1.0 - q) <= 100.0 * e
  {
    var x := Div(e, 1.0 - q);
    assert Mul(1.0 - q, x) == e;
  }

  // ----- a covariance that curves

  /** By how much each diagonal entry outweighs the rest of its row, at least. */
  function Margins(sigma: Matrix): (m: Vec)
    requires Square(sigma, |sigma|)
    ensures |m| == |sigma|
  {
    seq(|sigma|, i requires 0 <= i < |sigma| => 2.0 * sigma[i][i] - Total(AbsVec(sigma[i])))
  }

  /** The matrix with the signs off its diagonal turned over. */
  function Flipped(sigma: Matrix): (b: Matrix)
    requires Square(sigma, |sigma|)
    ensures Square(b, |sigma|)
  {
    seq(|sigma|, i requires 0 <= i < |sigma| => FlippedRow(sigma[i], i))
  }

  function FlippedRow(a: Vec, i: int): (b: Vec)
    ensures |b| == |a|
  {
    seq(|a|, j requires 0 <= j < |a| => if j == i then a[j] else -a[j])
  }

  lemma {:induction false} FlippedDot(a: Vec, x: Vec, i: int)
    requires |a| == |x| && i < |a|
    ensures Dot(FlippedRow(a, i), x) == (if i < 0 then 0.0 else 2.0 * Mul(a[i], x[i])) - Dot(a, x)
    ensures Total(AbsVec(FlippedRow(a, i))) == Total(AbsVec(a))
  {
    hide Mul;
    if |a| > 0 {
      assert FlippedRow(a, i)[1..] == FlippedRow(a[1..], i - 1);
      assert AbsVec(FlippedRow(a, i))[1..] == AbsVec(FlippedRow(a, i)[1..]) && AbsVec(a)[1..] == AbsVec(a[1..]);
      FlippedDot(a[1..], x[1..], i - 1);
      MulMinus(a[0], x[0]);
    }
  }

  lemma FlippedQuad(sigma: Matrix, x: Vec)
    requires Square(sigma, |x|)
    ensures Dot(Squares(x), Margins(sigma)) == Quad(sigma, x) + Quad(Flipped(sigma), x)
            - Dot(Squares(x), RowSums(Flipped(sigma)))
  {
    hide Mul, Dot, Total;
    var b := Flipped(sigma);
    var y, z := MatVec(sigma, x), MatVec(b, x);
    forall i | 0 <= i < |x|
      ensures y[i] + z[i] == 2.0 * Mul(sigma[i][i], x[i])
      ensures Margins(sigma)[i] + RowSums(b)[i] == 2.0 * sigma[i][i]
    {
      FlippedDot(sigma[i], x, i);
    }
    DiagonalDot(x, y, z, Margins(sigma), RowSums(b), seq(|x|, i requires 0 <= i < |x| => sigma[i][i]));
  }

  /** When y + z = 2 D x and m + r = 2 D for a diagonal D, x.y + x.z = x^2.m + x^2.r. */
  lemma {:induction false} DiagonalDot(x: Vec, y: Vec, z: Vec, m: Vec, r: Vec, d: Vec)
    requires |x| == |y| == |z| == |m| == |r| == |d|
    requires forall i :: 0 <= i < |x| ==> y[i] + z[i] == 2.0 * Mul(d[i], x[i]) && m[i] + r[i] == 2.0 * d[i]
    ensures Dot(x, y) + Dot(x, z) == Dot(Squares(x), m) + Dot(Squares(x), r)
  {
    hide Mul;
    if |x| > 0 {
      assert Squares(x)[1..] == Squares(x[1..]);
      DiagonalDot(x[1..], y[1..], z[1..], m[1..], r[1..], d[1..]);
      MulAdd(x[0], y[0], z[0]);
      MulAdd(Mul(x[0], x[0]), m[0], r[0]);
      DiagonalScalar(x[0], d[0]);
    }
  }

  lemma DiagonalScalar(x: real, d: real)
    ensures Mul(x, 2.0 * Mul(d, x)) == Mul(Mul(x, x), 2.0 * d)
  {
    assert x * (d * x) == (x * x) * d;
  }

  /** The mirror image of Gershgorin's bound: x . (sigma x) is at least the smallest margin times |x|^2. */
  lemma MarginBound(sigma: Matrix, x: Vec, m: real)
    requires |x| > 0 && Symmetric(sigma, |x|) && forall i :: 0 <= i < |x| ==> m <= Margins(sigma)[i]
    ensures Mul(m, NormSq(x)) <= Quad(sigma, x)
  {
    hide Mul, Dot, Total, Quad;
    var b, e := Flipped(sigma), Squares(x);
    assert Symmetric(b, |x|) by {
      forall i, j | 0 <= i < |x| && 0 <= j < |x|
        ensures b[i][j] == b[j][i]
      {
        assert sigma[i][j] == sigma[j][i];
      }
    }
    WeightedRowBound(b, x);
    FlippedQuad(sigma, x);
    SquaresNonNegative(x);
    WeightedAtLeast(e, Margins(sigma), m);
    NormIsTotalOfSquares(x);
  }

  lemma {:induction false} WeightedAtLeast(e: Vec, r: Vec, m: real)
    requires |e| == |r|
    requires forall i :: 0 <= i < |e| ==> 0.0 <= e[i] && m <= r[i]
    ensures Mul(m, Total(e)) <= Dot(e, r)
  {
    hide Mul;
    if |e| == 0 {
      MulZero(m);
    } else {
      WeightedAtLeast(e[1..], r[1..], m);
      MulAdd(m, e[0], Total(e[1..]));
      MulMonotone(e[0], m, r[0]);
      MulCommutes(m, e[0]);
    }
  }

  /** What the step makes of the smallest margin: the share of the curvature it is sure to use. */
  function SureShare(p: Problem): real
    requires Shaped(p) && |p.mu| > 0
  {
    Mul(StepOf(p), Mul(p.lam, MinOf(Margins(Cov(p)))))
  }

  /** A covariance whose diagonal dominates curves: the factor can be read off the problem. */
  lemma DominantIsCurved(p: Problem, q: real)
    requires Regular(p) && 1.0 - q <= SureShare(p)
    ensures Curved(p, q)
  {
    hide Mul, NormSq, Quad, StepOf, Total, Margins;
    var m := MinOf(Margins(Cov(p)));
    StepPositiveHidden(p);
    forall x: Vec | |x| == |p.mu|
      ensures Mul(1.0 - q, NormSq(x)) <= Mul(StepOf(p), Mul(p.lam, Quad(Cov(p), x)))
    {
      MarginBound(Cov(p), x, m);
      NormSqNonNegative(x);
      MulMonotone(NormSq(x), 1.0 - q, SureShare(p));
      MulCommutes(NormSq(x), 1.0 - q);
      MulCommutes(NormSq(x), SureShare(p));
      MulThree(StepOf(p), Mul(p.lam, m), NormSq(x));
      MulThree(p.lam, m, NormSq(x));
      MulMonotone(p.lam, Mul(m, NormSq(x)), Quad(Cov(p), x));
      MulMonotone(StepOf(p), Mul(p.lam, Mul(m, NormSq(x))), Mul(p.lam, Quad(Cov(p), x)));
    }
  }

  /** The same, on conditions that can be read off the problem before the call. */
  lemma DominantStopsAsConfigured(p: Problem, ws: seq<Vec>, taus: seq<real>)
    requires Regular(p) && IsSolverRun(p, ws, taus) && StoppedRight(ws, QP_TOLERANCE, QP_MAX_ITERS)
    requires 0.01 <= SureShare(p) && SaneSize(p)
    ensures StoppedByTest(ws, taus, QP_TOLERANCE) && |taus| <= 2871
  {
    hide Curved, SureShare, SaneSize, IsSolverRun, StoppedRight, StoppedByTest;
    DominantIsCurved(p, 0.99);
    StopsAsConfigured(p, 0.99, ws, taus);
  }

  /** Two uncorrelated sleeves of unit variance. */
  const PAIR := Problem([0.1, 0.05], [[1.0, 0.0], [0.0, 1.0]], [0.0, 0.0], [1.0, 1.0], 1.0)

  lemma PairCurvature()
    ensures Symmetric(Cov(PAIR), 2) && SpectralBound(PAIR.sigma) == 1.0 && MinOf(Margins(Cov(PAIR))) == 1.0
  {
    var sigma := PAIR.sigma;
    assert Cov(PAIR)[0] == sigma[0] && Cov(PAIR)[1] == sigma[1];
    RowOfTwo(1.0, 0.0);
    RowOfTwo(0.0, 1.0);
    hide Total, AbsVec;
    assert RowSums(sigma) == [1.0, 1.0];
    assert Margins(Cov(PAIR)) == [1.0, 1.0];
  }

  lemma PairStep()
    ensures StepOf(PAIR) == 1.0 && SureShare(PAIR) == 1.0
  {
    PairCurvature();
    hide SpectralBound, MinOf, Margins, Cov;
    assert Shaped(PAIR);
  }

  lemma PairSizes()
    ensures Size(PAIR.mu) <= 1.0 && BoundSize(PAIR) <= 1.0
  {
    hide Size, MaxOf;
    SizeAtMost(PAIR.mu, 1.0);
    SizeAtMost(PAIR.wMin, 1.0);
    SizeAtMost(PAIR.wMax, 1.0);
  }

  lemma PairSize()
    ensures SaneSize(PAIR)
  {
    hide Total, StepOf, Size, BoundSize, Mul;
    PairStep();
    PairSizes();
    RowOfTwo(0.0, 0.0);
    RowOfTwo(1.0, 1.0);
    MulOne(Size(PAIR.mu));
  }

  /** The step is sure to use all of the curvature of the pair, so that the conditions above can be met. */
  lemma UncorrelatedIsCurved()
    ensures Regular(PAIR) && SaneSize(PAIR) && SureShare(PAIR) == 1.0 && Curved(PAIR, 0.5)
  {
    PairCurvature();
    PairStep();
    PairSize();
    hide SaneSize, SureShare, Curved;
    DominantIsCurved(PAIR, 0.5);
  }

  lemma RowOfTwo(a: real, b: real)
    ensures Total([a, b]) == a + b && Total(AbsVec([a, b])) == Abs(a) + Abs(b)
  {
    assert [a, b][1..] == [b] && [b][1..] == [];
    assert AbsVec([a, b]) == [Abs(a), Abs(b)] && [Abs(a), Abs(b)][1..] == [Abs(b)];
    TotalStep([a, b]);
    TotalStep([Abs(a), Abs(b)]);
    TotalStep([b]);
    TotalStep([Abs(b)]);
  }

  lemma SizeAtMost(v: Vec, c: real)
    requires |v| > 0 && Within(v, c)
    ensures Size(v) <= c
  {
    hide Abs;
    var i :| 0 <= i < |v| && AbsVec(v)[i] == MaxOf(AbsVec(v));
    assert Abs(v[i]) <= c;
  }
}
