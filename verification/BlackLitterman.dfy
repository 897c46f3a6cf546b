/** Blending a prior with confidence-weighted absolute views (black_litterman.py). */
module BlackLitterman {
  import opened Vectors
  import opened GaussJordan
  import opened Rounding
  import opened Sequences
  import opened Sleeves

  /** An absolute view on one sleeve: its target is the prior plus the expected excess. */
  datatype View = View(sleeve: Sleeve, expectedExcess: real, confidence: real)

  datatype Market = Market(universe: seq<Sleeve>, pi: Vec, sigma: Matrix, tau: real)

  datatype Blended =
    | Posterior(mu: Vec)
    | SingularCovariance
    | UnmappedView(sleeve: Sleeve)

  const CONF_FLOOR := 0.000001
  const CONF_CEIL := 1.0 - 0.000001
  const MU_TICKS := 100000000.0

  /** One prior per sleeve and a covariance with at least a row and a column per sleeve; the rest is never read. */
  predicate WellFormed(m: Market) {
    && |m.pi| == |m.universe| <= |m.sigma|
    && forall i :: 0 <= i < |m.universe| ==> |m.sigma[i]| >= |m.universe|
  }

  /** The position of the sleeve in the universe; its length when the sleeve is absent. */
  function IndexOf(universe: seq<Sleeve>, s: Sleeve): (i: nat)
    ensures i <= |universe|
    ensures i < |universe| ==> universe[i] == s
    ensures i == |universe| <==> s !in universe
  {
    if |universe| == 0 then 0
    else if universe[0] == s then 0
    else 1 + IndexOf(universe[1..], s)
  }

  function Confidence(v: View): (c: real)
    ensures CONF_FLOOR <= c <= CONF_CEIL
  {
    Min(Max(v.confidence, CONF_FLOOR), CONF_CEIL)
  }

  /** tau sigma_cc (1 - c) / c, before the floor. */
  function RawOmega(m: Market, v: View, c: nat): real
    requires WellFormed(m) && c < |m.universe|
  {
    Div(Mul(Mul(m.tau, m.sigma[c][c]), 1.0 - Confidence(v)), Confidence(v))
  }

  function Omega(m: Market, v: View, c: nat): (w: real)
    requires WellFormed(m) && c < |m.universe|
    ensures w >= SINGULAR_EPS
  {
    if RawOmega(m, v, c) < SINGULAR_EPS then SINGULAR_EPS else RawOmega(m, v, c)
  }

  /** The precision a view adds at position j. */
  function ViewWeight(m: Market, v: View, j: nat): real
    requires WellFormed(m) && j < |m.universe|
  {
    if IndexOf(m.universe, v.sleeve) == j then Div(1.0, Omega(m, v, j)) else 0.0
  }

  function SumViews(views: seq<View>, f: View -> real): real {
    if |views| == 0 then 0.0 else SumViews(views[..|views| - 1], f) + f(views[|views| - 1])
  }

  function TauSigma(m: Market): (t: Matrix)
    requires WellFormed(m)
    ensures Square(t, |m.universe|)
  {
    var n := |m.universe|;
    seq(n, i requires 0 <= i < n => seq(n, j requires 0 <= j < n => Mul(m.tau, m.sigma[i][j])))
  }

  /** The diagonal of P' Omega^-1 P. */
  function ViewPrecision(m: Market, views: seq<View>): (d: Vec)
    requires WellFormed(m)
    ensures |d| == |m.universe|
  {
    var n := |m.universe|;
    seq(n, j requires 0 <= j < n => SumViews(views, v => ViewWeight(m, v, j)))
  }

  /** P' Omega^-1 Q. */
  function ViewTargets(m: Market, views: seq<View>): (e: Vec)
    requires WellFormed(m)
    ensures |e| == |m.universe|
  {
    var n := |m.universe|;
    seq(n, j requires 0 <= j < n => SumViews(views, v => Mul(ViewWeight(m, v, j), m.pi[j] + v.expectedExcess)))
  }

  /** inverse + diag(d) */
  function AddDiagonal(inverse: Matrix, d: Vec): (p: Matrix)
    requires Square(inverse, |d|)
    ensures Square(p, |d|)
  {
    var n := |d|;
    seq(n, i requires 0 <= i < n => seq(n, j requires 0 <= j < n => inverse[i][j] + if i == j then d[j] else 0.0))
  }

  function Add(x: Vec, y: Vec): (z: Vec)
    requires |x| == |y|
    ensures |z| == |x|
  {
    seq(|x|, i requires 0 <= i < |x| => x[i] + y[i])
  }

  /** The views before the first one outside the universe. */
  function MappedPrefix(universe: seq<Sleeve>, views: seq<View>): (k: nat)
    ensures k <= |views|
    ensures forall i :: 0 <= i < k ==> views[i].sleeve in universe
    ensures k < |views| ==> views[k].sleeve !in universe
  {
    if |views| == 0 || views[0].sleeve !in universe then 0
    else 1 + MappedPrefix(universe, views[1..])
  }

  /** The blend before quantization. */
  function Blend(m: Market, views: seq<View>): (r: Blended)
    requires WellFormed(m)
    ensures r.Posterior? ==> |r.mu| == |m.universe|
  {
    if |views| == 0 then Posterior(m.pi)
    else
      match Invert(TauSigma(m))
      case Singular(_, _) => SingularCovariance
      case Inverted(inverse) =>
        var k := MappedPrefix(m.universe, views);
        if k < |views| then UnmappedView(views[k].sleeve)
        else
          match Invert(AddDiagonal(inverse, ViewPrecision(m, views)))
          case Singular(_, _) => SingularCovariance
          case Inverted(b) => Posterior(MatVec(b, Add(MatVec(inverse, m.pi), ViewTargets(m, views))))
  }

  /** What the caller receives: the prior untouched without views, otherwise the blend to eight decimals. */
  function Published(m: Market, views: seq<View>): Blended
    requires |views| > 0 ==> WellFormed(m)
  {
    if |views| == 0 then Posterior(m.pi)
    else
      var r := Blend(m, views);
      if !r.Posterior? then r
      else Posterior(seq(|r.mu|, i requires 0 <= i < |r.mu| => QuantizeTo(r.mu[i], MU_TICKS)))
  }

  // ----- the equation the posterior solves

  /** How hard the views still pull at y: the weighted shortfalls against their targets. */
  function Surprise(m: Market, views: seq<View>, y: Vec): (s: Vec)
    requires WellFormed(m) && |y| == |m.universe|
    ensures |s| == |m.universe|
  {
    var n := |m.universe|;
    seq(n, j requires 0 <= j < n => SumViews(views, v => Mul(ViewWeight(m, v, j), m.pi[j] + v.expectedExcess - y[j])))
  }

  /** y = pi + tau sigma P' Omega^-1 (Q - P y): the Black-Litterman equation, without any inverse. */
  ghost predicate SolvesBlend(m: Market, views: seq<View>, y: Vec)
    requires WellFormed(m) && |y| == |m.universe|
  {
    y == Add(m.pi, MatVec(TauSigma(m), Surprise(m, views, y)))
  }

  lemma {:induction false} SumViewsLinear(views: seq<View>, f: View -> real, c: real, g: View -> real, h: View -> real)
    requires forall v :: h(v) == f(v) - Mul(g(v), c)
    ensures SumViews(views, h) == SumViews(views, f) - Mul(SumViews(views, g), c)
  {
    hide Mul;
    if |views| == 0 {
      MulZero(c);
    } else {
      SumViewsLinear(views[..|views| - 1], f, c, g, h);
      MulAdd(c, SumViews(views[..|views| - 1], g), g(views[|views| - 1]));
    }
  }

  lemma SurpriseIsGap(m: Market, views: seq<View>, y: Vec, j: nat)
    requires WellFormed(m) && |y| == |m.universe| && j < |y|
    ensures Surprise(m, views, y)[j] == ViewTargets(m, views)[j] - Mul(ViewPrecision(m, views)[j], y[j])
  {
    hide Mul, ViewWeight;
    var g := (v: View) => ViewWeight(m, v, j);
    var f := (v: View) => Mul(ViewWeight(m, v, j), m.pi[j] + v.expectedExcess);
    var h := (v: View) => Mul(ViewWeight(m, v, j), m.pi[j] + v.expectedExcess - y[j]);
    forall v: View
      ensures h(v) == f(v) - Mul(g(v), y[j])
    {
      MulSub(m.pi[j] + v.expectedExcess, y[j], ViewWeight(m, v, j));
    }
    SumViewsLinear(views, f, y[j], g, h);
  }

  lemma AddDiagonalImage(inverse: Matrix, d: Vec, y: Vec, i: nat)
    requires Square(inverse, |d|) && |y| == |d| && i < |d|
    ensures Dot(AddDiagonal(inverse, d)[i], y) == Dot(inverse[i], y) + Mul(d[i], y[i])
  {
    hide Mul, Dot;
    var row, n := AddDiagonal(inverse, d)[i], |d|;
    forall j | 0 <= j < n
      ensures row[j] == Mul(1.0, inverse[i][j]) + Mul(d[i], UnitVec(n, i)[j])
    {
      MulOne(inverse[i][j]);
      MulZero(d[i]);
      MulOne(d[i]);
      MulCommutes(1.0, d[i]);
    }
    DotLinear(1.0, inverse[i], d[i], UnitVec(n, i), row, y);
    MulOne(Dot(inverse[i], y));
    DotUnit(n, i, y);
  }

  /** The posterior is the one and only solution of the Black-Litterman equation. */
  lemma PosteriorIffSolves(m: Market, views: seq<View>, y: Vec)
    requires WellFormed(m) && |y| == |m.universe| && Blend(m, views).Posterior?
    ensures y == Blend(m, views).mu <==> SolvesBlend(m, views, y)
  {
    if |views| == 0 {
      NoViewsNoSurprise(m, y);
    } else {
      hide Invert, Surprise, TauSigma, ViewPrecision, ViewTargets, AddDiagonal;
      var t := TauSigma(m);
      var inverse := Invert(t).b;
      var precision := AddDiagonal(inverse, ViewPrecision(m, views));
      var rhs := Add(MatVec(inverse, m.pi), ViewTargets(m, views));
      InverseIff(precision, y, rhs);
      PrecisionIff(m, views, inverse, y);
      InverseIff(t, Surprise(m, views, y), Sub(y, m.pi));
      SubIffAdd(y, m.pi, MatVec(t, Surprise(m, views, y)));
    }
  }

  lemma NoViewsNoSurprise(m: Market, y: Vec)
    requires WellFormed(m) && |y| == |m.universe|
    ensures SolvesBlend(m, [], y) <==> y == m.pi
  {
    var s := Surprise(m, [], y);
    hide Mul, Dot;
    forall i | 0 <= i < |y|
      ensures MatVec(TauSigma(m), s)[i] == 0.0
    {
      DotVanishes(TauSigma(m)[i], s);
    }
    assert Add(m.pi, MatVec(TauSigma(m), s)) == m.pi;
  }

  /** a y = x exactly when y is the inverse's image of x. */
  lemma InverseIff(a: Matrix, y: Vec, x: Vec)
    requires Square(a, |a|) && |y| == |x| == |a| && Invert(a).Inverted?
    ensures y == MatVec(Invert(a).b, x) <==> MatVec(a, y) == x
  {
    hide Invert, MatVec;
    InverseUndoes(a, x);
    InverseUndoes(a, y);
  }

  lemma PrecisionIff(m: Market, views: seq<View>, inverse: Matrix, y: Vec)
    requires WellFormed(m) && |y| == |m.universe| && Square(inverse, |y|)
    ensures MatVec(AddDiagonal(inverse, ViewPrecision(m, views)), y)
            == Add(MatVec(inverse, m.pi), ViewTargets(m, views))
       <==> MatVec(inverse, Sub(y, m.pi)) == Surprise(m, views, y)
  {
    hide Mul, Dot, Surprise, ViewPrecision, ViewTargets, AddDiagonal;
    var d, e := ViewPrecision(m, views), ViewTargets(m, views);
    var p, s := AddDiagonal(inverse, d), Surprise(m, views, y);
    forall i | 0 <= i < |y|
      ensures MatVec(p, y)[i] == Add(MatVec(inverse, m.pi), e)[i] <==> MatVec(inverse, Sub(y, m.pi))[i] == s[i]
    {
      AddDiagonalImage(inverse, d, y, i);
      SurpriseIsGap(m, views, y, i);
      DotSub(y, m.pi, inverse[i]);
    }
    if MatVec(p, y) == Add(MatVec(inverse, m.pi), e) {
      forall i | 0 <= i < |y| ensures MatVec(inverse, Sub(y, m.pi))[i] == s[i] {
        assert MatVec(p, y)[i] == Add(MatVec(inverse, m.pi), e)[i];
      }
    }
    if MatVec(inverse, Sub(y, m.pi)) == s {
      forall i | 0 <= i < |y| ensures MatVec(p, y)[i] == Add(MatVec(inverse, m.pi), e)[i] {
        assert MatVec(inverse, Sub(y, m.pi))[i] == s[i];
      }
    }
  }

  lemma SubIffAdd(y: Vec, x: Vec, z: Vec)
    requires |y| == |x| == |z|
    ensures MatchesDifference(y, x, z) <==> y == Add(x, z)
  {
  }

  ghost predicate MatchesDifference(y: Vec, x: Vec, z: Vec)
    requires |y| == |x| == |z|
  {
    Sub(y, x) == z
  }

  // ----- what follows for the views

  /** Views without excess leave the prior unmoved. */
  lemma ZeroExcessKeepsPrior(m: Market, views: seq<View>)
    requires WellFormed(m) && Blend(m, views).Posterior?
    requires forall i :: 0 <= i < |views| ==> views[i].expectedExcess == 0.0
    ensures Blend(m, views).mu == m.pi
  {
    var s := Surprise(m, views, m.pi);
    hide Mul, Dot, Blend, ViewWeight;
    forall j | 0 <= j < |s|
      ensures s[j] == 0.0
    {
      NoExcessNoPull(m, views, j);
    }
    forall i | 0 <= i < |s|
      ensures MatVec(TauSigma(m), s)[i] == 0.0
    {
      DotVanishes(TauSigma(m)[i], s);
    }
    assert Add(m.pi, MatVec(TauSigma(m), s)) == m.pi;
    PosteriorIffSolves(m, views, m.pi);
  }

  lemma {:induction false} NoExcessNoPull(m: Market, views: seq<View>, j: nat)
    requires WellFormed(m) && j < |m.universe|
    requires forall i :: 0 <= i < |views| ==> views[i].expectedExcess == 0.0
    ensures SumViews(views, v => Mul(ViewWeight(m, v, j), m.pi[j] + v.expectedExcess - m.pi[j])) == 0.0
  {
    hide Mul, ViewWeight;
    if |views| == 0 {
    } else {
      NoExcessNoPull(m, views[..|views| - 1], j);
      MulZero(ViewWeight(m, views[|views| - 1], j));
    }
  }

  lemma {:induction false} SumViewsRemove(views: seq<View>, f: View -> real, i: nat)
    requires i < |views|
    ensures SumViews(views, f) == f(views[i]) + SumViews(Without(views, i), f)
  {
    var n := |views| - 1;
    if i == n {
      assert Without(views, i) == views[..n];
    } else {
      SumViewsRemove(views[..n], f, i);
      assert Without(views, i)[..n - 1] == Without(views[..n], i);
    }
  }

  /** A sum over views does not depend on their order. */
  lemma {:induction false} SumViewsPermute(views: seq<View>, others: seq<View>, f: View -> real)
    requires multiset(views) == multiset(others)
    ensures SumViews(views, f) == SumViews(others, f)
  {
    if |views| == 0 {
      assert |multiset(others)| == 0;
    } else {
      var n := |views| - 1;
      assert Without(views, n) == views[..n];
      MultisetWithout(views, n);
      var i := FindIn(views[n], others);
      MultisetWithout(others, i);
      SumViewsRemove(others, f, i);
      SumViewsPermute(views[..n], Without(others, i), f);
    }
  }

  ghost predicate SameOutcome(a: Blended, b: Blended) {
    match a
    case Posterior(mu) => b == a
    case SingularCovariance => b.SingularCovariance?
    case UnmappedView(_) => b.UnmappedView?
  }

  /** The order of the views changes neither the posterior nor the kind of refusal. */
  lemma ViewOrderIrrelevant(m: Market, views: seq<View>, others: seq<View>)
    requires WellFormed(m) && multiset(views) == multiset(others)
    ensures SameOutcome(Blend(m, views), Blend(m, others))
  {
    assert |views| == |multiset(views)| == |multiset(others)| == |others|;
    forall j | 0 <= j < |m.universe|
      ensures ViewPrecision(m, views)[j] == ViewPrecision(m, others)[j]
      ensures ViewTargets(m, views)[j] == ViewTargets(m, others)[j]
    {
      hide ViewWeight, Mul;
      SumViewsPermute(views, others, v => ViewWeight(m, v, j));
      SumViewsPermute(views, others, v => Mul(ViewWeight(m, v, j), m.pi[j] + v.expectedExcess));
    }
    hide Invert;
    assert ViewPrecision(m, views) == ViewPrecision(m, others);
    assert ViewTargets(m, views) == ViewTargets(m, others);
    if MappedPrefix(m.universe, views) == |views| {
      MappedAlike(m.universe, views, others);
    }
    if MappedPrefix(m.universe, others) == |others| {
      MappedAlike(m.universe, others, views);
    }
  }

  lemma MappedAlike(universe: seq<Sleeve>, views: seq<View>, others: seq<View>)
    requires multiset(views) == multiset(others) && MappedPrefix(universe, views) == |views|
    ensures MappedPrefix(universe, others) == |others|
  {
    forall i | 0 <= i < |others|
      ensures others[i].sleeve in universe
    {
      assert others[i] in multiset(others);
      var j :| 0 <= j < |views| && views[j] == others[i];
    }
  }

  // ----- a single view

  /** Where one view moves the prior: by k times the covariance column of the viewed sleeve. */
  function Shifted(m: Market, c: nat, k: real): (y: Vec)
    requires WellFormed(m) && c < |m.universe|
    ensures |y| == |m.universe|
  {
    seq(|m.pi|, i requires 0 <= i < |m.pi| => m.pi[i] + Mul(k, m.sigma[i][c]))
  }

  lemma SingleSurprise(m: Market, v: View, y: Vec, j: nat)
    requires WellFormed(m) && |y| == |m.universe| && j < |y|
    ensures var c := IndexOf(m.universe, v.sleeve);
            Surprise(m, [v], y)[j]
              == if j == c then Mul(Div(1.0, Omega(m, v, c)), m.pi[c] + v.expectedExcess - y[c]) else 0.0
  {
    hide Mul, Omega, Div;
    var f := (w: View) => Mul(ViewWeight(m, w, j), m.pi[j] + w.expectedExcess - y[j]);
    OneView(v, f);
    MulZero(m.pi[j] + v.expectedExcess - y[j]);
  }

  lemma OneView(v: View, f: View -> real)
    ensures SumViews([v], f) == f(v)
  {
  }

  /** With one view, tau sigma applied to the surprise is a multiple of the viewed column. */
  lemma SingleImage(m: Market, v: View, y: Vec, i: nat)
    requires WellFormed(m) && |y| == |m.universe| && i < |y| && v.sleeve in m.universe
    ensures var c := IndexOf(m.universe, v.sleeve);
            MatVec(TauSigma(m), Surprise(m, [v], y))[i]
              == Mul(Mul(m.tau, Mul(Div(1.0, Omega(m, v, c)), m.pi[c] + v.expectedExcess - y[c])), m.sigma[i][c])
  {
    hide Mul, Dot, Omega, Div;
    var c, s := IndexOf(m.universe, v.sleeve), Surprise(m, [v], y);
    forall j | 0 <= j < |s| && j != c
      ensures s[j] == 0.0
    {
      SingleSurprise(m, v, y, j);
    }
    SingleSurprise(m, v, y, c);
    DotSingle(TauSigma(m)[i], s, c);
    MulRotate(m.tau, m.sigma[i][c], s[c]);
  }

  lemma MulRotate(a: real, b: real, c: real)
    ensures Mul(Mul(a, b), c) == Mul(Mul(a, c), b)
  {
  }

  /** The shift by k solves the one-view equation as soon as k (omega + tau sigma_cc) = tau excess. */
  lemma ShiftSolves(m: Market, v: View, k: real)
    requires WellFormed(m) && v.sleeve in m.universe
    requires var c := IndexOf(m.universe, v.sleeve);
             Mul(k, Omega(m, v, c) + Mul(m.tau, m.sigma[c][c])) == Mul(m.tau, v.expectedExcess)
    ensures SolvesBlend(m, [v], Shifted(m, IndexOf(m.universe, v.sleeve), k))
  {
    hide Mul, Dot, Omega, Div;
    var c := IndexOf(m.universe, v.sleeve);
    var y := Shifted(m, c, k);
    ShiftScalar(m.tau, v.expectedExcess, m.sigma[c][c], Omega(m, v, c), k);
    forall i | 0 <= i < |y|
      ensures y[i] == m.pi[i] + MatVec(TauSigma(m), Surprise(m, [v], y))[i]
    {
      SingleImage(m, v, y, i);
      assert m.pi[c] + v.expectedExcess - y[c] == v.expectedExcess - Mul(k, m.sigma[c][c]);
    }
    assert y == Add(m.pi, MatVec(TauSigma(m), Surprise(m, [v], y)));
  }

  lemma ShiftScalar(tau: real, excess: real, s: real, omega: real, k: real)
    requires omega >= SINGULAR_EPS && Mul(k, omega + Mul(tau, s)) == Mul(tau, excess)
    ensures Mul(tau, Mul(Div(1.0, omega), excess - Mul(k, s))) == k
  {
  }

  /** A successful one-view blend never divides by zero: omega + tau sigma_cc cannot vanish. */
  lemma DenominatorNonZero(m: Market, v: View)
    requires WellFormed(m) && Blend(m, [v]).Posterior? && v.sleeve in m.universe
    ensures var c := IndexOf(m.universe, v.sleeve); Omega(m, v, c) + Mul(m.tau, m.sigma[c][c]) != 0.0
  {
    hide Mul, Dot, Omega, Div, Blend, SolvesBlend;
    var c := IndexOf(m.universe, v.sleeve);
    var omega, s := Omega(m, v, c), m.sigma[c][c];
    if omega + Mul(m.tau, s) == 0.0 {
      var y := Blend(m, [v]).mu;
      PosteriorIffSolves(m, [v], y);
      var y' := seq(|y|, i requires 0 <= i < |y| => y[i] + m.sigma[i][c]);
      KernelShift(m, v, y, y');
      PosteriorIffSolves(m, [v], y');
      assert y'[c] == y[c];
      MulZero(m.tau);
      assert false;
    }
  }

  /** If the denominator vanished, adding the viewed column would carry one solution to another. */
  lemma KernelShift(m: Market, v: View, y: Vec, y': Vec)
    requires WellFormed(m) && v.sleeve in m.universe && |y| == |y'| == |m.universe| && SolvesBlend(m, [v], y)
    requires var c := IndexOf(m.universe, v.sleeve);
             && Omega(m, v, c) + Mul(m.tau, m.sigma[c][c]) == 0.0
             && forall i :: 0 <= i < |y| ==> y'[i] == y[i] + m.sigma[i][c]
    ensures SolvesBlend(m, [v], y')
  {
    hide Mul, Dot, Omega, Div;
    var c := IndexOf(m.universe, v.sleeve);
    var gap := m.pi[c] + v.expectedExcess - y[c];
    KernelScalar(m.tau, m.sigma[c][c], Omega(m, v, c), gap);
    forall i | 0 <= i < |y|
      ensures y'[i] == m.pi[i] + MatVec(TauSigma(m), Surprise(m, [v], y'))[i]
    {
      SingleImage(m, v, y, i);
      SingleImage(m, v, y', i);
      assert y[i] == m.pi[i] + MatVec(TauSigma(m), Surprise(m, [v], y))[i];
      assert m.pi[c] + v.expectedExcess - y'[c] == gap - m.sigma[c][c];
      var p := Mul(m.tau, Mul(Div(1.0, Omega(m, v, c)), gap));
      MulAdd(m.sigma[i][c], p, 1.0);
      MulOne(m.sigma[i][c]);
    }
    assert y' == Add(m.pi, MatVec(TauSigma(m), Surprise(m, [v], y')));
  }

  lemma KernelScalar(tau: real, s: real, omega: real, gap: real)
    requires omega >= SINGULAR_EPS && omega + Mul(tau, s) == 0.0
    ensures Mul(tau, Mul(Div(1.0, omega), gap - s)) == Mul(tau, Mul(Div(1.0, omega), gap)) + 1.0
  {
  }

  /** One view moves every sleeve by tau excess / (omega + tau sigma_cc) times its covariance with the viewed one. */
  lemma SingleViewPosterior(m: Market, v: View)
    requires WellFormed(m) && Blend(m, [v]).Posterior? && v.sleeve in m.universe
    ensures var c := IndexOf(m.universe, v.sleeve);
            var den := Omega(m, v, c) + Mul(m.tau, m.sigma[c][c]);
            den != 0.0 && Blend(m, [v]).mu == Shifted(m, c, Div(Mul(m.tau, v.expectedExcess), den))
  {
    hide Mul, Omega, Div, Blend, SolvesBlend;
    var c := IndexOf(m.universe, v.sleeve);
    var den := Omega(m, v, c) + Mul(m.tau, m.sigma[c][c]);
    DenominatorNonZero(m, v);
    var k := Div(Mul(m.tau, v.expectedExcess), den);
    DivFacts(Mul(m.tau, v.expectedExcess), 0.0, den);
    MulCommutes(k, den);
    ShiftSolves(m, v, k);
    PosteriorIffSolves(m, [v], Shifted(m, c, k));
  }

  /**
   * The viewed sleeve moves by exactly confidence times excess, if and only if the variance floor is not engaged
   * (or there is nothing to move); every other sleeve then moves by its regression coefficient on the viewed one.
   */
  lemma ViewMovesByConfidence(m: Market, v: View)
    requires WellFormed(m) && Blend(m, [v]).Posterior? && v.sleeve in m.universe
    ensures var c, mu := IndexOf(m.universe, v.sleeve), Blend(m, [v]).mu;
            && ((mu[c] - m.pi[c] == Confidence(v) * v.expectedExcess)
                <==> (v.expectedExcess == 0.0 || RawOmega(m, v, c) >= SINGULAR_EPS))
            && (RawOmega(m, v, c) >= SINGULAR_EPS ==>
                  && m.sigma[c][c] != 0.0
                  && forall i :: 0 <= i < |mu| ==>
                       mu[i] == m.pi[i] + Mul(Div(Confidence(v) * v.expectedExcess, m.sigma[c][c]), m.sigma[i][c]))
  {
    hide Blend, SolvesBlend, RawOmega, Omega, Confidence, Mul, Div, IndexOf;
    var c := IndexOf(m.universe, v.sleeve);
    SingleViewPosterior(m, v);
    OmegaParts(m, v, c);
    ConfidenceScalar(m.tau, m.sigma[c][c], Confidence(v), v.expectedExcess, RawOmega(m, v, c), Omega(m, v, c));
    assert Blend(m, [v]).mu[c]
        == m.pi[c] + Mul(Div(Mul(m.tau, v.expectedExcess), Omega(m, v, c) + Mul(m.tau, m.sigma[c][c])), m.sigma[c][c]);
  }

  lemma OmegaParts(m: Market, v: View, c: nat)
    requires WellFormed(m) && c < |m.universe|
    ensures 0.0 < Confidence(v) < 1.0
    ensures RawOmega(m, v, c) == Div(Mul(Mul(m.tau, m.sigma[c][c]), 1.0 - Confidence(v)), Confidence(v))
    ensures Omega(m, v, c) == if RawOmega(m, v, c) < SINGULAR_EPS then SINGULAR_EPS else RawOmega(m, v, c)
  {
    hide Mul, Div;
  }

  /** A market and a view on which all of this applies: the prior of 5% moves by half the view's 2%. */
  lemma BlendAnswers() returns (m: Market, v: View)
    ensures WellFormed(m) && v.sleeve in m.universe && Blend(m, [v]) == Posterior([0.06])
    ensures RawOmega(m, v, IndexOf(m.universe, v.sleeve)) >= SINGULAR_EPS
  {
    m, v := Market([Equity], [0.05], [[0.04]], 0.05), View(Equity, 0.02, 0.5);
    assert m.universe[0] == Equity;
    assert m.universe[..0] == [];
    assert IndexOf(m.universe, Equity) == 0;
    SingleEntry(TauSigma(m));
    assert TauSigma(m)[0][0] == 0.002;
    OneByOne(0.002);
    var inverse := Invert([[0.002]]).b;
    assert inverse[0][0] == 500.0;
    OneView(v, u => ViewWeight(m, u, 0));
    var precision := AddDiagonal(inverse, ViewPrecision(m, [v]));
    SingleEntry(precision);
    assert precision[0][0] == 1000.0;
    OneByOne(1000.0);
    ViewMovesByConfidence(m, v);
  }

  /**
   * The failing half: a full-confidence view on a quiet sleeve, where the variance floor engages and the blend
   * still answers.
   */
  lemma FloorEngages() returns (m: Market, v: View)
    ensures WellFormed(m) && v.sleeve in m.universe && Blend(m, [v]).Posterior? && v.expectedExcess != 0.0
    ensures var c := IndexOf(m.universe, v.sleeve);
            RawOmega(m, v, c) < SINGULAR_EPS && Blend(m, [v]).mu[c] - m.pi[c] != Confidence(v) * v.expectedExcess
  {
    m, v := Market([Equity], [0.05], [[0.0000001]], 1.0), View(Equity, 0.02, 1.0);
    assert m.universe[0] == Equity;
    assert m.universe[..0] == [];
    assert IndexOf(m.universe, Equity) == 0;
    SingleEntry(TauSigma(m));
    assert TauSigma(m)[0][0] == 0.0000001;
    OneByOne(0.0000001);
    var inverse := Invert([[0.0000001]]).b;
    assert inverse[0][0] == 10000000.0;
    assert RawOmega(m, v, 0) < SINGULAR_EPS;
    OneView(v, u => ViewWeight(m, u, 0));
    var precision := AddDiagonal(inverse, ViewPrecision(m, [v]));
    SingleEntry(precision);
    assert precision[0][0] == 1000010000000.0;
    OneByOne(1000010000000.0);
    ViewMovesByConfidence(m, v);
  }

  lemma ConfidenceScalar(tau: real, s: real, conf: real, excess: real, raw: real, omega: real)
    requires 0.0 < conf < 1.0
    requires raw == Div(Mul(Mul(tau, s), 1.0 - conf), conf)
    requires omega == if raw < SINGULAR_EPS then SINGULAR_EPS else raw
    requires omega + Mul(tau, s) != 0.0
    ensures var k := Div(Mul(tau, excess), omega + Mul(tau, s));
            && (Mul(k, s) == conf * excess <==> excess == 0.0 || raw >= SINGULAR_EPS)
            && (raw >= SINGULAR_EPS ==> s != 0.0 && k == Div(conf * excess, s))
  {
  }

  // ----- the procedure

  lemma {:induction false} SumViewsStep(views: seq<View>, k: nat, f: View -> real)
    requires k < |views|
    ensures SumViews(views[..k + 1], f) == SumViews(views[..k], f) + f(views[k])
  {
    assert views[..k + 1][..k] == views[..k];
  }

  /** The pick matrix row of a view: one at its sleeve, zero elsewhere. */
  predicate IsPick(row: Vec, n: nat, col: nat) {
    |row| == n && col < n && row == UnitVec(n, col)
  }

  /** The first column that a pick row selects. */
  method PickedColumn(row: Vec, ghost col: nat) returns (c: nat)
    requires IsPick(row, |row|, col)
    ensures c == col
  {
    c := 0;
    while row[c] == 0.0
      invariant c <= col
      decreases col - c
    {
      c := c + 1;
    }
  }

  method PickViews(m: Market, views: seq<View>)
    returns (unmapped: bool, bad: Sleeve, pMat: Matrix, qVec: Vec, omegaInv: Vec)
    requires WellFormed(m)
    ensures unmapped <==> MappedPrefix(m.universe, views) < |views|
    ensures unmapped ==> bad == views[MappedPrefix(m.universe, views)].sleeve
    ensures !unmapped ==>
              && |pMat| == |qVec| == |omegaInv| == |views|
              && forall k :: 0 <= k < |views| ==>
                   var c := IndexOf(m.universe, views[k].sleeve);
                   && IsPick(pMat[k], |m.universe|, c)
                   && qVec[k] == m.pi[c] + views[k].expectedExcess && omegaInv[k] == ViewWeight(m, views[k], c)
  {
    hide Mul, Div, ViewWeight;
    var n := |m.universe|;
    pMat, qVec, omegaInv := [], [], [];
    bad := Equity;
    var row := 0;
    while row < |views|
      invariant 0 <= row <= |views| && row <= MappedPrefix(m.universe, views)
      invariant |pMat| == |qVec| == |omegaInv| == row
      invariant forall k :: 0 <= k < row ==>
                  var c := IndexOf(m.universe, views[k].sleeve);
                  && IsPick(pMat[k], n, c)
                  && qVec[k] == m.pi[c] + views[k].expectedExcess && omegaInv[k] == ViewWeight(m, views[k], c)
    {
      var view := views[row];
      var col := IndexOf(m.universe, view.sleeve);
      if col == n {
        return true, view.sleeve, pMat, qVec, omegaInv;
      }
      var pick := Zeros(n)[col := 1.0];
      assert pick == UnitVec(n, col);
      var omega := ViewOmega(m, view, col);
      WeightOf(m, view, col);
      pMat, qVec, omegaInv := pMat + [pick], qVec + [m.pi[col] + view.expectedExcess], omegaInv + [Div(1.0, omega)];
      row := row + 1;
    }
    unmapped := false;
  }

  lemma WeightOf(m: Market, v: View, c: nat)
    requires WellFormed(m) && c < |m.universe| && IndexOf(m.universe, v.sleeve) == c
    ensures ViewWeight(m, v, c) == Div(1.0, Omega(m, v, c))
  {
    hide Omega, Div;
  }

  /** The variance of a view, floored so that it can be inverted. */
  method ViewOmega(m: Market, view: View, col: nat) returns (omega: real)
    requires WellFormed(m) && col < |m.universe|
    ensures omega == Omega(m, view, col)
  {
    var conf := Min(Max(view.confidence, CONF_FLOOR), CONF_CEIL);
    var viewVar := Mul(m.tau, m.sigma[col][col]);
    omega := Div(Mul(viewVar, 1.0 - conf), conf);
    if omega < SINGULAR_EPS {
      omega := SINGULAR_EPS;
    }
  }

  method AccumulateViews(m: Market, views: seq<View>, pMat: Matrix, qVec: Vec, omegaInv: Vec) returns (d: Vec, e: Vec)
    requires WellFormed(m) && |pMat| == |qVec| == |omegaInv| == |views|
    requires forall k :: 0 <= k < |views| ==>
               var c := IndexOf(m.universe, views[k].sleeve);
               && IsPick(pMat[k], |m.universe|, c)
               && qVec[k] == m.pi[c] + views[k].expectedExcess && omegaInv[k] == ViewWeight(m, views[k], c)
    ensures d == ViewPrecision(m, views) && e == ViewTargets(m, views)
  {
    hide Mul, ViewWeight;
    var n := |m.universe|;
    d, e := Zeros(n), Zeros(n);
    var row := 0;
    while row < |views|
      invariant 0 <= row <= |views| && |d| == |e| == n
      invariant d == ViewPrecision(m, views[..row]) && e == ViewTargets(m, views[..row])
    {
      var col := PickedColumn(pMat[row], IndexOf(m.universe, views[row].sleeve));
      var w := omegaInv[row];
      AccumulateStep(m, views, row, col);
      d := d[col := d[col] + w];
      e := e[col := e[col] + Mul(w, qVec[row])];
      row := row + 1;
    }
    assert views[..|views|] == views;
  }

  lemma AccumulateStep(m: Market, views: seq<View>, row: nat, col: nat)
    requires WellFormed(m) && row < |views| && col == IndexOf(m.universe, views[row].sleeve) < |m.universe|
    ensures var w := ViewWeight(m, views[row], col);
            var d, e := ViewPrecision(m, views[..row]), ViewTargets(m, views[..row]);
            && ViewPrecision(m, views[..row + 1]) == d[col := d[col] + w]
            && ViewTargets(m, views[..row + 1]) == e[col := e[col] + Mul(w, m.pi[col] + views[row].expectedExcess)]
  {
    var n := |m.universe|;
    forall j | 0 <= j < n && j != col
      ensures ViewWeight(m, views[row], j) == 0.0
    {
    }
    hide Mul, ViewWeight;
    forall j | 0 <= j < n
      ensures ViewPrecision(m, views[..row + 1])[j] == ViewPrecision(m, views[..row])[j] + ViewWeight(m, views[row], j)
      ensures ViewTargets(m, views[..row + 1])[j]
           == ViewTargets(m, views[..row])[j] + Mul(ViewWeight(m, views[row], j), m.pi[j] + views[row].expectedExcess)
    {
      SumViewsStep(views, row, v => ViewWeight(m, v, j));
      SumViewsStep(views, row, v => Mul(ViewWeight(m, v, j), m.pi[j] + v.expectedExcess));
      MulZero(m.pi[j] + views[row].expectedExcess);
    }
  }

  method BlackLitterman(m: Market, views: seq<View>) returns (r: Blended)
    requires |views| > 0 ==> WellFormed(m)
    ensures r == Published(m, views)
    ensures |views| == 0 ==> r == Posterior(m.pi)
    ensures |views| > 0 && r.Posterior? ==>
              Blend(m, views).Posterior? && |r.mu| == |m.universe|
              && forall i :: 0 <= i < |r.mu| ==> Abs(r.mu[i] - Blend(m, views).mu[i]) <= 0.5 / MU_TICKS
  {
    if |views| == 0 {
      return Posterior(m.pi);
    }
    hide Mul, Dot, Invert, QuantizeTo, ViewWeight, TauSigma;
    var tauSigma := TauSigma(m);
    var first := InvertInPlace(tauSigma);
    if first.Singular? {
      return SingularCovariance;
    }
    var unmapped, bad, pMat, qVec, omegaInv := PickViews(m, views);
    if unmapped {
      return UnmappedView(bad);
    }
    var d, e := AccumulateViews(m, views, pMat, qVec, omegaInv);
    var precision := AddDiagonal(first.b, d);
    var rhs := Add(MatVec(first.b, m.pi), e);
    var second := InvertInPlace(precision);
    if second.Singular? {
      return SingularCovariance;
    }
    var posterior := MatVec(second.b, rhs);
    r := Posterior(seq(|posterior|, i requires 0 <= i < |posterior| => QuantizeTo(posterior[i], MU_TICKS)));
    forall i | 0 <= i < |posterior|
      ensures Abs(r.mu[i] - posterior[i]) <= 0.5 / MU_TICKS
    {
      QuantizeToNear(posterior[i], MU_TICKS);
    }
  }
}
