/** What a belief update says about the views, the prior and the covariance it was given (black_litterman.py). */
module ViewsOnInputs {
  import opened Vectors
  import opened GaussJordan
  import opened Rounding
  import opened Sleeves
  import opened BlackLitterman

  // ----- the terms of a view

  /** The confidence that counts: the stated one, held between 0.000001 and 0.999999. */
  predicate IsClamped(c: real, confidence: real) {
    c == if confidence < 0.000001 then 0.000001 else if confidence > 0.999999 then 0.999999 else confidence
  }

  /** The variance of a view: tau sigma_jj (1 - c) / c, and at least 1e-12. */
  predicate IsVariance(omega: real, tau: real, sigma: real, c: real)
    requires c != 0.0
  {
    var raw := Div(Mul(Mul(tau, sigma), 1.0 - c), c);
    omega == if raw < 0.000000000001 then 0.000000000001 else raw
  }

  /** The place of a sleeve in the universe. */
  predicate IsPlace(universe: seq<Sleeve>, j: int, s: Sleeve) {
    0 <= j < |universe| && universe[j] == s && forall i :: 0 <= i < j ==> universe[i] != s
  }

  lemma {:induction false} PlaceIsIndex(universe: seq<Sleeve>, j: int, s: Sleeve)
    requires IsPlace(universe, j, s)
    ensures IndexOf(universe, s) == j
  {
    if j > 0 {
      assert universe[0] != s;
      PlaceIsIndex(universe[1..], j - 1, s);
    }
  }

  lemma ClampOnInputs(v: View, c: real)
    requires IsClamped(c, v.confidence)
    ensures Confidence(v) == c && 0.0 < c < 1.0
  {
  }

  lemma VarianceOnInputs(m: Market, v: View, j: nat, c: real, omega: real)
    requires WellFormed(m) && j < |m.universe|
    requires IsClamped(c, v.confidence) && IsVariance(omega, m.tau, m.sigma[j][j], c)
    ensures Omega(m, v, j) == omega > 0.0
  {
    hide Mul, Div;
    ClampOnInputs(v, c);
  }

  // ----- any number of views

  /** What each view is taken to be: its sleeve's place, its variance, and how hard it pulls at y. */
  ghost predicate AreTerms(m: Market, views: seq<View>, y: Vec, cols: seq<int>, omegas: Vec, pulls: Vec)
    requires WellFormed(m) && |y| == |m.universe|
  {
    && |cols| == |omegas| == |pulls| == |views|
    && forall k :: 0 <= k < |views| ==>
         && IsPlace(m.universe, cols[k], views[k].sleeve) && omegas[k] > 0.0
         && (exists c: real :: IsClamped(c, views[k].confidence) && c != 0.0
               && IsVariance(omegas[k], m.tau, m.sigma[cols[k]][cols[k]], c))
         && pulls[k] == Div(m.pi[cols[k]] + views[k].expectedExcess - y[cols[k]], omegas[k])
  }

  lemma ReciprocalTimes(omega: real, gap: real)
    requires omega > 0.0
    ensures Mul(Div(1.0, omega), gap) == Div(gap, omega)
  {
    var q := Div(1.0, omega);
    assert q * omega == 1.0;
    assert (q * gap) * omega == gap;
  }

  lemma OneWeight(m: Market, v: View, col: int, omega: real, c: real, gap: real, j: nat)
    requires WellFormed(m) && IsPlace(m.universe, col, v.sleeve) && j < |m.universe| && omega > 0.0
    requires IsClamped(c, v.confidence) && c != 0.0 && IsVariance(omega, m.tau, m.sigma[col][col], c)
    ensures Mul(ViewWeight(m, v, j), gap) == if j == col then Div(gap, omega) else 0.0
  {
    hide Mul, Div, Omega, IsVariance, IsClamped, IndexOf;
    PlaceIsIndex(m.universe, col, v.sleeve);
    VarianceOnInputs(m, v, col, c, omega);
    ReciprocalTimes(omega, gap);
    MulZero(gap);
  }

  lemma LastPull(m: Market, views: seq<View>, y: Vec, cols: seq<int>, omegas: Vec, pulls: Vec, j: nat)
    requires WellFormed(m) && |y| == |m.universe| && j < |y| && |views| > 0
    requires AreTerms(m, views, y, cols, omegas, pulls)
    ensures var n := |views| - 1;
            Surprise(m, views, y)[j] == Surprise(m, views[..n], y)[j] + if j == cols[n] then pulls[n] else 0.0
  {
    hide Mul, Div, ViewWeight, IsVariance, IsClamped;
    var n := |views| - 1;
    var v := views[n];
    assert IsPlace(m.universe, cols[n], v.sleeve) && omegas[n] > 0.0;
    var c: real :| IsClamped(c, v.confidence) && c != 0.0
                     && IsVariance(omegas[n], m.tau, m.sigma[cols[n]][cols[n]], c);
    OneWeight(m, v, cols[n], omegas[n], c, m.pi[j] + v.expectedExcess - y[j], j);
    SumLast(views, w => Mul(ViewWeight(m, w, j), m.pi[j] + w.expectedExcess - y[j]));
  }

  lemma SumLast(views: seq<View>, f: View -> real)
    requires |views| > 0
    ensures SumViews(views, f) == SumViews(views[..|views| - 1], f) + f(views[|views| - 1])
  {
  }

  lemma TermsPrefix(m: Market, views: seq<View>, y: Vec, cols: seq<int>, omegas: Vec, pulls: Vec)
    requires WellFormed(m) && |y| == |m.universe| && |views| > 0
    requires AreTerms(m, views, y, cols, omegas, pulls)
    ensures var n := |views| - 1; AreTerms(m, views[..n], y, cols[..n], omegas[..n], pulls[..n])
  {
    hide IsPlace, IsClamped, IsVariance, Div;
  }

  /** The pull of all views on one sleeve: its covariances with the viewed sleeves, weighted. */
  lemma {:induction false} PullOnInputs(m: Market, views: seq<View>, y: Vec, cols: seq<int>, omegas: Vec, pulls: Vec,
                                        i: nat, terms: Vec)
    requires WellFormed(m) && |y| == |m.universe| && i < |y|
    requires AreTerms(m, views, y, cols, omegas, pulls)
    requires |terms| == |views|
            && forall k :: 0 <= k < |views| ==>
                 0 <= cols[k] < |y| && terms[k] == Mul(Mul(m.tau, m.sigma[i][cols[k]]), pulls[k])
    ensures Dot(TauSigma(m)[i], Surprise(m, views, y)) == Total(terms)
  {
    hide Mul, Dot, Total, Surprise, IsPlace;
    var row, s := TauSigma(m)[i], Surprise(m, views, y);
    if |views| == 0 {
      NoPull(m, y);
      DotVanishes(row, s);
      NoTerms(terms);
    } else {
      var n := |views| - 1;
      var s' := Surprise(m, views[..n], y);
      TermsPrefix(m, views, y, cols, omegas, pulls);
      PullOnInputs(m, views[..n], y, cols[..n], omegas[..n], pulls[..n], i, terms[..n]);
      forall j | 0 <= j < |y|
        ensures s[j] == Mul(1.0, s'[j]) + Mul(pulls[n], UnitVec(|y|, cols[n])[j])
      {
        LastPull(m, views, y, cols, omegas, pulls, j);
        MulOne(s'[j]);
        MulZero(pulls[n]);
        MulCommutes(1.0, pulls[n]);
        MulOne(pulls[n]);
      }
      DotLinear(1.0, s', pulls[n], UnitVec(|y|, cols[n]), s, row);
      DotCommutes(s, row);
      DotCommutes(s', row);
      MulOne(Dot(s', row));
      DotUnit(|y|, cols[n], row);
      DotCommutes(UnitVec(|y|, cols[n]), row);
      MulCommutes(pulls[n], row[cols[n]]);
      assert terms == terms[..n] + [terms[n]];
      TotalAppend(terms[..n], terms[n]);
    }
  }

  lemma NoPull(m: Market, y: Vec)
    requires WellFormed(m) && |y| == |m.universe|
    ensures forall j :: 0 <= j < |y| ==> Surprise(m, [], y)[j] == 0.0
  {
  }

  lemma NoTerms(terms: Vec)
    requires |terms| == 0
    ensures Total(terms) == 0.0
  {
  }

  /** The contributions of the views to each sleeve: tau sigma_ij times the pull of the view on j. */
  ghost predicate AreContributions(m: Market, cols: seq<int>, pulls: Vec, terms: Matrix)
    requires WellFormed(m) && |cols| == |pulls| && forall k :: 0 <= k < |cols| ==> 0 <= cols[k] < |m.universe|
  {
    && |terms| == |m.universe|
    && forall i :: 0 <= i < |terms| ==>
         |terms[i]| == |pulls| && forall k :: 0 <= k < |pulls| ==>
           terms[i][k] == Mul(Mul(m.tau, m.sigma[i][cols[k]]), pulls[k])
  }

  lemma TermsPlaced(m: Market, views: seq<View>, y: Vec, cols: seq<int>, omegas: Vec, pulls: Vec)
    requires WellFormed(m) && |y| == |m.universe| && AreTerms(m, views, y, cols, omegas, pulls)
    ensures |cols| == |pulls| == |views| && forall k :: 0 <= k < |cols| ==> 0 <= cols[k] < |m.universe|
  {
    hide IsClamped, IsVariance, Div;
  }

  /** The posterior is the one vector that each view has moved as far as its variance lets it. */
  lemma PosteriorOnInputs(m: Market, views: seq<View>, y: Vec, cols: seq<int>, omegas: Vec, pulls: Vec, terms: Matrix)
    requires WellFormed(m) && |y| == |m.universe| && Blend(m, views).Posterior?
    requires AreTerms(m, views, y, cols, omegas, pulls) && |cols| == |pulls|
            && (forall k :: 0 <= k < |cols| ==> 0 <= cols[k] < |m.universe|) && AreContributions(m, cols, pulls, terms)
    ensures y == Blend(m, views).mu <==> forall i :: 0 <= i < |y| ==> y[i] == m.pi[i] + Total(terms[i])
  {
    hide Mul, Dot, Total, Surprise, Blend, AreTerms;
    TermsPlaced(m, views, y, cols, omegas, pulls);
    var s := Surprise(m, views, y);
    forall i | 0 <= i < |y|
      ensures MatVec(TauSigma(m), s)[i] == Total(terms[i])
    {
      PullOnInputs(m, views, y, cols, omegas, pulls, i, terms[i]);
    }
    PosteriorIffSolves(m, views, y);
    var moved := Add(m.pi, MatVec(TauSigma(m), s));
    if forall i :: 0 <= i < |y| ==> y[i] == m.pi[i] + Total(terms[i]) {
      assert y == moved;
    }
    if y == moved {
      assert forall i :: 0 <= i < |y| ==> y[i] == moved[i];
    }
  }

  // ----- one view

  /**
   * The viewed sleeve moves by exactly the stated confidence times the expected excess, when the confidence lies in
   * [0.000001, 0.999999] and the view's variance is not under 1e-12.
   */
  lemma ConfidenceMoves(m: Market, v: View, j: int)
    requires WellFormed(m) && IsPlace(m.universe, j, v.sleeve) && Blend(m, [v]).Posterior?
    requires 0.000001 <= v.confidence <= 0.999999
    requires Div(Mul(Mul(m.tau, m.sigma[j][j]), 1.0 - v.confidence), v.confidence) >= 0.000000000001
    ensures Blend(m, [v]).mu[j] - m.pi[j] == v.confidence * v.expectedExcess
  {
    hide Mul, Div, Blend;
    PlaceIsIndex(m.universe, j, v.sleeve);
    ClampOnInputs(v, v.confidence);
    ViewMovesByConfidence(m, v);
  }

  /** Outside that range the nearer end counts: a confidence of one moves by 0.999999, one of zero by 0.000001. */
  lemma ClampedConfidenceMoves(m: Market, v: View, j: int)
    requires WellFormed(m) && IsPlace(m.universe, j, v.sleeve) && Blend(m, [v]).Posterior?
    ensures v.confidence > 0.999999
              && Div(Mul(Mul(m.tau, m.sigma[j][j]), 1.0 - 0.999999), 0.999999) >= 0.000000000001 ==>
              Blend(m, [v]).mu[j] - m.pi[j] == 0.999999 * v.expectedExcess
    ensures v.confidence < 0.000001
              && Div(Mul(Mul(m.tau, m.sigma[j][j]), 1.0 - 0.000001), 0.000001) >= 0.000000000001 ==>
              Blend(m, [v]).mu[j] - m.pi[j] == 0.000001 * v.expectedExcess
  {
    hide Mul, Div, Blend;
    PlaceIsIndex(m.universe, j, v.sleeve);
    if v.confidence > 0.999999 {
      ClampOnInputs(v, 0.999999);
    }
    if v.confidence < 0.000001 {
      ClampOnInputs(v, 0.000001);
    }
    ViewMovesByConfidence(m, v);
  }

  /** The published posterior has eight decimals, the nearest ones to the blend, a tie going to the even digit. */
  lemma PublishedOnInputs(m: Market, views: seq<View>, i: nat) returns (n: int)
    requires |views| > 0 && WellFormed(m) && Blend(m, views).Posterior? && i < |m.universe|
    ensures Published(m, views).Posterior? && |Published(m, views).mu| == |m.universe|
    ensures var x, y := Published(m, views).mu[i], Blend(m, views).mu[i];
            && x * 100000000.0 == n as real && -0.000000005 <= x - y <= 0.000000005
            && (x - y == 0.000000005 || x - y == -0.000000005 ==> n % 2 == 0)
  {
    hide Blend, QuantizeTo;
    n := NearestEven(Blend(m, views).mu[i], 100000000.0);
  }

  /** So one view publishes the prior plus confidence times excess, to half of 1e-8. */
  lemma PublishedMove(m: Market, v: View, j: int)
    requires WellFormed(m) && IsPlace(m.universe, j, v.sleeve) && Published(m, [v]).Posterior?
    requires 0.000001 <= v.confidence <= 0.999999
    requires Div(Mul(Mul(m.tau, m.sigma[j][j]), 1.0 - v.confidence), v.confidence) >= 0.000000000001
    ensures |Published(m, [v]).mu| == |m.universe|
    ensures var moved := m.pi[j] + v.confidence * v.expectedExcess;
            moved - 0.000000005 <= Published(m, [v]).mu[j] <= moved + 0.000000005
  {
    hide Mul, Div, Blend, QuantizeTo;
    ConfidenceMoves(m, v, j);
    var n := PublishedOnInputs(m, [v], j);
  }

  // ----- refusals

  /** The first view outside the universe is named; without one and without views none is. */
  lemma UnmappedOnInputs(m: Market, views: seq<View>)
    requires |views| > 0 && WellFormed(m)
    ensures Published(m, views).UnmappedView? ==>
              exists k :: && 0 <= k < |views| && views[k].sleeve !in m.universe
                          && Published(m, views).sleeve == views[k].sleeve
                          && forall i :: 0 <= i < k ==> views[i].sleeve in m.universe
    ensures (exists k :: 0 <= k < |views| && views[k].sleeve !in m.universe) ==> !Published(m, views).Posterior?
    ensures Published(m, views).UnmappedView? ==> Invert(TauSigma(m)).Inverted?
  {
    hide Invert, QuantizeTo;
    var k := MappedPrefix(m.universe, views);
  }

  /** A one-by-one covariance: inverted exactly when its entry reaches 1e-12 in magnitude, to its reciprocal. */
  lemma ReciprocalOnInputs(x: real)
    ensures Invert([[x]]).Inverted? <==> x >= 0.000000000001 || x <= -0.000000000001
    ensures Invert([[x]]).Inverted? ==> |Invert([[x]]).b| == 1 && |Invert([[x]]).b[0]| == 1
                                         && x * Invert([[x]]).b[0][0] == 1.0
  {
    if Abs(x) >= SINGULAR_EPS {
      OneByOne(x);
    } else {
      assert Augment([[x]])[0][0] == x;
    }
  }
}
