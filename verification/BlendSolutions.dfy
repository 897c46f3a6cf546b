/**
 * The Black-Litterman equation by itself: with a positive semidefinite covariance it has exactly one solution, and the
 * blend misses it only where a pivot is under the threshold (black_litterman.py).
 */
module BlendSolutions {
  import opened Vectors
  import opened GaussJordan
  import opened QpSolver
  import opened BlackLitterman

  /** Every system of a matrix without a kernel has a solution, refused inverse or not. */
  lemma SolutionExists(a: Matrix, rhs: Vec) returns (y: Vec)
    requires Square(a, |a|) && |a| == |rhs| > 0 && !HasKernel(a)
    ensures |y| == |a| && MatVec(a, y) == rhs
  {
    hide Mul, Dot, Invert, LeastPivot;
    ScaleIffInvertible(a);
    var m :| m > 0.0 && IsScale(a, m);
    var c := ThresholdScale(m);
    var b := Scaled(a, c);
    MulIsProduct(c, m);
    assert Invert(b).Inverted?;
    var scaled := seq(|rhs|, i requires 0 <= i < |rhs| => Mul(c, rhs[i]));
    y := MatVec(Invert(b).b, scaled);
    InverseUndoes(b, scaled);
    forall i | 0 <= i < |a|
      ensures Dot(a[i], y) == rhs[i]
    {
      ScaledRow(a, c, y, i);
      assert MatVec(b, y)[i] == scaled[i];
      Cancel(c, Dot(a[i], y), rhs[i]);
    }
  }

  lemma ScaledRow(a: Matrix, c: real, y: Vec, i: nat)
    requires Square(a, |y|) && i < |a|
    ensures Dot(Scaled(a, c)[i], y) == Mul(c, Dot(a[i], y))
  {
    hide Mul, Dot;
    forall j | 0 <= j < |a|
      ensures Scaled(a, c)[i][j] == Mul(c, a[i][j]) + Mul(0.0, a[i][j])
    {
      MulZero(a[i][j]);
    }
    DotLinear(c, a[i], 0.0, a[i], Scaled(a, c)[i], y);
    MulZero(Dot(a[i], y));
  }

  lemma Cancel(c: real, x: real, y: real)
    requires c > 0.0 && Mul(c, x) == Mul(c, y)
    ensures x == y
  {
    hide Mul;
    MulSub(x, y, c);
    MulSigns(c, x - y);
    MulSigns(c, y - x);
    MulSub(y, x, c);
  }

  // ----- weights

  /** Each coordinate times its weight. */
  function Weighted(d: Vec, x: Vec): (w: Vec)
    requires |d| == |x|
    ensures |w| == |x|
  {
    seq(|x|, i requires 0 <= i < |x| => Mul(d[i], x[i]))
  }

  ghost predicate NonNegative(d: Vec) {
    forall i :: 0 <= i < |d| ==> 0.0 <= d[i]
  }

  /** x . (D x) is never negative, and zero only where D x is. */
  lemma {:induction false} WeightedSquares(d: Vec, x: Vec)
    requires |d| == |x| && NonNegative(d)
    ensures 0.0 <= Dot(Weighted(d, x), x) && (Dot(Weighted(d, x), x) <= 0.0 ==> IsZero(Weighted(d, x)))
  {
    hide Mul;
    if |x| > 0 {
      var w := Weighted(d, x);
      assert w[1..] == Weighted(d[1..], x[1..]);
      WeightedSquares(d[1..], x[1..]);
      WeightedSquare(d[0], x[0]);
      if Dot(w, x) <= 0.0 {
        forall i | 0 <= i < |w|
          ensures w[i] == 0.0
        {
          assert i > 0 ==> w[i] == w[1..][i - 1];
        }
      }
    }
  }

  lemma WeightedSquare(d: real, x: real)
    requires 0.0 <= d
    ensures 0.0 <= Mul(Mul(d, x), x) && (Mul(Mul(d, x), x) <= 0.0 ==> Mul(d, x) == 0.0)
  {
    var q := Mul(x, x);
    assert Mul(Mul(d, x), x) == Mul(d, q);
    hide Mul;
    MulSigns(x, x);
    MulSigns(d, q);
    MulZero(x);
    MulZero(d);
  }

  /** When z = -D x and x . z >= 0, the weights do not feel x at all. */
  lemma PullVanishes(d: Vec, x: Vec, z: Vec)
    requires |d| == |x| == |z| && NonNegative(d) && 0.0 <= Dot(z, x)
    requires forall i :: 0 <= i < |x| ==> z[i] == -Mul(d[i], x[i])
    ensures IsZero(z)
  {
    hide Mul, Dot;
    var w := Weighted(d, x);
    WeightedSquares(d, x);
    forall i | 0 <= i < |x|
      ensures w[i] == Mul(-1.0, z[i]) + Mul(0.0, z[i])
    {
      MulZero(z[i]);
      MulMinus(1.0, z[i]);
      MulOne(z[i]);
    }
    DotLinear(-1.0, z, 0.0, z, w, x);
    MulZero(Dot(z, x));
    MulMinus(1.0, Dot(z, x));
    MulOne(Dot(z, x));
    forall i | 0 <= i < |z|
      ensures z[i] == 0.0
    {
      assert w[i] == 0.0;
    }
  }

  lemma {:induction false} SumNonNegative(views: seq<View>, f: View -> real)
    requires forall v :: 0.0 <= f(v)
    ensures 0.0 <= SumViews(views, f)
  {
    if |views| > 0 {
      SumNonNegative(views[..|views| - 1], f);
    }
  }

  lemma PrecisionNonNegative(m: Market, views: seq<View>)
    requires WellFormed(m)
    ensures NonNegative(ViewPrecision(m, views))
  {
    forall j | 0 <= j < |m.universe|
      ensures 0.0 <= ViewPrecision(m, views)[j]
    {
      forall v: View
        ensures 0.0 <= ViewWeight(m, v, j)
      {
        OverPositive(Omega(m, v, j));
      }
      SumNonNegative(views, v => ViewWeight(m, v, j));
    }
  }

  lemma OverPositive(w: real)
    requires w > 0.0
    ensures 0.0 < Div(1.0, w)
  {
  }

  // ----- exactly one solution

  /** I + T D, the matrix of the equation for y. */
  function EquationMatrix(t: Matrix, d: Vec): (e: Matrix)
    requires Square(t, |d|)
    ensures Square(e, |d|)
  {
    var n := |d|;
    seq(n, i requires 0 <= i < n => seq(n, j requires 0 <= j < n => UnitVec(n, i)[j] + Mul(t[i][j], d[j])))
  }

  lemma {:induction false} DotWeights(row: Vec, d: Vec, y: Vec)
    requires |row| == |d| == |y|
    ensures Dot(Weighted(row, d), y) == Dot(row, Weighted(d, y))
  {
    hide Mul;
    if |row| > 0 {
      assert Weighted(row, d)[1..] == Weighted(row[1..], d[1..]) && Weighted(d, y)[1..] == Weighted(d[1..], y[1..]);
      DotWeights(row[1..], d[1..], y[1..]);
      MulAssociates(row[0], d[0], y[0]);
    }
  }

  lemma MulAssociates(a: real, b: real, c: real)
    ensures Mul(Mul(a, b), c) == Mul(a, Mul(b, c))
  {
  }

  lemma EquationImage(t: Matrix, d: Vec, y: Vec, i: nat)
    requires Square(t, |d|) && |y| == |d| && i < |d|
    ensures MatVec(EquationMatrix(t, d), y)[i] == y[i] + MatVec(t, Weighted(d, y))[i]
  {
    hide Mul, Dot;
    var n, row := |d|, EquationMatrix(t, d)[i];
    forall j | 0 <= j < n
      ensures row[j] == Mul(1.0, UnitVec(n, i)[j]) + Mul(1.0, Weighted(t[i], d)[j])
    {
      MulOne(UnitVec(n, i)[j]);
      MulOne(Weighted(t[i], d)[j]);
    }
    DotLinear(1.0, UnitVec(n, i), 1.0, Weighted(t[i], d), row, y);
    DotUnit(n, i, y);
    DotCommutes(UnitVec(n, i), y);
    DotWeights(t[i], d, y);
    MulOne(Dot(UnitVec(n, i), y));
    MulOne(Dot(Weighted(t[i], d), y));
  }

  /** With T positive semidefinite and weights that are not negative, I + T D has no kernel; T itself may have one. */
  lemma EquationRegular(t: Matrix, d: Vec)
    requires Square(t, |d|) && PositiveSemidefinite(t, |d|) && NonNegative(d)
    ensures !HasKernel(EquationMatrix(t, d))
  {
    hide Mul, Dot, EquationMatrix;
    var e := EquationMatrix(t, d);
    forall x: Vec | |x| == |d| && IsZero(MatVec(e, x))
      ensures IsZero(x)
    {
      var z := seq(|x|, i requires 0 <= i < |x| => -Mul(d[i], x[i]));
      forall i | 0 <= i < |x|
        ensures x[i] == MatVec(t, z)[i]
      {
        EquationImage(t, d, x, i);
        assert MatVec(e, x)[i] == 0.0;
        assert z == Negate(Weighted(d, x));
        DotNegated(t[i], Weighted(d, x));
      }
      assert x == MatVec(t, z);
      assert 0.0 <= Quad(t, z);
      PullVanishes(d, x, z);
      ZeroImage(t, z);
    }
  }

  lemma DotNegated(row: Vec, w: Vec)
    requires |row| == |w|
    ensures Dot(row, Negate(w)) == -Dot(row, w)
  {
    DotNegate(row, w);
  }

  /** Solving the blend equation is solving (I + T D) y = pi + T e. */
  lemma BlendIsSystem(m: Market, views: seq<View>, y: Vec)
    requires WellFormed(m) && |y| == |m.universe|
    ensures SolvesBlend(m, views, y)
       <==> MatVec(EquationMatrix(TauSigma(m), ViewPrecision(m, views)), y)
            == Add(m.pi, MatVec(TauSigma(m), ViewTargets(m, views)))
  {
    hide Mul, Dot, Surprise, ViewPrecision, ViewTargets, EquationMatrix, TauSigma;
    var t, d, e, s := TauSigma(m), ViewPrecision(m, views), ViewTargets(m, views), Surprise(m, views, y);
    var left, right := MatVec(EquationMatrix(t, d), y), Add(m.pi, MatVec(t, e));
    var image := Add(m.pi, MatVec(t, s));
    forall j | 0 <= j < |y|
      ensures s[j] == Sub(e, Weighted(d, y))[j]
    {
      SurpriseIsGap(m, views, y, j);
    }
    assert s == Sub(e, Weighted(d, y));
    MatVecSub(t, e, Weighted(d, y));
    forall i | 0 <= i < |y|
      ensures left[i] - right[i] == y[i] - image[i]
    {
      EquationImage(t, d, y, i);
    }
    SameGap(left, right, y, image);
  }

  lemma SameGap(a: Vec, b: Vec, x: Vec, y: Vec)
    requires |a| == |b| == |x| == |y| && forall i :: 0 <= i < |a| ==> a[i] - b[i] == x[i] - y[i]
    ensures a == b <==> x == y
  {
    if a == b {
      assert forall i :: 0 <= i < |a| ==> a[i] == b[i];
    }
    if x == y {
      assert forall i :: 0 <= i < |a| ==> x[i] == y[i];
    }
  }

  /**
   * With tau sigma positive semidefinite, singular or not, the Black-Litterman equation has exactly one solution,
   * whatever the views and whether or not the blend finds it.
   */
  lemma BlendHasOneSolution(m: Market, views: seq<View>) returns (y: Vec)
    requires WellFormed(m) && |m.universe| > 0 && PositiveSemidefinite(TauSigma(m), |m.universe|)
    ensures |y| == |m.universe| && SolvesBlend(m, views, y)
    ensures forall z: Vec :: |z| == |m.universe| && SolvesBlend(m, views, z) ==> z == y
  {
    hide Mul, Dot, ViewPrecision, ViewTargets, TauSigma, EquationMatrix, SolvesBlend, PositiveSemidefinite, HasKernel;
    var t, d := TauSigma(m), ViewPrecision(m, views);
    var e := EquationMatrix(t, d);
    var rhs := Add(m.pi, MatVec(t, ViewTargets(m, views)));
    PrecisionNonNegative(m, views);
    EquationRegular(t, d);
    y := SolutionExists(e, rhs);
    BlendIsSystem(m, views, y);
    forall z: Vec | |z| == |m.universe| && SolvesBlend(m, views, z)
      ensures z == y
    {
      BlendIsSystem(m, views, z);
      OneSolution(e, z, y);
    }
  }

  lemma OneSolution(a: Matrix, x: Vec, y: Vec)
    requires Square(a, |a|) && |x| == |y| == |a| && !HasKernel(a) && MatVec(a, x) == MatVec(a, y)
    ensures x == y
  {
    hide Mul, Dot;
    MatVecSub(a, x, y);
    var z := Sub(x, y);
    assert IsZero(MatVec(a, z));
    assert IsZero(z);
    forall i | 0 <= i < |x|
      ensures x[i] == y[i]
    {
      assert z[i] == 0.0;
    }
  }

  // ----- when the blend finds it

  /** The matrix the blend inverts second has no kernel. */
  lemma PrecisionRegular(m: Market, views: seq<View>)
    requires WellFormed(m) && PositiveSemidefinite(TauSigma(m), |m.universe|) && Invert(TauSigma(m)).Inverted?
    ensures !HasKernel(AddDiagonal(Invert(TauSigma(m)).b, ViewPrecision(m, views)))
  {
    hide Mul, Dot, ViewPrecision, TauSigma, AddDiagonal, Invert;
    var t, d := TauSigma(m), ViewPrecision(m, views);
    var inverse := Invert(t).b;
    var p := AddDiagonal(inverse, d);
    PrecisionNonNegative(m, views);
    forall x: Vec | |x| == |d| && IsZero(MatVec(p, x))
      ensures IsZero(x)
    {
      var z := MatVec(inverse, x);
      InverseUndoes(t, x);
      forall i | 0 <= i < |x|
        ensures z[i] == -Mul(d[i], x[i])
      {
        AddDiagonalImage(inverse, d, x, i);
        assert MatVec(p, x)[i] == 0.0;
      }
      assert 0.0 <= Quad(t, z);
      PullVanishes(d, x, z);
      ZeroImage(t, z);
    }
  }

  lemma SecondInverse(m: Market, views: seq<View>)
    requires WellFormed(m) && |views| > 0 && MappedPrefix(m.universe, views) == |views|
    ensures Blend(m, views).SingularCovariance?
       <==> || Invert(TauSigma(m)).Singular?
            || Invert(AddDiagonal(Invert(TauSigma(m)).b, ViewPrecision(m, views))).Singular?
  {
    hide Invert, TauSigma, AddDiagonal, ViewPrecision, ViewTargets;
  }

  /**
   * With tau sigma positive semidefinite and all views mapped, the blend refuses exactly when tau sigma is refused or
   * the smallest pivot of the posterior precision is under the threshold; that pivot is never zero.
   */
  lemma BlendRefusesIff(m: Market, views: seq<View>)
    requires WellFormed(m) && |m.universe| > 0 && PositiveSemidefinite(TauSigma(m), |m.universe|)
    requires |views| > 0 && MappedPrefix(m.universe, views) == |views|
    ensures Blend(m, views).SingularCovariance?
       <==> || Invert(TauSigma(m)).Singular?
            || 0.0 < LeastPivot(AddDiagonal(Invert(TauSigma(m)).b, ViewPrecision(m, views))) < SINGULAR_EPS
  {
    hide Blend, ViewPrecision, TauSigma, AddDiagonal, Invert, LeastPivot, PositiveSemidefinite, HasKernel;
    SecondInverse(m, views);
    if Invert(TauSigma(m)).Inverted? {
      PrecisionRegular(m, views);
      RefusedIff(AddDiagonal(Invert(TauSigma(m)).b, ViewPrecision(m, views)));
    }
  }
}
