/** Real vectors and matrices: the vocabulary of the optimizer and the belief update. */
module Vectors {

  type Vec = seq<real>
  type Matrix = seq<seq<real>>

  function Abs(x: real): real {
    if x < 0.0 then -x else x
  }

  function Max(x: real, y: real): real {
    if x < y then y else x
  }

  function Min(x: real, y: real): real {
    if y < x then y else x
  }

  /** Multiplication by name, so that a proof about vectors can hide its arithmetic. */
  function Mul(x: real, y: real): real {
    x * y
  }

  /** Division by name. */
  function Div(x: real, y: real): real
    requires y != 0.0
  {
    x / y
  }

  lemma DivFacts(x: real, y: real, d: real)
    requires d != 0.0
    ensures Mul(d, Div(x, d)) == x && Div(d, d) == 1.0 && Div(0.0, d) == 0.0
    ensures Div(x, d) + Div(y, d) == Div(x + y, d)
  {
  }

  /** The sum of the entries. */
  function Total(v: Vec): real {
    if |v| == 0 then 0.0 else v[0] + Total(v[1..])
  }

  function Dot(x: Vec, y: Vec): real
    requires |x| == |y|
  {
    if |x| == 0 then 0.0 else Mul(x[0], y[0]) + Dot(x[1..], y[1..])
  }

  lemma TotalStep(v: Vec)
    requires 0 < |v|
    ensures Total(v) == v[0] + Total(v[1..])
  {
  }

  function NormSq(x: Vec): real {
    Dot(x, x)
  }

  function Sub(x: Vec, y: Vec): (z: Vec)
    requires |x| == |y|
    ensures |z| == |x|
  {
    seq(|x|, i requires 0 <= i < |x| => x[i] - y[i])
  }

  lemma SubTail(x: Vec, y: Vec)
    requires 0 < |x| == |y|
    ensures Sub(x, y)[1..] == Sub(x[1..], y[1..])
  {
  }

  /** The sum of absolute differences. */
  function L1(x: Vec, y: Vec): real
    requires |x| == |y|
  {
    if |x| == 0 then 0.0 else Abs(x[0] - y[0]) + L1(x[1..], y[1..])
  }

  predicate Rows(a: Matrix, n: nat) {
    forall i :: 0 <= i < |a| ==> |a[i]| == n
  }

  predicate Square(a: Matrix, n: nat) {
    |a| == n && Rows(a, n)
  }

  predicate Symmetric(a: Matrix, n: nat) {
    Square(a, n) && forall i, j :: 0 <= i < n && 0 <= j < n ==> a[i][j] == a[j][i]
  }

  function MatVec(a: Matrix, x: Vec): (y: Vec)
    requires Rows(a, |x|)
    ensures |y| == |a|
  {
    seq(|a|, i requires 0 <= i < |a| => Dot(a[i], x))
  }

  // ----- linearity

  lemma {:induction false} DotLinear(a: real, x: Vec, b: real, y: Vec, z: Vec, u: Vec)
    requires |x| == |y| == |z| == |u|
    requires forall i :: 0 <= i < |z| ==> z[i] == Mul(a, x[i]) + Mul(b, y[i])
    ensures Dot(z, u) == Mul(a, Dot(x, u)) + Mul(b, Dot(y, u))
  {
    hide Mul;
    if |z| == 0 {
      MulZero(a);
      MulZero(b);
    } else {
      DotLinear(a, x[1..], b, y[1..], z[1..], u[1..]);
      DotLinearStep(a, x[0], b, y[0], z[0], u[0], Dot(x[1..], u[1..]), Dot(y[1..], u[1..]));
    }
  }

  lemma MulZero(a: real)
    ensures Mul(a, 0.0) == 0.0 && Mul(0.0, a) == 0.0
  {
  }

  lemma DotLinearStep(a: real, x: real, b: real, y: real, z: real, u: real, p: real, q: real)
    requires z == Mul(a, x) + Mul(b, y)
    ensures Mul(z, u) + (Mul(a, p) + Mul(b, q)) == Mul(a, Mul(x, u) + p) + Mul(b, Mul(y, u) + q)
  {
  }

  lemma {:induction false} DotCommutes(x: Vec, y: Vec)
    requires |x| == |y|
    ensures Dot(x, y) == Dot(y, x)
  {
    hide Mul;
    if |x| == 0 {
    } else {
      DotCommutes(x[1..], y[1..]);
      MulCommutes(x[0], y[0]);
    }
  }

  lemma MulCommutes(a: real, b: real)
    ensures Mul(a, b) == Mul(b, a)
  {
  }

  lemma {:induction false} DotSub(x: Vec, y: Vec, u: Vec)
    requires |x| == |y| == |u|
    ensures Dot(Sub(x, y), u) == Dot(x, u) - Dot(y, u)
    ensures Dot(u, Sub(x, y)) == Dot(u, x) - Dot(u, y)
  {
    hide Mul;
    if |x| == 0 {
    } else {
      DotSub(x[1..], y[1..], u[1..]);
      SubTail(x, y);
      MulSub(x[0], y[0], u[0]);
    }
  }

  lemma MulSub(x: real, y: real, u: real)
    ensures Mul(x - y, u) == Mul(x, u) - Mul(y, u)
    ensures Mul(u, x - y) == Mul(u, x) - Mul(u, y)
  {
  }

  lemma {:induction false} TotalLinear(a: real, x: Vec, b: real, y: Vec, z: Vec)
    requires |x| == |y| == |z|
    requires forall i :: 0 <= i < |z| ==> z[i] == Mul(a, x[i]) + Mul(b, y[i])
    ensures Total(z) == Mul(a, Total(x)) + Mul(b, Total(y))
  {
    hide Mul;
    if |z| == 0 {
      MulZero(a);
      MulZero(b);
    } else {
      TotalLinear(a, x[1..], b, y[1..], z[1..]);
      MulAdd(a, x[0], Total(x[1..]));
      MulAdd(b, y[0], Total(y[1..]));
    }
  }

  lemma MulAdd(a: real, x: real, y: real)
    ensures Mul(a, x + y) == Mul(a, x) + Mul(a, y)
    ensures Mul(x + y, a) == Mul(x, a) + Mul(y, a)
  {
  }

  lemma {:induction false} TotalAppend(v: Vec, x: real)
    ensures Total(v + [x]) == Total(v) + x
  {
    if |v| == 0 {
      assert v + [x] == [x] && [x][1..] == [];
      TotalStep([x]);
    } else {
      assert (v + [x])[1..] == v[1..] + [x];
      TotalAppend(v[1..], x);
    }
  }

  lemma {:induction false} TotalMonotone(x: Vec, y: Vec)
    requires |x| == |y|
    requires forall i :: 0 <= i < |x| ==> x[i] <= y[i]
    ensures Total(x) <= Total(y)
  {
    if |x| == 0 {
    } else {
      TotalMonotone(x[1..], y[1..]);
    }
  }

  /** One strictly smaller entry makes a smaller total. */
  lemma {:induction false} TotalStrict(x: Vec, y: Vec, k: nat)
    requires |x| == |y| && k < |x| && x[k] < y[k]
    requires forall i :: 0 <= i < |x| ==> x[i] <= y[i]
    ensures Total(x) < Total(y)
  {
    if k == 0 {
      TotalMonotone(x[1..], y[1..]);
    } else {
      TotalStrict(x[1..], y[1..], k - 1);
    }
  }

  lemma {:induction false} TotalAtMost(x: Vec, c: real)
    requires forall i :: 0 <= i < |x| ==> x[i] <= c
    ensures Total(x) <= Times(|x|, c)
  {
    hide Mul;
    if |x| == 0 {
      MulZero(c);
    } else {
      TotalAtMost(x[1..], c);
      TimesStep(|x[1..]|, c);
    }
  }

  /** n copies of c. */
  function Times(n: nat, c: real): real {
    Mul(n as real, c)
  }

  lemma TimesStep(n: nat, c: real)
    ensures Times(n + 1, c) == Times(n, c) + c
  {
  }

  // ----- norms

  lemma MulSigns(a: real, b: real)
    ensures 0.0 <= a && 0.0 <= b ==> 0.0 <= Mul(a, b)
    ensures a <= 0.0 && b <= 0.0 ==> 0.0 <= Mul(a, b)
    ensures a <= 0.0 && 0.0 <= b ==> Mul(a, b) <= 0.0
    ensures 0.0 < a && 0.0 < b ==> 0.0 < Mul(a, b)
    ensures a < 0.0 && b < 0.0 ==> 0.0 < Mul(a, b)
  {
  }

  lemma {:induction false} NormSqNonNegative(x: Vec)
    ensures 0.0 <= NormSq(x)
  {
    hide Mul;
    if |x| == 0 {
    } else {
      NormSqNonNegative(x[1..]);
      MulSigns(x[0], x[0]);
    }
  }

  lemma {:induction false} CoordinateAtMostNorm(x: Vec, k: nat)
    requires k < |x|
    ensures Mul(x[k], x[k]) <= NormSq(x)
  {
    hide Mul;
    NormSqNonNegative(x[1..]);
    MulSigns(x[0], x[0]);
    if k > 0 {
      CoordinateAtMostNorm(x[1..], k - 1);
    }
  }

  lemma NormSqZero(x: Vec, y: Vec)
    requires |x| == |y| && NormSq(Sub(x, y)) <= 0.0
    ensures x == y
  {
    hide Mul;
    forall k | 0 <= k < |x|
      ensures x[k] == y[k]
    {
      CoordinateAtMostNorm(Sub(x, y), k);
      MulSigns(Sub(x, y)[k], Sub(x, y)[k]);
    }
  }

  /** |x - y|^2 = |x|^2 - 2 x.y + |y|^2 */
  lemma NormSqOfDifference(x: Vec, y: Vec)
    requires |x| == |y|
    ensures NormSq(Sub(x, y)) == NormSq(x) - 2.0 * Dot(x, y) + NormSq(y)
  {
    hide Mul, Dot;
    DotSub(x, y, Sub(x, y));
    DotSub(x, y, x);
    DotSub(x, y, y);
    DotCommutes(x, y);
  }

  // ----- matrices

  lemma MatVecSub(a: Matrix, x: Vec, y: Vec)
    requires |x| == |y| && Rows(a, |x|)
    ensures MatVec(a, Sub(x, y)) == Sub(MatVec(a, x), MatVec(a, y))
  {
    hide Mul, Dot;
    forall i | 0 <= i < |a|
      ensures Dot(a[i], Sub(x, y)) == Dot(a[i], x) - Dot(a[i], y)
    {
      DotSub(x, y, a[i]);
    }
  }

  function Column(a: Matrix, n: nat, j: nat): Vec
    requires Rows(a, n) && j < n
  {
    seq(|a|, i requires 0 <= i < |a| => a[i][j])
  }

  /** The linear combination of the rows of a with coefficients x. */
  function VecMat(x: Vec, a: Matrix, n: nat): (y: Vec)
    requires |x| == |a| && Rows(a, n)
    ensures |y| == n
  {
    seq(n, j requires 0 <= j < n => Dot(x, Column(a, n, j)))
  }

  /** x . (A y) = (x A) . y */
  lemma {:induction false} Adjoint(x: Vec, a: Matrix, y: Vec)
    requires |x| == |a| && Rows(a, |y|)
    ensures Dot(x, MatVec(a, y)) == Dot(VecMat(x, a, |y|), y)
  {
    hide Mul;
    var n := |y|;
    if |a| == 0 {
      DotZero(VecMat(x, a, n), y);
    } else {
      assert MatVec(a, y)[1..] == MatVec(a[1..], y);
      Adjoint(x[1..], a[1..], y);
      forall j | 0 <= j < n
        ensures VecMat(x, a, n)[j] == Mul(x[0], a[0][j]) + Mul(1.0, VecMat(x[1..], a[1..], n)[j])
      {
        assert Column(a, n, j)[1..] == Column(a[1..], n, j);
        MulOne(VecMat(x[1..], a[1..], n)[j]);
      }
      MulOne(Dot(VecMat(x[1..], a[1..], n), y));
      DotLinear(x[0], a[0], 1.0, VecMat(x[1..], a[1..], n), VecMat(x, a, n), y);
    }
  }

  lemma MulMinus(a: real, b: real)
    ensures Mul(-a, b) == -Mul(a, b) && Mul(a, -b) == -Mul(a, b)
  {
  }

  lemma MulOne(a: real)
    ensures Mul(1.0, a) == a
  {
  }

  lemma {:induction false} DotZero(x: Vec, y: Vec)
    requires |x| == |y|
    requires forall i :: 0 <= i < |x| ==> x[i] == 0.0
    ensures Dot(x, y) == 0.0
  {
    hide Mul;
    if |x| == 0 {
    } else {
      DotZero(x[1..], y[1..]);
      MulZero(y[0]);
    }
  }

  /** A symmetric matrix moves across the inner product. */
  lemma SymmetricAdjoint(a: Matrix, x: Vec, y: Vec)
    requires |x| == |y| && Symmetric(a, |x|)
    ensures Dot(x, MatVec(a, y)) == Dot(y, MatVec(a, x))
  {
    hide Mul, Dot;
    Adjoint(x, a, y);
    forall j | 0 <= j < |x|
      ensures VecMat(x, a, |x|)[j] == MatVec(a, x)[j]
    {
      assert Column(a, |x|, j) == a[j];
      DotCommutes(x, a[j]);
    }
    assert VecMat(x, a, |x|) == MatVec(a, x);
    DotCommutes(MatVec(a, x), y);
  }

  // ----- powers and extrema

  /** 2^k, as a real. */
  function Pow2(k: nat): (p: real)
    ensures 1.0 <= p
  {
    if k == 0 then 1.0 else 2.0 * Pow2(k - 1)
  }

  lemma {:induction false} Pow2Add(a: nat, b: nat)
    ensures Pow2(a + b) == Pow2(a) * Pow2(b)
  {
    if b == 0 {
    } else {
      Pow2Add(a, b - 1);
    }
  }

  /** The largest element of a non-empty list, as Python's max. */
  function MaxOf(s: seq<real>): (m: real)
    requires |s| > 0
    ensures m in s
    ensures forall i :: 0 <= i < |s| ==> s[i] <= m
  {
    if |s| == 1 then s[0] else Max(MaxOf(s[..|s| - 1]), s[|s| - 1])
  }

  function MinOf(s: seq<real>): (m: real)
    requires |s| > 0
    ensures m in s
    ensures forall i :: 0 <= i < |s| ==> m <= s[i]
  {
    if |s| == 1 then s[0] else Min(MinOf(s[..|s| - 1]), s[|s| - 1])
  }
}
