/** Gauss-Jordan inversion with partial pivoting, in place on the augmented matrix (black_litterman.py). */
module GaussJordan {
  import opened Vectors

  datatype InvertResult =
    | Inverted(b: Matrix)
    | Singular(col: nat, pivot: real)

  const SINGULAR_EPS := 0.000000000001

  function UnitVec(n: nat, k: nat): (v: Vec)
    ensures |v| == n
  {
    seq(n, i => if i == k then 1.0 else 0.0)
  }

  /** [A | I] */
  function Augment(a: Matrix): (aug: Matrix)
    requires Square(a, |a|)
    ensures |aug| == |a| && Rows(aug, 2 * |a|)
  {
    seq(|a|, i requires 0 <= i < |a| => a[i] + UnitVec(|a|, i))
  }

  /** The first row from r on whose entry in the column is largest in magnitude, if it beats the best so far. */
  function BestRow(aug: Matrix, col: nat, r: nat, best: nat): (b: nat)
    requires best < |aug| && r <= |aug| && (forall i :: 0 <= i < |aug| ==> col < |aug[i]|)
    ensures b < |aug| && (b == best || r <= b) && Abs(aug[best][col]) <= Abs(aug[b][col])
    ensures forall i :: r <= i < |aug| ==> Abs(aug[i][col]) <= Abs(aug[b][col])
    decreases |aug| - r
  {
    if r == |aug| then best
    else if Abs(aug[r][col]) > Abs(aug[best][col]) then BestRow(aug, col, r + 1, r)
    else BestRow(aug, col, r + 1, best)
  }

  function SwapRows(aug: Matrix, i: nat, j: nat): (s: Matrix)
    requires i < |aug| && j < |aug|
    ensures |s| == |aug|
  {
    aug[i := aug[j]][j := aug[i]]
  }

  function DivideRow(row: Vec, pivot: real): (s: Vec)
    requires pivot != 0.0
    ensures |s| == |row|
  {
    seq(|row|, j requires 0 <= j < |row| => Div(row[j], pivot))
  }

  /** row - factor * pivotRow */
  function SubtractRow(row: Vec, factor: real, pivotRow: Vec): (s: Vec)
    requires |row| == |pivotRow|
    ensures |s| == |row|
  {
    seq(|row|, j requires 0 <= j < |row| => row[j] - Mul(factor, pivotRow[j]))
  }

  function EliminateRow(aug: Matrix, col: nat, r: nat): (s: Vec)
    requires col < |aug| && r < |aug| && Rows(aug, 2 * |aug|)
    ensures |s| == 2 * |aug|
  {
    if r == col then aug[r] else SubtractRow(aug[r], aug[r][col], aug[col])
  }

  /** Clear the column outside the pivot row. */
  function Eliminate(aug: Matrix, col: nat): (s: Matrix)
    requires col < |aug| && Rows(aug, 2 * |aug|)
    ensures |s| == |aug| && Rows(s, 2 * |aug|)
  {
    seq(|aug|, r requires 0 <= r < |aug| => EliminateRow(aug, col, r))
  }

  /** The augmented matrix after swapping the pivot row up and scaling it to a unit pivot. */
  function Pivoted(aug: Matrix, col: nat, p: nat): (s: Matrix)
    requires col < |aug| && p < |aug| && Rows(aug, 2 * |aug|) && aug[p][col] != 0.0
    ensures |s| == |aug| && Rows(s, 2 * |aug|)
  {
    var swapped := SwapRows(aug, col, p);
    swapped[col := DivideRow(swapped[col], swapped[col][col])]
  }

  function Reduce(aug: Matrix, col: nat): (r: InvertResult)
    requires col <= |aug| && Rows(aug, 2 * |aug|)
    ensures r.Inverted? ==> |r.b| == |aug| && Rows(r.b, 2 * |aug|)
    ensures r.Singular? ==> Abs(r.pivot) < SINGULAR_EPS
    decreases |aug| - col
  {
    if col == |aug| then Inverted(aug)
    else
      var p := BestRow(aug, col, col, col);
      if Abs(aug[p][col]) < SINGULAR_EPS then Singular(col, aug[p][col])
      else Reduce(Eliminate(Pivoted(aug, col, p), col), col + 1)
  }

  function RightHalf(aug: Matrix): (b: Matrix)
    requires Rows(aug, 2 * |aug|)
    ensures Square(b, |aug|)
  {
    seq(|aug|, i requires 0 <= i < |aug| => aug[i][|aug|..])
  }

  function Invert(a: Matrix): (r: InvertResult)
    requires Square(a, |a|)
    ensures r.Inverted? ==> Square(r.b, |a|)
  {
    match Reduce(Augment(a), 0)
    case Inverted(aug) => Inverted(RightHalf(aug))
    case Singular(col, pivot) => Singular(col, pivot)
  }

  // ----- the solution set

  /** z solves the homogeneous system of the augmented rows. */
  ghost predicate Solves(aug: Matrix, z: Vec)
    requires Rows(aug, |z|)
  {
    forall i :: 0 <= i < |aug| ==> Dot(aug[i], z) == 0.0
  }

  lemma DivideKeepsZero(row: Vec, pivot: real, z: Vec)
    requires pivot != 0.0 && |row| == |z|
    ensures Dot(DivideRow(row, pivot), z) == 0.0 <==> Dot(row, z) == 0.0
  {
    var s := DivideRow(row, pivot);
    hide Dot, Mul, Div;
    forall j | 0 <= j < |s|
      ensures row[j] == Mul(pivot, s[j]) + Mul(0.0, s[j])
    {
      DivFacts(row[j], 0.0, pivot);
      MulZero(s[j]);
    }
    DotLinear(pivot, s, 0.0, s, row, z);
    MulZero(Dot(s, z));
    MulZero(pivot);
    NonZeroFactor(pivot, Dot(s, z));
  }

  lemma NonZeroFactor(a: real, b: real)
    requires a != 0.0
    ensures Mul(a, b) == 0.0 ==> b == 0.0
  {
  }

  lemma SubtractKeepsZero(row: Vec, factor: real, pivotRow: Vec, z: Vec)
    requires |row| == |pivotRow| == |z| && Dot(pivotRow, z) == 0.0
    ensures Dot(SubtractRow(row, factor, pivotRow), z) == Dot(row, z)
  {
    var s := SubtractRow(row, factor, pivotRow);
    hide Dot, Mul;
    forall j | 0 <= j < |s|
      ensures s[j] == Mul(1.0, row[j]) + Mul(-factor, pivotRow[j])
    {
      MulOne(row[j]);
      MulMinus(factor, pivotRow[j]);
    }
    DotLinear(1.0, row, -factor, pivotRow, s, z);
    MulOne(Dot(row, z));
    MulZero(-factor);
  }

  /** Swapping and scaling the pivot row keeps the solution set. */
  lemma PivotKeepsSolutions(aug: Matrix, col: nat, p: nat, z: Vec)
    requires col < |aug| && p < |aug| && Rows(aug, 2 * |aug|) && aug[p][col] != 0.0 && |z| == 2 * |aug|
    ensures Solves(Pivoted(aug, col, p), z) <==> Solves(aug, z)
  {
    hide Dot;
    var s := Pivoted(aug, col, p);
    DivideKeepsZero(aug[p], aug[p][col], z);
    assert s[col] == DivideRow(aug[p], aug[p][col]);
    if Solves(s, z) {
      forall i | 0 <= i < |aug|
        ensures Dot(aug[i], z) == 0.0
      {
        var k := if i == col then p else if i == p then col else i;
        assert Dot(s[k], z) == 0.0;
      }
    }
    if Solves(aug, z) {
      forall i | 0 <= i < |aug|
        ensures Dot(s[i], z) == 0.0
      {
        assert Dot(aug[col], z) == 0.0 && Dot(aug[p], z) == 0.0 && Dot(aug[i], z) == 0.0;
      }
    }
  }

  /** Elimination keeps the solution set. */
  lemma EliminateKeepsSolutions(aug: Matrix, col: nat, z: Vec)
    requires col < |aug| && Rows(aug, 2 * |aug|) && |z| == 2 * |aug|
    ensures Solves(Eliminate(aug, col), z) <==> Solves(aug, z)
  {
    hide Dot;
    var s := Eliminate(aug, col);
    if Solves(s, z) || Solves(aug, z) {
      assert Dot(s[col], z) == 0.0 || Dot(aug[col], z) == 0.0;
      assert s[col] == aug[col];
      forall i | 0 <= i < |aug|
        ensures Dot(s[i], z) == Dot(aug[i], z)
      {
        if i != col {
          SubtractKeepsZero(aug[i], aug[i][col], aug[col], z);
        }
      }
    }
  }

  // ----- the shape of the left half

  /** The first col columns are unit vectors. */
  ghost predicate UnitColumns(aug: Matrix, col: nat)
    requires Rows(aug, 2 * |aug|) && col <= |aug|
  {
    forall i, j :: 0 <= i < |aug| && 0 <= j < col ==> aug[i][j] == if i == j then 1.0 else 0.0
  }

  lemma PivotKeepsUnitColumns(aug: Matrix, col: nat, p: nat)
    requires col <= p < |aug| && Rows(aug, 2 * |aug|) && aug[p][col] != 0.0 && UnitColumns(aug, col)
    ensures UnitColumns(Pivoted(aug, col, p), col) && Pivoted(aug, col, p)[col][col] == 1.0
  {
  }

  lemma EliminateAddsUnitColumn(aug: Matrix, col: nat)
    requires col < |aug| && Rows(aug, 2 * |aug|) && UnitColumns(aug, col) && aug[col][col] == 1.0
    ensures UnitColumns(Eliminate(aug, col), col + 1)
  {
  }

  /** A run of the reduction to the end keeps the solution set and turns the left half into the identity. */
  lemma {:induction false} ReduceKeepsSolutions(aug: Matrix, col: nat, z: Vec)
    requires col <= |aug| && Rows(aug, 2 * |aug|) && UnitColumns(aug, col) && |z| == 2 * |aug|
    requires Reduce(aug, col).Inverted?
    ensures UnitColumns(Reduce(aug, col).b, |aug|)
    ensures Solves(Reduce(aug, col).b, z) <==> Solves(aug, z)
    decreases |aug| - col
  {
    hide Solves;
    if col == |aug| {
    } else {
      var p := BestRow(aug, col, col, col);
      var s := Pivoted(aug, col, p);
      hide Pivoted;
      PivotKeepsSolutions(aug, col, p, z);
      PivotKeepsUnitColumns(aug, col, p);
      EliminateKeepsSolutions(s, col, z);
      EliminateAddsUnitColumn(s, col);
      ReduceKeepsSolutions(Eliminate(s, col), col + 1, z);
    }
  }

  // ----- from solutions to inverses

  lemma {:induction false} DotConcat(x: Vec, x': Vec, y: Vec, y': Vec)
    requires |x| == |y| && |x'| == |y'|
    ensures Dot(x + x', y + y') == Dot(x, y) + Dot(x', y')
  {
    hide Mul;
    if |x| == 0 {
      assert x + x' == x' && y + y' == y';
    } else {
      DotConcat(x[1..], x', y[1..], y');
      assert (x + x')[1..] == x[1..] + x' && (y + y')[1..] == y[1..] + y';
    }
  }

  /** A dot product whose terms vanish away from k is its k-th term. */
  lemma {:induction false} DotSingle(x: Vec, y: Vec, k: nat)
    requires |x| == |y| && k < |x|
    requires forall j :: 0 <= j < |x| && j != k ==> x[j] == 0.0 || y[j] == 0.0
    ensures Dot(x, y) == Mul(x[k], y[k])
  {
    hide Mul;
    MulZero(x[0]);
    MulZero(y[0]);
    if k == 0 {
      DotVanishes(x[1..], y[1..]);
    } else {
      DotSingle(x[1..], y[1..], k - 1);
    }
  }

  lemma {:induction false} DotVanishes(x: Vec, y: Vec)
    requires |x| == |y|
    requires forall j :: 0 <= j < |x| ==> x[j] == 0.0 || y[j] == 0.0
    ensures Dot(x, y) == 0.0
  {
    hide Mul;
    if |x| == 0 {
    } else {
      DotVanishes(x[1..], y[1..]);
      MulZero(x[0]);
      MulZero(y[0]);
    }
  }

  lemma DotUnit(n: nat, k: nat, y: Vec)
    requires k < n == |y|
    ensures Dot(UnitVec(n, k), y) == y[k] && Dot(y, UnitVec(n, k)) == y[k]
  {
    hide Mul, Dot;
    DotSingle(UnitVec(n, k), y, k);
    MulOne(y[k]);
    DotCommutes(UnitVec(n, k), y);
  }

  function Negate(v: Vec): (w: Vec)
    ensures |w| == |v|
  {
    seq(|v|, i requires 0 <= i < |v| => -v[i])
  }

  lemma DotNegate(x: Vec, y: Vec)
    requires |x| == |y|
    ensures Dot(x, Negate(y)) == -Dot(x, y)
  {
    hide Mul, Dot;
    forall i | 0 <= i < |y|
      ensures Negate(y)[i] == Mul(-1.0, y[i]) + Mul(0.0, y[i])
    {
      MulMinus(1.0, y[i]);
      MulOne(y[i]);
      MulZero(y[i]);
    }
    DotLinear(-1.0, y, 0.0, y, Negate(y), x);
    DotCommutes(x, y);
    DotCommutes(x, Negate(y));
    MulMinus(1.0, Dot(y, x));
    MulOne(Dot(y, x));
    MulZero(Dot(y, x));
  }

  /** (u ; v) solves [A | I] exactly when A u = -v. */
  lemma SolvesAugmented(a: Matrix, u: Vec, v: Vec)
    requires Square(a, |a|) && |u| == |v| == |a|
    ensures Solves(Augment(a), u + v) <==> MatVec(a, u) == Negate(v)
  {
    hide Mul, Dot;
    forall i | 0 <= i < |a|
      ensures Dot(Augment(a)[i], u + v) == Dot(a[i], u) + v[i]
    {
      DotConcat(a[i], UnitVec(|a|, i), u, v);
      DotUnit(|a|, i, v);
    }
    if MatVec(a, u) == Negate(v) {
      forall i | 0 <= i < |a| ensures Dot(Augment(a)[i], u + v) == 0.0 { assert MatVec(a, u)[i] == Negate(v)[i]; }
    }
  }

  /** (u ; v) solves [I | B] exactly when u = -(B v). */
  lemma SolvesReduced(aug: Matrix, u: Vec, v: Vec)
    requires Rows(aug, 2 * |aug|) && UnitColumns(aug, |aug|) && |u| == |v| == |aug|
    ensures Solves(aug, u + v) <==> u == Negate(MatVec(RightHalf(aug), v))
  {
    hide Mul, Dot;
    var n, b := |aug|, RightHalf(aug);
    forall i | 0 <= i < n
      ensures Dot(aug[i], u + v) == u[i] + Dot(b[i], v)
    {
      assert aug[i] == UnitVec(n, i) + b[i];
      DotConcat(UnitVec(n, i), b[i], u, v);
      DotUnit(n, i, u);
    }
    if u == Negate(MatVec(b, v)) {
      forall i | 0 <= i < n ensures Dot(aug[i], u + v) == 0.0 { assert u[i] == Negate(MatVec(b, v))[i]; }
    }
  }

  /** A returned matrix is a two-sided inverse: it undoes A and A undoes it, on every vector. */
  lemma InverseUndoes(a: Matrix, x: Vec)
    requires Square(a, |a|) && |x| == |a| && Invert(a).Inverted?
    ensures MatVec(Invert(a).b, MatVec(a, x)) == x
    ensures MatVec(a, MatVec(Invert(a).b, x)) == x
  {
    hide Mul, Dot, Solves;
    var aug, b := Reduce(Augment(a), 0).b, Invert(a).b;
    var y, u := Negate(MatVec(a, x)), MatVec(b, x);
    ReduceKeepsSolutions(Augment(a), 0, x + y);
    SolvesAugmented(a, x, y);
    SolvesReduced(aug, x, y);
    assert MatVec(a, x) == Negate(y);
    NegateThrough(b, MatVec(a, x));
    ReduceKeepsSolutions(Augment(a), 0, u + Negate(x));
    SolvesAugmented(a, u, Negate(x));
    SolvesReduced(aug, u, Negate(x));
    NegateThrough(b, x);
    assert Negate(Negate(x)) == x && Negate(Negate(u)) == u;
  }

  lemma NegateThrough(b: Matrix, v: Vec)
    requires Square(b, |v|)
    ensures MatVec(b, Negate(v)) == Negate(MatVec(b, v))
    ensures Negate(MatVec(b, Negate(v))) == MatVec(b, v)
  {
    hide Mul, Dot;
    forall i | 0 <= i < |b|
      ensures Dot(b[i], Negate(v)) == -Dot(b[i], v)
    {
      DotNegate(b[i], v);
    }
  }

  function MatMul(a: Matrix, b: Matrix): Matrix
    requires Square(a, |a|) && Square(b, |a|)
  {
    seq(|a|, i requires 0 <= i < |a| => seq(|a|, j requires 0 <= j < |a| => Dot(a[i], Column(b, |a|, j))))
  }

  function Identity(n: nat): Matrix {
    seq(n, i requires 0 <= i < n => UnitVec(n, i))
  }

  /** A B = I and B A = I whenever the inversion returns B. */
  lemma InverseIsInverse(a: Matrix)
    requires Square(a, |a|) && Invert(a).Inverted?
    ensures MatMul(a, Invert(a).b) == Identity(|a|) && MatMul(Invert(a).b, a) == Identity(|a|)
  {
    hide Mul, Dot, Invert;
    var n, b := |a|, Invert(a).b;
    forall i, j | 0 <= i < n && 0 <= j < n
      ensures Dot(a[i], Column(b, n, j)) == UnitVec(n, i)[j] && Dot(b[i], Column(a, n, j)) == UnitVec(n, i)[j]
    {
      ColumnIsImage(b, j);
      ColumnIsImage(a, j);
      InverseUndoes(a, UnitVec(n, j));
      assert MatVec(a, MatVec(b, UnitVec(n, j)))[i] == UnitVec(n, j)[i];
      assert MatVec(b, MatVec(a, UnitVec(n, j)))[i] == UnitVec(n, j)[i];
    }
    forall i | 0 <= i < n
      ensures MatMul(a, b)[i] == Identity(n)[i] && MatMul(b, a)[i] == Identity(n)[i]
    {
    }
  }

  lemma ColumnIsImage(a: Matrix, j: nat)
    requires Square(a, |a|) && j < |a|
    ensures MatVec(a, UnitVec(|a|, j)) == Column(a, |a|, j)
  {
    hide Mul, Dot;
    forall i | 0 <= i < |a|
      ensures Dot(a[i], UnitVec(|a|, j)) == a[i][j]
    {
      DotUnit(|a|, j, a[i]);
    }
  }

  // ----- when it refuses

  ghost predicate IsZero(v: Vec) {
    forall i :: 0 <= i < |v| ==> v[i] == 0.0
  }

  ghost predicate HasKernel(a: Matrix)
    requires Square(a, |a|)
  {
    exists x: Vec :: |x| == |a| && !IsZero(x) && IsZero(MatVec(a, x))
  }

  /** The vector that a vanishing pivot column leaves in the kernel. */
  function KernelVector(aug: Matrix, col: nat): (x: Vec)
    requires col < |aug| && Rows(aug, 2 * |aug|)
    ensures |x| == |aug|
  {
    seq(|aug|, j requires 0 <= j < |aug| => if j < col then -aug[j][col] else if j == col then 1.0 else 0.0)
  }

  function Zeros(n: nat): (v: Vec)
    ensures |v| == n
  {
    seq(n, i => 0.0)
  }

  lemma KernelVectorSolves(aug: Matrix, col: nat)
    requires col < |aug| && Rows(aug, 2 * |aug|) && UnitColumns(aug, col)
    requires forall i :: col <= i < |aug| ==> aug[i][col] == 0.0
    ensures Solves(aug, KernelVector(aug, col) + Zeros(|aug|))
  {
    hide Mul, Dot;
    var n, x := |aug|, KernelVector(aug, col);
    var z := x + Zeros(n);
    forall i | 0 <= i < n
      ensures Dot(aug[i], z) == 0.0
    {
      var row := aug[i];
      assert row == row[..col] + row[col..] && z == z[..col] + z[col..];
      DotConcat(row[..col], row[col..], z[..col], z[col..]);
      DotSingle(row[col..], z[col..], 0);
      if i < col {
        DotSingle(row[..col], z[..col], i);
      } else {
        DotVanishes(row[..col], z[..col]);
      }
      MulOne(z[i]);
      MulCommutes(row[col], 1.0);
      MulOne(row[col]);
    }
  }

  /** The magnitudes of the pivots in exact arithmetic, up to the first zero. */
  function Pivots(aug: Matrix, col: nat): (m: seq<real>)
    requires col <= |aug| && Rows(aug, 2 * |aug|)
    ensures |m| > 0 <==> col < |aug|
    ensures forall k :: 0 <= k < |m| ==> m[k] >= 0.0
    decreases |aug| - col
  {
    if col == |aug| then []
    else
      var p := BestRow(aug, col, col, col);
      if aug[p][col] == 0.0 then [0.0]
      else [Abs(aug[p][col])] + Pivots(Eliminate(Pivoted(aug, col, p), col), col + 1)
  }

  lemma PivotsStep(aug: Matrix, col: nat)
    requires col < |aug| && Rows(aug, 2 * |aug|) && aug[BestRow(aug, col, col, col)][col] != 0.0
    ensures var p := BestRow(aug, col, col, col);
            Pivots(aug, col) == [Abs(aug[p][col])] + Pivots(Eliminate(Pivoted(aug, col, p), col), col + 1)
  {
  }

  /** The reduction finishes exactly when no pivot is under the threshold; otherwise it stops at one. */
  lemma {:induction false} ReduceIffPivots(aug: Matrix, col: nat)
    requires col <= |aug| && Rows(aug, 2 * |aug|)
    ensures Reduce(aug, col).Inverted?
            <==> forall k :: 0 <= k < |Pivots(aug, col)| ==> Pivots(aug, col)[k] >= SINGULAR_EPS
    ensures Reduce(aug, col).Singular? ==> Abs(Reduce(aug, col).pivot) in Pivots(aug, col)
    decreases |aug| - col
  {
    hide Pivoted, Eliminate, BestRow;
    if col < |aug| {
      var p := BestRow(aug, col, col, col);
      if aug[p][col] == 0.0 {
        assert Pivots(aug, col)[0] == 0.0;
      } else {
        PivotsStep(aug, col);
        assert Pivots(aug, col)[0] == Abs(aug[p][col]);
        var rest := Eliminate(Pivoted(aug, col, p), col);
        ReduceIffPivots(rest, col + 1);
        assert Pivots(aug, col)[1..] == Pivots(rest, col + 1);
      }
    }
  }

  lemma {:induction false} ZeroPivotMeansKernel(aug: Matrix, col: nat) returns (x: Vec)
    requires col <= |aug| && Rows(aug, 2 * |aug|) && UnitColumns(aug, col) && 0.0 in Pivots(aug, col)
    ensures |x| == |aug| && !IsZero(x) && Solves(aug, x + Zeros(|aug|))
    decreases |aug| - col
  {
    hide Solves, IsZero;
    var p := BestRow(aug, col, col, col);
    if aug[p][col] == 0.0 {
      x := KernelVector(aug, col);
      KernelVectorSolves(aug, col);
      assert !IsZero(x) by {
        NotZeroAt(x, col);
      }
    } else {
      var s := Pivoted(aug, col, p);
      hide Pivoted;
      PivotKeepsUnitColumns(aug, col, p);
      EliminateAddsUnitColumn(s, col);
      PivotsStep(aug, col);
      x := ZeroPivotMeansKernel(Eliminate(s, col), col + 1);
      EliminateKeepsSolutions(s, col, x + Zeros(|aug|));
      PivotKeepsSolutions(aug, col, p, x + Zeros(|aug|));
    }
  }

  lemma NotZeroAt(x: Vec, k: nat)
    requires k < |x| && x[k] != 0.0
    ensures !IsZero(x)
  {
  }

  /**
   * It never returns on a singular matrix, and a refusal at an exactly zero pivot is always about a singular
   * matrix.
   */
  lemma InvertVersusSingular(a: Matrix)
    requires Square(a, |a|)
    ensures HasKernel(a) ==> Invert(a).Singular?
    ensures Invert(a).Singular? && Invert(a).pivot == 0.0 ==> HasKernel(a)
  {
    hide Mul, Dot, Solves;
    if HasKernel(a) && Invert(a).Inverted? {
      var x: Vec :| |x| == |a| && !IsZero(x) && IsZero(MatVec(a, x));
      InverseUndoes(a, x);
      ZeroImage(Invert(a).b, MatVec(a, x));
      assert false;
    }
    if Invert(a).Singular? && Invert(a).pivot == 0.0 {
      ReduceIffPivots(Augment(a), 0);
      ZeroPivotSingular(a);
    }
  }

  lemma ZeroPivotSingular(a: Matrix)
    requires Square(a, |a|) && 0.0 in Pivots(Augment(a), 0)
    ensures HasKernel(a)
  {
    hide Mul, Dot, Solves, Pivots;
    var x := ZeroPivotMeansKernel(Augment(a), 0);
    SolvesAugmented(a, x, Zeros(|a|));
    assert IsZero(Negate(Zeros(|a|)));
  }

  lemma ZeroImage(b: Matrix, v: Vec)
    requires Square(b, |v|) && IsZero(v)
    ensures IsZero(MatVec(b, v))
  {
    hide Mul, Dot;
    forall i | 0 <= i < |b|
      ensures Dot(b[i], v) == 0.0
    {
      DotVanishes(b[i], v);
    }
  }

  // ----- scale: which matrices the absolute threshold refuses

  function Scaled(a: Matrix, c: real): (b: Matrix)
    requires Rows(a, |a|)
    ensures Square(b, |a|)
  {
    seq(|a|, i requires 0 <= i < |a| => seq(|a|, j requires 0 <= j < |a| => Mul(c, a[i][j])))
  }

  /** The left halves of two reductions in step: rows already pivoted agree, the others differ by the factor c. */
  ghost predicate InStep(aug: Matrix, big: Matrix, col: nat, c: real) {
    && |aug| == |big| && Rows(aug, 2 * |aug|) && Rows(big, 2 * |aug|)
    && forall i, j :: 0 <= i < |aug| && 0 <= j < |aug| ==>
         big[i][j] == if i < col then aug[i][j] else Mul(c, aug[i][j])
  }

  lemma AbsScales(c: real, x: real, y: real)
    requires c > 0.0
    ensures Abs(Mul(c, x)) == Mul(c, Abs(x)) && (Mul(c, x) == 0.0 <==> x == 0.0)
    ensures Abs(Mul(c, x)) > Abs(Mul(c, y)) <==> Abs(x) > Abs(y)
  {
    assert c * Abs(x) - c * Abs(y) == c * (Abs(x) - Abs(y));
  }

  lemma {:induction false} BestRowScales(aug: Matrix, big: Matrix, col: nat, r: nat, best: nat, c: real)
    requires c > 0.0 && InStep(aug, big, col, c) && col < |aug| && col <= r <= |aug| && col <= best < |aug|
    ensures BestRow(big, col, r, best) == BestRow(aug, col, r, best)
    decreases |aug| - r
  {
    hide Mul;
    if r < |aug| {
      AbsScales(c, aug[r][col], aug[best][col]);
      BestRowScales(aug, big, col, r + 1, r, c);
      BestRowScales(aug, big, col, r + 1, best, c);
    }
  }

  lemma RatioScales(c: real, x: real, p: real)
    requires c > 0.0 && p != 0.0
    ensures Mul(c, p) != 0.0 && Div(Mul(c, x), Mul(c, p)) == Div(x, p)
  {
    var q := Div(x, p);
    assert Mul(c, p) != 0.0;
    assert Mul(q, p) == x;
    assert Mul(q, Mul(c, p)) == Mul(c, x);
  }

  lemma SubtractScales(c: real, x: real, f: real, y: real)
    ensures Mul(c, x) - Mul(Mul(c, f), y) == Mul(c, x - Mul(f, y))
  {
    assert (c * f) * y == c * (f * y);
  }

  lemma PivotedEntry(aug: Matrix, col: nat, p: nat, i: nat, j: nat)
    requires col <= p < |aug| && Rows(aug, 2 * |aug|) && aug[p][col] != 0.0 && i < |aug| && j < 2 * |aug|
    ensures Pivoted(aug, col, p)[i][j]
         == if i == col then Div(aug[p][j], aug[p][col]) else if i == p then aug[col][j] else aug[i][j]
  {
  }

  lemma EliminatedEntry(s: Matrix, col: nat, i: nat, j: nat)
    requires col < |s| && Rows(s, 2 * |s|) && i < |s| && j < 2 * |s|
    ensures Eliminate(s, col)[i][j] == if i == col then s[i][j] else s[i][j] - Mul(s[i][col], s[col][j])
  {
  }

  /** One column of both reductions keeps them in step. */
  lemma StepInStep(aug: Matrix, big: Matrix, col: nat, p: nat, c: real)
    requires c > 0.0 && col <= p < |aug| && InStep(aug, big, col, c) && aug[p][col] != 0.0
    ensures big[p][col] != 0.0
    ensures InStep(Eliminate(Pivoted(aug, col, p), col), Eliminate(Pivoted(big, col, p), col), col + 1, c)
  {
    hide Mul, Div, Pivoted, Eliminate;
    AbsScales(c, aug[p][col], 0.0);
    var s, t := Pivoted(aug, col, p), Pivoted(big, col, p);
    forall i, j | 0 <= i < |aug| && 0 <= j < |aug|
      ensures t[i][j] == if i <= col then s[i][j] else Mul(c, s[i][j])
    {
      PivotedEntry(aug, col, p, i, j);
      PivotedEntry(big, col, p, i, j);
      RatioScales(c, aug[p][j], aug[p][col]);
    }
    forall i, j | 0 <= i < |aug| && 0 <= j < |aug|
      ensures Eliminate(t, col)[i][j]
           == if i < col + 1 then Eliminate(s, col)[i][j] else Mul(c, Eliminate(s, col)[i][j])
    {
      EliminatedEntry(s, col, i, j);
      EliminatedEntry(t, col, i, j);
      SubtractScales(c, s[i][j], s[i][col], s[col][j]);
    }
  }

  /** Reductions in step have pivots in the same ratio. */
  lemma {:induction false} PivotsScale(aug: Matrix, big: Matrix, col: nat, c: real)
    requires c > 0.0 && col <= |aug| && InStep(aug, big, col, c)
    ensures |Pivots(big, col)| == |Pivots(aug, col)|
    ensures forall k :: 0 <= k < |Pivots(aug, col)| ==> Pivots(big, col)[k] == Mul(c, Pivots(aug, col)[k])
    decreases |aug| - col
  {
    if col < |aug| {
      var p := BestRow(aug, col, col, col);
      hide Mul, Pivoted, Eliminate, BestRow;
      BestRowScales(aug, big, col, col, col, c);
      AbsScales(c, aug[p][col], 0.0);
      if aug[p][col] != 0.0 {
        StepInStep(aug, big, col, p, c);
        PivotsScale(Eliminate(Pivoted(aug, col, p), col), Eliminate(Pivoted(big, col, p), col), col + 1, c);
        PivotsStep(aug, col);
        PivotsStep(big, col);
      }
    }
  }

  /** The smallest pivot of a matrix: what the threshold is compared with. */
  function LeastPivot(a: Matrix): (m: real)
    requires Square(a, |a|) && |a| > 0
    ensures m >= 0.0 && m in Pivots(Augment(a), 0)
    ensures forall k :: 0 <= k < |Pivots(Augment(a), 0)| ==> m <= Pivots(Augment(a), 0)[k]
  {
    MinOf(Pivots(Augment(a), 0))
  }

  lemma InvertedIffReduced(a: Matrix)
    requires Square(a, |a|)
    ensures Invert(a).Inverted? <==> Reduce(Augment(a), 0).Inverted?
  {
    hide Reduce, Augment;
  }

  /** A matrix is inverted exactly when its smallest pivot reaches the threshold. */
  lemma InvertIffLeastPivot(a: Matrix)
    requires Square(a, |a|) && |a| > 0
    ensures Invert(a).Inverted? <==> LeastPivot(a) >= SINGULAR_EPS
  {
    hide Pivots, Reduce, Augment, LeastPivot, Invert;
    InvertedIffReduced(a);
    ReduceIffPivots(Augment(a), 0);
    var m := Pivots(Augment(a), 0);
    var i :| 0 <= i < |m| && m[i] == LeastPivot(a);
    if LeastPivot(a) >= SINGULAR_EPS {
      forall k | 0 <= k < |m|
        ensures m[k] >= SINGULAR_EPS
      {
        assert LeastPivot(a) <= m[k];
      }
    }
  }

  /** Scaling a matrix scales its smallest pivot. */
  lemma LeastPivotScales(a: Matrix, c: real)
    requires Square(a, |a|) && |a| > 0 && c > 0.0
    ensures LeastPivot(Scaled(a, c)) == Mul(c, LeastPivot(a))
  {
    var b := Scaled(a, c);
    hide Mul, Pivots, LeastPivot;
    PivotsScale(Augment(a), Augment(b), 0, c);
    var x, y := Pivots(Augment(a), 0), Pivots(Augment(b), 0);
    var i :| 0 <= i < |x| && x[i] == LeastPivot(a);
    var j :| 0 <= j < |y| && y[j] == LeastPivot(b);
    ScaleOrder(c, x[i], x[j]);
  }

  lemma ScaleOrder(c: real, x: real, y: real)
    requires c > 0.0
    ensures x <= y ==> Mul(c, x) <= Mul(c, y)
  {
  }

  /**
   * The exact scale law: c times a matrix is inverted if and only if c times its smallest pivot reaches the
   * threshold.
   */
  lemma ScaleLaw(a: Matrix, c: real)
    requires Square(a, |a|) && |a| > 0 && c > 0.0
    ensures Invert(Scaled(a, c)).Inverted? <==> c * LeastPivot(a) >= SINGULAR_EPS
  {
    hide LeastPivot, Invert;
    InvertIffLeastPivot(Scaled(a, c));
    LeastPivotScales(a, c);
  }

  /** The smallest pivot is zero exactly for singular matrices. */
  lemma LeastPivotZeroIff(a: Matrix)
    requires Square(a, |a|) && |a| > 0
    ensures LeastPivot(a) == 0.0 <==> HasKernel(a)
  {
    hide Mul, Dot, Invert, Augment, Pivots;
    if LeastPivot(a) == 0.0 {
      ZeroPivotSingular(a);
    } else if HasKernel(a) {
      hide LeastPivot;
      var c := ThresholdScale(LeastPivot(a));
      ScaleLaw(a, c);
      KernelScales(a, c);
      InvertVersusSingular(Scaled(a, c));
      assert false;
    }
  }

  lemma ThresholdScale(m: real) returns (c: real)
    requires m > 0.0
    ensures c > 0.0 && c * m >= SINGULAR_EPS
  {
    c := SINGULAR_EPS / m;
    assert c * m == SINGULAR_EPS;
  }

  lemma KernelScales(a: Matrix, c: real)
    requires Square(a, |a|) && HasKernel(a)
    ensures HasKernel(Scaled(a, c))
  {
    hide Mul, Dot;
    var x: Vec :| |x| == |a| && !IsZero(x) && IsZero(MatVec(a, x));
    var b := Scaled(a, c);
    forall i | 0 <= i < |a|
      ensures Dot(b[i], x) == 0.0
    {
      forall j | 0 <= j < |a|
        ensures b[i][j] == Mul(c, a[i][j]) + Mul(0.0, a[i][j])
      {
        MulZero(a[i][j]);
      }
      DotLinear(c, a[i], 0.0, a[i], b[i], x);
      assert MatVec(a, x)[i] == 0.0;
      MulZero(c);
      MulZero(0.0);
    }
    assert IsZero(MatVec(b, x));
  }

  /** A refusal means one of two things, and which one the smallest pivot tells: a singular matrix, or a small one. */
  lemma RefusedIff(a: Matrix)
    requires Square(a, |a|) && |a| > 0
    ensures Invert(a).Singular? <==> HasKernel(a) || 0.0 < LeastPivot(a) < SINGULAR_EPS
    ensures 0.0 < LeastPivot(a) ==> !HasKernel(a)
  {
    hide LeastPivot, Invert, HasKernel;
    InvertIffLeastPivot(a);
    LeastPivotZeroIff(a);
  }

  /** Exactly the multiples c a with c m at or over the threshold are inverted. */
  ghost predicate IsScale(a: Matrix, m: real)
    requires Rows(a, |a|)
  {
    forall c :: c > 0.0 ==> (Invert(Scaled(a, c)).Inverted? <==> Mul(c, m) >= SINGULAR_EPS)
  }

  /** Every invertible matrix has such a scale, and a singular one has none: all its multiples are refused. */
  lemma ScaleIffInvertible(a: Matrix)
    requires Square(a, |a|) && |a| > 0
    ensures (exists m :: m > 0.0 && IsScale(a, m)) <==> !HasKernel(a)
  {
    hide LeastPivot, Invert, HasKernel;
    LeastPivotZeroIff(a);
    forall c | c > 0.0
      ensures Invert(Scaled(a, c)).Inverted? <==> Mul(c, LeastPivot(a)) >= SINGULAR_EPS
    {
      ScaleLaw(a, c);
    }
    assert IsScale(a, LeastPivot(a));
    if m :| m > 0.0 && IsScale(a, m) {
      var c := ThresholdScale(m);
      ScaleLaw(a, c);
      assert Invert(Scaled(a, c)).Inverted?;
    }
  }

  /** The threshold is absolute: a perfectly invertible small matrix is refused. */
  lemma SmallMatrixRefused()
    ensures Invert([[0.0000000000001]]).Singular? && !HasKernel([[0.0000000000001]])
  {
    var a := [[0.0000000000001]];
    assert Augment(a)[0][0] == 0.0000000000001;
    forall x: Vec | |x| == 1 && !IsZero(x)
      ensures !IsZero(MatVec(a, x))
    {
      DotSingle(a[0], x, 0);
      NonZeroFactor(0.0000000000001, x[0]);
      assert MatVec(a, x)[0] != 0.0;
    }
  }

  lemma SingleEntry(a: Matrix)
    requires Square(a, 1)
    ensures a == [[a[0][0]]]
  {
    assert a[0] == [a[0][0]];
  }

  /** A one-by-one matrix above the threshold is inverted. */
  lemma OneByOne(x: real)
    requires Abs(x) >= SINGULAR_EPS
    ensures Invert([[x]]).Inverted? && Mul(x, Invert([[x]]).b[0][0]) == 1.0
  {
    var a := [[x]];
    assert Augment(a)[0][0] == x;
    assert Reduce(Augment(a), 0).Inverted?;
    InverseUndoes(a, [1.0]);
    var b := Invert(a).b;
    SingleEntry(b);
    DotSingle(b[0], [1.0], 0);
    DotSingle(a[0], MatVec(b, [1.0]), 0);
    assert MatVec(a, MatVec(b, [1.0]))[0] == 1.0;
  }

  // ----- the in-place procedure

  method InvertInPlace(matrix: Matrix) returns (r: InvertResult)
    requires Square(matrix, |matrix|)
    ensures r == Invert(matrix)
  {
    var n := |matrix|;
    var start := Augment(matrix);
    var aug := new Vec[n](i requires 0 <= i < n => start[i]);
    assert aug[..] == start;
    hide Mul, Div, Pivoted, Eliminate, Augment;
    var col := 0;
    while col < n
      invariant 0 <= col <= n && Rows(aug[..], 2 * n)
      invariant Reduce(aug[..], col) == Reduce(start, 0)
    {
      var pivotRow := FindPivot(aug, col);
      if Abs(aug[pivotRow][col]) < SINGULAR_EPS {
        return Singular(col, aug[pivotRow][col]);
      }
      RaisePivot(aug, col, pivotRow);
      ClearColumn(aug, col);
      col := col + 1;
    }
    assert aug[..] == Reduce(start, 0).b;
    var b := seq(n, i requires 0 <= i < n reads aug requires |aug[i]| == 2 * n => aug[i][n..]);
    assert b == RightHalf(aug[..]);
    r := Inverted(b);
  }

  /** Swap the pivot row up and scale it to a unit pivot. */
  method RaisePivot(aug: array<Vec>, col: nat, pivotRow: nat)
    requires col < aug.Length && pivotRow < aug.Length && Rows(aug[..], 2 * aug.Length) && aug[pivotRow][col] != 0.0
    modifies aug
    ensures aug[..] == Pivoted(old(aug[..]), col, pivotRow)
  {
    hide Div;
    ghost var before := aug[..];
    aug[col], aug[pivotRow] := aug[pivotRow], aug[col];
    assert aug[..] == SwapRows(before, col, pivotRow);
    var pivot := aug[col][col];
    aug[col] := DivideRow(aug[col], pivot);
  }

  /** max over the rows at or below the diagonal, by magnitude; the first such row. */
  method FindPivot(aug: array<Vec>, col: nat) returns (best: nat)
    requires col < aug.Length && Rows(aug[..], 2 * aug.Length)
    ensures best == BestRow(aug[..], col, col, col)
    ensures col <= best < aug.Length
  {
    best := col;
    var r := col;
    while r < aug.Length
      invariant col <= r <= aug.Length && col <= best < aug.Length
      invariant BestRow(aug[..], col, r, best) == BestRow(aug[..], col, col, col)
    {
      if Abs(aug[r][col]) > Abs(aug[best][col]) {
        best := r;
      }
      r := r + 1;
    }
  }

  /** Subtract the pivot row from every other row that has an entry in the column. */
  method ClearColumn(aug: array<Vec>, col: nat)
    requires col < aug.Length && Rows(aug[..], 2 * aug.Length)
    modifies aug
    ensures aug[..] == Eliminate(old(aug[..]), col)
  {
    ghost var before := aug[..];
    var r := 0;
    while r < aug.Length
      invariant 0 <= r <= aug.Length
      invariant forall i :: 0 <= i < aug.Length ==> aug[i] == if i < r then EliminateRow(before, col, i) else before[i]
    {
      var factor := aug[r][col];
      if r != col && factor != 0.0 {
        assert aug[col] == before[col];
        aug[r] := SubtractRow(aug[r], factor, aug[col]);
      } else if r != col {
        SubtractNothing(before[r], before[col]);
      }
      r := r + 1;
    }
  }

  lemma SubtractNothing(row: Vec, pivotRow: Vec)
    requires |row| == |pivotRow|
    ensures SubtractRow(row, 0.0, pivotRow) == row
  {
  }
}
