/**
 * Laplacian assembly: the degree matrix D (the diagonal of the row sums of
 * the adjacency matrix A), the combinatorial Laplacian L = D - A, and the
 * degree-normalised Laplacian D^-1 L used by the classical Eigenmap.
 *
 * Matrices are sequences of rows over exact reals, so that row-sum and
 * symmetry facts can be stated and proved without rounding.
 */
module GraphMatrices {

  type Matrix = seq<seq<real>>

  /** Every row has as many entries as there are rows. */
  predicate IsSquare(m: Matrix) {
    forall i | 0 <= i < |m| :: |m[i]| == |m|
  }

  predicate IsSymmetric(m: Matrix) {
    && IsSquare(m)
    && forall i, j | 0 <= i < |m| && 0 <= j < |m| :: m[i][j] == m[j][i]
  }

  predicate IsNonNegative(m: Matrix) {
    forall i, j | 0 <= i < |m| && 0 <= j < |m[i]| :: m[i][j] >= 0.0
  }

  /** Off-diagonal entries are zero. */
  predicate IsDiagonal(m: Matrix)
    requires IsSquare(m)
  {
    forall i, j | 0 <= i < |m| && 0 <= j < |m| && i != j :: m[i][j] == 0.0
  }

  /** The sum of a row, accumulated from the left. */
  function Sum(s: seq<real>): real {
    if |s| == 0 then 0.0 else Sum(s[..|s| - 1]) + s[|s| - 1]
  }

  /** Row i of A summed: the (weighted) degree of node i. */
  function Degree(a: Matrix, i: nat): real
    requires i < |a|
  {
    Sum(a[i])
  }

  /** Every node has a non-zero degree, so D^-1 exists. */
  predicate NoIsolatedNodes(a: Matrix) {
    forall i | 0 <= i < |a| :: Degree(a, i) != 0.0
  }

  /** D: the diagonal matrix of the degrees. */
  function Degrees(a: Matrix): (d: Matrix)
    ensures |d| == |a| && IsSquare(d)
  {
    seq(|a|, i requires 0 <= i < |a| => seq(|a|, j => if i == j then Degree(a, i) else 0.0))
  }

  /** The entrywise difference of two matrices of the same shape. */
  function Subtract(x: Matrix, y: Matrix): (z: Matrix)
    requires |x| == |y|
    requires forall i | 0 <= i < |x| :: |x[i]| == |y[i]|
    ensures |z| == |x|
    ensures forall i | 0 <= i < |z| :: |z[i]| == |x[i]|
  {
    seq(|x|, i requires 0 <= i < |x| => seq(|x[i]|, j requires 0 <= j < |x[i]| => x[i][j] - y[i][j]))
  }

  /** L = D - A. */
  function Laplacian(a: Matrix): (l: Matrix)
    requires IsSquare(a)
    ensures |l| == |a| && IsSquare(l)
  {
    Subtract(Degrees(a), a)
  }

  /**
   * The Laplacian matrix and the diagonal degree matrix, (L, D): D is diagonal and
   * holds the row sums of A, L is D - A entry by entry, every row of L sums
   * to zero, L is symmetric whenever A is, and D has no negative entry when
   * A has none.
   */
  function LaplacianDegrees(a: Matrix): (r: (Matrix, Matrix))
    requires IsSquare(a)
    ensures |r.0| == |a| && IsSquare(r.0)
    ensures |r.1| == |a| && IsSquare(r.1) && IsDiagonal(r.1)
    ensures forall i | 0 <= i < |a| :: r.1[i][i] == Sum(a[i])
    ensures forall i, j | 0 <= i < |a| && 0 <= j < |a| :: r.0[i][j] == r.1[i][j] - a[i][j]
    ensures forall i | 0 <= i < |a| :: Sum(r.0[i]) == 0.0
    ensures IsSymmetric(a) ==> IsSymmetric(r.0)
    ensures IsNonNegative(a) ==> IsNonNegative(r.1)
  {
    LaplacianRowsSumToZero(a);
    LaplacianSymmetric(a);
    DegreesNonNegative(a);
    (Laplacian(a), Degrees(a))
  }

  /**
   * D^-1 L: row i of L multiplied by 1 / D[i][i]. Only defined when no node
   * is isolated (otherwise the reciprocal degree is a division by zero).
   */
  function NormalizedLaplacian(a: Matrix): (m: Matrix)
    requires IsSquare(a) && NoIsolatedNodes(a)
    ensures |m| == |a| && IsSquare(m)
    ensures forall i | 0 <= i < |a| :: Sum(m[i]) == 0.0
    ensures forall i | 0 <= i < |a| :: m[i] == NormalizedRow(a, i)
  {
    seq(|a|, i requires 0 <= i < |a| => NormalizedRow(a, i))
  }

  /** Row i of D^-1 L: row i of L times the reciprocal of the degree of i. */
  function NormalizedRow(a: Matrix, i: nat): (row: seq<real>)
    requires IsSquare(a) && NoIsolatedNodes(a) && i < |a|
    ensures |row| == |a|
    ensures Sum(row) == 0.0
  {
    var l := Laplacian(a);
    var row := Scale(l[i], 1.0 / Degree(a, i));
    LaplacianRowSumIsZero(a, i);
    SumOfScaled(l[i], row, 1.0 / Degree(a, i));
    row
  }

  /** Multiplying row i of D^-1 L back by the degree of i gives row i of L: D (D^-1 L) = L. */
  lemma NormalizedLaplacianTimesDegree(a: Matrix, i: nat, j: nat)
    requires IsSquare(a) && NoIsolatedNodes(a) && i < |a| && j < |a|
    ensures NormalizedLaplacian(a)[i][j] * Degree(a, i) == Laplacian(a)[i][j]
  {
    ReciprocalCancels(Degree(a, i), Laplacian(a)[i][j]);
  }

  /** A row (or a column vector) multiplied by the scalar c. */
  function Scale(v: seq<real>, c: real): (w: seq<real>)
    ensures |w| == |v|
    ensures forall k | 0 <= k < |v| :: w[k] == c * v[k]
  {
    seq(|v|, k requires 0 <= k < |v| => c * v[k])
  }

  /** The diagonal of D as a vector. */
  function DegreeVector(a: Matrix): (d: seq<real>)
    ensures |d| == |a|
    ensures forall i | 0 <= i < |a| :: d[i] == Degrees(a)[i][i]
  {
    seq(|a|, i requires 0 <= i < |a| => Degree(a, i))
  }

  /** v^T D v for the diagonal matrix D whose diagonal is d. */
  function DegreeForm(v: seq<real>, d: seq<real>): real
    requires |v| == |d|
  {
    Sum(seq(|v|, i requires 0 <= i < |v| => v[i] * d[i] * v[i]))
  }

  // ---------------------------------------------------------------------
  // Lemmas about Sum

  lemma {:induction false} SumOfDifference(x: seq<real>, y: seq<real>, z: seq<real>)
    requires |x| == |y| == |z|
    requires forall k | 0 <= k < |z| :: z[k] == x[k] - y[k]
    ensures Sum(z) == Sum(x) - Sum(y)
  {
    if |z| > 0 {
      var n := |z| - 1;
      SumOfDifference(x[..n], y[..n], z[..n]);
    }
  }

  /** A row whose only non-zero entry (if any) is v at position i sums to v. */
  lemma {:induction false} SumOfUnit(x: seq<real>, i: nat, v: real)
    requires forall k | 0 <= k < |x| :: x[k] == (if k == i then v else 0.0)
    ensures Sum(x) == if i < |x| then v else 0.0
  {
    if |x| > 0 {
      SumOfUnit(x[..|x| - 1], i, v);
    }
  }

  lemma {:induction false} SumOfScaled(x: seq<real>, y: seq<real>, c: real)
    requires |x| == |y|
    requires forall k | 0 <= k < |y| :: y[k] == c * x[k]
    ensures Sum(y) == c * Sum(x)
  {
    if |y| > 0 {
      var n := |y| - 1;
      SumOfScaled(x[..n], y[..n], c);
    }
  }

  lemma {:induction false} SumNonNegative(x: seq<real>)
    requires forall k | 0 <= k < |x| :: x[k] >= 0.0
    ensures Sum(x) >= 0.0
  {
    if |x| > 0 {
      SumNonNegative(x[..|x| - 1]);
    }
  }

  // ---------------------------------------------------------------------
  // Lemmas about D and L

  /** Row i of L sums to D[i][i] - sum(A[i]) = 0. */
  lemma LaplacianRowSumIsZero(a: Matrix, i: nat)
    requires IsSquare(a) && i < |a|
    ensures Sum(Laplacian(a)[i]) == 0.0
  {
    var d := Degrees(a);
    SumOfUnit(d[i], i, Degree(a, i));
    SumOfDifference(d[i], a[i], Laplacian(a)[i]);
  }

  lemma LaplacianRowsSumToZero(a: Matrix)
    requires IsSquare(a)
    ensures forall i | 0 <= i < |a| :: Sum(Laplacian(a)[i]) == 0.0
  {
    forall i | 0 <= i < |a| ensures Sum(Laplacian(a)[i]) == 0.0 {
      LaplacianRowSumIsZero(a, i);
    }
  }

  lemma LaplacianSymmetric(a: Matrix)
    requires IsSquare(a)
    ensures IsSymmetric(a) ==> IsSymmetric(Laplacian(a))
  {
  }

  /** With non-negative weights every degree is non-negative. */
  lemma DegreesNonNegative(a: Matrix)
    requires IsSquare(a)
    ensures IsNonNegative(a) ==> IsNonNegative(Degrees(a))
  {
    if IsNonNegative(a) {
      forall i | 0 <= i < |a| ensures Degree(a, i) >= 0.0 {
        SumNonNegative(a[i]);
      }
    }
  }

  /**
   * v^T D v is never negative when the degrees are not: the argument of the
   * square root in the Eigenmap degree normalisation is non-negative.
   */
  lemma DegreeFormNonNegative(v: seq<real>, d: seq<real>)
    requires |v| == |d|
    requires forall i | 0 <= i < |d| :: d[i] >= 0.0
    ensures DegreeForm(v, d) >= 0.0
  {
    var terms := seq(|v|, i requires 0 <= i < |v| => v[i] * d[i] * v[i]);
    forall k | 0 <= k < |v| ensures terms[k] >= 0.0 {
      SquareTimesNonNegative(v[k], d[k]);
    }
    SumNonNegative(terms);
  }

  lemma ReciprocalCancels(d: real, x: real)
    requires d != 0.0
    ensures (1.0 / d) * x * d == x
  {
    assert (1.0 / d) * d == 1.0;
    assert (1.0 / d) * x * d == ((1.0 / d) * d) * x;
  }

  lemma SquareTimesNonNegative(x: real, c: real)
    requires c >= 0.0
    ensures x * c * x >= 0.0
  {
    assert x * c * x == (x * x) * c;
    assert x * x >= 0.0;
  }
}
