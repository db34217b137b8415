/** Row-major real matrices as sequences of rows, with the handful of tensor
    operations the memory bank's read and write are built from. */
module Matrices {
  import opened Vectors

  type Matrix = seq<seq<real>>

  /** `m` has `rows` rows of `cols` entries each. */
  predicate IsMatrix(m: Matrix, rows: nat, cols: nat)
  {
    |m| == rows && forall i :: 0 <= i < rows ==> |m[i]| == cols
  }

  /** tf.zeros((rows, cols)). */
  function Zeros(rows: nat, cols: nat): (z: Matrix)
    ensures IsMatrix(z, rows, cols)
    ensures forall i, j :: 0 <= i < rows && 0 <= j < cols ==> z[i][j] == 0.0
  {
    seq(rows, i => seq(cols, j => 0.0))
  }

  /** tf.transpose of a rows x cols matrix. */
  function Transpose(m: Matrix, rows: nat, cols: nat): (t: Matrix)
    requires IsMatrix(m, rows, cols)
    ensures IsMatrix(t, cols, rows)
    ensures forall j, i :: 0 <= j < cols && 0 <= i < rows ==> t[j][i] == m[i][j]
  {
    seq(cols, j requires 0 <= j < cols => seq(rows, i requires 0 <= i < rows => m[i][j]))
  }

  /** tf.linalg.matvec: entry j is the inner product of row j of `a` with `x`. */
  function MatVec(a: Matrix, x: seq<real>): (y: seq<real>)
    requires forall j :: 0 <= j < |a| ==> |a[j]| == |x|
    ensures |y| == |a|
  {
    seq(|a|, j requires 0 <= j < |a| => Dot(a[j], x))
  }

  /** The outer product u x v, as tf.matmul of a column and a row vector. */
  function Outer(u: seq<real>, v: seq<real>): (p: Matrix)
    ensures IsMatrix(p, |u|, |v|)
    ensures forall i, j :: 0 <= i < |u| && 0 <= j < |v| ==> p[i][j] == u[i] * v[j]
  {
    seq(|u|, i requires 0 <= i < |u| => seq(|v|, j requires 0 <= j < |v| => u[i] * v[j]))
  }

  /** Entrywise 1 - m. */
  function OneMinus(m: Matrix, rows: nat, cols: nat): (r: Matrix)
    requires IsMatrix(m, rows, cols)
    ensures IsMatrix(r, rows, cols)
    ensures forall i, j :: 0 <= i < rows && 0 <= j < cols ==> r[i][j] == 1.0 - m[i][j]
  {
    seq(rows, i requires 0 <= i < rows => seq(cols, j requires 0 <= j < cols => 1.0 - m[i][j]))
  }

  /** Entrywise (Hadamard) product a * b. */
  function Times(a: Matrix, b: Matrix, rows: nat, cols: nat): (r: Matrix)
    requires IsMatrix(a, rows, cols) && IsMatrix(b, rows, cols)
    ensures IsMatrix(r, rows, cols)
    ensures forall i, j :: 0 <= i < rows && 0 <= j < cols ==> r[i][j] == a[i][j] * b[i][j]
  {
    seq(rows, i requires 0 <= i < rows => seq(cols, j requires 0 <= j < cols => a[i][j] * b[i][j]))
  }

  /** Entrywise sum a + b. */
  function Plus(a: Matrix, b: Matrix, rows: nat, cols: nat): (r: Matrix)
    requires IsMatrix(a, rows, cols) && IsMatrix(b, rows, cols)
    ensures IsMatrix(r, rows, cols)
    ensures forall i, j :: 0 <= i < rows && 0 <= j < cols ==> r[i][j] == a[i][j] + b[i][j]
  {
    seq(rows, i requires 0 <= i < rows => seq(cols, j requires 0 <= j < cols => a[i][j] + b[i][j]))
  }

  /** Reading a matrix with a one-hot weighting at row i returns row i. */
  lemma {:induction false} ReadOneHot(m: Matrix, rows: nat, cols: nat, w: seq<real>, i: nat)
    requires IsMatrix(m, rows, cols) && |w| == rows && IsOneHotAt(w, i)
    ensures MatVec(Transpose(m, rows, cols), w) == m[i]
  {
    var t := Transpose(m, rows, cols);
    var r := MatVec(t, w);
    forall j | 0 <= j < cols
      ensures r[j] == m[i][j]
    {
      DotOneHot(t[j], w, i);
    }
  }

  /** Reading with a distribution gives, in every column, a convex combination
      of that column's entries: it lies between their bounds lo and hi. */
  lemma {:induction false} ReadIsConvex(m: Matrix, rows: nat, cols: nat, w: seq<real>, j: nat, lo: real, hi: real)
    requires IsMatrix(m, rows, cols) && |w| == rows && IsDistribution(w) && j < cols
    requires forall i :: 0 <= i < rows ==> lo <= m[i][j] <= hi
    ensures lo <= MatVec(Transpose(m, rows, cols), w)[j] <= hi
  {
    var t := Transpose(m, rows, cols);
    DotBounds(t[j], w, lo, hi);
  }
}
