/**
 * regularize(M, reg, inplace): adds n * reg to the diagonal of an n x n
 * matrix, either into a fresh matrix or, with inplace, into M itself.
 */
module Regularization {
  import opened Matrices

  /** M + (n * reg) I, the value regularize returns when not in place. */
  function Regularized(M: Matrix, reg: real): (R: Matrix)
    requires IsSquare(M)
    ensures R.rows == M.rows && R.cols == M.cols
    ensures forall i: nat :: i < M.rows ==> R.At(i, i) == M.At(i, i) + M.rows as real * reg
    ensures forall i: nat, j: nat :: i < M.rows && j < M.cols && i != j ==> R.At(i, j) == M.At(i, j)
  {
    Add(M, Scale(M.rows as real * reg, Identity(M.rows)))
  }

  /** A zero regularization returns a value equal to M. */
  lemma RegularizedZero(M: Matrix)
    requires IsSquare(M)
    ensures Regularized(M, 0.0) == M
  {
    Ext(Regularized(M, 0.0), M);
  }

  /** Regularizing twice is regularizing once with the summed strength. */
  lemma RegularizedTwice(M: Matrix, a: real, b: real)
    requires IsSquare(M)
    ensures Regularized(Regularized(M, a), b) == Regularized(M, a + b)
  {
    var n := M.rows as real;
    assert n * a + n * b == n * (a + b);
    Ext(Regularized(Regularized(M, a), b), Regularized(M, a + b));
  }

  /** A symmetric kernel matrix stays symmetric. */
  lemma RegularizedSymmetric(M: Matrix, reg: real)
    requires IsSymmetric(M)
    ensures IsSymmetric(Regularized(M, reg))
  {
  }

  /** Any matrix that differs from M by n * reg on the diagonal only is Regularized(M, reg). */
  lemma RegularizedCharacterized(M: Matrix, R: Matrix, reg: real)
    requires IsSquare(M) && R.rows == M.rows && R.cols == M.cols
    requires forall i: nat, j: nat :: i < M.rows && j < M.rows ==>
      R.At(i, j) == M.At(i, j) + (if i == j then M.rows as real * reg else 0.0)
    ensures R == Regularized(M, reg)
  {
    Ext(R, Regularized(M, reg));
  }

  /** The matrix currently held by a square two-dimensional array. */
  function Contents(M: array2<real>): (A: Matrix)
    reads M
    ensures A.rows == M.Length0 && A.cols == M.Length1
    ensures forall i: nat, j: nat :: i < M.Length0 && j < M.Length1 ==> A.At(i, j) == M[i, j]
  {
    Mat(M.Length0, M.Length1,
      seq(M.Length0, i reads M => seq(M.Length1, j reads M => if 0 <= i < M.Length0 && 0 <= j < M.Length1 then M[i, j] else 0.0)))
  }

  /** Adds shift to every diagonal entry of M, one entry at a time. */
  method AddToDiagonal(M: array2<real>, shift: real)
    requires M.Length0 == M.Length1
    modifies M
    ensures forall i, j :: 0 <= i < M.Length0 && 0 <= j < M.Length1 ==>
      M[i, j] == old(M[i, j]) + (if i == j then shift else 0.0)
  {
    var n := M.Length0;
    for k := 0 to n
      invariant forall i, j :: 0 <= i < n && 0 <= j < n ==>
        M[i, j] == old(M[i, j]) + (if i == j && i < k then shift else 0.0)
    {
      M[k, k] := M[k, k] + shift;
    }
  }

  /**
   * regularize(M, reg, inplace=True): np.fill_diagonal writes the shifted
   * diagonal back into M, and the call returns nothing.
   */
  method RegularizeInPlace(M: array2<real>, reg: real)
    requires M.Length0 == M.Length1
    modifies M
    ensures Contents(M) == Regularized(old(Contents(M)), reg)
  {
    ghost var before := Contents(M);
    var n := M.Length0;
    AddToDiagonal(M, n as real * reg);
    ghost var after := Contents(M);
    forall i: nat, j: nat | i < n && j < n
      ensures after.At(i, j) == before.At(i, j) + (if i == j then n as real * reg else 0.0)
    {
      assert after.At(i, j) == M[i, j];
      assert before.At(i, j) == old(M[i, j]);
    }
    RegularizedCharacterized(before, after, reg);
  }

  /**
   * regularize(M, reg) without inplace: a fresh array holding M + (n * reg) I;
   * M is left as it was, and later writes to the result do not reach M.
   */
  method RegularizeCopy(M: array2<real>, reg: real) returns (R: array2<real>)
    requires M.Length0 == M.Length1
    ensures fresh(R) && R.Length0 == M.Length0 && R.Length1 == M.Length1
    ensures Contents(R) == Regularized(Contents(M), reg)
  {
    var n := M.Length0;
    var shift := n as real * reg;
    R := new real[n, n]((i, j) reads M =>
      if 0 <= i < n && 0 <= j < n then M[i, j] + (if i == j then shift else 0.0) else 0.0);
    RegularizedCharacterized(Contents(M), Contents(R), reg);
  }
}
