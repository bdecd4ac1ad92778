/**
 * estimator_eig: the eigendecomposition of the estimated operator in the
 * r-dimensional coordinates, W_YX = V^T (K_YX / n) U. The eigensolver is not
 * part of the model: its eigenvalues (already parsed into complex numbers)
 * and its left and right eigenvectors are inputs, and so are the weighted
 * norms of the right eigenvectors. What is modelled is the sorting of the
 * eigenpairs and the zero-guarded normalisations.
 */
module EstimatorEig {
  import opened Matrices
  import opened Sorting
  import opened ComplexNumbers
  import opened Outcomes

  /** The operator whose eigenpairs are taken: W_YX = V^T (K_YX / n) U. */
  function OperatorMatrix(U: Matrix, V: Matrix, kernelYX: Matrix): (W: Matrix)
    requires V.rows == U.rows && kernelYX.rows == U.rows && kernelYX.cols == U.rows && U.rows > 0
    ensures W.rows == V.cols && W.cols == U.cols
  {
    Mul(Mul(Transpose(V), Scale(1.0 / U.rows as real, kernelYX)), U)
  }

  /** Row a of W times column j of R: sum over b < m of W[a, b] R[b, j]. */
  function RowTimesColumn(W: Matrix, R: CMat, a: int, j: int, m: nat): Complex
    decreases m
  {
    if m == 0 then Zero else CAdd(RowTimesColumn(W, R, a, j, m - 1), CScale(W.At(a, m - 1), R.CAt(m - 1, j)))
  }

  /** Entry (j, j) of L^T W R over the first m rows of L: the diagonal np.diag(vl.T @ W @ vr). */
  function BiDiag(L: CMat, W: Matrix, R: CMat, j: int, m: nat): Complex
    decreases m
  {
    if m == 0 then Zero else CAdd(BiDiag(L, W, R, j, m - 1), CMul(L.CAt(m - 1, j), RowTimesColumn(W, R, m - 1, j, W.cols)))
  }

  /** Multiplying column j of L by c multiplies the diagonal entry j by c. */
  lemma {:induction false} BiDiagScaled(L: CMat, L2: CMat, W: Matrix, R: CMat, j: int, c: Complex, m: nat)
    requires forall a :: 0 <= a < m ==> L2.CAt(a, j) == CMul(L.CAt(a, j), c)
    ensures BiDiag(L2, W, R, j, m) == CMul(BiDiag(L, W, R, j, m), c)
  {
    if m == 0 {
      CMulZeroLeft(c);
    } else {
      BiDiagScaled(L, L2, W, R, j, c, m - 1);
      var x := RowTimesColumn(W, R, m - 1, j, W.cols);
      CMulSwap(L.CAt(m - 1, j), c, x);
      CMulDistributes(BiDiag(L, W, R, j, m - 1), CMul(L.CAt(m - 1, j), x), c);
    }
  }

  datatype Eigen = Eigen(values: seq<Complex>, left: CMat, right: CMat)

  /** np.argsort(values): ascending in numpy's complex order. */
  function RightOrder(values: seq<Complex>): (p: seq<int>)
    ensures |p| == |values| && InRange(p, |values|) && IsPermutation(p, |values|)
    ensures SortedBy(MapKeys(ValueKey, Apply(values, p)))
    ensures multiset(Apply(values, p)) == multiset(values)
  {
    var p := ArgSort(MapKeys(ValueKey, values));
    assert MapKeys(ValueKey, Apply(values, p)) == Apply(MapKeys(ValueKey, values), p);
    ApplyPermutation(values, p);
    p
  }

  /** np.argsort(values.conj()): ascending order of the conjugates. */
  function LeftOrder(values: seq<Complex>): (p: seq<int>)
    ensures |p| == |values| && InRange(p, |values|) && IsPermutation(p, |values|)
    ensures SortedBy(MapKeys(ValueKey, Apply(Conjugates(values), p)))
  {
    var p := ArgSort(MapKeys(ConjKey, values));
    assert MapKeys(ValueKey, Apply(Conjugates(values), p)) == Apply(MapKeys(ConjKey, values), p);
    p
  }

  /** The reciprocals of the right norms, 0 where a norm is 0. */
  function RightScales(normR: seq<real>): (c: seq<real>)
    ensures |c| == |normR|
    ensures forall j :: 0 <= j < |normR| ==> c[j] == SafeReciprocal(normR[j])
    ensures forall j :: 0 <= j < |normR| ==>
      (normR[j] == 0.0 ==> c[j] == 0.0) && (normR[j] != 0.0 ==> c[j] * normR[j] == 1.0)
  {
    seq(|normR|, j requires 0 <= j < |normR| => SafeReciprocal(normR[j]))
  }

  /** The biorthogonality diagonal of the sorted left vectors against the normalised right ones. */
  function LeftNorms(L: CMat, W: Matrix, R: CMat): (d: seq<Complex>)
    ensures |d| == L.Cols()
    ensures forall j :: 0 <= j < L.Cols() ==> d[j] == BiDiag(L, W, R, j, L.Rows())
  {
    seq(L.Cols(), j => BiDiag(L, W, R, j, L.Rows()))
  }

  /** The reciprocals of the biorthogonality diagonal, 0 where an entry is 0. */
  function LeftScales(normL: seq<Complex>): (c: seq<Complex>)
    ensures |c| == |normL|
    ensures forall j :: 0 <= j < |normL| ==> c[j] == SafeCReciprocal(normL[j])
    ensures forall j :: 0 <= j < |normL| ==>
      (Mag2(normL[j]) == 0.0 ==> c[j] == Zero) && (Mag2(normL[j]) != 0.0 ==> CMul(normL[j], c[j]) == One)
  {
    seq(|normL|, j requires 0 <= j < |normL| => SafeCReciprocal(normL[j]))
  }

  /** The right vectors in the order of the eigenvalues, divided by their weighted norms. */
  function SortedRight(values: seq<Complex>, vr: CMat, normR: seq<real>): (R: CMat)
    requires vr.Valid() && vr.Cols() == |values| && |normR| == |values|
    ensures R.Valid() && R.Rows() == vr.Rows() && R.Cols() == |values|
  {
    CScaleColumns(CSelectColumns(vr, RightOrder(values)), RightScales(normR))
  }

  /** The left vectors in the order of the conjugates, divided by their pairing with the right vectors R. */
  function SortedLeft(W: Matrix, values: seq<Complex>, vl: CMat, R: CMat): (L: CMat)
    requires vl.Valid() && vl.Cols() == |values|
    ensures L.Valid() && L.Rows() == vl.Rows() && L.Cols() == |values|
    ensures forall i: nat, j: nat :: i < vl.Rows() && j < |values| ==>
      L.CAt(i, j) == CMul(vl.CAt(i, LeftOrder(values)[j]),
                          SafeCReciprocal(BiDiag(CSelectColumns(vl, LeftOrder(values)), W, R, j, vl.Rows())))
  {
    var left := CSelectColumns(vl, LeftOrder(values));
    CScaleColumnsC(left, LeftScales(LeftNorms(left, W, R)))
  }

  /** The eigenvalues sorted, with the sorted and normalised left and right vectors. */
  function NormalizedPairs(W: Matrix, values: seq<Complex>, vl: CMat, vr: CMat, normR: seq<real>): (e: Eigen)
    requires vl.Valid() && vr.Valid() && vl.Cols() == |values| && vr.Cols() == |values| && |normR| == |values|
    ensures |e.values| == |values| && e.left.Valid() && e.right.Valid()
    ensures e.left.Rows() == vl.Rows() && e.left.Cols() == |values|
    ensures e.right.Rows() == vr.Rows() && e.right.Cols() == |values|
    ensures SortedBy(MapKeys(ValueKey, e.values)) && multiset(e.values) == multiset(values)
    ensures e.right == SortedRight(values, vr, normR) && e.left == SortedLeft(W, values, vl, e.right)
  {
    var right := SortedRight(values, vr, normR);
    Eigen(Apply(values, RightOrder(values)), SortedLeft(W, values, vl, right), right)
  }

  /**
   * estimator_eig(U, V, K_X, K_YX) given the eigensolver's answer for W_YX:
   * the sorted eigenvalues and the left and right eigenfunctions' coefficients
   * V vl and U vr. With no training points n ** -1 raises ZeroDivisionError.
   */
  function EstimatorEigen(U: Matrix, V: Matrix, kernelYX: Matrix, values: seq<Complex>, vl: CMat, vr: CMat,
                          normR: seq<real>): (r: Result<Eigen>)
    requires V.rows == U.rows && V.cols == U.cols && kernelYX.rows == U.rows && kernelYX.cols == U.rows
    requires vl.Valid() && vr.Valid() && vl.Rows() == U.cols && vr.Rows() == U.cols
    requires vl.Cols() == |values| && vr.Cols() == |values| && |normR| == |values|
    ensures r.Err? <==> U.rows == 0
    ensures r.Err? ==> r.error == ZeroDivisionError
    ensures r.Ok? ==>
      var e := NormalizedPairs(OperatorMatrix(U, V, kernelYX), values, vl, vr, normR);
      r.value == Eigen(e.values, RMulC(V, e.left), RMulC(U, e.right))
  {
    if U.rows == 0 then Err(ZeroDivisionError)
    else
      var e := NormalizedPairs(OperatorMatrix(U, V, kernelYX), values, vl, vr, normR);
      Ok(Eigen(e.values, RMulC(V, e.left), RMulC(U, e.right)))
  }

  /** The eigenvalues come out in numpy's ascending complex order, as a rearrangement of the input. */
  lemma EigenvaluesSorted(W: Matrix, values: seq<Complex>, vl: CMat, vr: CMat, normR: seq<real>)
    requires vl.Valid() && vr.Valid() && vl.Cols() == |values| && vr.Cols() == |values| && |normR| == |values|
    ensures var e := NormalizedPairs(W, values, vl, vr, normR);
      && SortedBy(MapKeys(ValueKey, e.values))
      && multiset(e.values) == multiset(values)
  {
  }

  /**
   * Right vector j is input vector p[j], where values[p[j]] is the j-th
   * sorted eigenvalue, divided by its norm; a zero norm gives a zero column.
   */
  lemma RightVectorsFollowValues(values: seq<Complex>, vr: CMat, normR: seq<real>, i: nat, j: nat)
    requires vr.Valid() && vr.Cols() == |values| && |normR| == |values|
    requires i < vr.Rows() && j < |values|
    ensures var R, p := SortedRight(values, vr, normR), RightOrder(values);
      && Apply(values, p)[j] == values[p[j]]
      && (normR[j] == 0.0 ==> R.CAt(i, j) == Zero)
      && (normR[j] != 0.0 ==> CScale(normR[j], R.CAt(i, j)) == vr.CAt(i, p[j]))
  {
    var p := RightOrder(values);
    var sel := CSelectColumns(vr, p);
    NormalizedColumn(sel, normR, i, j);
    assert SortedRight(values, vr, normR) == CScaleColumns(sel, RightScales(normR));
  }

  /** Column j divided by normR[j], or zeroed when normR[j] is 0. */
  lemma NormalizedColumn(A: CMat, normR: seq<real>, i: nat, j: nat)
    requires A.Valid() && |normR| == A.Cols() && i < A.Rows() && j < A.Cols()
    ensures var R := CScaleColumns(A, RightScales(normR));
      && (normR[j] == 0.0 ==> R.CAt(i, j) == Zero)
      && (normR[j] != 0.0 ==> CScale(normR[j], R.CAt(i, j)) == A.CAt(i, j))
  {
    var c := RightScales(normR);
    if normR[j] != 0.0 {
      ReciprocalTimes(normR[j], c[j]);
    }
    ScaledColumnEntry(A, c, normR[j], i, j);
  }

  lemma ReciprocalTimes(x: real, c: real)
    requires x != 0.0 && c == SafeReciprocal(x)
    ensures c * x == 1.0
  {
  }

  /** Undoing a column scaling: multiplying entry (i, j) back by x with x c[j] == 1 recovers A's entry. */
  lemma ScaledColumnEntry(A: CMat, c: seq<real>, x: real, i: nat, j: nat)
    requires A.Valid() && |c| == A.Cols() && i < A.Rows() && j < A.Cols()
    ensures c[j] * x == 1.0 ==> CScale(x, CScaleColumns(A, c).CAt(i, j)) == A.CAt(i, j)
    ensures c[j] == 0.0 ==> CScaleColumns(A, c).CAt(i, j) == Zero
  {
    var z := A.CAt(i, j);
    assert CScaleColumns(A, c).CAt(i, j) == Complex(z.re * c[j], z.im * c[j]);
    if c[j] * x == 1.0 {
      assert x * (z.re * c[j]) == z.re * (c[j] * x);
      assert x * (z.im * c[j]) == z.im * (c[j] * x);
    }
  }

  /**
   * When the spectrum is closed under conjugation (as for a real W_YX), left
   * vector j belongs to the conjugate of the j-th sorted eigenvalue: the two
   * argsorts pair each right vector with the left vector that is its
   * biorthogonal partner under the plain transpose.
   */
  lemma LeftVectorsPairWithConjugates(values: seq<Complex>)
    requires multiset(Conjugates(values)) == multiset(values)
    ensures var rPerm, lPerm := RightOrder(values), LeftOrder(values);
      forall j :: 0 <= j < |values| ==> Conj(values[lPerm[j]]) == values[rPerm[j]]
  {
    var rPerm, lPerm := RightOrder(values), LeftOrder(values);
    var a := MapKeys(ValueKey, Apply(Conjugates(values), lPerm));
    var b := MapKeys(ValueKey, Apply(values, rPerm));
    ApplyPermutation(Conjugates(values), lPerm);
    MapKeysMultiset(ValueKey, Apply(Conjugates(values), lPerm), Apply(values, rPerm));
    SortedUnique(a, b);
    forall j | 0 <= j < |values|
      ensures Conj(values[lPerm[j]]) == values[rPerm[j]]
    {
      assert a[j] == b[j];
    }
  }

  /**
   * After normalisation the left and right vectors are biorthogonal on the
   * diagonal: entry j of diag(vl^T W vr) is 1, or 0 when the pairing of
   * column j vanished and its reciprocal was replaced by 0.
   */
  lemma Biorthogonal(W: Matrix, values: seq<Complex>, vl: CMat, R: CMat, j: nat)
    requires vl.Valid() && vl.Cols() == |values| && j < |values|
    ensures var left := CSelectColumns(vl, LeftOrder(values));
      var d := BiDiag(left, W, R, j, vl.Rows());
      BiDiag(SortedLeft(W, values, vl, R), W, R, j, vl.Rows()) == (if Mag2(d) == 0.0 then Zero else One)
  {
    var left := CSelectColumns(vl, LeftOrder(values));
    var d := LeftNorms(left, W, R);
    var c := LeftScales(d);
    BiDiagScaled(left, SortedLeft(W, values, vl, R), W, R, j, c[j], vl.Rows());
    if Mag2(d[j]) == 0.0 {
      assert CMul(d[j], Zero) == Zero;
    }
  }
}
