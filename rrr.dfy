/**
 * fit_reduced_rank_regression: the generalized eigenproblem it hands to the
 * eigensolver, and everything it does with the solver's answer — sorting by
 * magnitude, truncating at the first invalid eigenvalue or at the rank, the
 * two warnings, the real-eigenvector assertion and the normalisation of the
 * retained eigenvectors.
 *
 * The eigensolver is not part of the model: its eigenvalues and eigenvectors
 * are inputs. The scale n^-0.5 is a parameter s (the lemmas assume
 * s * s == 1/n), and the column norms, square roots of the computed squared
 * norms, are an input as well.
 */
module ReducedRankRegression {
  import opened Matrices
  import opened Sorting
  import opened ComplexNumbers
  import opened Outcomes
  import opened FitParameters
  import opened Regularization

  /**
   * The pencil (A, M) of the problem A v = sigma^2 M v and the solver call
   * made on it: eigs for k pairs, or eig for all of them.
   */
  datatype Pencil = Pencil(A: Matrix, M: Matrix, call: SolverCall)

  /**
   * The eigenproblem set up by fit_reduced_rank_regression: A is
   * (s K_Y)(s K_X), M is K_X regularized with max(eps, tikhonov_reg), and
   * "arnoldi" asks for rank + 3 pairs (capped at n); any other solver tag
   * asks for the full decomposition. With no training points n ** -0.5
   * raises ZeroDivisionError.
   */
  function RrrPencil(kernelX: Matrix, kernelY: Matrix, tikhonovReg: real, rank: nat,
                     svdSolver: string, eps: real, s: real): (r: Result<Pencil>)
    requires IsSquare(kernelX) && kernelY.rows == kernelX.rows && kernelY.cols == kernelX.rows
    ensures r.Err? <==> kernelX.rows == 0
    ensures r.Err? ==> r.error == ZeroDivisionError
    ensures r.Ok? ==> var p := r.value;
      && p.A.rows == p.A.cols == kernelX.rows && p.M.rows == p.M.cols == kernelX.rows
      && (svdSolver == "arnoldi" ==> p.call == Arnoldi(ArnoldiCount(rank, kernelX.rows)))
      && (svdSolver != "arnoldi" ==> p.call == Full)
      && p.M == Regularized(kernelX, MaxReal(eps, tikhonovReg))
      && forall i: nat :: i < kernelX.rows ==>
           p.M.At(i, i) == kernelX.At(i, i) + kernelX.rows as real * MaxReal(eps, tikhonovReg)
  {
    var n := kernelX.rows;
    if n == 0 then Err(ZeroDivisionError)
    else
      var penalty := MaxReal(eps, tikhonovReg);
      var A := Mul(Scale(s, kernelY), Scale(s, kernelX));
      var M := Regularized(kernelX, penalty);
      Ok(Pencil(A, M, if svdSolver == "arnoldi" then Arnoldi(ArnoldiCount(rank, n)) else Full))
  }

  /** With s * s == 1/n, A is (1/n) K_Y K_X, the operator whose spectrum the fit needs. */
  lemma RrrPencilOperator(kernelX: Matrix, kernelY: Matrix, tikhonovReg: real, rank: nat,
                          svdSolver: string, eps: real, s: real)
    requires IsSquare(kernelX) && kernelY.rows == kernelX.rows && kernelY.cols == kernelX.rows
    requires kernelX.rows > 0 && s * s == 1.0 / kernelX.rows as real
    ensures RrrPencil(kernelX, kernelY, tikhonovReg, rank, svdSolver, eps, s).value.A
         == Scale(1.0 / kernelX.rows as real, Mul(kernelY, kernelX))
  {
    MulScaleLeft(s, kernelY, Scale(s, kernelX));
    MulScaleRight(s, kernelY, kernelX);
    ScaleScale(s, s, Mul(kernelY, kernelX));
  }

  /** A squared singular value the filter refuses: negative real part or non-zero imaginary part. */
  predicate IsInvalid(z: Complex) {
    z.re < 0.0 || z.im != 0.0
  }

  predicate AnyInvalid(vals: seq<Complex>) {
    exists i :: 0 <= i < |vals| && IsInvalid(vals[i])
  }

  /** The position of the first invalid value (np.argmax of the mask), |vals| when there is none. */
  function FirstInvalid(vals: seq<Complex>): (k: nat)
    ensures k <= |vals|
    ensures forall i :: 0 <= i < k ==> !IsInvalid(vals[i])
    ensures k < |vals| ==> IsInvalid(vals[k])
  {
    if vals == [] then 0
    else if IsInvalid(vals[0]) then 0
    else 1 + FirstInvalid(vals[1..])
  }

  /** How many of the sorted values the filter keeps, following the two branches of the source. */
  function RetainedCount(vals: seq<Complex>, rank: nat): (k: nat)
    ensures k <= |vals| && k <= rank
    ensures k == Min(FirstInvalid(vals), rank)
  {
    if AnyInvalid(vals) then Min(FirstInvalid(vals), rank) else Min(|vals|, rank)
  }

  /** The permutation that puts the eigenvalues in order of decreasing magnitude (topk of |sigma^2|). */
  function MagnitudeOrder(values: seq<Complex>): (p: seq<int>)
    ensures |p| == |values| && InRange(p, |values|) && IsPermutation(p, |values|)
  {
    ArgSort(MapKeys(MagnitudeKey, values))
  }

  /** After sorting, magnitudes never increase, and the sorted values are the input values rearranged. */
  lemma MagnitudeOrderDescending(values: seq<Complex>)
    ensures var sorted := Apply(values, MagnitudeOrder(values));
      && multiset(sorted) == multiset(values)
      && forall i, j :: 0 <= i < j < |sorted| ==> Mag2(sorted[i]) >= Mag2(sorted[j])
  {
    var keys := MapKeys(MagnitudeKey, values);
    var p := MagnitudeOrder(values);
    var sorted := Apply(values, p);
    forall i, j | 0 <= i < j < |sorted|
      ensures Mag2(sorted[i]) >= Mag2(sorted[j])
    {
      assert KeyLe(Apply(keys, p)[i], Apply(keys, p)[j]);
    }
    ApplyPermutation(values, p);
  }

  /** The result of the filtering steps: every eigenvalue sorted, and the values and real eigenvectors kept. */
  datatype Filtered = Filtered(
    sorted: seq<Complex>,     // every eigenvalue, by decreasing magnitude
    svals: seq<real>,         // real parts of the retained eigenvalues
    vecs: Matrix)             // real parts of the retained eigenvectors, as columns

  function Abs(x: real): real {
    if x < 0.0 then -x else x
  }

  /**
   * How many retained values have |value| below the regularization strength:
   * the size of the set of their positions.
   */
  function CountBelow(svals: seq<real>, tikhonovReg: real): (c: nat)
    ensures c == |set i | 0 <= i < |svals| && Abs(svals[i]) < tikhonovReg|
    ensures c <= |svals|
    ensures c == 0 <==> forall i :: 0 <= i < |svals| ==> Abs(svals[i]) >= tikhonovReg
  {
    if svals == [] then 0
    else
      var n := |svals| - 1;
      var init := svals[..n];
      var below := set i | 0 <= i < |svals| && Abs(svals[i]) < tikhonovReg;
      var belowInit := set i | 0 <= i < n && Abs(init[i]) < tikhonovReg;
      var last: set<int> := if Abs(svals[n]) < tikhonovReg then {n} else {};
      assert below == belowInit + last;
      assert n !in belowInit;
      CountBelow(init, tikhonovReg) + |last|
  }

  /**
   * The "discarded dimensions" warning, logged when an invalid value precedes
   * position rank. It reports len(sigma_sq) - len(svals_filtered) dropped
   * values, which is |sorted| - first_invalid, out of rank requested.
   */
  function DiscardedWarnings(sorted: seq<Complex>, rank: nat): (w: seq<Warning>)
    ensures |w| <= 1 && (w != [] <==> AnyInvalid(sorted) && FirstInvalid(sorted) < rank)
    ensures w != [] ==> w[0] == DiscardedDimensions(|sorted| - FirstInvalid(sorted), rank)
  {
    if AnyInvalid(sorted) && FirstInvalid(sorted) < rank
    then [DiscardedDimensions(|sorted| - RetainedCount(sorted, rank), rank)]
    else []
  }

  /**
   * The overfitting warning, logged when some |value| is below the
   * regularization strength; it reports how many are, out of how many.
   */
  function OverfitWarnings(svals: seq<real>, tikhonovReg: real): (w: seq<Warning>)
    ensures |w| <= 1 && (w != [] <==> exists i :: 0 <= i < |svals| && Abs(svals[i]) < tikhonovReg)
    ensures w != [] ==>
      w[0] == Overfit(|set i | 0 <= i < |svals| && Abs(svals[i]) < tikhonovReg|, |svals|, tikhonovReg)
  {
    var below := CountBelow(svals, tikhonovReg);
    if below > 0 then [Overfit(below, |svals|, tikhonovReg)] else []
  }

  /** The warnings the filter logs when it runs to the end: a discarded-dimensions warning always comes first. */
  function FilterWarnings(sorted: seq<Complex>, svals: seq<real>, rank: nat, tikhonovReg: real): (w: seq<Warning>)
    ensures |w| <= 2
    ensures forall i, j :: 0 <= i < j < |w| ==> w[i].DiscardedDimensions? && w[j].Overfit?
  {
    var d, o := DiscardedWarnings(sorted, rank), OverfitWarnings(svals, tikhonovReg);
    assert forall x :: x in d ==> x.DiscardedDimensions?;
    assert forall x :: x in o ==> x.Overfit?;
    d + o
  }

  /** Columns p[0], ..., p[k-1] of the eigenvector matrix: the retained eigenvectors, in sorted order. */
  function RetainedVectors(vectors: CMat, p: seq<int>, k: nat): (C: CMat)
    requires vectors.Valid() && InRange(p, vectors.Cols()) && k <= |p|
    ensures C.Valid() && C.Rows() == vectors.Rows() && C.Cols() == k
    ensures forall i: nat, j: nat :: i < vectors.Rows() && j < k ==> C.CAt(i, j) == vectors.CAt(i, p[j])
  {
    CTakeColumns(CSelectColumns(vectors, p), k)
  }

  /** Every entry has a zero imaginary part (np.all(np.imag(C) == 0)). */
  predicate IsReal(C: CMat) {
    forall i, j :: 0 <= i < C.Rows() && 0 <= j < C.Cols() ==> C.CAt(i, j).im == 0.0
  }

  /**
   * Steps one to six of the filter: sort, truncate, warn about discarded
   * dimensions, assert that the retained eigenvectors are real, take real
   * parts, warn about values below the regularization strength. When the
   * assertion fails, the discarded-dimensions warning has already been logged.
   */
  function FilterEigenpairs(values: seq<Complex>, vectors: CMat, rank: nat, tikhonovReg: real): (r: Logged<Filtered>)
    requires vectors.Valid() && vectors.Cols() == |values|
    ensures var p := MagnitudeOrder(values);
            var k := RetainedCount(Apply(values, p), rank);
            (r.result.Ok? <==> IsReal(RetainedVectors(vectors, p, k)))
    ensures r.result.Err? ==>
      && r.result.error == AssertionError(ComplexEigenvectors)
      && r.warnings == DiscardedWarnings(Apply(values, MagnitudeOrder(values)), rank)
    ensures r.result.Ok? ==>
      var p := MagnitudeOrder(values);
      var sorted := Apply(values, p);
      var k := RetainedCount(sorted, rank);
      && r.result.value.sorted == sorted
      && r.result.value.svals == RealParts(sorted[..k])
      && r.result.value.vecs == RetainedVectors(vectors, p, k).re
      && r.warnings == FilterWarnings(sorted, r.result.value.svals, rank, tikhonovReg)
  {
    var p := MagnitudeOrder(values);
    var sorted := Apply(values, p);
    var k := RetainedCount(sorted, rank);
    var kept := RetainedVectors(vectors, p, k);
    if !IsReal(kept) then
      Logged(Err(AssertionError(ComplexEigenvectors)), DiscardedWarnings(sorted, rank))
    else
      var svals := RealParts(sorted[..k]);
      Logged(Ok(Filtered(sorted, svals, kept.re)), FilterWarnings(sorted, svals, rank, tikhonovReg))
  }

  /**
   * What the filter keeps, stated on the input: the k = RetainedCount values
   * of largest magnitude, and the real parts of the eigenvectors belonging to
   * them, column j of the result being the eigenvector of the j-th kept value.
   */
  lemma FilterKeepsLargestPairs(values: seq<Complex>, vectors: CMat, rank: nat, tikhonovReg: real)
    requires vectors.Valid() && vectors.Cols() == |values|
    requires FilterEigenpairs(values, vectors, rank, tikhonovReg).result.Ok?
    ensures var f := FilterEigenpairs(values, vectors, rank, tikhonovReg).result.value;
      var p := MagnitudeOrder(values);
      && |f.svals| == f.vecs.cols == RetainedCount(f.sorted, rank)
      && f.vecs.rows == vectors.Rows()
      && (forall j :: 0 <= j < |f.svals| ==> f.svals[j] == values[p[j]].re && values[p[j]].im == 0.0 && f.svals[j] >= 0.0)
      && (forall i: nat, j: nat :: i < vectors.Rows() && j < |f.svals| ==>
            f.vecs.At(i, j) == vectors.CAt(i, p[j]).re && vectors.CAt(i, p[j]).im == 0.0)
  {
    var f := FilterEigenpairs(values, vectors, rank, tikhonovReg).result.value;
    var p := MagnitudeOrder(values);
    var k := RetainedCount(f.sorted, rank);
    var kept := RetainedVectors(vectors, p, k);
    RetainedPrefixIsValid(f.sorted, rank);
    forall i: nat, j: nat | i < vectors.Rows() && j < k
      ensures f.vecs.At(i, j) == vectors.CAt(i, p[j]).re && vectors.CAt(i, p[j]).im == 0.0
    {
      assert kept.CAt(i, j) == vectors.CAt(i, p[j]);
      assert kept.CAt(i, j).im == 0.0;
    }
  }

  /**
   * The filter never skips an invalid value to keep a later one: every kept
   * value is real and non-negative, no value at or after the first invalid
   * one is kept, and when fewer than rank values are kept the next one is
   * invalid (or there is none).
   */
  lemma RetainedPrefixIsValid(vals: seq<Complex>, rank: nat)
    ensures RetainedCount(vals, rank) <= |vals| && RetainedCount(vals, rank) <= rank
    ensures forall j :: 0 <= j < RetainedCount(vals, rank) ==> vals[j].im == 0.0 && vals[j].re >= 0.0
    ensures forall j :: 0 <= j < |vals| && IsInvalid(vals[j]) ==> RetainedCount(vals, rank) <= j
    ensures RetainedCount(vals, rank) < rank && RetainedCount(vals, rank) < |vals| ==>
      IsInvalid(vals[RetainedCount(vals, rank)])
  {
  }

  /** The filter's outcome when every value is valid: the first min(|vals|, rank) values. */
  lemma AllValidKeepsRankPrefix(vals: seq<Complex>, rank: nat)
    requires forall j :: 0 <= j < |vals| ==> vals[j].re >= 0.0 && vals[j].im == 0.0
    ensures RetainedCount(vals, rank) == Min(|vals|, rank)
  {
  }

  /**
   * The "discarded dimensions" warning is logged exactly when an invalid
   * value lies before position rank, and it reports how many values were
   * dropped out of how many were requested.
   */
  lemma DiscardedWarningExactly(sorted: seq<Complex>, svals: seq<real>, rank: nat, tikhonovReg: real)
    ensures var ws := FilterWarnings(sorted, svals, rank, tikhonovReg);
      (exists w :: w in ws && w.DiscardedDimensions?) <==> (AnyInvalid(sorted) && FirstInvalid(sorted) < rank)
    ensures AnyInvalid(sorted) && FirstInvalid(sorted) < rank ==>
      FilterWarnings(sorted, svals, rank, tikhonovReg)[0] == DiscardedDimensions(|sorted| - FirstInvalid(sorted), rank)
  {
    var d, o := DiscardedWarnings(sorted, rank), OverfitWarnings(svals, tikhonovReg);
    assert forall w :: w in o ==> w.Overfit?;
    if AnyInvalid(sorted) && FirstInvalid(sorted) < rank {
      assert (d + o)[0] == d[0];
    }
  }

  /**
   * On both paths of the filter, the assertion failure and the normal end,
   * the discarded-dimensions warning is logged exactly when an invalid value
   * lies before position rank, and it is the first warning logged.
   */
  lemma FilterLogsDiscardedWarning(values: seq<Complex>, vectors: CMat, rank: nat, tikhonovReg: real)
    requires vectors.Valid() && vectors.Cols() == |values|
    ensures var sorted := Apply(values, MagnitudeOrder(values));
      var ws := FilterEigenpairs(values, vectors, rank, tikhonovReg).warnings;
      && ((exists w :: w in ws && w.DiscardedDimensions?) <==> (AnyInvalid(sorted) && FirstInvalid(sorted) < rank))
      && (AnyInvalid(sorted) && FirstInvalid(sorted) < rank ==>
            ws[0] == DiscardedDimensions(|sorted| - FirstInvalid(sorted), rank))
  {
    var sorted := Apply(values, MagnitudeOrder(values));
    var r := FilterEigenpairs(values, vectors, rank, tikhonovReg);
    if r.result.Ok? {
      DiscardedWarningExactly(sorted, r.result.value.svals, rank, tikhonovReg);
    }
  }

  /**
   * For the values the filter keeps, the overfitting warning is logged
   * exactly when one of them lies below the regularization strength: kept
   * values are non-negative, so |value| is the value itself.
   */
  lemma OverfitWarningExactly(sorted: seq<Complex>, rank: nat, tikhonovReg: real)
    ensures var svals := RealParts(sorted[..RetainedCount(sorted, rank)]);
      (exists w :: w in FilterWarnings(sorted, svals, rank, tikhonovReg) && w.Overfit?) <==>
        (exists j :: 0 <= j < |svals| && svals[j] < tikhonovReg)
  {
    var k := RetainedCount(sorted, rank);
    var svals := RealParts(sorted[..k]);
    RetainedPrefixIsValid(sorted, rank);
    forall j | 0 <= j < |svals|
      ensures Abs(svals[j]) == svals[j]
    {
      assert svals[j] == sorted[j].re;
    }
    var d, o := DiscardedWarnings(sorted, rank), OverfitWarnings(svals, tikhonovReg);
    assert FilterWarnings(sorted, svals, rank, tikhonovReg) == d + o;
    OnlyOverfitFromOverfitWarnings(d, o);
  }

  /** Among discarded-dimensions warnings followed by o, an overfitting warning exists exactly when o is not empty. */
  lemma OnlyOverfitFromOverfitWarnings(d: seq<Warning>, o: seq<Warning>)
    requires forall x :: x in d ==> x.DiscardedDimensions?
    requires forall x :: x in o ==> x.Overfit?
    ensures (exists w :: w in d + o && w.Overfit?) <==> o != []
  {
    if o != [] {
      assert o[0] in d + o;
    }
  }

  /** Step seven starts from kernel_X_vecs = (n^-0.5 K_X) vecs, with n^-0.5 written s. */
  function KernelVecs(kernelX: Matrix, vecs: Matrix, s: real): (kv: Matrix)
    requires IsSquare(kernelX) && vecs.rows == kernelX.rows
    ensures kv.rows == vecs.rows && kv.cols == vecs.cols
  {
    Mul(Scale(s, kernelX), vecs)
  }

  /**
   * The squared norm of each column of vecs in the regularized geometry:
   * the sum over rows of kv^2 + tikhonov_reg * kv * vecs * sqrt(n).
   */
  function NormSquares(kv: Matrix, vecs: Matrix, tikhonovReg: real, sqrtN: real): (q: seq<real>)
    ensures |q| == vecs.cols
  {
    seq(vecs.cols, j => ColumnNormSquare(kv, vecs, tikhonovReg, sqrtN, j, vecs.rows))
  }

  /** Column j of the sum over axis 0, over rows 0..m-1. */
  function ColumnNormSquare(kv: Matrix, vecs: Matrix, tikhonovReg: real, sqrtN: real, j: int, m: nat): real {
    if m == 0 then 0.0
    else ColumnNormSquare(kv, vecs, tikhonovReg, sqrtN, j, m - 1) + NormTerm(kv, vecs, tikhonovReg, sqrtN, m - 1, j)
  }

  /** Entry (i, j) of kernel_X_vecs**2 + tikhonov_reg * kernel_X_vecs * vecs * sqrt(n). */
  function NormTerm(kv: Matrix, vecs: Matrix, tikhonovReg: real, sqrtN: real, i: int, j: int): real {
    kv.At(i, j) * kv.At(i, j) + tikhonovReg * kv.At(i, j) * vecs.At(i, j) * sqrtN
  }

  /** The first position holding 0, |xs| when there is none. */
  function FirstZero(xs: seq<real>): (k: nat)
    ensures k <= |xs| && (k < |xs| ==> xs[k] == 0.0)
    ensures forall i :: 0 <= i < k ==> xs[i] != 0.0
  {
    if xs == [] || xs[0] == 0.0 then 0 else 1 + FirstZero(xs[1..])
  }

  /** The reciprocal of every entry of a sequence that holds no zero. */
  function Reciprocals(xs: seq<real>): (r: seq<real>)
    requires forall j :: 0 <= j < |xs| ==> xs[j] != 0.0
    ensures |r| == |xs| && forall j :: 0 <= j < |xs| ==> r[j] * xs[j] == 1.0
  {
    seq(|xs|, j requires 0 <= j < |xs| => 1.0 / xs[j])
  }

  datatype RrrFit = RrrFit(U: Matrix, V: Matrix, sigmaSq: seq<Complex>)

  /**
   * U is the filtered eigenvectors divided column by column by their norms,
   * V is K_X U. A zero norm has no finite quotient and is reported as an error.
   */
  function Normalize(kernelX: Matrix, vecs: Matrix, norms: seq<real>): (r: Result<(Matrix, Matrix)>)
    requires IsSquare(kernelX) && vecs.rows == kernelX.rows && |norms| == vecs.cols
    ensures r.Err? <==> exists j :: 0 <= j < |norms| && norms[j] == 0.0
    ensures r.Err? ==> r.error.NonFiniteColumn? && r.error.column < |norms| && norms[r.error.column] == 0.0
    ensures r.Ok? ==> var (U, V) := r.value;
      U.rows == vecs.rows && U.cols == vecs.cols && V == Mul(kernelX, U)
      && forall i: nat, j: nat :: i < vecs.rows && j < vecs.cols ==> U.At(i, j) * norms[j] == vecs.At(i, j)
  {
    if FirstZero(norms) < |norms| then
      Err(NonFiniteColumn(FirstZero(norms)))
    else
      var inv := Reciprocals(norms);
      var U := ScaleColumns(vecs, inv);
      assert forall i: nat, j: nat :: i < vecs.rows && j < vecs.cols ==> U.At(i, j) * norms[j] == vecs.At(i, j) by {
        forall i: nat, j: nat | i < vecs.rows && j < vecs.cols
          ensures U.At(i, j) * norms[j] == vecs.At(i, j)
        {
          assert U.At(i, j) == vecs.At(i, j) * (1.0 / norms[j]);
        }
      }
      Ok((U, Mul(kernelX, U)))
  }

  /**
   * The column norms: the square root of each squared norm (the ** 0.5 of
   * the source), sqrt standing for the square root and 1/s for n^0.5.
   */
  function ColumnNorms(kernelX: Matrix, vecs: Matrix, tikhonovReg: real, s: real, sqrt: real -> real): (norms: seq<real>)
    requires IsSquare(kernelX) && vecs.rows == kernelX.rows && s != 0.0
    ensures |norms| == vecs.cols
    ensures forall j :: 0 <= j < vecs.cols ==>
      norms[j] == sqrt(NormSquares(KernelVecs(kernelX, vecs, s), vecs, tikhonovReg, 1.0 / s)[j])
  {
    var q := NormSquares(KernelVecs(kernelX, vecs, s), vecs, tikhonovReg, 1.0 / s);
    seq(|q|, j requires 0 <= j < |q| => sqrt(q[j]))
  }

  /**
   * The norms computed by the fit normalise: when sqrt is a square root at
   * each column's squared norm and no column is degenerate, the
   * normalisation succeeds and every column of U has squared norm one.
   */
  lemma ColumnNormsGiveUnitColumns(kernelX: Matrix, vecs: Matrix, tikhonovReg: real, s: real, sqrt: real -> real)
    requires IsSquare(kernelX) && vecs.rows == kernelX.rows && s != 0.0
    requires var q := NormSquares(KernelVecs(kernelX, vecs, s), vecs, tikhonovReg, 1.0 / s);
      forall j :: 0 <= j < |q| ==> 0.0 < q[j] && sqrt(q[j]) * sqrt(q[j]) == q[j]
    ensures Normalize(kernelX, vecs, ColumnNorms(kernelX, vecs, tikhonovReg, s, sqrt)).Ok?
    ensures var U := Normalize(kernelX, vecs, ColumnNorms(kernelX, vecs, tikhonovReg, s, sqrt)).value.0;
      var q := NormSquares(KernelVecs(kernelX, U, s), U, tikhonovReg, 1.0 / s);
      forall j :: 0 <= j < |q| ==> q[j] == 1.0
  {
    var norms := ColumnNorms(kernelX, vecs, tikhonovReg, s, sqrt);
    var q := NormSquares(KernelVecs(kernelX, vecs, s), vecs, tikhonovReg, 1.0 / s);
    forall j | 0 <= j < |norms|
      ensures norms[j] != 0.0 && norms[j] * norms[j] == q[j]
    {
      assert norms[j] == sqrt(q[j]);
    }
    NormalizedColumnsHaveUnitNorm(kernelX, vecs, tikhonovReg, s, norms);
  }

  /**
   * fit_reduced_rank_regression after the eigensolver: the filter, then the
   * normalisation. sqrt stands for the square root, s for n^-0.5. sigmaSq
   * is every eigenvalue in magnitude order (the development-only third
   * result). The warnings are those the filter logged, whatever the outcome.
   */
  function FitReducedRankRegression(kernelX: Matrix, values: seq<Complex>, vectors: CMat, rank: nat,
                                    tikhonovReg: real, s: real, sqrt: real -> real): (r: Logged<RrrFit>)
    requires IsSquare(kernelX) && s != 0.0
    requires vectors.Valid() && vectors.Rows() == kernelX.rows && vectors.Cols() == |values|
    ensures r.warnings == FilterEigenpairs(values, vectors, rank, tikhonovReg).warnings
    ensures FilterEigenpairs(values, vectors, rank, tikhonovReg).result.Err? ==>
      r.result == Err(AssertionError(ComplexEigenvectors))
    ensures FilterEigenpairs(values, vectors, rank, tikhonovReg).result.Ok? ==>
      var f := FilterEigenpairs(values, vectors, rank, tikhonovReg).result.value;
      var n := Normalize(kernelX, f.vecs, ColumnNorms(kernelX, f.vecs, tikhonovReg, s, sqrt));
      && (r.result.Err? <==> n.Err?)
      && (r.result.Err? ==> r.result.error == n.error)
      && (r.result.Ok? ==> r.result.value == RrrFit(n.value.0, n.value.1, f.sorted))
  {
    var filtered := FilterEigenpairs(values, vectors, rank, tikhonovReg);
    match filtered.result
    case Err(e) => Logged(Err(e), filtered.warnings)
    case Ok(f) =>
      match Normalize(kernelX, f.vecs, ColumnNorms(kernelX, f.vecs, tikhonovReg, s, sqrt))
      case Err(e) => Logged(Err(e), filtered.warnings)
      case Ok((U, V)) => Logged(Ok(RrrFit(U, V, f.sorted)), filtered.warnings)
  }

  /** Multiplying the columns of B by c commutes with multiplying on the left by A. */
  lemma MulScaleColumns(A: Matrix, B: Matrix, c: seq<real>)
    requires A.cols == B.rows && |c| == B.cols
    ensures Mul(A, ScaleColumns(B, c)) == ScaleColumns(Mul(A, B), c)
  {
    var L := Mul(A, ScaleColumns(B, c));
    var R := ScaleColumns(Mul(A, B), c);
    forall i: nat, j: nat | i < A.rows && j < B.cols
      ensures L.At(i, j) == R.At(i, j)
    {
      var B2 := ScaleColumns(B, c);
      SumScale(A.cols, c[j], k => A.At(i, k) * B.At(k, j), k => A.At(i, k) * B2.At(k, j));
    }
    Ext(L, R);
  }

  lemma NormTermScaled(kv: Matrix, vecs: Matrix, ku: Matrix, U: Matrix, reg: real, t: real, c: real, i: int, j: int)
    requires ku.At(i, j) == kv.At(i, j) * c && U.At(i, j) == vecs.At(i, j) * c
    ensures NormTerm(ku, U, reg, t, i, j) == (c * c) * NormTerm(kv, vecs, reg, t, i, j)
  {
    var a, b := kv.At(i, j), vecs.At(i, j);
    assert (a * c) * (a * c) + reg * (a * c) * (b * c) * t == (c * c) * (a * a + reg * a * b * t);
  }

  /** Scaling every term of a column by k scales the column's sum by k. */
  lemma {:induction false} ColumnNormSquareScaled(kv: Matrix, vecs: Matrix, ku: Matrix, U: Matrix, reg: real, t: real,
                                                  k: real, j: int, m: nat)
    requires forall i :: 0 <= i < m ==> NormTerm(ku, U, reg, t, i, j) == k * NormTerm(kv, vecs, reg, t, i, j)
    ensures ColumnNormSquare(ku, U, reg, t, j, m) == k * ColumnNormSquare(kv, vecs, reg, t, j, m)
  {
    if m > 0 {
      ColumnNormSquareScaled(kv, vecs, ku, U, reg, t, k, j, m - 1);
    }
  }

  /**
   * k * x. Scalings of the column sums are stated through this name so that
   * the solver matches them as terms instead of as non-linear arithmetic.
   */
  function Times(k: real, x: real): real {
    k * x
  }

  /** Scaling the entries of column j of both factors by c scales the column's sum by c^2. */
  lemma ColumnScaled(kv: Matrix, vecs: Matrix, ku: Matrix, U: Matrix, reg: real, t: real, c: real, j: int, m: nat)
    requires forall i :: 0 <= i < m ==> ku.At(i, j) == kv.At(i, j) * c && U.At(i, j) == vecs.At(i, j) * c
    ensures ColumnNormSquare(ku, U, reg, t, j, m) == Times(c * c, ColumnNormSquare(kv, vecs, reg, t, j, m))
  {
    forall i | 0 <= i < m
      ensures NormTerm(ku, U, reg, t, i, j) == (c * c) * NormTerm(kv, vecs, reg, t, i, j)
    {
      NormTermScaled(kv, vecs, ku, U, reg, t, c, i, j);
    }
    ColumnNormSquareScaled(kv, vecs, ku, U, reg, t, c * c, j, m);
  }

  /** Scaling column j of both factors by c scales the column's squared norm by c^2. */
  lemma NormSquaresScaled(kv: Matrix, vecs: Matrix, tikhonovReg: real, t: real, inv: seq<real>, j: nat)
    requires kv.rows == vecs.rows && kv.cols == vecs.cols == |inv| && j < vecs.cols
    ensures NormSquares(ScaleColumns(kv, inv), ScaleColumns(vecs, inv), tikhonovReg, t)[j]
         == Times(inv[j] * inv[j], NormSquares(kv, vecs, tikhonovReg, t)[j])
  {
    var ku, U := ScaleColumns(kv, inv), ScaleColumns(vecs, inv);
    ColumnScaled(kv, vecs, ku, U, tikhonovReg, t, inv[j], j, vecs.rows);
    NormSquaresAt(ku, U, tikhonovReg, t, j);
    NormSquaresAt(kv, vecs, tikhonovReg, t, j);
  }

  lemma NormSquaresAt(kv: Matrix, vecs: Matrix, tikhonovReg: real, t: real, j: nat)
    requires j < vecs.cols
    ensures NormSquares(kv, vecs, tikhonovReg, t)[j] == ColumnNormSquare(kv, vecs, tikhonovReg, t, j, vecs.rows)
  {
  }

  /** 1/m squared times m^2 is one. */
  lemma ReciprocalSquare(m: real, q: real, c: real)
    requires m * m == q && c * m == 1.0
    ensures Times(c * c, q) == 1.0
  {
    calc {
      (c * c) * q;
      (c * c) * (m * m);
      (c * m) * (c * m);
      1.0;
    }
  }

  /**
   * The normalisation does what it is for: when each norm is the square root
   * of the column's squared norm, every column of U has squared norm one.
   */
  lemma NormalizedColumnsHaveUnitNorm(kernelX: Matrix, vecs: Matrix, tikhonovReg: real, s: real, norms: seq<real>)
    requires IsSquare(kernelX) && vecs.rows == kernelX.rows && s != 0.0
    requires |norms| == vecs.cols
    requires forall j :: 0 <= j < |norms| ==>
      (norms[j] != 0.0 && norms[j] * norms[j] == NormSquares(KernelVecs(kernelX, vecs, s), vecs, tikhonovReg, 1.0 / s)[j])
    ensures Normalize(kernelX, vecs, norms).Ok?
    ensures var U := Normalize(kernelX, vecs, norms).value.0;
      var q := NormSquares(KernelVecs(kernelX, U, s), U, tikhonovReg, 1.0 / s);
      forall j :: 0 <= j < |q| ==> q[j] == 1.0
  {
    var inv := Reciprocals(norms);
    var U := ScaleColumns(vecs, inv);
    assert Normalize(kernelX, vecs, norms).value.0 == U;
    var kv := KernelVecs(kernelX, vecs, s);
    MulScaleColumns(Scale(s, kernelX), vecs, inv);
    assert KernelVecs(kernelX, U, s) == ScaleColumns(kv, inv);
    ScaledByReciprocalNorms(kv, vecs, tikhonovReg, 1.0 / s, norms);
  }

  /** Dividing each column of both factors by the root of its squared norm leaves squared norm one. */
  lemma ScaledByReciprocalNorms(kv: Matrix, vecs: Matrix, tikhonovReg: real, t: real, norms: seq<real>)
    requires kv.rows == vecs.rows && kv.cols == vecs.cols == |norms|
    requires forall j :: 0 <= j < |norms| ==>
      (norms[j] != 0.0 && norms[j] * norms[j] == NormSquares(kv, vecs, tikhonovReg, t)[j])
    ensures var inv := Reciprocals(norms);
      var q := NormSquares(ScaleColumns(kv, inv), ScaleColumns(vecs, inv), tikhonovReg, t);
      forall j :: 0 <= j < |q| ==> q[j] == 1.0
  {
    var inv := Reciprocals(norms);
    var q := NormSquares(ScaleColumns(kv, inv), ScaleColumns(vecs, inv), tikhonovReg, t);
    forall j | 0 <= j < |q|
      ensures q[j] == 1.0
    {
      NormSquaresScaled(kv, vecs, tikhonovReg, t, inv, j);
      ReciprocalSquare(norms[j], NormSquares(kv, vecs, tikhonovReg, t)[j], inv[j]);
    }
  }
}
