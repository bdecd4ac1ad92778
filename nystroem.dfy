/**
 * fit_nystroem_reduced_rank_regression and the solver dispatch of
 * fit_nystroem_principal_component_regression. The least-squares solves,
 * the eigensolver and the pivoted QR step are not part of the model: their
 * results are inputs. What is modelled is the construction of the
 * generalized eigenproblem, the checks, and the way the pivoted columns are
 * put back in order and padded to the requested rank.
 */
module NystroemRegression {
  import opened Matrices
  import opened Sorting
  import opened Outcomes
  import opened FitParameters
  import opened Regularization

  /** (B + B^T) / 2 for B = kernel_YX_nys^T tmp_YX: the symmetrized left-hand side. */
  function SymmetrizedXYX(kernelYXnys: Matrix, tmpYX: Matrix): (S: Matrix)
    requires kernelYXnys.rows == tmpYX.rows && tmpYX.cols == kernelYXnys.cols
    ensures S.rows == S.cols == kernelYXnys.cols
    ensures IsSymmetric(S)
    ensures var B := Mul(Transpose(kernelYXnys), tmpYX);
      forall i: nat, j: nat :: i < S.rows && j < S.rows ==> S.At(i, j) == (B.At(i, j) + B.At(j, i)) * 0.5
  {
    var B := Mul(Transpose(kernelYXnys), tmpYX);
    Scale(0.5, Add(B, Transpose(B)))
  }

  /** A^T A is symmetric. */
  lemma GramSymmetric(A: Matrix)
    ensures IsSymmetric(Mul(Transpose(A), A))
  {
    var At := Transpose(A);
    var G := Mul(At, A);
    forall i, j | 0 <= i < G.rows && 0 <= j < G.rows
      ensures G.At(i, j) == G.At(j, i)
    {
      SumExt(A.rows, k => At.At(i, k) * A.At(k, j), k => At.At(j, k) * A.At(k, i));
    }
  }

  /** kernel_Xnys^T kernel_Xnys + reg * dim * kernel_X: the right-hand side before its eps shift. */
  function NystroemGram(kernelX: Matrix, kernelXnys: Matrix, reg: real): (G: Matrix)
    requires IsSquare(kernelX) && kernelXnys.cols == kernelX.rows
    ensures G.rows == G.cols == kernelX.rows
    ensures IsSymmetric(kernelX) ==> IsSymmetric(G)
  {
    var XtX := Mul(Transpose(kernelXnys), kernelXnys);
    var c := reg * kernelX.rows as real;
    assert IsSymmetric(kernelX) ==> IsSymmetric(Add(XtX, Scale(c, kernelX))) by {
      if IsSymmetric(kernelX) {
        GramSymmetric(kernelXnys);
        AddScaleSymmetric(XtX, c, kernelX);
      }
    }
    Add(XtX, Scale(c, kernelX))
  }

  /**
   * The generalized eigenproblem xyx v = lambda rhs v and the solver call
   * made on it.
   */
  datatype NystroemProblem = NystroemProblem(xyx: Matrix, gram: Matrix, rhs: Matrix, call: SolverCall)

  /**
   * The solver dispatch shared by both Nystroem fits: "full" solves the
   * dense problem and needs no rank, "arnoldi" asks for rank + 3 pairs
   * (capped at the dimension) and so raises TypeError without a rank, and
   * any other tag raises ValueError.
   */
  function NystroemSolverCall(dim: nat, rank: Option<nat>, svdSolver: string): (r: Result<SolverCall>)
    ensures r.Err? <==> !KnownSolver(svdSolver) || (svdSolver == "arnoldi" && rank.None?)
    ensures !KnownSolver(svdSolver) ==> r == Err(ValueError(svdSolver))
    ensures svdSolver == "arnoldi" && rank.None? ==> r == Err(TypeError)
    ensures r.Ok? && svdSolver == "full" ==> r.value == Full
    ensures r.Ok? && svdSolver == "arnoldi" ==>
      r.value == Arnoldi(ArnoldiCount(rank.value, dim)) && r.value.k <= dim && (rank.value <= dim ==> rank.value <= r.value.k)
  {
    if svdSolver == "full" then Ok(Full)
    else if svdSolver == "arnoldi" then
      if rank.None? then Err(TypeError) else Ok(Arnoldi(ArnoldiCount(rank.value, dim)))
    else Err(ValueError(svdSolver))
  }

  /**
   * The eigenproblem of the reduced rank fit. eps is dim times the machine
   * epsilon; the Gram matrix is regularized with max(eps, tikhonov_reg) and
   * then shifted once more by eps. Both sides are symmetric (the right-hand
   * side when kernel_X is).
   */
  function NystroemPencil(kernelX: Matrix, kernelXnys: Matrix, kernelYnys: Matrix, tmpYX: Matrix,
                          tikhonovReg: real, machineEps: real, call: SolverCall): (p: NystroemProblem)
    requires IsSquare(kernelX) && kernelXnys.cols == kernelX.rows
    requires kernelYnys.rows == kernelXnys.rows
    requires tmpYX.rows == kernelYnys.cols && tmpYX.cols == kernelX.rows
    ensures p.call == call
    ensures IsSymmetric(p.xyx) && p.xyx.rows == kernelX.rows
    ensures var eps := kernelX.rows as real * machineEps;
      && p.gram == NystroemGram(kernelX, kernelXnys, MaxReal(eps, tikhonovReg))
      && p.rhs == Regularized(p.gram, eps)
    ensures IsSymmetric(kernelX) ==> IsSymmetric(p.rhs)
  {
    var eps := kernelX.rows as real * machineEps;
    var xyx := SymmetrizedXYX(Mul(Transpose(kernelYnys), kernelXnys), tmpYX);
    var gram := NystroemGram(kernelX, kernelXnys, MaxReal(eps, tikhonovReg));
    assert IsSymmetric(kernelX) ==> IsSymmetric(Regularized(gram, eps)) by {
      if IsSymmetric(kernelX) {
        RegularizedSymmetric(gram, eps);
      }
    }
    NystroemProblem(xyx, gram, Regularized(gram, eps), call)
  }

  /** An integer as a sort key. */
  function IntKey(x: int): Key {
    Key(x as real, 0.0)
  }

  /** The indices in the order that sorts perm: np.argsort(perm). */
  function ArgSortInts(perm: seq<int>): (inv: seq<int>)
    ensures |inv| == |perm| && InRange(inv, |perm|) && IsPermutation(inv, |perm|)
    ensures forall a, b :: 0 <= a < b < |inv| ==> perm[inv[a]] <= perm[inv[b]]
  {
    ArgSort(MapKeys(IntKey, perm))
  }

  /** The argsort of a permutation is its inverse. */
  lemma ArgSortInvertsPermutation(perm: seq<int>, n: nat)
    requires IsPermutation(perm, n)
    ensures |perm| == n && InRange(perm, n)
    ensures var inv := ArgSortInts(perm);
      && IsPermutation(inv, n)
      && (forall k :: 0 <= k < n ==> perm[inv[k]] == k)
      && (forall i :: 0 <= i < n ==> inv[perm[i]] == i)
  {
    assert |perm| == |multiset(perm)| == |multiset(Range(n))| == n;
    PermutationInRange(perm, n);
    var keys := MapKeys(IntKey, perm);
    var inv := ArgSortInts(perm);
    var sorted := Apply(keys, inv);
    var target := MapKeys(IntKey, Range(n));
    assert SortedBy(target);
    MapKeysMultiset(IntKey, perm, Range(n));
    SortedUnique(sorted, target);
    forall k | 0 <= k < n
      ensures perm[inv[k]] == k
    {
      assert sorted[k] == target[k];
    }
    forall i | 0 <= i < n
      ensures inv[perm[i]] == i
    {
      assert Range(n)[i] == i;
      assert i in multiset(Range(n));
      assert i in multiset(inv);
      var k :| 0 <= k < n && inv[k] == i;
      assert perm[inv[k]] == k;
    }
  }

  /**
   * vectors[:, argsort(columns_permutation)] followed by zero columns up to
   * the rank: column i of the pivoted Q lands in position perm[i], and the
   * columns after Q's are zero.
   */
  function RestoredPadded(Q: Matrix, perm: seq<int>, rank: nat): (W: Matrix)
    requires |perm| == Q.cols && IsPermutation(perm, Q.cols)
    ensures W.rows == Q.rows && W.cols == (if Q.cols < rank then rank else Q.cols)
    ensures forall i :: 0 <= i < Q.cols ==> 0 <= perm[i] < Q.cols
    ensures forall row: nat, i :: row < Q.rows && 0 <= i < Q.cols ==> W.At(row, perm[i]) == Q.At(row, i)
    ensures forall row: nat, j: nat :: row < Q.rows && Q.cols <= j < W.cols ==> W.At(row, j) == 0.0
  {
    ArgSortInvertsPermutation(perm, Q.cols);
    PadColumns(SelectColumns(Q, ArgSortInts(perm)), rank)
  }

  /** Padding a matrix that is already wide enough leaves it as it is. */
  lemma PadWideEnough(A: Matrix, w: nat)
    requires w <= A.cols
    ensures PadColumns(A, w) == A
  {
    Ext(PadColumns(A, w), A);
  }

  /** The warning raised when the numerical rank falls short of the requested rank. */
  function PaddingWarnings(width: nat, rank: nat): (w: seq<Warning>)
    ensures |w| <= 1 && (w != [] <==> width < rank)
    ensures w != [] ==> w[0] == RankDeficient(rank, rank - width)
  {
    if width < rank then [RankDeficient(rank, rank - width)] else []
  }

  /**
   * The column handling of the fit: restore the pivoted order, and when the
   * numerical rank fell short of the rank, pad with zero columns and warn.
   * The width assertion sits inside the padding branch, where it always
   * holds; a factor wider than the rank keeps all its columns.
   */
  method RestoreAndPad(Q: Matrix, perm: seq<int>, rank: nat) returns (vectors: Matrix, warnings: seq<Warning>)
    requires |perm| == Q.cols && IsPermutation(perm, Q.cols)
    ensures vectors == RestoredPadded(Q, perm, rank)
    ensures vectors.rows == Q.rows && vectors.cols == (if Q.cols < rank then rank else Q.cols)
    ensures warnings == PaddingWarnings(Q.cols, rank)
  {
    vectors := SelectColumns(Q, ArgSortInts(perm));
    warnings := [];
    if vectors.cols < rank {
      warnings := warnings + [RankDeficient(rank, rank - vectors.cols)];
      vectors := PadColumns(vectors, rank);
      assert vectors.cols == rank;
    } else {
      PadWideEnough(vectors, rank);
    }
  }

  datatype NystroemFit = NystroemFit(problem: NystroemProblem, U: Matrix, V: Matrix, warnings: seq<Warning>)

  /**
   * The whole fit. tmpYX is lstsq(kernel_Y, kernel_YX_nys), Q and perm are
   * the pivoted QR factor of the eigenvectors and its column permutation,
   * and lstsqXYX is lstsq(kernel_Xnys_sq, kernel_XYX). U is lstsqXYX times
   * the restored vectors and V is tmpYX times them. Without a rank, "full"
   * gets as far as the comparison with the rank, which raises TypeError.
   */
  method FitNystroemReducedRankRegression(kernelX: Matrix, kernelXnys: Matrix, kernelYnys: Matrix,
                                          tmpYX: Matrix, tikhonovReg: real, rank: Option<nat>, svdSolver: string,
                                          machineEps: real, Q: Matrix, perm: seq<int>, lstsqXYX: Matrix)
    returns (r: Result<NystroemFit>)
    requires IsSquare(kernelX) && kernelXnys.cols == kernelX.rows
    requires kernelYnys.rows == kernelXnys.rows
    requires tmpYX.rows == kernelYnys.cols && tmpYX.cols == kernelX.rows
    requires Q.rows == kernelX.rows && |perm| == Q.cols && IsPermutation(perm, Q.cols)
    requires lstsqXYX.cols == kernelX.rows
    ensures !KnownSolver(svdSolver) ==> r == Err(ValueError(svdSolver))
    ensures KnownSolver(svdSolver) && rank.None? ==> r == Err(TypeError)
    ensures r.Ok? <==> KnownSolver(svdSolver) && rank.Some?
    ensures r.Ok? ==>
      r.value.problem == NystroemPencil(kernelX, kernelXnys, kernelYnys, tmpYX, tikhonovReg, machineEps,
                                        NystroemSolverCall(kernelX.rows, rank, svdSolver).value)
    ensures r.Ok? ==> r.value.U == Mul(lstsqXYX, RestoredPadded(Q, perm, rank.value))
    ensures r.Ok? ==> r.value.V == Mul(tmpYX, RestoredPadded(Q, perm, rank.value))
    ensures r.Ok? ==> r.value.U.cols == r.value.V.cols == (if Q.cols < rank.value then rank.value else Q.cols)
    ensures r.Ok? ==> r.value.warnings == PaddingWarnings(Q.cols, rank.value)
  {
    var call := NystroemSolverCall(kernelX.rows, rank, svdSolver);
    if call.Err? {
      return Err(call.error);
    }
    var problem := NystroemPencil(kernelX, kernelXnys, kernelYnys, tmpYX, tikhonovReg, machineEps, call.value);
    if rank.None? {
      return Err(TypeError);
    }
    var W, warnings := RestoreAndPad(Q, perm, rank.value);
    r := Ok(NystroemFit(problem, Mul(lstsqXYX, W), Mul(tmpYX, W), warnings));
  }

  datatype NystroemPcrFit = NystroemPcrFit(lhs: Matrix, rhs: Matrix, call: SolverCall, U: Matrix, V: Matrix)

  /**
   * fit_nystroem_principal_component_regression around its solvers. The
   * eigenproblem is (kernel_Xnys^T kernel_Xnys) v = lambda K_X' v with K_X'
   * regularized by max(eps, tikhonov_reg); vectors and rsqrt are what rank
   * revealing returns, and lstsqV is the least-squares solution
   * lstsq(regularize(kernel_Y, eps), kernel_Ynys^T kernel_Xnys vectors).
   * U and V are vectors and lstsqV scaled by sqrt(dim) and by rsqrt column
   * by column.
   */
  function FitNystroemPrincipalComponentRegression(kernelX: Matrix, kernelXnys: Matrix, tikhonovReg: real,
                                                   rank: Option<nat>, svdSolver: string, machineEps: real,
                                                   vectors: Matrix, rsqrt: seq<real>, lstsqV: Matrix,
                                                   sqrtDim: real): (r: Result<NystroemPcrFit>)
    requires IsSquare(kernelX) && kernelXnys.cols == kernelX.rows
    requires |rsqrt| == vectors.cols && lstsqV.cols == vectors.cols
    ensures var call := NystroemSolverCall(kernelX.rows, rank, svdSolver);
      && (r.Err? <==> call.Err?)
      && (r.Err? ==> r.error == call.error)
      && (r.Ok? ==> r.value.call == call.value)
    ensures r.Ok? ==>
      var f := r.value;
      var eps := kernelX.rows as real * machineEps;
      && f.lhs == Mul(Transpose(kernelXnys), kernelXnys) && IsSymmetric(f.lhs)
      && f.rhs == Regularized(kernelX, MaxReal(eps, tikhonovReg))
      && f.U.rows == vectors.rows && f.U.cols == vectors.cols
      && f.V.rows == lstsqV.rows && f.V.cols == vectors.cols
      && (forall i: nat, j: nat :: i < vectors.rows && j < vectors.cols ==>
            f.U.At(i, j) == sqrtDim * vectors.At(i, j) * rsqrt[j])
      && (forall i: nat, j: nat :: i < lstsqV.rows && j < vectors.cols ==>
            f.V.At(i, j) == sqrtDim * lstsqV.At(i, j) * rsqrt[j])
  {
    var eps := kernelX.rows as real * machineEps;
    match NystroemSolverCall(kernelX.rows, rank, svdSolver)
    case Err(e) => Err(e)
    case Ok(call) =>
      GramSymmetric(kernelXnys);
      Ok(NystroemPcrFit(Mul(Transpose(kernelXnys), kernelXnys), Regularized(kernelX, MaxReal(eps, tikhonovReg)), call,
                        ScaleColumns(Scale(sqrtDim, vectors), rsqrt), ScaleColumns(Scale(sqrtDim, lstsqV), rsqrt)))
  }
}
