/**
 * fit_principal_component_regression: the default and the bound on the
 * rank, the solver dispatch, and the projections built from the
 * eigenvectors that survive rank revealing. The eigensolver and the rank
 * revealing step are not part of the model; their output is an input.
 */
module PrincipalComponentRegression {
  import opened Matrices
  import opened Outcomes
  import opened FitParameters
  import opened Regularization

  /** What the fit asks of the eigensolver once its checks have passed. */
  datatype PcrPlan = PcrPlan(rank: nat, regularized: Matrix, call: SolverCall)

  /**
   * The checks before the eigensolver runs. A missing rank means the full
   * dimension; a rank above the dimension fails the assertion, and does so
   * before the solver name is looked at; an unknown solver name raises
   * ValueError. eigsh is asked for rank + 3 pairs, capped at the dimension,
   * which is never fewer than the rank.
   */
  function PlanPrincipalComponentRegression(kernelX: Matrix, tikhonovReg: real, rank: Option<nat>,
                                            svdSolver: string): (r: Result<PcrPlan>)
    requires IsSquare(kernelX)
    ensures var dim := kernelX.rows;
      var k := GetOr(rank, dim);
      && (r.Err? <==> k > dim || !KnownSolver(svdSolver))
      && (k > dim ==> r == Err(AssertionError(RankTooHigh(k, dim))))
      && (k <= dim && !KnownSolver(svdSolver) ==> r == Err(ValueError(svdSolver)))
      && (r.Ok? ==> r.value.rank == k && r.value.regularized == Regularized(kernelX, tikhonovReg))
      && (r.Ok? && svdSolver == "arnoldi" ==>
            r.value.call == Arnoldi(ArnoldiCount(k, dim)) && r.value.rank <= r.value.call.k <= dim)
      && (r.Ok? && svdSolver == "full" ==> r.value.call == Full)
  {
    var dim := kernelX.rows;
    var k := GetOr(rank, dim);
    if k > dim then Err(AssertionError(RankTooHigh(k, dim)))
    else
      var regularized := Regularized(kernelX, tikhonovReg);
      if svdSolver == "arnoldi" then Ok(PcrPlan(k, regularized, Arnoldi(ArnoldiCount(k, regularized.rows))))
      else if svdSolver == "full" then Ok(PcrPlan(k, regularized, Full))
      else Err(ValueError(svdSolver))
  }

  /**
   * sqrt(dim) * vectors * rsqrt_values: the revealed eigenvectors, column j
   * scaled by sqrt(dim) and by the reciprocal square root of its eigenvalue.
   * The same matrix is returned twice, as U and as V.
   */
  function PcrProjections(vectors: Matrix, rsqrt: seq<real>, sqrtDim: real): (r: (Matrix, Matrix))
    requires |rsqrt| == vectors.cols
    ensures r.0 == r.1
    ensures r.0.rows == vectors.rows && r.0.cols == vectors.cols
    ensures forall i: nat, j: nat :: i < vectors.rows && j < vectors.cols ==>
      r.0.At(i, j) == sqrtDim * vectors.At(i, j) * rsqrt[j]
  {
    var W := ScaleColumns(Scale(sqrtDim, vectors), rsqrt);
    (W, W)
  }

  /**
   * The whole fit: vectors and rsqrt are what rank revealing returns for
   * the planned eigensolver call. The errors are those of the checks; on
   * success U and V are the same matrix.
   */
  function FitPrincipalComponentRegression(kernelX: Matrix, tikhonovReg: real, rank: Option<nat>, svdSolver: string,
                                           vectors: Matrix, rsqrt: seq<real>, sqrtDim: real): (r: Result<(Matrix, Matrix)>)
    requires IsSquare(kernelX) && |rsqrt| == vectors.cols
    ensures var plan := PlanPrincipalComponentRegression(kernelX, tikhonovReg, rank, svdSolver);
      && (r.Err? <==> plan.Err?)
      && (r.Err? ==> r.error == plan.error)
      && (r.Ok? ==> r.value.0 == r.value.1 && r.value == PcrProjections(vectors, rsqrt, sqrtDim))
  {
    match PlanPrincipalComponentRegression(kernelX, tikhonovReg, rank, svdSolver)
    case Err(e) => Err(e)
    case Ok(_) => Ok(PcrProjections(vectors, rsqrt, sqrtDim))
  }

  /** Without a rank, a known solver always passes the checks, with the full dimension as rank. */
  lemma DefaultRankAccepted(kernelX: Matrix, tikhonovReg: real, svdSolver: string)
    requires IsSquare(kernelX) && KnownSolver(svdSolver)
    ensures var r := PlanPrincipalComponentRegression(kernelX, tikhonovReg, None, svdSolver);
      r.Ok? && r.value.rank == kernelX.rows
  {
  }
}
