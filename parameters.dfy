/**
 * The parameters the fits derive before calling an eigensolver: the solver
 * tag and the call it selects, the number of eigenpairs asked of ARPACK,
 * and the regularization floor max(eps, tikhonov_reg).
 */
module FitParameters {

  /** The eigensolver call a fit makes: ARPACK for k eigenpairs, or a dense solver for all of them. */
  datatype SolverCall = Arnoldi(k: nat) | Full

  /** The solver tags that the principal component and Nystroem fits accept. */
  predicate KnownSolver(svdSolver: string) {
    svdSolver == "arnoldi" || svdSolver == "full"
  }

  /** max(a, b), as in the penalty max(eps, tikhonov_reg). */
  function MaxReal(a: real, b: real): (m: real)
    ensures m >= a && m >= b && (m == a || m == b)
  {
    if a >= b then a else b
  }

  function Min(a: nat, b: nat): (m: nat)
    ensures m <= a && m <= b && (m == a || m == b)
  {
    if a <= b then a else b
  }

  /** The number of eigenpairs requested from ARPACK: min(rank + 3, dim), the rank plus a buffer of 3 capped at the dimension. */
  function ArnoldiCount(rank: nat, dim: nat): (k: nat)
    ensures k <= dim && k <= rank + 3
    ensures k == dim || k == rank + 3
    ensures rank <= dim ==> rank <= k
  {
    Min(rank + 3, dim)
  }
}
