/**
 * How the estimators report failure and diagnostics: the exceptions they
 * raise become error values, and the messages they log become warnings
 * returned beside the result.
 */
module Outcomes {

  datatype FitError =
    | AssertionError(reason: AssertionReason)
    | ValueError(solver: string)  // "Unknown svd_solver ..."
    | TypeError                   // arithmetic or comparison with rank None
    | NonFiniteColumn(column: nat) // division of a column by a zero norm
    | ZeroDivisionError           // a negative power of an empty dimension

  datatype AssertionReason =
    | RankTooHigh(rank: nat, dim: nat)
    | ComplexEigenvectors

  datatype Warning =
    /** Fewer valid eigenvalues than the requested rank (reduced rank regression). */
    | DiscardedDimensions(discarded: nat, requested: nat)
    /** Some retained squared singular values are below the regularization strength. */
    | Overfit(below: nat, retained: nat, tikhonovReg: real)
    /** The numerical rank of the projector is smaller than the requested rank (Nystroem). */
    | RankDeficient(requested: nat, ignored: nat)

  datatype Result<T> = Ok(value: T) | Err(error: FitError)

  /** An outcome together with the warnings logged on the way to it, whether it failed or not. */
  datatype Logged<T> = Logged(result: Result<T>, warnings: seq<Warning>)

  datatype Option<T> = None | Some(value: T)

  function GetOr<T>(o: Option<T>, default: T): T {
    match o
    case Some(v) => v
    case None => default
  }
}
