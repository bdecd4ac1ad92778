/**
 * predict: the num_steps-ahead forecast of an observable,
 * (s K_Xin_X U) T^(num_steps - 1) (s V^T obs) with T = (1/n) V^T K_YX U,
 * where n is the number of training points and s stands for n^-0.5.
 */
module Prediction {
  import opened Matrices
  import opened Outcomes

  /** The shapes predict works with: U, V are n x r, K_YX is n x n, K_Xin_X is m x n, obs is n x p. */
  predicate Shapes(U: Matrix, V: Matrix, kernelYX: Matrix, kernelXinX: Matrix, obs: Matrix) {
    && V.rows == U.rows && V.cols == U.cols
    && kernelYX.rows == U.rows && kernelYX.cols == U.rows
    && kernelXinX.cols == U.rows && obs.rows == U.rows
  }

  /** T = (1/n) V^T K_YX U, the r x r matrix of one step of the estimated operator. */
  function Transition(U: Matrix, V: Matrix, kernelYX: Matrix): (T: Matrix)
    requires V.rows == U.rows && V.cols == U.cols && kernelYX.rows == U.rows && kernelYX.cols == U.rows && U.rows > 0
    ensures T.rows == U.cols && T.cols == U.cols
  {
    Scale(1.0 / U.rows as real, Mul(Mul(Transpose(V), kernelYX), U))
  }

  /**
   * predict(num_steps, U, V, K_YX, K_Xin_X, obs_train_Y). num_steps >= 1 is
   * required: for 0 the source would ask matrix_power for an inverse. With
   * no training points n ** -0.5 raises ZeroDivisionError.
   */
  function Predict(numSteps: nat, U: Matrix, V: Matrix, kernelYX: Matrix, kernelXinX: Matrix, obs: Matrix,
                   s: real): (r: Result<Matrix>)
    requires numSteps >= 1 && Shapes(U, V, kernelYX, kernelXinX, obs)
    ensures r.Err? <==> U.rows == 0
    ensures r.Err? ==> r.error == ZeroDivisionError
    ensures r.Ok? ==> r.value.rows == kernelXinX.rows && r.value.cols == obs.cols
  {
    if U.rows == 0 then Err(ZeroDivisionError)
    else
      var kDotU := Mul(Scale(s, kernelXinX), U);
      var vDotObs := Mul(Scale(s, Transpose(V)), obs);
      var M := MatPow(Transition(U, V, kernelYX), numSteps - 1);
      Ok(Mul(Mul(kDotU, M), vDotObs))
  }

  /** X after k applications of T: the forecast in the r-dimensional coordinates, one step at a time. */
  function Iterate(T: Matrix, X: Matrix, k: nat): (Y: Matrix)
    requires IsSquare(T) && X.rows == T.rows
    ensures Y.rows == X.rows && Y.cols == X.cols
  {
    if k == 0 then X else Mul(T, Iterate(T, X, k - 1))
  }

  /** Multiplying by T^k is applying T k times. */
  lemma {:induction false} PowerIsIteration(T: Matrix, X: Matrix, k: nat)
    requires IsSquare(T) && X.rows == T.rows
    ensures Mul(MatPow(T, k), X) == Iterate(T, X, k)
  {
    if k == 0 {
      MulIdentityLeft(X);
    } else {
      PowerIsIteration(T, X, k - 1);
      MulAssoc(T, MatPow(T, k - 1), X);
    }
  }

  /**
   * The forecast is the left factor applied to the right factor advanced
   * num_steps - 1 times by the transition.
   */
  lemma PredictIterates(numSteps: nat, U: Matrix, V: Matrix, kernelYX: Matrix, kernelXinX: Matrix, obs: Matrix, s: real)
    requires numSteps >= 1 && Shapes(U, V, kernelYX, kernelXinX, obs) && U.rows > 0
    ensures Predict(numSteps, U, V, kernelYX, kernelXinX, obs, s).value
         == Mul(Mul(Scale(s, kernelXinX), U),
                Iterate(Transition(U, V, kernelYX), Mul(Scale(s, Transpose(V)), obs), numSteps - 1))
  {
    var kDotU := Mul(Scale(s, kernelXinX), U);
    var vDotObs := Mul(Scale(s, Transpose(V)), obs);
    var T := Transition(U, V, kernelYX);
    MulAssoc(kDotU, MatPow(T, numSteps - 1), vDotObs);
    PowerIsIteration(T, vDotObs, numSteps - 1);
  }

  /** A one-step forecast uses no power of T: it is (s K_Xin_X U)(s V^T obs). */
  lemma PredictOneStep(U: Matrix, V: Matrix, kernelYX: Matrix, kernelXinX: Matrix, obs: Matrix, s: real)
    requires Shapes(U, V, kernelYX, kernelXinX, obs) && U.rows > 0
    ensures Predict(1, U, V, kernelYX, kernelXinX, obs, s).value
         == Mul(Mul(Scale(s, kernelXinX), U), Mul(Scale(s, Transpose(V)), obs))
  {
    MulIdentityRight(Mul(Scale(s, kernelXinX), U));
  }

  /** T^(a+b) = T^a T^b: a forecast a + b steps ahead splits at any intermediate step. */
  lemma PredictComposes(a: nat, b: nat, U: Matrix, V: Matrix, kernelYX: Matrix, kernelXinX: Matrix, obs: Matrix, s: real)
    requires b >= 1 && Shapes(U, V, kernelYX, kernelXinX, obs) && U.rows > 0
    ensures var T := Transition(U, V, kernelYX);
      Predict(a + b, U, V, kernelYX, kernelXinX, obs, s).value
        == Mul(Mul(Mul(Scale(s, kernelXinX), U), MatPow(T, a)), Mul(MatPow(T, b - 1), Mul(Scale(s, Transpose(V)), obs)))
  {
    var kDotU := Mul(Scale(s, kernelXinX), U);
    var vDotObs := Mul(Scale(s, Transpose(V)), obs);
    var T := Transition(U, V, kernelYX);
    MatPowAdd(T, a, b - 1);
    MulAssoc(kDotU, MatPow(T, a), MatPow(T, b - 1));
    MulAssoc(Mul(kDotU, MatPow(T, a)), MatPow(T, b - 1), vDotObs);
  }

  /**
   * With s * s == 1/n the two n^-0.5 factors combine into 1/n:
   * the forecast is (1/n) K_Xin_X U T^(num_steps - 1) V^T obs.
   */
  lemma PredictClosedForm(numSteps: nat, U: Matrix, V: Matrix, kernelYX: Matrix, kernelXinX: Matrix, obs: Matrix, s: real)
    requires numSteps >= 1 && Shapes(U, V, kernelYX, kernelXinX, obs) && U.rows > 0
    requires s * s == 1.0 / U.rows as real
    ensures var M := MatPow(Transition(U, V, kernelYX), numSteps - 1);
      Predict(numSteps, U, V, kernelYX, kernelXinX, obs, s).value
        == Scale(1.0 / U.rows as real, Mul(Mul(Mul(kernelXinX, U), M), Mul(Transpose(V), obs)))
  {
    var M := MatPow(Transition(U, V, kernelYX), numSteps - 1);
    var KU, Vo := Mul(kernelXinX, U), Mul(Transpose(V), obs);
    MulScaleLeft(s, kernelXinX, U);
    MulScaleLeft(s, Transpose(V), obs);
    MulScaleLeft(s, KU, M);
    MulScaleLeft(s, Mul(KU, M), Scale(s, Vo));
    MulScaleRight(s, Mul(KU, M), Vo);
    ScaleScale(s, s, Mul(Mul(KU, M), Vo));
  }
}
