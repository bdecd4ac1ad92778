/**
 * estimator_risk: the validation risk of a fitted estimator,
 * r_Y + r_XY + r_X with
 *   r_Y  = (1/nv) tr(K_Yv),
 *   r_XY = -2 (1/nv)(1/n) tr(K_YYv^T V U^T K_XXv),
 *   r_X  = (1/nv)(1/n^2) tr(K_XXv^T U V^T K_Y V U^T K_XXv),
 * n training and nv validation points. Products are taken left to right.
 */
module Risk {
  import opened Matrices
  import opened Outcomes

  /** K_Yv is nv x nv, K_Y is n x n, K_XXv and K_YYv are n x nv, U and V are n x r. */
  predicate Shapes(kernelYv: Matrix, kernelY: Matrix, kernelXXv: Matrix, kernelYYv: Matrix, U: Matrix, V: Matrix) {
    && IsSquare(kernelYv) && IsSquare(kernelY)
    && kernelXXv.rows == kernelY.rows && kernelXXv.cols == kernelYv.rows
    && kernelYYv.rows == kernelY.rows && kernelYYv.cols == kernelYv.rows
    && U.rows == kernelY.rows && V.rows == kernelY.rows && U.cols == V.cols
  }

  /** K_YYv^T V U^T K_XXv, the nv x nv matrix of the cross term. */
  function CrossProduct(kernelXXv: Matrix, kernelYYv: Matrix, U: Matrix, V: Matrix): (P: Matrix)
    requires kernelYYv.rows == V.rows && U.cols == V.cols && kernelXXv.rows == U.rows
    ensures P.rows == kernelYYv.cols && P.cols == kernelXXv.cols
  {
    MultiDot([Transpose(kernelYYv), V, Transpose(U), kernelXXv])
  }

  /** K_XXv^T U V^T K_Y V U^T K_XXv, the nv x nv matrix of the quadratic term. */
  function QuadraticProduct(kernelY: Matrix, kernelXXv: Matrix, U: Matrix, V: Matrix): (P: Matrix)
    requires IsSquare(kernelY) && kernelXXv.rows == kernelY.rows && U.rows == kernelY.rows
    requires V.rows == kernelY.rows && U.cols == V.cols
    ensures P.rows == kernelXXv.cols && P.cols == kernelXXv.cols
  {
    MultiDot([Transpose(kernelXXv), U, Transpose(V), kernelY, V, Transpose(U), kernelXXv])
  }

  /** r_Y = (1/nv) tr(K_Yv). */
  function RiskY(kernelYv: Matrix): (r: real)
    requires IsSquare(kernelYv) && kernelYv.rows > 0
    ensures r * kernelYv.rows as real == Trace(kernelYv)
  {
    1.0 / kernelYv.rows as real * Trace(kernelYv)
  }

  /** r_XY = -2 (1/nv)(1/n) tr(K_YYv^T V U^T K_XXv). */
  function RiskXY(kernelYv: Matrix, kernelY: Matrix, kernelXXv: Matrix, kernelYYv: Matrix, U: Matrix, V: Matrix): (r: real)
    requires Shapes(kernelYv, kernelY, kernelXXv, kernelYYv, U, V) && kernelY.rows > 0 && kernelYv.rows > 0
    ensures r * (kernelYv.rows as real * kernelY.rows as real) == -2.0 * Trace(CrossProduct(kernelXXv, kernelYYv, U, V))
  {
    -2.0 * (1.0 / kernelYv.rows as real) * (1.0 / kernelY.rows as real) * Trace(CrossProduct(kernelXXv, kernelYYv, U, V))
  }

  /** r_X = (1/nv)(1/n^2) tr(K_XXv^T U V^T K_Y V U^T K_XXv). */
  function RiskX(kernelYv: Matrix, kernelY: Matrix, kernelXXv: Matrix, kernelYYv: Matrix, U: Matrix, V: Matrix): (r: real)
    requires Shapes(kernelYv, kernelY, kernelXXv, kernelYYv, U, V) && kernelY.rows > 0 && kernelYv.rows > 0
    ensures r * (kernelYv.rows as real * kernelY.rows as real * kernelY.rows as real)
         == Trace(QuadraticProduct(kernelY, kernelXXv, U, V))
  {
    QuadraticWeight(kernelYv.rows, kernelY.rows) * Trace(QuadraticProduct(kernelY, kernelXXv, U, V))
  }

  /** rdim_val * rdim_train**2, the weight of the quadratic term. */
  function QuadraticWeight(nv: nat, n: nat): (w: real)
    requires nv > 0 && n > 0
    ensures w * (nv as real * n as real * n as real) == 1.0
  {
    var a, b := 1.0 / nv as real, 1.0 / n as real;
    assert a * nv as real == 1.0 && b * n as real == 1.0;
    assert (a * (b * b)) * (nv as real * n as real * n as real) == (a * nv as real) * (b * n as real) * (b * n as real);
    a * (b * b)
  }

  /**
   * estimator_risk: the sum of the three terms. An empty training or
   * validation set makes n ** -1 raise ZeroDivisionError.
   */
  function EstimatorRisk(kernelYv: Matrix, kernelY: Matrix, kernelXXv: Matrix, kernelYYv: Matrix, U: Matrix, V: Matrix): (r: Result<real>)
    requires Shapes(kernelYv, kernelY, kernelXXv, kernelYYv, U, V)
    ensures r.Err? <==> kernelY.rows == 0 || kernelYv.rows == 0
    ensures r.Err? ==> r.error == ZeroDivisionError
    ensures r.Ok? ==> r.value == RiskY(kernelYv) + RiskXY(kernelYv, kernelY, kernelXXv, kernelYYv, U, V)
                                 + RiskX(kernelYv, kernelY, kernelXXv, kernelYYv, U, V)
  {
    if kernelY.rows == 0 || kernelYv.rows == 0 then Err(ZeroDivisionError)
    else Ok(RiskY(kernelYv) + RiskXY(kernelYv, kernelY, kernelXXv, kernelYYv, U, V)
            + RiskX(kernelYv, kernelY, kernelXXv, kernelYYv, U, V))
  }

  /**
   * The zero estimator (U == 0) predicts nothing: its risk is the mean of
   * the validation kernel's diagonal, (1/nv) tr(K_Yv).
   */
  lemma ZeroEstimatorRisk(kernelYv: Matrix, kernelY: Matrix, kernelXXv: Matrix, kernelYYv: Matrix, V: Matrix)
    requires Shapes(kernelYv, kernelY, kernelXXv, kernelYYv, Zeros(kernelY.rows, V.cols), V)
    requires kernelY.rows > 0 && kernelYv.rows > 0
    ensures EstimatorRisk(kernelYv, kernelY, kernelXXv, kernelYYv, Zeros(kernelY.rows, V.cols), V).value
         == RiskY(kernelYv)
  {
    var U := Zeros(kernelY.rows, V.cols);
    ZeroCross(kernelXXv, kernelYYv, V);
    ZeroQuadratic(kernelY, kernelXXv, V);
    TraceZeros(kernelYv.rows);
    RiskWithVanishingTerms(kernelYv, kernelY, kernelXXv, kernelYYv, U, V);
  }

  /** When both data-dependent traces vanish only r_Y remains. */
  lemma RiskWithVanishingTerms(kernelYv: Matrix, kernelY: Matrix, kernelXXv: Matrix, kernelYYv: Matrix, U: Matrix, V: Matrix)
    requires Shapes(kernelYv, kernelY, kernelXXv, kernelYYv, U, V) && kernelY.rows > 0 && kernelYv.rows > 0
    requires Trace(CrossProduct(kernelXXv, kernelYYv, U, V)) == 0.0
    requires Trace(QuadraticProduct(kernelY, kernelXXv, U, V)) == 0.0
    ensures EstimatorRisk(kernelYv, kernelY, kernelXXv, kernelYYv, U, V).value == RiskY(kernelYv)
  {
    assert RiskXY(kernelYv, kernelY, kernelXXv, kernelYYv, U, V) == 0.0;
    assert RiskX(kernelYv, kernelY, kernelXXv, kernelYYv, U, V) == 0.0;
  }

  lemma ZeroCross(kernelXXv: Matrix, kernelYYv: Matrix, V: Matrix)
    requires kernelYYv.rows == V.rows && kernelXXv.rows == V.rows
    ensures CrossProduct(kernelXXv, kernelYYv, Zeros(V.rows, V.cols), V) == Zeros(kernelYYv.cols, kernelXXv.cols)
  {
    var n, r := V.rows, V.cols;
    Ext(Transpose(Zeros(n, r)), Zeros(r, n));
    MultiDotZero([Transpose(kernelYYv), V, Transpose(Zeros(n, r)), kernelXXv], 2);
  }

  lemma ZeroQuadratic(kernelY: Matrix, kernelXXv: Matrix, V: Matrix)
    requires IsSquare(kernelY) && kernelXXv.rows == kernelY.rows && V.rows == kernelY.rows
    ensures QuadraticProduct(kernelY, kernelXXv, Zeros(V.rows, V.cols), V) == Zeros(kernelXXv.cols, kernelXXv.cols)
  {
    var U := Zeros(V.rows, V.cols);
    MultiDotZero([Transpose(kernelXXv), U, Transpose(V), kernelY, V, Transpose(U), kernelXXv], 1);
  }

  /**
   * The cross term can be evaluated on the r x r matrix U^T K_XXv K_YYv^T V
   * instead of the nv x nv one: the trace is the same.
   */
  lemma CrossTermCyclic(kernelXXv: Matrix, kernelYYv: Matrix, U: Matrix, V: Matrix)
    requires kernelYYv.rows == V.rows && U.cols == V.cols && kernelXXv.rows == U.rows
    requires kernelXXv.cols == kernelYYv.cols
    ensures Trace(CrossProduct(kernelXXv, kernelYYv, U, V))
         == Trace(Mul(Mul(Mul(Transpose(U), kernelXXv), Transpose(kernelYYv)), V))
  {
    var A := Mul(Transpose(kernelYYv), V);
    var B := Mul(Transpose(U), kernelXXv);
    MultiDotOfFour(Transpose(kernelYYv), V, Transpose(U), kernelXXv);
    MulAssoc(A, Transpose(U), kernelXXv);
    TraceCyclic(A, B);
    MulAssoc(B, Transpose(kernelYYv), V);
  }

  /** A product of four factors is ((a b) c) d. */
  lemma MultiDotOfFour(a: Matrix, b: Matrix, c: Matrix, d: Matrix)
    requires a.cols == b.rows && b.cols == c.rows && c.cols == d.rows
    ensures MultiDot([a, b, c, d]) == Mul(Mul(Mul(a, b), c), d)
  {
    MultiDotLast([a, b, c, d]);
    assert [a, b, c, d][..3] == [a, b, c];
    MultiDotLast([a, b, c]);
    assert [a, b, c][..2] == [a, b];
    MultiDotLast([a, b]);
    assert [a, b][..1] == [a];
  }

  /**
   * r_Y is never negative when the diagonal of K_Yv is not, as for the Gram
   * matrix of any kernel (k(y, y) >= 0).
   */
  lemma RiskYNonNegative(kernelYv: Matrix)
    requires IsSquare(kernelYv) && kernelYv.rows > 0
    requires forall i: nat :: i < kernelYv.rows ==> 0.0 <= kernelYv.At(i, i)
    ensures 0.0 <= RiskY(kernelYv)
  {
    TraceNonNegative(kernelYv);
  }

  /** Scaling U by c scales the cross-term product by c. */
  lemma CrossProductScaled(kernelXXv: Matrix, kernelYYv: Matrix, U: Matrix, V: Matrix, c: real)
    requires kernelYYv.rows == V.rows && U.cols == V.cols && kernelXXv.rows == U.rows
    ensures CrossProduct(kernelXXv, kernelYYv, Scale(c, U), V) == Scale(c, CrossProduct(kernelXXv, kernelYYv, U, V))
  {
    var fs := [Transpose(kernelYYv), V, Transpose(U), kernelXXv];
    MultiDotScaled(fs, 2, c);
    TransposeScale(c, U);
    assert fs[2 := Scale(c, fs[2])] == [Transpose(kernelYYv), V, Transpose(Scale(c, U)), kernelXXv];
  }

  /** Scaling U by c scales the quadratic-term product by c * c: U appears in it twice. */
  lemma QuadraticProductScaled(kernelY: Matrix, kernelXXv: Matrix, U: Matrix, V: Matrix, c: real)
    requires IsSquare(kernelY) && kernelXXv.rows == kernelY.rows && U.rows == kernelY.rows
    requires V.rows == kernelY.rows && U.cols == V.cols
    ensures QuadraticProduct(kernelY, kernelXXv, Scale(c, U), V) == Scale(c * c, QuadraticProduct(kernelY, kernelXXv, U, V))
  {
    var fs := [Transpose(kernelXXv), U, Transpose(V), kernelY, V, Transpose(U), kernelXXv];
    MultiDotScaled(fs, 1, c);
    var fs1 := fs[1 := Scale(c, fs[1])];
    MultiDotScaled(fs1, 5, c);
    TransposeScale(c, U);
    assert fs1[5 := Scale(c, fs1[5])]
        == [Transpose(kernelXXv), Scale(c, U), Transpose(V), kernelY, V, Transpose(Scale(c, U)), kernelXXv];
    ScaleScale(c, c, MultiDot(fs));
  }

  /** r_XY is linear in the estimator: scaling U by c scales it by c. */
  lemma RiskXYLinear(kernelYv: Matrix, kernelY: Matrix, kernelXXv: Matrix, kernelYYv: Matrix, U: Matrix, V: Matrix, c: real)
    requires Shapes(kernelYv, kernelY, kernelXXv, kernelYYv, U, V) && kernelY.rows > 0 && kernelYv.rows > 0
    ensures RiskXY(kernelYv, kernelY, kernelXXv, kernelYYv, Scale(c, U), V)
         == c * RiskXY(kernelYv, kernelY, kernelXXv, kernelYYv, U, V)
  {
    CrossProductScaled(kernelXXv, kernelYYv, U, V, c);
    var T := Trace(CrossProduct(kernelXXv, kernelYYv, U, V));
    TraceScale(c, CrossProduct(kernelXXv, kernelYYv, U, V));
    var w := -2.0 * (1.0 / kernelYv.rows as real) * (1.0 / kernelY.rows as real);
    WeightCommutes(w, c, T);
  }

  /** r_X is quadratic in the estimator: scaling U by c scales it by c * c. */
  lemma RiskXQuadratic(kernelYv: Matrix, kernelY: Matrix, kernelXXv: Matrix, kernelYYv: Matrix, U: Matrix, V: Matrix, c: real)
    requires Shapes(kernelYv, kernelY, kernelXXv, kernelYYv, U, V) && kernelY.rows > 0 && kernelYv.rows > 0
    ensures RiskX(kernelYv, kernelY, kernelXXv, kernelYYv, Scale(c, U), V)
         == (c * c) * RiskX(kernelYv, kernelY, kernelXXv, kernelYYv, U, V)
  {
    QuadraticProductScaled(kernelY, kernelXXv, U, V, c);
    var T := Trace(QuadraticProduct(kernelY, kernelXXv, U, V));
    TraceScale(c * c, QuadraticProduct(kernelY, kernelXXv, U, V));
    WeightCommutes(QuadraticWeight(kernelYv.rows, kernelY.rows), c * c, T);
  }

  /** A weight applied after a scaling is the scaling applied after the weight. */
  lemma WeightCommutes(w: real, k: real, t: real)
    ensures w * (k * t) == k * (w * t)
  {
  }

  /**
   * Along the ray c U the risk is the quadratic r_Y + c r_XY + c^2 r_X of
   * the terms at U, so the three terms of estimator_risk are its constant,
   * linear and quadratic coefficients.
   */
  lemma EstimatorRiskAlongRay(kernelYv: Matrix, kernelY: Matrix, kernelXXv: Matrix, kernelYYv: Matrix, U: Matrix, V: Matrix, c: real)
    requires Shapes(kernelYv, kernelY, kernelXXv, kernelYYv, U, V) && kernelY.rows > 0 && kernelYv.rows > 0
    ensures EstimatorRisk(kernelYv, kernelY, kernelXXv, kernelYYv, Scale(c, U), V).value
         == RiskY(kernelYv) + c * RiskXY(kernelYv, kernelY, kernelXXv, kernelYYv, U, V)
            + (c * c) * RiskX(kernelYv, kernelY, kernelXXv, kernelYYv, U, V)
  {
    RiskXYLinear(kernelYv, kernelY, kernelXXv, kernelYYv, U, V, c);
    RiskXQuadratic(kernelYv, kernelY, kernelXXv, kernelYYv, U, V, c);
  }
}
