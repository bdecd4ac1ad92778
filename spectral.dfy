/**
 * The spectral read-outs of a fitted estimator: evaluate_eigenfunction,
 * estimator_modes and svdvals. The eigensolver inside svdvals and the final
 * square root are not part of the model (the eigenvalues are an input and
 * the square root a parameter).
 */
module SpectralReadouts {
  import opened Matrices
  import opened ComplexNumbers
  import opened Outcomes

  /**
   * evaluate_eigenfunction(K, v): (s K) v with s standing for m^-0.5, m the
   * number of columns of K. With m == 0, m ** -0.5 raises ZeroDivisionError.
   */
  function EvaluateEigenfunction(kernel: Matrix, v: CMat, s: real): (r: Result<CMat>)
    requires v.Valid() && kernel.cols == v.Rows()
    ensures r.Err? <==> kernel.cols == 0
    ensures r.Err? ==> r.error == ZeroDivisionError
    ensures r.Ok? ==> r.value.Valid() && r.value.Rows() == kernel.rows && r.value.Cols() == v.Cols()
    ensures r.Ok? ==> r.value.re == Scale(s, Mul(kernel, v.re)) && r.value.im == Scale(s, Mul(kernel, v.im))
  {
    if kernel.cols == 0 then Err(ZeroDivisionError)
    else
      MulScaleLeft(s, kernel, v.re);
      MulScaleLeft(s, kernel, v.im);
      Ok(RMulC(Scale(s, kernel), v))
  }

  /** modes[k][i][j]: mode k at initial condition i against training point j. */
  type Modes = seq<seq<seq<Complex>>>

  /** The outer product of column k of E with column k of the scaled left vectors. */
  function OuterProducts(E: CMat, lv: CMat, t: real): (m: Modes)
    requires E.Valid() && lv.Valid() && E.Cols() == lv.Cols()
    ensures |m| == lv.Cols()
    ensures forall k :: 0 <= k < |m| ==> |m[k]| == E.Rows() && forall i :: 0 <= i < E.Rows() ==> |m[k][i]| == lv.Rows()
    ensures forall k, i, j :: 0 <= k < lv.Cols() && 0 <= i < E.Rows() && 0 <= j < lv.Rows() ==>
      m[k][i][j] == CMul(E.CAt(i, k), CScale(t, lv.CAt(j, k)))
  {
    seq(lv.Cols(), k => seq(E.Rows(), i => seq(lv.Rows(), j => CMul(E.CAt(i, k), CScale(t, lv.CAt(j, k))))))
  }

  /**
   * estimator_modes(K_Xin_X, rv, lv): rank x n_init x n_train, the right
   * eigenfunctions at the initial conditions times the left vectors scaled
   * by t (standing for n_train^-0.5). s scales the evaluation of the right
   * eigenfunctions. An empty training set raises ZeroDivisionError, first
   * from n_train ** -0.5.
   */
  function EstimatorModes(kernelXinX: Matrix, rv: CMat, lv: CMat, s: real, t: real): (r: Result<Modes>)
    requires rv.Valid() && lv.Valid() && kernelXinX.cols == rv.Rows() && rv.Cols() == lv.Cols()
    ensures r.Err? <==> lv.Rows() == 0 || kernelXinX.cols == 0
    ensures r.Err? ==> r.error == ZeroDivisionError
    ensures r.Ok? ==>
      var E := EvaluateEigenfunction(kernelXinX, rv, s).value;
      r.value == OuterProducts(E, lv, t)
  {
    if lv.Rows() == 0 then Err(ZeroDivisionError)
    else
      match EvaluateEigenfunction(kernelXinX, rv, s)
      case Err(e) => Err(e)
      case Ok(E) => Ok(OuterProducts(E, lv, t))
  }

  /** (a b)(c d) == (a d)(c b). */
  lemma CMulCross(a: Complex, b: Complex, c: Complex, d: Complex)
    ensures CMul(CMul(a, b), CMul(c, d)) == CMul(CMul(a, d), CMul(c, b))
  {
    CMulAssoc(a, b, CMul(c, d));
    CMulAssoc(b, c, d);
    CMulComm(b, c);
    CMulAssoc(c, b, d);
    CMulComm(c, CMul(b, d));
    CMulComm(b, d);
    CMulAssoc(d, c, b);
    CMulComm(d, CMul(c, b));
    CMulAssoc(a, d, CMul(c, b));
    assert CMul(b, CMul(c, d)) == CMul(d, CMul(c, b));
  }

  /**
   * Every mode is a rank-one matrix: any two of its rows are proportional,
   * which shows as m[k][i][j] m[k][i'][j'] == m[k][i][j'] m[k][i'][j].
   */
  lemma ModesAreRankOne(E: CMat, lv: CMat, t: real, k: nat, i: nat, i': nat, j: nat, j': nat)
    requires E.Valid() && lv.Valid() && E.Cols() == lv.Cols()
    requires k < lv.Cols() && i < E.Rows() && i' < E.Rows() && j < lv.Rows() && j' < lv.Rows()
    ensures var m := OuterProducts(E, lv, t);
      CMul(m[k][i][j], m[k][i'][j']) == CMul(m[k][i][j'], m[k][i'][j])
  {
    CMulCross(E.CAt(i, k), CScale(t, lv.CAt(j, k)), E.CAt(i', k), CScale(t, lv.CAt(j', k)));
  }

  /** V^T K V is symmetric when K is. */
  lemma CongruenceSymmetric(V: Matrix, K: Matrix)
    requires IsSymmetric(K) && K.rows == V.rows
    ensures IsSymmetric(Mul(Mul(Transpose(V), K), V))
  {
    var Vt := Transpose(V);
    var M := Mul(Mul(Vt, K), V);
    SymmetricIffTransposeFixed(K);
    TransposeMul(Mul(Vt, K), V);
    TransposeMul(Vt, K);
    Ext(Transpose(Vt), V);
    MulAssoc(Vt, K, V);
    SymmetricIffTransposeFixed(M);
  }

  /**
   * The matrix whose eigenvalues svdvals takes: (V^T (K_Y / n) V)(U^T (K_X / n) U),
   * a product of two symmetric factors when the kernels are symmetric. With
   * no training points n ** -1 raises ZeroDivisionError.
   */
  function SvdOperator(U: Matrix, V: Matrix, kernelX: Matrix, kernelY: Matrix): (r: Result<(Matrix, Matrix)>)
    requires IsSquare(kernelX) && kernelY.rows == kernelX.rows && kernelY.cols == kernelX.rows
    requires U.rows == kernelX.rows && V.rows == kernelX.rows && U.cols == V.cols
    ensures r.Err? <==> kernelX.rows == 0
    ensures r.Err? ==> r.error == ZeroDivisionError
    ensures r.Ok? ==> var (A, B) := r.value;
      && A.rows == A.cols == U.cols && B.rows == B.cols == U.cols
      && (IsSymmetric(kernelY) ==> IsSymmetric(A))
      && (IsSymmetric(kernelX) ==> IsSymmetric(B))
  {
    var n := kernelX.rows;
    if n == 0 then Err(ZeroDivisionError)
    else
      var A := Mul(Mul(Transpose(V), Scale(1.0 / n as real, kernelY)), V);
      var B := Mul(Mul(Transpose(U), Scale(1.0 / n as real, kernelX)), U);
      assert IsSymmetric(kernelY) ==> IsSymmetric(A) by {
        if IsSymmetric(kernelY) {
          CongruenceSymmetric(V, Scale(1.0 / n as real, kernelY));
        }
      }
      assert IsSymmetric(kernelX) ==> IsSymmetric(B) by {
        if IsSymmetric(kernelX) {
          CongruenceSymmetric(U, Scale(1.0 / n as real, kernelX));
        }
      }
      Ok((A, B))
  }

  /** Negative entries replaced by 0: v[v < 0] = 0. */
  function Clipped(xs: seq<real>): (ys: seq<real>)
    ensures |ys| == |xs|
    ensures forall i :: 0 <= i < |xs| ==> 0.0 <= ys[i]
    ensures forall i :: 0 <= i < |xs| ==> (xs[i] >= 0.0 ==> ys[i] == xs[i]) && (xs[i] < 0.0 ==> ys[i] == 0.0)
  {
    seq(|xs|, i requires 0 <= i < |xs| => if xs[i] < 0.0 then 0.0 else xs[i])
  }

  /** Clipping twice is clipping once. */
  lemma ClippedIdempotent(xs: seq<real>)
    ensures Clipped(Clipped(xs)) == Clipped(xs)
  {
  }

  /** The clipping of svdvals, made in place on the array of real parts. */
  method ClipNegatives(v: array<real>)
    modifies v
    ensures v[..] == Clipped(old(v[..]))
  {
    for i := 0 to v.Length
      invariant forall k :: 0 <= k < i ==> v[k] == if old(v[k]) < 0.0 then 0.0 else old(v[k])
      invariant forall k :: i <= k < v.Length ==> v[k] == old(v[k])
    {
      if v[i] < 0.0 {
        v[i] := 0.0;
      }
    }
  }

  /**
   * svdvals given the eigenvalues of SvdOperator's product: their real
   * parts, clipped at 0, through sqrt. Every argument handed to sqrt is
   * non-negative, so every singular value is real; a non-negative real part
   * passes unchanged.
   */
  method SvdVals(eigenvalues: seq<Complex>, sqrt: real -> real) returns (sv: seq<real>)
    ensures |sv| == |eigenvalues|
    ensures forall i :: 0 <= i < |eigenvalues| ==>
      var x := eigenvalues[i].re;
      && sv[i] == sqrt(Clipped(RealParts(eigenvalues))[i])
      && 0.0 <= Clipped(RealParts(eigenvalues))[i]
      && (x >= 0.0 ==> sv[i] == sqrt(x))
      && (x < 0.0 ==> sv[i] == sqrt(0.0))
    ensures (forall x :: 0.0 <= x ==> 0.0 <= sqrt(x)) ==> forall i :: 0 <= i < |sv| ==> 0.0 <= sv[i]
  {
    var v := new real[|eigenvalues|](i requires 0 <= i < |eigenvalues| => eigenvalues[i].re);
    assert v[..] == RealParts(eigenvalues);
    ClipNegatives(v);
    var clipped := v[..];
    sv := seq(|clipped|, i requires 0 <= i < |clipped| => sqrt(clipped[i]));
  }
}
