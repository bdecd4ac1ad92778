/**
 * Exact complex numbers over the reals, as returned by the general
 * eigensolvers, with the comparisons the estimators apply to them.
 */
module ComplexNumbers {
  import opened Sorting
  import opened Matrices

  datatype Complex = Complex(re: real, im: real)

  const Zero := Complex(0.0, 0.0)
  const One := Complex(1.0, 0.0)

  function Conj(z: Complex): Complex {
    Complex(z.re, -z.im)
  }

  function CMul(a: Complex, b: Complex): Complex {
    Complex(a.re * b.re - a.im * b.im, a.re * b.im + a.im * b.re)
  }

  function CAdd(a: Complex, b: Complex): Complex {
    Complex(a.re + b.re, a.im + b.im)
  }

  /** The real multiple c z. */
  function CScale(c: real, z: Complex): Complex {
    Complex(c * z.re, c * z.im)
  }

  lemma CMulZeroLeft(c: Complex)
    ensures CMul(Zero, c) == Zero
  {
  }

  /** Multiplication distributes over addition. */
  lemma CMulDistributes(a: Complex, b: Complex, c: Complex)
    ensures CMul(CAdd(a, b), c) == CAdd(CMul(a, c), CMul(b, c))
  {
    assert (a.re + b.re) * c.re == a.re * c.re + b.re * c.re;
    assert (a.im + b.im) * c.im == a.im * c.im + b.im * c.im;
    assert (a.re + b.re) * c.im == a.re * c.im + b.re * c.im;
    assert (a.im + b.im) * c.re == a.im * c.re + b.im * c.re;
  }

  /** (l c) x == (l x) c: multiplication is associative and commutative. */
  lemma CMulSwap(l: Complex, c: Complex, x: Complex)
    ensures CMul(CMul(l, c), x) == CMul(CMul(l, x), c)
  {
    var lc, lx := CMul(l, c), CMul(l, x);
    assert lc.re * x.re - lc.im * x.im == lx.re * c.re - lx.im * c.im by {
      assert lc.re * x.re == (l.re * c.re - l.im * c.im) * x.re;
      assert lc.im * x.im == (l.re * c.im + l.im * c.re) * x.im;
      assert lx.re * c.re == (l.re * x.re - l.im * x.im) * c.re;
      assert lx.im * c.im == (l.re * x.im + l.im * x.re) * c.im;
    }
    assert lc.re * x.im + lc.im * x.re == lx.re * c.im + lx.im * c.re by {
      assert lc.re * x.im == (l.re * c.re - l.im * c.im) * x.im;
      assert lc.im * x.re == (l.re * c.im + l.im * c.re) * x.re;
      assert lx.re * c.im == (l.re * x.re - l.im * x.im) * c.im;
      assert lx.im * c.re == (l.re * x.im + l.im * x.re) * c.re;
    }
  }

  lemma CMulComm(a: Complex, b: Complex)
    ensures CMul(a, b) == CMul(b, a)
  {
  }

  lemma CMulAssoc(a: Complex, b: Complex, c: Complex)
    ensures CMul(CMul(a, b), c) == CMul(a, CMul(b, c))
  {
    var ab, bc := CMul(a, b), CMul(b, c);
    assert ab.re * c.re - ab.im * c.im == a.re * bc.re - a.im * bc.im by {
      assert ab.re * c.re == (a.re * b.re - a.im * b.im) * c.re;
      assert ab.im * c.im == (a.re * b.im + a.im * b.re) * c.im;
      assert a.re * bc.re == a.re * (b.re * c.re - b.im * c.im);
      assert a.im * bc.im == a.im * (b.re * c.im + b.im * c.re);
    }
    assert ab.re * c.im + ab.im * c.re == a.re * bc.im + a.im * bc.re by {
      assert ab.re * c.im == (a.re * b.re - a.im * b.im) * c.im;
      assert ab.im * c.re == (a.re * b.im + a.im * b.re) * c.re;
      assert a.re * bc.im == a.re * (b.re * c.im + b.im * c.re);
      assert a.im * bc.re == a.im * (b.re * c.re - b.im * c.im);
    }
  }

  /** The squared modulus |z|^2; it orders numbers exactly as |z| does. */
  function Mag2(z: Complex): real {
    z.re * z.re + z.im * z.im
  }

  /** numpy's order on complex numbers: by real part, then by imaginary part. */
  function ValueKey(z: Complex): Key {
    Key(z.re, z.im)
  }

  /** The order of the conjugates, as in argsort(values.conj()). */
  function ConjKey(z: Complex): Key {
    ValueKey(Conj(z))
  }

  /** Decreasing magnitude first: the order in which topk returns |values|. */
  function MagnitudeKey(z: Complex): Key {
    Key(-Mag2(z), 0.0)
  }

  function Conjugates(s: seq<Complex>): (r: seq<Complex>)
    ensures |r| == |s| && forall i :: 0 <= i < |s| ==> r[i] == Conj(s[i])
  {
    seq(|s|, i requires 0 <= i < |s| => Conj(s[i]))
  }

  /** The real parts, in order (the .real of a complex array). */
  function RealParts(zs: seq<Complex>): (xs: seq<real>)
    ensures |xs| == |zs| && forall i :: 0 <= i < |zs| ==> xs[i] == zs[i].re
  {
    seq(|zs|, i requires 0 <= i < |zs| => zs[i].re)
  }

  /**
   * 1/x, except that x == 0 gives 0 instead of a division by zero
   * (np.where(x == 0, 0, x**-1)).
   */
  function SafeReciprocal(x: real): (r: real)
    ensures x == 0.0 ==> r == 0.0
    ensures x != 0.0 ==> r * x == 1.0
  {
    if x == 0.0 then 0.0 else 1.0 / x
  }

  /**
   * The complex form of SafeReciprocal: |z| == 0 gives 0. The test is made on
   * |z|^2, which vanishes exactly when |z| does.
   */
  function SafeCReciprocal(z: Complex): (r: Complex)
    ensures z == Zero ==> r == Zero
    ensures Mag2(z) == 0.0 ==> r == Zero
    ensures Mag2(z) != 0.0 ==> CMul(z, r) == One
  {
    var m := Mag2(z);
    if m == 0.0 then Zero
    else
      var inv := 1.0 / m;
      var r := Complex(z.re * inv, -z.im * inv);
      assert m * inv == 1.0;
      assert CMul(z, r).re == (z.re * z.re + z.im * z.im) * inv;
      assert CMul(z, r).im == (z.im * z.re - z.re * z.im) * inv;
      r
  }

  /** A complex matrix, held as its real and imaginary parts. */
  datatype CMat = CMat(re: Matrix, im: Matrix)
  {
    predicate Valid() {
      re.rows == im.rows && re.cols == im.cols
    }

    function Rows(): nat { re.rows }
    function Cols(): nat { re.cols }

    function CAt(i: int, j: int): Complex {
      Complex(re.At(i, j), im.At(i, j))
    }
  }

  function CSelectColumns(A: CMat, p: seq<int>): (B: CMat)
    requires A.Valid()
    requires forall j :: 0 <= j < |p| ==> 0 <= p[j] < A.Cols()
    ensures B.Valid() && B.Rows() == A.Rows() && B.Cols() == |p|
    ensures forall i: nat, j: nat :: i < A.Rows() && j < |p| ==> B.CAt(i, j) == A.CAt(i, p[j])
  {
    assert A.Cols() == A.re.cols == A.im.cols;
    assert forall j :: 0 <= j < |p| ==> 0 <= p[j] < A.Cols();
    CMat(SelectColumns(A.re, p), SelectColumns(A.im, p))
  }

  function CTakeColumns(A: CMat, k: nat): (B: CMat)
    requires A.Valid() && k <= A.Cols()
    ensures B.Valid() && B.Rows() == A.Rows() && B.Cols() == k
    ensures forall i: nat, j: nat :: i < A.Rows() && j < k ==> B.CAt(i, j) == A.CAt(i, j)
  {
    CMat(TakeColumns(A.re, k), TakeColumns(A.im, k))
  }

  /** Column j of A multiplied by the real c[j]. */
  function CScaleColumns(A: CMat, c: seq<real>): (B: CMat)
    requires A.Valid() && |c| == A.Cols()
    ensures B.Valid() && B.Rows() == A.Rows() && B.Cols() == A.Cols()
    ensures forall i: nat, j: nat :: i < A.Rows() && j < A.Cols() ==>
      B.CAt(i, j) == Complex(A.CAt(i, j).re * c[j], A.CAt(i, j).im * c[j])
  {
    CMat(ScaleColumns(A.re, c), ScaleColumns(A.im, c))
  }

  /** Column j of A multiplied by the complex c[j]. */
  function CScaleColumnsC(A: CMat, c: seq<Complex>): (B: CMat)
    requires A.Valid() && |c| == A.Cols()
    ensures B.Valid() && B.Rows() == A.Rows() && B.Cols() == A.Cols()
    ensures forall i: nat, j: nat :: i < A.Rows() && j < A.Cols() ==> B.CAt(i, j) == CMul(A.CAt(i, j), c[j])
  {
    CMat(
      Build(A.Rows(), A.Cols(), (i, j) => if 0 <= j < |c| then CMul(A.CAt(i, j), c[j]).re else 0.0),
      Build(A.Rows(), A.Cols(), (i, j) => if 0 <= j < |c| then CMul(A.CAt(i, j), c[j]).im else 0.0))
  }

  /** The product K C of a real and a complex matrix. */
  function RMulC(K: Matrix, C: CMat): (P: CMat)
    requires C.Valid() && K.cols == C.Rows()
    ensures P.Valid() && P.Rows() == K.rows && P.Cols() == C.Cols()
  {
    CMat(Mul(K, C.re), Mul(K, C.im))
  }
}
