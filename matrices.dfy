/**
 * Dense real matrices as used by the dual estimators: finite index sums,
 * products, transposes, scalings, integer powers and traces, with the
 * algebraic laws the estimators rely on (associativity of the product,
 * identity, additivity of powers, cyclicity of the trace).
 *
 * A matrix keeps its shape explicitly, so an n x 0 or 0 x n matrix (a rank-0
 * projection) still multiplies to a product of the right shape.
 */
module Matrices {

  /** The finite sum f(0) + ... + f(n-1). */
  function Sum(n: nat, f: int -> real): real
    decreases n
  {
    if n == 0 then 0.0 else Sum(n - 1, f) + f(n - 1)
  }

  lemma {:induction false} SumExt(n: nat, f: int -> real, g: int -> real)
    requires forall k :: 0 <= k < n ==> f(k) == g(k)
    ensures Sum(n, f) == Sum(n, g)
  {
    if n > 0 {
      SumExt(n - 1, f, g);
    }
  }

  lemma {:induction false} SumZero(n: nat, f: int -> real)
    requires forall k :: 0 <= k < n ==> f(k) == 0.0
    ensures Sum(n, f) == 0.0
  {
    if n > 0 {
      SumZero(n - 1, f);
    }
  }

  /** A sum whose terms vanish except at position p. */
  lemma {:induction false} SumSingle(n: nat, f: int -> real, p: nat)
    requires p < n
    requires forall k :: 0 <= k < n && k != p ==> f(k) == 0.0
    ensures Sum(n, f) == f(p)
  {
    if n - 1 == p {
      SumZero(n - 1, f);
    } else {
      SumSingle(n - 1, f, p);
    }
  }

  lemma {:induction false} SumScale(n: nat, c: real, f: int -> real, g: int -> real)
    requires forall k :: 0 <= k < n ==> g(k) == c * f(k)
    ensures Sum(n, g) == c * Sum(n, f)
  {
    if n > 0 {
      SumScale(n - 1, c, f, g);
    }
  }

  lemma {:induction false} SumAdd(n: nat, f: int -> real, g: int -> real, h: int -> real)
    requires forall k :: 0 <= k < n ==> h(k) == f(k) + g(k)
    ensures Sum(n, h) == Sum(n, f) + Sum(n, g)
  {
    if n > 0 {
      SumAdd(n - 1, f, g, h);
    }
  }

  lemma {:induction false} SumNonNegative(n: nat, f: int -> real)
    requires forall k :: 0 <= k < n ==> 0.0 <= f(k)
    ensures 0.0 <= Sum(n, f)
  {
    if n > 0 {
      SumNonNegative(n - 1, f);
    }
  }

  /** Exchanging the order of a double sum. */
  lemma {:induction false} SumSwap(n: nat, m: nat, g: (int, int) -> real, F: int -> real, G: int -> real)
    requires forall i :: 0 <= i < n ==> F(i) == Sum(m, j => g(i, j))
    requires forall j :: 0 <= j < m ==> G(j) == Sum(n, i => g(i, j))
    ensures Sum(n, F) == Sum(m, G)
  {
    if n == 0 {
      SumZero(m, G);
    } else {
      var G' := j => Sum(n - 1, i => g(i, j));
      SumSwap(n - 1, m, g, F, G');
      SumAdd(m, G', j => g(n - 1, j), G);
    }
  }

  datatype Mat = Mat(rows: nat, cols: nat, e: seq<seq<real>>)
  {
    predicate Valid() {
      |e| == rows && forall i :: 0 <= i < |e| ==> |e[i]| == cols
    }

    /** Entry (i, j); 0 outside the matrix, so that index sums need no guards. */
    function At(i: int, j: int): real {
      if 0 <= i < |e| && 0 <= j < |e[i]| then e[i][j] else 0.0
    }
  }

  type Matrix = m: Mat | m.Valid() witness Mat(0, 0, [])

  predicate IsSquare(A: Matrix) {
    A.rows == A.cols
  }

  /** The r x c matrix whose entry (i, j) is f(i, j). */
  function Build(r: nat, c: nat, f: (int, int) -> real): (m: Matrix)
    ensures m.rows == r && m.cols == c
    ensures forall i: nat, j: nat :: i < r && j < c ==> m.At(i, j) == f(i, j)
  {
    Mat(r, c, seq(r, i => seq(c, j => f(i, j))))
  }

  /** Matrices are equal when their shapes and entries are. */
  lemma Ext(A: Matrix, B: Matrix)
    requires A.rows == B.rows && A.cols == B.cols
    requires forall i: nat, j: nat :: i < A.rows && j < A.cols ==> A.At(i, j) == B.At(i, j)
    ensures A == B
  {
    assert |A.e| == |B.e|;
    forall i | 0 <= i < |A.e|
      ensures A.e[i] == B.e[i]
    {
      forall j | 0 <= j < A.cols
        ensures A.e[i][j] == B.e[i][j]
      {
        assert A.At(i, j) == B.At(i, j);
      }
    }
  }

  function Zeros(r: nat, c: nat): (Z: Matrix)
    ensures Z.rows == r && Z.cols == c
    ensures forall i, j :: Z.At(i, j) == 0.0
  {
    Build(r, c, (i, j) => 0.0)
  }

  function Identity(n: nat): (I: Matrix)
    ensures I.rows == n && I.cols == n
    ensures forall i: nat, j: nat :: i < n && j < n ==> I.At(i, j) == if i == j then 1.0 else 0.0
  {
    Build(n, n, (i, j) => if i == j then 1.0 else 0.0)
  }

  function Scale(c: real, A: Matrix): (B: Matrix)
    ensures B.rows == A.rows && B.cols == A.cols
    ensures forall i: nat, j: nat :: i < A.rows && j < A.cols ==> B.At(i, j) == c * A.At(i, j)
  {
    Build(A.rows, A.cols, (i, j) => c * A.At(i, j))
  }

  function Add(A: Matrix, B: Matrix): (C: Matrix)
    requires A.rows == B.rows && A.cols == B.cols
    ensures C.rows == A.rows && C.cols == A.cols
    ensures forall i: nat, j: nat :: i < A.rows && j < A.cols ==> C.At(i, j) == A.At(i, j) + B.At(i, j)
  {
    Build(A.rows, A.cols, (i, j) => A.At(i, j) + B.At(i, j))
  }

  function Transpose(A: Matrix): (T: Matrix)
    ensures T.rows == A.cols && T.cols == A.rows
    ensures forall i: nat, j: nat :: i < A.cols && j < A.rows ==> T.At(i, j) == A.At(j, i)
  {
    Build(A.cols, A.rows, (i, j) => A.At(j, i))
  }

  /** Entry (i, j) of the product A B. */
  function Dot(A: Matrix, B: Matrix, i: int, j: int): real {
    Sum(A.cols, k => A.At(i, k) * B.At(k, j))
  }

  function Mul(A: Matrix, B: Matrix): (C: Matrix)
    requires A.cols == B.rows
    ensures C.rows == A.rows && C.cols == B.cols
    ensures forall i: nat, j: nat :: i < A.rows && j < B.cols ==> C.At(i, j) == Dot(A, B, i, j)
  {
    Build(A.rows, B.cols, (i, j) => Dot(A, B, i, j))
  }

  function Trace(A: Matrix): real
    requires IsSquare(A)
  {
    Sum(A.rows, i => A.At(i, i))
  }

  /** A^k, with A^0 the identity. */
  function MatPow(A: Matrix, k: nat): (P: Matrix)
    requires IsSquare(A)
    ensures P.rows == A.rows && P.cols == A.rows
    decreases k
  {
    if k == 0 then Identity(A.rows) else Mul(A, MatPow(A, k - 1))
  }

  /** Columns p[0], p[1], ... of A, in that order (A[:, p] in numpy). */
  function SelectColumns(A: Matrix, p: seq<int>): (B: Matrix)
    requires forall j :: 0 <= j < |p| ==> 0 <= p[j] < A.cols
    ensures B.rows == A.rows && B.cols == |p|
    ensures forall i: nat, j: nat :: i < A.rows && j < |p| ==> B.At(i, j) == A.At(i, p[j])
  {
    Build(A.rows, |p|, (i, j) => if 0 <= j < |p| then A.At(i, p[j]) else 0.0)
  }

  /** The first k columns of A (A[:, :k]). */
  function TakeColumns(A: Matrix, k: nat): (B: Matrix)
    requires k <= A.cols
    ensures B.rows == A.rows && B.cols == k
    ensures forall i: nat, j: nat :: i < A.rows && j < k ==> B.At(i, j) == A.At(i, j)
  {
    Build(A.rows, k, (i, j) => A.At(i, j))
  }

  /** A with zero columns appended up to width w (np.c_[A, zeros]); unchanged if already wide enough. */
  function PadColumns(A: Matrix, w: nat): (B: Matrix)
    ensures B.rows == A.rows && B.cols == if A.cols < w then w else A.cols
    ensures forall i: nat, j: nat :: i < A.rows && j < A.cols ==> B.At(i, j) == A.At(i, j)
    ensures forall i: nat, j: nat :: i < A.rows && A.cols <= j < B.cols ==> B.At(i, j) == 0.0
  {
    Build(A.rows, if A.cols < w then w else A.cols, (i, j) => A.At(i, j))
  }

  /** Column j of A multiplied by c[j] (A * c with numpy broadcasting). */
  function ScaleColumns(A: Matrix, c: seq<real>): (B: Matrix)
    requires |c| == A.cols
    ensures B.rows == A.rows && B.cols == A.cols
    ensures forall i: nat, j: nat :: i < A.rows && j < A.cols ==> B.At(i, j) == A.At(i, j) * c[j]
  {
    Build(A.rows, A.cols, (i, j) => if 0 <= j < |c| then A.At(i, j) * c[j] else 0.0)
  }

  predicate IsSymmetric(A: Matrix) {
    IsSquare(A) && forall i, j :: 0 <= i < A.rows && 0 <= j < A.rows ==> A.At(i, j) == A.At(j, i)
  }

  lemma MulAssocAt(A: Matrix, B: Matrix, C: Matrix, i: nat, j: nat)
    requires A.cols == B.rows && B.cols == C.rows
    requires i < A.rows && j < C.cols
    ensures Mul(Mul(A, B), C).At(i, j) == Mul(A, Mul(B, C)).At(i, j)
  {
    var AB, BC := Mul(A, B), Mul(B, C);
    var g := (l: int, k: int) => A.At(i, k) * B.At(k, l) * C.At(l, j);
    var F := (l: int) => AB.At(i, l) * C.At(l, j);
    var G := (k: int) => A.At(i, k) * BC.At(k, j);
    forall l: nat | l < B.cols
      ensures F(l) == Sum(A.cols, k => g(l, k))
    {
      SumScale(A.cols, C.At(l, j), k => A.At(i, k) * B.At(k, l), k => g(l, k));
    }
    forall k: nat | k < A.cols
      ensures G(k) == Sum(B.cols, l => g(l, k))
    {
      SumScale(B.cols, A.At(i, k), l => B.At(k, l) * C.At(l, j), l => g(l, k));
    }
    SumSwap(B.cols, A.cols, g, F, G);
    SumExt(B.cols, F, l => AB.At(i, l) * C.At(l, j));
    SumExt(A.cols, G, k => A.At(i, k) * BC.At(k, j));
  }

  lemma MulAssoc(A: Matrix, B: Matrix, C: Matrix)
    requires A.cols == B.rows && B.cols == C.rows
    ensures Mul(Mul(A, B), C) == Mul(A, Mul(B, C))
  {
    forall i: nat, j: nat | i < A.rows && j < C.cols
      ensures Mul(Mul(A, B), C).At(i, j) == Mul(A, Mul(B, C)).At(i, j)
    {
      MulAssocAt(A, B, C, i, j);
    }
    Ext(Mul(Mul(A, B), C), Mul(A, Mul(B, C)));
  }

  lemma MulIdentityLeft(A: Matrix)
    ensures Mul(Identity(A.rows), A) == A
  {
    var I := Identity(A.rows);
    forall i: nat, j: nat | i < A.rows && j < A.cols
      ensures Mul(I, A).At(i, j) == A.At(i, j)
    {
      SumSingle(A.rows, k => I.At(i, k) * A.At(k, j), i);
    }
    Ext(Mul(I, A), A);
  }

  lemma MulIdentityRight(A: Matrix)
    ensures Mul(A, Identity(A.cols)) == A
  {
    var I := Identity(A.cols);
    forall i: nat, j: nat | i < A.rows && j < A.cols
      ensures Mul(A, I).At(i, j) == A.At(i, j)
    {
      SumSingle(A.cols, k => A.At(i, k) * I.At(k, j), j);
    }
    Ext(Mul(A, I), A);
  }

  lemma MulScaleLeft(c: real, A: Matrix, B: Matrix)
    requires A.cols == B.rows
    ensures Mul(Scale(c, A), B) == Scale(c, Mul(A, B))
  {
    var SA := Scale(c, A);
    forall i: nat, j: nat | i < A.rows && j < B.cols
      ensures Mul(SA, B).At(i, j) == Scale(c, Mul(A, B)).At(i, j)
    {
      SumScale(A.cols, c, k => A.At(i, k) * B.At(k, j), k => SA.At(i, k) * B.At(k, j));
    }
    Ext(Mul(SA, B), Scale(c, Mul(A, B)));
  }

  lemma MulScaleRight(c: real, A: Matrix, B: Matrix)
    requires A.cols == B.rows
    ensures Mul(A, Scale(c, B)) == Scale(c, Mul(A, B))
  {
    var SB := Scale(c, B);
    forall i: nat, j: nat | i < A.rows && j < B.cols
      ensures Mul(A, SB).At(i, j) == Scale(c, Mul(A, B)).At(i, j)
    {
      SumScale(A.cols, c, k => A.At(i, k) * B.At(k, j), k => A.At(i, k) * SB.At(k, j));
    }
    Ext(Mul(A, SB), Scale(c, Mul(A, B)));
  }

  lemma ScaleScale(c: real, d: real, A: Matrix)
    ensures Scale(c, Scale(d, A)) == Scale(c * d, A)
  {
    Ext(Scale(c, Scale(d, A)), Scale(c * d, A));
  }

  /** Powers of a square matrix compose additively: A^(a+b) = A^a A^b. */
  lemma {:induction false} MatPowAdd(A: Matrix, a: nat, b: nat)
    requires IsSquare(A)
    ensures MatPow(A, a + b) == Mul(MatPow(A, a), MatPow(A, b))
  {
    if a == 0 {
      MulIdentityLeft(MatPow(A, b));
    } else {
      MatPowAdd(A, a - 1, b);
      MulAssoc(A, MatPow(A, a - 1), MatPow(A, b));
    }
  }

  /** The trace is invariant under cyclic shifts: tr(A B) = tr(B A). */
  lemma TraceCyclic(A: Matrix, B: Matrix)
    requires A.cols == B.rows && B.cols == A.rows
    ensures Trace(Mul(A, B)) == Trace(Mul(B, A))
  {
    var AB, BA := Mul(A, B), Mul(B, A);
    var g := (i: int, k: int) => A.At(i, k) * B.At(k, i);
    forall i | 0 <= i < A.rows
      ensures AB.At(i, i) == Sum(A.cols, k => g(i, k))
    {
      SumExt(A.cols, k => A.At(i, k) * B.At(k, i), k => g(i, k));
    }
    forall k | 0 <= k < A.cols
      ensures BA.At(k, k) == Sum(A.rows, i => g(i, k))
    {
      SumExt(A.rows, i => B.At(k, i) * A.At(i, k), i => g(i, k));
    }
    SumSwap(A.rows, A.cols, g, i => AB.At(i, i), k => BA.At(k, k));
  }

  /** (A B)^T = B^T A^T. */
  lemma TransposeMul(A: Matrix, B: Matrix)
    requires A.cols == B.rows
    ensures Transpose(Mul(A, B)) == Mul(Transpose(B), Transpose(A))
  {
    var Bt, At := Transpose(B), Transpose(A);
    forall i: nat, j: nat | i < B.cols && j < A.rows
      ensures Transpose(Mul(A, B)).At(i, j) == Mul(Bt, At).At(i, j)
    {
      SumExt(A.cols, k => A.At(j, k) * B.At(k, i), k => Bt.At(i, k) * At.At(k, j));
    }
    Ext(Transpose(Mul(A, B)), Mul(Bt, At));
  }

  /** Sums and scalar multiples of symmetric matrices are symmetric. */
  lemma AddScaleSymmetric(A: Matrix, c: real, B: Matrix)
    requires IsSymmetric(A) && IsSymmetric(B) && A.rows == B.rows
    ensures IsSymmetric(Add(A, Scale(c, B)))
  {
    var S := Scale(c, B);
    var C := Add(A, S);
    forall i, j | 0 <= i < C.rows && 0 <= j < C.rows
      ensures C.At(i, j) == C.At(j, i)
    {
      assert S.At(i, j) == S.At(j, i);
    }
  }

  /** A square matrix is symmetric exactly when it equals its transpose. */
  lemma SymmetricIffTransposeFixed(A: Matrix)
    requires IsSquare(A)
    ensures IsSymmetric(A) <==> Transpose(A) == A
  {
    if IsSymmetric(A) {
      Ext(Transpose(A), A);
    }
    if Transpose(A) == A {
      forall i, j | 0 <= i < A.rows && 0 <= j < A.rows
        ensures A.At(i, j) == A.At(j, i)
      {
        assert Transpose(A).At(i, j) == A.At(j, i);
      }
    }
  }

  lemma MulZerosLeft(r: nat, A: Matrix)
    ensures Mul(Zeros(r, A.rows), A) == Zeros(r, A.cols)
  {
    var Z := Zeros(r, A.rows);
    forall i: nat, j: nat | i < r && j < A.cols
      ensures Mul(Z, A).At(i, j) == 0.0
    {
      SumZero(A.rows, k => Z.At(i, k) * A.At(k, j));
    }
    Ext(Mul(Z, A), Zeros(r, A.cols));
  }

  lemma MulZerosRight(A: Matrix, c: nat)
    ensures Mul(A, Zeros(A.cols, c)) == Zeros(A.rows, c)
  {
    var Z := Zeros(A.cols, c);
    forall i: nat, j: nat | i < A.rows && j < c
      ensures Mul(A, Z).At(i, j) == 0.0
    {
      SumZero(A.cols, k => A.At(i, k) * Z.At(k, j));
    }
    Ext(Mul(A, Z), Zeros(A.rows, c));
  }

  lemma TraceZeros(n: nat)
    ensures Trace(Zeros(n, n)) == 0.0
  {
    SumZero(n, i => Zeros(n, n).At(i, i));
  }

  /** Factors that can be multiplied in a row: each one's columns match the next one's rows. */
  predicate Chained(ms: seq<Matrix>) {
    forall i :: 0 <= i < |ms| - 1 ==> ms[i].cols == ms[i + 1].rows
  }

  /** multi_dot: the product of a list of factors, taken left to right. */
  function MultiDot(ms: seq<Matrix>): (P: Matrix)
    requires |ms| > 0 && Chained(ms)
    ensures P.rows == ms[0].rows && P.cols == ms[|ms| - 1].cols
    decreases |ms|
  {
    if |ms| == 1 then ms[0] else Mul(MultiDot(ms[..|ms| - 1]), ms[|ms| - 1])
  }

  /** Scaling a factor keeps the shapes, so the factors stay chained. */
  lemma ScaledFactorChained(ms: seq<Matrix>, p: nat, c: real)
    requires Chained(ms) && p < |ms|
    ensures Chained(ms[p := Scale(c, ms[p])])
  {
    var ms' := ms[p := Scale(c, ms[p])];
    assert forall i :: 0 <= i < |ms| ==> ms'[i].rows == ms[i].rows && ms'[i].cols == ms[i].cols;
  }

  /** The last step of the product: all factors but the last, times the last. */
  lemma MultiDotLast(ms: seq<Matrix>)
    requires |ms| > 1 && Chained(ms)
    ensures Chained(ms[..|ms| - 1])
    ensures MultiDot(ms) == Mul(MultiDot(ms[..|ms| - 1]), ms[|ms| - 1])
  {
  }

  /** Scaling any one factor by c scales the product by c. */
  lemma {:induction false} MultiDotScaled(ms: seq<Matrix>, p: nat, c: real)
    requires |ms| > 0 && Chained(ms) && p < |ms|
    ensures Chained(ms[p := Scale(c, ms[p])])
    ensures MultiDot(ms[p := Scale(c, ms[p])]) == Scale(c, MultiDot(ms))
    decreases |ms|, 1
  {
    ScaledFactorChained(ms, p, c);
    var n := |ms|;
    if n > 1 {
      var ms' := ms[p := Scale(c, ms[p])];
      MultiDotLast(ms);
      MultiDotLast(ms');
      if p == n - 1 {
        assert ms'[..n - 1] == ms[..n - 1];
        MulScaleRight(c, MultiDot(ms[..n - 1]), ms[n - 1]);
      } else {
        MultiDotScaledFront(ms, p, c);
      }
    }
  }

  /** The inductive step of MultiDotScaled, for a factor before the last. */
  lemma {:induction false} MultiDotScaledFront(ms: seq<Matrix>, p: nat, c: real)
    requires |ms| > 1 && Chained(ms) && p < |ms| - 1
    ensures Chained(ms[p := Scale(c, ms[p])])
    ensures MultiDot(ms[p := Scale(c, ms[p])]) == Scale(c, MultiDot(ms))
    decreases |ms|, 0
  {
    var n := |ms|;
    var ms' := ms[p := Scale(c, ms[p])];
    ScaledFactorChained(ms, p, c);
    MultiDotLast(ms);
    MultiDotLast(ms');
    assert ms'[..n - 1] == ms[..n - 1][p := Scale(c, ms[p])];
    assert ms'[n - 1] == ms[n - 1];
    MultiDotScaled(ms[..n - 1], p, c);
    MulScaleLeft(c, MultiDot(ms[..n - 1]), ms[n - 1]);
  }

  /** A zero factor anywhere makes the whole product zero. */
  lemma {:induction false} MultiDotZero(ms: seq<Matrix>, p: nat)
    requires |ms| > 0 && Chained(ms) && p < |ms|
    requires ms[p] == Zeros(ms[p].rows, ms[p].cols)
    ensures MultiDot(ms) == Zeros(ms[0].rows, ms[|ms| - 1].cols)
  {
    var n := |ms|;
    if n > 1 {
      var front := MultiDot(ms[..n - 1]);
      if p == n - 1 {
        MulZerosRight(front, ms[n - 1].cols);
      } else {
        MultiDotZero(ms[..n - 1], p);
        MulZerosLeft(ms[0].rows, ms[n - 1]);
      }
    }
  }

  lemma TraceScale(c: real, A: Matrix)
    requires IsSquare(A)
    ensures Trace(Scale(c, A)) == c * Trace(A)
  {
    var S := Scale(c, A);
    SumScale(A.rows, c, i => A.At(i, i), i => S.At(i, i));
  }

  /** A trace whose diagonal entries are all non-negative is non-negative. */
  lemma TraceNonNegative(A: Matrix)
    requires IsSquare(A)
    requires forall i: nat :: i < A.rows ==> 0.0 <= A.At(i, i)
    ensures 0.0 <= Trace(A)
  {
    SumNonNegative(A.rows, i => A.At(i, i));
  }

  lemma TransposeScale(c: real, A: Matrix)
    ensures Transpose(Scale(c, A)) == Scale(c, Transpose(A))
  {
    Ext(Transpose(Scale(c, A)), Scale(c, Transpose(A)));
  }
}
