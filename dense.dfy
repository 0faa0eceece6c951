/**
 * Reference definitions for dense vectors (`seq<real>`, a PHP list of
 * numbers) and matrices (`seq<seq<real>>`, a PHP list of rows), against
 * which the namespaces' loops are proved.
 */
module Dense {

  /** `$x[$i]` in arithmetic: a missing key reads as `null`, which PHP adds and multiplies as 0. */
  function At(x: seq<real>, i: nat): real {
    if i < |x| then x[i] else 0.0
  }

  /** `xs[0][i] + xs[1][i] + ...`, accumulated left to right. */
  function ColumnSum(xs: seq<seq<real>>, i: nat): real {
    if xs == [] then 0.0 else ColumnSum(xs[..|xs| - 1], i) + At(xs[|xs| - 1], i)
  }

  /** `xs[0][i] * xs[1][i] * ...`, accumulated left to right. */
  function ColumnProduct(xs: seq<seq<real>>, i: nat): real {
    if xs == [] then 1.0 else ColumnProduct(xs[..|xs| - 1], i) * At(xs[|xs| - 1], i)
  }

  /** `v[0]*w[0] + v[1]*w[1] + ...`, accumulated left to right. */
  function Dot(v: seq<real>, w: seq<real>): real
    requires |v| == |w|
  {
    if v == [] then 0.0 else Dot(v[..|v| - 1], w[..|w| - 1]) + v[|v| - 1] * w[|w| - 1]
  }

  /** The number of columns: the length of the first row, `count($A[0])`. */
  function Width(A: seq<seq<real>>): nat {
    if A == [] then 0 else |A[0]|
  }

  /** Every row is as wide as the first. */
  predicate Rectangular(A: seq<seq<real>>) {
    forall i :: 0 <= i < |A| ==> |A[i]| == Width(A)
  }

  /** Column `j` of a rectangular matrix. */
  function Column(A: seq<seq<real>>, j: nat): seq<real>
    requires Rectangular(A) && j < Width(A)
  {
    seq(|A|, i requires 0 <= i < |A| => A[i][j])
  }

  /** The matrix-vector product `M x`: entry `i` is the dot product of row `i` with `x`. */
  function MatVec(M: seq<seq<real>>, x: seq<real>): seq<real>
    requires Rectangular(M) && (M != [] ==> Width(M) == |x|)
  {
    seq(|M|, i requires 0 <= i < |M| => Dot(M[i], x))
  }

  /** The transpose: row `j` of the result is column `j` of `A`. */
  function Transposed(A: seq<seq<real>>): seq<seq<real>>
    requires Rectangular(A)
  {
    seq(Width(A), j requires 0 <= j < Width(A) => Column(A, j))
  }

  /** Shapes that can be multiplied: the columns of `A` are as many as the rows of `B`. */
  predicate Multipliable(A: seq<seq<real>>, B: seq<seq<real>>) {
    Rectangular(A) && Rectangular(B) && (A != [] ==> B != [] && Width(A) == |B|)
  }

  /** The matrix product: entry `(i, j)` is `Σ_k A[i][k] * B[k][j]`. */
  function MatrixProduct(A: seq<seq<real>>, B: seq<seq<real>>): seq<seq<real>>
    requires Multipliable(A, B)
  {
    seq(|A|, i requires 0 <= i < |A| =>
      seq(Width(B), j requires 0 <= j < Width(B) => Dot(A[i], Column(B, j))))
  }

  /** The list of `n` zeros, `array_fill(0, n, 0)`. */
  function Zeros(n: nat): (z: seq<real>)
    ensures |z| == n && forall i :: 0 <= i < n ==> z[i] == 0.0
  {
    seq(n, i => 0.0)
  }

  // ---------------------------------------------------------------------
  // Stepping lemmas used by the loops that accumulate these sums.

  lemma ColumnSumStep(xs: seq<seq<real>>, j: nat, i: nat)
    requires j < |xs|
    ensures ColumnSum(xs[..j + 1], i) == ColumnSum(xs[..j], i) + At(xs[j], i)
  {
    assert xs[..j + 1][..j] == xs[..j];
  }

  lemma ColumnProductStep(xs: seq<seq<real>>, j: nat, i: nat)
    requires j < |xs|
    ensures ColumnProduct(xs[..j + 1], i) == ColumnProduct(xs[..j], i) * At(xs[j], i)
  {
    assert xs[..j + 1][..j] == xs[..j];
  }

  lemma DotStep(v: seq<real>, w: seq<real>, j: nat)
    requires |v| == |w| && j < |v|
    ensures Dot(v[..j + 1], w[..j + 1]) == Dot(v[..j], w[..j]) + v[j] * w[j]
  {
    assert v[..j + 1][..j] == v[..j];
    assert w[..j + 1][..j] == w[..j];
  }

  // ---------------------------------------------------------------------
  // Properties of the reference definitions.

  /** Prepending a vector adds its component in front of the rest of the column sum. */
  lemma {:induction false} ColumnSumCons(a: seq<real>, xs: seq<seq<real>>, i: nat)
    ensures ColumnSum([a] + xs, i) == At(a, i) + ColumnSum(xs, i)
  {
    if xs != [] {
      var ys := [a] + xs;
      assert ys[..|ys| - 1] == [a] + xs[..|xs| - 1];
      ColumnSumCons(a, xs[..|xs| - 1], i);
    }
  }

  /** Prepending a vector multiplies its component in front of the rest of the column product. */
  lemma {:induction false} ColumnProductCons(a: seq<real>, xs: seq<seq<real>>, i: nat)
    ensures ColumnProduct([a] + xs, i) == At(a, i) * ColumnProduct(xs, i)
  {
    if xs != [] {
      var ys := [a] + xs;
      assert ys[..|ys| - 1] == [a] + xs[..|xs| - 1];
      ColumnProductCons(a, xs[..|xs| - 1], i);
    }
  }

  /** The dot product does not depend on the order of its operands. */
  lemma {:induction false} DotCommutes(v: seq<real>, w: seq<real>)
    requires |v| == |w|
    ensures Dot(v, w) == Dot(w, v)
  {
    if v != [] {
      DotCommutes(v[..|v| - 1], w[..|w| - 1]);
    }
  }

  /** The row vector `b A` for a matrix whose rows all have `n` entries: entry `j` is `Σ_i b[i] * A[i][j]`. */
  ghost function VecMat(b: seq<real>, A: seq<seq<real>>, n: nat): seq<real>
    requires |b| == |A| && forall i :: 0 <= i < |A| ==> |A[i]| == n
  {
    seq(n, j requires 0 <= j < n => Dot(b, seq(|A|, i requires 0 <= i < |A| => A[i][j])))
  }

  /** The dot product with the zero vector is zero. */
  lemma {:induction false} DotZeros(n: nat, x: seq<real>)
    requires |x| == n
    ensures Dot(Zeros(n), x) == 0.0
  {
    if n > 0 {
      assert Zeros(n)[..n - 1] == Zeros(n - 1);
      DotZeros(n - 1, x[..n - 1]);
    }
  }

  /** The vector `u + c a`. */
  function AddScaled(u: seq<real>, c: real, a: seq<real>): seq<real>
    requires |u| == |a|
  {
    seq(|u|, j requires 0 <= j < |u| => u[j] + c * a[j])
  }

  /** The dot product is linear in its first operand: `(u + c a)·x == u·x + c (a·x)`. */
  lemma {:induction false} DotAddScaled(u: seq<real>, c: real, a: seq<real>, x: seq<real>)
    requires |u| == |a| == |x|
    ensures Dot(AddScaled(u, c, a), x) == Dot(u, x) + c * Dot(a, x)
  {
    var n := |u|;
    if n > 0 {
      var s := AddScaled(u, c, a);
      var u', a', x' := u[..n - 1], a[..n - 1], x[..n - 1];
      var t := AddScaled(u', c, a');
      forall j | 0 <= j < n - 1 ensures s[..n - 1][j] == t[j] {
      }
      assert s[..n - 1] == t;
      DotAddScaled(u', c, a', x');
      assert s[n - 1] * x[n - 1] == u[n - 1] * x[n - 1] + c * (a[n - 1] * x[n - 1]);
    }
  }

  /** Removing the last row of `A` removes the last entry of `A x`. */
  lemma {:induction false} MatVecStep(A: seq<seq<real>>, x: seq<real>)
    requires A != [] && forall i :: 0 <= i < |A| ==> |A[i]| == |x|
    ensures Rectangular(A) && Width(A) == |x| && Rectangular(A[..|A| - 1])
    ensures MatVec(A, x)[..|A| - 1] == MatVec(A[..|A| - 1], x)
  {
    var y, y' := MatVec(A, x)[..|A| - 1], MatVec(A[..|A| - 1], x);
    forall i | 0 <= i < |A| - 1 ensures y[i] == y'[i] {
    }
  }

  /** Removing the last row of `A` and the last entry of `b` removes the term `b[m-1] A[m-1]` from `b A`. */
  lemma {:induction false} VecMatStep(b: seq<real>, A: seq<seq<real>>, n: nat)
    requires |b| == |A| > 0 && forall i :: 0 <= i < |A| ==> |A[i]| == n
    ensures VecMat(b, A, n) == AddScaled(VecMat(b[..|b| - 1], A[..|A| - 1], n), b[|b| - 1], A[|A| - 1])
  {
    var m := |A|;
    var A', b' := A[..m - 1], b[..m - 1];
    var u := VecMat(b', A', n);
    var V := VecMat(b, A, n);
    var t := AddScaled(u, b[m - 1], A[m - 1]);
    forall j | 0 <= j < n ensures V[j] == t[j] {
      var col := seq(m, i requires 0 <= i < m => A[i][j]);
      assert col[..m - 1] == seq(m - 1, i requires 0 <= i < m - 1 => A'[i][j]);
      assert V[j] == Dot(b, col);
    }
    assert V == t;
  }

  /** Removing the last row of `A` and the last entry of `b` removes the term `b[m-1] (A[m-1]·x)` from `b·(A x)`. */
  lemma {:induction false} DotMatVecStep(b: seq<real>, A: seq<seq<real>>, x: seq<real>)
    requires |b| == |A| > 0 && forall i :: 0 <= i < |A| ==> |A[i]| == |x|
    ensures Rectangular(A) && Rectangular(A[..|A| - 1])
    ensures Dot(b, MatVec(A, x)) == Dot(b[..|b| - 1], MatVec(A[..|A| - 1], x)) + b[|b| - 1] * Dot(A[|A| - 1], x)
  {
    MatVecStep(A, x);
    var y := MatVec(A, x);
    DotLast(b, y, b[..|b| - 1], MatVec(A[..|A| - 1], x), b[|b| - 1], Dot(A[|A| - 1], x));
  }

  /** The dot product is that of the operands without their last components, plus the product of those components. */
  lemma {:induction false} DotLast(v: seq<real>, w: seq<real>, v': seq<real>, w': seq<real>, a: real, c: real)
    requires |v| == |w| > 0 && v[..|v| - 1] == v' && w[..|w| - 1] == w' && v[|v| - 1] == a && w[|w| - 1] == c
    ensures Dot(v, w) == Dot(v', w') + a * c
  {
  }

  /** `b·(A x) == (b A)·x`: the order of the two summations can be exchanged. */
  lemma {:induction false} DotMatVec(b: seq<real>, A: seq<seq<real>>, x: seq<real>)
    requires |b| == |A| && forall i :: 0 <= i < |A| ==> |A[i]| == |x|
    ensures Rectangular(A) && (A != [] ==> Width(A) == |x|)
    ensures Dot(b, MatVec(A, x)) == Dot(VecMat(b, A, |x|), x)
  {
    var m, n := |A|, |x|;
    if m == 0 {
      assert VecMat(b, A, n) == Zeros(n);
      DotZeros(n, x);
    } else {
      var A', b' := A[..m - 1], b[..m - 1];
      DotMatVec(b', A', x);
      DotMatVecStep(b, A, x);
      VecMatStep(b, A, n);
      DotAddScaled(VecMat(b', A', n), b[m - 1], A[m - 1], x);
    }
  }

  /** Multiplying by `A` and then by `B` is multiplying by the product `B A`. */
  lemma {:induction false} MatVecOfProduct(B: seq<seq<real>>, A: seq<seq<real>>, x: seq<real>)
    requires Multipliable(B, A) && (A != [] ==> Width(A) == |x|)
    ensures B != [] ==> Width(MatrixProduct(B, A)) == |x|
    ensures Rectangular(MatrixProduct(B, A))
    ensures MatVec(B, MatVec(A, x)) == MatVec(MatrixProduct(B, A), x)
  {
    var P := MatrixProduct(B, A);
    forall i | 0 <= i < |B| ensures Dot(B[i], MatVec(A, x)) == Dot(P[i], x) {
      DotMatVec(B[i], A, x);
      assert P[i] == VecMat(B[i], A, |x|);
    }
  }
}
