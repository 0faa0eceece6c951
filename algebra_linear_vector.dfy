/**
 * Namespace `Algebra\Linear\Vector`: vector arithmetic over PHP lists of
 * numbers, with a variadic `transform`. A vector is a `seq<real>`; the
 * `is_vector` assertions the functions begin with hold of every such list
 * (see `IsVectorOfReals`), so they add no precondition.
 */
module AlgebraLinearVector {
  import opened Wrappers
  import opened PhpValues
  import opened Countables
  import opened Dense

  /**
   * `add($v, $w, ...$…)`: each component of a copy of `v` is increased, in
   * place, by the same component of `w` and of every further vector.
   * Lengths are not checked: a component a shorter vector lacks reads as 0,
   * and components past the end of `v` are ignored.
   */
  method Add(v: seq<real>, w: seq<real>, rest: seq<seq<real>>) returns (r: seq<real>)
    ensures |r| == |v|
    ensures forall i :: 0 <= i < |v| ==> r[i] == v[i] + ColumnSum([w] + rest, i)
  {
    var others := [w] + rest;
    r := v;
    var i := 0;
    while i < |v|
      invariant 0 <= i <= |v| && |r| == |v|
      invariant forall p :: 0 <= p < i ==> r[p] == v[p] + ColumnSum(others, p)
      invariant forall p :: i <= p < |v| ==> r[p] == v[p]
    {
      var j := 0;
      while j < |others|
        invariant 0 <= j <= |others| && |r| == |v|
        invariant r[i] == v[i] + ColumnSum(others[..j], i)
        invariant forall p :: 0 <= p < i ==> r[p] == v[p] + ColumnSum(others, p)
        invariant forall p :: i < p < |v| ==> r[p] == v[p]
      {
        ColumnSumStep(others, j, i);
        r := r[i := r[i] + At(others[j], i)];
        j := j + 1;
      }
      assert others[..|others|] == others;
      i := i + 1;
    }
  }

  /**
   * `subtract($v, $w, ...$…)`: each component of a copy of `v` is decreased
   * by the same component of `w` and then of every further vector. Lengths
   * are not checked, as in `Add`.
   */
  method Subtract(v: seq<real>, w: seq<real>, rest: seq<seq<real>>) returns (r: seq<real>)
    ensures |r| == |v|
    ensures forall i :: 0 <= i < |v| ==> r[i] == v[i] - At(w, i) - ColumnSum(rest, i)
  {
    r := v;
    var i := 0;
    while i < |v|
      invariant 0 <= i <= |v| && |r| == |v|
      invariant forall p :: 0 <= p < i ==> r[p] == v[p] - At(w, p) - ColumnSum(rest, p)
      invariant forall p :: i <= p < |v| ==> r[p] == v[p]
    {
      r := r[i := r[i] - At(w, i)];
      var j := 0;
      while j < |rest|
        invariant 0 <= j <= |rest| && |r| == |v|
        invariant r[i] == v[i] - At(w, i) - ColumnSum(rest[..j], i)
        invariant forall p :: 0 <= p < i ==> r[p] == v[p] - At(w, p) - ColumnSum(rest, p)
        invariant forall p :: i < p < |v| ==> r[p] == v[p]
      {
        ColumnSumStep(rest, j, i);
        r := r[i := r[i] - At(rest[j], i)];
        j := j + 1;
      }
      assert rest[..|rest|] == rest;
      i := i + 1;
    }
  }

  /** `scale($v, $k)`: `array_map` multiplying every component by `k`. */
  function Scale(v: seq<real>, k: real): (r: seq<real>)
    ensures |r| == |v|
    ensures forall i :: 0 <= i < |v| ==> r[i] == v[i] * k
  {
    if v == [] then [] else [v[0] * k] + Scale(v[1..], k)
  }

  /**
   * `divide($v, $k)`: `array_map` dividing every component by `k`. PHP
   * raises `DivisionByZeroError` at the first division by zero, so that
   * happens exactly when `k` is zero and there is a component to divide.
   */
  function Divide(v: seq<real>, k: real): (r: Result<seq<real>>)
    ensures r.Failure? <==> k == 0.0 && v != []
    ensures r.Failure? ==> r.error == DivisionByZeroError("Division by zero")
    ensures r.Success? ==> |r.value| == |v|
    ensures r.Success? ==> forall i :: 0 <= i < |v| ==> k != 0.0 && r.value[i] == v[i] / k
  {
    if v == [] then Success([])
    else if k == 0.0 then Failure(DivisionByZeroError("Division by zero"))
    else Success([v[0] / k] + Divide(v[1..], k).value)
  }

  /** Dividing by a non-zero `k` undoes scaling by `k`. */
  lemma ScaleThenDivide(v: seq<real>, k: real)
    requires k != 0.0
    ensures Divide(Scale(v, k), k) == Success(v)
  {
    var d := Divide(Scale(v, k), k);
    assert |d.value| == |v|;
    forall i | 0 <= i < |v| ensures d.value[i] == v[i] {
      assert d.value[i] == (v[i] * k) / k;
    }
    assert d.value == v;
  }

  /** Scaling by a non-zero `k` undoes dividing by `k`. */
  lemma DivideThenScale(v: seq<real>, k: real)
    requires k != 0.0
    ensures Divide(v, k).Success? && Scale(Divide(v, k).value, k) == v
  {
    var s := Scale(Divide(v, k).value, k);
    assert |s| == |v|;
    forall i | 0 <= i < |v| ensures s[i] == v[i] {
      assert s[i] == (v[i] / k) * k;
    }
  }

  /**
   * The shapes `transform($x, ...)` accepts: each matrix is non-empty and
   * rectangular with non-empty rows (`is_matrix`), and its column count
   * `count($M[0])` equals the length `n` of the vector it is applied to;
   * its row count is the length of the next vector.
   */
  ghost predicate Chains(n: nat, ms: seq<seq<seq<real>>>)
    decreases |ms|
  {
    ms == [] ||
    (n > 0 && ms[0] != [] && Rectangular(ms[0]) && Width(ms[0]) == n && Chains(|ms[0]|, ms[1..]))
  }

  /** Multiplying `x` by the matrices `ms[0]`, `ms[1]`, ... in turn. */
  ghost function Apply(x: seq<real>, ms: seq<seq<seq<real>>>): seq<real>
    requires Chains(|x|, ms)
    decreases |ms|
  {
    if ms == [] then x else Apply(MatVec(ms[0], x), ms[1..])
  }

  /**
   * `transform($x, $A, ...$…)`: for each matrix `M` in turn, `x` is replaced
   * by a zero-filled list of `count($M)` entries into which the products
   * `$v[$j] * $e` of row `i` are accumulated.
   */
  method Transform(x: seq<real>, A: seq<seq<real>>, rest: seq<seq<seq<real>>>) returns (r: seq<real>)
    requires Chains(|x|, [A] + rest)
    ensures r == Apply(x, [A] + rest)
  {
    var ms := [A] + rest;
    r := x;
    var k := 0;
    while k < |ms|
      invariant 0 <= k <= |ms|
      invariant Chains(|r|, ms[k..])
      invariant Apply(r, ms[k..]) == Apply(x, ms)
    {
      var M := ms[k];
      assert ms[k..][0] == M && ms[k..][1..] == ms[k + 1..];
      var v := r;
      r := Zeros(|M|);
      var i := 0;
      while i < |M|
        invariant 0 <= i <= |M| && |r| == |M|
        invariant forall p :: 0 <= p < i ==> r[p] == Dot(M[p], v)
        invariant forall p :: i <= p < |M| ==> r[p] == 0.0
      {
        var j := 0;
        while j < |M[i]|
          invariant 0 <= j <= |M[i]| && |r| == |M|
          invariant r[i] == Dot(M[i][..j], v[..j])
          invariant forall p :: 0 <= p < i ==> r[p] == Dot(M[p], v)
          invariant forall p :: i < p < |M| ==> r[p] == 0.0
        {
          DotStep(M[i], v, j);
          r := r[i := r[i] + v[j] * M[i][j]];
          j := j + 1;
        }
        assert M[i][..|M[i]|] == M[i] && v[..|v|] == v;
        i := i + 1;
      }
      assert r == MatVec(M, v);
      k := k + 1;
    }
  }

  /** Transforming by a list of matrices is transforming by its first part, then by the rest. */
  lemma {:induction false} ApplyConcat(x: seq<real>, ms: seq<seq<seq<real>>>, ns: seq<seq<seq<real>>>)
    requires Chains(|x|, ms + ns)
    ensures Chains(|x|, ms) && Chains(|Apply(x, ms)|, ns)
    ensures Apply(x, ms + ns) == Apply(Apply(x, ms), ns)
    decreases |ms|
  {
    if ms == [] {
      assert ms + ns == ns;
    } else {
      assert (ms + ns)[0] == ms[0] && (ms + ns)[1..] == ms[1..] + ns;
      ApplyConcat(MatVec(ms[0], x), ms[1..], ns);
    }
  }

  /** With one matrix, `transform` is the matrix-vector product. */
  lemma ApplyOne(x: seq<real>, M: seq<seq<real>>)
    requires Chains(|x|, [M])
    ensures |MatVec(M, x)| == |M|
    ensures Apply(x, [M]) == MatVec(M, x)
  {
    assert [M][1..] == [];
  }

  /** Transforming by `A` and then by `B` is transforming by the single matrix `B A`. */
  lemma {:induction false} ApplyTwo(x: seq<real>, A: seq<seq<real>>, B: seq<seq<real>>)
    requires Chains(|x|, [A, B])
    ensures Multipliable(B, A)
    ensures Apply(x, [A, B]) == MatVec(MatrixProduct(B, A), x)
  {
    var ms := [A, B];
    assert ms[0] == A && ms[1..] == [B];
    var y := MatVec(A, x);
    assert Chains(|y|, [B]);
    ApplyOne(y, B);
    assert Apply(x, ms) == MatVec(B, y);
    MatVecOfProduct(B, A, x);
  }

  /**
   * `dot_product($v, $w)`: the products of equal-index components,
   * accumulated from 0. The lengths must agree.
   */
  method DotProduct(v: seq<real>, w: seq<real>) returns (r: real)
    requires |v| == |w|
    ensures r == Dot(v, w)
  {
    r := 0.0;
    var i := 0;
    while i < |v|
      invariant 0 <= i <= |v|
      invariant r == Dot(v[..i], w[..i])
    {
      DotStep(v, w, i);
      r := r + v[i] * w[i];
      i := i + 1;
    }
    assert v[..|v|] == v && w[..|w|] == w;
  }

  /** For one-component vectors the dot product is the product of the two components. */
  lemma DotOfOneComponent(a: real, b: real)
    ensures Dot([a], [b]) == a * b
  {
    assert [a][..0] == [] && [b][..0] == [];
  }

  /**
   * `hadamard_product($v, $w, ...$…)`: each component of a copy of `v` is
   * multiplied, in place, by the same component of `w` and then of every
   * further vector. All vectors must have the count of `v`.
   */
  method HadamardProduct(v: seq<real>, w: seq<real>, rest: seq<seq<real>>) returns (r: seq<real>)
    requires |v| == |w|
    requires AllCount([w] + rest, |v|)
    ensures |r| == |v|
    ensures forall i :: 0 <= i < |v| ==> r[i] == v[i] * w[i] * ColumnProduct(rest, i)
  {
    assert forall j :: 0 <= j < |rest| ==> ([w] + rest)[j + 1] == rest[j];
    r := v;
    var i := 0;
    while i < |v|
      invariant 0 <= i <= |v| && |r| == |v|
      invariant forall p :: 0 <= p < i ==> r[p] == v[p] * w[p] * ColumnProduct(rest, p)
      invariant forall p :: i <= p < |v| ==> r[p] == v[p]
    {
      r := r[i := r[i] * w[i]];
      var j := 0;
      while j < |rest|
        invariant 0 <= j <= |rest| && |r| == |v|
        invariant r[i] == v[i] * w[i] * ColumnProduct(rest[..j], i)
        invariant forall p :: 0 <= p < i ==> r[p] == v[p] * w[p] * ColumnProduct(rest, p)
        invariant forall p :: i < p < |v| ==> r[p] == v[p]
      {
        ColumnProductStep(rest, j, i);
        assert |rest[j]| == |v|;
        r := r[i := r[i] * rest[j][i]];
        j := j + 1;
      }
      assert rest[..|rest|] == rest;
      i := i + 1;
    }
  }

  /**
   * `is_vector($value)`: an array that is a list and whose components are
   * all ints or floats, scanned with an early `return false`.
   */
  function IsVector(value: Value): (r: bool)
    ensures r <==> value.Arr? && IsList(value.entries) &&
                   forall p :: 0 <= p < |value.entries| ==> IsNumber(value.entries[p].1)
  {
    value.Arr? && IsList(value.entries) && AllNumbers(value.entries)
  }

  /** Every list of numbers, the empty one included, is a vector. */
  lemma IsVectorOfReals(s: seq<real>)
    ensures IsVector(FromReals(s))
  {
  }

  /** An array with a string key, such as `[1, 2, 'three' => 3]`, is not a list, so not a vector. */
  lemma StringKeyIsNotVector(value: Value, p: nat)
    requires value.Arr? && p < |value.entries| && value.entries[p].0.StrKey?
    ensures !IsVector(value)
  {
  }

  /** A list holding a string or `null` is not a vector. */
  lemma NonNumberIsNotVector(value: Value, p: nat)
    requires value.Arr? && p < |value.entries|
    requires value.entries[p].1.Str? || value.entries[p].1.Null?
    ensures !IsVector(value)
  {
  }
}
