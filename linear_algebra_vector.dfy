/**
 * Namespace `LinearAlgebra\Vector`: the second copy of the vector
 * arithmetic. Its `is_vector` rejects the empty array, so every function
 * that asserts `is_vector` of an argument needs that argument non-empty
 * (see `IsVectorOfReals`); `transform` takes exactly one matrix.
 */
module LinearAlgebraVector {
  import opened Wrappers
  import opened PhpValues
  import opened Dense
  import AlgebraLinearVector

  /**
   * `add($v, $w, ...$…)`: each component of a copy of `v` is increased by
   * the same component of `w` and of every further vector; a missing
   * component reads as 0.
   */
  method Add(v: seq<real>, w: seq<real>, rest: seq<seq<real>>) returns (r: seq<real>)
    requires v != [] && w != []
    ensures |r| == |v|
    ensures forall i :: 0 <= i < |v| ==> r[i] == v[i] + ColumnSum([w] + rest, i)
  {
    var others := [w] + rest;
    r := v;
    var i := 0;
    while i < |v|
      invariant 0 <= i <= |v| && |r| == |v|
      invariant forall p :: 0 <= p < i ==> r[p] == v[p] + ColumnSum(others, p)
      invariant forall p :: i <= p < |v| ==> r[p] == v[p]
    {
      var j := 0;
      while j < |others|
        invariant 0 <= j <= |others| && |r| == |v|
        invariant r[i] == v[i] + ColumnSum(others[..j], i)
        invariant forall p :: 0 <= p < i ==> r[p] == v[p] + ColumnSum(others, p)
        invariant forall p :: i < p < |v| ==> r[p] == v[p]
      {
        ColumnSumStep(others, j, i);
        r := r[i := r[i] + At(others[j], i)];
        j := j + 1;
      }
      assert others[..|others|] == others;
      i := i + 1;
    }
  }

  /**
   * `subtract($v, $w, ...$…)`: each component of a copy of `v` is decreased
   * by the same component of `w` and then of every further vector.
   */
  method Subtract(v: seq<real>, w: seq<real>, rest: seq<seq<real>>) returns (r: seq<real>)
    requires v != [] && w != []
    ensures |r| == |v|
    ensures forall i :: 0 <= i < |v| ==> r[i] == v[i] - At(w, i) - ColumnSum(rest, i)
  {
    r := v;
    var i := 0;
    while i < |v|
      invariant 0 <= i <= |v| && |r| == |v|
      invariant forall p :: 0 <= p < i ==> r[p] == v[p] - At(w, p) - ColumnSum(rest, p)
      invariant forall p :: i <= p < |v| ==> r[p] == v[p]
    {
      r := r[i := r[i] - At(w, i)];
      var j := 0;
      while j < |rest|
        invariant 0 <= j <= |rest| && |r| == |v|
        invariant r[i] == v[i] - At(w, i) - ColumnSum(rest[..j], i)
        invariant forall p :: 0 <= p < i ==> r[p] == v[p] - At(w, p) - ColumnSum(rest, p)
        invariant forall p :: i < p < |v| ==> r[p] == v[p]
      {
        ColumnSumStep(rest, j, i);
        r := r[i := r[i] - At(rest[j], i)];
        j := j + 1;
      }
      assert rest[..|rest|] == rest;
      i := i + 1;
    }
  }

  /** `scale($v, $k)`: the same `array_map` as in `Algebra\Linear\Vector`. */
  function Scale(v: seq<real>, k: real): (r: seq<real>)
    requires v != []
    ensures |r| == |v|
    ensures forall i :: 0 <= i < |v| ==> r[i] == v[i] * k
  {
    AlgebraLinearVector.Scale(v, k)
  }

  /**
   * `divide($v, $k)`: the same `array_map` as in `Algebra\Linear\Vector`;
   * since `v` is non-empty, a zero `k` always raises `DivisionByZeroError`.
   */
  function Divide(v: seq<real>, k: real): (r: Result<seq<real>>)
    requires v != []
    ensures r.Failure? <==> k == 0.0
    ensures r.Failure? ==> r.error == DivisionByZeroError("Division by zero")
    ensures r.Success? ==> |r.value| == |v|
    ensures r.Success? ==> forall i :: 0 <= i < |v| ==> k != 0.0 && r.value[i] == v[i] / k
  {
    AlgebraLinearVector.Divide(v, k)
  }

  /**
   * `transform($x, $A)`: a zero-filled list of `count($A)` entries, into
   * which `$x[$j] * $e` is accumulated for every entry `e` of row `i`.
   * `A` must be a matrix whose first row is as long as `x`.
   */
  method Transform(x: seq<real>, A: seq<seq<real>>) returns (r: seq<real>)
    requires x != []
    requires A != [] && Rectangular(A) && Width(A) > 0
    requires Width(A) == |x|
    ensures |r| == |A|
    ensures r == MatVec(A, x)
  {
    r := Zeros(|A|);
    var i := 0;
    while i < |A|
      invariant 0 <= i <= |A| && |r| == |A|
      invariant forall p :: 0 <= p < i ==> r[p] == Dot(A[p], x)
      invariant forall p :: i <= p < |A| ==> r[p] == 0.0
    {
      var j := 0;
      while j < |A[i]|
        invariant 0 <= j <= |A[i]| && |r| == |A|
        invariant r[i] == Dot(A[i][..j], x[..j])
        invariant forall p :: 0 <= p < i ==> r[p] == Dot(A[p], x)
        invariant forall p :: i < p < |A| ==> r[p] == 0.0
      {
        DotStep(A[i], x, j);
        r := r[i := r[i] + x[j] * A[i][j]];
        j := j + 1;
      }
      assert A[i][..|A[i]|] == A[i] && x[..|x|] == x;
      i := i + 1;
    }
  }

  /** This `transform` agrees with the variadic one of `Algebra\Linear\Vector` given one matrix. */
  lemma TransformAgreesWithAlgebra(x: seq<real>, A: seq<seq<real>>)
    requires x != []
    requires A != [] && Rectangular(A) && Width(A) > 0
    requires Width(A) == |x|
    ensures AlgebraLinearVector.Chains(|x|, [A])
    ensures AlgebraLinearVector.Apply(x, [A]) == MatVec(A, x)
  {
    assert [A][1..] == [];
    AlgebraLinearVector.ApplyOne(x, A);
  }

  /** `dot_product($v, $w)`: the products of equal-index components, accumulated from 0. */
  method DotProduct(v: seq<real>, w: seq<real>) returns (r: real)
    requires v != [] && w != []
    requires |v| == |w|
    ensures r == Dot(v, w)
  {
    r := 0.0;
    var i := 0;
    while i < |v|
      invariant 0 <= i <= |v|
      invariant r == Dot(v[..i], w[..i])
    {
      DotStep(v, w, i);
      r := r + v[i] * w[i];
      i := i + 1;
    }
    assert v[..|v|] == v && w[..|w|] == w;
  }

  /**
   * `hadamard_product($v, $w, ...$…)`: each component of a copy of `v` is
   * multiplied by the same component of `w` and then of every further
   * vector; `Count\have_same_count` must hold of all of them.
   */
  method HadamardProduct(v: seq<real>, w: seq<real>, rest: seq<seq<real>>) returns (r: seq<real>)
    requires v != [] && w != []
    requires |v| == |w|
    requires forall k :: 0 <= k < |rest| ==> |rest[k]| == |v|
    ensures |r| == |v|
    ensures forall i :: 0 <= i < |v| ==> r[i] == v[i] * w[i] * ColumnProduct(rest, i)
  {
    r := v;
    var i := 0;
    while i < |v|
      invariant 0 <= i <= |v| && |r| == |v|
      invariant forall p :: 0 <= p < i ==> r[p] == v[p] * w[p] * ColumnProduct(rest, p)
      invariant forall p :: i <= p < |v| ==> r[p] == v[p]
    {
      r := r[i := r[i] * w[i]];
      var j := 0;
      while j < |rest|
        invariant 0 <= j <= |rest| && |r| == |v|
        invariant r[i] == v[i] * w[i] * ColumnProduct(rest[..j], i)
        invariant forall p :: 0 <= p < i ==> r[p] == v[p] * w[p] * ColumnProduct(rest, p)
        invariant forall p :: i < p < |v| ==> r[p] == v[p]
      {
        ColumnProductStep(rest, j, i);
        r := r[i := r[i] * rest[j][i]];
        j := j + 1;
      }
      assert rest[..|rest|] == rest;
      i := i + 1;
    }
  }

  /**
   * `is_vector($value)`: an array whose components are all ints or floats
   * and which has at least one component (`isset($c)` after the loop).
   * Keys are not inspected.
   */
  function IsVector(value: Value): (r: bool)
    ensures r <==> value.Arr? && value.entries != [] &&
                   forall p :: 0 <= p < |value.entries| ==> IsNumber(value.entries[p].1)
  {
    if value.Arr? then
      AllNumbers(value.entries) && value.entries != []
    else
      false
  }

  /** A list of numbers is a vector here exactly when it is non-empty. */
  lemma IsVectorOfReals(s: seq<real>)
    ensures IsVector(FromReals(s)) <==> s != []
  {
  }

  /** On lists the two `is_vector`s differ only on the empty list. */
  lemma IsVectorVersusAlgebra(value: Value)
    requires value.Arr? && IsList(value.entries)
    ensures IsVector(value) <==> AlgebraLinearVector.IsVector(value) && value.entries != []
  {
  }

  /** The empty array is a vector in `Algebra\Linear\Vector` but not here. */
  lemma EmptyArrayDiffers()
    ensures AlgebraLinearVector.IsVector(Arr([])) && !IsVector(Arr([]))
  {
  }

  /** `[1, 2, 'three' => 3]` is a vector here, but not in `Algebra\Linear\Vector`. */
  lemma KeyedArrayDiffers()
    ensures var value := Arr([(IntKey(0), Int(1)), (IntKey(1), Int(2)), (StrKey("three"), Int(3))]);
            IsVector(value) && !AlgebraLinearVector.IsVector(value)
  {
    var value := Arr([(IntKey(0), Int(1)), (IntKey(1), Int(2)), (StrKey("three"), Int(3))]);
    assert value.entries[2].0 != IntKey(2);
  }
}
