/** Namespace `vector`: `add`, guarded by `array\check_lengths`. */
module VectorFns {
  import opened Wrappers
  import opened Countables
  import opened Dense
  import ArrayFns
  import AlgebraLinearVector

  /**
   * `add($vector, ...$vectors)`: `check_lengths` over all the vectors, which
   * throws before any arithmetic when their lengths differ; then a
   * zero-filled result of the common length accumulates, for each index,
   * the components of every vector in order.
   */
  method Add(vector: seq<real>, vectors: seq<seq<real>>) returns (r: Result<seq<real>>)
    ensures r.Failure? <==> !AllCount(vectors, |vector|)
    ensures r.Failure? ==> r.error == RangeException(ArrayFns.LengthsNotEqual)
    ensures r.Success? ==> |r.value| == |vector|
    ensures r.Success? ==> forall i :: 0 <= i < |vector| ==> r.value[i] == ColumnSum([vector] + vectors, i)
  {
    var all := [vector] + vectors;
    var checked := ArrayFns.CheckLengths(vector, vectors);
    if checked.Failure? {
      return Failure(checked.error);
    }
    var length := checked.value;
    assert forall j :: 0 <= j < |all| ==> |all[j]| == length by {
      assert forall j :: 0 <= j < |vectors| ==> all[j + 1] == vectors[j];
    }
    var count := |all|;
    var result := Zeros(length);
    var i := 0;
    while i < length
      invariant 0 <= i <= length && |result| == length
      invariant forall p :: 0 <= p < i ==> result[p] == ColumnSum(all, p)
      invariant forall p :: i <= p < length ==> result[p] == 0.0
    {
      var j := 0;
      while j < count
        invariant 0 <= j <= count && |result| == length
        invariant result[i] == ColumnSum(all[..j], i)
        invariant forall p :: 0 <= p < i ==> result[p] == ColumnSum(all, p)
        invariant forall p :: i < p < length ==> result[p] == 0.0
      {
        ColumnSumStep(all, j, i);
        result := result[i := result[i] + all[j][i]];
        j := j + 1;
      }
      assert all[..count] == all;
      i := i + 1;
    }
    return Success(result);
  }

  /** A single vector is summed into an equal copy of itself. */
  lemma SumOfOneIsCopy(v: seq<real>, i: nat)
    requires i < |v|
    ensures ColumnSum([v], i) == v[i]
  {
    assert [v][..0] == [];
  }

  /**
   * Whenever this `add` does not throw, that is on vectors of equal length,
   * it returns what `Algebra\Linear\Vector\add` returns: the first vector
   * plus the sum of the others.
   */
  method AgreesWithAlgebraAdd(v: seq<real>, w: seq<real>, rest: seq<seq<real>>)
    returns (a: Result<seq<real>>, b: seq<real>)
    ensures a.Success? ==> a.value == b
  {
    a := Add(v, [w] + rest);
    b := AlgebraLinearVector.Add(v, w, rest);
    if a.Success? {
      forall i | 0 <= i < |v| ensures a.value[i] == b[i] {
        ColumnSumCons(v, [w] + rest, i);
      }
    }
  }
}
