/** Namespace `Algebra\Linear\Matrix`: the variadic `is_matrix`. */
module AlgebraLinearMatrix {
  import opened Wrappers
  import opened PhpValues
  import opened Dense
  import LinearAlgebraMatrix

  /** PHP's `empty()`: `null`, `false`, `0`, `0.0`, `""`, `"0"` and the empty array. */
  predicate IsEmpty(v: Value) {
    match v
    case Null => true
    case Bool(b) => !b
    case Int(i) => i == 0
    case Float(f) => f == 0.0
    case Str(s) => s == "" || s == "0"
    case Arr(entries) => entries == []
  }

  /** A row `is_matrix` accepts: a non-empty list of ints and floats. */
  predicate IsRow(v: Value) {
    !IsEmpty(v) && v.Arr? && IsList(v.entries) && AllNumbers(v.entries)
  }

  /** One argument `is_matrix` accepts: a list of rows that all have the same width. */
  ghost predicate IsMatrixOne(m: Value) {
    m.Arr? && IsList(m.entries) &&
    (forall p :: 0 <= p < |m.entries| ==> IsRow(m.entries[p].1)) &&
    (forall p, q ::
       0 <= p < |m.entries| && 0 <= q < |m.entries| ==>
       Count(m.entries[p].1) == Count(m.entries[q].1))
  }

  /** `count()` of an array; 0 for anything else (never reached for rows that pass `IsRow`). */
  function Count(v: Value): nat {
    if v.Arr? then |v.entries| else 0
  }

  /**
   * `is_matrix($value, ...$values)`: checks each argument in turn against a
   * fresh `$width`, returning false at the first argument that is not a
   * list, the first row that is empty or not a list, the first row of
   * another width, or the first component that is not a number.
   */
  method IsMatrix(value: Value, values: seq<Value>) returns (r: bool)
    ensures r <==> IsMatrixOne(value) && forall k :: 0 <= k < |values| ==> IsMatrixOne(values[k])
  {
    var all := [value] + values;
    var m := 0;
    while m < |all|
      invariant 0 <= m <= |all|
      invariant forall k :: 0 <= k < m ==> IsMatrixOne(all[k])
    {
      var matrix := all[m];
      if !matrix.Arr? || !IsList(matrix.entries) {
        return false;
      }
      var rows := matrix.entries;
      var width: Option<nat> := None;
      var i := 0;
      while i < |rows|
        invariant 0 <= i <= |rows|
        invariant width.None? <==> i == 0
        invariant width.Some? ==> forall p :: 0 <= p < i ==> Count(rows[p].1) == width.value
        invariant forall p :: 0 <= p < i ==> IsRow(rows[p].1)
      {
        var row := rows[i].1;
        if IsEmpty(row) || !(row.Arr? && IsList(row.entries)) {
          return false;
        }
        if width.None? {
          width := Some(|row.entries|);
        } else if |row.entries| != width.value {
          assert Count(rows[0].1) != Count(rows[i].1);
          return false;
        }
        var j := 0;
        while j < |row.entries|
          invariant 0 <= j <= |row.entries|
          invariant forall t :: 0 <= t < j ==> IsNumber(row.entries[t].1)
        {
          if !IsNumber(row.entries[j].1) {
            return false;
          }
          j := j + 1;
        }
        i := i + 1;
      }
      assert forall p, q :: 0 <= p < |rows| && 0 <= q < |rows| ==> Count(rows[p].1) == Count(rows[q].1);
      assert IsMatrixOne(matrix);
      m := m + 1;
    }
    assert value == all[0];
    assert forall k :: 0 <= k < |values| ==> values[k] == all[k + 1];
    return true;
  }

  /** The empty outer list `[]` is a matrix. */
  lemma EmptyListIsMatrix()
    ensures IsMatrixOne(Arr([]))
  {
  }

  /** `[[]]` is not a matrix: its only row is empty. */
  lemma EmptyRowIsNotMatrix()
    ensures !IsMatrixOne(Arr([(IntKey(0), Arr([]))]))
  {
    var m := Arr([(IntKey(0), Arr([]))]);
    assert IsEmpty(m.entries[0].1);
  }

  /** A flat list such as `[3, 5, 7]` is not a matrix: its rows are not arrays. */
  lemma FlatListIsNotMatrix(m: Value)
    requires m.Arr? && m.entries != [] && !m.entries[0].1.Arr?
    ensures !IsMatrixOne(m)
  {
  }

  /** A list of rows is a matrix exactly when it is rectangular and, if it has rows, at least one column wide. */
  lemma IsMatrixOneOfRows(A: seq<seq<real>>)
    ensures IsMatrixOne(FromRows(A)) <==> Rectangular(A) && (A != [] ==> Width(A) > 0)
  {
    var m := FromRows(A);
    if Rectangular(A) && (A != [] ==> Width(A) > 0) {
      forall p | 0 <= p < |A| ensures IsRow(m.entries[p].1) {
        assert |m.entries[p].1.entries| == |A[p]| > 0;
      }
    }
    if IsMatrixOne(m) && A != [] {
      forall i | 0 <= i < |A| ensures |A[i]| == Width(A) {
        assert Count(m.entries[i].1) == Count(m.entries[0].1);
      }
      assert IsRow(m.entries[0].1);
    }
  }

  /** On lists of numeric rows the two `is_matrix`s differ only on the empty list, which only this one accepts. */
  lemma IsMatrixVersusLinearAlgebra(A: seq<seq<real>>)
    ensures IsMatrixOne(FromRows(A)) <==> A == [] || LinearAlgebraMatrix.IsMatrixSpec(FromRows(A))
  {
    IsMatrixOneOfRows(A);
    LinearAlgebraMatrix.IsMatrixOfRows(A);
  }
}
