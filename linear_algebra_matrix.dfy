/**
 * Namespace `LinearAlgebra\Matrix`: `is_matrix` over PHP values, and
 * `multiply` and `transpose` over dense matrices (`seq<seq<real>>`).
 */
module LinearAlgebraMatrix {
  import opened Wrappers
  import opened PhpValues
  import opened Dense

  /**
   * What `is_matrix($value)` accepts: an array whose array rows all have
   * one width and hold only ints and floats, and in which some row has a
   * component (`isset($c)`). Rows that are not arrays are skipped, and
   * keys are not inspected.
   */
  ghost predicate IsMatrixSpec(value: Value) {
    value.Arr? &&
    (forall p, q ::
       0 <= p < |value.entries| && 0 <= q < |value.entries| &&
       value.entries[p].1.Arr? && value.entries[q].1.Arr? ==>
       |value.entries[p].1.entries| == |value.entries[q].1.entries|) &&
    (forall p ::
       0 <= p < |value.entries| && value.entries[p].1.Arr? ==>
       AllNumbers(value.entries[p].1.entries)) &&
    (exists p ::
       0 <= p < |value.entries| && value.entries[p].1.Arr? &&
       value.entries[p].1.entries != [])
  }

  /**
   * `is_matrix($value)`: scans the rows, fixing `$width` at the first array
   * row and returning false at the first array row of another width or the
   * first component that is not a number.
   */
  method IsMatrix(value: Value) returns (r: bool)
    ensures r == IsMatrixSpec(value)
  {
    if !value.Arr? {
      return false;
    }
    var rows := value.entries;
    var width: Option<nat> := None;
    ghost var first: nat := 0;
    var seen := false;  // isset($c)
    var i := 0;
    while i < |rows|
      invariant 0 <= i <= |rows|
      invariant width.None? ==> forall p :: 0 <= p < i ==> !rows[p].1.Arr?
      invariant width.Some? ==> first < i && rows[first].1.Arr? && |rows[first].1.entries| == width.value
      invariant width.Some? ==> forall p :: 0 <= p < i && rows[p].1.Arr? ==> |rows[p].1.entries| == width.value
      invariant forall p :: 0 <= p < i && rows[p].1.Arr? ==> AllNumbers(rows[p].1.entries)
      invariant seen <==> exists p :: 0 <= p < i && rows[p].1.Arr? && rows[p].1.entries != []
    {
      var row := rows[i].1;
      if row.Arr? {
        if width.None? {
          width := Some(|row.entries|);
          first := i;
        } else if |row.entries| != width.value {
          return false;
        }
        var j := 0;
        while j < |row.entries|
          invariant 0 <= j <= |row.entries|
          invariant forall t :: 0 <= t < j ==> IsNumber(row.entries[t].1)
          invariant seen <==> (exists p :: 0 <= p < i && rows[p].1.Arr? && rows[p].1.entries != []) || j > 0
        {
          var c := row.entries[j].1;
          seen := true;
          if !IsNumber(c) {
            return false;
          }
          j := j + 1;
        }
      }
      i := i + 1;
    }
    return seen;
  }

  /** A non-array is never a matrix. */
  lemma NonArrayIsNotMatrix(value: Value)
    requires !value.Arr?
    ensures !IsMatrixSpec(value)
  {
  }

  /** Two array rows of different widths make the value not a matrix. */
  lemma WidthMismatchIsNotMatrix(value: Value, p: nat, q: nat)
    requires value.Arr? && p < |value.entries| && q < |value.entries|
    requires value.entries[p].1.Arr? && value.entries[q].1.Arr?
    requires |value.entries[p].1.entries| != |value.entries[q].1.entries|
    ensures !IsMatrixSpec(value)
  {
  }

  /** A component that is not an int or a float makes the value not a matrix. */
  lemma NonNumberIsNotMatrix(value: Value, p: nat, t: nat)
    requires value.Arr? && p < |value.entries| && value.entries[p].1.Arr?
    requires t < |value.entries[p].1.entries| && !IsNumber(value.entries[p].1.entries[t].1)
    ensures !IsMatrixSpec(value)
  {
  }

  /** Without any component, such as `[[]]` or the flat `[3, 5, 7]`, there is no matrix. */
  lemma NoComponentIsNotMatrix(value: Value)
    requires value.Arr?
    requires forall p :: 0 <= p < |value.entries| && value.entries[p].1.Arr? ==> value.entries[p].1.entries == []
    ensures !IsMatrixSpec(value)
  {
  }

  /** Since rows that are not arrays are skipped, `[[1, 2], 5]` is accepted. */
  lemma ScalarRowIsSkipped()
    ensures IsMatrixSpec(Arr([(IntKey(0), Arr([(IntKey(0), Int(1)), (IntKey(1), Int(2))])), (IntKey(1), Int(5))]))
  {
    var value := Arr([(IntKey(0), Arr([(IntKey(0), Int(1)), (IntKey(1), Int(2))])), (IntKey(1), Int(5))]);
    assert value.entries[0].1.Arr? && value.entries[0].1.entries != [];
  }

  /** A list of rows is a matrix exactly when it is non-empty, rectangular and at least one column wide. */
  lemma IsMatrixOfRows(A: seq<seq<real>>)
    ensures IsMatrixSpec(FromRows(A)) <==> A != [] && Rectangular(A) && Width(A) > 0
  {
    var value := FromRows(A);
    if A != [] && Rectangular(A) && Width(A) > 0 {
      assert value.entries[0].1.Arr? && value.entries[0].1.entries != [];
    }
    if IsMatrixSpec(value) {
      forall i | 0 <= i < |A| ensures |A[i]| == Width(A) {
        assert |value.entries[i].1.entries| == |value.entries[0].1.entries|;
      }
      var p :| 0 <= p < |value.entries| && value.entries[p].1.Arr? && value.entries[p].1.entries != [];
      assert |A[p]| > 0;
    }
  }

  /**
   * `transpose($A)`: `$Aᵀ[$j][$i] = $A[$i][$j]` for every entry in row-major
   * order, creating row `j` of the result on the first assignment to it.
   */
  method Transpose(A: seq<seq<real>>) returns (T: seq<seq<real>>)
    requires Rectangular(A)
    ensures T == Transposed(A)
  {
    T := [];
    var i := 0;
    while i < |A|
      invariant 0 <= i <= |A|
      invariant |T| == (if i == 0 then 0 else Width(A))
      invariant forall j :: 0 <= j < |T| ==> |T[j]| == i
      invariant forall j, k :: 0 <= j < |T| && 0 <= k < i ==> T[j][k] == A[k][j]
    {
      var j := 0;
      while j < |A[i]|
        invariant 0 <= j <= |A[i]|
        invariant |T| == (if i == 0 then j else Width(A))
        invariant forall q :: 0 <= q < |T| ==> |T[q]| == (if q < j then i + 1 else i)
        invariant forall q, k :: 0 <= q < |T| && 0 <= k < i ==> T[q][k] == A[k][q]
        invariant forall q :: 0 <= q < j ==> T[q][i] == A[i][q]
      {
        if j == |T| {
          T := T + [[A[i][j]]];
        } else {
          T := T[j := T[j] + [A[i][j]]];
        }
        j := j + 1;
      }
      i := i + 1;
    }
    forall j | 0 <= j < |T| ensures T[j] == Column(A, j) {
    }
  }

  /** Transposing twice gives the matrix back, when it has no rows or its rows are not empty. */
  lemma TransposeInvolution(A: seq<seq<real>>)
    requires Rectangular(A) && (A == [] || Width(A) > 0)
    ensures Rectangular(Transposed(A))
    ensures Transposed(Transposed(A)) == A
  {
    var T := Transposed(A);
    assert Rectangular(T);
    if A != [] {
      assert Width(T) == |A|;
      var TT := Transposed(T);
      assert |TT| == |A|;
      forall i | 0 <= i < |A| ensures TT[i] == A[i] {
        assert |TT[i]| == |A[i]|;
      }
    }
  }

  /** Rows of width zero are lost: the transpose of `[[], []]` is `[]`, whose transpose is not `[[], []]`. */
  lemma TransposeOfEmptyRows()
    ensures Transposed([[], []]) == [] && Transposed(Transposed([[], []])) != [[], []]
  {
  }

  /**
   * `multiply($A, $B)`: `B` is first transposed; then each row `i` of the
   * result starts as `count($B[0])` zeros and entry `j` accumulates
   * `$A[$i][$k] * $Bᵀ[$j][$k]` over the entries of row `i` of `A`.
   */
  method Multiply(A: seq<seq<real>>, B: seq<seq<real>>) returns (R: seq<seq<real>>)
    requires Multipliable(A, B)
    ensures |R| == |A|
    ensures forall i :: 0 <= i < |A| ==> |R[i]| == Width(B)
    ensures R == MatrixProduct(A, B)
  {
    var BT := Transpose(B);
    R := [];
    var i := 0;
    while i < |A|
      invariant 0 <= i <= |A| && |R| == i
      invariant forall p :: 0 <= p < i ==> R[p] == MatrixProduct(A, B)[p]
    {
      var row := Zeros(|B[0]|);
      var j := 0;
      while j < |BT|
        invariant 0 <= j <= |BT| && |row| == Width(B)
        invariant forall q :: 0 <= q < j ==> row[q] == Dot(A[i], Column(B, q))
        invariant forall q :: j <= q < |row| ==> row[q] == 0.0
      {
        assert BT[j] == Column(B, j);
        var k := 0;
        while k < |A[i]|
          invariant 0 <= k <= |A[i]| && |row| == Width(B)
          invariant row[j] == Dot(A[i][..k], BT[j][..k])
          invariant forall q :: 0 <= q < j ==> row[q] == Dot(A[i], Column(B, q))
          invariant forall q :: j < q < |row| ==> row[q] == 0.0
        {
          DotStep(A[i], BT[j], k);
          row := row[j := row[j] + A[i][k] * BT[j][k]];
          k := k + 1;
        }
        assert A[i][..|A[i]|] == A[i] && BT[j][..|BT[j]|] == BT[j];
        j := j + 1;
      }
      assert row == MatrixProduct(A, B)[i];
      R := R + [row];
      i := i + 1;
    }
  }

  /** The transpose of a product is the product of the transposes in reverse order. */
  lemma ProductTranspose(A: seq<seq<real>>, B: seq<seq<real>>)
    requires Multipliable(A, B) && A != [] && Width(B) > 0
    ensures Multipliable(Transposed(B), Transposed(A))
    ensures Transposed(MatrixProduct(A, B)) == MatrixProduct(Transposed(B), Transposed(A))
  {
    var AB := MatrixProduct(A, B);
    var BT, AT := Transposed(B), Transposed(A);
    assert Rectangular(AB);
    var L, Rt := Transposed(AB), MatrixProduct(BT, AT);
    assert |L| == |Rt| == Width(B);
    forall j | 0 <= j < Width(B) ensures L[j] == Rt[j] {
      assert |L[j]| == |Rt[j]| == |A|;
      forall i | 0 <= i < |A| ensures L[j][i] == Rt[j][i] {
        assert Column(AT, i) == A[i];
        assert BT[j] == Column(B, j);
        DotCommutes(A[i], Column(B, j));
      }
    }
  }
}
