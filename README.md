# maphematics vector and matrix primitives in Dafny

This project models the dense vector and matrix primitives of the PHP
library `empaphy/maphematics`:

- the arithmetic of the namespaces `Algebra\Linear\Vector` and
  `LinearAlgebra\Vector`: `add`, `subtract`, `scale`, `divide`, `transform`,
  `dot_product` and `hadamard_product`;
- their shape validators: `is_vector` in both namespaces, `is_matrix` in
  `LinearAlgebra\Matrix` and the variadic `is_matrix` in
  `Algebra\Linear\Matrix`;
- `LinearAlgebra\Matrix\multiply` and `transpose`;
- the count checks `Count\have_same_count`, `Foundations\Sets\have_same_count`
  and `array\check_lengths`;
- `vector\add`, which is guarded by `check_lengths`.

Each PHP namespace is one Dafny module:

- `AlgebraLinearVector`
- `LinearAlgebraVector`
- `LinearAlgebraMatrix`
- `AlgebraLinearMatrix`
- `Count`
- `FoundationsSets`
- `ArrayFns` (for `src/array.php`)
- `VectorFns` (for `src/vector.php`)

Shared definitions live in four more modules:

- `Wrappers` holds `Option`, `Result` and the two PHP exceptions the core raises.
- `PhpValues` holds a small model of PHP values (`int`, `float`, `string`,
  `bool`, `null`, and arrays as ordered key/value lists) for the validators.
- `Countables` holds `AllCount`, "every array has `n` elements".
- `Dense` holds the reference definitions the loops are proved against. These are the column sum and column product, the dot product, the matrix-vector product `MatVec`, the transpose and the matrix product. It also holds the algebraic facts about them.

Modelling choices:

- **Numbers are `real`.** PHP's `int|float` is exact here: there is no IEEE rounding and no integer overflow to float. The validators keep the `int`/`float` distinction only as a tag (`Int` and `Float`).
- **Vectors are `seq<real>`.** The arithmetic works on PHP lists, i.e. vectors are `seq<real>` and matrices are `seq<seq<real>>` (a list of rows). The bridge functions `PhpValues.FromReals` and `PhpValues.FromRows` turn them into PHP values, so that the validators can be related to the sequence-level preconditions.
- **Loops become methods.** The PHP functions that work by updating `$v[$i]`, `$x[$i]`, `$R[$i][$j]` or an accumulator inside `foreach`/`for` loops are Dafny methods with the same loops. The loop invariants tie their state to the reference definitions in `Dense`. `scale`, `divide` and `Algebra\Linear\Vector\is_vector` are `array_map` calls or an early-return scan in the source, and are functions here.
- **`assert()` checks become `requires`.** The source's `assert()` checks on its arguments are the methods' preconditions, stated on the sequences. For example, `LinearAlgebra\Vector\is_vector` rejects the empty array, so the `LinearAlgebraVector` operations require a non-empty vector. On lists of numbers and lists of numeric rows, lemmas such as `LinearAlgebraVector.IsVectorOfReals` and `LinearAlgebraMatrix.IsMatrixOfRows` show that these preconditions are exactly what the validators accept. Values the validators also accept but that are not such lists, such as keyed arrays or matrices with non-array rows, are outside the arithmetic model (see "## Left out").
- **`add` and `subtract` have no length precondition.** They check no lengths. A read of a missing index in PHP gives `null`, which arithmetic treats as 0, after an "Undefined array key" warning. `Dense.At` models that read, so the methods need no length precondition, and the result keeps the length of `$v`.
- **`divide` by zero.** `divide` by 0 raises `DivisionByZeroError("Division by zero")` as soon as `array_map` reaches a component. The model returns that error as a `Failure`. An empty vector is returned unchanged even for `k == 0`.
- **Errors.** `check_lengths` throws `RangeException("Lengths of arrays are not equal")`. It and `vector\add` return `Result` values carrying that exception.
- **An array-row quirk.** `LinearAlgebra\Matrix\is_matrix` skips rows that are not arrays, so it accepts `[[1, 2], 5]`. This is modelled as written; see `LinearAlgebraMatrix.ScalarRowIsSkipped`.
- **The validators disagree.** The two `is_vector` functions disagree on the empty array and on arrays with string keys. The two `is_matrix` functions disagree on the empty list `[]`. Lemmas state each difference.

## Model

| member | source | states |
|---|---|---|
| AlgebraLinearVector.Add | src/Algebra/Linear/Vector/functions.php:52-74 | the result keeps the length of `v`; component `i` is `v[i]` plus the `i`th components of `w` and of every further vector, a missing component counting as 0 |
| AlgebraLinearVector.Subtract | src/Algebra/Linear/Vector/functions.php:96-120 | the result keeps the length of `v`; component `i` is `v[i] - w[i]` minus the `i`th component of every further vector, a missing component counting as 0 |
| AlgebraLinearVector.Scale | src/Algebra/Linear/Vector/functions.php:139-150 | same length; component `i` is `v[i] * k` |
| AlgebraLinearVector.Divide | src/Algebra/Linear/Vector/functions.php:169-180 | fails with `DivisionByZeroError("Division by zero")` exactly when `k` is 0 and `v` is non-empty; otherwise the same length with component `i` equal to `v[i] / k` |
| AlgebraLinearVector.ScaleThenDivide | src/Algebra/Linear/Vector/functions.php:139-180 | for `k != 0`, dividing a scaled vector by `k` gives back the original vector |
| AlgebraLinearVector.DivideThenScale | src/Algebra/Linear/Vector/functions.php:139-180 | for `k != 0`, dividing succeeds and scaling the quotient by `k` gives back the original vector |
| AlgebraLinearVector.Transform | src/Algebra/Linear/Vector/functions.php:202-237 | for a chain of matrices each of whose column count is the length of the vector it is applied to, the result is the vector multiplied by each matrix in turn, left to right |
| AlgebraLinearVector.ApplyConcat | src/Algebra/Linear/Vector/functions.php:210-232 | transforming by a list of matrices is transforming by its first part and then by the rest |
| AlgebraLinearVector.ApplyOne | src/Algebra/Linear/Vector/functions.php:224-231 | with one matrix `M` the result has `count(M)` entries and is the matrix-vector product `M x` |
| AlgebraLinearVector.ApplyTwo | src/Algebra/Linear/Vector/functions.php:210-232 | transforming by `A` and then by `B` is transforming by the single matrix product `B A`, whose shapes always fit |
| AlgebraLinearVector.DotProduct | src/Algebra/Linear/Vector/functions.php:256-278 | for vectors of equal length, the result is `Σ v[i] * w[i]` (the reference `Dense.Dot`) |
| AlgebraLinearVector.DotOfOneComponent | tests/Unit/Algebra/Linear/Vector/dotTest.php:32-36 | for one-component vectors the dot product is the product of the components |
| AlgebraLinearVector.HadamardProduct | src/Algebra/Linear/Vector/functions.php:300-333 | when `w` and every further vector have the count of `v`, the result keeps that length and component `i` is `v[i] * w[i]` times the `i`th component of every further vector |
| AlgebraLinearVector.IsVector | src/Algebra/Linear/Vector/functions.php:346-359 | true exactly for an array whose keys are `0, 1, 2, …` in order and all of whose components are ints or floats |
| AlgebraLinearVector.IsVectorOfReals | src/Algebra/Linear/Vector/functions.php:346-359 | every list of numbers, the empty one included, is a vector |
| AlgebraLinearVector.StringKeyIsNotVector | tests/Unit/Algebra/Linear/Vector/isVectorTest.php:32 | an array with a string key is not a vector |
| AlgebraLinearVector.NonNumberIsNotVector | src/Algebra/Linear/Vector/functions.php:352-356 | an array with a string or null component is not a vector |
| LinearAlgebraVector.Add | src/LinearAlgebra/Vector/functions.php:50-72 | for non-empty `v` and `w`, the result keeps the length of `v` and component `i` is `v[i]` plus the `i`th components of `w` and every further vector, a missing component counting as 0 |
| LinearAlgebraVector.Subtract | src/LinearAlgebra/Vector/functions.php:94-118 | for non-empty `v` and `w`, the result keeps the length of `v` and component `i` is `v[i] - w[i]` minus the `i`th component of every further vector |
| LinearAlgebraVector.Scale | src/LinearAlgebra/Vector/functions.php:137-148 | for a non-empty vector, same length and component `i` is `v[i] * k` |
| LinearAlgebraVector.Divide | src/LinearAlgebra/Vector/functions.php:167-178 | for a non-empty vector, fails with `DivisionByZeroError` exactly when `k` is 0; otherwise component `i` is `v[i] / k` |
| LinearAlgebraVector.Transform | src/LinearAlgebra/Vector/functions.php:197-223 | for a non-empty vector and a matrix with non-empty rows of equal width equal to the vector's length, the result has `count(A)` entries and entry `i` is `Σ_j A[i][j] * x[j]` |
| LinearAlgebraVector.TransformAgreesWithAlgebra | src/LinearAlgebra/Vector/functions.php:197-223 | on the inputs it accepts, the one-matrix `transform` computes what `Algebra\Linear\Vector\transform` computes with that matrix alone |
| LinearAlgebraVector.DotProduct | src/LinearAlgebra/Vector/functions.php:242-264 | for non-empty vectors of equal length, the result is `Σ v[i] * w[i]` |
| LinearAlgebraVector.HadamardProduct | src/LinearAlgebra/Vector/functions.php:286-319 | for non-empty vectors all of the count of `v`, component `i` is `v[i] * w[i]` times the `i`th component of every further vector |
| LinearAlgebraVector.IsVector | src/LinearAlgebra/Vector/functions.php:332-347 | true exactly for a non-empty array all of whose components are ints or floats, whatever its keys |
| LinearAlgebraVector.IsVectorOfReals | src/LinearAlgebra/Vector/functions.php:332-347 | a list of numbers is a vector exactly when it is non-empty |
| LinearAlgebraVector.IsVectorVersusAlgebra | src/LinearAlgebra/Vector/functions.php:332-347 | on lists, this `is_vector` is `Algebra\Linear\Vector\is_vector` restricted to non-empty lists |
| LinearAlgebraVector.EmptyArrayDiffers | tests/Unit/LinearAlgebra/VectorTest.php:112 | the empty array is a vector for `Algebra\Linear\Vector` and not for `LinearAlgebra\Vector` |
| LinearAlgebraVector.KeyedArrayDiffers | tests/Unit/Algebra/Linear/Vector/isVectorTest.php:32 | an array of numbers with a string key is a vector for `LinearAlgebra\Vector` and not for `Algebra\Linear\Vector` |
| LinearAlgebraMatrix.IsMatrix | src/LinearAlgebra/Matrix/functions.php:27-55 | true exactly for an array whose array rows all have one width and hold only ints and floats, and at least one of which has a component; rows that are not arrays are ignored |
| LinearAlgebraMatrix.NonArrayIsNotMatrix | src/LinearAlgebra/Matrix/functions.php:31-54 | a value that is not an array is not a matrix |
| LinearAlgebraMatrix.WidthMismatchIsNotMatrix | src/LinearAlgebra/Matrix/functions.php:35-39 | two array rows of different widths make the value not a matrix |
| LinearAlgebraMatrix.NonNumberIsNotMatrix | src/LinearAlgebra/Matrix/functions.php:41-47 | a component that is neither int nor float makes the value not a matrix |
| LinearAlgebraMatrix.NoComponentIsNotMatrix | src/LinearAlgebra/Matrix/functions.php:51 | when no array row has a component (`[[]]`, a flat vector) the value is not a matrix |
| LinearAlgebraMatrix.ScalarRowIsSkipped | src/LinearAlgebra/Matrix/functions.php:33 | `[[1, 2], 5]` is accepted as a matrix |
| LinearAlgebraMatrix.IsMatrixOfRows | src/LinearAlgebra/Matrix/functions.php:27-55 | a list of rows of numbers is a matrix exactly when it is non-empty, rectangular and its rows are non-empty |
| LinearAlgebraMatrix.Transpose | src/LinearAlgebra/Matrix/functions.php:98-109 | for a rectangular matrix, row `j` of the result is column `j` of `A`: `Aᵀ[j][i] == A[i][j]` |
| LinearAlgebraMatrix.TransposeInvolution | src/LinearAlgebra/Matrix/functions.php:98-109 | for a rectangular matrix with non-empty rows (or no rows), transposing twice gives back the matrix |
| LinearAlgebraMatrix.TransposeOfEmptyRows | src/LinearAlgebra/Matrix/functions.php:102-106 | rows without entries are lost: `[[], []]` transposes to `[]` and back to `[]` |
| LinearAlgebraMatrix.Multiply | src/LinearAlgebra/Matrix/functions.php:64-87 | the result has `count(A)` rows each `count(B[0])` wide, and entry `(i, j)` is `Σ_k A[i][k] * B[k][j]` |
| LinearAlgebraMatrix.ProductTranspose | src/LinearAlgebra/Matrix/functions.php:64-109 | the transpose of `A B` is `Bᵀ Aᵀ` |
| AlgebraLinearMatrix.IsMatrix | src/Algebra/Linear/Matrix/functions.php:55-85 | true exactly when every argument, on its own, is a list of non-empty lists of ints and floats that all have the same count |
| AlgebraLinearMatrix.EmptyListIsMatrix | tests/Unit/Algebra/Linear/Matrix/isMatrixTest.php:111-118 | the empty list `[]` is a matrix |
| AlgebraLinearMatrix.EmptyRowIsNotMatrix | tests/Unit/Algebra/Linear/Matrix/isMatrixTest.php:44-46 | `[[]]` is not a matrix |
| AlgebraLinearMatrix.FlatListIsNotMatrix | src/Algebra/Linear/Matrix/functions.php:65-67 | a non-empty list whose first element is not an array is not a matrix |
| AlgebraLinearMatrix.IsMatrixOneOfRows | src/Algebra/Linear/Matrix/functions.php:55-85 | a list of rows of numbers is a matrix exactly when it is rectangular and, unless empty, has non-empty rows |
| AlgebraLinearMatrix.IsMatrixVersusLinearAlgebra | src/Algebra/Linear/Matrix/functions.php:55-85 | on lists of rows of numbers the two `is_matrix` functions agree, except that only this one accepts `[]` |
| Count.HaveSameCount | src/Count/functions.php:36-54 | true exactly when `d` and every further argument have the count of `c` |
| Count.HaveSameCountSymmetric | src/Count/functions.php:41-45 | `have_same_count(c, d, …)` and `have_same_count(d, c, …)` return the same answer |
| Count.HaveSameCountExamples | tests/Unit/CountTest.php:19-30 | `([], [])` gives true, `([1], [])` false, and three equal lists true |
| FoundationsSets.HaveSameCount | src/Foundations/Sets/functions.php:36-50 | true exactly when every one of `[d, …]` has the count of `c` |
| FoundationsSets.AgreesWithCount | src/Foundations/Sets/functions.php:41-49 | on every input it answers as `Count\have_same_count` does |
| FoundationsSets.HaveSameCountExamples | tests/Unit/Foundations/Sets/haveSameCountTest.php:23-34 | `([], [])` gives true, `([1], [])` false, and three equal lists true |
| ArrayFns.CheckLengths | src/array.php:23-34 | returns the length of the first array exactly when every further array has that length; otherwise fails with `RangeException("Lengths of arrays are not equal")` |
| ArrayFns.CheckLengthsExamples | tests/Unit/ArrayTest.php:19-47 | a single array of 3 gives 3, `([], [])` 0 and `([1, 2], [1, 2])` 2; `([], [1])`, `([1], [])`, `([3, 5], [7, 11, 13])` and `([3, 5, 7], [11, 13])` each fail with `RangeException("Lengths of arrays are not equal")` |
| ArrayFns.CheckLengthsAgreesWithHaveSameCount | src/array.php:23-34 | `check_lengths(c, d, …)` succeeds exactly when `Foundations\Sets\have_same_count(c, d, …)` is true |
| VectorFns.Add | src/vector.php:27-41 | fails with the `check_lengths` `RangeException` exactly when the lengths differ; otherwise the result has the common length and component `i` is the sum of the `i`th components of all the vectors |
| VectorFns.SumOfOneIsCopy | src/vector.php:29-40 | a single vector is returned as an equal copy |
| VectorFns.AgreesWithAlgebraAdd | src/vector.php:34-38 | whenever `vector\add(v, w, …)` does not throw, it returns what `Algebra\Linear\Vector\add(v, w, …)` returns |
| Dense.DotCommutes | src/Algebra/Linear/Vector/functions.php:272-275 | the dot product does not depend on the order of its operands |
| Dense.ColumnSumCons | src/Algebra/Linear/Vector/functions.php:67-71 | a column sum is its first component plus the sum of the rest |
| Dense.ColumnProductCons | src/Algebra/Linear/Vector/functions.php:324-330 | a column product is its first component times the product of the rest |
| Dense.DotMatVec | src/LinearAlgebra/Matrix/functions.php:70-84 | `b · (A x) == (b A) · x`: the two summations of a matrix product can be exchanged |
| Dense.MatVecOfProduct | src/LinearAlgebra/Matrix/functions.php:64-87 | multiplying a vector by `A` and then by `B` is multiplying it by the product `B A` |

## Left out

- Countable objects: the count checks are modelled on arrays (sequences); objects implementing `Countable` are not modelled.
- Keyed (non-list) arrays in the arithmetic: `LinearAlgebra\Vector\is_vector` accepts them, but the arithmetic is modelled on lists only. `KeyedArrayDiffers` records the validator difference.
- IEEE floating point, integer overflow to float, and PHP's `int`/`float` result typing: numbers are exact reals.
- The messages of the `assert()` checks, and `assert()`'s runtime configuration: the checks are preconditions.
- The `array_walk(...)` checks in `LinearAlgebra\Vector` `add`, `subtract` and `hadamard_product`: `array_walk` always returns true, so they check nothing.
- A `TypeError` from `count(null)` when a matrix argument is empty: preconditions exclude it.
- LinearAlgebraVector.Transform: matrices with non-array rows (which `LinearAlgebra\Matrix\is_matrix` skips, so `transform([1, 2], [[1, 2], 5])` passes its checks and returns `[5, 0]`) and matrices or vectors with keyed rows are outside the model, which takes a list of numeric rows.
- AlgebraLinearVector.Add: the "Undefined array key" warning PHP raises when a further vector is shorter than `v` is not modelled. The contract describes the result under the default error handler; an error handler that turns warnings into exceptions would make such a call throw instead.
- AlgebraLinearVector.Subtract: the "Undefined array key" warning PHP raises when a further vector is shorter than `v` is not modelled. The contract describes the result under the default error handler; an error handler that turns warnings into exceptions would make such a call throw instead.
- LinearAlgebraVector.Add: the "Undefined array key" warning PHP raises when a further vector is shorter than `v` is not modelled. The contract describes the result under the default error handler; an error handler that turns warnings into exceptions would make such a call throw instead.
- LinearAlgebraVector.Subtract: the "Undefined array key" warning PHP raises when a further vector is shorter than `v` is not modelled. The contract describes the result under the default error handler; an error handler that turns warnings into exceptions would make such a call throw instead.
- LinearAlgebraMatrix.Multiply: the source checks no shapes. The model requires rectangular matrices with `count(A[0]) == count(B)`, so it says nothing about ragged or mismatched inputs.
- LinearAlgebraMatrix.Transpose: requires a rectangular matrix; the source also accepts ragged ones.
- `Vector\length` is not part of this model: its source is not among the modelled files, and it uses `sqrt`.
- `Vector\dot`, `Vector\hadamard`, `vector\scale`, `vector\scale_divide`, `vector\transform`, and a `RangeException` from `transform`: the tests call them, but no modelled file defines them.
- The PHPStan stubs: they are type-checker scaffolding with no behaviour.
- The row echelon form, reduced row echelon form, determinant and inverse routines are not part of this model: no modelled file implements them.
