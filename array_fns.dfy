/** Namespace `array`: `check_lengths`. */
module ArrayFns {
  import opened Wrappers
  import opened Countables
  import FoundationsSets

  /** The message `check_lengths` throws with. */
  const LengthsNotEqual: string := "Lengths of arrays are not equal"

  /**
   * `check_lengths($array, ...$arrays)`: returns `count($array)` after a
   * scan of the further arrays that throws `RangeException` at the first
   * one whose length differs.
   */
  method CheckLengths<T>(first: seq<T>, rest: seq<seq<T>>) returns (r: Result<nat>)
    ensures r.Success? <==> AllCount(rest, |first|)
    ensures r.Success? ==> r.value == |first|
    ensures r.Failure? ==> r.error == RangeException(LengthsNotEqual)
  {
    var n := |first|;
    var k := 0;
    while k < |rest|
      invariant 0 <= k <= |rest|
      invariant forall j :: 0 <= j < k ==> |rest[j]| == n
    {
      if |rest[k]| != n {
        return Failure(RangeException(LengthsNotEqual));
      }
      k := k + 1;
    }
    return Success(n);
  }

  /** A single array, then the cases `([], [])`, `([1, 2], [1, 2])` and four mismatches, which throw. */
  method CheckLengthsExamples()
    returns (single: Result<nat>, empty: Result<nat>, pair: Result<nat>,
             bad1: Result<nat>, bad2: Result<nat>, bad3: Result<nat>, bad4: Result<nat>)
    ensures single == Success(3) && empty == Success(0) && pair == Success(2)
    ensures bad1 == bad2 == bad3 == bad4 == Failure(RangeException(LengthsNotEqual))
  {
    single := CheckLengths([3, 5, 7], []);
    empty := CheckLengths<int>([], [[]]);
    pair := CheckLengths([1, 2], [[1, 2]]);
    var bad: seq<seq<int>> := [[1]];
    assert |bad[0]| != 0;
    bad1 := CheckLengths([], bad);
    bad := [[]];
    assert |bad[0]| != 1;
    bad2 := CheckLengths([1], bad);
    bad := [[7, 11, 13]];
    assert |bad[0]| != 2;
    bad3 := CheckLengths([3, 5], bad);
    bad := [[11, 13]];
    assert |bad[0]| != 3;
    bad4 := CheckLengths([3, 5, 7], bad);
  }

  /**
   * `check_lengths($c, $d, ...$…)` returns without throwing exactly when
   * `Foundations\Sets\have_same_count($c, $d, ...$…)` is true.
   */
  method CheckLengthsAgreesWithHaveSameCount<T>(c: seq<T>, d: seq<T>, rest: seq<seq<T>>)
    returns (checked: Result<nat>, same: bool)
    ensures checked.Success? <==> same
  {
    checked := CheckLengths(c, [d] + rest);
    same := FoundationsSets.HaveSameCount(c, d, rest);
  }
}
