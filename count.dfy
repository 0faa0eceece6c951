/** Namespace `Count`: `have_same_count`. */
module Count {
  import opened Countables

  /**
   * `have_same_count($c, $d, ...$…)`: compares `count($d)` with `count($c)`,
   * then scans the further arguments, returning false at the first
   * mismatch.
   */
  method HaveSameCount<T>(c: seq<T>, d: seq<T>, rest: seq<seq<T>>) returns (r: bool)
    ensures r <==> |d| == |c| && AllCount(rest, |c|)
  {
    var n := |c|;
    if |d| != n {
      return false;
    }
    var k := 0;
    while k < |rest|
      invariant 0 <= k <= |rest|
      invariant forall j :: 0 <= j < k ==> |rest[j]| == n
    {
      if |rest[k]| != n {
        return false;
      }
      k := k + 1;
    }
    return true;
  }

  /** Whether all arguments share a count does not depend on which of `c` and `d` comes first. */
  method HaveSameCountSymmetric<T>(c: seq<T>, d: seq<T>, rest: seq<seq<T>>) returns (cd: bool, dc: bool)
    ensures cd == dc
  {
    cd := HaveSameCount(c, d, rest);
    dc := HaveSameCount(d, c, rest);
  }

  /** The cases `([], [])`, `([1], [])` and three equal lists. */
  method HaveSameCountExamples() returns (empty: bool, mismatch: bool, equal: bool)
    ensures empty && !mismatch && equal
  {
    empty := HaveSameCount<int>([], [], []);
    mismatch := HaveSameCount([1], [], []);
    equal := HaveSameCount([1, 2], [1, 2], [[1, 2]]);
  }
}
