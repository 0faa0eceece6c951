/** Namespace `Foundations\Sets`: `have_same_count`. */
module FoundationsSets {
  import opened Countables

  /**
   * `have_same_count($c, $d, ...$…)`: scans `[$d, ...$…]`, returning false
   * at the first argument whose count differs from `count($c)`.
   */
  method HaveSameCount<T>(c: seq<T>, d: seq<T>, rest: seq<seq<T>>) returns (r: bool)
    ensures r <==> AllCount([d] + rest, |c|)
  {
    var n := |c|;
    var others := [d] + rest;
    var k := 0;
    while k < |others|
      invariant 0 <= k <= |others|
      invariant forall j :: 0 <= j < k ==> |others[j]| == n
    {
      if |others[k]| != n {
        return false;
      }
      k := k + 1;
    }
    return true;
  }

  /** This check and `Count\have_same_count` accept exactly the same arguments. */
  lemma {:induction false} AgreesWithCount<T>(c: seq<T>, d: seq<T>, rest: seq<seq<T>>)
    ensures AllCount([d] + rest, |c|) <==> |d| == |c| && AllCount(rest, |c|)
  {
    if AllCount([d] + rest, |c|) {
      forall k | 0 <= k < |rest| ensures |rest[k]| == |c| {
        assert ([d] + rest)[k + 1] == rest[k];
      }
      assert ([d] + rest)[0] == d;
    }
  }

  /** The cases `([], [])`, `([1], [])` and three equal lists. */
  method HaveSameCountExamples() returns (empty: bool, mismatch: bool, equal: bool)
    ensures empty && !mismatch && equal
  {
    empty := HaveSameCount<int>([], [], []);
    var none: seq<seq<int>> := [];
    mismatch := HaveSameCount([1], [], none);
    assert ([[]] + none)[0] == [];
    equal := HaveSameCount([1, 2], [1, 2], [[1, 2]]);
  }
}
