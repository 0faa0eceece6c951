/** What `count()` comparisons over several arrays mean. */
module Countables {

  /** Every array in `xs` has exactly `n` elements. */
  ghost predicate AllCount<T>(xs: seq<seq<T>>, n: nat) {
    forall k :: 0 <= k < |xs| ==> |xs[k]| == n
  }
}
