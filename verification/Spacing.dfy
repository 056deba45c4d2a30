/** Moments a minimum gap apart, as the TTL and the throttle promise them. */
module Spacing {

  /** Any two of the times are at least `gap` apart, in order. */
  predicate Apart(times: seq<int>, gap: int) {
    forall i, j :: 0 <= i < j < |times| ==> times[j] - times[i] >= gap
  }

  lemma ApartAppend(times: seq<int>, now: int, gap: int)
    requires Apart(times, gap) && gap > 0 && (times != [] ==> now - times[|times| - 1] >= gap)
    ensures Apart(times + [now], gap)
  {
    assert forall i :: 0 <= i < |times| - 1 ==> times[|times| - 1] - times[i] >= gap;
  }
}
