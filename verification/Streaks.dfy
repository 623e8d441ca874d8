/** Failures at the end of a history of outcomes, in which true stands for a success. */
module Streaks {

  /** The last m outcomes are there and all failed. */
  ghost predicate LastFailed(history: seq<bool>, m: nat) {
    m <= |history| && forall k :: |history| - m <= k < |history| ==> !history[k]
  }

  /** The number of failures after the last success. */
  function Trailing(history: seq<bool>): (t: nat)
    ensures t <= |history|
  {
    if history == [] || history[|history| - 1] then 0
    else 1 + Trailing(history[..|history| - 1])
  }

  lemma {:induction false} TrailingMeaning(history: seq<bool>, m: nat)
    ensures LastFailed(history, m) <==> Trailing(history) >= m
  {
    if m != 0 && history != [] {
      var before := history[..|history| - 1];
      TrailingMeaning(before, m - 1);
      if !history[|history| - 1] && LastFailed(before, m - 1) {
        assert LastFailed(history, m);
      }
      if LastFailed(history, m) {
        assert forall k :: |before| - (m - 1) <= k < |before| ==> before[k] == history[k];
        assert !history[|history| - 1];
      }
    }
  }

  lemma {:induction false} TrailingAppend(history: seq<bool>, passed: bool)
    ensures Trailing(history + [passed]) == if passed then 0 else Trailing(history) + 1
  {
    assert (history + [passed])[..|history|] == history;
  }
}
