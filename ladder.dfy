/** The distance ladder shared by the zone overlay and the alarm: four
    ascending thresholds in metres, tier `i` covering `[t[i-1], t[i])`. */
module Ladder {
  import opened Frames

  const DISTANCE_THRESHOLDS: seq<real> := [0.3, 0.5, 1.0, 2.0]

  ghost predicate StrictlyAscending(t: seq<real>) {
    forall i, j :: 0 <= i < j < |t| ==> t[i] < t[j]
  }

  /** The first tier at or after `i` whose threshold lies above `c`: the walk
      `for i, threshold in enumerate(...): if c < threshold` stops there. */
  function NearestTier(t: seq<real>, c: Distance, i: nat): (k: Option<nat>)
    requires i <= |t|
    ensures k.Some? ==> i <= k.value < |t| && c.Below(t[k.value])
    ensures k.Some? ==> forall j :: i <= j < k.value ==> !c.Below(t[j])
    ensures k.None? ==> forall j :: i <= j < |t| ==> !c.Below(t[j])
    decreases |t| - i
  {
    if i == |t| then None
    else if c.Below(t[i]) then Some(i)
    else NearestTier(t, c, i + 1)
  }

  /** On an ascending ladder the nearest tier of a positive reading `d` is the
      unique `k` with `t[k-1] <= d < t[k]` (taking `t[-1]` as 0), and there is
      none when `d` reaches the last threshold. */
  lemma NearestTierIsHalfOpen(t: seq<real>, d: real, k: nat)
    requires StrictlyAscending(t) && 0.0 < d && k < |t|
    ensures NearestTier(t, Finite(d), 0) == Some(k) <==> (k == 0 || t[k - 1] <= d) && d < t[k]
  {
    if (k == 0 || t[k - 1] <= d) && d < t[k] {
      forall j | 0 <= j < k
        ensures !Finite(d).Below(t[j])
      {
        assert t[j] <= t[k - 1];
      }
    }
  }

  lemma ThresholdsAscending()
    ensures StrictlyAscending(DISTANCE_THRESHOLDS)
  {
  }

  /** A reading at or beyond the last threshold (or infinity) is in no tier. */
  lemma {:induction false} BeyondLastThreshold(t: seq<real>, c: Distance)
    requires StrictlyAscending(t) && |t| > 0 && !c.Below(t[|t| - 1])
    ensures NearestTier(t, c, 0).None?
  {
    forall j | 0 <= j < |t| - 1
      ensures !c.Below(t[j])
    {
      assert t[j] < t[|t| - 1];
    }
  }
}
