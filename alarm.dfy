/** The debounced alarm on the closest distance: one shared "last alert time"
    (milliseconds) and one cooldown per ladder tier. */
module Alarm {
  import opened Frames
  import opened Ladder

  /** Thresholds in metres and, per tier, the cooldown in milliseconds that
      must be strictly exceeded since the last alert. */
  datatype Config = Config(thresholds: seq<real>, cooldowns: seq<real>) {

    predicate WellFormed() {
      |thresholds| == |cooldowns|
    }

    /** Nearer tiers have smaller thresholds and cooldowns that are no longer. */
    ghost predicate Ascending() {
      && WellFormed()
      && StrictlyAscending(thresholds)
      && forall i, j :: 0 <= i < j < |cooldowns| ==> cooldowns[i] <= cooldowns[j]
    }
  }

  /** Final.py:9-10, faster.py:9-10 and 4.py:9-10. */
  const FINAL_CONFIG := Config(DISTANCE_THRESHOLDS, [100.0, 1500.0, 2500.0, 5000.0])

  /** 3.py:15,18: the same thresholds with shorter middle cooldowns. */
  const CONFIG_3 := Config(DISTANCE_THRESHOLDS, [100.0, 500.0, 1500.0, 5000.0])

  /** Tier `i` contains the closest distance and its cooldown has elapsed. */
  predicate Qualifies(c: Config, closest: Distance, last: real, now: real, i: nat)
    requires c.WellFormed() && i < |c.thresholds|
  {
    closest.Below(c.thresholds[i]) && now - last > c.cooldowns[i]
  }

  /** The loop of `check_alerts`: the first tier from `i` on that qualifies.
      A containing tier still cooling down does not stop the walk. */
  function FirstQualifying(c: Config, closest: Distance, last: real, now: real, i: nat): (k: Option<nat>)
    requires c.WellFormed() && i <= |c.thresholds|
    ensures k.Some? ==> i <= k.value < |c.thresholds| && Qualifies(c, closest, last, now, k.value)
    ensures k.Some? ==> forall j :: i <= j < k.value ==> !Qualifies(c, closest, last, now, j)
    ensures k.None? ==> forall j :: i <= j < |c.thresholds| ==> !Qualifies(c, closest, last, now, j)
    decreases |c.thresholds| - i
  {
    if i == |c.thresholds| then None
    else if closest.Below(c.thresholds[i]) && now - last > c.cooldowns[i] then Some(i)
    else FirstQualifying(c, closest, last, now, i + 1)
  }

  /** Final.py:31-39 (also faster.py:30-38, 4.py:30-38): the new last alert
      time, `now` when some tier qualifies and the alert sounds, else `last`. */
  function CheckAlerts(c: Config, closest: Distance, last: real, now: real): (r: real)
    requires c.WellFormed()
    ensures r == now || r == last
    ensures (exists i :: 0 <= i < |c.thresholds| && Qualifies(c, closest, last, now, i)) ==> r == now
    ensures (forall i :: 0 <= i < |c.thresholds| ==> !Qualifies(c, closest, last, now, i)) ==> r == last
  {
    if FirstQualifying(c, closest, last, now, 0).Some? then now else last
  }

  /** The alarm of 3.py:106-113: only the nearest containing tier is looked
      at; it updates the time if its cooldown has elapsed. */
  function NearestTierAlarm(c: Config, closest: Distance, last: real, now: real): (r: real)
    requires c.WellFormed()
    ensures r == now || r == last
    ensures (forall i :: 0 <= i < |c.thresholds| ==> !closest.Below(c.thresholds[i])) ==> r == last
    ensures forall k :: 0 <= k < |c.thresholds| && closest.Below(c.thresholds[k]) &&
                        (forall j :: 0 <= j < k ==> !closest.Below(c.thresholds[j])) ==>
              r == if now - last > c.cooldowns[k] then now else last
  {
    match NearestTier(c.thresholds, closest, 0)
    case None => last
    case Some(k) => if now - last > c.cooldowns[k] then now else last
  }

  /** 3.py:105-113: the tier loop that breaks at the first containing tier,
      whether or not it fired. `triggered` is `alarm_triggered`. */
  method AlarmLoop(c: Config, closest: Distance, last: real, now: real) returns (newLast: real, triggered: bool)
    requires c.WellFormed()
    ensures newLast == NearestTierAlarm(c, closest, last, now)
    ensures triggered <==> exists i :: 0 <= i < |c.thresholds| && closest.Below(c.thresholds[i])
  {
    newLast, triggered := last, false;
    var i := 0;
    while i < |c.thresholds|
      invariant 0 <= i <= |c.thresholds|
      invariant forall j :: 0 <= j < i ==> !closest.Below(c.thresholds[j])
      invariant newLast == last && !triggered
    {
      if closest.Below(c.thresholds[i]) {
        if now - newLast > c.cooldowns[i] {
          newLast := now;
        }
        triggered := true;
        break;
      }
      i := i + 1;
    }
  }

  /** With ascending cooldowns, walking on past a cooling tier (Final.py)
      decides exactly as stopping at the nearest containing tier (3.py): a
      farther tier never fires while the nearer one is cooling down. */
  lemma ContinueMatchesBreak(c: Config, closest: Distance, last: real, now: real)
    requires c.Ascending()
    ensures CheckAlerts(c, closest, last, now) == NearestTierAlarm(c, closest, last, now)
  {
    match NearestTier(c.thresholds, closest, 0)
    case None =>
    case Some(k) =>
      if now - last > c.cooldowns[k] {
        assert Qualifies(c, closest, last, now, k);
      } else {
        forall j | 0 <= j < |c.thresholds|
          ensures !Qualifies(c, closest, last, now, j)
        {
          if k <= j {
            assert c.cooldowns[k] <= c.cooldowns[j];
          }
        }
      }
  }

  /** Without ascending cooldowns the two loops differ: at 0.2 m, with the
      near tier cooling for 1000 ms and the far one for 100 ms, Final.py's walk
      fires on the far tier and 3.py's does not. */
  lemma ContinueDiffersFromBreak()
    ensures var c := Config([0.3, 0.5], [1000.0, 100.0]);
            CheckAlerts(c, Finite(0.2), 0.0, 500.0) == 500.0 &&
            NearestTierAlarm(c, Finite(0.2), 0.0, 500.0) == 0.0
  {
    var c := Config([0.3, 0.5], [1000.0, 100.0]);
    assert Qualifies(c, Finite(0.2), 0.0, 500.0, 1);
  }

  /** A closest distance at or beyond the last threshold, `+inf` included,
      leaves the last alert time as it was. */
  lemma {:induction false} NoAlertBeyondLadder(c: Config, closest: Distance, last: real, now: real)
    requires c.Ascending() && |c.thresholds| > 0
    requires !closest.Below(c.thresholds[|c.thresholds| - 1])
    ensures CheckAlerts(c, closest, last, now) == last
  {
    BeyondLastThreshold(c.thresholds, closest);
    ContinueMatchesBreak(c, closest, last, now);
  }

  /** Since the time is shared by all tiers, no alert of any tier sounds
      within the nearest tier's cooldown of the previous one. */
  lemma {:induction false} SilentWithinShortestCooldown(c: Config, closest: Distance, last: real, now: real)
    requires c.Ascending() && |c.thresholds| > 0
    requires now - last <= c.cooldowns[0]
    ensures CheckAlerts(c, closest, last, now) == last
  {
    forall j | 0 <= j < |c.thresholds|
      ensures !Qualifies(c, closest, last, now, j)
    {
      if 0 < j {
        assert c.cooldowns[0] <= c.cooldowns[j];
      }
    }
  }

  lemma ConfigsAscending()
    ensures FINAL_CONFIG.Ascending() && CONFIG_3.Ascending()
  {
  }

  /** A closest object held at 0.9 m under Final.py's configuration: the
      alert sounds at 3000 ms, stays silent at 5000 ms (2000 ms is within the
      2500 ms cooldown of tier 2) and sounds again at 6000 ms. */
  lemma DebounceTrace()
    ensures CheckAlerts(FINAL_CONFIG, Finite(0.9), 0.0, 3000.0) == 3000.0
    ensures CheckAlerts(FINAL_CONFIG, Finite(0.9), 3000.0, 5000.0) == 3000.0
    ensures CheckAlerts(FINAL_CONFIG, Finite(0.9), 3000.0, 6000.0) == 6000.0
  {
    ConfigsAscending();
    assert Qualifies(FINAL_CONFIG, Finite(0.9), 0.0, 3000.0, 2);
    ContinueMatchesBreak(FINAL_CONFIG, Finite(0.9), 3000.0, 5000.0);
    assert NearestTier(DISTANCE_THRESHOLDS, Finite(0.9), 0) == Some(2);
    assert Qualifies(FINAL_CONFIG, Finite(0.9), 3000.0, 6000.0, 2);
  }
}
