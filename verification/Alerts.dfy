/** Edge-triggered alerts on a user's failure streak (core/scheduler.py `_count`). */
module Alerts {
  datatype Counted = Counted(streak: nat, warned: bool, recovered: bool)

  /** The streak after one outcome. It warns on the step onto the threshold, and notes the step back from it. */
  function Count(streak: nat, failed: bool, threshold: nat): Counted {
    var after := if failed then streak + 1 else 0;
    Counted(after, failed && after == threshold, !failed && streak >= threshold)
  }

  datatype Log = Log(streak: nat, warnings: nat, recoveries: nat)

  /** Every outcome counted in turn. True is a failure. */
  function CountAll(outcomes: seq<bool>, threshold: nat): Log {
    if outcomes == [] then Log(0, 0, 0)
    else
      var before := CountAll(outcomes[..|outcomes| - 1], threshold);
      var last := Count(before.streak, outcomes[|outcomes| - 1], threshold);
      Log(last.streak, before.warnings + (if last.warned then 1 else 0),
        before.recoveries + (if last.recovered then 1 else 0))
  }

  ghost predicate AllFailed(outcomes: seq<bool>, from: int, to: int)
    requires 0 <= from <= to <= |outcomes|
  {
    forall i :: from <= i < to ==> outcomes[i]
  }

  /** A stretch of failures begins at `s`, nothing failing just before it, and lasts to the threshold. */
  ghost predicate ReachedFrom(outcomes: seq<bool>, threshold: nat, s: int) {
    0 <= s && s + threshold <= |outcomes| && AllFailed(outcomes, s, s + threshold) && (s > 0 ==> !outcomes[s - 1])
  }

  /** The maximal failing stretches that reached the threshold, by where each begins. */
  ghost function Stretches(outcomes: seq<bool>, threshold: nat): set<int> {
    set s | 0 <= s <= |outcomes| && ReachedFrom(outcomes, threshold, s)
  }

  /** The streak is the failures at the end, all of them. */
  lemma {:induction false} StreakIsTheTail(outcomes: seq<bool>, threshold: nat)
    ensures
      var k := CountAll(outcomes, threshold).streak;
      && k <= |outcomes| && AllFailed(outcomes, |outcomes| - k, |outcomes|)
      && (k < |outcomes| ==> !outcomes[|outcomes| - k - 1])
  {
    if outcomes != [] { StreakIsTheTail(outcomes[..|outcomes| - 1], threshold); }
  }

  lemma LastStretch(outcomes: seq<bool>, threshold: nat)
    requires outcomes != [] && threshold > 0
    ensures
      var n := |outcomes|;
      Stretches(outcomes, threshold) ==
        Stretches(outcomes[..n - 1], threshold)
          + (if CountAll(outcomes, threshold).streak == threshold then {n - threshold} else {})
  {
    var n := |outcomes|;
    var before := outcomes[..n - 1];
    StreakIsTheTail(outcomes, threshold);
    forall s | 0 <= s <= n
      ensures ReachedFrom(outcomes, threshold, s) <==>
        ReachedFrom(before, threshold, s) || (s == n - threshold && CountAll(outcomes, threshold).streak == threshold)
    {
      if s + threshold < n {
        assert ReachedFrom(outcomes, threshold, s) <==> ReachedFrom(before, threshold, s);
      }
    }
  }

  /** One warning for each stretch of failures that reached the threshold, never one per failure. */
  lemma {:induction false} OneWarningPerStretch(outcomes: seq<bool>, threshold: nat)
    requires threshold > 0
    ensures CountAll(outcomes, threshold).warnings == |Stretches(outcomes, threshold)|
  {
    if outcomes == [] {
      assert Stretches(outcomes, threshold) == {};
    } else {
      var before := outcomes[..|outcomes| - 1];
      OneWarningPerStretch(before, threshold);
      LastStretch(outcomes, threshold);
      assert |outcomes| - threshold !in Stretches(before, threshold);
    }
  }

  /** Warnings and recoveries alternate: a warning is open exactly while the streak is past the threshold. */
  lemma {:induction false} WarningsThenRecoveries(outcomes: seq<bool>, threshold: nat)
    requires threshold > 0
    ensures
      var log := CountAll(outcomes, threshold);
      log.warnings == log.recoveries + if log.streak >= threshold then 1 else 0
  {
    if outcomes != [] { WarningsThenRecoveries(outcomes[..|outcomes| - 1], threshold); }
  }
}
