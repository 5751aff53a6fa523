/** Battery health: a usage count, kept by an external logger, is graded
    against two fixed thresholds into a level 0 (good), 1 (warning, the
    battery is getting old) or 2 (critical, replace it soon), and each
    non-good level carries an advisory message naming the battery. */
module Health {

  const UsageWarningThreshold: int := 20
  const UsageCriticalThreshold: int := 40

  const LevelGood: int := 0
  const LevelWarning: int := 1
  const LevelCritical: int := 2

  /** The number of thresholds, of the two, that `usage` has reached */
  function ThresholdsReached(usage: int): (n: nat)
  {
    (if usage >= UsageWarningThreshold then 1 else 0)
      + (if usage >= UsageCriticalThreshold then 1 else 0)
  }

  /** `getBatteryHealthLevel` for a usage count */
  function HealthLevel(usage: int): (r: int)
    ensures LevelGood <= r <= LevelCritical
    ensures r == ThresholdsReached(usage)
    ensures r == LevelGood <==> usage < UsageWarningThreshold
    ensures r == LevelWarning <==> UsageWarningThreshold <= usage < UsageCriticalThreshold
    ensures r == LevelCritical <==> UsageCriticalThreshold <= usage
  {
    if usage < UsageWarningThreshold then LevelGood
    else if usage < UsageCriticalThreshold then LevelWarning
    else LevelCritical
  }

  /** More usage never makes the health level better. */
  lemma HealthLevelMonotone(u: int, v: int)
    requires u <= v
    ensures HealthLevel(u) <= HealthLevel(v)
  {
  }

  /** The level changes exactly at the two thresholds. */
  lemma HealthLevelBoundaries()
    ensures HealthLevel(UsageWarningThreshold - 1) == LevelGood
    ensures HealthLevel(UsageWarningThreshold) == LevelWarning
    ensures HealthLevel(UsageCriticalThreshold - 1) == LevelWarning
    ensures HealthLevel(UsageCriticalThreshold) == LevelCritical
  {
  }

  /** The advisory message, by kind; `NoWarning` is the empty string. */
  datatype Warning = NoWarning | HighUsage(battery: int) | NeedsReplacement(battery: int) {
    predicate IsEmpty()
    {
      NoWarning?
    }
  }

  /** `getHealthWarning`: the message for a health level and the number of
      the battery it is about. */
  function HealthWarning(level: int, battery: int): (w: Warning)
    ensures w.IsEmpty() <==> level != LevelWarning && level != LevelCritical
    ensures !w.IsEmpty() ==> w.battery == battery
    ensures w.NeedsReplacement? <==> level == LevelCritical
  {
    if level == LevelWarning then HighUsage(battery)
    else if level == LevelCritical then NeedsReplacement(battery)
    else NoWarning
  }

  /** The warning for a usage count is empty exactly when the battery is in
      good health, and otherwise names the battery. */
  lemma HealthWarningEmptyIffGood(usage: int, battery: int)
    ensures HealthWarning(HealthLevel(usage), battery).IsEmpty()
      <==> HealthLevel(usage) == LevelGood
    ensures HealthWarning(HealthLevel(usage), battery).IsEmpty()
      <==> usage < UsageWarningThreshold
    ensures !HealthWarning(HealthLevel(usage), battery).IsEmpty() ==>
      HealthWarning(HealthLevel(usage), battery).battery == battery
  {
  }
}
