# Battery tracker: identification, health and change detection

A Dafny model of the decision logic of `BatteryManagementSystem`, the robot
subsystem that works out which of six swappable batteries is plugged in.
Each battery carries an ESP32 that sends its number as a PWM duty cycle.
The robot scales the duty cycle to 0..255 and matches it against the
expected values 21, 64, 106, 148, 191 and 233, with an inclusive tolerance
of ±10. The first match, tried in battery order, wins. No match means
battery 0, "no battery".

The model has four parts.

- **Identification** (`identification.dfy`). `IdentifyBattery` is the source's
  chain of six comparisons. `FirstMatch` is an independent table-driven
  first-match classifier over any calibration table. The two agree on every
  reading. Because the battery table's expected values are more than twice
  the tolerance apart, no reading lies in two windows, so the first-match
  order never decides anything: a reading is battery k exactly when it is
  within the tolerance of battery k's value.
- **Observed state** (`observed_state.dfy`). `ReadPWMSignal` is `readPWMSignal`
  after the scaling. It sets the number, the display name and the installed
  flag. `IsBatteryInstalled` and `IsBatteryNumberInstalled` are the two
  `isBatteryInstalled` overloads. A NetworkTables read is a `Store.Entry`:
  a stored value, or `Missing`, which reads as the caller's default.
- **Health** (`health.dfy`). The level is 0, 1 or 2 against the usage
  thresholds 20 and 40. The advisory message is given by kind and carries
  the battery number.
- **Change detection** (`change_detector.dfy`). `checkBatteryStatus` is a pure
  transition from the confirmed `(lastBatteryState, lastBatteryNumber)` pair
  to a new pair and one event: `Installed`, `Removed`, `Changed` or
  `NoEvent`. `Run` chains polls. `battery_manager.dfy` puts everything together
  as the robot loop does: `periodic()`, then `checkBatteryStatus()`.

External inputs are parameters:

- the scaled PWM reading is `pwm: int`;
- "has the 2-second check interval elapsed" is `elapsed: bool`;
- the name, installed-flag and usage-count entries are `Entry` values.

**Integer width.** The model classifies with exact integers. `java_int.dfy`
also gives the classification in Java's 32-bit arithmetic, with `value - target`
wrapping around and `Math.abs(Integer.MIN_VALUE)` staying negative.
`IdentifyBatteryIntAgrees` proves the two agree on every reading in 0..255.
Only that range can come out of the duty-cycle scaling.
`IdentifyBatteryIntAtMinInt` shows where they differ: at `MIN_VALUE` plus
each expected value the Java arithmetic answers that battery (e.g.
`MIN_VALUE + 21` answers battery 1), where the exact classification answers
no battery. No caller can pass such a reading, so this is recorded here and
not as a defect.

**Names.** The swap event is `Changed`, after the "Battery changed" message
(BatteryManagementSystem.java:282). The health level is the integer 0/1/2
that `getBatteryHealthLevel` returns (BatteryManagementSystem.java:367-378).

## Model

| member | source | states |
|---|---|---|
| Identification.IsWithinTolerance | BatteryManagementSystem.java:215-217 | the absolute-difference test equals membership of the closed window `target - 10 .. target + 10` |
| Identification.IdentifyBattery | BatteryManagementSystem.java:190-207 | the result is in 0..6; a non-zero result is a battery whose window holds the reading; the result is 0 exactly when the reading is more than 10 from all six expected values |
| Identification.FirstMatchFrom | BatteryManagementSystem.java:190-207 | first-match order over any table: the result is one past the first index from `i` whose window holds the reading, with no earlier match, or 0 exactly when nothing matches |
| Identification.FirstMatch | BatteryManagementSystem.java:190-207 | the first-match classifier from the start of the table: in range, 0 iff no entry matches, otherwise a matching entry with no matching entry before it |
| Identification.BatteryTableSeparated | BatteryManagementSystem.java:35-43 | the six expected values ascend, and neighbouring values are more than twice the tolerance apart |
| Identification.SeparatedWindowsDisjoint | BatteryManagementSystem.java:35-43 | in a separated table no reading lies in two tolerance windows |
| Identification.FirstMatchUnique | BatteryManagementSystem.java:190-207 | in a separated table the first-match order never breaks a tie: a reading inside entry `j`'s window classifies as `j + 1` |
| Identification.IdentifyBatteryIsFirstMatch | BatteryManagementSystem.java:190-207 | the hard-coded comparison chain equals the table-driven first-match classifier on the battery table, for every reading |
| Identification.IdentifyBatteryExact | BatteryManagementSystem.java:190-217 | for k in 1..6: the reading classifies as k exactly when it is within ±10 (inclusive) of battery k's expected value |
| Identification.IdentifyBatteryBoundaries | BatteryManagementSystem.java:35-45 | `BATTERY_k ± 10` classifies as k; `BATTERY_k ± 11` classifies as no battery |
| JavaInt.Sub | BatteryManagementSystem.java:216 | Java `int` subtraction: an `int` congruent to the exact difference modulo 2^32; exact when it fits, plus 2^32 on underflow, minus 2^32 on overflow |
| JavaInt.MathAbs | BatteryManagementSystem.java:216 | `Math.abs` on `int`: the true absolute value, except that the most negative `int` is its own absolute value |
| JavaInt.IsWithinToleranceInt | BatteryManagementSystem.java:215-217 | for targets in 0..255 the `int` test equals the exact window test on every `int` reading except `MIN_VALUE + target`, where it passes |
| JavaInt.IdentifyBatteryInt | BatteryManagementSystem.java:190-207 | the comparison chain in `int` arithmetic still yields a number in 0..6 |
| JavaInt.IsWithinToleranceIntAgrees | BatteryManagementSystem.java:215-217 | for targets in 0..255 the `int` test equals the exact test on every `int` reading except `MIN_VALUE + target`, where the `int` test alone passes |
| JavaInt.IdentifyBatteryIntAgrees | BatteryManagementSystem.java:156-163 | on every reading the duty-cycle scaling can produce (0..255), the `int` classification is the exact one |
| JavaInt.IdentifyBatteryIntAtMinInt | BatteryManagementSystem.java:215-217 | for each k in 1..6, in `int` arithmetic the reading `MIN_VALUE + BATTERY_k` is classified as battery k, although it is nowhere near `BATTERY_k` and the exact classification gives no battery |
| Health.HealthLevel | BatteryManagementSystem.java:369-378 | the level is the number of thresholds (20, 40) reached: 0 iff usage < 20, 1 iff 20 ≤ usage < 40, 2 iff usage ≥ 40 |
| Health.HealthLevelMonotone | BatteryManagementSystem.java:369-378 | more usage never gives a lower level |
| Health.HealthLevelBoundaries | BatteryManagementSystem.java:48-49 | usage 19 gives level 0, 20 gives 1, 39 gives 1, 40 gives 2 |
| Health.HealthWarning | BatteryManagementSystem.java:384-398 | the message is empty exactly for levels other than 1 and 2; a non-empty message names the given battery; "needs replacement" exactly at level 2 |
| Health.HealthWarningEmptyIffGood | BatteryManagementSystem.java:384-398 | for any usage count the warning is empty iff the level is 0 iff usage < 20, and otherwise names the battery |
| ObservedState.NatToDecimal | BatteryManagementSystem.java:167 | the decimal rendering of a battery number is a non-empty digit string, without leading zero, that denotes that number |
| ObservedState.DefaultName | BatteryManagementSystem.java:167 | the default display name is "Battery " followed by the plain decimal digits (no leading zero) of the battery number |
| ObservedState.ReadPWMSignal | BatteryManagementSystem.java:162-172 | the number is in 0..6 and is a battery whose window holds the reading; on 0 the name is "No Battery" and the battery is not installed; otherwise installed is the stored flag (default true) and the name is the stored name (default "Battery n") |
| ObservedState.IsBatteryInstalled | BatteryManagementSystem.java:326-328 | true only for a recognised battery (number > 0); on any consistent observation it equals the installed flag |
| ObservedState.IsBatteryNumberInstalled | BatteryManagementSystem.java:359-361 | on a consistent observation: true exactly when a battery is installed and it is battery `batteryNum`, which is then in 1..6 |
| ObservedState.InitialConsistent | BatteryManagementSystem.java:115-118 | the constructor's observed state (number 0, "No Battery", not installed) is consistent |
| ObservedState.InstalledNeedsRecognisedBattery | BatteryManagementSystem.java:166-172 | after a reading, installed holds iff a battery is recognised and the store does not say "not installed" |
| ChangeDetector.CheckBatteryStatus | BatteryManagementSystem.java:248-294 | not elapsed: no event, state unchanged; elapsed: the state becomes the current pair; Installed iff `cur && !last`; Removed iff `!cur && last`; Changed iff `cur && last && num != lastNum && lastNum != 0`, with the previous and current numbers |
| ChangeDetector.UnchangedPollIsSilent | BatteryManagementSystem.java:264-293 | a poll that sees the confirmed pair again reports nothing and leaves the state as it was |
| ChangeDetector.NoConsecutiveInstalled | BatteryManagementSystem.java:264-293 | two consecutive polls seeing the same installed input never both report Installed |
| ChangeDetector.CheckBatteryStatusPreservesInv | BatteryManagementSystem.java:292-293 | `lastBatteryState ⇒ lastBatteryNumber > 0` survives every poll whose "installed" input implies a recognised battery |
| ChangeDetector.CheckBatteryStatusUnguarded | BatteryManagementSystem.java:281 | the poll without the `lastBatteryNumber != 0` test reports Changed iff `cur && last && num != lastNum` |
| ChangeDetector.ChangedGuardRedundant | BatteryManagementSystem.java:281 | under the invariant, the poll with and without the `lastBatteryNumber != 0` test are identical |
| ChangeDetector.ChangedGuardNeedsInv | BatteryManagementSystem.java:281 | from the state (installed, number 0), which breaks the invariant, the two polls differ |
| ChangeDetector.SwapIsChanged | BatteryManagementSystem.java:280-283 | confirmed battery 2 installed, then battery 4 seen installed: one `Changed(2, 4)`, not a removal and an installation |
| ChangeDetector.RunPreservesInv | BatteryManagementSystem.java:292-293 | the invariant holds after any run of polls whose inputs are well-formed |
| ChangeDetector.InstalledReportedOnce | BatteryManagementSystem.java:264-275 | while a battery stays installed, a run of polls reports exactly one Installed if it was not yet confirmed and some interval elapsed, otherwise none |
| BatteryManager.Periodic | BatteryManagementSystem.java:143-149 | `periodic()` replaces the observed state by exactly what `readPWMSignal` builds from the reading and store entries, leaves the detector alone and keeps the manager valid |
| BatteryManager.CheckStatus | BatteryManagementSystem.java:248-261 | the poll compares the manager's own `isBatteryInstalled()` and `getBatteryNumber()` with the confirmed pair: Installed iff now installed and not before, Removed iff the reverse, Changed (previous, current) iff installed both times with a different, non-zero previous number; an elapsed poll moves the confirmed pair, a non-elapsed one changes nothing; valid managers stay valid and report only events naming batteries 1..6 |
| BatteryManager.Loop | Robot_SingleFile.java:31-40 | one robot loop: the observed state is rebuilt from the new reading; if the interval elapsed, the confirmed pair becomes the new (installed, number), and the event is the poll of the old confirmed pair against the new observation (Installed iff newly installed, Removed iff newly absent); otherwise nothing else changes and no event; validity is kept and events are well-formed |
| BatteryManager.BatteryHealthLevel | BatteryManagementSystem.java:334-336 | the level of the stored usage count; a missing count reads as 0, which is level 0 |
| BatteryManager.BatteryHealthWarning | BatteryManagementSystem.java:384-398 | the warning is empty iff the level is 0, "high usage" iff level 1, "needs replacement" iff level 2, and a non-empty warning names the currently identified battery |
| BatteryManager.InitialManagerValid | BatteryManagementSystem.java:114-124 | the constructor's state (no battery, confirmed pair `(false, 0)`) is valid |
| BatteryManager.LoopsKeepValid | Robot_SingleFile.java:31-40 | any sequence of robot loops from a valid state stays valid, and every event it reports is well-formed |
| BatteryManager.ScenarioBatteryOne | BatteryManagementSystem.java:162-172 | reading 21 with an empty store gives battery 1, "Battery 1", installed, and an Installed(1) event; usage 5 is level 0 with no warning |
| BatteryManager.ScenarioNoBattery | BatteryManagementSystem.java:166-172 | reading 0 gives no battery, "No Battery", not installed, even when the store says installed |

## Left out

- Hardware input: the `DigitalInput`/`DutyCycle` read and the scaling `(int)(dutyCycle * 255.0)` involve floating point, so the scaled reading is the input `pwm`.
- The timer: `Timer.hasElapsed(2.0)` and `reset` become the input `elapsed`.
- Dashboard output: `updateDashboard`, which writes to SmartDashboard, has no decision logic beyond "health fields only when installed".
- Runtime getters: `getTotalRuntime` and `getSessionRuntime` only pass store strings through.
- Usage-count conversion: `getUsageCount` reads a double and casts it to `int`. The model takes the count as an integer entry.
- Logging: all console output is left out, including `printStatus` and `logAutonomousStart`/`logTeleopStart`/`logDisabledStart`. Only the kind of each change event is modelled, and the battery numbers it carries.
- The "battery detected" message in `readPWMSignal` is left out, along with the `previousBatteryNumber` it compares against.
- The `ENABLE_BATTERY_LOGGING` and `ENABLE_HEALTH_WARNINGS` switches are the constant `true`. Their "disabled" branches are unreachable and are not modelled. With logging off, `checkBatteryStatus` would move the baseline without reporting, and `getHealthWarning` does not depend on it. With `ENABLE_HEALTH_WARNINGS` off, `getHealthWarning` would return "" and only the warning lines of `checkBatteryStatus` would disappear; the events would still be reported.
- Health messages: `Health.HealthWarning` gives the message kind and battery number but not the emoji and wording.
- `Robot_SingleFile.java` beyond the loop order (`periodic()` then `checkBatteryStatus()`) is framework glue. The mode hooks there only log.
- `app.js` is a spreadsheet HTTP handler that runs on a separate server. It is not part of this model.
