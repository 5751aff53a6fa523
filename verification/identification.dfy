/** Battery identification: the ESP32 on each battery encodes the battery's
    number as a PWM duty cycle, read on a 0..255 scale, and the reading is
    matched against a fixed table of expected values with a uniform,
    inclusive tolerance. */
module Identification {

  /** Allowed deviation, in PWM units, between a reading and an expected value */
  const Tolerance: int := 10

  /** Expected PWM values sent by the ESP32 for batteries 1 to 6 */
  const Battery1: int := 21
  const Battery2: int := 64
  const Battery3: int := 106
  const Battery4: int := 148
  const Battery5: int := 191
  const Battery6: int := 233

  /** The battery number that means "no battery or invalid signal" */
  const NoBattery: int := 0

  const MaxBatteries: int := 6

  /** The calibration table: battery `k` expects `BatteryTable[k - 1]` */
  const BatteryTable: seq<int> := [Battery1, Battery2, Battery3, Battery4, Battery5, Battery6]

  /** The expected PWM value of battery `k` */
  function BatteryPWM(k: int): (v: int)
    requires 1 <= k <= MaxBatteries
    ensures v in BatteryTable
  {
    BatteryTable[k - 1]
  }

  function Abs(x: int): (r: nat)
    ensures r == x || r == -x
  {
    if x < 0 then -x else x
  }

  /** True when `value` lies in the closed window `target ± Tolerance` */
  function IsWithinTolerance(value: int, target: int): (r: bool)
    ensures r <==> target - Tolerance <= value <= target + Tolerance
  {
    Abs(value - target) <= Tolerance
  }

  /** The battery number for a PWM reading: the entries are tried in order
      1 to 6 and the first whose window holds the reading wins; 0 when none
      does. */
  function IdentifyBattery(pwm: int): (r: int)
    ensures 0 <= r <= MaxBatteries
    ensures r != NoBattery ==> IsWithinTolerance(pwm, BatteryPWM(r))
    ensures r == NoBattery <==>
      forall k :: 1 <= k <= MaxBatteries ==> !IsWithinTolerance(pwm, BatteryPWM(k))
  {
    if IsWithinTolerance(pwm, Battery1) then 1
    else if IsWithinTolerance(pwm, Battery2) then 2
    else if IsWithinTolerance(pwm, Battery3) then 3
    else if IsWithinTolerance(pwm, Battery4) then 4
    else if IsWithinTolerance(pwm, Battery5) then 5
    else if IsWithinTolerance(pwm, Battery6) then 6
    else NoBattery
  }

  // ---------------------------------------------------------------------
  // A table-driven reference classifier: first match over any table
  // ---------------------------------------------------------------------

  /** One plus the index of the first entry of `table`, from index `i` on,
      whose window holds `v`; 0 when there is none. */
  function FirstMatchFrom(table: seq<int>, v: int, i: nat): (r: nat)
    requires i <= |table|
    ensures r == 0 || i < r <= |table|
    ensures r == 0 <==> forall j :: i <= j < |table| ==> !IsWithinTolerance(v, table[j])
    ensures r != 0 ==> IsWithinTolerance(v, table[r - 1])
    ensures r != 0 ==> forall j :: i <= j < r - 1 ==> !IsWithinTolerance(v, table[j])
    decreases |table| - i
  {
    if i == |table| then 0
    else if IsWithinTolerance(v, table[i]) then i + 1
    else FirstMatchFrom(table, v, i + 1)
  }

  /** Identity of the first matching entry of `table` (entry `j` is identity `j + 1`) */
  function FirstMatch(table: seq<int>, v: int): (r: nat)
    ensures r <= |table|
    ensures r == 0 <==> forall j :: 0 <= j < |table| ==> !IsWithinTolerance(v, table[j])
    ensures r != 0 ==> IsWithinTolerance(v, table[r - 1])
    ensures r != 0 ==> forall j :: 0 <= j < r - 1 ==> !IsWithinTolerance(v, table[j])
  {
    FirstMatchFrom(table, v, 0)
  }

  /** Entries ascend and neighbouring windows are disjoint: any two expected
      values are more than twice the tolerance apart. */
  predicate Separated(table: seq<int>)
  {
    forall i, j :: 0 <= i < j < |table| ==> table[j] - table[i] > 2 * Tolerance
  }

  lemma BatteryTableSeparated()
    ensures Separated(BatteryTable)
  {
  }

  /** In a separated table no reading lies in two windows. */
  lemma SeparatedWindowsDisjoint(table: seq<int>, v: int, i: int, j: int)
    requires Separated(table)
    requires 0 <= i < |table| && 0 <= j < |table|
    requires IsWithinTolerance(v, table[i]) && IsWithinTolerance(v, table[j])
    ensures i == j
  {
  }

  /** In a separated table first-match order never has to break a tie: a
      reading inside the window of entry `j` is classified as `j + 1`. */
  lemma FirstMatchUnique(table: seq<int>, v: int, j: int)
    requires Separated(table)
    requires 0 <= j < |table|
    requires IsWithinTolerance(v, table[j])
    ensures FirstMatch(table, v) == j + 1
  {
    var r := FirstMatch(table, v);
    assert r != 0;
    SeparatedWindowsDisjoint(table, v, r - 1, j);
  }

  /** The hard-coded chain of comparisons is the table-driven classifier
      over the calibration table. */
  lemma IdentifyBatteryIsFirstMatch(pwm: int)
    ensures IdentifyBattery(pwm) == FirstMatch(BatteryTable, pwm)
  {
    BatteryTableSeparated();
    var r := IdentifyBattery(pwm);
    if r != NoBattery {
      FirstMatchUnique(BatteryTable, pwm, r - 1);
    }
  }

  /** A reading is classified as battery `k` exactly when it lies within
      the tolerance of battery `k`'s expected value. */
  lemma IdentifyBatteryExact(pwm: int, k: int)
    requires 1 <= k <= MaxBatteries
    ensures IdentifyBattery(pwm) == k <==> IsWithinTolerance(pwm, BatteryPWM(k))
  {
    BatteryTableSeparated();
    var r := IdentifyBattery(pwm);
    if IsWithinTolerance(pwm, BatteryPWM(k)) {
      assert r != NoBattery;
      SeparatedWindowsDisjoint(BatteryTable, pwm, r - 1, k - 1);
    }
  }

  /** The tolerance is inclusive: the window edges map to battery `k`, one
      unit further out maps to no battery at all. */
  lemma IdentifyBatteryBoundaries(k: int)
    requires 1 <= k <= MaxBatteries
    ensures IdentifyBattery(BatteryPWM(k) - Tolerance) == k
    ensures IdentifyBattery(BatteryPWM(k) + Tolerance) == k
    ensures IdentifyBattery(BatteryPWM(k) - Tolerance - 1) == NoBattery
    ensures IdentifyBattery(BatteryPWM(k) + Tolerance + 1) == NoBattery
  {
    IdentifyBatteryExact(BatteryPWM(k) - Tolerance, k);
    IdentifyBatteryExact(BatteryPWM(k) + Tolerance, k);
  }
}
