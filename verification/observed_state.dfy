/** The observed battery state, rebuilt on every `periodic()` call from the
    PWM reading and two NetworkTables entries: the battery's display name
    and the externally written "installed" flag. */
module ObservedState {
  import opened Store
  import opened Identification

  datatype Observation = Observation(
    pwmValue: int,
    batteryNumber: int,
    batteryName: string,
    batteryInstalled: bool)

  const NoBatteryName: string := "No Battery"

  /** Decimal digits of `n`, as Java's string concatenation prints an `int` */
  function NatToDecimal(n: nat): (s: string)
    ensures 1 <= |s|
    ensures forall i :: 0 <= i < |s| ==> '0' <= s[i] <= '9'
    ensures DecimalValue(s) == n
    ensures |s| == 1 || s[0] != '0'
  {
    if n < 10 then [('0' as int + n) as char]
    else NatToDecimal(n / 10) + [('0' as int + n % 10) as char]
  }

  /** The number a string of decimal digits denotes */
  function DecimalValue(s: string): nat
  {
    if |s| == 0 then 0
    else
      var d := s[|s| - 1] as int - '0' as int;
      DecimalValue(s[..|s| - 1]) * 10 + (if 0 <= d <= 9 then d else 0)
  }

  /** The name shown for battery `n` when the store holds none */
  function DefaultName(n: nat): (s: string)
    ensures |s| > 8 && s[..8] == "Battery "
    ensures DecimalValue(s[8..]) == n
    ensures forall i :: 8 <= i < |s| ==> '0' <= s[i] <= '9'
    ensures |s| == 9 || s[8] != '0'
  {
    "Battery " + NatToDecimal(n)
  }

  /** The state set up by the constructor, before the first reading */
  const Initial: Observation := Observation(0, NoBattery, NoBatteryName, false)

  /** The relations every observation the system builds satisfies */
  predicate Consistent(o: Observation)
  {
    && o.batteryNumber == IdentifyBattery(o.pwmValue)
    && (o.batteryNumber == NoBattery ==> o.batteryName == NoBatteryName && !o.batteryInstalled)
  }

  /** `readPWMSignal` after the scaling: classify the reading, then take the
      name and the installed flag from the store (defaulting to
      "Battery <n>" and true), or "No Battery" and false when nothing was
      recognised. */
  function ReadPWMSignal(pwm: int, nameEntry: Entry<string>, installedEntry: Entry<bool>): (o: Observation)
    ensures o.pwmValue == pwm
    ensures 0 <= o.batteryNumber <= MaxBatteries
    ensures o.batteryNumber == NoBattery ==> o.batteryName == NoBatteryName && !o.batteryInstalled
    ensures o.batteryNumber != NoBattery ==> IsWithinTolerance(pwm, BatteryPWM(o.batteryNumber))
    ensures o.batteryNumber != NoBattery ==>
      && (o.batteryInstalled <==> installedEntry != Present(false))
      && (nameEntry.Missing? ==> o.batteryName == DefaultName(o.batteryNumber))
      && (nameEntry.Present? ==> o.batteryName == nameEntry.value)
    ensures Consistent(o)
  {
    var n := IdentifyBattery(pwm);
    if n > 0 then
      Observation(pwm, n, nameEntry.GetOr(DefaultName(n)), installedEntry.GetOr(true))
    else
      Observation(pwm, n, NoBatteryName, false)
  }

  /** `isBatteryInstalled()` */
  function IsBatteryInstalled(o: Observation): (r: bool)
    ensures r ==> o.batteryNumber > 0
    ensures Consistent(o) ==> (r <==> o.batteryInstalled)
  {
    o.batteryInstalled && o.batteryNumber > 0
  }

  /** `isBatteryInstalled(batteryNum)` */
  function IsBatteryNumberInstalled(o: Observation, batteryNum: int): (r: bool)
    ensures Consistent(o) ==> (r <==> IsBatteryInstalled(o) && o.batteryNumber == batteryNum)
    ensures Consistent(o) && r ==> 1 <= batteryNum <= MaxBatteries
  {
    o.batteryNumber == batteryNum && o.batteryInstalled
  }

  lemma InitialConsistent()
    ensures Consistent(Initial)
  {
  }

  /** The installed flag read back from the store matters only when a
      battery is recognised: with nothing recognised the battery is reported
      absent whatever the store says. */
  lemma InstalledNeedsRecognisedBattery(pwm: int, nameEntry: Entry<string>, installedEntry: Entry<bool>)
    ensures IsBatteryInstalled(ReadPWMSignal(pwm, nameEntry, installedEntry))
      <==> IdentifyBattery(pwm) != NoBattery && installedEntry != Present(false)
  {
  }
}
