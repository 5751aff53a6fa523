/** The whole subsystem as the robot drives it: the observed state and the
    change detector's confirmed pair, advanced once per robot loop by
    `periodic()` followed by `checkBatteryStatus()`. */
module BatteryManager {
  import opened Store
  import opened Identification
  import opened Health
  import opened ObservedState
  import opened ChangeDetector

  datatype Manager = Manager(observed: Observation, detector: DetectorState)

  /** What one robot loop reads from outside: the scaled PWM reading, the
      two store entries, and whether the check interval has elapsed */
  datatype LoopInput = LoopInput(
    pwm: int,
    nameEntry: Entry<string>,
    installedEntry: Entry<bool>,
    elapsed: bool)

  datatype Step = Step(manager: Manager, event: Event)

  /** The constructor's state */
  const InitialManager: Manager := Manager(ObservedState.Initial, ChangeDetector.Initial)

  /** The state every reachable manager is in */
  predicate Valid(m: Manager)
  {
    && Consistent(m.observed)
    && Inv(m.detector)
    && 0 <= m.detector.lastBatteryNumber <= MaxBatteries
  }

  /** The events a valid manager can report name real batteries, and a
      change is always between two different ones. */
  predicate EventWellFormed(e: Event)
  {
    && (e.Installed? ==> 1 <= e.battery <= MaxBatteries)
    && (e.Changed? ==>
         1 <= e.previous <= MaxBatteries && 1 <= e.current <= MaxBatteries && e.previous != e.current)
  }

  /** `periodic()`: refresh the observed state from a new reading */
  function Periodic(m: Manager, pwm: int, nameEntry: Entry<string>, installedEntry: Entry<bool>): (m': Manager)
    ensures m'.detector == m.detector
    ensures m'.observed == ReadPWMSignal(pwm, nameEntry, installedEntry)
    ensures m'.observed.batteryNumber == IdentifyBattery(pwm)
    ensures Valid(m) ==> Valid(m')
  {
    m.(observed := ReadPWMSignal(pwm, nameEntry, installedEntry))
  }

  /** `checkBatteryStatus()` on the manager's own observed state */
  function CheckStatus(m: Manager, elapsed: bool): (st: Step)
    ensures st.manager.observed == m.observed
    ensures !elapsed ==> st == Step(m, NoEvent)
    ensures elapsed ==>
      st.manager.detector == DetectorState(IsBatteryInstalled(m.observed), m.observed.batteryNumber)
    ensures elapsed ==> (st.event.Installed? <==>
      IsBatteryInstalled(m.observed) && !m.detector.lastBatteryState)
    ensures elapsed ==> (st.event.Removed? <==>
      !IsBatteryInstalled(m.observed) && m.detector.lastBatteryState)
    ensures elapsed ==> (st.event.Changed? <==>
      && IsBatteryInstalled(m.observed) && m.detector.lastBatteryState
      && m.observed.batteryNumber != m.detector.lastBatteryNumber
      && m.detector.lastBatteryNumber != 0)
    ensures st.event.Installed? ==> st.event.battery == m.observed.batteryNumber
    ensures st.event.Changed? ==>
      st.event.previous == m.detector.lastBatteryNumber && st.event.current == m.observed.batteryNumber
    ensures Valid(m) ==> Valid(st.manager) && EventWellFormed(st.event)
  {
    var p := CheckBatteryStatus(m.detector, elapsed, IsBatteryInstalled(m.observed), m.observed.batteryNumber);
    Step(m.(detector := p.next), p.event)
  }

  /** One robot loop: `periodic()` then `checkBatteryStatus()` */
  function Loop(m: Manager, input: LoopInput): (st: Step)
    ensures Valid(m) ==> Valid(st.manager) && EventWellFormed(st.event)
    ensures st.manager.observed == ReadPWMSignal(input.pwm, input.nameEntry, input.installedEntry)
    ensures !input.elapsed ==> st.manager.detector == m.detector && st.event == NoEvent
    ensures input.elapsed ==>
      st.manager.detector == DetectorState(IsBatteryInstalled(st.manager.observed), st.manager.observed.batteryNumber)
    ensures input.elapsed ==> (st.event.Installed? <==>
      IsBatteryInstalled(st.manager.observed) && !m.detector.lastBatteryState)
    ensures input.elapsed ==> (st.event.Removed? <==>
      !IsBatteryInstalled(st.manager.observed) && m.detector.lastBatteryState)
    ensures st.event == CheckBatteryStatus(m.detector, input.elapsed,
      IsBatteryInstalled(st.manager.observed), st.manager.observed.batteryNumber).event
  {
    CheckStatus(Periodic(m, input.pwm, input.nameEntry, input.installedEntry), input.elapsed)
  }

  /** `getBatteryHealthLevel()` for the usage count read from the store */
  function BatteryHealthLevel(usageEntry: Entry<int>): (r: int)
    ensures usageEntry.Missing? ==> r == LevelGood
    ensures usageEntry.Present? ==> r == HealthLevel(usageEntry.value)
  {
    HealthLevel(usageEntry.GetOr(0))
  }

  /** `getHealthWarning()`: the message names the battery currently identified */
  function BatteryHealthWarning(m: Manager, usageEntry: Entry<int>): (w: Warning)
    ensures w.IsEmpty() <==> BatteryHealthLevel(usageEntry) == LevelGood
    ensures !w.IsEmpty() ==> w.battery == m.observed.batteryNumber
    ensures w.HighUsage? <==> BatteryHealthLevel(usageEntry) == LevelWarning
    ensures w.NeedsReplacement? <==> BatteryHealthLevel(usageEntry) == LevelCritical
  {
    HealthWarning(BatteryHealthLevel(usageEntry), m.observed.batteryNumber)
  }

  lemma InitialManagerValid()
    ensures Valid(InitialManager)
  {
  }

  datatype History = History(final: Manager, events: seq<Event>)

  /** The robot loops of `inputs`, in order, starting from `m` */
  function Loops(m: Manager, inputs: seq<LoopInput>): (h: History)
    ensures |h.events| == |inputs|
    decreases |inputs|
  {
    if |inputs| == 0 then History(m, [])
    else
      var st := Loop(m, inputs[0]);
      var rest := Loops(st.manager, inputs[1..]);
      History(rest.final, [st.event] + rest.events)
  }

  /** From the constructor on, any sequence of robot loops keeps the manager
      valid and reports only well-formed events. */
  lemma {:induction false} LoopsKeepValid(m: Manager, inputs: seq<LoopInput>)
    requires Valid(m)
    ensures Valid(Loops(m, inputs).final)
    ensures forall i :: 0 <= i < |inputs| ==> EventWellFormed(Loops(m, inputs).events[i])
    decreases |inputs|
  {
    if |inputs| > 0 {
      var st := Loop(m, inputs[0]);
      LoopsKeepValid(st.manager, inputs[1..]);
      var h := Loops(m, inputs);
      assert h.events == [st.event] + Loops(st.manager, inputs[1..]).events;
      forall i | 0 <= i < |inputs|
        ensures EventWellFormed(h.events[i])
      {
        if i > 0 {
          assert h.events[i] == Loops(st.manager, inputs[1..]).events[i - 1];
        }
      }
    }
  }

  /** Battery 1 plugged in with a usage count of 5 and nothing else in the
      store: recognised, installed, in good health, no warning; the first
      elapsed poll reports it installed. */
  lemma ScenarioBatteryOne()
    ensures Loop(InitialManager, LoopInput(21, Missing, Missing, true))
      == Step(Manager(Observation(21, 1, "Battery 1", true), DetectorState(true, 1)), Installed(1))
    ensures BatteryHealthLevel(Present(5)) == LevelGood
    ensures BatteryHealthWarning(Loop(InitialManager, LoopInput(21, Missing, Missing, true)).manager, Present(5))
      == NoWarning
  {
  }

  /** A zero reading is no battery, reported absent even if the store says
      installed. */
  lemma ScenarioNoBattery(m: Manager)
    ensures Loop(m, LoopInput(0, Missing, Present(true), false)).manager.observed
      == Observation(0, NoBattery, NoBatteryName, false)
  {
  }
}
