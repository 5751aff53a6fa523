/** Battery change detection: a rate-limited poll that compares the current
    (installed, number) pair with the pair confirmed at the previous poll,
    reports one event, and then moves the confirmed pair forward. The poll
    timer is abstracted as a boolean: whether the check interval has
    elapsed since the last poll. */
module ChangeDetector {

  datatype DetectorState = DetectorState(lastBatteryState: bool, lastBatteryNumber: int)

  /** What a poll reports (each event is one console message in the system) */
  datatype Event =
    | NoEvent
    | Installed(battery: int)
    | Removed
    | Changed(previous: int, current: int)

  datatype Poll = Poll(next: DetectorState, event: Event)

  /** The state set up by the constructor */
  const Initial: DetectorState := DetectorState(false, 0)

  /** The confirmed pair only records "installed" for a recognised battery. */
  predicate Inv(s: DetectorState)
  {
    s.lastBatteryState ==> s.lastBatteryNumber > 0
  }

  /** `checkBatteryStatus()`: `current` is `isBatteryInstalled()` and
      `currentNumber` is `getBatteryNumber()` at the time of the poll. */
  function CheckBatteryStatus(s: DetectorState, elapsed: bool, current: bool, currentNumber: int): (p: Poll)
    ensures !elapsed ==> p.event == NoEvent && p.next == s
    ensures elapsed ==> p.next == DetectorState(current, currentNumber)
    ensures elapsed ==> (p.event.Installed? <==> current && !s.lastBatteryState)
    ensures elapsed ==> (p.event.Removed? <==> !current && s.lastBatteryState)
    ensures elapsed ==> (p.event.Changed? <==>
      current && s.lastBatteryState && currentNumber != s.lastBatteryNumber && s.lastBatteryNumber != 0)
    ensures p.event.Installed? ==> p.event.battery == currentNumber
    ensures p.event.Changed? ==> p.event.previous == s.lastBatteryNumber && p.event.current == currentNumber
  {
    if !elapsed then Poll(s, NoEvent)
    else
      var event :=
        if current && !s.lastBatteryState then Installed(currentNumber)
        else if !current && s.lastBatteryState then Removed
        else if current && currentNumber != s.lastBatteryNumber && s.lastBatteryNumber != 0 then
          Changed(s.lastBatteryNumber, currentNumber)
        else NoEvent;
      Poll(DetectorState(current, currentNumber), event)
  }

  /** A poll that sees the confirmed pair again reports nothing. */
  lemma UnchangedPollIsSilent(s: DetectorState, elapsed: bool)
    ensures CheckBatteryStatus(s, elapsed, s.lastBatteryState, s.lastBatteryNumber)
      == Poll(s, NoEvent)
  {
  }

  /** Two consecutive polls that see the same installed input cannot both
      report an installation. */
  lemma NoConsecutiveInstalled(s: DetectorState, elapsed1: bool, elapsed2: bool, current: bool, n1: int, n2: int)
    ensures var p1 := CheckBatteryStatus(s, elapsed1, current, n1);
      !(p1.event.Installed? && CheckBatteryStatus(p1.next, elapsed2, current, n2).event.Installed?)
  {
  }

  /** Each poll keeps the invariant, as long as "installed" is only ever
      reported for a recognised battery. */
  lemma CheckBatteryStatusPreservesInv(s: DetectorState, elapsed: bool, current: bool, currentNumber: int)
    requires Inv(s)
    requires current ==> currentNumber > 0
    ensures Inv(CheckBatteryStatus(s, elapsed, current, currentNumber).next)
  {
  }

  /** The poll without the `lastBatteryNumber != 0` test on the change branch */
  function CheckBatteryStatusUnguarded(s: DetectorState, elapsed: bool, current: bool, currentNumber: int): (p: Poll)
    ensures elapsed ==> (p.event.Changed? <==>
      current && s.lastBatteryState && currentNumber != s.lastBatteryNumber)
  {
    if !elapsed then Poll(s, NoEvent)
    else
      var event :=
        if current && !s.lastBatteryState then Installed(currentNumber)
        else if !current && s.lastBatteryState then Removed
        else if current && currentNumber != s.lastBatteryNumber then
          Changed(s.lastBatteryNumber, currentNumber)
        else NoEvent;
      Poll(DetectorState(current, currentNumber), event)
  }

  /** Under the invariant the `lastBatteryNumber != 0` test is redundant ... */
  lemma ChangedGuardRedundant(s: DetectorState, elapsed: bool, current: bool, currentNumber: int)
    requires Inv(s)
    ensures CheckBatteryStatus(s, elapsed, current, currentNumber)
      == CheckBatteryStatusUnguarded(s, elapsed, current, currentNumber)
  {
  }

  /** ... and the invariant is what makes it so. */
  lemma ChangedGuardNeedsInv()
    ensures !Inv(DetectorState(true, 0))
    ensures CheckBatteryStatus(DetectorState(true, 0), true, true, 3).event == NoEvent
    ensures CheckBatteryStatusUnguarded(DetectorState(true, 0), true, true, 3).event == Changed(0, 3)
  {
  }

  /** A swap between polls is reported as one change, not as a removal and
      an installation. */
  lemma SwapIsChanged()
    ensures CheckBatteryStatus(DetectorState(true, 2), true, true, 4) == Poll(DetectorState(true, 4), Changed(2, 4))
  {
  }

  // ---------------------------------------------------------------------
  // Runs of consecutive polls
  // ---------------------------------------------------------------------

  /** What one poll sees: whether the interval elapsed, and the current pair */
  datatype Sample = Sample(elapsed: bool, installed: bool, number: int)

  datatype Trace = Trace(final: DetectorState, events: seq<Event>)

  /** The polls of `samples`, in order, starting from `s` */
  function Run(s: DetectorState, samples: seq<Sample>): (t: Trace)
    ensures |t.events| == |samples|
    decreases |samples|
  {
    if |samples| == 0 then Trace(s, [])
    else
      var p := CheckBatteryStatus(s, samples[0].elapsed, samples[0].installed, samples[0].number);
      var rest := Run(p.next, samples[1..]);
      Trace(rest.final, [p.event] + rest.events)
  }

  function CountInstalled(events: seq<Event>): (n: nat)
    ensures n <= |events|
  {
    if |events| == 0 then 0
    else (if events[0].Installed? then 1 else 0) + CountInstalled(events[1..])
  }

  predicate AnyElapsed(samples: seq<Sample>)
  {
    exists i :: 0 <= i < |samples| && samples[i].elapsed
  }

  /** Every sample reports a recognised battery whenever it reports one installed */
  predicate WellFormed(samples: seq<Sample>)
  {
    forall i :: 0 <= i < |samples| ==> (samples[i].installed ==> samples[i].number > 0)
  }

  /** The invariant holds after any run of well-formed polls. */
  lemma {:induction false} RunPreservesInv(s: DetectorState, samples: seq<Sample>)
    requires Inv(s)
    requires WellFormed(samples)
    ensures Inv(Run(s, samples).final)
    decreases |samples|
  {
    if |samples| > 0 {
      var p := CheckBatteryStatus(s, samples[0].elapsed, samples[0].installed, samples[0].number);
      CheckBatteryStatusPreservesInv(s, samples[0].elapsed, samples[0].installed, samples[0].number);
      assert WellFormed(samples[1..]) by {
        forall i | 0 <= i < |samples[1..]|
          ensures samples[1..][i].installed ==> samples[1..][i].number > 0
        {
          assert samples[1..][i] == samples[i + 1];
        }
      }
      RunPreservesInv(p.next, samples[1..]);
    }
  }

  /** While a battery stays installed, however many polls happen, exactly one
      Installed event is reported if it was not yet confirmed and some poll's
      interval elapsed, and none otherwise. */
  lemma {:induction false} InstalledReportedOnce(s: DetectorState, samples: seq<Sample>)
    requires forall i :: 0 <= i < |samples| ==> samples[i].installed
    ensures CountInstalled(Run(s, samples).events)
      == (if !s.lastBatteryState && AnyElapsed(samples) then 1 else 0)
    ensures AnyElapsed(samples) ==> Run(s, samples).final.lastBatteryState
    ensures !AnyElapsed(samples) ==> Run(s, samples).final == s
    decreases |samples|
  {
    if |samples| > 0 {
      var p := CheckBatteryStatus(s, samples[0].elapsed, samples[0].installed, samples[0].number);
      var tail := samples[1..];
      assert forall i :: 0 <= i < |tail| ==> tail[i].installed by {
        forall i | 0 <= i < |tail| ensures tail[i].installed {
          assert tail[i] == samples[i + 1];
        }
      }
      InstalledReportedOnce(p.next, tail);
      var t := Run(s, samples);
      assert t.events == [p.event] + Run(p.next, tail).events;
      assert t.events[1..] == Run(p.next, tail).events;
      assert AnyElapsed(samples) <==> samples[0].elapsed || AnyElapsed(tail) by {
        if AnyElapsed(tail) {
          var i :| 0 <= i < |tail| && tail[i].elapsed;
          assert samples[i + 1].elapsed;
        }
        if AnyElapsed(samples) && !samples[0].elapsed {
          var i :| 0 <= i < |samples| && samples[i].elapsed;
          assert tail[i - 1].elapsed;
        }
      }
    }
  }
}
