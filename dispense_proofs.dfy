/**
 * Properties of the dispensing model: what the interrupts may touch, that every
 * session ends with the motor stopped, how it ends (treat seen or 30 s fault),
 * how the hopper timer carries over between sessions, and what the main task
 * preserves over any number of passes.
 */
module DispenseProofs {
  import opened DispenseSpec

  /** No interrupt of kind `e` fires during any of the steps. */
  ghost predicate NoBeam(steps: seq<Step>, e: Isr) {
    forall i :: 0 <= i < |steps| ==> e !in steps[i].isrs
  }

  /** The hopper warning is up whenever the timer is past 5000 ms. */
  predicate HopperConsistent(s: State) {
    s.hopperAccumMs > HopperEmptyMs ==> s.outOfTreatsHopper
  }

  /** What the outputs record of one whole session. */
  function SessionOutputs(): seq<Output> {
    [SensorLeds(true), Guard(false), Motor(MotorForwardUs), Motor(MotorStopUs), Guard(true), SensorLeds(false)]
  }

  // ---------------------------------------------------------------- interrupts

  /** The handlers only touch the dispensing flag, the hopper timer and the
      hopper warning. */
  lemma {:induction false} IsrsFrame(s: State, es: seq<Isr>)
    ensures var r := ApplyIsrs(s, es);
      r == s.(dispensingTreat := r.dispensingTreat, hopperAccumMs := r.hopperAccumMs,
              outOfTreatsHopper := r.outOfTreatsHopper)
    decreases |es|
  {
    if es != [] {
      var s1 := ApplyIsr(s, es[0]);
      assert s1 == s.(dispensingTreat := s1.dispensingTreat, hopperAccumMs := s1.hopperAccumMs,
                      outOfTreatsHopper := s1.outOfTreatsHopper);
      IsrsFrame(s1, es[1..]);
    }
  }

  /** The handlers keep the hopper warning up whenever the timer is past 5000 ms. */
  lemma {:induction false} IsrsKeepHopperConsistent(s: State, es: seq<Isr>)
    requires HopperConsistent(s)
    ensures HopperConsistent(ApplyIsrs(s, es))
    decreases |es|
  {
    if es != [] {
      IsrsKeepHopperConsistent(ApplyIsr(s, es[0]), es[1..]);
    }
  }

  /** A dispense edge always clears the dispensing flag; without one the flag
      is untouched, and without a hopper edge so are the timer and the warning. */
  lemma {:induction false} IsrsFlags(s: State, es: seq<Isr>)
    ensures var r := ApplyIsrs(s, es);
      && (DispenseBeam in es ==> !r.dispensingTreat)
      && (DispenseBeam !in es ==> r.dispensingTreat == s.dispensingTreat)
      && (HopperBeam !in es ==> r.hopperAccumMs == s.hopperAccumMs && r.outOfTreatsHopper == s.outOfTreatsHopper)
    decreases |es|
  {
    if es != [] {
      var s1 := ApplyIsr(s, es[0]);
      IsrsFlags(s1, es[1..]);
      assert es == [es[0]] + es[1..];
      if DispenseBeam in es && DispenseBeam !in es[1..] {
        assert es[0] == DispenseBeam;
      }
    }
  }

  /** With the guard up and no session running, interrupts change nothing:
      outside a session's window the handlers are harmless. */
  lemma {:induction false} IdleIgnoresIsrs(s: State, es: seq<Isr>)
    requires Idle(s)
    ensures ApplyIsrs(s, es) == s
    decreases |es|
  {
    if es != [] {
      IdleIgnoresIsrs(ApplyIsr(s, es[0]), es[1..]);
    }
  }

  // ------------------------------------------------------------ actuation loop

  /** The loop only changes the dispensing flag, the fatal fault, the hopper
      timer and the hopper warning, and never clears the fatal fault. */
  lemma {:induction false} ActuateFrame(s: State, start: nat, looptime: nat, steps: seq<Step>)
    requires start <= looptime && ClockFrom(looptime, steps)
    ensures var r := Actuate(s, start, looptime, steps).state;
      && r == s.(dispensingTreat := r.dispensingTreat, outOfTreats := r.outOfTreats,
                 hopperAccumMs := r.hopperAccumMs, outOfTreatsHopper := r.outOfTreatsHopper)
      && (s.outOfTreats ==> r.outOfTreats)
    decreases |steps|
  {
    if s.dispensingTreat && steps != [] {
      IsrsFrame(s, steps[0].isrs);
      var polled := PollHopper(ApplyIsrs(s, steps[0].isrs), steps[0].now - looptime);
      if steps[0].now - start <= DispenseTimeoutMs {
        ClockTail(looptime, steps);
        ActuateFrame(polled, start, steps[0].now, steps[1..]);
      }
    }
  }

  /** The loop always ends with the dispensing flag down once the clock has
      passed the ceiling: either a dispense edge cleared it or the ceiling did. */
  lemma {:induction false} ActuateStops(s: State, start: nat, looptime: nat, steps: seq<Step>)
    requires start <= looptime && ClockFrom(looptime, steps)
    requires PastCeiling(start, steps)
    ensures !Actuate(s, start, looptime, steps).state.dispensingTreat
    decreases |steps|
  {
    if s.dispensingTreat {
      var polled := PollHopper(ApplyIsrs(s, steps[0].isrs), steps[0].now - looptime);
      if steps[0].now - start <= DispenseTimeoutMs {
        var k :| 0 <= k < |steps| && steps[k].now > start + DispenseTimeoutMs;
        assert steps[1..][k - 1] == steps[k];
        ClockTail(looptime, steps);
        ActuateStops(polled, start, steps[0].now, steps[1..]);
      }
    }
  }

  /** Without any dispense edge the ceiling ends the loop and raises the fatal fault. */
  lemma {:induction false} ActuateTimesOut(s: State, start: nat, looptime: nat, steps: seq<Step>)
    requires start <= looptime && ClockFrom(looptime, steps)
    requires s.dispensingTreat && PastCeiling(start, steps) && NoBeam(steps, DispenseBeam)
    ensures Actuate(s, start, looptime, steps).state.outOfTreats
    decreases |steps|
  {
    IsrsFlags(s, steps[0].isrs);
    var polled := PollHopper(ApplyIsrs(s, steps[0].isrs), steps[0].now - looptime);
    if steps[0].now - start <= DispenseTimeoutMs {
      var k :| 0 <= k < |steps| && steps[k].now > start + DispenseTimeoutMs;
      assert steps[1..][k - 1] == steps[k];
      ClockTail(looptime, steps);
      forall i | 0 <= i < |steps[1..]| ensures DispenseBeam !in steps[1..][i].isrs {
        assert steps[1..][i] == steps[i + 1];
      }
      ActuateTimesOut(polled, start, steps[0].now, steps[1..]);
    }
  }

  /** When the first dispense edge fires during step `k`, before the ceiling,
      the loop ends right after step `k` without touching the fatal fault. */
  lemma {:induction false} ActuateSeesTreat(s: State, start: nat, looptime: nat, steps: seq<Step>, k: nat)
    requires start <= looptime && ClockFrom(looptime, steps)
    requires s.dispensingTreat && k < |steps|
    requires NoBeam(steps[..k], DispenseBeam) && DispenseBeam in steps[k].isrs
    requires steps[k].now <= start + DispenseTimeoutMs
    ensures var r := Actuate(s, start, looptime, steps);
      r.looptime == steps[k].now && r.state.outOfTreats == s.outOfTreats && !r.state.dispensingTreat
    decreases |steps|
  {
    IsrsFlags(s, steps[0].isrs);
    IsrsFrame(s, steps[0].isrs);
    assert k > 0 ==> steps[..k][0] == steps[0];
    var polled := PollHopper(ApplyIsrs(s, steps[0].isrs), steps[0].now - looptime);
    ClockTail(looptime, steps);
    if k > 0 {
      assert steps[1..][k - 1] == steps[k];
      var before := steps[1..][..k - 1];
      forall i | 0 <= i < |before| ensures DispenseBeam !in before[i].isrs {
        assert before[i] == steps[..k][i + 1];
      }
      ActuateSeesTreat(polled, start, steps[0].now, steps[1..], k - 1);
    }
  }

  /** Without a hopper edge the timer grows by exactly the time the loop ran:
      nothing resets it, in particular not the start of a session. */
  lemma {:induction false} ActuateHopperCarry(s: State, start: nat, looptime: nat, steps: seq<Step>)
    requires start <= looptime && ClockFrom(looptime, steps)
    requires NoBeam(steps, HopperBeam)
    ensures var r := Actuate(s, start, looptime, steps);
      r.state.hopperAccumMs == s.hopperAccumMs + (r.looptime - looptime)
      && (s.outOfTreatsHopper ==> r.state.outOfTreatsHopper)
    decreases |steps|
  {
    if s.dispensingTreat && steps != [] {
      IsrsFlags(s, steps[0].isrs);
      var polled := PollHopper(ApplyIsrs(s, steps[0].isrs), steps[0].now - looptime);
      if steps[0].now - start <= DispenseTimeoutMs {
        ClockTail(looptime, steps);
        forall i | 0 <= i < |steps[1..]| ensures HopperBeam !in steps[1..][i].isrs {
          assert steps[1..][i] == steps[i + 1];
        }
        ActuateHopperCarry(polled, start, steps[0].now, steps[1..]);
      }
    }
  }

  /** Once the loop has run at least one pass, the hopper warning is up
      whenever the timer is past 5000 ms. */
  lemma {:induction false} ActuateHopperLatch(s: State, start: nat, looptime: nat, steps: seq<Step>)
    requires start <= looptime && ClockFrom(looptime, steps)
    requires (s.dispensingTreat && steps != []) || HopperConsistent(s)
    ensures HopperConsistent(Actuate(s, start, looptime, steps).state)
    decreases |steps|
  {
    if s.dispensingTreat && steps != [] {
      var polled := PollHopper(ApplyIsrs(s, steps[0].isrs), steps[0].now - looptime);
      assert HopperConsistent(polled);
      if steps[0].now - start <= DispenseTimeoutMs {
        ClockTail(looptime, steps);
        ActuateHopperLatch(polled, start, steps[0].now, steps[1..]);
      }
    }
  }

  /** One pass of a loop that is still dispensing, with the clock reaching
      past the ceiling: either the pass hits the ceiling and ends the loop with
      the fatal fault, or the rest of the loop starts from the pass's state. */
  lemma ActuateUnfold(s: State, start: nat, looptime: nat, steps: seq<Step>)
    requires start <= looptime && ClockFrom(looptime, steps)
    requires s.dispensingTreat && PastCeiling(start, steps)
    ensures steps != [] && looptime <= steps[0].now
    ensures var polled := PollHopper(ApplyIsrs(s, steps[0].isrs), steps[0].now - looptime);
      && (steps[0].now - start > DispenseTimeoutMs ==>
            Actuate(s, start, looptime, steps).state == polled.(outOfTreats := true, dispensingTreat := false))
      && (steps[0].now - start <= DispenseTimeoutMs ==>
            && ClockFrom(steps[0].now, steps[1..]) && PastCeiling(start, steps[1..])
            && Actuate(s, start, looptime, steps).state == Actuate(polled, start, steps[0].now, steps[1..]).state)
  {
    ClockTail(looptime, steps);
    if steps[0].now - start <= DispenseTimeoutMs {
      var k :| 0 <= k < |steps| && steps[k].now > start + DispenseTimeoutMs;
      assert steps[1..][k - 1] == steps[k];
    }
  }

  // ------------------------------------------------------------------ sessions

  /** Every session ends idle: dispensing flag down, motor commanded to stop
      before the guard goes back up, LEDs off. Only the fault flags, the hopper
      timer and the treat counter change, and the counter grows by one exactly
      when the session ends without the fatal fault. */
  lemma SessionEnds(s: State, start: nat, steps: seq<Step>)
    requires ClockFrom(start, steps) && PastCeiling(start, steps)
    ensures var r := Session(s, start, steps);
      && Idle(r)
      && r.outputs == s.outputs + SessionOutputs()
      && r.hallEffectCount == s.hallEffectCount && r.totalDistance == s.totalDistance
      && r.distanceThreshold == s.distanceThreshold && r.forceDispense == s.forceDispense
      && r.errorLed == s.errorLed
      && r.totalTreatsDispensed == s.totalTreatsDispensed + (if r.outOfTreats then 0 else 1)
      && (s.outOfTreats ==> r.outOfTreats)
  {
    ActuateFrame(Arm(s), start, start, steps);
    ActuateStops(Arm(s), start, start, steps);
  }

  /** A session in which no treat reaches the dispense sensor ends on the
      ceiling: fatal fault set and nothing counted. */
  lemma SessionTimesOut(s: State, start: nat, steps: seq<Step>)
    requires ClockFrom(start, steps) && PastCeiling(start, steps) && NoBeam(steps, DispenseBeam)
    ensures var r := Session(s, start, steps);
      r.outOfTreats && r.totalTreatsDispensed == s.totalTreatsDispensed && Idle(r)
  {
    SessionEnds(s, start, steps);
    ActuateTimesOut(Arm(s), start, start, steps);
  }

  /** A session whose first dispense edge comes before the ceiling leaves the
      fatal fault as it was, and counts one treat exactly when it was clear. */
  lemma SessionDelivers(s: State, start: nat, steps: seq<Step>, k: nat)
    requires ClockFrom(start, steps) && PastCeiling(start, steps) && k < |steps|
    requires NoBeam(steps[..k], DispenseBeam) && DispenseBeam in steps[k].isrs
    requires steps[k].now <= start + DispenseTimeoutMs
    ensures var r := Session(s, start, steps);
      && r.outOfTreats == s.outOfTreats
      && r.totalTreatsDispensed == s.totalTreatsDispensed + (if s.outOfTreats then 0 else 1)
  {
    SessionEnds(s, start, steps);
    ActuateSeesTreat(Arm(s), start, start, steps, k);
  }

  /** The hopper timer carries over from the previous session: without a
      hopper edge a session that sees its treat at step `k` adds exactly the
      time up to step `k` to whatever was left before, and raises the warning
      as soon as the total passes 5000 ms. */
  lemma SessionHopperCarriesOver(s: State, start: nat, steps: seq<Step>, k: nat)
    requires ClockFrom(start, steps) && k < |steps|
    requires NoBeam(steps, HopperBeam)
    requires NoBeam(steps[..k], DispenseBeam) && DispenseBeam in steps[k].isrs
    requires steps[k].now <= start + DispenseTimeoutMs
    ensures var r := Session(s, start, steps);
      && r.hopperAccumMs == s.hopperAccumMs + (steps[k].now - start)
      && (r.hopperAccumMs > HopperEmptyMs ==> r.outOfTreatsHopper)
  {
    ActuateSeesTreat(Arm(s), start, start, steps, k);
    ActuateHopperCarry(Arm(s), start, start, steps);
    if steps != [] {
      ActuateHopperLatch(Arm(s), start, start, steps);
    }
  }

  /** The scenario of two sessions: 4000 ms without a hopper treat left from
      the first, then 1500 ms more in the second, raise the hopper warning. */
  lemma HopperWarningAcrossSessions(s: State, start: nat, steps: seq<Step>, k: nat)
    requires s.hopperAccumMs == 4000 && !s.outOfTreatsHopper
    requires ClockFrom(start, steps) && k < |steps|
    requires NoBeam(steps, HopperBeam)
    requires NoBeam(steps[..k], DispenseBeam) && DispenseBeam in steps[k].isrs
    requires start + 1500 <= steps[k].now <= start + DispenseTimeoutMs
    ensures Session(s, start, steps).outOfTreatsHopper
  {
    SessionHopperCarriesOver(s, start, steps, k);
  }

  // ----------------------------------------------------------------- main task

  function Pulse(pressed: bool): nat { if pressed then 1 else 0 }

  /** One pass of the main task starts a session exactly when the trip
      distance, counting this pass's pulse, reaches the threshold with no fatal
      fault, or when a dispense is forced; a forced request is honoured even
      with the fault set. Starting one zeroes the trip counter and clears the
      request but keeps the lifetime distance; otherwise the pass only lights
      the error LED to match the fault and counts the pulse. */
  lemma TriggerIff(s: State, pressed: bool, start: nat, steps: seq<Step>)
    requires ClockFrom(start, steps) && PastCeiling(start, steps)
    ensures var r := MainIteration(s, pressed, start, steps);
      && var p := Pulse(pressed);
      && var started := (!s.outOfTreats && (s.hallEffectCount + p) * Multiplier >= s.distanceThreshold) || s.forceDispense;
      && (started ==> r.outputs == s.outputs + SessionOutputs() && r.hallEffectCount == 0 && !r.forceDispense
                      && r.totalTreatsDispensed == s.totalTreatsDispensed + (if r.outOfTreats then 0 else 1)
                      && (s.outOfTreats ==> r.outOfTreats))
      && (!started ==> r == s.(errorLed := s.outOfTreats, hallEffectCount := s.hallEffectCount + p,
                               totalDistance := s.totalDistance + p * Multiplier))
      && r.totalDistance == s.totalDistance + p * Multiplier
      && r.distanceThreshold == s.distanceThreshold
  {
    var lit := s.(errorLed := s.outOfTreats);
    var counted := if pressed then WheelPulse(lit) else lit;
    if DispenseDue(counted) {
      SessionEnds(counted.(hallEffectCount := 0, forceDispense := false), start, steps);
    }
  }

  /** A forced dispense runs the motor even with the fatal fault set, but the
      session counts no treat and the fault stays. */
  lemma ForcedDispenseWhileFaulted(s: State, pressed: bool, start: nat, steps: seq<Step>)
    requires ClockFrom(start, steps) && PastCeiling(start, steps)
    requires s.outOfTreats && s.forceDispense
    ensures var r := MainIteration(s, pressed, start, steps);
      && r.outputs == s.outputs + SessionOutputs()
      && r.outOfTreats && r.totalTreatsDispensed == s.totalTreatsDispensed
  {
    var lit := s.(errorLed := s.outOfTreats);
    var counted := if pressed then WheelPulse(lit) else lit;
    SessionEnds(counted.(hallEffectCount := 0, forceDispense := false), start, steps);
  }

  /** After the error reset the threshold trigger is live again at once. */
  lemma ResetReenablesThreshold(s: State)
    ensures DispenseDue(ApplyCommand(s, ResetErrors)) <==>
            s.hallEffectCount * Multiplier >= s.distanceThreshold || s.forceDispense
  {
  }

  // ---------------------------------------------------------------- main runs

  /** Every tick's clock reaches past the ceiling of a session started then. */
  ghost predicate CeilingsOk(ticks: seq<Tick>) {
    ClocksOk(ticks) && forall i :: 0 <= i < |ticks| ==> PastCeiling(ticks[i].start, ticks[i].steps)
  }

  /** No tick carries command `c`. */
  ghost predicate Without(ticks: seq<Tick>, c: Command) {
    forall i :: 0 <= i < |ticks| ==> ticks[i].command != c
  }

  /** Number of wheel pulses in a run. */
  function Pulses(ticks: seq<Tick>): nat {
    if ticks == [] then 0 else Pulse(ticks[0].pressed) + Pulses(ticks[1..])
  }

  lemma CeilingsTail(ticks: seq<Tick>)
    requires CeilingsOk(ticks) && ticks != []
    ensures CeilingsOk(ticks[1..])
  {
    forall i | 0 <= i < |ticks[1..]| ensures PastCeiling(ticks[1..][i].start, ticks[1..][i].steps) {
      assert ticks[1..][i] == ticks[i + 1];
    }
  }

  lemma ApplyCommandFrame(s: State, c: Command)
    ensures Idle(s) ==> Idle(ApplyCommand(s, c))
    ensures ApplyCommand(s, c).outputs == s.outputs
  {
  }

  /** Lifetime distance is exactly the pulses times 22 cm, however many
      dispenses ran, as long as no stats reset intervenes. */
  lemma {:induction false} RunDistance(s: State, ticks: seq<Tick>)
    requires CeilingsOk(ticks) && Without(ticks, ResetStats)
    ensures MainRun(s, ticks).totalDistance == s.totalDistance + Multiplier * Pulses(ticks)
    decreases |ticks|
  {
    if ticks != [] {
      var t := ticks[0];
      var c := ApplyCommand(s, t.command);
      TriggerIff(c, t.pressed, t.start, t.steps);
      CeilingsTail(ticks);
      RunDistance(MainIteration(c, t.pressed, t.start, t.steps), ticks[1..]);
    }
  }

  /** The trip distance never exceeds the lifetime distance, whatever commands arrive. */
  lemma {:induction false} RunOdometerBound(s: State, ticks: seq<Tick>)
    requires CeilingsOk(ticks)
    requires s.hallEffectCount * Multiplier <= s.totalDistance
    ensures var r := MainRun(s, ticks); r.hallEffectCount * Multiplier <= r.totalDistance
    decreases |ticks|
  {
    if ticks != [] {
      var t := ticks[0];
      var c := ApplyCommand(s, t.command);
      assert c.hallEffectCount * Multiplier <= c.totalDistance;
      IterationOdometerBound(c, t.pressed, t.start, t.steps);
      CeilingsTail(ticks);
      RunOdometerBound(MainIteration(c, t.pressed, t.start, t.steps), ticks[1..]);
    }
  }

  lemma IterationOdometerBound(s: State, pressed: bool, start: nat, steps: seq<Step>)
    requires ClockFrom(start, steps) && PastCeiling(start, steps)
    requires s.hallEffectCount * Multiplier <= s.totalDistance
    ensures var r := MainIteration(s, pressed, start, steps); r.hallEffectCount * Multiplier <= r.totalDistance
  {
    TriggerIff(s, pressed, start, steps);
  }

  /** The controller is idle between passes of the main task. */
  lemma {:induction false} RunIdle(s: State, ticks: seq<Tick>)
    requires CeilingsOk(ticks) && Idle(s)
    ensures Idle(MainRun(s, ticks))
    decreases |ticks|
  {
    if ticks != [] {
      var t := ticks[0];
      var c := ApplyCommand(s, t.command);
      var lit := c.(errorLed := c.outOfTreats);
      var counted := if t.pressed then WheelPulse(lit) else lit;
      if DispenseDue(counted) {
        SessionEnds(counted.(hallEffectCount := 0, forceDispense := false), t.start, t.steps);
      }
      CeilingsTail(ticks);
      RunIdle(MainIteration(c, t.pressed, t.start, t.steps), ticks[1..]);
    }
  }

  /** One pass of the main task with the fatal fault set keeps it set unless
      the pass delivers the error reset, and counts no treat, whether or not a
      (forced) session runs. */
  lemma TickFaultLatched(s: State, t: Tick)
    requires ClockFrom(t.start, t.steps) && PastCeiling(t.start, t.steps)
    requires s.outOfTreats && t.command != ResetErrors
    ensures var r := MainIteration(ApplyCommand(s, t.command), t.pressed, t.start, t.steps);
      r.outOfTreats && (t.command != ResetStats ==> r.totalTreatsDispensed == s.totalTreatsDispensed)
  {
    TriggerIff(ApplyCommand(s, t.command), t.pressed, t.start, t.steps);
  }

  /** The fatal fault is cleared only by the error reset; while it stays set no
      treat is counted, forced dispenses included, unless the statistics are reset. */
  lemma {:induction false} RunFaultLatched(s: State, ticks: seq<Tick>)
    requires CeilingsOk(ticks) && Without(ticks, ResetErrors)
    requires s.outOfTreats
    ensures MainRun(s, ticks).outOfTreats
    ensures Without(ticks, ResetStats) ==> MainRun(s, ticks).totalTreatsDispensed == s.totalTreatsDispensed
    decreases |ticks|
  {
    if ticks != [] {
      var t := ticks[0];
      TickFaultLatched(s, t);
      CeilingsTail(ticks);
      RunFaultLatched(MainIteration(ApplyCommand(s, t.command), t.pressed, t.start, t.steps), ticks[1..]);
      if Without(ticks, ResetStats) {
        assert Without(ticks[1..], ResetStats);
      }
    }
  }

  /** The hopper warning is cleared only by a hopper edge or the error reset. */
  lemma {:induction false} RunHopperWarningLatched(s: State, ticks: seq<Tick>)
    requires CeilingsOk(ticks) && Without(ticks, ResetErrors)
    requires forall i :: 0 <= i < |ticks| ==> NoBeam(ticks[i].steps, HopperBeam)
    requires s.outOfTreatsHopper
    ensures MainRun(s, ticks).outOfTreatsHopper
    decreases |ticks|
  {
    if ticks != [] {
      var t := ticks[0];
      assert NoBeam(t.steps, HopperBeam);
      TickHopperWarningLatched(s, t);
      CeilingsTail(ticks);
      RunHopperWarningLatched(MainIteration(ApplyCommand(s, t.command), t.pressed, t.start, t.steps), ticks[1..]);
    }
  }

  /** One pass of the main task with no hopper edge and no error reset keeps
      the hopper warning, whether or not a session runs. */
  lemma TickHopperWarningLatched(s: State, t: Tick)
    requires ClockFrom(t.start, t.steps) && PastCeiling(t.start, t.steps)
    requires NoBeam(t.steps, HopperBeam) && t.command != ResetErrors
    requires s.outOfTreatsHopper
    ensures MainIteration(ApplyCommand(s, t.command), t.pressed, t.start, t.steps).outOfTreatsHopper
  {
    var c := ApplyCommand(s, t.command);
    var lit := c.(errorLed := c.outOfTreats);
    var counted := if t.pressed then WheelPulse(lit) else lit;
    if DispenseDue(counted) {
      var armed := Arm(counted.(hallEffectCount := 0, forceDispense := false));
      ActuateHopperCarry(armed, t.start, t.start, t.steps);
    }
  }
}
