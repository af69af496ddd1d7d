/**
 * The dispensing side of the firmware as pure functions over a snapshot of its
 * global state: the two photo-interrupter interrupt handlers, the odometer fed
 * by the wheel's hall-effect sensor, the dispense trigger of the main task and
 * one dispense session with its hopper-empty accumulator and 30 s ceiling.
 *
 * Time is the sequence of millisecond clock readings taken by the polling loop;
 * interrupts are atomic events that fire during the loop's 1 ms yield.
 */
module DispenseSpec {

  /** Centimetres of travel per wheel-sensor pulse. */
  const Multiplier: nat := 22
  /** Threshold used until a stored one is loaded: 100 m. */
  const DefaultDistanceThreshold: nat := 100 * 100
  /** Motor time without a treat seen at the hopper before it is reported empty. */
  const HopperEmptyMs: nat := 5000
  /** Hard ceiling of one dispense session. */
  const DispenseTimeoutMs: nat := 30000
  /** Servo pulse widths: neutral (stop) and dispense direction. */
  const MotorStopUs: int := 1500
  const MotorForwardUs: int := 1500 + 500

  /** A falling edge on one of the two light-break sensors. */
  datatype Isr = HopperBeam | DispenseBeam

  /** One pass of the actuation loop: the interrupts that fire during its
      1 ms yield, then the clock reading it takes. */
  datatype Step = Step(isrs: seq<Isr>, now: nat)

  /** What the controller drives, in the order it drives it: the servo, both
      sensor LEDs (switched together), and the interrupt guard flag. */
  datatype Output = Motor(us: int) | SensorLeds(on: bool) | Guard(on: bool)

  /** The shared globals of the dispensing side, plus the ordered record of
      everything written to the outputs. */
  datatype State = State(
    hallEffectCount: nat,
    totalDistance: nat,
    totalTreatsDispensed: nat,
    distanceThreshold: nat,
    forceDispense: bool,
    outOfTreats: bool,
    outOfTreatsHopper: bool,
    dispensingTreat: bool,
    isrGuard: bool,
    hopperAccumMs: nat,
    motorUs: int,
    sensorLeds: bool,
    errorLed: bool,
    outputs: seq<Output>)

  /** A request delivered by the web server or the MQTT callback between two
      passes of the main task. */
  datatype Command = NoCommand | ManualDispense | ResetErrors | ResetStats

  /** One pass of the main task: a command that arrived during its 5 ms yield,
      whether the wheel sensor reported a new pulse, and the clock readings a
      dispense started in this pass would take. */
  datatype Tick = Tick(command: Command, pressed: bool, start: nat, steps: seq<Step>)

  /** Between dispense sessions: guard set, no dispense in progress, LEDs off,
      motor stopped. */
  predicate Idle(s: State) {
    s.isrGuard && !s.dispensingTreat && !s.sensorLeds && s.motorUs == MotorStopUs
  }

  /** The state after boot: the declared initial values of the globals, the
      stored threshold and counters, and the stop command the main task writes first. */
  function Boot(distanceThreshold: nat, totalDistance: nat, totalTreatsDispensed: nat): (s: State)
    ensures Idle(s) && !s.outOfTreats && !s.outOfTreatsHopper && !s.forceDispense
    ensures s.hallEffectCount == 0 && s.hopperAccumMs == 0
  {
    State(0, totalDistance, totalTreatsDispensed, distanceThreshold,
          false, false, false, false, true, 0, MotorStopUs, false, false, [Motor(MotorStopUs)])
  }

  // ---------------------------------------------------------------- interrupts

  /** Hopper sensor handler: a treat seen at the hopper restarts the empty-hopper
      timer and clears its warning, but only while the guard is down. */
  function HopperIsr(s: State): State {
    if !s.isrGuard then s.(hopperAccumMs := 0, outOfTreatsHopper := false) else s
  }

  /** Dispense sensor handler: a treat leaving the chute ends the session. */
  function DispenseIsr(s: State): State {
    s.(dispensingTreat := false)
  }

  function ApplyIsr(s: State, e: Isr): State {
    match e
    case HopperBeam => HopperIsr(s)
    case DispenseBeam => DispenseIsr(s)
  }

  function ApplyIsrs(s: State, es: seq<Isr>): State
    decreases |es|
  {
    if es == [] then s else ApplyIsrs(ApplyIsr(s, es[0]), es[1..])
  }

  // ------------------------------------------------------------------ odometer

  /** One accepted wheel pulse. */
  function WheelPulse(s: State): State {
    s.(hallEffectCount := s.hallEffectCount + 1, totalDistance := s.totalDistance + Multiplier)
  }

  /** The trigger of the main task: enough distance with no fatal fault, or a
      forced request whatever the fault. */
  predicate DispenseDue(s: State) {
    (!s.outOfTreats && s.hallEffectCount * Multiplier >= s.distanceThreshold) || s.forceDispense
  }

  // ----------------------------------------------------------- dispense session

  /** Readings that start no earlier than `t` and never go backwards. */
  ghost predicate ClockFrom(t: nat, steps: seq<Step>) {
    && (forall i :: 0 <= i < |steps| ==> t <= steps[i].now)
    && (forall i, j :: 0 <= i < j < |steps| ==> steps[i].now <= steps[j].now)
  }

  /** Some reading lies beyond the 30 s ceiling of a session started at `start`. */
  ghost predicate PastCeiling(start: nat, steps: seq<Step>) {
    exists i :: 0 <= i < |steps| && steps[i].now > start + DispenseTimeoutMs
  }

  lemma ClockTail(t: nat, steps: seq<Step>)
    requires ClockFrom(t, steps) && steps != []
    ensures ClockFrom(steps[0].now, steps[1..])
  {
    forall i | 0 <= i < |steps[1..]| ensures steps[0].now <= steps[1..][i].now {
      assert steps[1..][i] == steps[i + 1];
    }
  }

  /** The accumulator update of one loop pass: add the time since the previous
      pass and raise the hopper warning once more than 5000 ms have built up. */
  function PollHopper(s: State, elapsed: nat): State {
    var acc := s.hopperAccumMs + elapsed;
    s.(hopperAccumMs := acc,
       outOfTreatsHopper := if acc > HopperEmptyMs && !s.outOfTreatsHopper then true else s.outOfTreatsHopper)
  }

  /** Where the actuation loop leaves the state, and its last clock reading. */
  datatype Actuation = Actuation(state: State, looptime: nat)

  /** The actuation loop: while a dispense is in progress, let the step's
      interrupts fire, account the elapsed time to the hopper timer, and give up
      with a fatal fault once more than 30000 ms have passed since `start`. */
  function Actuate(s: State, start: nat, looptime: nat, steps: seq<Step>): (r: Actuation)
    requires start <= looptime && ClockFrom(looptime, steps)
    ensures looptime <= r.looptime
    decreases |steps|
  {
    if !s.dispensingTreat || steps == [] then Actuation(s, looptime)
    else
      var now := steps[0].now;
      var polled := PollHopper(ApplyIsrs(s, steps[0].isrs), now - looptime);
      if now - start > DispenseTimeoutMs then
        Actuation(polled.(outOfTreats := true, dispensingTreat := false), now)
      else
        ClockTail(looptime, steps);
        Actuate(polled, start, now, steps[1..])
  }

  /** Sensor LEDs on, guard down, dispensing flag up, motor forward. */
  function Arm(s: State): State {
    s.(sensorLeds := true, isrGuard := false, dispensingTreat := true, motorUs := MotorForwardUs,
       outputs := s.outputs + [SensorLeds(true), Guard(false), Motor(MotorForwardUs)])
  }

  /** Motor stopped, guard up, LEDs off, and one more treat counted unless the
      session (or an earlier one) left the fatal fault set. */
  function Disarm(s: State): State {
    var stopped := s.(motorUs := MotorStopUs, isrGuard := true, sensorLeds := false,
                      outputs := s.outputs + [Motor(MotorStopUs), Guard(true), SensorLeds(false)]);
    if !stopped.outOfTreats then stopped.(totalTreatsDispensed := stopped.totalTreatsDispensed + 1)
    else stopped
  }

  /** One complete dispense session started at clock reading `start`. */
  function Session(s: State, start: nat, steps: seq<Step>): State
    requires ClockFrom(start, steps)
  {
    Disarm(Actuate(Arm(s), start, start, steps).state)
  }

  // ----------------------------------------------------------------- main task

  /** The flag and counter effects of the web routes and of the MQTT command. */
  function ApplyCommand(s: State, c: Command): State {
    match c
    case NoCommand => s
    case ManualDispense => s.(forceDispense := true)
    case ResetErrors => s.(outOfTreats := false, outOfTreatsHopper := false)
    case ResetStats => s.(totalDistance := 0, totalTreatsDispensed := 0, hallEffectCount := 0)
  }

  /** The body of the main task's loop: error LED, wheel pulse, trigger. */
  function MainIteration(s: State, pressed: bool, start: nat, steps: seq<Step>): State
    requires ClockFrom(start, steps)
  {
    var lit := s.(errorLed := s.outOfTreats);
    var counted := if pressed then WheelPulse(lit) else lit;
    if DispenseDue(counted) then Session(counted.(hallEffectCount := 0, forceDispense := false), start, steps)
    else counted
  }

  ghost predicate ClocksOk(ticks: seq<Tick>) {
    forall i :: 0 <= i < |ticks| ==> ClockFrom(ticks[i].start, ticks[i].steps)
  }

  /** The main task over a sequence of passes. */
  function MainRun(s: State, ticks: seq<Tick>): State
    requires ClocksOk(ticks)
    decreases |ticks|
  {
    if ticks == [] then s
    else
      var t := ticks[0];
      MainRun(MainIteration(ApplyCommand(s, t.command), t.pressed, t.start, t.steps), ticks[1..])
  }
}
