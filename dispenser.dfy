/**
 * The dispensing side of the firmware as it runs: the globals it shares with
 * the interrupt handlers and the web and MQTT tasks are the fields of one
 * `Device`, and every handler, route and task body is a method proved to move
 * the device exactly as the functions of `DispenseSpec` say.
 */
module Dispenser {
  import opened DispenseSpec
  import opened DispenseProofs
  import WebTasks

  class Device {
    var hallEffectCount: nat
    var totalDistance: nat
    var totalTreatsDispensed: nat
    var distanceThreshold: nat
    var forceDispense: bool
    var outOfTreats: bool
    var outOfTreatsHopper: bool
    var dispensingTreat: bool
    var isrGuard: bool
    var hopperAccumMs: nat
    var motorUs: int
    var sensorLeds: bool
    var errorLed: bool
    /** Everything written to the motor, the sensor LEDs and the guard, in order. */
    ghost var outputs: seq<Output>

    ghost function Snapshot(): State
      reads this
    {
      State(hallEffectCount, totalDistance, totalTreatsDispensed, distanceThreshold,
            forceDispense, outOfTreats, outOfTreatsHopper, dispensingTreat, isrGuard,
            hopperAccumMs, motorUs, sensorLeds, errorLed, outputs)
    }

    /** The globals' initial values, the threshold and counters loaded from
        storage at boot, and the main task's initial stop command. */
    constructor (storedThreshold: nat, storedDistance: nat, storedTreats: nat)
      ensures Snapshot() == Boot(storedThreshold, storedDistance, storedTreats)
    {
      hallEffectCount := 0;
      totalDistance := storedDistance;
      totalTreatsDispensed := storedTreats;
      distanceThreshold := storedThreshold;
      forceDispense := false;
      outOfTreats := false;
      outOfTreatsHopper := false;
      dispensingTreat := false;
      isrGuard := true;
      hopperAccumMs := 0;
      motorUs := MotorStopUs;
      sensorLeds := false;
      errorLed := false;
      outputs := [Motor(MotorStopUs)];
    }

    // -------------------------------------------------------------- interrupts

    method HandleHopperPhotoDiodeIsr()
      modifies this
      ensures Snapshot() == HopperIsr(old(Snapshot()))
    {
      if !isrGuard {
        hopperAccumMs := 0;
        outOfTreatsHopper := false;
      }
    }

    method HandleDispensePhotoDiodeIsr()
      modifies this
      ensures Snapshot() == DispenseIsr(old(Snapshot()))
    {
      dispensingTreat := false;
    }

    /** The handlers that run, one after the other, while the main task yields. */
    method Interrupts(es: seq<Isr>)
      modifies this
      ensures Snapshot() == ApplyIsrs(old(Snapshot()), es)
    {
      var j := 0;
      while j < |es|
        invariant 0 <= j <= |es|
        invariant ApplyIsrs(Snapshot(), es[j..]) == ApplyIsrs(old(Snapshot()), es)
      {
        assert es[j..][1..] == es[j + 1..];
        if es[j] == HopperBeam {
          HandleHopperPhotoDiodeIsr();
        } else {
          HandleDispensePhotoDiodeIsr();
        }
        j := j + 1;
      }
    }

    // ---------------------------------------------------------- dispense session

    /** One dispense: arm the sensors, drive the motor until a treat leaves the
        chute or the 30 s ceiling passes, stop the motor, re-guard, count. */
    method DispenseTreat(start: nat, steps: seq<Step>)
      requires ClockFrom(start, steps) && PastCeiling(start, steps)
      modifies this
      ensures Snapshot() == Session(old(Snapshot()), start, steps)
    {
      ArmDispenser();
      ActuationLoop(start, steps);
      DisarmDispenser();
    }

    /** The start of a dispense: sensor LEDs on, guard down, motor forward. */
    method ArmDispenser()
      modifies this
      ensures Snapshot() == Arm(old(Snapshot()))
    {
      sensorLeds := true;
      outputs := outputs + [SensorLeds(true)];
      isrGuard := false;
      outputs := outputs + [Guard(false)];
      dispensingTreat := true;
      motorUs := MotorForwardUs;
      outputs := outputs + [Motor(MotorForwardUs)];
      assert outputs == old(outputs) + [SensorLeds(true), Guard(false), Motor(MotorForwardUs)];
    }

    /** The end of a dispense: motor stopped, guard up, LEDs off, and the
        treat counted unless the fatal fault is set. */
    method DisarmDispenser()
      modifies this
      ensures Snapshot() == Disarm(old(Snapshot()))
    {
      motorUs := MotorStopUs;
      outputs := outputs + [Motor(MotorStopUs)];
      isrGuard := true;
      outputs := outputs + [Guard(true)];
      sensorLeds := false;
      outputs := outputs + [SensorLeds(false)];
      assert outputs == old(outputs) + [Motor(MotorStopUs), Guard(true), SensorLeds(false)];
      if !outOfTreats {
        totalTreatsDispensed := totalTreatsDispensed + 1;
      }
    }

    /** The polled loop of a dispense: each pass yields (the interrupts fire),
        accounts the elapsed time to the hopper timer, and gives up past the ceiling. */
    method ActuationLoop(start: nat, steps: seq<Step>)
      requires ClockFrom(start, steps) && PastCeiling(start, steps)
      modifies this
      ensures Snapshot() == Actuate(old(Snapshot()), start, start, steps).state
    {
      ghost var target := Actuate(Snapshot(), start, start, steps).state;
      var looptime := start;
      var rest := steps;
      while dispensingTreat
        invariant start <= looptime && ClockFrom(looptime, rest)
        invariant dispensingTreat ==> PastCeiling(start, rest)
        invariant Actuate(Snapshot(), start, looptime, rest).state == target
        decreases |rest|
      {
        ActuateUnfold(Snapshot(), start, looptime, rest);
        var timedOut;
        looptime, timedOut := Pass(start, looptime, rest[0]);
        if timedOut {
          break;
        }
        rest := rest[1..];
      }
    }

    /** One pass of the actuation loop: the 1 ms yield (with its interrupts),
        the hopper timer, and the 30 s ceiling, which ends the session. */
    method Pass(start: nat, looptime: nat, step: Step) returns (now: nat, timedOut: bool)
      requires start <= looptime <= step.now
      modifies this
      ensures now == step.now && timedOut == (now - start > DispenseTimeoutMs)
      ensures var polled := PollHopper(ApplyIsrs(old(Snapshot()), step.isrs), step.now - looptime);
        Snapshot() == if timedOut then polled.(outOfTreats := true, dispensingTreat := false) else polled
    {
      Interrupts(step.isrs);
      now := step.now;
      hopperAccumMs := hopperAccumMs + (now - looptime);
      if hopperAccumMs > HopperEmptyMs {
        if !outOfTreatsHopper {
          outOfTreatsHopper := true;
        }
      }
      timedOut := now - start > DispenseTimeoutMs;
      if timedOut {
        outOfTreats := true;
        dispensingTreat := false;
      }
    }

    // ----------------------------------------------------------------- main task

    /** The start of a pass of the main task: the error LED shows the fatal
        fault, and a wheel pulse adds to the odometer. */
    method CountPulse(pressed: bool)
      modifies this
      ensures pressed ==> Snapshot() == WheelPulse(old(Snapshot()).(errorLed := old(outOfTreats)))
      ensures !pressed ==> Snapshot() == old(Snapshot()).(errorLed := old(outOfTreats))
    {
      errorLed := outOfTreats;
      if pressed {
        hallEffectCount := hallEffectCount + 1;
        totalDistance := totalDistance + Multiplier;
      }
    }

    /** One pass of the main task's loop: error LED, wheel pulse, trigger. */
    method MainTaskIteration(pressed: bool, start: nat, steps: seq<Step>)
      requires ClockFrom(start, steps) && PastCeiling(start, steps)
      modifies this
      ensures Snapshot() == MainIteration(old(Snapshot()), pressed, start, steps)
    {
      CountPulse(pressed);
      if (!outOfTreats && hallEffectCount * Multiplier >= distanceThreshold) || forceDispense {
        hallEffectCount := 0;
        forceDispense := false;
        DispenseTreat(start, steps);
      }
    }

    /** The main task over a sequence of passes, each preceded by the command
        (if any) that a route or the MQTT callback delivered during the delay. */
    method MainTask(ticks: seq<Tick>)
      requires CeilingsOk(ticks)
      modifies this
      ensures Snapshot() == MainRun(old(Snapshot()), ticks)
    {
      var rest := ticks;
      while rest != []
        invariant CeilingsOk(rest)
        invariant MainRun(Snapshot(), rest) == MainRun(old(Snapshot()), ticks)
        decreases |rest|
      {
        CeilingsTail(rest);
        Deliver(rest[0].command);
        MainTaskIteration(rest[0].pressed, rest[0].start, rest[0].steps);
        rest := rest[1..];
      }
    }

    /** A command delivered while the main task waits: a web route or the MQTT
        callback runs to completion. */
    method Deliver(c: Command)
      modifies this
      ensures Snapshot() == ApplyCommand(old(Snapshot()), c)
    {
      match c {
        case NoCommand =>
        case ManualDispense => RequestDispense();
        case ResetErrors => ResetErrorStates();
        case ResetStats => ResetStatistics();
      }
    }

    // ---------------------------------------------------------------- web routes

    /** The `/dispenseTreat` route. */
    method RequestDispense()
      modifies this
      ensures Snapshot() == ApplyCommand(old(Snapshot()), ManualDispense)
    {
      forceDispense := true;
    }

    /** The `/resetErrorStates` route. */
    method ResetErrorStates()
      modifies this
      ensures Snapshot() == ApplyCommand(old(Snapshot()), ResetErrors)
    {
      outOfTreats := false;
      outOfTreatsHopper := false;
    }

    /** The `/resetStats` route (its write to storage is not modelled). */
    method ResetStatistics()
      modifies this
      ensures Snapshot() == ApplyCommand(old(Snapshot()), ResetStats)
    {
      totalDistance := 0;
      totalTreatsDispensed := 0;
      hallEffectCount := 0;
    }

    /** `mqttCallback`: assemble the message, and force a dispense when it is
        "1" on the manual-dispense topic. */
    method MqttCallback(conf: WebTasks.MqttConfig, topic: string, payload: seq<WebTasks.byte>)
      modifies this
      ensures if WebTasks.IsManualDispense(conf.topicPrefix, topic, WebTasks.AsMessage(payload))
              then Snapshot() == ApplyCommand(old(Snapshot()), ManualDispense)
              else Snapshot() == old(Snapshot())
    {
      var message := WebTasks.PayloadToMessage(payload);
      assert message == WebTasks.AsMessage(payload);
      if topic == conf.topicPrefix + "/manualDispense" && message == "1" {
        forceDispense := true;
      }
    }
  }
}
