# Cat wheel treat dispenser: the control core in Dafny

This is a model of the firmware of an ESP32 treat dispenser that sits beside a cat's exercise wheel. It covers the firmware's main file, `main.cpp`, and has five parts:

- **Odometer and trigger.** The main task counts the wheel's hall-effect pulses. Each pulse adds 22 cm to the trip counter and to the lifetime distance. A dispense starts when the trip reaches the distance threshold and the fatal "out of treats" fault is clear. It also starts when a dispense has been forced from the web page or over MQTT.
- **Dispense session.** A session switches on the two light-break sensors and lowers the interrupt guard. It then drives the continuous servo forward and polls. A polled pass ends the session when a treat is seen at the chute, or it sets the fatal fault once more than 30 s have passed. Meanwhile it accumulates time during which the hopper sensor saw nothing. When that timer passes 5 s, it raises the hopper-empty warning. The timer carries over from one session to the next. At the end the session stops the motor and raises the guard. It counts a treat only if the fault is clear.
- **Interrupt handlers.** The hopper handler restarts the hopper timer, but only while the guard is down. The dispense handler always ends the session.
- **Network supervisor.** It is a five-state machine: DISCONNECTED, CONNECTING, CONNECTED, AP_MODE, TRIAL_MODE. On each round it:
  - tries the stored credentials for 15 s;
  - falls back to a setup access point;
  - watches the link;
  - takes new credentials from a one-slot queue that the `/connect` route fills.

  The credentials are copied with `strncpy` into buffers of 32 and 64 characters. `/trial_mode` leaves AP mode.
- **Small guards.** These are:
  - the web server's start/stop rule;
  - the MQTT loop's gate;
  - the MQTT manual-dispense filter;
  - the error-reset and statistics-reset routes.

## How the model is built

Modules:

- `DispenseSpec` and `NetworkSpec` state each behaviour as pure functions over a snapshot of the globals. These are `State` and `Net`.
- The snapshots carry a ghost record of what was written to the outside. For dispensing that is the motor, the sensor LEDs and the guard. For the supervisor it is state writes, station starts, the access point, radio drops and credential saves. This record lets orderings be stated.
- `Dispenser.Device` and `Supervisor.WifiManager` are classes whose fields are the firmware's globals. Their methods follow the source's handlers, loops, tasks and routes. Each method is proved to move the object exactly as the matching function says: `Snapshot() == F(old(Snapshot()), inputs)`.
- `DispenseProofs`, `NetworkProofs` and `WebTasks` prove what the source promises about those functions.
- `CStrings` models `strlen` and `strncpy`.

Inputs:

- Time, sensor edges, the link status and web requests are inputs.
- A dispense session consumes a sequence of `Step`s. Each `Step` holds the interrupts that fire during the pass's 1 ms yield, then the clock reading.
- A connection attempt consumes a sequence of `Poll`s.
- A maintenance loop consumes `Beat`s. Each beat holds the web request served during the previous delay, then the link status.
- Clock readings are natural numbers.
  - Within a dispense session they never go backwards (`DispenseSpec.ClockFrom`).
  - The polls of a connection attempt need only be at or after the attempt's start (`NetworkSpec.PollsOk`). Only `NetworkProofs.ConnectFailsIff` also assumes they are in order (`NetworkProofs.Sorted`).
- Every loop that waits on the clock is given readings that reach past its timeout. This is how the 30 s and 15 s ceilings make the loops terminate.

### Where the code and the design differ

- **A forced dispense ignores the fatal fault.** The design says that, while the fatal fault is set, manual dispense requests are rejected too. In the code the trigger honours `forceDispense` whatever `outOfTreats` says (main.cpp:258). The model follows the code.
  - `DispenseProofs.ForcedDispenseWhileFaulted` proves the consequence: a forced dispense runs the motor while the fault is set, counts no treat, and leaves the fault set.
- **An error reset does not restart the hopper timer.** `/resetErrorStates` clears both flags but leaves the timer as it is. If the timer is already past 5 s, the first pass of the next session raises the hopper warning again.
- **`strncpy` can leave a buffer unterminated.** Credentials of 32 or more characters fill the SSID buffer with no terminator (`CStrings.StrNCpyTerminatedIff`). The firmware then passes it to `strlen` and `WiFi.begin`. The model keeps the bounded sequence and does not model reading past it.

## Model

| member | source | states |
|---|---|---|
| CStrings.StrLen | main.cpp:300 | `strlen` of a buffer: no NUL before the result, a NUL at it (or the whole buffer when there is none) |
| CStrings.StrNCpy | main.cpp:330-331 | `strncpy` into a buffer of `n` characters always fills exactly `n` characters |
| CStrings.StrNCpyAt | main.cpp:330-331 | each character of the copy is the source's character before the source's terminator, and NUL from there on |
| CStrings.StrNCpyLength | main.cpp:668-669 | the copy's string length is the source's length capped at the buffer size |
| CStrings.StrNCpyTerminatedIff | main.cpp:668-669 | the copy holds a terminator exactly when the source is shorter than the buffer |
| CStrings.StrNCpyIdempotent | main.cpp:330-331 | copying a copy again into a buffer of the same size changes nothing |
| CStrings.StrLenIsFirstNul | main.cpp:300 | `strlen` is the index of the first NUL |
| DispenseSpec.Boot | main.cpp:53-68 | after boot the device is idle (guard up, no session, LEDs off, motor stopped), both faults clear, no forced request, trip counter and hopper timer zero |
| DispenseSpec.Actuate | main.cpp:437-463 | the polled loop's clock reading never goes backwards |
| DispenseProofs.IsrsFrame | main.cpp:88-100 | the handlers touch only the dispensing flag, the hopper timer and the hopper warning |
| DispenseProofs.IsrsKeepHopperConsistent | main.cpp:88-95 | the handlers keep the hopper warning up whenever the timer is past 5000 ms |
| DispenseProofs.IsrsFlags | main.cpp:88-100 | a dispense edge always clears the dispensing flag; without one the flag is unchanged; without a hopper edge the timer and warning are unchanged |
| DispenseProofs.IdleIgnoresIsrs | main.cpp:88-95 | with the guard up and no session running, any interrupts leave the state unchanged |
| DispenseProofs.ActuateFrame | main.cpp:437-463 | the loop changes only the dispensing flag, the fatal fault, the hopper timer and warning; it never clears the fatal fault and records no output |
| DispenseProofs.ActuateStops | main.cpp:437-463 | once the clock passes the ceiling the loop has ended with the dispensing flag down |
| DispenseProofs.ActuateTimesOut | main.cpp:455-461 | a session that sees no treat at the chute ends with the fatal fault set |
| DispenseProofs.ActuateSeesTreat | main.cpp:437-463 | a first treat at the chute before the ceiling ends the loop at that very pass with the fatal fault as it was |
| DispenseProofs.ActuateHopperCarry | main.cpp:441-453 | with no hopper edge the timer grows by exactly the time the loop ran, and a warning already up stays up |
| DispenseProofs.ActuateHopperLatch | main.cpp:446-453 | after any pass the hopper warning is up whenever the timer is past 5000 ms |
| DispenseProofs.ActuateUnfold | main.cpp:439-462 | a pass that is still dispensing either hits the 30 s ceiling (fatal fault set, dispensing flag down) or hands the rest of the loop the pass's state, with the clock still reaching past the ceiling |
| DispenseProofs.SessionEnds | main.cpp:423-477 | every session ends idle with the motor stopped before the guard goes up and the LEDs go off, counts one treat exactly when the fault is clear, and never clears the fault |
| DispenseProofs.SessionTimesOut | main.cpp:455-474 | a session that sees no treat within 30 s ends with the fatal fault set, the motor stopped and no treat counted |
| DispenseProofs.SessionDelivers | main.cpp:437-474 | a treat seen within 30 s leaves the fatal fault as it was and counts exactly one treat unless the fault was already set |
| DispenseProofs.SessionHopperCarriesOver | main.cpp:439-453 | the hopper timer is not reset at the start of a session: it carries the previous sessions' time plus this one's |
| DispenseProofs.HopperWarningAcrossSessions | main.cpp:439-453 | 4000 ms carried over plus 1500 ms in the next session raise the hopper warning |
| DispenseProofs.TriggerIff | main.cpp:231-262 | a pass starts a session exactly when (no fatal fault and trip distance at the threshold) or a forced request; starting zeroes the trip counter and clears the request; otherwise the pass only updates the error LED and counts the pulse (one count, 22 cm) |
| DispenseProofs.ForcedDispenseWhileFaulted | main.cpp:258-262 | a forced request runs a whole session even while the fatal fault is set, counts no treat and keeps the fault |
| DispenseProofs.ResetReenablesThreshold | main.cpp:761-764 | right after the error reset the threshold trigger is live again |
| DispenseProofs.RunDistance | main.cpp:244-247 | over any passes without a statistics reset, the lifetime distance grows by exactly 22 cm per pulse |
| DispenseProofs.IterationOdometerBound | main.cpp:244-260 | one pass keeps the trip distance at most the lifetime distance |
| DispenseProofs.RunOdometerBound | main.cpp:244-260 | over any passes and commands, the trip distance never exceeds the lifetime distance |
| DispenseProofs.RunIdle | main.cpp:231-264 | between passes the device is always idle: guard up, no session, LEDs off, motor stopped |
| DispenseProofs.TickFaultLatched | main.cpp:233-262 | a pass with the fatal fault set and no error reset keeps the fault; without a statistics reset it counts no treat |
| DispenseProofs.RunFaultLatched | main.cpp:231-264 | without an error reset the fatal fault stays set, forced dispenses included; if there is no statistics reset either, no more treats are counted |
| DispenseProofs.TickHopperWarningLatched | main.cpp:446-453 | a pass with no hopper edge and no error reset keeps the hopper warning up, whether or not a session runs |
| DispenseProofs.RunHopperWarningLatched | main.cpp:446-453 | without an error reset or a hopper edge the hopper warning stays up |
| Dispenser.Device.constructor | main.cpp:53-68 | the globals' initial values with the stored threshold and counters |
| Dispenser.Device.HandleHopperPhotoDiodeIsr | main.cpp:88-95 | the hopper handler as its function states |
| Dispenser.Device.HandleDispensePhotoDiodeIsr | main.cpp:97-100 | the dispense handler as its function states |
| Dispenser.Device.Interrupts | main.cpp:88-100 | handlers run one after the other during a yield |
| Dispenser.Device.DispenseTreat | main.cpp:423-477 | one dispense moves the device exactly as the session function, whose properties are proved above |
| Dispenser.Device.ArmDispenser | main.cpp:426-435 | LEDs on, guard down, dispensing flag up, motor forward, in that order |
| Dispenser.Device.ActuationLoop | main.cpp:437-463 | the polled loop moves the device exactly as the actuation function |
| Dispenser.Device.Pass | main.cpp:439-462 | one pass: interrupts, hopper timer and warning, and the 30 s ceiling |
| Dispenser.Device.DisarmDispenser | main.cpp:464-474 | motor stopped, guard up, LEDs off, in that order, and a treat counted unless the fault is set |
| Dispenser.Device.CountPulse | main.cpp:233-256 | the error LED follows the fatal fault, and a pressed wheel adds one pulse and 22 cm, as `DispenseSpec.WheelPulse` says |
| Dispenser.Device.MainTaskIteration | main.cpp:233-262 | one pass of the main task as the iteration function |
| Dispenser.Device.MainTask | main.cpp:231-264 | the main task over any passes and commands as the run function |
| Dispenser.Device.Deliver | main.cpp:761-820 | a command from a route or the MQTT callback changes the device exactly as that command's flag and counter effects |
| Dispenser.Device.RequestDispense | main.cpp:818-820 | `/dispenseTreat` sets the forced request and nothing else |
| Dispenser.Device.ResetErrorStates | main.cpp:761-764 | `/resetErrorStates` clears both faults and nothing else |
| Dispenser.Device.ResetStatistics | main.cpp:794-799 | `/resetStats` zeroes lifetime distance, treats and trip counter and nothing else |
| Dispenser.Device.MqttCallback | main.cpp:507-521 | the callback sets the forced request exactly for the message "1" on the manual-dispense topic, and otherwise changes nothing |
| NetworkSpec.Copy | main.cpp:668-669 | the copied credentials fill the 32- and 64-character buffers |
| NetworkSpec.ConnectResult | main.cpp:538-551 | an attempt ends CONNECTED or DISCONNECTED |
| NetworkSpec.Serve | main.cpp:660-691 | serving a web request never changes the configuration, and never changes a slot that is already full |
| NetworkSpec.CheckLink | main.cpp:318-323 | the link check changes neither the configuration nor the slot |
| NetworkSpec.TakeSlot | main.cpp:326-336 | after the receive the slot is empty |
| NetworkProofs.ConnectIff | main.cpp:534-551 | CONNECTED exactly when some poll sees the link while it and every earlier poll read within 15 s |
| NetworkProofs.ConnectFailsIff | main.cpp:538-551 | with a monotone clock, DISCONNECTED exactly when no poll within 15 s saw the link |
| NetworkProofs.StartupPaths | main.cpp:300-313 | without an SSID: access point and AP_MODE, never CONNECTING; with one: CONNECTING, an attempt with the stored credentials, then CONNECTED, or DISCONNECTED followed by the access point and AP_MODE |
| NetworkProofs.MaintainBreaksIffDisconnected | main.cpp:316-347 | the maintenance loop breaks out exactly when the state is DISCONNECTED |
| NetworkProofs.MaintainLinkLoss | main.cpp:318-323 | a lost link while CONNECTED becomes DISCONNECTED and ends the loop on that pass |
| NetworkProofs.BeatReceivesLog | main.cpp:326-336 | a pass with credentials waiting logs exactly the trial-mode and link-loss transitions, if any, then the save, the radio drop, DISCONNECTED and the radio drop of the break, and no connection attempt |
| NetworkProofs.BeatReceivesState | main.cpp:326-343 | a pass with credentials waiting ends DISCONNECTED, breaks out, and holds the truncated copy of those credentials |
| NetworkProofs.BeatReceives | main.cpp:326-343 | waiting credentials are copied truncated into the configuration, saved, the radio dropped, DISCONNECTED entered and the loop left, with no connection attempt in between |
| NetworkProofs.MaintainReceives | main.cpp:326-343 | waiting credentials are taken on the first pass of the loop, which then breaks out |
| NetworkProofs.CredentialsRoundTrip | main.cpp:664-670 | credentials posted to `/connect` reach the configuration truncated to 32 and 64 characters: the route's copy and the supervisor's act as one |
| NetworkProofs.StartupConsistent | main.cpp:300-313 | the connection decision keeps the state and the configuration in step with the event record and the two history rules |
| NetworkProofs.ReceiveConsistent | main.cpp:326-336 | receiving credentials saves what it then holds, so state, credentials and the two rules still agree with the replayed log |
| NetworkProofs.BeatConsistent | main.cpp:316-347 | one maintenance pass keeps the same agreement |
| NetworkProofs.MaintainConsistent | main.cpp:316-347 | the whole maintenance loop keeps it |
| NetworkProofs.SuperviseConsistent | main.cpp:295-350 | any number of supervisor rounds keep it |
| NetworkProofs.SupervisorHistory | main.cpp:295-350 | from boot, TRIAL_MODE is only ever entered from AP_MODE, and every connection attempt uses the credentials saved last before it (or the stored ones) |
| Supervisor.WifiManager.constructor | main.cpp:28-35 | boot: DISCONNECTED, stored credentials, empty slot, and the history invariant |
| Supervisor.WifiManager.ConnectToWiFi | main.cpp:527-553 | the polled attempt moves the supervisor exactly as the attempt function |
| Supervisor.WifiManager.StartAPMode | main.cpp:555-563 | radio dropped, access point opened, AP_MODE |
| Supervisor.WifiManager.StartUp | main.cpp:300-313 | the connection decision as its function, keeping `Valid` |
| Supervisor.WifiManager.TrialModeRoute | main.cpp:687-691 | `/trial_mode` moves AP_MODE to TRIAL_MODE and leaves every other state alone, keeping `Valid` |
| Supervisor.WifiManager.ConnectRoute | main.cpp:660-670 | `/connect` puts the truncated credentials into the empty slot, keeping `Valid` |
| Supervisor.WifiManager.ReceiveCredentials | main.cpp:326-336 | copy, save, radio drop, DISCONNECTED, keeping `Valid` |
| Supervisor.WifiManager.MaintainPass | main.cpp:316-346 | one maintenance pass as its function, keeping `Valid` |
| Supervisor.WifiManager.MaintainConnection | main.cpp:316-347 | the maintenance loop as its function, keeping `Valid` after every pass |
| Supervisor.WifiManager.WifiManagerTask | main.cpp:295-350 | the supervisor task as its function, keeping the history invariant |
| WebTasks.LastDecisive | main.cpp:363-375 | none exactly when no observation was AP_MODE, CONNECTED or DISCONNECTED; otherwise one of these three, observed at a position after which nothing decisive was observed |
| WebTasks.ServerRunningIff | main.cpp:363-375 | the server runs exactly when the last deciding state was AP_MODE or CONNECTED |
| WebTasks.WebServerTask | main.cpp:352-378 | the web-server task's loop leaves the server running exactly when the last deciding state was AP_MODE or CONNECTED |
| WebTasks.MqttOnlyWhenConnected | main.cpp:390 | the MQTT loop runs only while CONNECTED, never in AP or trial mode |
| WebTasks.AsMessage | main.cpp:509-513 | the message has one character per payload byte |
| WebTasks.PayloadToMessage | main.cpp:509-513 | the callback's loop builds the message byte by byte |
| WebTasks.ManualDispenseOnlyOnOne | main.cpp:517-520 | a payload forces a dispense exactly when it is the single byte '1' on `<prefix>/manualDispense` |

## Left out

- Timing and interrupt windows:
  - The 32-bit wrap-around of `millis()` is not modelled. Clock readings are unbounded naturals, so the rollover after about 49 days does not appear.
  - The 32-bit counters `hallEffectCount`, `totalDistance` and `totalTreatsDispensed` are unbounded, so their overflow does not appear. Neither does that of the product `hallEffectCount * 22`.
  - Interrupts fire only during the 1 ms yield of an actuation pass.
    - An edge in the 200 ms settle delays is covered by the model's behaviour. Before the loop, the dispensing flag is set afterwards; after it, the guard is up.
    - A hopper edge between lowering the guard and the first pass (main.cpp:430-437) is not modelled.
  - The two `millis()` reads at the start of a session (main.cpp:433-434) are one reading in the model.
  - Each actuation pass reads `millis()` twice (main.cpp:444-445): once to feed the hopper timer and once to set `looptime`. The model has one reading per pass. In the code, time that passes between the two reads is never added to the timer, so the timer can lag the time spent dispensing.
  - `vTaskDelay`, the watchdog and task pinning are not modelled.
- Sensor input: the wheel input is the debounced `isPressed()` result. The debounce inside the button library is not modelled.
- Storage:
  - Loading and saving preferences is not modelled: `setup`, `saveConfig`, `saveWifi`, `clearConfig`, `clearWifi` and `setInitialConfig`.
  - `saveWifi` appears only as a `SaveWifi` event in the supervisor's record.
  - The statistics reset's writes to storage are not modelled.
- Radio, MQTT and the web server: these libraries' internals are not visible.
  - The radio's own behaviour is left out. `WiFi.disconnect`, `WiFi.softAP` and `WiFi.begin` are events. `WiFi.status()` is an input.
  - The radio-mode switches `WiFi.mode(WIFI_MODE_STA)` (main.cpp:334) and `WiFi.mode(WIFI_AP)` (main.cpp:558), and `WiFi.setSleep(false)` (main.cpp:536), are not recorded in the supervisor's record.
  - MQTT connection, reconnection and publishing are left out, along with the broker I/O. `mqttReconnect` and `mqttPublishUsageStats` are not modelled.
  - Route registration and the HTML responses are left out.
- Web routes:
  - `/scan` depends entirely on the radio's scan results.
  - `/settings`, `/reset_wifi`, `/reset_config`, `/restart` and the page routes only render pages or call storage and restart.
  - A `/connect` request that lacks one of its parameters only answers 400. It is the same as no request.
- Concurrency:
  - The supervisor's record serves web requests only between maintenance passes. Requests served during a connection attempt or the access-point start are not modelled.
  - The blocking send of `/connect` into a full slot is modelled as completing right after the supervisor drains the slot in the same pass.
  - Commands reach the dispenser only between main-task passes, never during a session. A route that runs while a session is under way is not modelled. For example, `/resetErrorStates` during the 200 ms settle after a timeout (main.cpp:458-471) would clear `outOfTreats` before the check at main.cpp:471, and the timed-out session would count as a treat.
  - True interrupt preemption and `volatile` semantics are not modelled.
- `saveStatisticsTask` is never started, because its creation is commented out.
- Strings and buffers:
  - The credential buffers are sequences of fixed length, not C arrays. Reading past an unterminated buffer is not modelled.
  - Arduino `String` values are sequences of characters with no special meaning for embedded NUL bytes.
- DispenseProofs.ActuateHopperCarry, DispenseProofs.SessionHopperCarriesOver: the timer grows by exactly the elapsed time only because each pass's two `millis()` reads (main.cpp:444-445) are one reading in the model. In the code the timer grows by at most the elapsed time.
- DispenseSpec.Actuate: its own contract states only that the clock never goes backwards. What the loop does is stated by the `Actuate*` and `Session*` lemmas.
- NetworkSpec.Serve, NetworkSpec.CheckLink, NetworkSpec.TakeSlot: their own contracts state only what they leave alone. What a pass does is stated by `NetworkProofs.BeatReceives`, `NetworkProofs.MaintainLinkLoss` and `NetworkProofs.CredentialsRoundTrip`.
- NetworkSpec.ConnectResult: its own contract states only the two possible outcomes. Which one occurs is stated by `NetworkProofs.ConnectIff` and `NetworkProofs.ConnectFailsIff`.
