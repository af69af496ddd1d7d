/**
 * The network supervisor as it runs: `networkState`, the credentials buffer
 * and the credential queue's single slot are the fields of one `WifiManager`,
 * and the supervisor task, its two helpers and the two web routes that touch
 * it are methods proved to move it exactly as the functions of `NetworkSpec` say.
 */
module Supervisor {
  import opened Wrappers
  import opened CStrings
  import opened NetworkSpec
  import NetworkProofs

  class WifiManager {
    var networkState: NetworkState
    var config: WiFiConfig
    var wifiQueue: Option<WiFiConfig>
    /** Every state write, radio action and credential save, in order. */
    ghost var log: seq<NetEvent>
    /** The credentials loaded from storage at boot. */
    ghost const stored: WiFiConfig

    ghost function Snapshot(): Net
      reads this
    {
      Net(networkState, config, wifiQueue, log)
    }

    /** The state agrees with a replay of the log from boot, and the log has
        entered trial mode only from AP mode and has tried no credentials
        other than the ones saved last. */
    ghost predicate Valid()
      reads this
    {
      NetworkProofs.Consistent(Snapshot(), stored)
    }

    /** Boot: DISCONNECTED, the stored credentials loaded, the slot empty. */
    constructor (storedConfig: WiFiConfig)
      ensures Snapshot() == Net(Disconnected, storedConfig, None, [])
      ensures stored == storedConfig && Valid()
    {
      networkState := Disconnected;
      config := storedConfig;
      wifiQueue := None;
      log := [];
      stored := storedConfig;
    }

    method SetState(st: NetworkState)
      modifies this
      ensures Snapshot() == Become(old(Snapshot()), st)
    {
      networkState := st;
      log := log + [Enter(st)];
    }

    /** `connectToWiFi`: enter CONNECTING, start the station with the stored
        credentials, and poll the link until it is up or 15 s have passed. */
    method ConnectToWiFi(start: nat, polls: seq<Poll>)
      requires PollsOk(start, polls)
      modifies this
      ensures Snapshot() == NetworkSpec.ConnectToWiFi(old(Snapshot()), start, polls)
    {
      SetState(Connecting);
      log := log + [Begin(config)];
      ghost var begun := Snapshot();
      var i := 0;
      while polls[i].now - start < ConnectTimeoutMs
        invariant 0 <= i < |polls|
        invariant PollsOk(start, polls[i..])
        invariant ConnectResult(start, polls[i..]) == ConnectResult(start, polls)
        invariant Snapshot() == begun
        decreases |polls| - i
      {
        assert polls[i..][0] == polls[i];
        if polls[i].linkUp {
          SetState(Connected);
          return;
        }
        assert polls[i..][1..] == polls[i + 1..];
        i := i + 1;
      }
      assert polls[i..][0] == polls[i];
      SetState(Disconnected);
    }

    /** `startAPMode`: drop the station, open the setup access point, enter AP_MODE. */
    method StartAPMode()
      modifies this
      ensures Snapshot() == NetworkSpec.StartAPMode(old(Snapshot()))
    {
      log := log + [RadioOff, SoftAP];
      SetState(APMode);
    }

    /** The connection decision at the top of each round of the supervisor. */
    method StartUp(start: nat, polls: seq<Poll>)
      requires PollsOk(start, polls) && Valid()
      modifies this
      ensures Snapshot() == Startup(old(Snapshot()), start, polls)
      ensures Valid()
    {
      NetworkProofs.StartupConsistent(Snapshot(), stored, start, polls);
      if StrLen(config.ssid) > 0 {
        ConnectToWiFi(start, polls);
        if networkState != Connected {
          StartAPMode();
        }
      } else {
        StartAPMode();
      }
    }

    // ---------------------------------------------------------------- web routes

    /** The `/trial_mode` route. */
    method TrialModeRoute()
      requires Valid()
      modifies this
      ensures Snapshot() == TrialRoute(old(Snapshot()))
      ensures Valid()
    {
      if networkState == APMode {
        NetworkProofs.BecomeConsistent(Snapshot(), stored, TrialMode);
        SetState(TrialMode);
      }
    }

    /** The `/connect` route with both parameters: copy them into a message and
        send it into the empty slot. */
    method ConnectRoute(ssid: string, pass: string)
      requires wifiQueue.None? && Valid()
      modifies this
      ensures Snapshot() == NetworkSpec.ConnectRoute(old(Snapshot()), ssid, pass)
      ensures Valid()
    {
      var message := WiFiConfig(StrNCpy(ssid, SsidSize), StrNCpy(pass, PasswordSize));
      wifiQueue := Some(message);
    }

    // ---------------------------------------------------------- maintenance loop

    /** Receipt of queued credentials: copy, save, drop the radio, DISCONNECTED. */
    method ReceiveCredentials()
      requires wifiQueue.Some? && Valid()
      modifies this
      ensures Snapshot() == Receive(old(Snapshot()))
      ensures Valid()
    {
      NetworkProofs.ReceiveConsistent(Snapshot(), stored);
      var m := wifiQueue.value;
      wifiQueue := None;
      config := WiFiConfig(StrNCpy(m.ssid, SsidSize), StrNCpy(m.password, PasswordSize));
      log := log + [SaveWifi(config), RadioOff];
      SetState(Disconnected);
    }

    /** One pass of the maintenance loop, with the web request served during
        the previous delay; a `/connect` whose send found the slot full
        completes once the slot has been drained. */
    method MaintainPass(b: Beat) returns (reconnect: bool)
      requires Valid()
      modifies this
      ensures (Snapshot(), reconnect) == MaintainBeat(old(Snapshot()), b)
      ensures Valid()
    {
      var blocked := b.request.Connect? && wifiQueue.Some?;
      match b.request {
        case NoRequest =>
        case Trial => TrialModeRoute();
        case Connect(ssid, pass) =>
          if wifiQueue.None? {
            ConnectRoute(ssid, pass);
          }
      }
      if networkState == Connected && !b.linkUp {
        NetworkProofs.BecomeConsistent(Snapshot(), stored, Disconnected);
        SetState(Disconnected);
      }
      if wifiQueue.Some? {
        ReceiveCredentials();
      }
      if blocked {
        ConnectRoute(b.request.ssid, b.request.pass);
      }
      reconnect := networkState == Disconnected;
      if reconnect {
        NetworkProofs.ReplayExtend(Snapshot(), stored, [RadioOff]);
        log := log + [RadioOff];
      }
    }

    /** The maintenance loop: passes until the state is DISCONNECTED. */
    method MaintainConnection(beats: seq<Beat>) returns (reconnect: bool)
      requires Valid()
      modifies this
      ensures (Snapshot(), reconnect) == Maintain(old(Snapshot()), beats)
      ensures Valid()
    {
      var i := 0;
      while i < |beats|
        invariant 0 <= i <= |beats|
        invariant Valid()
        invariant Maintain(Snapshot(), beats[i..]) == Maintain(old(Snapshot()), beats)
      {
        assert beats[i..][0] == beats[i];
        assert beats[i..][1..] == beats[i + 1..];
        reconnect := MaintainPass(beats[i]);
        if reconnect {
          return;
        }
        i := i + 1;
      }
      reconnect := false;
    }

    /** `wifiManagerTask`: connection decision then maintenance, round after
        round, for as long as each maintenance loop breaks out to reconnect.
        Throughout, the log keeps the two rules of `Valid`. */
    method WifiManagerTask(rounds: seq<Round>)
      requires RoundsOk(rounds) && Valid()
      modifies this
      ensures Snapshot() == Supervise(old(Snapshot()), rounds)
      ensures Valid()
    {
      var i := 0;
      while i < |rounds|
        invariant 0 <= i <= |rounds|
        invariant Valid()
        invariant RoundsOk(rounds[i..])
        invariant Supervise(Snapshot(), rounds[i..]) == Supervise(old(Snapshot()), rounds)
      {
        assert rounds[i..][0] == rounds[i];
        assert rounds[i..][1..] == rounds[i + 1..];
        StartUp(rounds[i].start, rounds[i].polls);
        var reconnect := MaintainConnection(rounds[i].beats);
        if !reconnect {
          return;
        }
        i := i + 1;
      }
    }
  }
}
