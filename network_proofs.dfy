/**
 * Properties of the network supervisor: how a connection attempt ends, the
 * two paths of the connection decision, when the maintenance loop breaks out,
 * what a credential update does, and two facts about the whole history: trial
 * mode is entered only from AP mode, and every connection attempt uses the
 * credentials most recently saved (or those loaded at boot).
 */
module NetworkProofs {
  import opened Wrappers
  import opened CStrings
  import opened NetworkSpec

  // -------------------------------------------------------- connection attempt

  /** Poll `i` sees the link, and it and every poll before it read within the timeout. */
  ghost predicate SeenInTime(start: nat, polls: seq<Poll>, i: int) {
    && 0 <= i < |polls| && polls[i].linkUp
    && forall j :: 0 <= j <= i ==> polls[j].now < start + ConnectTimeoutMs
  }

  /** The attempt ends CONNECTED exactly when some poll sees the link while
      it and every poll before it are still within the 15 s timeout. */
  lemma {:induction false} ConnectIff(start: nat, polls: seq<Poll>)
    requires PollsOk(start, polls)
    ensures ConnectResult(start, polls) == Connected <==> exists i :: SeenInTime(start, polls, i)
    decreases |polls|
  {
    if polls[0].now - start >= ConnectTimeoutMs {
    } else if polls[0].linkUp {
      assert SeenInTime(start, polls, 0);
    } else {
      var t := polls[1..];
      assert |polls| > 1;
      assert t[|t| - 1] == polls[|polls| - 1];
      ConnectIff(start, t);
      if exists i :: SeenInTime(start, polls, i) {
        var i :| SeenInTime(start, polls, i);
        assert i > 0;
        forall j | 0 <= j <= i - 1 ensures t[j].now < start + ConnectTimeoutMs {
          assert t[j] == polls[j + 1];
        }
        assert SeenInTime(start, t, i - 1);
      }
      if exists i :: SeenInTime(start, t, i) {
        var i :| SeenInTime(start, t, i);
        forall j | 0 <= j <= i + 1 ensures polls[j].now < start + ConnectTimeoutMs {
          if j > 0 {
            assert polls[j] == t[j - 1];
          }
        }
        assert SeenInTime(start, polls, i + 1);
      }
    }
  }

  ghost predicate Sorted(polls: seq<Poll>) {
    forall i, j :: 0 <= i < j < |polls| ==> polls[i].now <= polls[j].now
  }

  /** With a clock that never goes backwards, the attempt fails exactly when
      no poll taken within the timeout saw the link. */
  lemma ConnectFailsIff(start: nat, polls: seq<Poll>)
    requires PollsOk(start, polls) && Sorted(polls)
    ensures ConnectResult(start, polls) == Disconnected <==>
      forall i :: 0 <= i < |polls| && polls[i].now < start + ConnectTimeoutMs ==> !polls[i].linkUp
  {
    ConnectIff(start, polls);
    if exists i :: 0 <= i < |polls| && polls[i].now < start + ConnectTimeoutMs && polls[i].linkUp {
      var i :| 0 <= i < |polls| && polls[i].now < start + ConnectTimeoutMs && polls[i].linkUp;
      assert SeenInTime(start, polls, i);
    }
  }

  /** The connection decision: with no SSID stored the supervisor opens the
      setup access point without ever entering CONNECTING; with one it enters
      CONNECTING, tries the stored credentials, and ends CONNECTED, or
      DISCONNECTED and then AP_MODE. Neither path touches the credentials. */
  lemma StartupPaths(n: Net, start: nat, polls: seq<Poll>)
    requires PollsOk(start, polls)
    ensures var r := Startup(n, start, polls);
      && r.config == n.config && r.queue == n.queue
      && (r.state == Connected || r.state == APMode)
      && (!Configured(n.config) ==> r.log == n.log + [RadioOff, SoftAP, Enter(APMode)])
      && (Configured(n.config) && ConnectResult(start, polls) == Connected ==>
            r.log == n.log + [Enter(Connecting), Begin(n.config), Enter(Connected)])
      && (Configured(n.config) && ConnectResult(start, polls) == Disconnected ==>
            r.log == n.log + [Enter(Connecting), Begin(n.config), Enter(Disconnected), RadioOff, SoftAP, Enter(APMode)])
  {
  }

  // ---------------------------------------------------------- maintenance loop

  /** The maintenance loop breaks out exactly when it leaves the state
      DISCONNECTED: a DISCONNECTED state always ends the loop. */
  lemma {:induction false} MaintainBreaksIffDisconnected(n: Net, beats: seq<Beat>)
    requires n.state != Disconnected
    ensures Maintain(n, beats).1 <==> Maintain(n, beats).0.state == Disconnected
    decreases |beats|
  {
    if beats != [] {
      var (m, broke) := MaintainBeat(n, beats[0]);
      if !broke {
        MaintainBreaksIffDisconnected(m, beats[1..]);
      }
    }
  }

  /** A lost link while CONNECTED ends the loop on that very pass. */
  lemma MaintainLinkLoss(n: Net, beats: seq<Beat>)
    requires n.state == Connected && beats != [] && !beats[0].linkUp
    ensures Maintain(n, beats) == MaintainBeat(n, beats[0])
    ensures Maintain(n, beats).1 && Maintain(n, beats).0.state == Disconnected
  {
  }

  /** Events a pass may log before it takes queued credentials: entering
      trial mode (a `/trial_mode` request in AP mode) and the link-loss
      transition. Neither is a connection attempt. */
  ghost predicate NoAttempt(log: seq<NetEvent>) {
    forall e :: e in log ==> !e.Begin?
  }

  /** What serving a request logs: entering trial mode, for `/trial_mode` in AP mode. */
  function TrialEvents(n: Net, req: WebRequest): seq<NetEvent> {
    if req.Trial? && n.state == APMode then [Enter(TrialMode)] else []
  }

  /** What the link check logs: DISCONNECTED, when CONNECTED with the link down. */
  function LinkEvents(n: Net, linkUp: bool): seq<NetEvent> {
    if n.state == Connected && !linkUp then [Enter(Disconnected)] else []
  }

  /** What a pass logs before it looks at the slot. */
  function PreReceive(n: Net, b: Beat): seq<NetEvent> {
    TrialEvents(n, b.request) + LinkEvents(Serve(n, b.request), b.linkUp)
  }

  /** What a pass logs when it takes credentials `m` from the slot. */
  function ReceiveEvents(m: WiFiConfig): seq<NetEvent> {
    [SaveWifi(Copy(m.ssid, m.password)), RadioOff, Enter(Disconnected), RadioOff]
  }

  lemma ServeLog(n: Net, req: WebRequest)
    ensures Serve(n, req).log == n.log + TrialEvents(n, req)
  {
  }

  /** The log of a pass that takes queued credentials. */
  lemma BeatReceivesLog(n: Net, b: Beat, m: WiFiConfig)
    requires n.queue == Some(m)
    ensures MaintainBeat(n, b).0.log == n.log + PreReceive(n, b) + ReceiveEvents(m)
    ensures NoAttempt(PreReceive(n, b))
  {
    var served := Serve(n, b.request);
    ServeLog(n, b.request);
    var checked := CheckLink(served, b.linkUp);
    assert checked.log == n.log + PreReceive(n, b);
    var received := TakeSlot(checked);
    assert received == Receive(checked);
    var cfg := Copy(m.ssid, m.password);
    assert received.log == checked.log + [SaveWifi(cfg), RadioOff, Enter(Disconnected)];
    assert MaintainBeat(n, b).0.log == received.log + [RadioOff];
  }

  /** The state and configuration after a pass that takes queued credentials. */
  lemma BeatReceivesState(n: Net, b: Beat, m: WiFiConfig)
    requires n.queue == Some(m)
    ensures MaintainBeat(n, b).1 && MaintainBeat(n, b).0.state == Disconnected
    ensures MaintainBeat(n, b).0.config == Copy(m.ssid, m.password)
  {
    var served := Serve(n, b.request);
    assert served.queue == Some(m);
  }

  lemma LogSlices(prefix: seq<NetEvent>, mid: seq<NetEvent>, tail: seq<NetEvent>)
    requires |tail| == 4
    ensures var log := prefix + mid + tail;
      && |log| >= |prefix| + 4
      && log[..|prefix|] == prefix
      && log[|prefix|..] == mid + tail
      && log[|log| - 4..] == tail
  {
    var log := prefix + mid + tail;
    assert log[..|prefix|] == prefix;
    assert log[|prefix|..] == mid + tail;
    assert log[|log| - 4..] == tail;
  }

  /** One pass with credentials in the slot: they are copied (truncated)
      into the configuration and saved, the state becomes DISCONNECTED and the
      pass breaks out, and no connection attempt is logged on the way. */
  lemma BeatReceives(n: Net, b: Beat, m: WiFiConfig)
    requires n.queue == Some(m)
    ensures var r := MaintainBeat(n, b).0;
      && MaintainBeat(n, b).1 && r.state == Disconnected
      && r.config == Copy(m.ssid, m.password)
      && |r.log| >= |n.log| + 4
      && r.log[..|n.log|] == n.log
      && r.log[|r.log| - 4..] == [SaveWifi(r.config), RadioOff, Enter(Disconnected), RadioOff]
      && NoAttempt(r.log[|n.log|..])
  {
    BeatReceivesState(n, b, m);
    BeatReceivesLog(n, b, m);
    LogSlices(n.log, PreReceive(n, b), ReceiveEvents(m));
    var mid := PreReceive(n, b) + ReceiveEvents(m);
    assert NoAttempt(mid) by {
      forall e | e in mid ensures !e.Begin? {
        if e !in PreReceive(n, b) {
          assert e in ReceiveEvents(m);
        }
      }
    }
  }

  /** Credentials waiting in the slot are taken on the first pass of the
      maintenance loop, which then breaks out to reconnect. */
  lemma MaintainReceives(n: Net, beats: seq<Beat>, m: WiFiConfig)
    requires n.queue == Some(m) && beats != []
    ensures Maintain(n, beats) == MaintainBeat(n, beats[0])
    ensures Maintain(n, beats).1 && Maintain(n, beats).0.config == Copy(m.ssid, m.password)
  {
    BeatReceives(n, beats[0], m);
  }

  /** Credentials submitted through `/connect` reach the configuration as the
      request's values truncated to 32 and 64 characters: the route's copy and
      the supervisor's copy act as one. */
  lemma CredentialsRoundTrip(n: Net, ssid: string, pass: string, linkUp: bool)
    requires n.queue.None?
    ensures var (r, broke) := MaintainBeat(n, Beat(Connect(ssid, pass), linkUp));
      && broke && r.queue.None? && r.state == Disconnected
      && r.config == WiFiConfig(StrNCpy(ssid, SsidSize), StrNCpy(pass, PasswordSize))
  {
    StrNCpyIdempotent(ssid, SsidSize);
    StrNCpyIdempotent(pass, PasswordSize);
  }

  // -------------------------------------------------------------- the history

  /** What a replay of the event log tracks: the current state, the
      credentials last saved, and whether the log has so far kept both rules
      (trial mode entered only from AP mode; attempts use the saved credentials). */
  datatype Replay = Replay(state: NetworkState, saved: WiFiConfig, ok: bool)

  function ReplayEvent(p: Replay, e: NetEvent): Replay {
    match e
    case Enter(st) => Replay(st, p.saved, p.ok && (st == TrialMode ==> p.state == APMode))
    case Begin(c) => p.(ok := p.ok && c == p.saved)
    case SaveWifi(c) => p.(saved := c)
    case SoftAP => p
    case RadioOff => p
  }

  function ReplayLog(p: Replay, log: seq<NetEvent>): Replay
    decreases |log|
  {
    if log == [] then p else ReplayLog(ReplayEvent(p, log[0]), log[1..])
  }

  /** The replay as of boot: DISCONNECTED, with the credentials loaded from storage. */
  function BootReplay(stored: WiFiConfig): Replay {
    Replay(Disconnected, stored, true)
  }

  /** The supervisor's state agrees with a replay of its log from boot, and
      the log keeps both rules. */
  ghost predicate Consistent(n: Net, stored: WiFiConfig) {
    var r := ReplayLog(BootReplay(stored), n.log);
    r.ok && r.state == n.state && r.saved == n.config
  }

  lemma {:induction false} ReplayAppend(p: Replay, a: seq<NetEvent>, b: seq<NetEvent>)
    ensures ReplayLog(p, a + b) == ReplayLog(ReplayLog(p, a), b)
    decreases |a|
  {
    if a != [] {
      assert (a + b)[0] == a[0];
      assert (a + b)[1..] == a[1..] + b;
      ReplayAppend(ReplayEvent(p, a[0]), a[1..], b);
    } else {
      assert a + b == b;
    }
  }

  lemma {:induction false} ReplayOkMonotone(p: Replay, log: seq<NetEvent>)
    ensures ReplayLog(p, log).ok ==> p.ok
    decreases |log|
  {
    if log != [] {
      ReplayOkMonotone(ReplayEvent(p, log[0]), log[1..]);
    }
  }

  /** What a consistent log means, event by event: each entry into trial mode
      happens while the state is AP_MODE, and each connection attempt uses the
      credentials last saved before it (or the boot ones). */
  lemma ReplayMeaning(p: Replay, log: seq<NetEvent>, i: nat)
    requires ReplayLog(p, log).ok && i < |log|
    ensures log[i] == Enter(TrialMode) ==> ReplayLog(p, log[..i]).state == APMode
    ensures log[i].Begin? ==> log[i].config == ReplayLog(p, log[..i]).saved
  {
    assert log == log[..i] + [log[i]] + log[i + 1..];
    ReplayAppend(p, log[..i] + [log[i]], log[i + 1..]);
    ReplayAppend(p, log[..i], [log[i]]);
    ReplayOkMonotone(ReplayLog(p, log[..i] + [log[i]]), log[i + 1..]);
  }

  lemma ReplayPair(p: Replay, e1: NetEvent, e2: NetEvent)
    ensures ReplayLog(p, [e1, e2]) == ReplayEvent(ReplayEvent(p, e1), e2)
  {
    assert [e1, e2][1..] == [e2];
    assert [e2][1..] == [];
    assert ReplayLog(p, [e1, e2]) == ReplayLog(ReplayEvent(p, e1), [e2]);
    assert ReplayLog(ReplayEvent(p, e1), [e2]) == ReplayLog(ReplayEvent(ReplayEvent(p, e1), e2), []);
  }

  /** Appending events replays them on top of the replay so far. */
  lemma ReplayExtend(n: Net, stored: WiFiConfig, ext: seq<NetEvent>)
    ensures ReplayLog(BootReplay(stored), n.log + ext) == ReplayLog(ReplayLog(BootReplay(stored), n.log), ext)
  {
    ReplayAppend(BootReplay(stored), n.log, ext);
  }

  lemma BecomeConsistent(n: Net, stored: WiFiConfig, st: NetworkState)
    requires Consistent(n, stored)
    requires st == TrialMode ==> n.state == APMode
    ensures Consistent(Become(n, st), stored)
  {
    ReplayExtend(n, stored, [Enter(st)]);
  }

  /** Receiving credentials saves exactly what it then holds, so it keeps the
      state consistent with the log. */
  lemma ReceiveConsistent(n: Net, stored: WiFiConfig)
    requires Consistent(n, stored) && n.queue.Some?
    ensures Consistent(Receive(n), stored)
  {
    var m := n.queue.value;
    var cfg := Copy(m.ssid, m.password);
    var saved := n.(config := cfg, queue := None, log := n.log + [SaveWifi(cfg), RadioOff]);
    ReplayExtend(n, stored, [SaveWifi(cfg), RadioOff]);
    ReplayPair(ReplayLog(BootReplay(stored), n.log), SaveWifi(cfg), RadioOff);
    BecomeConsistent(saved, stored, Disconnected);
  }

  lemma StartupConsistent(n: Net, stored: WiFiConfig, start: nat, polls: seq<Poll>)
    requires Consistent(n, stored) && PollsOk(start, polls)
    ensures Consistent(Startup(n, start, polls), stored)
  {
    if Configured(n.config) {
      var c := Become(n, Connecting);
      BecomeConsistent(n, stored, Connecting);
      var b := c.(log := c.log + [Begin(c.config)]);
      ReplayExtend(c, stored, [Begin(c.config)]);
      BecomeConsistent(b, stored, ConnectResult(start, polls));
      var d := ConnectToWiFi(n, start, polls);
      if d.state != Connected {
        ReplayExtend(d, stored, [RadioOff, SoftAP]);
        BecomeConsistent(d.(log := d.log + [RadioOff, SoftAP]), stored, APMode);
      }
    } else {
      ReplayExtend(n, stored, [RadioOff, SoftAP]);
      BecomeConsistent(n.(log := n.log + [RadioOff, SoftAP]), stored, APMode);
    }
  }

  lemma BeatConsistent(n: Net, stored: WiFiConfig, b: Beat)
    requires Consistent(n, stored)
    ensures Consistent(MaintainBeat(n, b).0, stored)
  {
    var served := Serve(n, b.request);
    if b.request.Trial? && n.state == APMode {
      BecomeConsistent(n, stored, TrialMode);
    }
    assert Consistent(served, stored);
    var checked := if served.state == Connected && !b.linkUp then Become(served, Disconnected) else served;
    if served.state == Connected && !b.linkUp {
      BecomeConsistent(served, stored, Disconnected);
    }
    var received := if checked.queue.Some? then Receive(checked) else checked;
    if checked.queue.Some? {
      ReceiveConsistent(checked, stored);
    }
    var posted := if Blocked(n, b.request) then ConnectRoute(received, b.request.ssid, b.request.pass) else received;
    if posted.state == Disconnected {
      ReplayExtend(posted, stored, [RadioOff]);
    }
  }

  lemma {:induction false} MaintainConsistent(n: Net, stored: WiFiConfig, beats: seq<Beat>)
    requires Consistent(n, stored)
    ensures Consistent(Maintain(n, beats).0, stored)
    decreases |beats|
  {
    if beats != [] {
      BeatConsistent(n, stored, beats[0]);
      var (m, broke) := MaintainBeat(n, beats[0]);
      if !broke {
        MaintainConsistent(m, stored, beats[1..]);
      }
    }
  }

  /** Whatever the rounds, the supervisor's log keeps both rules. */
  lemma {:induction false} SuperviseConsistent(n: Net, stored: WiFiConfig, rounds: seq<Round>)
    requires Consistent(n, stored) && RoundsOk(rounds)
    ensures Consistent(Supervise(n, rounds), stored)
    decreases |rounds|
  {
    if rounds != [] {
      var up := Startup(n, rounds[0].start, rounds[0].polls);
      StartupConsistent(n, stored, rounds[0].start, rounds[0].polls);
      MaintainConsistent(up, stored, rounds[0].beats);
      var (m, broke) := Maintain(up, rounds[0].beats);
      if broke {
        SuperviseConsistent(m, stored, rounds[1..]);
      }
    }
  }

  /** From boot, over any rounds: trial mode is entered only from AP mode, and
      every connection attempt uses the credentials saved last before it, or
      the ones loaded at boot when none was saved. */
  lemma SupervisorHistory(stored: WiFiConfig, rounds: seq<Round>, i: nat)
    requires RoundsOk(rounds)
    requires var r := Supervise(Net(Disconnected, stored, None, []), rounds); i < |r.log|
    ensures var log := Supervise(Net(Disconnected, stored, None, []), rounds).log;
      && (log[i] == Enter(TrialMode) ==> ReplayLog(BootReplay(stored), log[..i]).state == APMode)
      && (log[i].Begin? ==> log[i].config == ReplayLog(BootReplay(stored), log[..i]).saved)
  {
    var n := Net(Disconnected, stored, None, []);
    SuperviseConsistent(n, stored, rounds);
    ReplayMeaning(BootReplay(stored), Supervise(n, rounds).log, i);
  }
}
