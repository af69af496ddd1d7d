/**
 * The small guards of the web-server and MQTT tasks, and the MQTT command filter.
 */
module WebTasks {
  import opened Wrappers
  import opened NetworkSpec

  newtype byte = x: int | 0 <= x < 256

  /** The MQTT settings record; only the topic prefix and the enable switch
      take part in the modelled behaviour. */
  datatype MqttConfig = MqttConfig(
    server: string, port: int, username: string, password: string,
    topicPrefix: string, mqttEnabled: bool)

  // ------------------------------------------------------------- web server

  /** One pass of the web-server task: start the server in AP mode or when
      connected, stop it when disconnected, otherwise leave it as it is. */
  function ServerStep(running: bool, st: NetworkState): bool {
    if (st == APMode || st == Connected) && !running then true
    else if st == Disconnected && running then false
    else running
  }

  /** Whether the server runs after the web-server task has observed `observed`, in order. */
  function ServerRunning(running: bool, observed: seq<NetworkState>): bool
    decreases |observed|
  {
    if observed == [] then running
    else ServerStep(ServerRunning(running, observed[..|observed| - 1]), observed[|observed| - 1])
  }

  /** An observation that decides the server's fate: AP mode, connected or
      disconnected. Connecting and trial mode decide nothing. */
  predicate Decisive(st: NetworkState) {
    st == APMode || st == Connected || st == Disconnected
  }

  /** The most recent decisive observation: none exactly when no observation
      was decisive, otherwise one that was observed with nothing decisive after it. */
  function LastDecisive(observed: seq<NetworkState>): (r: Option<NetworkState>)
    ensures r.None? <==> forall i :: 0 <= i < |observed| ==> !Decisive(observed[i])
    ensures r.Some? ==> Decisive(r.value)
    ensures r.Some? ==>
      exists k :: 0 <= k < |observed| && observed[k] == r.value
                  && forall j :: k < j < |observed| ==> !Decisive(observed[j])
    decreases |observed|
  {
    if observed == [] then None
    else
      var last := observed[|observed| - 1];
      if Decisive(last) then Some(last)
      else
        LastDecisive(observed[..|observed| - 1])
  }

  /** The server is up exactly when the last decisive observation was AP mode
      or connected (or, with none yet, when it was up to begin with). */
  lemma {:induction false} ServerRunningIff(running: bool, observed: seq<NetworkState>)
    ensures ServerRunning(running, observed) ==
            match LastDecisive(observed)
            case None => running
            case Some(st) => st != Disconnected
    decreases |observed|
  {
    if observed != [] {
      ServerRunningIff(running, observed[..|observed| - 1]);
    }
  }

  /** The web-server task's loop over the network states it observes. */
  method WebServerTask(observed: seq<NetworkState>) returns (running: bool)
    ensures running == ServerRunning(false, observed)
    ensures running <==> LastDecisive(observed) in {Some(APMode), Some(Connected)}
  {
    running := false;
    var i := 0;
    while i < |observed|
      invariant 0 <= i <= |observed|
      invariant running == ServerRunning(false, observed[..i])
    {
      assert observed[..i + 1][..i] == observed[..i];
      if (observed[i] == APMode || observed[i] == Connected) && !running {
        running := true;
      } else if observed[i] == Disconnected && running {
        running := false;
      }
      i := i + 1;
    }
    assert observed[..|observed|] == observed;
    ServerRunningIff(false, observed);
  }

  // ------------------------------------------------------------------- MQTT

  /** The MQTT task services the broker only while MQTT is enabled and the
      device is connected: never in AP or trial mode. */
  predicate MqttLoopActive(conf: MqttConfig, st: NetworkState) {
    conf.mqttEnabled && st == Connected
  }

  lemma MqttOnlyWhenConnected(conf: MqttConfig, st: NetworkState)
    ensures MqttLoopActive(conf, st) ==> st == Connected
    ensures !MqttLoopActive(conf, TrialMode) && !MqttLoopActive(conf, APMode)
  {
  }

  /** The payload bytes read as characters. */
  function AsMessage(payload: seq<byte>): (m: string)
    ensures |m| == |payload|
  {
    seq(|payload|, i requires 0 <= i < |payload| => payload[i] as int as char)
  }

  /** The callback's loop that appends each payload byte to the message string. */
  method PayloadToMessage(payload: seq<byte>) returns (message: string)
    ensures |message| == |payload|
    ensures forall i :: 0 <= i < |payload| ==> message[i] == payload[i] as int as char
  {
    message := "";
    var i := 0;
    while i < |payload|
      invariant 0 <= i <= |payload|
      invariant |message| == i
      invariant forall j :: 0 <= j < i ==> message[j] == payload[j] as int as char
    {
      message := message + [payload[i] as int as char];
      i := i + 1;
    }
  }

  /** The command filter: exactly the message "1" on `<prefix>/manualDispense`. */
  predicate IsManualDispense(topicPrefix: string, topic: string, message: string) {
    topic == topicPrefix + "/manualDispense" && message == "1"
  }

  /** A payload forces a dispense only when it is the single byte '1' and the
      topic is the prefix followed by "/manualDispense". */
  lemma ManualDispenseOnlyOnOne(topicPrefix: string, topic: string, payload: seq<byte>)
    ensures IsManualDispense(topicPrefix, topic, AsMessage(payload)) <==>
            topic == topicPrefix + "/manualDispense" && payload == [49]
  {
    var m := AsMessage(payload);
    if m == "1" {
      assert m[0] == payload[0] as int as char;
      assert (payload[0] as int as char) as int == payload[0] as int;
    }
    if payload == [49] {
      assert m[0] == '1';
    }
  }
}
