/**
 * The network supervisor as pure functions: the five-state connection state
 * machine, the timed connection attempt, the fallback to a configuration access
 * point, the maintenance loop that watches the link and drains the single-slot
 * credential queue, and the two web routes that act on it (`/connect` fills the
 * slot, `/trial_mode` leaves AP mode).
 *
 * Every value written to the state, every radio action and every save of the
 * credentials is appended to an event log, so that orderings can be stated.
 */
module NetworkSpec {
  import opened Wrappers
  import opened CStrings

  /** Sizes of the two credential buffers of a WiFi configuration. */
  const SsidSize: nat := 32
  const PasswordSize: nat := 64
  /** How long a connection attempt waits for the link. */
  const ConnectTimeoutMs: nat := 15000

  datatype NetworkState = Disconnected | Connecting | Connected | APMode | TrialMode

  /** The two fixed-size character buffers of a WiFi configuration. */
  datatype WiFiConfig = WiFiConfig(ssid: seq<char>, password: seq<char>)

  predicate Sized(c: WiFiConfig) {
    |c.ssid| == SsidSize && |c.password| == PasswordSize
  }

  /** A write of the state, a station connection attempt with the given
      credentials, the open setup access point, the radio disconnecting, and a
      save of the credentials to non-volatile storage. */
  datatype NetEvent =
    | Enter(state: NetworkState)
    | Begin(config: WiFiConfig)
    | SoftAP
    | RadioOff
    | SaveWifi(config: WiFiConfig)

  /** The supervisor's shared state: `networkState`, `config`, the credential
      queue's single slot, and the event log. */
  datatype Net = Net(state: NetworkState, config: WiFiConfig, queue: Option<WiFiConfig>, log: seq<NetEvent>)

  /** One poll of a connection attempt: the clock reading, then the link status. */
  datatype Poll = Poll(now: nat, linkUp: bool)

  /** A request served by the web task while the supervisor maintains the link. */
  datatype WebRequest = NoRequest | Connect(ssid: string, pass: string) | Trial

  /** One pass of the maintenance loop: the web request that arrives during the
      previous yield, then the link status it reads. */
  datatype Beat = Beat(request: WebRequest, linkUp: bool)

  /** One round of the supervisor: a connection decision (with the polls of its
      attempt, if it makes one) followed by the maintenance loop. */
  datatype Round = Round(start: nat, polls: seq<Poll>, beats: seq<Beat>)

  /** Both credentials copied with `strncpy` into buffers of 32 and 64 characters. */
  function Copy(ssid: seq<char>, password: seq<char>): (c: WiFiConfig)
    ensures Sized(c)
  {
    WiFiConfig(StrNCpy(ssid, SsidSize), StrNCpy(password, PasswordSize))
  }

  /** `strlen(config.ssid)` is non-zero. */
  predicate Configured(c: WiFiConfig) {
    StrLen(c.ssid) > 0
  }

  /** Write `st` to the state. */
  function Become(n: Net, st: NetworkState): Net {
    n.(state := st, log := n.log + [Enter(st)])
  }

  // -------------------------------------------------------- connection attempt

  /** Polls of an attempt started at `start`: none read before the start, and
      the last one reads past the 15 s timeout. */
  ghost predicate PollsOk(start: nat, polls: seq<Poll>) {
    && polls != []
    && (forall i :: 0 <= i < |polls| ==> start <= polls[i].now)
    && polls[|polls| - 1].now >= start + ConnectTimeoutMs
  }

  /** How an attempt ends: connected at the first poll within the timeout that
      sees the link, disconnected once the timeout has passed. */
  function ConnectResult(start: nat, polls: seq<Poll>): (r: NetworkState)
    requires PollsOk(start, polls)
    ensures r == Connected || r == Disconnected
    decreases |polls|
  {
    if polls[0].now - start >= ConnectTimeoutMs then Disconnected
    else if polls[0].linkUp then Connected
    else ConnectResult(start, polls[1..])
  }

  /** `connectToWiFi`: enter CONNECTING, start the station with the stored
      credentials, and end CONNECTED or DISCONNECTED. */
  function ConnectToWiFi(n: Net, start: nat, polls: seq<Poll>): Net
    requires PollsOk(start, polls)
  {
    var c := Become(n, Connecting);
    Become(c.(log := c.log + [Begin(c.config)]), ConnectResult(start, polls))
  }

  /** `startAPMode`: drop the station, open the setup access point, enter AP_MODE. */
  function StartAPMode(n: Net): Net {
    Become(n.(log := n.log + [RadioOff, SoftAP]), APMode)
  }

  /** The connection decision that opens each round of the supervisor. */
  function Startup(n: Net, start: nat, polls: seq<Poll>): Net
    requires PollsOk(start, polls)
  {
    if Configured(n.config) then
      var c := ConnectToWiFi(n, start, polls);
      if c.state != Connected then StartAPMode(c) else c
    else StartAPMode(n)
  }

  // ----------------------------------------------------------------- web routes

  /** The `/trial_mode` route: only AP mode moves to trial mode. */
  function TrialRoute(n: Net): Net {
    if n.state == APMode then Become(n, TrialMode) else n
  }

  /** The `/connect` route's send into the empty slot. */
  function ConnectRoute(n: Net, ssid: string, pass: string): Net
    requires n.queue.None?
  {
    n.(queue := Some(Copy(ssid, pass)))
  }

  // --------------------------------------------------------- maintenance loop

  /** A `/connect` request whose send finds the slot full: it waits until the
      supervisor has drained the slot. */
  predicate Blocked(n: Net, req: WebRequest) {
    req.Connect? && n.queue.Some?
  }

  /** A web request served while the supervisor waits. */
  function Serve(n: Net, req: WebRequest): (r: Net)
    ensures r.config == n.config
    ensures n.queue.Some? ==> r.queue == n.queue
  {
    match req
    case NoRequest => n
    case Trial => TrialRoute(n)
    case Connect(ssid, pass) => if n.queue.None? then ConnectRoute(n, ssid, pass) else n
  }

  /** The link check: CONNECTED with the link down becomes DISCONNECTED. */
  function CheckLink(n: Net, linkUp: bool): (r: Net)
    ensures r.config == n.config && r.queue == n.queue
  {
    if n.state == Connected && !linkUp then Become(n, Disconnected) else n
  }

  /** Receipt of queued credentials: copy them into the configuration, save it,
      drop the radio, and enter DISCONNECTED. */
  function Receive(n: Net): Net
    requires n.queue.Some?
  {
    var m := n.queue.value;
    var cfg := Copy(m.ssid, m.password);
    Become(n.(config := cfg, queue := None, log := n.log + [SaveWifi(cfg), RadioOff]), Disconnected)
  }

  /** The receive with its 100 ms wait: takes the slot's credentials if there are any. */
  function TakeSlot(n: Net): (r: Net)
    ensures r.queue.None?
  {
    if n.queue.Some? then Receive(n) else n
  }

  /** One pass of the maintenance loop; the flag says whether it leaves the
      loop to reconnect. */
  function MaintainBeat(n: Net, b: Beat): (Net, bool) {
    var received := TakeSlot(CheckLink(Serve(n, b.request), b.linkUp));
    var posted := if Blocked(n, b.request) then ConnectRoute(received, b.request.ssid, b.request.pass) else received;
    if posted.state == Disconnected then (posted.(log := posted.log + [RadioOff]), true)
    else (posted, false)
  }

  /** The maintenance loop over the passes observed; the flag says whether it
      broke out to reconnect (otherwise the passes ran out first). */
  function Maintain(n: Net, beats: seq<Beat>): (r: (Net, bool))
    decreases |beats|
  {
    if beats == [] then (n, false)
    else
      var (m, broke) := MaintainBeat(n, beats[0]);
      if broke then (m, true) else Maintain(m, beats[1..])
  }

  ghost predicate RoundsOk(rounds: seq<Round>) {
    forall i :: 0 <= i < |rounds| ==> PollsOk(rounds[i].start, rounds[i].polls)
  }

  /** `wifiManagerTask`: rounds of connection decision and maintenance, for as
      long as each maintenance loop breaks out to reconnect. */
  function Supervise(n: Net, rounds: seq<Round>): Net
    requires RoundsOk(rounds)
    decreases |rounds|
  {
    if rounds == [] then n
    else
      var up := Startup(n, rounds[0].start, rounds[0].polls);
      var (m, broke) := Maintain(up, rounds[0].beats);
      if broke then Supervise(m, rounds[1..]) else m
  }
}
