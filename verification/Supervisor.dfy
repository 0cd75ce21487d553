/** The configuration watcher of cli/start.go with the NeedReload tests of the three tunnels
    (tunnel/xray/server.go, tunnel/hysteria/server.go, tunnel/anytls/server.go), as functions on values.
    `Agent.dfy` holds the watcher itself. */
module Supervisor {
  import opened Common

  // ----- configurations ---------------------------------------------------

  datatype Inbound = Inbound(tag: string, listen: string)

  datatype XrayConfig = XrayConfig(inbounds: seq<Inbound>)

  /** `rest` stands for the fields NeedReload does not compare. */
  datatype HysteriaConfig = HysteriaConfig(
    listen: string, disableUDP: bool, ignoreClientBandwidth: bool, speedTest: bool,
    udpIdleTimeout: int, up: string, down: string, rest: string)

  datatype AnytlsConfig = AnytlsConfig(listen: string, padding: string)

  datatype Config = Config(
    logLevel: string, reloadInterval: int, endpoint: string,
    xray: Option<XrayConfig>, hysteria: Option<HysteriaConfig>, anytls: Option<AnytlsConfig>)

  /** config/config.go:89-92. */
  function Adjust(c: Config): Config {
    if c.logLevel == "" then c.(logLevel := "info") else c
  }

  // ----- servers ----------------------------------------------------------

  /** A tunnel server and the configuration it was started with. */
  datatype Server =
    | XrayServer(x: XrayConfig)
    | HysteriaServer(h: HysteriaConfig)
    | AnytlsServer(a: AnytlsConfig)

  /** Positions in the `tunnels` table. */
  const XRAY := 0
  const HYSTERIA := 1
  const ANYTLS := 2

  type Slot = i: int | 0 <= i < 3

  /** What the libraries decide: the level a text names, and whether a padding scheme parses. */
  datatype World = World(level: string -> Option<int>, scheme: string -> bool)

  /** How an attempt to start a tunnel ends, apart from the configuration errors that Setup finds itself. */
  datatype Outcome = SetupFails | StartFails | Starts

  predicate InProxyTags(tag: string) {
    tag in {"ss_proxy", "trojan_proxy", "vmess_proxy", "vless_proxy", "ssr_proxy"}
  }

  predicate ShouldStart(i: Slot, c: Config) {
    if i == XRAY then c.xray.Some? else if i == HYSTERIA then c.hysteria.Some? else c.anytls.Some?
  }

  function NewServer(i: Slot, c: Config): Server
    requires ShouldStart(i, c)
  {
    if i == XRAY then XrayServer(c.xray.value)
    else if i == HYSTERIA then HysteriaServer(c.hysteria.value)
    else AnytlsServer(c.anytls.value)
  }

  /** The type the slot's needReload casts to. */
  predicate Fits(i: Slot, s: Server) {
    if i == XRAY then s.XrayServer? else if i == HYSTERIA then s.HysteriaServer? else s.AnytlsServer?
  }

  /** Configurations that no Setup accepts: no sync endpoint, no listen address, no proxy inbound to sync. */
  predicate Rejected(s: Server, endpoint: string) {
    match s
    case XrayServer(x) => endpoint != "" && forall k :: 0 <= k < |x.inbounds| ==> !InProxyTags(x.inbounds[k].tag)
    case HysteriaServer(_) => endpoint == ""
    case AnytlsServer(a) => a.listen == "" || endpoint == ""
  }

  /** The process-wide padding scheme after Setup, successful or not (tunnel/anytls/server.go:41-58). */
  function SetupPadding(w: World, padding: string, s: Server, endpoint: string): string {
    if s.AnytlsServer? && !Rejected(s, endpoint) && s.a.padding != "" && w.scheme(s.a.padding) then s.a.padding
    else padding
  }

  // ----- NeedReload -------------------------------------------------------

  /** j is the last proxy inbound with its tag: the one the map of the running configuration keeps. */
  predicate Kept(inbounds: seq<Inbound>, j: int) {
    && 0 <= j < |inbounds| && InProxyTags(inbounds[j].tag)
    && forall k :: j < k < |inbounds| ==> inbounds[k].tag != inbounds[j].tag
  }

  predicate Covered(running: seq<Inbound>, n: Inbound) {
    exists j :: 0 <= j < |running| && Kept(running, j) && running[j] == n
  }

  predicate XrayNeedsReload(running: XrayConfig, wanted: XrayConfig) {
    exists k :: 0 <= k < |wanted.inbounds| &&
      InProxyTags(wanted.inbounds[k].tag) && !Covered(running.inbounds, wanted.inbounds[k])
  }

  /** Agreement on everything the hysteria NeedReload compares. */
  predicate Agree(g: HysteriaConfig, h: HysteriaConfig) {
    g == h.(rest := g.rest)
  }

  /** The answer of NeedReload, and the server and padding scheme it leaves behind:
      anytls applies a changed scheme on the spot and remembers it in its own configuration. */
  function NeedReload(w: World, s: Server, padding: string, i: Slot, c: Config): (bool, Server, string)
    requires ShouldStart(i, c) && Fits(i, s)
  {
    match s
    case XrayServer(x) => (XrayNeedsReload(x, c.xray.value), s, padding)
    case HysteriaServer(h) => (!Agree(h, c.hysteria.value), s, padding)
    case AnytlsServer(a) =>
      var n := c.anytls.value;
      if n.listen != a.listen then (true, s, padding)
      else if n.padding == a.padding then (false, s, padding)
      else if n.padding == "" then (false, AnytlsServer(a.(padding := "")), padding)
      else if w.scheme(n.padding) then (false, AnytlsServer(a.(padding := n.padding)), n.padding)
      else (false, s, padding)
  }

  // ----- the watcher ------------------------------------------------------

  datatype Event = SetUp(ok: bool) | Started(ok: bool) | Stopped

  /** `loaded` and `events` record the configurations loaded and, per slot, what was done to its servers. */
  datatype State = State(
    slots: seq<Option<Server>>, padding: string,
    cfg: Config, period: int, level: int,
    loaded: seq<Config>, events: seq<seq<Event>>)

  predicate Shaped(s: State) {
    |s.slots| == 3 && |s.events| == 3
  }

  function Emit(s: State, i: Slot, es: seq<Event>): State
    requires Shaped(s)
  {
    s.(events := s.events[i := s.events[i] + es])
  }

  function Put(s: State, i: Slot, v: Option<Server>): State
    requires Shaped(s)
  {
    s.(slots := s.slots[i := v])
  }

  /** startTunnel, lines 77-88, and the assignment of its result. */
  function StartTunnel(w: World, s: State, i: Slot, c: Config, o: Outcome): State
    requires Shaped(s) && ShouldStart(i, c)
  {
    var server := NewServer(i, c);
    var s1 := s.(padding := SetupPadding(w, s.padding, server, c.endpoint));
    if Rejected(server, c.endpoint) || o == SetupFails then Put(Emit(s1, i, [SetUp(false)]), i, None)
    else if o == StartFails then Put(Emit(s1, i, [SetUp(true), Started(false)]), i, None)
    else Put(Emit(s1, i, [SetUp(true), Started(true)]), i, Some(server))
  }

  function StopTunnel(s: State, i: Slot): State
    requires Shaped(s)
  {
    Put(Emit(s, i, [Stopped]), i, None)
  }

  /** One turn of the loop over the table, lines 115-147. */
  function SlotTick(w: World, s: State, i: Slot, c: Config, o: Outcome): State
    requires Shaped(s) && Typed(s)
  {
    if s.slots[i].Some? && !ShouldStart(i, c) then StopTunnel(s, i)
    else if !ShouldStart(i, c) then s
    else if s.slots[i].None? then StartTunnel(w, s, i, c, o)
    else
      var (reload, server, padding) := NeedReload(w, s.slots[i].value, s.padding, i, c);
      var s1 := Put(s.(padding := padding), i, Some(server));
      if reload then StartTunnel(w, StopTunnel(s1, i), i, c, o) else s1
  }

  predicate Typed(s: State)
    requires Shaped(s)
  {
    forall i: Slot :: s.slots[i].Some? ==> Fits(i, s.slots[i].value)
  }

  function SlotTicks(w: World, s: State, n: nat, c: Config, os: seq<Outcome>): (s': State)
    requires Shaped(s) && Typed(s) && n <= 3 && |os| == 3
    ensures Shaped(s') && Typed(s')
  {
    if n == 0 then s else SlotTick(w, SlotTicks(w, s, n - 1, c, os), n - 1, c, os[n - 1])
  }

  /** Log level and ticker, lines 102-113. */
  function Settings(w: World, s: State, c: Config): State {
    var newLevel := c.logLevel != s.cfg.logLevel && c.logLevel != "" && w.level(c.logLevel).Some?;
    var newPeriod := c.reloadInterval != s.cfg.reloadInterval && c.reloadInterval > 0;
    s.(level := if newLevel then w.level(c.logLevel).value else s.level,
       period := if newPeriod then c.reloadInterval else s.period)
  }

  /** One tick: `load` is None when the configuration could not be loaded, `os` are the outcomes start attempts
      would meet. */
  datatype Tick = Tick(load: Option<Config>, os: seq<Outcome>)

  function OnTick(w: World, s: State, t: Tick): State
    requires Shaped(s) && Typed(s) && |t.os| == 3
  {
    if t.load == None then s
    else
      var c := Adjust(t.load.value);
      SlotTicks(w, Settings(w, s, c), |t.os|, c, t.os).(cfg := c, loaded := s.loaded + [c])
  }

  function Blank(cfg: Config, level: int): State {
    State([None, None, None], "", cfg, cfg.reloadInterval, level, [cfg], [[], [], []])
  }

  /** Program start, lines 56-71: every configured tunnel must start, the level must parse (cli/init.go:131-136),
      and there is a watcher only if the interval is positive. */
  ghost predicate Boots(w: World, cfg: Config, s: State) {
    && cfg == Adjust(cfg) && cfg.reloadInterval > 0 && w.level(cfg.logLevel).Some?
    && (forall i: Slot :: ShouldStart(i, cfg) ==> !Rejected(NewServer(i, cfg), cfg.endpoint))
    && s == SlotTicks(w, Blank(cfg, w.level(cfg.logLevel).value), 3, cfg, [Starts, Starts, Starts])
  }

  ghost predicate Runs(w: World, s: State, ticks: seq<Tick>, s': State)
    decreases |ticks|
  {
    if ticks == [] then s == s'
    else Shaped(s) && Typed(s) && |ticks[0].os| == 3 && Runs(w, OnTick(w, s, ticks[0]), ticks[1..], s')
  }

  ghost predicate Reachable(w: World, s: State) {
    exists cfg, s0, ticks :: Boots(w, cfg, s0) && Runs(w, s0, ticks, s)
  }

  // ----- one slot at a time -----------------------------------------------

  /** s and s' differ in slot i alone, and in the padding scheme only if that is the anytls slot. */
  predicate OnlySlot(s: State, s': State, i: Slot) {
    && Shaped(s) && Shaped(s')
    && s'.cfg == s.cfg && s'.period == s.period && s'.level == s.level && s'.loaded == s.loaded
    && (forall j: Slot :: j != i ==> s'.slots[j] == s.slots[j] && s'.events[j] == s.events[j])
    && (i != ANYTLS ==> s'.padding == s.padding)
    && (s'.slots[i].Some? ==> Fits(i, s'.slots[i].value))
  }

  lemma StartTunnelFrame(w: World, s: State, i: Slot, c: Config, o: Outcome)
    requires Shaped(s) && ShouldStart(i, c)
    ensures OnlySlot(s, StartTunnel(w, s, i, c, o), i)
  {
  }

  /** A turn touches its own slot, and the padding scheme only if that is the anytls slot. */
  lemma SlotTickFrame(w: World, s: State, i: Slot, c: Config, o: Outcome)
    requires Shaped(s) && Typed(s)
    ensures OnlySlot(s, SlotTick(w, s, i, c, o), i)
  {
    if ShouldStart(i, c) {
      if s.slots[i].None? {
        StartTunnelFrame(w, s, i, c, o);
      } else {
        var (reload, server, padding) := NeedReload(w, s.slots[i].value, s.padding, i, c);
        var s1 := Put(s.(padding := padding), i, Some(server));
        assert OnlySlot(s, s1, i);
        if reload { StartTunnelFrame(w, StopTunnel(s1, i), i, c, o); }
      }
    }
  }

  /** So what a tick does to slot i is one turn from where the slot stood before. */
  lemma {:induction false} SlotTicksLocal(w: World, s: State, n: nat, c: Config, os: seq<Outcome>, i: Slot)
    requires Shaped(s) && Typed(s) && n <= 3 && |os| == 3
    ensures
      var s' := SlotTicks(w, s, n, c, os);
      var own := SlotTick(w, s, i, c, os[i]);
      && s'.slots[i] == (if i < n then own else s).slots[i]
      && s'.events[i] == (if i < n then own else s).events[i]
      && s'.padding == (if ANYTLS < n then SlotTick(w, s, ANYTLS, c, os[ANYTLS]) else s).padding
      && s'.cfg == s.cfg && s'.period == s.period && s'.level == s.level && s'.loaded == s.loaded
  {
    if n > 0 {
      var s1 := SlotTicks(w, s, n - 1, c, os);
      SlotTicksLocal(w, s, n - 1, c, os, i);
      SlotTicksLocal(w, s, n - 1, c, os, n - 1);
      SlotTickFrame(w, s1, n - 1, c, os[n - 1]);
      SlotTickFrame(w, s, n - 1, c, os[n - 1]);
      SameSlotSameTurn(w, s, s1, n - 1, c, os[n - 1]);
    }
  }

  lemma SameSlotSameStart(w: World, s: State, s1: State, i: Slot, c: Config, o: Outcome)
    requires Shaped(s) && Shaped(s1) && ShouldStart(i, c)
    requires s1.events[i] == s.events[i] && s1.padding == s.padding
    ensures
      var (t, t1) := (StartTunnel(w, s, i, c, o), StartTunnel(w, s1, i, c, o));
      t1.slots[i] == t.slots[i] && t1.events[i] == t.events[i] && t1.padding == t.padding
  {
  }

  lemma SameSlotSameTurn(w: World, s: State, s1: State, i: Slot, c: Config, o: Outcome)
    requires Shaped(s) && Typed(s) && Shaped(s1) && Typed(s1)
    requires s1.slots[i] == s.slots[i] && s1.events[i] == s.events[i] && s1.padding == s.padding
    ensures
      var (t, t1) := (SlotTick(w, s, i, c, o), SlotTick(w, s1, i, c, o));
      t1.slots[i] == t.slots[i] && t1.events[i] == t.events[i] && t1.padding == t.padding
  {
    if ShouldStart(i, c) {
      if s.slots[i].None? {
        SameSlotSameStart(w, s, s1, i, c, o);
      } else {
        var (reload, server, padding) := NeedReload(w, s.slots[i].value, s.padding, i, c);
        if reload {
          SameSlotSameStart(w, StopTunnel(Put(s.(padding := padding), i, Some(server)), i),
                            StopTunnel(Put(s1.(padding := padding), i, Some(server)), i), i, c, o);
        }
      }
    }
  }
}
