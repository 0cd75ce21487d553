/** The watcher of cli/start.go as it is written: a loop over the tunnel table that assigns the slots,
    and the loops of the xray NeedReload. Each method is proved to do what module Supervisor says. */
module Agent {
  import opened Common
  import S = Supervisor

  /** XrayServer.NeedReload, tunnel/xray/server.go:129-158: index the running inbounds by tag, then scan the new
      ones. */
  method XrayNeedReload(running: S.XrayConfig, wanted: S.XrayConfig) returns (reload: bool)
    ensures reload <==> S.XrayNeedsReload(running, wanted)
  {
    var byTag: map<string, S.Inbound> := map[];
    var i := 0;
    while i < |running.inbounds|
      invariant 0 <= i <= |running.inbounds|
      invariant forall t :: t in byTag ==>
        exists j :: S.Kept(running.inbounds[..i], j) && byTag[t] == running.inbounds[j] && running.inbounds[j].tag == t
      invariant forall j :: 0 <= j < i && S.InProxyTags(running.inbounds[j].tag) ==> running.inbounds[j].tag in byTag
    {
      var inbound := running.inbounds[i];
      ghost var before := byTag;
      if S.InProxyTags(inbound.tag) {
        byTag := byTag[inbound.tag := inbound];
      }
      assert S.InProxyTags(inbound.tag) ==> S.Kept(running.inbounds[..i + 1], i);
      forall t | t in byTag && t != inbound.tag
        ensures exists j ::
          S.Kept(running.inbounds[..i + 1], j) && byTag[t] == running.inbounds[j] && running.inbounds[j].tag == t
      {
        var j :| S.Kept(running.inbounds[..i], j) && before[t] == running.inbounds[j] && running.inbounds[j].tag == t;
        assert S.Kept(running.inbounds[..i + 1], j);
      }
      i := i + 1;
    }
    assert running.inbounds[..i] == running.inbounds;
    i := 0;
    while i < |wanted.inbounds|
      invariant 0 <= i <= |wanted.inbounds|
      invariant forall k :: 0 <= k < i && S.InProxyTags(wanted.inbounds[k].tag) ==>
        S.Covered(running.inbounds, wanted.inbounds[k])
    {
      var n := wanted.inbounds[i];
      if S.InProxyTags(n.tag) {
        if n.tag !in byTag {
          assert !S.Covered(running.inbounds, n);
          return true;
        }
        var j :| S.Kept(running.inbounds, j) && byTag[n.tag] == running.inbounds[j] && running.inbounds[j].tag == n.tag;
        if byTag[n.tag].listen != n.listen {
          assert !S.Covered(running.inbounds, n);
          return true;
        }
        assert S.Covered(running.inbounds, n);
      }
      i := i + 1;
    }
    reload := false;
  }

  class Agent {
    const w: S.World
    var instances: seq<Option<S.Server>>
    var padding: string
    var cfg: S.Config
    var period: int
    var level: int
    ghost var loaded: seq<S.Config>
    ghost var events: seq<seq<S.Event>>

    ghost function Value(): S.State
      reads this
    {
      S.State(instances, padding, cfg, period, level, loaded, events)
    }

    ghost predicate Valid()
      reads this
    {
      S.Shaped(Value()) && S.Typed(Value())
    }

    /** The state before the first tunnel is started. */
    constructor (w: S.World, c: S.Config, level: int)
      ensures this.w == w && Value() == S.Blank(c, level)
    {
      this.w := w;
      instances, padding := [None, None, None], "";
      cfg, period, this.level := c, c.reloadInterval, level;
      loaded, events := [c], [[], [], []];
    }

    /** The initial start, lines 58-69; the first tunnel that fails ends the program. */
    method StartAll(os: seq<S.Outcome>) returns (ok: bool)
      requires |os| == 3 && exists lvl :: Value() == S.Blank(cfg, lvl)
      modifies this`instances, this`padding, this`events
      ensures ok <==> forall i: S.Slot :: S.ShouldStart(i, cfg) ==>
        !S.Rejected(S.NewServer(i, cfg), cfg.endpoint) && os[i] == S.Starts
      ensures ok && cfg == S.Adjust(cfg) && cfg.reloadInterval > 0 && w.level(cfg.logLevel) == Some(level) ==>
        S.Boots(w, cfg, Value())
    {
      ghost var blank := Value();
      ghost var good := [S.Starts, S.Starts, S.Starts];
      var i := 0;
      while i < 3
        invariant 0 <= i <= 3 && Valid() && Value() == S.SlotTicks(w, blank, i, cfg, good)
        invariant forall j: S.Slot :: j < i && S.ShouldStart(j, cfg) ==>
          !S.Rejected(S.NewServer(j, cfg), cfg.endpoint) && os[j] == S.Starts
      {
        S.SlotTicksLocal(w, blank, i, cfg, good, i);
        if S.ShouldStart(i, cfg) {
          StartTunnel(i, cfg, os[i]);
          if instances[i] == None { return false; }
        }
        i := i + 1;
      }
      ok := true;
    }

    /** startTunnel, lines 77-88. */
    method StartTunnel(i: S.Slot, c: S.Config, o: S.Outcome)
      requires Valid() && S.ShouldStart(i, c)
      modifies this`instances, this`padding, this`events
      ensures Value() == S.StartTunnel(w, old(Value()), i, c, o)
    {
      var server := S.NewServer(i, c);
      instances := instances[i := None];
      if S.Rejected(server, c.endpoint) {
        events := events[i := events[i] + [S.SetUp(false)]];
        return;
      }
      if server.AnytlsServer? && server.a.padding != "" && w.scheme(server.a.padding) {
        padding := server.a.padding;
      }
      if o == S.SetupFails {
        events := events[i := events[i] + [S.SetUp(false)]];
      } else if o == S.StartFails {
        events := events[i := events[i] + [S.SetUp(true), S.Started(false)]];
      } else {
        events := events[i := events[i] + [S.SetUp(true), S.Started(true)]];
        instances := instances[i := Some(server)];
      }
    }

    /** The needReload entries of the table; the anytls one writes to the running server's configuration and the
        process-wide scheme. */
    method NeedReload(i: S.Slot, c: S.Config) returns (reload: bool)
      requires Valid() && instances[i].Some? && S.ShouldStart(i, c)
      modifies this`instances, this`padding
      ensures Valid()
      ensures
        var (r, server, p) := S.NeedReload(w, old(instances[i].value), old(padding), i, c);
        reload == r && Value() == S.Put(old(Value()).(padding := p), i, Some(server))
    {
      assert instances[i := instances[i]] == instances;
      match instances[i].value
      case XrayServer(x) =>
        reload := XrayNeedReload(x, c.xray.value);
      case HysteriaServer(h) =>
        var n := c.hysteria.value;
        reload :=
          || n.listen != h.listen
          || n.disableUDP != h.disableUDP
          || n.ignoreClientBandwidth != h.ignoreClientBandwidth
          || n.speedTest != h.speedTest
          || n.udpIdleTimeout != h.udpIdleTimeout
          || n.down != h.down || n.up != h.up;
      case AnytlsServer(a) =>
        var n := c.anytls.value;
        if n.listen != a.listen { return true; }
        if n.padding != a.padding {
          if n.padding != "" {
            if w.scheme(n.padding) {
              padding := n.padding;
              instances := instances[i := Some(S.AnytlsServer(a.(padding := n.padding)))];
            }
          } else {
            instances := instances[i := Some(S.AnytlsServer(a.(padding := "")))];
          }
        }
        reload := false;
    }

    method Stop(i: S.Slot)
      requires Valid()
      modifies this`instances, this`events
      ensures Value() == S.StopTunnel(old(Value()), i)
    {
      events := events[i := events[i] + [S.Stopped]];
      instances := instances[i := None];
    }

    /** The body of the loop, lines 116-146. */
    method SlotTick(i: S.Slot, c: S.Config, o: S.Outcome)
      requires Valid()
      modifies this`instances, this`padding, this`events
      ensures Valid() && Value() == S.SlotTick(w, old(Value()), i, c, o)
    {
      var wasRunning := instances[i].Some?;
      var shouldRun := S.ShouldStart(i, c);
      if wasRunning && !shouldRun {
        Stop(i);
        return;
      }
      if !shouldRun { return; }
      if !wasRunning {
        StartTunnel(i, c, o);
        return;
      }
      var reload := NeedReload(i, c);
      if reload {
        Stop(i);
        StartTunnel(i, c, o);
      }
    }

    /** Lines 102-113. */
    method ApplySettings(newCfg: S.Config)
      requires Valid()
      modifies this`level, this`period
      ensures Valid() && Value() == S.Settings(w, old(Value()), newCfg)
    {
      if newCfg.logLevel != cfg.logLevel && newCfg.logLevel != "" {
        var lvl := w.level(newCfg.logLevel);
        if lvl.Some? { level := lvl.value; }
      }
      if newCfg.reloadInterval != cfg.reloadInterval && newCfg.reloadInterval > 0 {
        period := newCfg.reloadInterval;
      }
    }

    /** One tick, lines 95-149; load is None when the configuration cannot be loaded. */
    method Tick(load: Option<S.Config>, os: seq<S.Outcome>)
      requires Valid() && |os| == 3
      modifies this
      ensures Valid() && Value() == S.OnTick(w, old(Value()), S.Tick(load, os))
    {
      if load == None { return; }
      var newCfg := S.Adjust(load.value);
      ApplySettings(newCfg);
      ghost var s := Value();
      var i := 0;
      while i < 3
        invariant 0 <= i <= 3 && Valid() && Value() == S.SlotTicks(w, s, i, newCfg, os)
      {
        SlotTick(i, newCfg, os[i]);
        i := i + 1;
      }
      S.SlotTicksLocal(w, s, 3, newCfg, os, S.XRAY);
      cfg := newCfg;
      loaded := loaded + [newCfg];
    }
  }
}
