/** What one tick of the watcher of cli/start.go does, in terms of the configuration file: when a server is left alone,
    stopped or started, with which configuration, and when an attempt can succeed. */
module SupervisorTicks {
  import opened Common
  import opened Supervisor
  import opened SupervisorRuns

  // ----- the NeedReload tests ---------------------------------------------

  /** A hysteria server is left alone if and only if seven settings are as they were. */
  lemma HysteriaReloadsIff(w: World, h: HysteriaConfig, padding: string, c: Config)
    requires c.hysteria.Some?
    ensures
      var n := c.hysteria.value;
      var (reload, server, padding') := NeedReload(w, HysteriaServer(h), padding, HYSTERIA, c);
      && server == HysteriaServer(h) && padding' == padding
      && (!reload <==>
            && n.listen == h.listen && n.disableUDP == h.disableUDP
            && n.ignoreClientBandwidth == h.ignoreClientBandwidth && n.speedTest == h.speedTest
            && n.udpIdleTimeout == h.udpIdleTimeout && n.up == h.up && n.down == h.down)
  {
  }

  /** An anytls server is left alone if and only if its address is as it was. Its padding scheme then follows the
      configuration without a restart, unless the new scheme does not parse; the process keeps its scheme if the new
      one is empty. */
  lemma AnytlsReloadsIff(w: World, a: AnytlsConfig, padding: string, c: Config)
    requires c.anytls.Some?
    ensures
      var n := c.anytls.value;
      var (reload, server, padding') := NeedReload(w, AnytlsServer(a), padding, ANYTLS, c);
      && (reload <==> n.listen != a.listen)
      && (reload ==> server == AnytlsServer(a) && padding' == padding)
      && (!reload ==>
            var taken := n.padding == "" || w.scheme(n.padding);
            && server == AnytlsServer(AnytlsConfig(a.listen, if taken then n.padding else a.padding))
            && padding' == if n.padding != a.padding && n.padding != ""
              && w.scheme(n.padding) then n.padding else padding)
  {
  }

  /** The tags of the inbounds that the agent looks at. */
  lemma ProxyTags(tag: string)
    ensures InProxyTags(tag) <==>
      || tag == "ss_proxy" || tag == "trojan_proxy" || tag == "vmess_proxy" || tag == "vless_proxy"
      || tag == "ssr_proxy"
  {
  }

  /** An xray server whose proxy tags are unique is left alone if and only if it runs every proxy inbound now
      configured. */
  lemma XrayReloadsIff(w: World, x: XrayConfig, padding: string, c: Config)
    requires c.xray.Some? && TagsUnique(x)
    ensures
      var (reload, server, padding') := NeedReload(w, XrayServer(x), padding, XRAY, c);
      && server == XrayServer(x) && padding' == padding
      && (!reload <==> forall n :: n in c.xray.value.inbounds && InProxyTags(n.tag) ==> n in x.inbounds)
  {
    var wanted := c.xray.value.inbounds;
    if forall n :: n in wanted && InProxyTags(n.tag) ==> n in x.inbounds {
      forall k | 0 <= k < |wanted| && InProxyTags(wanted[k].tag) ensures Covered(x.inbounds, wanted[k]) {
        assert wanted[k] in wanted;
        var i :| 0 <= i < |x.inbounds| && x.inbounds[i] == wanted[k];
        var j := LastWithTag(x.inbounds, i);
        assert x.inbounds[j] == x.inbounds[i];
      }
    }
  }

  // ----- one tick ---------------------------------------------------------

  /** What a loaded file amounts to: a missing log level is "info", everything else is taken as it stands. */
  lemma LoadedConfig(c: Config)
    ensures
      var a := Adjust(c);
      && a.logLevel == (if c.logLevel == "" then "info" else c.logLevel)
      && a == Config(a.logLevel, c.reloadInterval, c.endpoint, c.xray, c.hysteria, c.anytls)
  {
  }

  /** A tick whose file cannot be loaded changes nothing at all. */
  lemma FailedLoadChangesNothing(w: World, s: State, os: seq<Outcome>)
    requires Shaped(s) && Typed(s) && |os| == 3
    ensures OnTick(w, s, Tick(None, os)) == s
  {
  }

  /** The file has a section for the slot's tunnel. */
  predicate HasSection(i: Slot, c: Config) {
    match i
    case 0 => c.xray.Some?
    case 1 => c.hysteria.Some?
    case 2 => c.anytls.Some?
  }

  /** Set-up finds what it needs in the file: an address for anytls, an endpoint for hysteria and anytls, and for xray
      a proxy inbound if there is an endpoint to synchronise with. */
  predicate Complete(i: Slot, c: Config)
    requires HasSection(i, c)
  {
    match i
    case 0 => c.endpoint != "" ==>
      exists k :: 0 <= k < |c.xray.value.inbounds| && InProxyTags(c.xray.value.inbounds[k].tag)
    case 1 => c.endpoint != ""
    case 2 => c.endpoint != "" && c.anytls.value.listen != ""
  }

  /** The slot runs a server with the file's own section. */
  predicate RunsSection(v: Option<Server>, i: Slot, c: Config)
    requires HasSection(i, c)
  {
    match i
    case 0 => v == Some(XrayServer(c.xray.value))
    case 1 => v == Some(HysteriaServer(c.hysteria.value))
    case 2 => v == Some(AnytlsServer(c.anytls.value))
  }

  lemma SectionMeans(i: Slot, c: Config)
    ensures HasSection(i, c) <==> ShouldStart(i, c)
    ensures HasSection(i, c) ==> (Complete(i, c) <==> !Rejected(NewServer(i, c), c.endpoint))
    ensures HasSection(i, c) ==> RunsSection(Some(NewServer(i, c)), i, c)
  {
  }

  /** What a tick leaves in a slot, by the file alone. Without a section nothing runs. With one, and nothing set up
      in this tick, the slot is occupied as it was; after a set-up it runs the file's section exactly if that is
      complete and the attempt ends well. */
  lemma SlotAfterTick(w: World, s: State, t: Tick, i: Slot)
    requires Reachable(w, s) && |t.os| == 3 && t.load.Some?
    ensures Shaped(s) && Typed(s) && Shaped(OnTick(w, s, t))
    ensures
      var c := Adjust(t.load.value);
      var s' := OnTick(w, s, t);
      && (!HasSection(i, c) ==> s'.slots[i] == None && !SetsUp(s, s', i))
      && (HasSection(i, c) && !SetsUp(s, s', i) ==> s.slots[i].Some? && s'.slots[i].Some?)
      && (HasSection(i, c) && SetsUp(s, s', i) ==>
            if Complete(i, c) && t.os[i] == Starts then RunsSection(s'.slots[i], i, c) else s'.slots[i] == None)
  {
    RunsIffDesired(w, s, t, i);
    var c := Adjust(t.load.value);
    SectionMeans(i, c);
    TickIsOwnTurn(w, s, t, i);
    AttemptsIgnoreSettings(w, s, i, c);
    if Attempts(w, s, i, c) && Complete(i, c) && t.os[i] == Starts {
      AttemptRunsSection(w, Settings(w, s, c), i, c, t.os[i]);
    }
  }

  lemma AttemptRunsSection(w: World, s: State, i: Slot, c: Config, o: Outcome)
    requires Shaped(s) && Typed(s) && Attempts(w, s, i, c)
    requires !Rejected(NewServer(i, c), c.endpoint) && o == Starts
    ensures SlotTick(w, s, i, c, o).slots[i] == Some(NewServer(i, c))
  {
  }

  lemma TurnPadding(w: World, s: State, c: Config, o: Outcome)
    requires Shaped(s) && Typed(s)
    ensures
      var p := SlotTick(w, s, ANYTLS, c, o).padding;
      if c.anytls == None then p == s.padding
      else if Attempts(w, s, ANYTLS, c) then p == SetupPadding(w, s.padding, AnytlsServer(c.anytls.value), c.endpoint)
      else p == NeedReload(w, s.slots[ANYTLS].value, s.padding, ANYTLS, c).2
  {
  }

  /** The process's padding scheme after a tick: the configured one, if it parses and an anytls set-up got as far as
      it or a running server finds it changed; otherwise the one before, whatever became of the attempt. */
  lemma PaddingAfterTick(w: World, s: State, t: Tick)
    requires Reachable(w, s) && |t.os| == 3 && t.load.Some?
    ensures Shaped(s) && Typed(s) && Shaped(OnTick(w, s, t))
    ensures
      var c := Adjust(t.load.value);
      var s' := OnTick(w, s, t);
      if c.anytls == None then s'.padding == s.padding
      else
        var n := c.anytls.value;
        var parses := n.padding != "" && w.scheme(n.padding);
        && (SetsUp(s, s', ANYTLS) ==>
              s'.padding == if n.listen != "" && c.endpoint != "" && parses then n.padding else s.padding)
        && (!SetsUp(s, s', ANYTLS) ==>
              s.slots[ANYTLS].Some? && s.slots[ANYTLS].value.AnytlsServer? &&
              s'.padding == if n.padding != s.slots[ANYTLS].value.a.padding && parses then n.padding else s.padding)
  {
    RunsIffDesired(w, s, t, ANYTLS);
    var c := Adjust(t.load.value);
    SlotTicksLocal(w, Settings(w, s, c), |t.os|, c, t.os, ANYTLS);
    AttemptsIgnoreSettings(w, s, ANYTLS, c);
    TurnPadding(w, Settings(w, s, c), c, t.os[ANYTLS]);
    if c.anytls.Some? && !Attempts(w, s, ANYTLS, c) {
      AnytlsReloadsIff(w, s.slots[ANYTLS].value.a, s.padding, c);
    }
  }

  /** The tick stopped the server in slot i. */
  predicate Stops(s: State, s': State, i: Slot)
    requires Shaped(s) && Shaped(s')
  {
    exists k :: |s.events[i]| <= k < |s'.events[i]| && s'.events[i][k] == Stopped
  }

  lemma TurnStopsIff(w: World, s: State, i: Slot, c: Config, o: Outcome)
    requires Shaped(s) && Typed(s)
    ensures
      var s' := SlotTick(w, s, i, c, o);
      && s.events[i] <= s'.events[i]
      && (Stops(s, s', i) <==>
            s.slots[i].Some? && (ShouldStart(i, c) ==> NeedReload(w, s.slots[i].value, s.padding, i, c).0))
  {
    var s' := SlotTick(w, s, i, c, o);
    if s.slots[i].Some? && (ShouldStart(i, c) ==> NeedReload(w, s.slots[i].value, s.padding, i, c).0) {
      assert s'.events[i][|s.events[i]|] == Stopped;
    }
  }

  /** A running server is stopped in a tick if and only if its section is gone from the file or its test asks for a
      reload. */
  lemma StopsIff(w: World, s: State, t: Tick, i: Slot)
    requires Reachable(w, s) && |t.os| == 3 && t.load.Some?
    ensures Shaped(s) && Typed(s) && Shaped(OnTick(w, s, t))
    ensures
      var c := Adjust(t.load.value);
      Stops(s, OnTick(w, s, t), i) <==>
        s.slots[i].Some? && (!HasSection(i, c) || NeedReload(w, s.slots[i].value, s.padding, i, c).0)
  {
    ReachableInv(w, s);
    var c := Adjust(t.load.value);
    var own := Settings(w, s, c);
    SectionMeans(i, c);
    TickIsOwnTurn(w, s, t, i);
    TurnStopsIff(w, own, i, c, t.os[i]);
    StopsLooksAtEvents(s, OnTick(w, s, t), own, SlotTick(w, own, i, c, t.os[i]), i);
  }

  lemma StopsLooksAtEvents(s: State, s': State, r: State, r': State, i: Slot)
    requires Shaped(s) && Shaped(s') && Shaped(r) && Shaped(r')
    requires r.events[i] == s.events[i] && r'.events[i] == s'.events[i]
    ensures Stops(r, r', i) <==> Stops(s, s', i)
  {
  }

  /** After the initial start every tunnel with a section runs it, and no other tunnel runs. */
  lemma BootRunsSections(w: World, cfg: Config, s: State, i: Slot)
    requires Boots(w, cfg, s)
    ensures Shaped(s)
    ensures if HasSection(i, cfg) then Complete(i, cfg) && RunsSection(s.slots[i], i, cfg) else s.slots[i] == None
    ensures s.period == cfg.reloadInterval > 0 && w.level(cfg.logLevel) == Some(s.level)
  {
    BootKeepsInv(w, cfg, s);
    SectionMeans(i, cfg);
    SlotTicksLocal(w, Blank(cfg, w.level(cfg.logLevel).value), 3, cfg, [Starts, Starts, Starts], i);
    if ShouldStart(i, cfg) { assert !Rejected(NewServer(i, cfg), cfg.endpoint); }
  }
}
