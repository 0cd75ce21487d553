/** What the configuration watcher keeps over any number of ticks, whatever fails to load, to set up or to start. */
module SupervisorRuns {
  import opened Common
  import opened Supervisor

  // ----- lifecycle of the servers in a slot -------------------------------

  datatype Phase = Closed | Ready | Open | Broken

  /** Recognises histories in which a server is set up only when none runs, started once set up, and stopped once
      started. */
  function PhaseOf(events: seq<Event>): Phase {
    if events == [] then Closed
    else
      match (PhaseOf(events[..|events| - 1]), events[|events| - 1])
      case (Closed, SetUp(ok)) => if ok then Ready else Closed
      case (Ready, Started(ok)) => if ok then Open else Closed
      case (Open, Stopped) => Closed
      case _ => Broken
  }

  lemma PhaseSnoc(events: seq<Event>, e: Event)
    ensures PhaseOf(events + [e]) ==
      match (PhaseOf(events), e)
      case (Closed, SetUp(ok)) => if ok then Ready else Closed
      case (Ready, Started(ok)) => if ok then Open else Closed
      case (Open, Stopped) => Closed
      case _ => Broken
  {
  }

  predicate SlotOpen(s: State, i: Slot)
    requires Shaped(s)
  {
    PhaseOf(s.events[i]) == if s.slots[i].Some? then Open else Closed
  }

  lemma StartTunnelOpens(w: World, s: State, i: Slot, c: Config, o: Outcome)
    requires Shaped(s) && ShouldStart(i, c) && PhaseOf(s.events[i]) == Closed
    ensures SlotOpen(StartTunnel(w, s, i, c, o), i)
  {
    var es := s.events[i];
    PhaseSnoc(es, SetUp(false));
    PhaseSnoc(es, SetUp(true));
    PhaseSnoc(es + [SetUp(true)], Started(false));
    PhaseSnoc(es + [SetUp(true)], Started(true));
    assert es + [SetUp(true), Started(false)] == es + [SetUp(true)] + [Started(false)];
    assert es + [SetUp(true), Started(true)] == es + [SetUp(true)] + [Started(true)];
  }

  lemma SlotTickKeepsOpen(w: World, s: State, i: Slot, c: Config, o: Outcome)
    requires Shaped(s) && Typed(s) && SlotOpen(s, i)
    ensures SlotOpen(SlotTick(w, s, i, c, o), i)
  {
    PhaseSnoc(s.events[i], Stopped);
    if ShouldStart(i, c) {
      if s.slots[i].None? {
        StartTunnelOpens(w, s, i, c, o);
      } else {
        var (reload, server, padding) := NeedReload(w, s.slots[i].value, s.padding, i, c);
        var s1 := Put(s.(padding := padding), i, Some(server));
        if reload { StartTunnelOpens(w, StopTunnel(s1, i), i, c, o); }
      }
    }
  }

  // ----- no drift ---------------------------------------------------------

  /** Two hysteria configurations with the same address, switches, timeout and bandwidth. */
  predicate SameService(g: HysteriaConfig, h: HysteriaConfig) {
    && g.listen == h.listen && g.disableUDP == h.disableUDP
    && g.ignoreClientBandwidth == h.ignoreClientBandwidth && g.speedTest == h.speedTest
    && g.udpIdleTimeout == h.udpIdleTimeout && g.up == h.up && g.down == h.down
  }

  /** A slot's server serves what the configuration asks of it, as far as NeedReload looks. */
  predicate Serves(s: Server, i: Slot, c: Config) {
    && ShouldStart(i, c) && Fits(i, s)
    && match s
       case XrayServer(x) => forall n :: n in c.xray.value.inbounds && InProxyTags(n.tag) ==> n in x.inbounds
       case HysteriaServer(h) => SameService(h, c.hysteria.value)
       case AnytlsServer(a) => a.listen == c.anytls.value.listen
  }

  /** The scheme an anytls server remembers, if it parses, is the one the process applies. */
  predicate PaddingApplied(w: World, s: State)
    requires Shaped(s)
  {
    s.slots[ANYTLS].Some? && s.slots[ANYTLS].value.AnytlsServer? ==>
      var p := s.slots[ANYTLS].value.a.padding;
      p != "" && w.scheme(p) ==> s.padding == p
  }

  /** The configured scheme, if it parses, is the one the process applies. */
  predicate PaddingServed(w: World, s: State, c: Config)
    requires Shaped(s)
  {
    s.slots[ANYTLS].Some? && c.anytls.Some? && c.anytls.value.padding != "" && w.scheme(c.anytls.value.padding) ==>
      s.padding == c.anytls.value.padding
  }

  /** No proxy tag is listed with two addresses. */
  predicate TagsUnique(x: XrayConfig) {
    forall j, k | 0 <= j < k < |x.inbounds| ::
      InProxyTags(x.inbounds[j].tag) && x.inbounds[j].tag == x.inbounds[k].tag ==>
      x.inbounds[j] == x.inbounds[k]
  }

  lemma {:induction false} LastWithTag(inbounds: seq<Inbound>, k: nat) returns (j: nat)
    requires k < |inbounds| && InProxyTags(inbounds[k].tag)
    ensures k <= j < |inbounds| && inbounds[j].tag == inbounds[k].tag && Kept(inbounds, j)
    decreases |inbounds| - k
  {
    if l :| k < l < |inbounds| && inbounds[l].tag == inbounds[k].tag {
      j := LastWithTag(inbounds, l);
    } else {
      j := k;
    }
  }

  /** The xray test finds nothing to do under the server's own configuration if and only if no tag has two addresses. */
  lemma FreshXrayServesItself(x: XrayConfig)
    ensures !XrayNeedsReload(x, x) <==> TagsUnique(x)
  {
    if TagsUnique(x) {
      forall k | 0 <= k < |x.inbounds| && InProxyTags(x.inbounds[k].tag) ensures Covered(x.inbounds, x.inbounds[k]) {
        var j := LastWithTag(x.inbounds, k);
        assert x.inbounds[j] == x.inbounds[k];
      }
    } else {
      var j, k :| 0 <= j < k < |x.inbounds| && InProxyTags(x.inbounds[j].tag) && x.inbounds[j].tag == x.inbounds[k].tag
                  && x.inbounds[j] != x.inbounds[k];
      var l := LastWithTag(x.inbounds, j);
      if x.inbounds[l] == x.inbounds[j] {
        assert !Covered(x.inbounds, x.inbounds[k]);
      } else {
        assert !Covered(x.inbounds, x.inbounds[j]);
      }
    }
  }

  lemma FreshServes(i: Slot, c: Config)
    requires ShouldStart(i, c)
    ensures Serves(NewServer(i, c), i, c)
  {
  }

  lemma KeptServes(w: World, v: Server, padding: string, i: Slot, c: Config)
    requires ShouldStart(i, c) && Fits(i, v) && !NeedReload(w, v, padding, i, c).0
    ensures Serves(NeedReload(w, v, padding, i, c).1, i, c)
  {
  }

  lemma SlotTickServes(w: World, s: State, i: Slot, c: Config, o: Outcome)
    requires Shaped(s) && Typed(s)
    ensures var v := SlotTick(w, s, i, c, o).slots[i]; v.Some? ==> Serves(v.value, i, c)
  {
    if ShouldStart(i, c) {
      FreshServes(i, c);
      if s.slots[i].Some? && !NeedReload(w, s.slots[i].value, s.padding, i, c).0 {
        KeptServes(w, s.slots[i].value, s.padding, i, c);
      }
    }
  }

  lemma AnytlsTickAppliesPadding(w: World, s: State, c: Config, o: Outcome)
    requires Shaped(s) && Typed(s) && PaddingApplied(w, s)
    ensures PaddingApplied(w, SlotTick(w, s, ANYTLS, c, o)) && PaddingServed(w, SlotTick(w, s, ANYTLS, c, o), c)
  {
  }

  // ----- settings ---------------------------------------------------------

  /** The most recent positive reload interval (0: there was none). */
  function LastInterval(loaded: seq<Config>): int {
    if loaded == [] then 0
    else
      var c := loaded[|loaded| - 1];
      if c.reloadInterval > 0 then c.reloadInterval else LastInterval(loaded[..|loaded| - 1])
  }

  /** The most recent log level that parses. */
  function LastLevel(w: World, loaded: seq<Config>): Option<int> {
    if loaded == [] then None
    else
      var c := loaded[|loaded| - 1];
      if w.level(c.logLevel).Some? then w.level(c.logLevel) else LastLevel(w, loaded[..|loaded| - 1])
  }

  predicate SettingsOk(w: World, s: State) {
    && s.loaded != [] && s.loaded[|s.loaded| - 1] == s.cfg
    && s.period == LastInterval(s.loaded) > 0 && Some(s.level) == LastLevel(w, s.loaded)
  }

  lemma SettingsFollowHistory(w: World, s: State, c: Config)
    requires SettingsOk(w, s) && c.logLevel != ""
    ensures
      var s' := Settings(w, s, c);
      s'.period == LastInterval(s.loaded + [c]) > 0 && Some(s'.level) == LastLevel(w, s.loaded + [c])
  {
  }

  // ----- all together -----------------------------------------------------

  ghost predicate Inv(w: World, s: State) {
    && Shaped(s) && Typed(s) && SettingsOk(w, s)
    && (forall i: Slot :: SlotOpen(s, i) && (s.slots[i].Some? ==> Serves(s.slots[i].value, i, s.cfg)))
    && PaddingApplied(w, s) && PaddingServed(w, s, s.cfg)
  }

  lemma SlotTicksKeep(w: World, s: State, c: Config, os: seq<Outcome>)
    requires Shaped(s) && Typed(s) && |os| == 3 && PaddingApplied(w, s) && forall i: Slot :: SlotOpen(s, i)
    ensures
      var s' := SlotTicks(w, s, 3, c, os);
      && (forall i: Slot :: SlotOpen(s', i) && (s'.slots[i].Some? ==> Serves(s'.slots[i].value, i, c)))
      && PaddingApplied(w, s') && PaddingServed(w, s', c)
      && s'.cfg == s.cfg && s'.period == s.period && s'.level == s.level && s'.loaded == s.loaded
  {
    var s' := SlotTicks(w, s, 3, c, os);
    forall i: Slot ensures SlotOpen(s', i) && (s'.slots[i].Some? ==> Serves(s'.slots[i].value, i, c)) {
      SlotTicksLocal(w, s, 3, c, os, i);
      SlotTickKeepsOpen(w, s, i, c, os[i]);
      SlotTickServes(w, s, i, c, os[i]);
    }
    SlotTicksLocal(w, s, 3, c, os, ANYTLS);
    AnytlsTickAppliesPadding(w, s, c, os[ANYTLS]);
  }

  lemma TickKeepsInv(w: World, s: State, t: Tick)
    requires Inv(w, s) && |t.os| == 3
    ensures Inv(w, OnTick(w, s, t))
  {
    if t.load.Some? {
      var c := Adjust(t.load.value);
      SettingsFollowHistory(w, s, c);
      SlotTicksKeep(w, Settings(w, s, c), c, t.os);
    }
  }

  lemma BootKeepsInv(w: World, cfg: Config, s: State)
    requires Boots(w, cfg, s)
    ensures Inv(w, s)
  {
    var blank := Blank(cfg, w.level(cfg.logLevel).value);
    assert LastInterval([cfg]) == cfg.reloadInterval && LastLevel(w, [cfg]) == w.level(cfg.logLevel);
    SlotTicksKeep(w, blank, cfg, [Starts, Starts, Starts]);
  }

  lemma {:induction false} RunKeepsInv(w: World, s: State, ticks: seq<Tick>, s': State)
    requires Inv(w, s) && Runs(w, s, ticks, s')
    ensures Inv(w, s')
    decreases |ticks|
  {
    if ticks != [] {
      TickKeepsInv(w, s, ticks[0]);
      RunKeepsInv(w, OnTick(w, s, ticks[0]), ticks[1..], s');
    }
  }

  lemma ReachableInv(w: World, s: State)
    requires Reachable(w, s)
    ensures Inv(w, s)
  {
    var cfg, s0, ticks :| Boots(w, cfg, s0) && Runs(w, s0, ticks, s);
    BootKeepsInv(w, cfg, s0);
    RunKeepsInv(w, s0, ticks, s);
  }

  /** Lifecycle: in every slot servers are set up one at a time, a replacement only after the old one was
      stopped; the history ends in a started server exactly if the slot holds one, of the slot's own type. */
  lemma ServersTakeTurns(w: World, s: State, i: Slot)
    requires Reachable(w, s)
    ensures Shaped(s)
    ensures PhaseOf(s.events[i]) == if s.slots[i].Some? then Open else Closed
    ensures s.slots[i].Some? ==> Fits(i, s.slots[i].value)
  {
    ReachableInv(w, s);
    assert SlotOpen(s, i);
  }

  /** A tick makes an attempt to start slot i. */
  predicate Attempts(w: World, s: State, i: Slot, c: Config)
    requires Shaped(s) && Typed(s)
  {
    ShouldStart(i, c) && (s.slots[i].None? || NeedReload(w, s.slots[i].value, s.padding, i, c).0)
  }

  /** The tick set up a server in slot i. */
  predicate SetsUp(s: State, s': State, i: Slot)
    requires Shaped(s) && Shaped(s')
  {
    exists k :: |s.events[i]| <= k < |s'.events[i]| && s'.events[i][k].SetUp?
  }

  lemma TurnSetsUpIffAttempts(w: World, s: State, i: Slot, c: Config, o: Outcome)
    requires Shaped(s) && Typed(s)
    ensures SetsUp(s, SlotTick(w, s, i, c, o), i) <==> Attempts(w, s, i, c)
    ensures s.events[i] <= SlotTick(w, s, i, c, o).events[i]
  {
    var s' := SlotTick(w, s, i, c, o);
    if Attempts(w, s, i, c) {
      var k := |s.events[i]| + if s.slots[i].Some? then 1 else 0;
      assert s'.events[i][k].SetUp?;
    }
  }

  lemma TurnRunsIffDesired(w: World, s: State, i: Slot, c: Config, o: Outcome)
    requires Shaped(s) && Typed(s)
    ensures SlotTick(w, s, i, c, o).slots[i].Some? <==>
      ShouldStart(i, c) && (Attempts(w, s, i, c) ==> !Rejected(NewServer(i, c), c.endpoint) && o == Starts)
  {
  }

  lemma SetsUpLooksAtEvents(s: State, s': State, r: State, r': State, i: Slot)
    requires Shaped(s) && Shaped(s') && Shaped(r) && Shaped(r')
    requires r.events[i] == s.events[i] && r'.events[i] == s'.events[i]
    ensures SetsUp(r, r', i) <==> SetsUp(s, s', i)
  {
  }

  lemma AttemptsIgnoreSettings(w: World, s: State, i: Slot, c: Config)
    requires Shaped(s) && Typed(s)
    ensures Attempts(w, Settings(w, s, c), i, c) <==> Attempts(w, s, i, c)
  {
  }

  /** A tick does to slot i what the slot's own turn does. */
  lemma TickIsOwnTurn(w: World, s: State, t: Tick, i: Slot)
    requires Shaped(s) && Typed(s) && |t.os| == 3 && t.load.Some?
    ensures
      var own := SlotTick(w, Settings(w, s, Adjust(t.load.value)), i, Adjust(t.load.value), t.os[i]);
      && Shaped(OnTick(w, s, t)) && Shaped(own)
      && OnTick(w, s, t).slots[i] == own.slots[i] && OnTick(w, s, t).events[i] == own.events[i]
  {
    SlotTickFrame(w, Settings(w, s, Adjust(t.load.value)), i, Adjust(t.load.value), t.os[i]);
    SlotTicksLocal(w, Settings(w, s, Adjust(t.load.value)), |t.os|, Adjust(t.load.value), t.os, i);
  }

  /** After a tick a slot runs if and only if its configuration wants it to and no attempt to start it failed in
      this very tick; a server is set up exactly when an attempt is due, so a slot that should run and does not is
      tried again at every tick. */
  lemma RunsIffDesired(w: World, s: State, t: Tick, i: Slot)
    requires Reachable(w, s) && |t.os| == 3 && t.load.Some?
    ensures Shaped(s) && Typed(s)
    ensures
      var c := Adjust(t.load.value);
      var s' := OnTick(w, s, t);
      && Shaped(s')
      && (s'.slots[i].Some? <==>
            && ShouldStart(i, c)
            && (Attempts(w, s, i, c) ==> !Rejected(NewServer(i, c), c.endpoint) && t.os[i] == Starts))
      && s.events[i] <= s'.events[i]
      && (SetsUp(s, s', i) <==> Attempts(w, s, i, c))
      && (s.slots[i].None? && ShouldStart(i, c) ==> SetsUp(s, s', i))
  {
    ReachableInv(w, s);
    var c := Adjust(t.load.value);
    var own := Settings(w, s, c);
    TickIsOwnTurn(w, s, t, i);
    AttemptsIgnoreSettings(w, s, i, c);
    TurnRunsIffDesired(w, own, i, c, t.os[i]);
    TurnSetsUpIffAttempts(w, own, i, c, t.os[i]);
    SetsUpLooksAtEvents(s, OnTick(w, s, t), own, SlotTick(w, own, i, c, t.os[i]), i);
  }

  /** Loading again the configuration a server was started with leaves it alone, except for an xray
      server with two addresses under one tag: that one is stopped and set up anew. */
  lemma SameConfigIsIdleIff(w: World, s: State, t: Tick, i: Slot)
    requires Shaped(s) && Typed(s) && |t.os| == 3 && t.load.Some? && ShouldStart(i, Adjust(t.load.value))
    requires s.slots[i] == Some(NewServer(i, Adjust(t.load.value)))
    ensures
      var c := Adjust(t.load.value);
      var s' := OnTick(w, s, t);
      && (s'.events[i] == s.events[i] <==> (i == XRAY ==> TagsUnique(c.xray.value)))
      && (s'.events[i] == s.events[i] ==> s'.slots[i] == s.slots[i])
      && (s'.events[i] != s.events[i] && !Rejected(NewServer(i, c), c.endpoint) && t.os[i] == Starts ==>
            s'.events[i] == s.events[i] + [Stopped, SetUp(true), Started(true)] && s'.slots[i] == s.slots[i])
  {
    var c := Adjust(t.load.value);
    SlotTicksLocal(w, Settings(w, s, c), |t.os|, c, t.os, i);
    if i == XRAY { FreshXrayServesItself(c.xray.value); }
    var own := SlotTick(w, Settings(w, s, c), i, c, t.os[i]);
    if i == XRAY && !TagsUnique(c.xray.value) {
      assert own.events[i][|s.events[i]|] == Stopped;
    }
  }

  function Restarts(n: nat): seq<Event> {
    if n == 0 then [] else [Stopped, SetUp(true), Started(true)] + Restarts(n - 1)
  }

  /** Such an xray server, provided it starts at all, is restarted at every tick that loads its configuration again. */
  lemma {:induction false} TwoAddressesRestartEveryTick(w: World, s: State, ticks: seq<Tick>, s': State, c: Config)
    requires Shaped(s) && Typed(s) && Runs(w, s, ticks, s')
    requires c.xray.Some? && !TagsUnique(c.xray.value) && !Rejected(NewServer(XRAY, c), c.endpoint)
    requires s.slots[XRAY] == Some(NewServer(XRAY, c))
    requires forall t :: t in ticks ==> t.load.Some? && Adjust(t.load.value) == c && |t.os| == 3 && t.os[XRAY] == Starts
    ensures Shaped(s') && s'.slots[XRAY] == s.slots[XRAY]
    ensures s'.events[XRAY] == s.events[XRAY] + Restarts(|ticks|)
    decreases |ticks|
  {
    if ticks != [] {
      assert ticks[0] in ticks;
      SameConfigIsIdleIff(w, s, ticks[0], XRAY);
      TwoAddressesRestartEveryTick(w, OnTick(w, s, ticks[0]), ticks[1..], s', c);
    }
  }

  lemma OneTagTwoAddresses()
    ensures
      var x := XrayConfig([Inbound("ss_proxy", ":1"), Inbound("ss_proxy", ":2")]);
      !TagsUnique(x) && XrayNeedsReload(x, x) && !Rejected(XrayServer(x), "endpoint")
  {
    var x := XrayConfig([Inbound("ss_proxy", ":1"), Inbound("ss_proxy", ":2")]);
    assert x.inbounds[0] != x.inbounds[1] && InProxyTags(x.inbounds[0].tag);
    FreshXrayServesItself(x);
  }

  /** No drift: after any ticks every running server agrees with the last configuration loaded on all NeedReload
      looks at: hysteria on every compared field, anytls on its address and on any padding scheme that parses, and
      every proxy inbound of the configuration runs in xray with its tag and address. */
  lemma NoDrift(w: World, s: State, i: Slot)
    requires Reachable(w, s)
    ensures Shaped(s) && s.loaded != [] && s.cfg == s.loaded[|s.loaded| - 1]
    ensures s.slots[i].Some? ==> Serves(s.slots[i].value, i, s.cfg)
    ensures PaddingServed(w, s, s.cfg)
  {
    ReachableInv(w, s);
    assert SlotOpen(s, i);
  }

  /** Settings are determined by history: the ticker runs at the most recent positive interval and the log level is
      the most recent that parses, over all configurations loaded, although each change is only tested against the
      previous one. */
  lemma SettingsDeterminedByHistory(w: World, s: State)
    requires Reachable(w, s)
    ensures s.period == LastInterval(s.loaded) && s.period > 0
    ensures Some(s.level) == LastLevel(w, s.loaded)
  {
    ReachableInv(w, s);
  }
}
