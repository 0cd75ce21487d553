/** The calls the hooks make to a tunnel's backend, and the accounts they leave there (tunnel/xray/user.go:48-87,
    tunnel/xray/services.go:18-68, tunnel/hysteria/user.go:39-50). */
module PoolCalls {
  import opened Common
  import opened Pool
  import opened PoolTrace
  import opened PoolBackend

  // ----- xray: accounts ---------------------------------------------------

  /** What the names of the list's ciphers mean to xray. */
  predicate CipherIs(c: Cipher, name: string) {
    match c
    case Aes128Gcm => name == "aes-128-gcm"
    case Aes256Gcm => name == "aes-256-gcm"
    case Chacha20Poly1305 => name == "chacha20-ietf-poly1305"
    case Unknown => name !in {"aes-128-gcm", "aes-256-gcm", "chacha20-ietf-poly1305"}
  }

  /** The account holds the credentials the list gives for the user. */
  predicate HasCredentials(a: Account, e: User) {
    match a
    case TrojanAccount(level, password) =>
      e.protocol == "trojan" && password == e.password && level == e.level % 0x1_0000_0000
    case ShadowsocksAccount(level, cipher, password) =>
      e.protocol == "ss" && password == e.password && level == e.level % 0x1_0000_0000 && CipherIs(cipher, e.cipher)
  }

  /** The user is of a protocol that xray gets accounts for. */
  predicate HasProtocol(e: User) {
    e.protocol == "trojan" || e.protocol == "ss"
  }

  lemma AccountsHaveCredentials(u: User, e: User)
    requires u.protocol == e.protocol && u.password == e.password && u.level == e.level && u.cipher == e.cipher
    ensures AccountOf(u).Some? <==> HasProtocol(e)
    ensures AccountOf(u).Some? ==> HasCredentials(AccountOf(u).value, e)
  {
  }

  /** A user's credentials name its account. */
  lemma CredentialsDetermineAccount(a: Account, b: Account, e: User)
    requires HasCredentials(a, e) && HasCredentials(b, e)
    ensures a == b
  {
  }

  /** A new user: the hook succeeds, and the pool marks the user as running, if and only if xray does not have the
      user yet, there is an account for it, and the add is acknowledged. */
  lemma NewUserIsAdded<K>(cfg: Config<K>, s: State<K>, e: User)
    requires cfg.hooks.Xray? && e.id !in s.users
    ensures
      var (s', ok) := Upsert(cfg, s, e);
      var carriedOut := e.id !in s.inbound && HasProtocol(e) && cfg.replies(AddOp, |s.calls|) != Failed;
      && (ok <==> carriedOut && cfg.replies(AddOp, |s.calls|) == Done)
      && s'.users == s.users[e.id := User(e.id, e.cipher, e.password, e.level, e.enable, e.protocol, 0, 0, ok)]
      && (carriedOut ==> e.id in s'.inbound && HasCredentials(s'.inbound[e.id], e))
      && (!carriedOut ==> s'.inbound == s.inbound)
      && |s'.calls| == |s.calls| + 1 && s.calls < s'.calls && s'.calls[|s.calls|].id == e.id
      && !s'.calls[|s.calls|].RemoveCall?
  {
    AccountsHaveCredentials(NewUser(e), e);
  }

  /** A change that gets through: an enabled user has the credentials of the list, a disabled one is gone. */
  lemma ChangedUserHasCredentials<K>(cfg: Config<K>, s: State<K>, e: User)
    requires cfg.hooks.Xray? && e.id in s.users && e.id in s.inbound && !s.users[e.id].Equal(e)
    requires s.users[e.id].running && cfg.replies(RemoveOp, |s.calls|) != Failed
    ensures
      var s' := Upsert(cfg, s, e).0;
      && (e.id in s'.inbound <==> e.enable && HasProtocol(e) && cfg.replies(AddOp, |s.calls| + 1) != Failed)
      && (e.id in s'.inbound ==> HasCredentials(s'.inbound[e.id], e))
  {
    AccountsHaveCredentials(e, e);
    ChangeReachesBackendIffEvicts(cfg, s, e);
  }

  /** The credentials of every account come from some entry of the list for that very user. */
  ghost predicate FromEntries(inbound: map<int, Account>, entries: set<User>) {
    forall id :: id in inbound ==> Given(inbound[id], id, entries)
  }

  ghost predicate Given(a: Account, id: int, entries: set<User>) {
    exists e :: e in entries && e.id == id && HasCredentials(a, e)
  }

  lemma AddKeepsEntries<K>(cfg: Config<K>, s: State<K>, u: User, e: User, entries: set<User>)
    requires FromEntries(s.inbound, entries) && e in entries && e.id == u.id
    requires u.protocol == e.protocol && u.password == e.password && u.level == e.level && u.cipher == e.cipher
    ensures FromEntries(AddInbound(cfg, s, u).0.inbound, entries)
  {
    AccountsHaveCredentials(u, e);
    var s' := AddInbound(cfg, s, u).0;
    forall id | id in s'.inbound ensures Given(s'.inbound[id], id, entries) {
      if id in s.inbound && s'.inbound[id] == s.inbound[id] {
        assert Given(s.inbound[id], id, entries);
      } else {
        assert id == e.id && HasCredentials(s'.inbound[id], e);
      }
    }
  }

  lemma RemoveKeepsEntries<K>(cfg: Config<K>, s: State<K>, id: int, entries: set<User>)
    requires FromEntries(s.inbound, entries)
    ensures FromEntries(RemoveInbound(cfg, s, id).0.inbound, entries)
  {
  }

  lemma UpsertKeepsEntries<K>(cfg: Config<K>, s: State<K>, e: User, entries: set<User>)
    requires cfg.hooks.Xray? && FromEntries(s.inbound, entries) && e in entries
    ensures FromEntries(Upsert(cfg, s, e).0.inbound, entries)
  {
    if e.id !in s.users {
      AddKeepsEntries(cfg, Create(cfg, s, e), NewUser(e), e, entries);
    } else if !s.users[e.id].Equal(e) {
      var s1 := Rewrite(cfg, s, e).(trace := s.trace + [Updated(e.id)]);
      RemoveKeepsEntries(cfg, s1, e.id, entries);
      var s2 :=
        if s1.users[e.id].running then
          var (r, ok) := RemoveInbound(cfg, s1, e.id);
          if ok then SetRunning(r, e.id, false) else r
        else s1;
      AddKeepsEntries(cfg, s2, e, e, entries);
    }
  }

  lemma {:induction false} UpsertAllKeepsEntries<K>(cfg: Config<K>, s: State<K>, resp: seq<User>, entries: set<User>)
    requires cfg.hooks.Xray? && FromEntries(s.inbound, entries) && forall e :: e in resp ==> e in entries
    ensures FromEntries(UpsertAll(cfg, s, resp).0.inbound, entries)
    decreases |resp|
  {
    if resp != [] {
      assert resp[0] in resp;
      UpsertKeepsEntries(cfg, s, resp[0], entries);
      var (s1, ok) := Upsert(cfg, s, resp[0]);
      if ok { UpsertAllKeepsEntries(cfg, s1, resp[1..], entries); }
    }
  }

  lemma {:induction false} DropAllKeepsEntries<K>(
    cfg: Config<K>, s: State<K>, order: seq<int>, keep: set<int>, entries: set<User>)
    requires cfg.hooks.Xray? && FromEntries(s.inbound, entries)
    ensures FromEntries(DropAll(cfg, s, order, keep).0.inbound, entries)
    decreases |order|
  {
    if order != [] {
      RemoveKeepsEntries(cfg, s, order[0], entries);
      var (s1, ok) := Drop(cfg, s, order[0], keep);
      assert FromEntries(s1.inbound, entries);
      if ok { DropAllKeepsEntries(cfg, s1, order[1..], keep, entries); }
    }
  }

  lemma {:induction false} FetchKeepsEntries<K>(cfg: Config<K>, s: State<K>, records: seq<Record>, entries: set<User>)
    requires cfg.hooks.Xray? && FromEntries(s.inbound, entries)
    ensures FromEntries(Fetch(cfg, s, records).0.inbound, entries)
    decreases |records|
  {
    if records != [] && records[0].Record? {
      RemoveKeepsEntries(cfg, s, records[0].id, entries);
      FetchKeepsEntries(cfg, FetchOne(cfg, s, records[0]), records[1..], entries);
    }
  }

  lemma StepKeepsEntries<K>(cfg: Config<K>, s: State<K>, i: Input, entries: set<User>)
    requires cfg.hooks.Xray? && FromEntries(s.inbound, entries) && FairOrder(cfg, s, i)
    requires i.Configs? ==> forall e :: e in i.resp ==> e in entries
    ensures FromEntries(Step(cfg, s, i).inbound, entries)
  {
    match i
    case Configs(resp, order) =>
      UpsertAllKeepsEntries(cfg, s, resp, entries);
      DropAllKeepsEntries(cfg, UpsertAll(cfg, s, resp).0, order, Ids(resp), entries);
    case Traffic(fetch, order, _, _) =>
      if fetch.Some? {
        FetchKeepsEntries(cfg, s, fetch.value, entries);
        FetchFrame(cfg, s, fetch.value);
        var (s1, ok) := Fetch(cfg, s, fetch.value);
        if ok { ReportCallsNobody(s1, [], order); }
      }
    case _ =>
  }

  lemma {:induction false} RunKeepsEntries<K>(
    cfg: Config<K>, s: State<K>, inputs: seq<Input>, s': State<K>, entries: set<User>)
    requires cfg.hooks.Xray? && FromEntries(s.inbound, entries) && Run(cfg, s, inputs, s')
    requires forall i, e :: i in inputs && i.Configs? && e in i.resp ==> e in entries
    ensures FromEntries(s'.inbound, entries)
    decreases |inputs|
  {
    if inputs != [] {
      assert inputs[0] in inputs;
      StepKeepsEntries(cfg, s, inputs[0], entries);
      RunKeepsEntries(cfg, Step(cfg, s, inputs[0]), inputs[1..], s', entries);
    }
  }

  /** Over whole runs: every account xray has holds, for its user, the password, level and cipher of one and the
      same list entry with that id; nobody is ever known by another user's credentials. */
  lemma AccountsComeFromLists<K>(cfg: Config<K>, inputs: seq<Input>, s: State<K>, entries: set<User>, id: int)
    requires cfg.hooks.Xray? && Run(cfg, Empty(), inputs, s) && id in s.inbound
    requires forall i, e :: i in inputs && i.Configs? && e in i.resp ==> e in entries
    ensures exists e :: e in entries && e.id == id && HasCredentials(s.inbound[id], e)
  {
    RunKeepsEntries(cfg, Empty(), inputs, s, entries);
    assert Given(s.inbound[id], id, entries);
  }

  // ----- hysteria and anytls: kicks ---------------------------------------

  /** Without an add hook a new user takes no call, and adding it succeeds. */
  lemma NewUserNeedsNoCall<K>(cfg: Config<K>, s: State<K>, e: User)
    requires !cfg.hooks.Xray? && e.id !in s.users
    ensures
      var (s', ok) := Upsert(cfg, s, e);
      && ok && s'.calls == s.calls && s'.inbound == s.inbound
      && s'.users == s.users[e.id := User(e.id, e.cipher, e.password, e.level, e.enable, e.protocol, 0, 0, false)]
  {
  }

  /** A changed hysteria user is kicked exactly if it is marked running; whatever the reply, the mark is taken off. */
  lemma ChangedUserIsKickedIffRunning<K>(cfg: Config<K>, s: State<K>, e: User)
    requires cfg.hooks.Hysteria? && e.id in s.users
    requires s.users[e.id].cipher != e.cipher || s.users[e.id].password != e.password
      || s.users[e.id].enable != e.enable
    ensures
      var (s', ok) := Upsert(cfg, s, e);
      && ok && s'.inbound == s.inbound && !s'.users[e.id].running
      && s'.calls == s.calls +
           if s.users[e.id].running then [RemoveCall(e.id, cfg.replies(RemoveOp, |s.calls|))] else []
  {
  }

  /** A hysteria user that is no longer listed is kicked, running or not, and leaves exactly if the kick is
      acknowledged. */
  lemma UnlistedUserIsKicked<K>(cfg: Config<K>, s: State<K>, id: int, keep: set<int>)
    requires cfg.hooks.Hysteria? && id in s.users && id !in keep
    ensures
      var (s', ok) := Drop(cfg, s, id, keep);
      && s'.calls == s.calls + [RemoveCall(id, cfg.replies(RemoveOp, |s.calls|))]
      && (ok <==> cfg.replies(RemoveOp, |s.calls|) == Done) && (ok <==> id !in s'.users)
  {
  }

  /** A login marks its user as running, and that is all it does. */
  lemma LoginMarksUser<K>(cfg: Config<K>, s: State<K>, id: int, other: int)
    requires id in s.users && other in s.users
    ensures
      var s' := Step(cfg, s, LoggedIn(id));
      && s'.users.Keys == s.users.Keys && s'.users[id] == s.users[id].(running := true)
      && (other != id ==> s'.users[other] == s.users[other])
      && s' == s.(users := s'.users)
  {
  }

  /** Some call since asks hysteria to end the user's connections. */
  ghost predicate Kicked(before: seq<Call>, calls: seq<Call>, id: int) {
    exists k :: |before| <= k < |calls| && calls[k].RemoveCall? && calls[k].id == id
  }

  ghost predicate AnsweredKick(before: seq<Call>, calls: seq<Call>, id: int) {
    exists k :: |before| <= k < |calls| && calls[k] == RemoveCall(id, Done)
  }

  /** The user is in the pool and marked as before, or has been kicked; and if gone, the kick was acknowledged. */
  ghost predicate KickedOrStays<K>(before: State<K>, s: State<K>, id: int) {
    && before.calls <= s.calls
    && ((id in s.users && s.users[id].running) || Kicked(before.calls, s.calls, id))
    && (id in s.users || AnsweredKick(before.calls, s.calls, id))
  }

  lemma LaterKicks(before: seq<Call>, calls: seq<Call>, calls': seq<Call>, id: int)
    requires before <= calls <= calls'
    ensures Kicked(before, calls, id) ==> Kicked(before, calls', id)
    ensures AnsweredKick(before, calls, id) ==> AnsweredKick(before, calls', id)
  {
    if k :| |before| <= k < |calls| && calls[k].RemoveCall? && calls[k].id == id {
      assert calls'[k] == calls[k];
    }
    if k :| |before| <= k < |calls| && calls[k] == RemoveCall(id, Done) {
      assert calls'[k] == calls[k];
    }
  }

  lemma UpsertKicksOrStays<K>(cfg: Config<K>, before: State<K>, s: State<K>, e: User, id: int)
    requires cfg.hooks.Hysteria? && KickedOrStays(before, s, id)
    ensures KickedOrStays(before, Upsert(cfg, s, e).0, id)
  {
    var s' := Upsert(cfg, s, e).0;
    if e.id !in s.users {
      NewUserNeedsNoCall(cfg, s, e);
    } else if !s.users[e.id].Equal(e) {
      ChangedUserIsKickedIffRunning(cfg, s, e);
      UpsertConfigures(cfg, s, e, if id in s.users then id else e.id);
      if s.users[e.id].running { assert s'.calls[|s.calls|].RemoveCall? && s'.calls[|s.calls|].id == e.id; }
    }
    LaterKicks(before.calls, s.calls, s'.calls, id);
  }

  lemma DropKicksOrStays<K>(cfg: Config<K>, before: State<K>, s: State<K>, gone: int, keep: set<int>, id: int)
    requires cfg.hooks.Hysteria? && gone in s.users && KickedOrStays(before, s, id)
    ensures KickedOrStays(before, Drop(cfg, s, gone, keep).0, id)
  {
    var s' := Drop(cfg, s, gone, keep).0;
    if gone !in keep {
      UnlistedUserIsKicked(cfg, s, gone, keep);
      RemoveHookFrame(cfg, s, gone);
      assert s'.calls[|s.calls|] == RemoveCall(gone, cfg.replies(RemoveOp, |s.calls|));
    }
    LaterKicks(before.calls, s.calls, s'.calls, id);
  }

  /** Traffic leaves hysteria's marks alone, and its calls only add to the record. */
  lemma {:induction false} FetchMarksNobody<K>(cfg: Config<K>, s: State<K>, records: seq<Record>, id: int)
    ensures
      var s' := Fetch(cfg, s, records).0;
      s.calls <= s'.calls && (id in s'.users <==> id in s.users)
      && (id in s.users ==> s'.users[id].running == s.users[id].running)
    decreases |records|
  {
    if records != [] && records[0].Record? {
      FetchMarksNobody(cfg, FetchOne(cfg, s, records[0]), records[1..], id);
    }
  }

  lemma {:induction false} ReportMarksNobody<K>(s: State<K>, data: seq<Usage>, order: seq<int>, id: int)
    requires forall i :: i in order ==> i in s.users
    ensures
      var s' := ReportAll(s, data, order).0;
      s'.calls == s.calls && (id in s'.users <==> id in s.users)
      && (id in s.users ==> s'.users[id].running == s.users[id].running)
    decreases |order|
  {
    if order != [] {
      assert order[0] in order;
      var (s1, data1) := ReportOne(s, data, order[0]);
      ReportMarksNobody(s1, data1, order[1..], id);
    }
  }

  lemma TrafficMarksNobody<K>(cfg: Config<K>, s: State<K>, i: Input, id: int)
    requires i.Traffic? && FairOrder(cfg, s, i)
    ensures
      var s' := Step(cfg, s, i);
      s.calls <= s'.calls && (id in s'.users <==> id in s.users)
      && (id in s.users ==> s'.users[id].running == s.users[id].running)
  {
    if i.fetch.Some? { FetchMarksNobody(cfg, s, i.fetch.value, id); }
    FetchKeepsUsers(cfg, s, if i.fetch.Some? then i.fetch.value else []);
    var (s1, ok) := FetchTraffic(cfg, s, i.fetch);
    if ok { ReportMarksNobody(s1, [], i.order, id); }
  }

  /** Over whole runs, aborted cycles included: a hysteria user that was logged in and no longer counts as such was
      kicked in between, and one that is no longer in the pool left after a kick that was acknowledged. */
  lemma LoggedInUsersAreKicked<K(!new)>(cfg: Config<K>, s: State<K>, inputs: seq<Input>, s': State<K>, id: int)
    requires cfg.hooks.Hysteria? && Run(cfg, s, inputs, s') && id in s.users && s.users[id].running
    ensures s.calls <= s'.calls
    ensures id !in s'.users || !s'.users[id].running ==>
      exists k :: |s.calls| <= k < |s'.calls| && s'.calls[k].RemoveCall? && s'.calls[k].id == id
    ensures id !in s'.users ==> exists k :: |s.calls| <= k < |s'.calls| && s'.calls[k] == RemoveCall(id, Done)
  {
    var p := (t: State<K>) => KickedOrStays(s, t, id);
    forall t, e | p(t) ensures p(Upsert(cfg, t, e).0) { UpsertKicksOrStays(cfg, s, t, e, id); }
    forall t, gone, keep | p(t) && gone in t.users ensures p(Drop(cfg, t, gone, keep).0) {
      DropKicksOrStays(cfg, s, t, gone, keep, id);
    }
    forall t, i: Input | p(t) && !i.Configs? && FairOrder(cfg, t, i) ensures p(Step(cfg, t, i)) {
      if i.Traffic? { TrafficMarksNobody(cfg, t, i, id); }
      LaterKicks(s.calls, t.calls, Step(cfg, t, i).calls, id);
    }
    RunKeeps(cfg, p, i => true, s, inputs, s');
    assert id !in s'.users || !s'.users[id].running ==> Kicked(s.calls, s'.calls, id);
    assert id !in s'.users ==> AnsweredKick(s.calls, s'.calls, id);
  }

  /** Anytls calls nobody, in any run. */
  lemma AnytlsCallsNobody<K(!new)>(cfg: Config<K>, inputs: seq<Input>, s: State<K>)
    requires cfg.hooks.Anytls? && Run(cfg, Empty(), inputs, s)
    ensures s.calls == [] && s.inbound == map[]
  {
    var p := (s: State<K>) => s.calls == [] && s.inbound == map[];
    forall s, i: Input | p(s) && !i.Configs? && FairOrder(cfg, s, i) ensures p(Step(cfg, s, i)) {
      if i.Traffic? { ReportCallsNobody(s, [], i.order); }
    }
    RunKeeps(cfg, p, i => true, Empty(), inputs, s);
  }
}
