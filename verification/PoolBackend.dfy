/** The xray backend's user list next to the pool (tunnel/xray/user.go:48-64, tunnel/xray/services.go:31-68). */
module PoolBackend {
  import opened Common
  import opened Pool
  import opened PoolTrace

  /** The backend knows no user the pool does not. */
  predicate Within<K>(s: State<K>) {
    s.inbound.Keys <= s.users.Keys
  }

  /** The backend was left without the user: leaving failed removals aside, the last call about it
      was an add that was not carried out, or a removal that was, with its acknowledgement lost. */
  predicate Forgotten(calls: seq<Call>, id: int) {
    if calls == [] then false
    else
      var last := calls[|calls| - 1];
      var before := Forgotten(calls[..|calls| - 1], id);
      if last.id != id then before
      else
        match last
        case AddCall(_, reply) => reply == Failed
        case AddRefused(_) => false
        case RemoveCall(_, reply) => reply == Lost || (reply == Failed && before)
  }

  lemma ForgottenSnoc(calls: seq<Call>, c: Call, id: int)
    ensures Forgotten(calls + [c], id) ==
      if c.id != id then Forgotten(calls, id)
      else
        match c
        case AddCall(_, reply) => reply == Failed
        case AddRefused(_) => false
        case RemoveCall(_, reply) => reply == Lost || (reply == Failed && Forgotten(calls, id))
  {
  }

  /** The calls tell what the backend knows about the user; `Accounted` holds of the users it should know. */
  predicate Truthful<K>(s: State<K>, id: int) {
    Forgotten(s.calls, id) ==> id !in s.inbound
  }

  predicate Accounted<K>(s: State<K>, id: int) {
    id in s.inbound || Forgotten(s.calls, id)
  }

  /** What happened between s and s' says nothing about user id. */
  predicate SameFor<K>(s: State<K>, s': State<K>, id: int) {
    && (id in s'.inbound <==> id in s.inbound)
    && (id in s.inbound && id in s'.inbound ==> s'.inbound[id] == s.inbound[id])
    && (Forgotten(s'.calls, id) <==> Forgotten(s.calls, id))
  }

  lemma AddAccounts<K>(cfg: Config<K>, s: State<K>, u: User, id: int)
    ensures
      var s' := AddInbound(cfg, s, u).0;
      if id == u.id then Truthful(s', id) && Accounted(s', id) else SameFor(s, s', id)
  {
    ForgottenSnoc(s.calls, AddInbound(cfg, s, u).0.calls[|s.calls|], id);
  }

  lemma RemoveAccounts<K>(cfg: Config<K>, s: State<K>, gone: int, id: int)
    ensures
      var (s', ok) := RemoveInbound(cfg, s, gone);
      if id == gone then (Truthful(s, id) ==> Truthful(s', id)) && (Accounted(s, id) && !ok ==> Accounted(s', id))
      else SameFor(s, s', id)
  {
    ForgottenSnoc(s.calls, RemoveInbound(cfg, s, gone).0.calls[|s.calls|], id);
  }

  lemma ReplaceAccounts<K>(cfg: Config<K>, s: State<K>, e: User, id: int)
    requires e.id in s.users
    ensures
      var s' := Replace(cfg, s, e);
      if id == e.id then (Truthful(s, id) ==> Truthful(s', id)) && (e.enable ==> Accounted(s', id))
      else SameFor(s, s', id)
  {
    RemoveAccounts(cfg, s, e.id, id);
    var s1 :=
      if s.users[e.id].running then
        var (r, ok) := RemoveInbound(cfg, s, e.id);
        if ok then SetRunning(r, e.id, false) else r
      else s;
    AddAccounts(cfg, s1, e, id);
  }

  /** After an upsert the backend knows its user, if enabled, or has forgotten it; the others are untouched. */
  lemma UpsertAccounts<K>(cfg: Config<K>, s: State<K>, e: User, id: int)
    requires cfg.hooks.Xray?
    ensures
      var s' := Upsert(cfg, s, e).0;
      if id == e.id then
        && (Truthful(s, id) ==> Truthful(s', id))
        && (e.enable && (id in s.users && s.users[id].Equal(e) ==> Accounted(s, id)) ==> Accounted(s', id))
      else SameFor(s, s', id)
  {
    if e.id !in s.users {
      AddAccounts(cfg, Create(cfg, s, e), NewUser(e), id);
    } else if !s.users[e.id].Equal(e) {
      ReplaceAccounts(cfg, Rewrite(cfg, s, e).(trace := s.trace + [Updated(e.id)]), e, id);
    }
  }

  lemma DropAccounts<K>(cfg: Config<K>, s: State<K>, gone: int, keep: set<int>, id: int)
    requires cfg.hooks.Xray?
    ensures
      var (s', ok) := Drop(cfg, s, gone, keep);
      if id == gone then
        (Truthful(s, id) ==> Truthful(s', id)) && (Accounted(s, id) && (id in keep || !ok) ==> Accounted(s', id))
      else SameFor(s, s', id)
  {
    if gone !in keep {
      RemoveAccounts(cfg, s, gone, id);
      var s1 := OnRemove(cfg, s, gone).0;
      assert s1.calls == RemoveInbound(cfg, s, gone).0.calls && s1.inbound == RemoveInbound(cfg, s, gone).0.inbound;
    }
  }

  predicate AccountedAt<K>(s: State<K>, id: int) {
    Truthful(s, id) && (id in s.users && s.users[id].enable ==> Accounted(s, id))
  }

  ghost predicate AllAccounted<K>(s: State<K>) {
    forall id :: AccountedAt(s, id)
  }

  lemma UpsertKeepsAccounted<K>(cfg: Config<K>, s: State<K>, e: User)
    requires cfg.hooks.Xray? && AllAccounted(s)
    ensures AllAccounted(Upsert(cfg, s, e).0)
  {
    UpsertSpeaks(cfg, s, e);
    forall id ensures AccountedAt(Upsert(cfg, s, e).0, id) {
      assert AccountedAt(s, id);
      UpsertAccounts(cfg, s, e, id);
      if id in s.users || id == e.id { UpsertConfigures(cfg, s, e, id); }
    }
  }

  lemma DropKeepsAccounted<K>(cfg: Config<K>, s: State<K>, gone: int, keep: set<int>)
    requires cfg.hooks.Xray? && AllAccounted(s) && gone in s.users
    ensures AllAccounted(Drop(cfg, s, gone, keep).0)
  {
    RemoveHookFrame(cfg, s, gone);
    forall id ensures AccountedAt(Drop(cfg, s, gone, keep).0, id) {
      assert AccountedAt(s, id);
      DropAccounts(cfg, s, gone, keep, id);
    }
  }

  lemma UpsertKeepsWithin<K>(cfg: Config<K>, s: State<K>, e: User)
    requires cfg.hooks.Xray? && Within(s)
    ensures Within(Upsert(cfg, s, e).0)
  {
    UpsertSpeaks(cfg, s, e);
    forall id | id in Upsert(cfg, s, e).0.inbound ensures id in Upsert(cfg, s, e).0.users {
      UpsertAccounts(cfg, s, e, id);
    }
  }

  lemma DropKeepsWithin<K>(cfg: Config<K>, s: State<K>, id: int, keep: set<int>)
    requires cfg.hooks.Xray? && Within(s) && id in s.users
    ensures Within(Drop(cfg, s, id, keep).0)
  {
  }

  /** Fetching traffic evicts strangers only. */
  lemma FetchOneAccounts<K>(cfg: Config<K>, s: State<K>, r: Record)
    requires r.Record?
    ensures
      var s' := FetchOne(cfg, s, r);
      && s'.inbound.Keys <= s.inbound.Keys
      && (forall id :: id in s.users && id in s.inbound ==> id in s'.inbound)
      && (cfg.hooks.Xray? && AllAccounted(s) ==> AllAccounted(s'))
  {
    if cfg.hooks.Xray? && AllAccounted(s) {
      assert TrafficFrame(s, FetchOne(cfg, s, r));
      forall id ensures AccountedAt(FetchOne(cfg, s, r), id) {
        assert AccountedAt(s, id);
        RemoveAccounts(cfg, s, r.id, id);
      }
    }
  }

  /** Steps that leave the backend and the users' configurations alone. */
  lemma QuietKeepsAccounted<K>(s: State<K>, s': State<K>)
    requires TrafficFrame(s, s') && s'.inbound == s.inbound && s'.calls == s.calls && AllAccounted(s)
    ensures AllAccounted(s')
  {
    forall id ensures AccountedAt(s', id) {
      assert AccountedAt(s, id);
    }
  }

  lemma {:induction false} FetchAccounts<K>(cfg: Config<K>, s: State<K>, records: seq<Record>)
    ensures
      var s' := Fetch(cfg, s, records).0;
      && s'.inbound.Keys <= s.inbound.Keys
      && (forall id :: id in s.users && id in s.inbound ==> id in s'.inbound)
      && (cfg.hooks.Xray? && AllAccounted(s) ==> AllAccounted(s'))
    decreases |records|
  {
    if records != [] && records[0].Record? {
      var s1 := FetchOne(cfg, s, records[0]);
      assert TrafficFrame(s, s1);
      FetchOneAccounts(cfg, s, records[0]);
      FetchAccounts(cfg, s1, records[1..]);
    }
  }

  lemma {:induction false} ReportCallsNobody<K>(s: State<K>, data: seq<Usage>, order: seq<int>)
    requires forall id :: id in order ==> id in s.users
    ensures ReportAll(s, data, order).0.inbound == s.inbound && ReportAll(s, data, order).0.calls == s.calls
    decreases |order|
  {
    if order != [] {
      assert order[0] in order;
      var (s1, data1) := ReportOne(s, data, order[0]);
      ReportCallsNobody(s1, data1, order[1..]);
    }
  }

  lemma StepAccounts<K>(cfg: Config<K>, s: State<K>, i: Input)
    requires !i.Configs? && FairOrder(cfg, s, i)
    ensures
      var s' := Step(cfg, s, i);
      && s'.inbound.Keys <= s.inbound.Keys
      && (forall id :: id in s.users && id in s.inbound ==> id in s'.inbound)
      && (cfg.hooks.Xray? && AllAccounted(s) ==> AllAccounted(s'))
  {
    StepFrame(cfg, s, i);
    var s1 := s;
    if i.Traffic? {
      var fetched := FetchTraffic(cfg, s, i.fetch);
      if i.fetch.Some? {
        FetchAccounts(cfg, s, i.fetch.value);
        FetchFrame(cfg, s, i.fetch.value);
      }
      s1 := fetched.0;
      if fetched.1 {
        ReportCallsNobody(s1, [], i.order);
        ReportFrame(s1, [], i.order);
      }
    }
    if cfg.hooks.Xray? && AllAccounted(s) { QuietKeepsAccounted(s1, Step(cfg, s, i)); }
  }

  /** The lower slice: whatever the backend does, it never knows a user the pool does not. */
  lemma InboundWithinPool<K(!new)>(cfg: Config<K>, inputs: seq<Input>, s: State<K>)
    requires cfg.hooks.Xray? && Run(cfg, Empty(), inputs, s)
    ensures s.inbound.Keys <= s.users.Keys
  {
    var p := (s: State<K>) => Within(s);
    forall s, e | p(s) ensures p(Upsert(cfg, s, e).0) { UpsertKeepsWithin(cfg, s, e); }
    forall s, id, keep | p(s) && id in s.users ensures p(Drop(cfg, s, id, keep).0) {
      DropKeepsWithin(cfg, s, id, keep);
    }
    forall s, i: Input | p(s) && !i.Configs? && FairOrder(cfg, s, i) ensures p(Step(cfg, s, i)) {
      StepFrame(cfg, s, i);
      StepAccounts(cfg, s, i);
    }
    RunKeeps(cfg, p, i => true, Empty(), inputs, s);
  }

  /** The upper slice, exactly: after any run, with any answers of the backend, an enabled user of the pool
      is known to the backend if and only if the calls made about that very user have not left it forgotten. */
  lemma EnabledUsersInbound<K(!new)>(cfg: Config<K>, inputs: seq<Input>, s: State<K>, id: int)
    requires cfg.hooks.Xray? && Run(cfg, Empty(), inputs, s)
    requires id in s.users && s.users[id].enable
    ensures id in s.inbound <==> !Forgotten(s.calls, id)
  {
    var p := (s: State<K>) => AllAccounted(s);
    forall s, e | p(s) ensures p(Upsert(cfg, s, e).0) { UpsertKeepsAccounted(cfg, s, e); }
    forall s, id, keep | p(s) && id in s.users ensures p(Drop(cfg, s, id, keep).0) {
      DropKeepsAccounted(cfg, s, id, keep);
    }
    forall s, i: Input | p(s) && !i.Configs? && FairOrder(cfg, s, i) ensures p(Step(cfg, s, i)) {
      StepAccounts(cfg, s, i);
    }
    RunKeeps(cfg, p, i => true, Empty(), inputs, s);
    assert AccountedAt(s, id);
  }

  /** In particular nobody is forgotten whose adds were all carried out and whose removals were all acknowledged or
      not carried out. */
  lemma {:induction false} ReliableCallsForgetNobody(calls: seq<Call>, id: int)
    requires forall c :: c in calls && c.id == id ==> c != AddCall(id, Failed) && c != RemoveCall(id, Lost)
    ensures !Forgotten(calls, id)
    decreases |calls|
  {
    if calls != [] {
      assert calls[|calls| - 1] in calls;
      ReliableCallsForgetNobody(calls[..|calls| - 1], id);
    }
  }

  // ----- any user, enabled or not -----------------------------------------

  /** Adds that were carried out or refused leave the user known, removals that were carried out leave it unknown. */
  predicate Known(calls: seq<Call>, id: int) {
    if calls == [] then false
    else
      var last := calls[|calls| - 1];
      var before := Known(calls[..|calls| - 1], id);
      if last.id != id then before
      else
        match last
        case AddCall(_, reply) => reply != Failed
        case AddRefused(_) => true
        case RemoveCall(_, reply) => reply == Failed && before
  }

  ghost predicate KnownByCalls<K>(s: State<K>) {
    forall id :: id in s.inbound <==> Known(s.calls, id)
  }

  lemma AddKeepsKnown<K>(cfg: Config<K>, s: State<K>, u: User)
    requires KnownByCalls(s)
    ensures KnownByCalls(AddInbound(cfg, s, u).0)
  {
    assert AddInbound(cfg, s, u).0.calls[..|s.calls|] == s.calls;
  }

  lemma RemoveKeepsKnown<K>(cfg: Config<K>, s: State<K>, id: int)
    requires KnownByCalls(s)
    ensures KnownByCalls(RemoveInbound(cfg, s, id).0)
  {
    assert RemoveInbound(cfg, s, id).0.calls[..|s.calls|] == s.calls;
  }

  lemma UpsertKeepsKnown<K>(cfg: Config<K>, s: State<K>, e: User)
    requires cfg.hooks.Xray? && KnownByCalls(s)
    ensures KnownByCalls(Upsert(cfg, s, e).0)
  {
    if e.id !in s.users {
      AddKeepsKnown(cfg, Create(cfg, s, e), NewUser(e));
    } else if !s.users[e.id].Equal(e) {
      var s1 := Rewrite(cfg, s, e).(trace := s.trace + [Updated(e.id)]);
      RemoveKeepsKnown(cfg, s1, e.id);
      var s2 :=
        if s1.users[e.id].running then
          var (r, ok) := RemoveInbound(cfg, s1, e.id);
          if ok then SetRunning(r, e.id, false) else r
        else s1;
      AddKeepsKnown(cfg, s2, e);
    }
  }

  lemma {:induction false} FetchKeepsKnown<K>(cfg: Config<K>, s: State<K>, records: seq<Record>)
    requires cfg.hooks.Xray? && KnownByCalls(s)
    ensures KnownByCalls(Fetch(cfg, s, records).0)
    decreases |records|
  {
    if records != [] && records[0].Record? {
      if records[0].id !in s.users { RemoveKeepsKnown(cfg, s, records[0].id); }
      FetchKeepsKnown(cfg, FetchOne(cfg, s, records[0]), records[1..]);
    }
  }

  lemma StepKeepsKnown<K>(cfg: Config<K>, s: State<K>, i: Input)
    requires cfg.hooks.Xray? && !i.Configs? && FairOrder(cfg, s, i) && KnownByCalls(s)
    ensures KnownByCalls(Step(cfg, s, i))
  {
    if i.Traffic? && i.fetch.Some? {
      FetchKeepsKnown(cfg, s, i.fetch.value);
      FetchFrame(cfg, s, i.fetch.value);
      var (s1, ok) := Fetch(cfg, s, i.fetch.value);
      if ok { ReportCallsNobody(s1, [], i.order); }
    }
  }

  /** Whether the backend knows a user, enabled or disabled, in the pool or not, is decided by the calls made about
      it. */
  lemma BackendKnowsByCalls<K(!new)>(cfg: Config<K>, inputs: seq<Input>, s: State<K>, id: int)
    requires cfg.hooks.Xray? && Run(cfg, Empty(), inputs, s)
    ensures id in s.inbound <==> Known(s.calls, id)
  {
    var p := (s: State<K>) => KnownByCalls(s);
    forall s, e | p(s) ensures p(Upsert(cfg, s, e).0) { UpsertKeepsKnown(cfg, s, e); }
    forall s, gone, keep | p(s) && gone in s.users ensures p(Drop(cfg, s, gone, keep).0) {
      RemoveKeepsKnown(cfg, s, gone);
    }
    forall s, i: Input | p(s) && !i.Configs? && FairOrder(cfg, s, i) ensures p(Step(cfg, s, i)) {
      StepKeepsKnown(cfg, s, i);
    }
    RunKeeps(cfg, p, i => true, Empty(), inputs, s);
  }

  /** In particular a disabled user can be known: the add hook does not look at the flag. */
  lemma DisabledUserIsAdded<K>(cfg: Config<K>)
    requires cfg.hooks.Xray? && cfg.replies(AddOp, 0) == Done
    ensures
      var (s, ok) := Sync(cfg, Empty(), [Trojan("a", false)], [1]);
      ok && 1 in s.users && !s.users[1].enable && 1 in s.inbound
  {
    var u := Trojan("a", false);
    assert [u][1..] == [] && [1][1..] == [] && u in [u];
    assert Ids([u]) == {1};
  }

  // ----- where the sandwich has a gap -------------------------------------

  function Trojan(password: string, enable: bool): User {
    User(1, "", password, 0, enable, "trojan", 0, 0, false)
  }

  /** A user whose removal was carried out but not acknowledged stays in the pool; listed again, it is missing from
      the backend. */
  lemma LostRemovalLeavesGap<K>(cfg: Config<K>)
    requires cfg.hooks.Xray? && cfg.replies(AddOp, 0) == Done && cfg.replies(RemoveOp, 1) == Lost
    ensures
      var u := Trojan("a", true);
      var (s1, ok1) := Sync(cfg, Empty(), [u], [1]);
      var (s2, ok2) := Sync(cfg, s1, [], [1]);
      var (s3, ok3) := Sync(cfg, s2, [u], [1]);
      ok1 && !ok2 && ok3 && 1 in s3.users && s3.users[1].enable && 1 !in s3.inbound
  {
    var u := Trojan("a", true);
    assert [u][1..] == [] && [1][1..] == [] && u in [u];
    assert Ids([u]) == {1} && 1 !in Ids([]);
  }

  /** And so is a user whose add failed: it stays in the pool, and the next synchronisation finds it unchanged. */
  lemma FailedAddLeavesGap<K>(cfg: Config<K>)
    requires cfg.hooks.Xray? && cfg.replies(AddOp, 0) == Failed
    ensures
      var u := Trojan("a", true);
      var (s1, ok1) := Sync(cfg, Empty(), [u], [1]);
      var (s2, ok2) := Sync(cfg, s1, [u], [1]);
      !ok1 && ok2 && 1 in s2.users && s2.users[1].enable && 1 !in s2.inbound
  {
    var u := Trojan("a", true);
    assert [u][1..] == [] && [1][1..] == [] && u in [u];
    assert Ids([u]) == {1};
  }

  /** The user is in the pool with the configuration of u and unknown to the backend. */
  predicate Missing<K>(s: State<K>, u: User) {
    u.id in s.users && s.users[u.id].Equal(u) && u.id !in s.inbound
  }

  predicate ListsUnchanged(i: Input, u: User) {
    i.Configs? ==> (exists e :: e in i.resp && e.id == u.id) && forall e :: e in i.resp && e.id == u.id ==> u.Equal(e)
  }

  lemma {:induction false} UpsertAllKeepsMissing<K>(cfg: Config<K>, s: State<K>, resp: seq<User>, u: User)
    requires cfg.hooks.Xray? && Missing(s, u) && forall e :: e in resp && e.id == u.id ==> u.Equal(e)
    ensures Missing(UpsertAll(cfg, s, resp).0, u)
    decreases |resp|
  {
    if resp != [] {
      assert resp[0] in resp;
      UpsertAccounts(cfg, s, resp[0], u.id);
      UpsertSpeaks(cfg, s, resp[0]);
      UpsertConfigures(cfg, s, resp[0], u.id);
      var (s1, ok) := Upsert(cfg, s, resp[0]);
      assert Missing(s1, u);
      if ok { UpsertAllKeepsMissing(cfg, s1, resp[1..], u); }
    }
  }

  lemma {:induction false} DropAllKeepsMissing<K>(cfg: Config<K>, s: State<K>, order: seq<int>, keep: set<int>, u: User)
    requires cfg.hooks.Xray? && Missing(s, u) && u.id in keep
    requires Distinct(order) && forall id :: id in order ==> id in s.users
    ensures Missing(DropAll(cfg, s, order, keep).0, u)
    decreases |order|
  {
    if order != [] {
      assert order[0] in order;
      DropAccounts(cfg, s, order[0], keep, u.id);
      RemoveHookFrame(cfg, s, order[0]);
      DropTakesOne(cfg, s, order[0], keep);
      var (s1, ok) := Drop(cfg, s, order[0], keep);
      assert Missing(s1, u);
      if ok { DropAllKeepsMissing(cfg, s1, order[1..], keep, u); }
    }
  }

  lemma StepKeepsMissing<K>(cfg: Config<K>, s: State<K>, i: Input, u: User)
    requires cfg.hooks.Xray? && Missing(s, u) && FairOrder(cfg, s, i) && ListsUnchanged(i, u)
    ensures Missing(Step(cfg, s, i), u)
  {
    if i.Configs? {
      UpsertAllKeepsMissing(cfg, s, i.resp, u);
      var (s1, ok) := UpsertAll(cfg, s, i.resp);
      assert u.id in Ids(i.resp);
      if ok { DropAllKeepsMissing(cfg, s1, i.order, Ids(i.resp), u); }
    } else {
      StepAccounts(cfg, s, i);
      StepFrame(cfg, s, i);
    }
  }

  /** Nothing repairs the gap: a user missing from the backend stays missing throughout every run
      in which the control plane keeps listing it unchanged. */
  lemma {:induction false} GapIsNotRepaired<K>(cfg: Config<K>, s: State<K>, inputs: seq<Input>, s': State<K>, u: User)
    requires cfg.hooks.Xray? && Missing(s, u) && Run(cfg, s, inputs, s')
    requires forall i :: i in inputs ==> ListsUnchanged(i, u)
    ensures Missing(s', u)
    decreases |inputs|
  {
    if inputs != [] {
      assert inputs[0] in inputs;
      StepKeepsMissing(cfg, s, inputs[0], u);
      GapIsNotRepaired(cfg, Step(cfg, s, inputs[0]), inputs[1..], s', u);
    }
  }

  /** The eviction that a change begins with takes place: the pool's running flag is set and the removal is carried
      out. */
  predicate Evicts<K>(cfg: Config<K>, s: State<K>, id: int) {
    id in s.users && s.users[id].running && NextReply(cfg, s, RemoveOp) != Failed
  }

  /** The add that follows is carried out. */
  predicate Readds<K>(cfg: Config<K>, s: State<K>, e: User) {
    e.enable && AccountOf(e).Some? && cfg.replies(AddOp, |s.calls| + 1) != Failed
  }

  /** What a change makes of a user the backend knows, for every reply: it gets through exactly when the eviction takes
      place. Otherwise the backend keeps what it had, account included; and the flag, once unset, is not set again. */
  lemma ChangeReachesBackendIffEvicts<K>(cfg: Config<K>, s: State<K>, e: User)
    requires cfg.hooks.Xray? && e.id in s.users && e.id in s.inbound && !s.users[e.id].Equal(e)
    ensures
      var s' := Upsert(cfg, s, e).0;
      && (!Evicts(cfg, s, e.id) ==> s'.inbound == s.inbound)
      && (Evicts(cfg, s, e.id) ==>
            s'.inbound == if Readds(cfg, s, e) then s.inbound[e.id := AccountOf(e).value] else s.inbound - {e.id})
      && (s'.users[e.id].running <==> s.users[e.id].running && NextReply(cfg, s, RemoveOp) != Done)
  {
    if Evicts(cfg, s, e.id) {
      assert (s.inbound - {e.id})[e.id := s.inbound[e.id]] == s.inbound;
    }
  }

  /** So a change ends as it should if and only if the eviction takes place, and the add where one is due,
      or the backend had the wanted account before. */
  lemma ChangeReachesBackendIff<K>(cfg: Config<K>, s: State<K>, e: User)
    requires cfg.hooks.Xray? && e.id in s.users && e.id in s.inbound && !s.users[e.id].Equal(e)
    ensures
      var s' := Upsert(cfg, s, e).0;
      && (!e.enable ==> (e.id !in s'.inbound <==> Evicts(cfg, s, e.id)))
      && (e.enable ==>
            ((e.id in s'.inbound && Some(s'.inbound[e.id]) == AccountOf(e)) <==>
             if Evicts(cfg, s, e.id) then Readds(cfg, s, e) else Some(s.inbound[e.id]) == AccountOf(e)))
  {
    ChangeReachesBackendIffEvicts(cfg, s, e);
  }

  /** The backend knows the user under this account, and the pool does not take it for running. */
  predicate Frozen<K>(s: State<K>, id: int, account: Account) {
    id in s.users && !s.users[id].running && id in s.inbound && s.inbound[id] == account
  }

  /** The user list names the user, whatever it asks for; and nobody logs in under its name, which only hysteria
      does. */
  predicate KeepsListing(i: Input, id: int) {
    && (i.Configs? ==> exists e :: e in i.resp && e.id == id)
    && (i.LoggedIn? ==> i.id != id)
  }

  lemma UpsertKeepsFrozen<K>(cfg: Config<K>, s: State<K>, e: User, id: int, account: Account)
    requires cfg.hooks.Xray? && Frozen(s, id, account)
    ensures Frozen(Upsert(cfg, s, e).0, id, account)
  {
    if e.id == id {
      if !s.users[id].Equal(e) { ChangeReachesBackendIffEvicts(cfg, s, e); }
    } else {
      UpsertAccounts(cfg, s, e, id);
      UpsertConfigures(cfg, s, e, id);
    }
  }

  lemma {:induction false} UpsertAllKeepsFrozen<K>(
    cfg: Config<K>, s: State<K>, resp: seq<User>, id: int, account: Account)
    requires cfg.hooks.Xray? && Frozen(s, id, account)
    ensures Frozen(UpsertAll(cfg, s, resp).0, id, account)
    decreases |resp|
  {
    if resp != [] {
      UpsertKeepsFrozen(cfg, s, resp[0], id, account);
      var (s1, ok) := Upsert(cfg, s, resp[0]);
      if ok { UpsertAllKeepsFrozen(cfg, s1, resp[1..], id, account); }
    }
  }

  lemma {:induction false} DropAllKeepsFrozen<K>(
    cfg: Config<K>, s: State<K>, order: seq<int>, keep: set<int>, id: int, account: Account)
    requires cfg.hooks.Xray? && Frozen(s, id, account) && id in keep
    requires Distinct(order) && forall other :: other in order ==> other in s.users
    ensures Frozen(DropAll(cfg, s, order, keep).0, id, account)
    decreases |order|
  {
    if order != [] {
      assert order[0] in order;
      DropAccounts(cfg, s, order[0], keep, id);
      RemoveHookFrame(cfg, s, order[0]);
      DropTakesOne(cfg, s, order[0], keep);
      var (s1, ok) := Drop(cfg, s, order[0], keep);
      assert Frozen(s1, id, account);
      if ok { DropAllKeepsFrozen(cfg, s1, order[1..], keep, id, account); }
    }
  }

  /** Traffic touches neither the flag nor the account of a user of the pool. */
  lemma {:induction false} FetchKeepsFrozen<K>(
    cfg: Config<K>, s: State<K>, records: seq<Record>, id: int, account: Account)
    requires cfg.hooks.Xray? && Frozen(s, id, account)
    ensures Frozen(Fetch(cfg, s, records).0, id, account)
    decreases |records|
  {
    if records != [] && records[0].Record? {
      FetchKeepsFrozen(cfg, FetchOne(cfg, s, records[0]), records[1..], id, account);
    }
  }

  lemma {:induction false} ReportKeepsFrozen<K>(
    s: State<K>, data: seq<Usage>, order: seq<int>, id: int, account: Account)
    requires Frozen(s, id, account) && forall other :: other in order ==> other in s.users
    ensures Frozen(ReportAll(s, data, order).0, id, account)
    decreases |order|
  {
    if order != [] {
      assert order[0] in order;
      var (s1, data1) := ReportOne(s, data, order[0]);
      ReportKeepsFrozen(s1, data1, order[1..], id, account);
    }
  }

  lemma StepKeepsFrozen<K>(cfg: Config<K>, s: State<K>, i: Input, id: int, account: Account)
    requires cfg.hooks.Xray? && Frozen(s, id, account) && FairOrder(cfg, s, i) && KeepsListing(i, id)
    ensures Frozen(Step(cfg, s, i), id, account)
  {
    match i
    case Configs(resp, order) =>
      UpsertAllKeepsFrozen(cfg, s, resp, id, account);
      var (s1, ok) := UpsertAll(cfg, s, resp);
      assert id in Ids(resp);
      if ok { DropAllKeepsFrozen(cfg, s1, order, Ids(resp), id, account); }
    case Traffic(fetch, order, _, _) =>
      if fetch.Some? {
        FetchKeepsFrozen(cfg, s, fetch.value, id, account);
        FetchFrame(cfg, s, fetch.value);
        var (s1, ok) := Fetch(cfg, s, fetch.value);
        if ok { ReportKeepsFrozen(s1, [], order, id, account); }
      }
    case _ =>
  }

  /** What follows over whole runs, with any replies: once the flag of a user the backend knows is unset, the backend
      keeps the user and the very account it has for as long as the user is listed, whatever the lists ask for. */
  lemma {:induction false} UnmarkedAccountIsFrozen<K>(
    cfg: Config<K>, s: State<K>, inputs: seq<Input>, s': State<K>, id: int, account: Account)
    requires cfg.hooks.Xray? && Frozen(s, id, account) && Run(cfg, s, inputs, s')
    requires forall i :: i in inputs ==> KeepsListing(i, id)
    ensures Frozen(s', id, account)
    decreases |inputs|
  {
    if inputs != [] {
      assert inputs[0] in inputs;
      StepKeepsFrozen(cfg, s, inputs[0], id, account);
      UnmarkedAccountIsFrozen(cfg, Step(cfg, s, inputs[0]), inputs[1..], s', id, account);
    }
  }

  /** The update hook marks the response's user as running and not the pool's, so after a change whose removal was
      acknowledged the next one does not get through: here it disables the user, who is not evicted. */
  lemma SecondChangeIsLost<K>(cfg: Config<K>)
    requires cfg.hooks.Xray? && (forall op, n: nat :: cfg.replies(op, n) == Done)
    ensures
      var s1 := Upsert(cfg, Empty(), Trojan("a", true)).0;
      var s2 := Upsert(cfg, s1, Trojan("b", true)).0;
      var s3 := Upsert(cfg, s2, Trojan("b", false)).0;
      !s3.users[1].enable && 1 in s3.inbound
  {
  }

  /** If the acknowledgement of the first removal is lost, the flag stays set and the second change does get through. */
  lemma LostAcknowledgementLetsChangeThrough<K>(cfg: Config<K>)
    requires cfg.hooks.Xray? && cfg.replies(AddOp, 0) == Done && cfg.replies(RemoveOp, 1) == Lost
    requires cfg.replies(AddOp, 2) == Done && cfg.replies(RemoveOp, 3) == Done
    ensures
      var s1 := Upsert(cfg, Empty(), Trojan("a", true)).0;
      var s2 := Upsert(cfg, s1, Trojan("b", true)).0;
      var s3 := Upsert(cfg, s2, Trojan("b", false)).0;
      s2.users[1].running && 1 in s2.inbound && 1 !in s3.inbound
  {
    var s1 := Upsert(cfg, Empty(), Trojan("a", true)).0;
    var s2 := Upsert(cfg, s1, Trojan("b", true)).0;
    assert s1.users[1].running && |s1.calls| == 1 && 1 in s1.inbound;
    assert s2.users[1].running && |s2.calls| == 3 && 1 in s2.inbound;
    ChangeReachesBackendIffEvicts(cfg, s2, Trojan("b", false));
  }

  function Shadowsocks(cipher: string): User {
    User(1, cipher, "p", 0, true, "ss", 0, 0, false)
  }

  /** The same with a change of the cipher alone: the backend keeps serving the one before last. */
  lemma SecondCipherIsLost<K>(cfg: Config<K>)
    requires cfg.hooks.Xray? && (forall op, n: nat :: cfg.replies(op, n) == Done)
    ensures
      var s1 := Upsert(cfg, Empty(), Shadowsocks("aes-128-gcm")).0;
      var s2 := Upsert(cfg, s1, Shadowsocks("aes-256-gcm")).0;
      var s3 := Upsert(cfg, s2, Shadowsocks("chacha20-ietf-poly1305")).0;
      s3.users[1].cipher == "chacha20-ietf-poly1305" && s3.inbound == map[1 := ShadowsocksAccount(0, Aes256Gcm, "p")]
  {
  }
}
