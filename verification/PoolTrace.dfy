/** The order in which hooks fire, and what a synchronisation converges to. */
module PoolTrace {
  import opened Pool

  // ----- the hook language ------------------------------------------------

  datatype Phase = Closed | Open | Broken

  /** Recognises prefixes of (Added (Updated | failed Removed)* successful Removed)* in the events of one user. */
  function Bracket(trace: seq<Event>, id: int): Phase {
    if trace == [] then Closed
    else
      var last := trace[|trace| - 1];
      var before := Bracket(trace[..|trace| - 1], id);
      if last.id != id then before
      else
        match last
        case Added(_, _) => if before == Closed then Open else Broken
        case Updated(_) => if before == Open then Open else Broken
        case Removed(_, ok) => if before == Open then (if ok then Closed else Open) else Broken
  }

  lemma BracketSnoc(trace: seq<Event>, e: Event, id: int)
    ensures
      var before := Bracket(trace, id);
      Bracket(trace + [e], id) ==
        if e.id != id then before
        else
          match e
          case Added(_, _) => if before == Closed then Open else Broken
          case Updated(_) => if before == Open then Open else Broken
          case Removed(_, ok) => if before == Open then (if ok then Closed else Open) else Broken
  {
  }

  /** A user's bracket is open exactly while the user is in the pool. */
  ghost predicate TraceMatchesPool<K>(s: State<K>) {
    forall id :: Bracket(s.trace, id) == (if id in s.users then Open else Closed)
  }

  lemma UpsertKeepsTrace<K>(cfg: Config<K>, s: State<K>, e: User)
    requires TraceMatchesPool(s)
    ensures TraceMatchesPool(Upsert(cfg, s, e).0)
  {
    var s' := Upsert(cfg, s, e).0;
    UpsertSpeaks(cfg, s, e);
    forall id ensures Bracket(s'.trace, id) == (if id in s'.users then Open else Closed) {
      if s'.trace != s.trace { BracketSnoc(s.trace, s'.trace[|s.trace|], id); }
    }
  }

  lemma DropKeepsTrace<K>(cfg: Config<K>, s: State<K>, gone: int, keep: set<int>)
    requires TraceMatchesPool(s) && gone in s.users
    ensures TraceMatchesPool(Drop(cfg, s, gone, keep).0)
  {
    var s' := Drop(cfg, s, gone, keep).0;
    RemoveHookFrame(cfg, s, gone);
    forall id ensures Bracket(s'.trace, id) == (if id in s'.users then Open else Closed) {
      BracketSnoc(s.trace, Removed(gone, OnRemove(cfg, s, gone).1), id);
    }
  }

  /** Hook trace language: over any run of synchronisations, with arbitrary responses and
      backend failures, no user's events leave the language and the bracket is open
      exactly for the users in the pool. */
  lemma HookTracesAreBracketed<K(!new)>(cfg: Config<K>, inputs: seq<Input>, s: State<K>, id: int)
    requires Run(cfg, Empty(), inputs, s)
    ensures Bracket(s.trace, id) == if id in s.users then Open else Closed
  {
    var p := (s: State<K>) => TraceMatchesPool(s);
    forall s, e | p(s) ensures p(Upsert(cfg, s, e).0) { UpsertKeepsTrace(cfg, s, e); }
    forall s, id, keep | p(s) && id in s.users ensures p(Drop(cfg, s, id, keep).0) { DropKeepsTrace(cfg, s, id, keep); }
    forall s, i: Input | p(s) && !i.Configs? && FairOrder(cfg, s, i) ensures p(Step(cfg, s, i)) {
      StepFrame(cfg, s, i);
    }
    RunKeeps(cfg, p, i => true, Empty(), inputs, s);
  }

  /** The pool's user has the cipher, the password and the Enable of the list entry. */
  predicate Agrees(u: User, e: User) {
    u.cipher == e.cipher && u.password == e.password && u.enable == e.enable
  }

  /** The event an upsert fires, and whom it adds. */
  lemma UpsertSpeaks<K>(cfg: Config<K>, s: State<K>, e: User)
    ensures
      var (s', ok) := Upsert(cfg, s, e);
      && s'.users.Keys == s.users.Keys + {e.id}
      && (e.id !in s.users ==> s'.trace == s.trace + [Added(e.id, ok)])
      && (e.id in s.users && !Agrees(s.users[e.id], e) ==> s'.trace == s.trace + [Updated(e.id)] && ok)
      && (e.id in s.users && Agrees(s.users[e.id], e) ==> s' == s && ok)
  {
    if e.id !in s.users {
      AddHookFrame(cfg, Create(cfg, s, e), e.id);
    } else if !Agrees(s.users[e.id], e) {
      UpdateHookFrame(cfg, Rewrite(cfg, s, e), e);
    }
  }

  /** Since `before`, whoever left the pool left by its own OnUserRemove. */
  ghost predicate LeftByHook<K>(before: State<K>, s: State<K>) {
    && before.trace <= s.trace
    && forall id :: id in before.users && id !in s.users ==> Unhooked(before, s, id)
  }

  ghost predicate Unhooked<K>(before: State<K>, s: State<K>, id: int) {
    exists k :: |before.trace| <= k < |s.trace| && s.trace[k] == Removed(id, true)
  }

  lemma DropKeepsLeftByHook<K>(cfg: Config<K>, before: State<K>, s: State<K>, gone: int, keep: set<int>)
    requires LeftByHook(before, s) && gone in s.users
    ensures LeftByHook(before, Drop(cfg, s, gone, keep).0)
  {
    var s' := Drop(cfg, s, gone, keep).0;
    RemoveHookFrame(cfg, s, gone);
    forall id | id in before.users && id !in s'.users ensures Unhooked(before, s', id) {
      if id !in s.users {
        var k :| |before.trace| <= k < |s.trace| && s.trace[k] == Removed(id, true);
        assert s'.trace[k] == Removed(id, true);
      } else {
        assert s'.trace[|s.trace|] == Removed(id, true);
      }
    }
  }

  lemma UpsertKeepsLeftByHook<K>(cfg: Config<K>, before: State<K>, s: State<K>, e: User)
    requires LeftByHook(before, s)
    ensures LeftByHook(before, Upsert(cfg, s, e).0)
  {
    var s' := Upsert(cfg, s, e).0;
    UpsertSpeaks(cfg, s, e);
    forall id | id in before.users && id !in s'.users ensures Unhooked(before, s', id) {
      var k :| |before.trace| <= k < |s.trace| && s.trace[k] == Removed(id, true);
      assert s'.trace[k] == Removed(id, true);
    }
  }

  /** Over any run, aborted cycles included, a user that was in the pool and no longer is left it after
      its own OnUserRemove had returned nil. */
  lemma UsersLeaveByTheirHook<K(!new)>(cfg: Config<K>, s: State<K>, inputs: seq<Input>, s': State<K>, id: int)
    requires Run(cfg, s, inputs, s') && id in s.users && id !in s'.users
    ensures exists k :: |s.trace| <= k < |s'.trace| && s'.trace[k] == Removed(id, true)
  {
    var p := (t: State<K>) => LeftByHook(s, t);
    forall t, e | p(t) ensures p(Upsert(cfg, t, e).0) { UpsertKeepsLeftByHook(cfg, s, t, e); }
    forall t, gone, keep | p(t) && gone in t.users ensures p(Drop(cfg, t, gone, keep).0) {
      DropKeepsLeftByHook(cfg, s, t, gone, keep);
    }
    forall t, i: Input | p(t) && !i.Configs? && FairOrder(cfg, t, i) ensures p(Step(cfg, t, i)) {
      StepFrame(cfg, t, i);
    }
    RunKeeps(cfg, p, i => true, s, inputs, s');
    assert Unhooked(s, s', id);
  }

  // ----- convergence ------------------------------------------------------

  /** What an upsert does to one user's configuration. */
  lemma UpsertConfigures<K>(cfg: Config<K>, s: State<K>, e: User, id: int)
    requires id in s.users || id == e.id
    ensures
      var u := Upsert(cfg, s, e).0.users;
      && id in u
      && (id == e.id ==> Agrees(u[id], e))
      && (id != e.id ==> u[id] == s.users[id])
      && (id in s.users ==> u[id].level == s.users[id].level && u[id].protocol == s.users[id].protocol)
      && (id !in s.users ==> u[id].level == e.level && u[id].protocol == e.protocol)
  {
    if e.id !in s.users {
      AddHookFrame(cfg, Create(cfg, s, e), e.id);
    } else if !Agrees(s.users[e.id], e) {
      UpdateHookFrame(cfg, Rewrite(cfg, s, e), e);
    }
  }

  /** Position i holds the last (first) entry with its id. */
  predicate IsLast(resp: seq<User>, i: nat) {
    i < |resp| && forall j :: i < j < |resp| ==> resp[j].id != resp[i].id
  }

  predicate IsFirst(resp: seq<User>, i: nat) {
    i < |resp| && forall j :: 0 <= j < i ==> resp[j].id != resp[i].id
  }

  lemma {:induction false} UpsertAllSpares<K>(cfg: Config<K>, s: State<K>, resp: seq<User>, id: int)
    requires UpsertAll(cfg, s, resp).1 && id in s.users
    ensures
      var u := UpsertAll(cfg, s, resp).0.users;
      && id in u && u[id].level == s.users[id].level && u[id].protocol == s.users[id].protocol
      && ((forall j :: 0 <= j < |resp| ==> resp[j].id != id) ==> u[id] == s.users[id])
    decreases |resp|
  {
    if resp != [] {
      UpsertConfigures(cfg, s, resp[0], id);
      UpsertAllSpares(cfg, Upsert(cfg, s, resp[0]).0, resp[1..], id);
      assert forall j :: 0 <= j < |resp| - 1 ==> resp[1..][j] == resp[j + 1];
    }
  }

  lemma {:induction false} UpsertAllConfigures<K>(cfg: Config<K>, s: State<K>, resp: seq<User>, i: nat)
    requires UpsertAll(cfg, s, resp).1 && i < |resp|
    ensures
      var u := UpsertAll(cfg, s, resp).0.users;
      && resp[i].id in u
      && (IsLast(resp, i) ==> Agrees(u[resp[i].id], resp[i]))
      && (IsFirst(resp, i) && resp[i].id !in s.users ==>
            u[resp[i].id].level == resp[i].level && u[resp[i].id].protocol == resp[i].protocol)
    decreases |resp|
  {
    var s1 := Upsert(cfg, s, resp[0]).0;
    var rest := resp[1..];
    assert forall j :: 0 <= j < |rest| ==> rest[j] == resp[j + 1];
    if i == 0 {
      UpsertConfigures(cfg, s, resp[0], resp[0].id);
      UpsertAllSpares(cfg, s1, rest, resp[0].id);
    } else {
      UpsertAllConfigures(cfg, s1, rest, i - 1);
      UpsertSpeaks(cfg, s, resp[0]);
    }
  }

  lemma {:induction false} UpsertAllAdds<K>(cfg: Config<K>, s: State<K>, resp: seq<User>)
    requires UpsertAll(cfg, s, resp).1
    ensures UpsertAll(cfg, s, resp).0.users.Keys == s.users.Keys + Ids(resp)
    decreases |resp|
  {
    if resp != [] {
      UpsertSpeaks(cfg, s, resp[0]);
      UpsertAllAdds(cfg, Upsert(cfg, s, resp[0]).0, resp[1..]);
      assert resp == [resp[0]] + resp[1..];
      assert Ids(resp) == {resp[0].id} + Ids(resp[1..]);
    }
  }

  lemma DropSpares<K>(cfg: Config<K>, s: State<K>, gone: int, keep: set<int>)
    ensures var u := Drop(cfg, s, gone, keep).0.users;
      forall id :: id in u && id in s.users && id in keep ==> u[id] == s.users[id]
  {
    if gone !in keep { RemoveHookFrame(cfg, s, gone); }
  }

  /** The removal loop takes away exactly the users not to be kept, and leaves the others alone. */
  lemma {:induction false} DropAllRemoves<K>(cfg: Config<K>, s: State<K>, order: seq<int>, keep: set<int>)
    requires DropAll(cfg, s, order, keep).1 && Distinct(order) && forall id :: id in order ==> id in s.users
    ensures
      var u := DropAll(cfg, s, order, keep).0.users;
      && u.Keys == s.users.Keys - (set id | id in order && id !in keep)
      && forall id :: id in u && id in keep ==> u[id] == s.users[id]
    decreases |order|
  {
    if order != [] {
      assert order == [order[0]] + order[1..];
      DropTakesOne(cfg, s, order[0], keep);
      DropSpares(cfg, s, order[0], keep);
      var s1 := Drop(cfg, s, order[0], keep).0;
      DropAllRemoves(cfg, s1, order[1..], keep);
    }
  }

  /** What a successful synchronisation makes of the user of response entry i. */
  ghost predicate Configured<K>(s: State<K>, s': State<K>, resp: seq<User>, i: nat)
    requires i < |resp|
  {
    resp[i].id in s'.users &&
    var u := s'.users[resp[i].id];
    && (IsLast(resp, i) ==> Agrees(u, resp[i]))
    && (IsFirst(resp, i) && resp[i].id !in s.users ==> u.level == resp[i].level && u.protocol == resp[i].protocol)
    && (resp[i].id in s.users ==> u.level == s.users[resp[i].id].level && u.protocol == s.users[resp[i].id].protocol)
  }

  lemma UpsertAllConfigured<K>(cfg: Config<K>, s: State<K>, resp: seq<User>, i: nat)
    requires UpsertAll(cfg, s, resp).1 && i < |resp|
    ensures Configured(s, UpsertAll(cfg, s, resp).0, resp, i)
  {
    UpsertAllConfigures(cfg, s, resp, i);
    if resp[i].id in s.users { UpsertAllSpares(cfg, s, resp, resp[i].id); }
  }

  /** Convergence: after a successful synchronisation the pool holds exactly the response's ids, each configured by
      its last entry; level and protocol stay as the user was created, for a new user from its first entry. */
  lemma SyncConverges<K>(cfg: Config<K>, s: State<K>, resp: seq<User>, order: seq<int>)
    requires FairOrder(cfg, s, Configs(resp, order)) && Sync(cfg, s, resp, order).1
    ensures Sync(cfg, s, resp, order).0.users.Keys == Ids(resp)
    ensures forall i :: 0 <= i < |resp| ==> Configured(s, Sync(cfg, s, resp, order).0, resp, i)
  {
    var s1 := UpsertAll(cfg, s, resp).0;
    UpsertAllAdds(cfg, s, resp);
    DropAllRemoves(cfg, s1, order, Ids(resp));
    assert forall id :: id in s1.users ==> id in order;
    forall i | 0 <= i < |resp| ensures Configured(s, Sync(cfg, s, resp, order).0, resp, i) {
      assert resp[i] in resp;
      UpsertAllConfigured(cfg, s, resp, i);
    }
  }

  // ----- idempotence ------------------------------------------------------

  /** The pool already is what the response asks for. */
  ghost predicate Settled<K>(s: State<K>, resp: seq<User>) {
    s.users.Keys == Ids(resp) && forall e :: e in resp ==> e.id in s.users && Agrees(s.users[e.id], e)
  }

  /** Entries for one id agree. */
  ghost predicate Consistent(resp: seq<User>) {
    forall d, e :: d in resp && e in resp && d.id == e.id ==> Agrees(d, e)
  }

  lemma {:induction false} SettledUpserts<K>(cfg: Config<K>, s: State<K>, resp: seq<User>)
    requires forall e :: e in resp ==> e.id in s.users && Agrees(s.users[e.id], e)
    ensures UpsertAll(cfg, s, resp) == (s, true)
    decreases |resp|
  {
    if resp != [] {
      assert resp[0] in resp;
      SettledUpserts(cfg, s, resp[1..]);
    }
  }

  lemma {:induction false} SettledDrops<K>(cfg: Config<K>, s: State<K>, order: seq<int>, keep: set<int>)
    requires forall id :: id in order ==> id in keep
    ensures DropAll(cfg, s, order, keep) == (s, true)
    decreases |order|
  {
    if order != [] {
      assert order[0] in order;
      SettledDrops(cfg, s, order[1..], keep);
    }
  }

  lemma {:induction false} SilentUpserts<K>(cfg: Config<K>, s: State<K>, resp: seq<User>)
    ensures s.trace <= UpsertAll(cfg, s, resp).0.trace
    ensures UpsertAll(cfg, s, resp).0.trace == s.trace ==>
      UpsertAll(cfg, s, resp) == (s, true) && forall e :: e in resp ==> e.id in s.users && Agrees(s.users[e.id], e)
    decreases |resp|
  {
    if resp != [] {
      UpsertSpeaks(cfg, s, resp[0]);
      var (s1, ok) := Upsert(cfg, s, resp[0]);
      if ok { SilentUpserts(cfg, s1, resp[1..]); }
      assert resp == [resp[0]] + resp[1..];
    }
  }

  lemma {:induction false} SilentDrops<K>(cfg: Config<K>, s: State<K>, order: seq<int>, keep: set<int>)
    ensures s.trace <= DropAll(cfg, s, order, keep).0.trace
    ensures DropAll(cfg, s, order, keep).0.trace == s.trace ==> forall id :: id in order ==> id in keep
    decreases |order|
  {
    if order != [] {
      var (s1, ok) := Drop(cfg, s, order[0], keep);
      assert s.trace <= s1.trace && (s1.trace == s.trace ==> order[0] in keep && s1 == s);
      if ok { SilentDrops(cfg, s1, order[1..], keep); }
      assert order == [order[0]] + order[1..];
    }
  }

  /** A synchronisation fires no hook if and only if the pool is settled, and then it changes nothing and succeeds.
      Settled looks at configurations only, so traffic counted in between does not matter. */
  lemma SilentIffSettled<K>(cfg: Config<K>, s: State<K>, resp: seq<User>, order: seq<int>)
    requires FairOrder(cfg, s, Configs(resp, order))
    ensures Sync(cfg, s, resp, order).0.trace == s.trace <==> Settled(s, resp)
    ensures Settled(s, resp) ==> Sync(cfg, s, resp, order) == (s, true)
  {
    SilentUpserts(cfg, s, resp);
    var (s1, ok) := UpsertAll(cfg, s, resp);
    if Settled(s, resp) {
      SettledUpserts(cfg, s, resp);
      SettledDrops(cfg, s, order, Ids(resp));
    } else if ok {
      SilentDrops(cfg, s1, order, Ids(resp));
      assert forall id :: id in s1.users ==> id in order;
    }
  }

  /** Traffic in between leaves a settled pool settled, and an unsettled one unsettled. */
  lemma TrafficKeepsSettled<K>(s: State<K>, s': State<K>, resp: seq<User>)
    requires TrafficFrame(s, s')
    ensures Settled(s, resp) <==> Settled(s', resp)
  {
    forall e | e in resp && e.id in s.users ensures Agrees(s.users[e.id], e) <==> Agrees(s'.users[e.id], e) {
      assert s.users[e.id].password == s'.users[e.id].password;
    }
  }

  lemma SettledIffConsistent<K>(cfg: Config<K>, s: State<K>, resp: seq<User>, order: seq<int>)
    requires FairOrder(cfg, s, Configs(resp, order)) && Sync(cfg, s, resp, order).1
    ensures Settled(Sync(cfg, s, resp, order).0, resp) <==> Consistent(resp)
  {
    var s' := Sync(cfg, s, resp, order).0;
    SyncConverges(cfg, s, resp, order);
    if Consistent(resp) {
      forall e | e in resp ensures e.id in s'.users && Agrees(s'.users[e.id], e) {
        var i := LastEntry(resp, e);
        assert Configured(s, s', resp, i);
        assert resp[i] in resp && Agrees(e, resp[i]);
      }
    }
  }

  /** Idempotence: after a successful synchronisation and any traffic, a repeat with the same response fires no hook
      if and only if entries with the same id agree, and then it changes nothing and succeeds. Distinct ids are enough,
      so the repetition per tag in syncOnce is harmless. */
  lemma RepeatIsSilentIffConsistent<K>(
    cfg: Config<K>, s: State<K>, resp: seq<User>, order: seq<int>, later: State<K>, order': seq<int>)
    requires FairOrder(cfg, s, Configs(resp, order)) && Sync(cfg, s, resp, order).1
    requires TrafficFrame(Sync(cfg, s, resp, order).0, later) && FairOrder(cfg, later, Configs(resp, order'))
    ensures Sync(cfg, later, resp, order').0.trace == later.trace <==> Consistent(resp)
    ensures Consistent(resp) ==> Sync(cfg, later, resp, order') == (later, true)
  {
    SettledIffConsistent(cfg, s, resp, order);
    TrafficKeepsSettled(Sync(cfg, s, resp, order).0, later, resp);
    SilentIffSettled(cfg, later, resp, order');
  }

  lemma {:induction false} LastEntry(resp: seq<User>, e: User) returns (i: nat)
    requires e in resp
    ensures IsLast(resp, i) && resp[i].id == e.id
    decreases |resp|
  {
    if exists j :: 0 < j < |resp| && resp[j].id == e.id {
      var j :| 0 < j < |resp| && resp[j].id == e.id;
      assert resp[1..][j - 1] in resp[1..];
      var k := LastEntry(resp[1..], resp[j]);
      i := k + 1;
      assert forall l :: i < l < |resp| ==> resp[l] == resp[1..][l - 1];
    } else {
      i := 0;
    }
  }
}
