/** The password index `userpass` of tunnel/common/pool.go: which entries it may
    hold after any synchronisation, and exactly when it stays complete. */
module PoolIndex {
  import opened Common
  import opened Pool

  // ----- soundness --------------------------------------------------------

  /** Users sit under their own id. */
  predicate IdsMatch<K>(s: State<K>) {
    forall id :: id in s.users ==> s.users[id].id == id
  }

  /** Every entry leads to a user whose password has that key. */
  ghost predicate IndexSound<K(!new)>(cfg: Config<K>, s: State<K>) {
    && IdsMatch(s)
    && (forall k :: k in s.index ==>
          && cfg.key.Some? && s.index[k] in s.users
          && cfg.key.value(s.users[s.index[k]].password) == k)
  }

  lemma RewriteKeepsSound<K(!new)>(cfg: Config<K>, s: State<K>, e: User)
    requires IndexSound(cfg, s) && e.id in s.users
    ensures IndexSound(cfg, Rewrite(cfg, s, e))
  {
  }

  lemma HookKeepsSound<K(!new)>(cfg: Config<K>, s: State<K>, s': State<K>, hooked: int)
    requires IndexSound(cfg, s) && HookFrame(s, s', hooked)
    ensures IndexSound(cfg, s')
  {
    forall k | k in s'.index
      ensures cfg.key.Some? && s'.index[k] in s'.users && cfg.key.value(s'.users[s'.index[k]].password) == k
    {
      var id := s.index[k];
      assert s'.users[id].password == s.users[id].password;
    }
  }

  lemma FrameKeepsSound<K(!new)>(cfg: Config<K>, s: State<K>, s': State<K>)
    requires IndexSound(cfg, s) && TrafficFrame(s, s')
    ensures IndexSound(cfg, s')
  {
    forall k | k in s'.index
      ensures cfg.key.Some? && s'.index[k] in s'.users && cfg.key.value(s'.users[s'.index[k]].password) == k
    {
      var id := s.index[k];
      assert s'.users[id].password == s.users[id].password;
    }
  }

  lemma UpsertKeepsSound<K(!new)>(cfg: Config<K>, s: State<K>, e: User)
    requires IndexSound(cfg, s)
    ensures IndexSound(cfg, Upsert(cfg, s, e).0)
  {
    if e.id !in s.users {
      AddHookFrame(cfg, Create(cfg, s, e), e.id);
      HookKeepsSound(cfg, Create(cfg, s, e), Upsert(cfg, s, e).0, e.id);
    } else if !s.users[e.id].Equal(e) {
      RewriteKeepsSound(cfg, s, e);
      UpdateHookFrame(cfg, Rewrite(cfg, s, e), e);
      HookKeepsSound(cfg, Rewrite(cfg, s, e), Upsert(cfg, s, e).0, e.id);
    }
  }

  lemma DropKeepsSound<K(!new)>(cfg: Config<K>, s: State<K>, id: int, keep: set<int>)
    requires IndexSound(cfg, s) && id in s.users
    ensures IndexSound(cfg, Drop(cfg, s, id, keep).0)
  {
  }

  /** Index soundness at every point of every run, aborted synchronisations included, with no assumption on password
      reuse. */
  lemma IndexAlwaysSound<K(!new)>(cfg: Config<K>, inputs: seq<Input>, s: State<K>)
    requires Run(cfg, Empty(), inputs, s)
    ensures IndexSound(cfg, s)
  {
    var p := (s: State<K>) => IndexSound(cfg, s);
    forall s, e | p(s) ensures p(Upsert(cfg, s, e).0) { UpsertKeepsSound(cfg, s, e); }
    forall s, id, keep | p(s) && id in s.users ensures p(Drop(cfg, s, id, keep).0) { DropKeepsSound(cfg, s, id, keep); }
    forall s, i: Input | p(s) && !i.Configs? && FairOrder(cfg, s, i) ensures p(Step(cfg, s, i)) {
      StepFrame(cfg, s, i);
      FrameKeepsSound(cfg, s, Step(cfg, s, i));
    }
    RunKeeps(cfg, p, i => true, Empty(), inputs, s);
  }

  /** So a lookup never returns a user whose password has another key. */
  lemma LookupFindsOwner<K(!new)>(cfg: Config<K>, inputs: seq<Input>, s: State<K>, k: K)
    requires Run(cfg, Empty(), inputs, s)
    ensures Lookup(s, k).Some? <==> k in s.index
    ensures Lookup(s, k).Some? ==>
      var u := Lookup(s, k).value;
      u.id in s.users && s.users[u.id] == u && cfg.key.Some? && cfg.key.value(u.password) == k
  {
    IndexAlwaysSound(cfg, inputs, s);
    assert k in s.index ==> s.users[s.index[k]].id == s.index[k];
  }

  // ----- exactness --------------------------------------------------------

  /** The index is {key(u.password) -> u.id} for exactly the pool's users. */
  ghost predicate IndexExact<K(!new)>(cfg: Config<K>, s: State<K>) {
    && IndexSound(cfg, s)
    && forall id :: id in s.users ==> Found(cfg, s, id)
  }

  predicate Found<K>(cfg: Config<K>, s: State<K>, id: int)
    requires id in s.users
  {
    && cfg.key.Some?
    && cfg.key.value(s.users[id].password) in s.index
    && s.index[cfg.key.value(s.users[id].password)] == id
  }

  /** Exactness spelled out: the index holds k -> id if and only if user id is in the pool with a password of key k. */
  lemma ExactIsInverse<K(!new)>(cfg: Config<K>, s: State<K>)
    requires cfg.key.Some? && IdsMatch(s)
    ensures IndexExact(cfg, s) <==>
      forall k, id :: (k in s.index && s.index[k] == id) <==>
        (id in s.users && cfg.key.value(s.users[id].password) == k)
  {
    if IndexExact(cfg, s) {
      assert forall id :: id in s.users ==> Found(cfg, s, id);
    }
    if forall k, id :: (k in s.index && s.index[k] == id) <==>
      (id in s.users && cfg.key.value(s.users[id].password) == k) {
      assert IndexSound(cfg, s);
      assert forall id :: id in s.users ==> Found(cfg, s, id);
    }
  }

  /** What a caller can check beforehand: whenever an entry's turn comes, no other
      user in the pool still has a password with the same key. */
  ghost predicate NoKeyTaken<K>(cfg: Config<K>, users: map<int, User>, resp: seq<User>)
    requires cfg.key.Some?
    decreases |resp|
  {
    resp == [] || (
      && !Taken(cfg, users, resp[0])
      && NoKeyTaken(cfg, Put(users, resp[0]), resp[1..]))
  }

  ghost predicate Taken<K>(cfg: Config<K>, users: map<int, User>, e: User)
    requires cfg.key.Some?
  {
    exists id :: id in users && id != e.id && cfg.key.value(users[id].password) == cfg.key.value(e.password)
  }

  /** The same condition without the running pool, for distinct ids: the response's keys are distinct, and a key
      that another user holds before the synchronisation may be given away only after that user's own entry. */
  ghost predicate KeysHandedOver<K>(cfg: Config<K>, users: map<int, User>, resp: seq<User>)
    requires cfg.key.Some?
  {
    && (forall i, j :: 0 <= i < j < |resp| ==> cfg.key.value(resp[i].password) != cfg.key.value(resp[j].password))
    && (forall i, id | 0 <= i < |resp| && id in users && id != resp[i].id ::
          cfg.key.value(users[id].password) == cfg.key.value(resp[i].password) ==> ListedBefore(resp, i, id))
  }

  predicate ListedBefore(resp: seq<User>, i: nat, id: int)
    requires i <= |resp|
  {
    exists j :: 0 <= j < i && resp[j].id == id
  }

  lemma {:induction false} NoKeyTakenMeans<K>(cfg: Config<K>, users: map<int, User>, resp: seq<User>)
    requires cfg.key.Some? && DistinctIds(resp)
    ensures NoKeyTaken(cfg, users, resp) <==> KeysHandedOver(cfg, users, resp)
    decreases |resp|
  {
    if resp != [] {
      var rest := resp[1..];
      NoKeyTakenMeans(cfg, Put(users, resp[0]), rest);
      if KeysHandedOver(cfg, users, resp) { HandedOverTail(cfg, users, resp); }
      if !Taken(cfg, users, resp[0]) && KeysHandedOver(cfg, Put(users, resp[0]), rest) {
        HandedOverCons(cfg, users, resp);
      }
    }
  }

  lemma HandedOverTail<K>(cfg: Config<K>, users: map<int, User>, resp: seq<User>)
    requires cfg.key.Some? && resp != [] && KeysHandedOver(cfg, users, resp)
    ensures !Taken(cfg, users, resp[0]) && KeysHandedOver(cfg, Put(users, resp[0]), resp[1..])
  {
  }

  lemma HandedOverCons<K>(cfg: Config<K>, users: map<int, User>, resp: seq<User>)
    requires cfg.key.Some? && resp != [] && DistinctIds(resp)
    requires !Taken(cfg, users, resp[0]) && KeysHandedOver(cfg, Put(users, resp[0]), resp[1..])
    ensures KeysHandedOver(cfg, users, resp)
  {
    var u, rest := Put(users, resp[0]), resp[1..];
    assert forall k :: 0 <= k < |rest| ==> rest[k] == resp[k + 1];
    forall i, j | 0 <= i < j < |resp| ensures cfg.key.value(resp[i].password) != cfg.key.value(resp[j].password) {
      if i == 0 {
        var id := resp[0].id;
        assert !ListedBefore(rest, j - 1, id);
        assert id in u && u[id].password == resp[0].password && id != rest[j - 1].id;
      }
    }
    forall i, id | 0 <= i < |resp| && id in users && id != resp[i].id
      && cfg.key.value(users[id].password) == cfg.key.value(resp[i].password) ensures ListedBefore(resp, i, id)
    {
      if id == resp[0].id {
        assert resp[0].id == id;
      } else if i > 0 {
        assert ListedBefore(rest, i - 1, id);
        var j :| 0 <= j < i - 1 && rest[j].id == id;
        assert resp[j + 1].id == id;
      }
    }
  }

  /** The pool's passwords after an entry has been applied. */
  function Put(users: map<int, User>, e: User): map<int, User> {
    users[e.id := if e.id in users then users[e.id].Updated(e) else NewUser(e)]
  }

  /** Whether keys are taken depends on ids and passwords alone. */
  ghost predicate SamePasswords(users: map<int, User>, users': map<int, User>) {
    users.Keys == users'.Keys && forall id :: id in users ==> users[id].password == users'[id].password
  }

  lemma {:induction false} NoKeyTakenByPasswords<K>(
    cfg: Config<K>, users: map<int, User>, users': map<int, User>, resp: seq<User>)
    requires cfg.key.Some? && SamePasswords(users, users')
    ensures NoKeyTaken(cfg, users, resp) <==> NoKeyTaken(cfg, users', resp)
    decreases |resp|
  {
    if resp != [] {
      assert Taken(cfg, users, resp[0]) <==> Taken(cfg, users', resp[0]);
      NoKeyTakenByPasswords(cfg, Put(users, resp[0]), Put(users', resp[0]), resp[1..]);
    }
  }

  lemma UpsertPuts<K>(cfg: Config<K>, s: State<K>, e: User)
    ensures SamePasswords(Upsert(cfg, s, e).0.users, Put(s.users, e))
  {
    if e.id !in s.users {
      AddHookFrame(cfg, Create(cfg, s, e), e.id);
    } else if !s.users[e.id].Equal(e) {
      UpdateHookFrame(cfg, Rewrite(cfg, s, e), e);
    }
  }

  lemma UpsertKeepsExact<K(!new)>(cfg: Config<K>, s: State<K>, e: User)
    requires cfg.key.Some? && IndexExact(cfg, s) && !Taken(cfg, s.users, e)
    ensures IndexExact(cfg, Upsert(cfg, s, e).0)
  {
    UpsertKeepsSound(cfg, s, e);
    var key := cfg.key.value;
    if e.id !in s.users {
      var s1 := Create(cfg, s, e);
      assert forall id :: id in s1.users ==> Found(cfg, s1, id);
      AddHookFrame(cfg, s1, e.id);
    } else if !s.users[e.id].Equal(e) {
      var s1 := Rewrite(cfg, s, e);
      forall id | id in s1.users ensures Found(cfg, s1, id) {
        assert Found(cfg, s, id) && Found(cfg, s, e.id);
      }
      UpdateHookFrame(cfg, s1, e);
    }
  }

  lemma DropKeepsExact<K(!new)>(cfg: Config<K>, s: State<K>, id: int, keep: set<int>)
    requires IndexExact(cfg, s) && id in s.users
    ensures IndexExact(cfg, Drop(cfg, s, id, keep).0)
  {
    DropKeepsSound(cfg, s, id, keep);
    var s1 := OnRemove(cfg, s, id).0;
    RemoveHookFrame(cfg, s, id);
    var s2 := Drop(cfg, s, id, keep).0;
    forall i | i in s2.users ensures Found(cfg, s2, i) {
      assert Found(cfg, s, i) && Found(cfg, s, id);
    }
  }

  lemma {:induction false} UpsertAllKeepsExact<K(!new)>(cfg: Config<K>, s: State<K>, resp: seq<User>)
    requires cfg.key.Some? && IndexExact(cfg, s) && NoKeyTaken(cfg, s.users, resp)
    ensures IndexExact(cfg, UpsertAll(cfg, s, resp).0)
    decreases |resp|
  {
    if resp != [] {
      UpsertKeepsExact(cfg, s, resp[0]);
      UpsertPuts(cfg, s, resp[0]);
      var (s1, ok) := Upsert(cfg, s, resp[0]);
      NoKeyTakenByPasswords(cfg, s1.users, Put(s.users, resp[0]), resp[1..]);
      if ok { UpsertAllKeepsExact(cfg, s1, resp[1..]); }
    }
  }

  lemma {:induction false} DropAllKeepsExact<K(!new)>(cfg: Config<K>, s: State<K>, order: seq<int>, keep: set<int>)
    requires IndexExact(cfg, s) && Distinct(order) && forall id :: id in order ==> id in s.users
    ensures IndexExact(cfg, DropAll(cfg, s, order, keep).0)
    decreases |order|
  {
    if order != [] {
      assert order[0] in order;
      DropKeepsExact(cfg, s, order[0], keep);
      DropTakesOne(cfg, s, order[0], keep);
      var (s1, ok) := Drop(cfg, s, order[0], keep);
      if ok { DropAllKeepsExact(cfg, s1, order[1..], keep); }
    }
  }

  // ----- and when it is lost ----------------------------------------------

  /** User a has lost its entry, or shares its key and so is about to. */
  ghost predicate Damaged<K>(cfg: Config<K>, s: State<K>, a: int) {
    && a in s.users
    && (!Found(cfg, s, a) || exists x :: x in s.users && Shares(cfg, s, a, x))
  }

  predicate Shares<K>(cfg: Config<K>, s: State<K>, a: int, x: int)
    requires a in s.users && x in s.users
  {
    x != a && cfg.key.Some? && cfg.key.value(s.users[x].password) == cfg.key.value(s.users[a].password)
  }

  lemma HookKeepsDamage<K>(cfg: Config<K>, s: State<K>, s': State<K>, hooked: int, a: int)
    requires Damaged(cfg, s, a) && HookFrame(s, s', hooked)
    ensures Damaged(cfg, s', a)
  {
  }

  lemma DamagedIsNotExact<K(!new)>(cfg: Config<K>, s: State<K>, a: int)
    requires Damaged(cfg, s, a)
    ensures !IndexExact(cfg, s)
  {
  }

  /** Nothing done to other users gives a its entry back. */
  lemma UpsertKeepsDamage<K>(cfg: Config<K>, s: State<K>, e: User, a: int)
    requires Damaged(cfg, s, a) && e.id != a
    ensures Damaged(cfg, Upsert(cfg, s, e).0, a)
  {
    if e.id !in s.users {
      var s1 := Create(cfg, s, e);
      assert forall x :: x in s.users && Shares(cfg, s, a, x) ==> Shares(cfg, s1, a, x);
      AddHookFrame(cfg, s1, e.id);
      HookKeepsDamage(cfg, s1, Upsert(cfg, s, e).0, e.id, a);
    } else if !s.users[e.id].Equal(e) {
      var s1 := Rewrite(cfg, s, e);
      assert forall x :: x in s.users && x != e.id && Shares(cfg, s, a, x) ==> Shares(cfg, s1, a, x);
      UpdateHookFrame(cfg, s1, e);
      HookKeepsDamage(cfg, s1, Upsert(cfg, s, e).0, e.id, a);
    }
  }

  lemma DropKeepsDamage<K>(cfg: Config<K>, s: State<K>, id: int, keep: set<int>, a: int)
    requires Damaged(cfg, s, a) && id in s.users && a in keep
    ensures Damaged(cfg, Drop(cfg, s, id, keep).0, a)
  {
    RemoveHookFrame(cfg, s, id);
    var (s1, ok) := OnRemove(cfg, s, id);
    HookKeepsDamage(cfg, s, s1, id, a);
    var s2 := Drop(cfg, s, id, keep).0;
    assert forall x :: x in s2.users && Shares(cfg, s1, a, x) ==> Shares(cfg, s2, a, x);
  }

  lemma {:induction false} UpsertAllKeepsDamage<K>(cfg: Config<K>, s: State<K>, resp: seq<User>, a: int)
    requires Damaged(cfg, s, a) && a !in Ids(resp)
    ensures Damaged(cfg, UpsertAll(cfg, s, resp).0, a)
    decreases |resp|
  {
    if resp != [] {
      assert resp[0] in resp;
      UpsertKeepsDamage(cfg, s, resp[0], a);
      var (s1, ok) := Upsert(cfg, s, resp[0]);
      if ok { UpsertAllKeepsDamage(cfg, s1, resp[1..], a); }
    }
  }

  lemma {:induction false} DropAllKeepsDamage<K>(cfg: Config<K>, s: State<K>, order: seq<int>, keep: set<int>, a: int)
    requires Damaged(cfg, s, a) && a in keep && Distinct(order) && forall id :: id in order ==> id in s.users
    ensures Damaged(cfg, DropAll(cfg, s, order, keep).0, a)
    decreases |order|
  {
    if order != [] {
      assert order[0] in order;
      DropKeepsDamage(cfg, s, order[0], keep, a);
      DropTakesOne(cfg, s, order[0], keep);
      var (s1, ok) := Drop(cfg, s, order[0], keep);
      if ok { DropAllKeepsDamage(cfg, s1, order[1..], keep, a); }
    }
  }

  predicate DistinctIds(resp: seq<User>) {
    forall i, j :: 0 <= i < j < |resp| ==> resp[i].id != resp[j].id
  }

  /** With distinct ids, a taken key damages the user that took it for good. */
  lemma {:induction false} TakenKeyDamages<K(!new)>(cfg: Config<K>, s: State<K>, resp: seq<User>) returns (a: int)
    requires cfg.key.Some? && DistinctIds(resp) && !NoKeyTaken(cfg, s.users, resp) && UpsertAll(cfg, s, resp).1
    ensures a in Ids(resp) && Damaged(cfg, UpsertAll(cfg, s, resp).0, a)
    decreases |resp|
  {
    assert resp != [];
    assert resp[0] in resp;
    var e := resp[0];
    var s1 := Upsert(cfg, s, e).0;
    UpsertPuts(cfg, s, e);
    if Taken(cfg, s.users, e) {
      a := e.id;
      var x :| x in s.users && x != e.id && cfg.key.value(s.users[x].password) == cfg.key.value(e.password);
      assert Shares(cfg, s1, a, x);
      assert Damaged(cfg, s1, a);
      UpsertAllKeepsDamage(cfg, s1, resp[1..], a);
    } else {
      NoKeyTakenByPasswords(cfg, s1.users, Put(s.users, e), resp[1..]);
      a := TakenKeyDamages(cfg, s1, resp[1..]);
      assert Ids(resp[1..]) <= Ids(resp);
    }
  }

  /** Index exactness, sufficient for every response: if no entry takes a key another user
      still has, every synchronisation, aborted ones included, keeps the index exact. */
  lemma NoKeyTakenKeepsExact<K(!new)>(cfg: Config<K>, s: State<K>, resp: seq<User>, order: seq<int>)
    requires cfg.key.Some? && IndexExact(cfg, s) && FairOrder(cfg, s, Configs(resp, order))
    requires NoKeyTaken(cfg, s.users, resp)
    ensures IndexExact(cfg, Sync(cfg, s, resp, order).0)
  {
    UpsertAllKeepsExact(cfg, s, resp);
    var (s1, ok) := UpsertAll(cfg, s, resp);
    if ok { DropAllKeepsExact(cfg, s1, order, Ids(resp)); }
  }

  /** At no point of the run does an entry take a key. */
  ghost predicate NeverTaken<K>(cfg: Config<K>, s: State<K>, inputs: seq<Input>)
    requires cfg.key.Some?
    decreases |inputs|
  {
    inputs == [] || (
      && FairOrder(cfg, s, inputs[0])
      && (inputs[0].Configs? ==> NoKeyTaken(cfg, s.users, inputs[0].resp))
      && NeverTaken(cfg, Step(cfg, s, inputs[0]), inputs[1..]))
  }

  lemma FrameKeepsExact<K(!new)>(cfg: Config<K>, s: State<K>, s': State<K>)
    requires IndexExact(cfg, s) && TrafficFrame(s, s')
    ensures IndexExact(cfg, s')
  {
    FrameKeepsSound(cfg, s, s');
    forall id | id in s'.users ensures Found(cfg, s', id) {
      assert Found(cfg, s, id) && s'.users[id].password == s.users[id].password;
    }
  }

  /** So the index of a pool that starts exact, as the empty one is, stays exact throughout such a run. */
  lemma {:induction false} NeverTakenKeepsExact<K(!new)>(
    cfg: Config<K>, s: State<K>, inputs: seq<Input>, s': State<K>)
    requires cfg.key.Some? && IndexExact(cfg, s) && Run(cfg, s, inputs, s') && NeverTaken(cfg, s, inputs)
    ensures IndexExact(cfg, s')
    decreases |inputs|
  {
    if inputs != [] {
      if inputs[0].Configs? {
        NoKeyTakenKeepsExact(cfg, s, inputs[0].resp, inputs[0].order);
      } else {
        StepFrame(cfg, s, inputs[0]);
        FrameKeepsExact(cfg, s, Step(cfg, s, inputs[0]));
      }
      NeverTakenKeepsExact(cfg, Step(cfg, s, inputs[0]), inputs[1..], s');
    }
  }

  /** Index exactness, the exact condition: for a response with distinct ids, a successful
      synchronisation keeps an exact index exact if and only if no entry takes a key. */
  lemma ExactIffNoKeyTaken<K(!new)>(cfg: Config<K>, s: State<K>, resp: seq<User>, order: seq<int>)
    requires cfg.key.Some? && IndexExact(cfg, s) && FairOrder(cfg, s, Configs(resp, order))
    requires DistinctIds(resp) && Sync(cfg, s, resp, order).1
    ensures IndexExact(cfg, Sync(cfg, s, resp, order).0) <==> NoKeyTaken(cfg, s.users, resp)
  {
    if NoKeyTaken(cfg, s.users, resp) {
      NoKeyTakenKeepsExact(cfg, s, resp, order);
    } else {
      var a := TakenKeyDamages(cfg, s, resp);
      DropAllKeepsDamage(cfg, UpsertAll(cfg, s, resp).0, order, Ids(resp), a);
      DamagedIsNotExact(cfg, Sync(cfg, s, resp, order).0, a);
    }
  }

  // ----- a lost entry stays lost ------------------------------------------

  /** User a is in the pool with the configuration of u, and cannot be looked up. */
  ghost predicate Unreachable<K>(cfg: Config<K>, s: State<K>, a: int, u: User) {
    a in s.users && s.users[a].Equal(u) && !Found(cfg, s, a)
  }

  lemma UpsertKeepsUnreachable<K>(cfg: Config<K>, s: State<K>, e: User, a: int, u: User)
    requires Unreachable(cfg, s, a, u) && (e.id == a ==> u.Equal(e))
    ensures Unreachable(cfg, Upsert(cfg, s, e).0, a, u)
  {
    if e.id !in s.users {
      AddHookFrame(cfg, Create(cfg, s, e), e.id);
    } else if !s.users[e.id].Equal(e) {
      UpdateHookFrame(cfg, Rewrite(cfg, s, e), e);
    }
  }

  lemma {:induction false} UpsertAllKeepsUnreachable<K>(cfg: Config<K>, s: State<K>, resp: seq<User>, a: int, u: User)
    requires Unreachable(cfg, s, a, u) && forall e :: e in resp && e.id == a ==> u.Equal(e)
    ensures Unreachable(cfg, UpsertAll(cfg, s, resp).0, a, u)
    decreases |resp|
  {
    if resp != [] {
      assert resp[0] in resp;
      UpsertKeepsUnreachable(cfg, s, resp[0], a, u);
      var (s1, ok) := Upsert(cfg, s, resp[0]);
      if ok { UpsertAllKeepsUnreachable(cfg, s1, resp[1..], a, u); }
    }
  }

  lemma {:induction false} DropAllKeepsUnreachable<K>(
    cfg: Config<K>, s: State<K>, order: seq<int>, keep: set<int>, a: int, u: User)
    requires Unreachable(cfg, s, a, u) && a in keep && Distinct(order) && forall id :: id in order ==> id in s.users
    ensures Unreachable(cfg, DropAll(cfg, s, order, keep).0, a, u)
    decreases |order|
  {
    if order != [] {
      assert order[0] in order;
      RemoveHookFrame(cfg, s, order[0]);
      DropTakesOne(cfg, s, order[0], keep);
      var (s1, ok) := Drop(cfg, s, order[0], keep);
      if ok { DropAllKeepsUnreachable(cfg, s1, order[1..], keep, a, u); }
    }
  }

  lemma SyncKeepsUnreachable<K>(cfg: Config<K>, s: State<K>, resp: seq<User>, order: seq<int>, a: int, u: User)
    requires Unreachable(cfg, s, a, u) && FairOrder(cfg, s, Configs(resp, order))
    requires a in Ids(resp) && forall e :: e in resp && e.id == a ==> u.Equal(e)
    ensures Unreachable(cfg, Sync(cfg, s, resp, order).0, a, u)
  {
    UpsertAllKeepsUnreachable(cfg, s, resp, a, u);
    var (s1, ok) := UpsertAll(cfg, s, resp);
    if ok { DropAllKeepsUnreachable(cfg, s1, order, Ids(resp), a, u); }
  }

  /** Nothing repairs the index: a user that lost its entry cannot be looked up throughout
      every run in which the control plane keeps listing it unchanged. */
  lemma {:induction false} LostEntryIsNotRepaired<K>(
    cfg: Config<K>, s: State<K>, inputs: seq<Input>, s': State<K>, a: int, u: User)
    requires Unreachable(cfg, s, a, u) && Run(cfg, s, inputs, s')
    requires forall i :: i in inputs && i.Configs? ==>
      a in Ids(i.resp) && forall e :: e in i.resp && e.id == a ==> u.Equal(e)
    ensures Unreachable(cfg, s', a, u)
    decreases |inputs|
  {
    if inputs != [] {
      assert inputs[0] in inputs;
      if inputs[0].Configs? {
        SyncKeepsUnreachable(cfg, s, inputs[0].resp, inputs[0].order, a, u);
      } else {
        StepFrame(cfg, s, inputs[0]);
      }
      LostEntryIsNotRepaired(cfg, Step(cfg, s, inputs[0]), inputs[1..], s', a, u);
    }
  }

  function Plain(id: int, password: string): User {
    User(id, "", password, 0, true, "", 0, 0, false)
  }

  /** The two families, on the hysteria key: a password handed from a removed user to a new one ... */
  lemma HandedOverPasswordIsLost(replies: (Op, nat) -> Reply)
    requires replies(RemoveOp, 0) == Done
    ensures
      var cfg := Config(Some((p: string) => p), Hysteria, replies);
      var s := Create(cfg, Empty(), Plain(1, "a"));
      var (s', ok) := Sync(cfg, s, [Plain(2, "a")], [1, 2]);
      IndexExact(cfg, s) && ok && 2 in s'.users && Lookup(s', "a") == None
  {
  }

  /** ... and two users who swap passwords. */
  lemma SwappedPasswordIsLost(replies: (Op, nat) -> Reply)
    ensures
      var cfg := Config(Some((p: string) => p), Hysteria, replies);
      var s := Create(cfg, Create(cfg, Empty(), Plain(1, "a")), Plain(2, "b"));
      var (s', ok) := Sync(cfg, s, [Plain(1, "b"), Plain(2, "a")], [1, 2]);
      IndexExact(cfg, s) && ok && 1 in s'.users && Lookup(s', "b") == None
  {
  }
}
