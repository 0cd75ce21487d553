/** The user synchronisation of tunnel/common/pool.go as functions on values,
    together with the hooks the three tunnels install (tunnel/xray/user.go,
    tunnel/hysteria/user.go, tunnel/anytls/user.go).

    `UserPool.dfy` holds the imperative pool, proved against these functions. */
module Pool {
  import opened Common

  /** tunnel/common/user.go. Counters are naturals: no overflow, no negative byte counts. */
  datatype User = User(
    id: int, cipher: string, password: string, level: int, enable: bool, protocol: string,
    upload: nat, download: nat, running: bool)
  {
    /** The comparison that decides whether a user changed. */
    predicate Equal(e: User) {
      cipher == e.cipher && enable == e.enable && password == e.password
    }

    function Updated(e: User): User {
      this.(cipher := e.cipher, enable := e.enable, password := e.password)
    }

    function Traffic(): nat {
      upload + download
    }
  }

  /** Which hooks the pool was built with. Anytls installs none. */
  datatype Hooks = Anytls | Hysteria | Xray

  /** A backend call is carried out and acknowledged, carried out with the
      acknowledgement lost, or not carried out. */
  datatype Reply = Done | Lost | Failed

  datatype Op = AddOp | RemoveOp

  /** A backend call about one user and how it ended; an add for a user the backend already has is refused. */
  datatype Call = AddCall(id: int, reply: Reply) | AddRefused(id: int) | RemoveCall(id: int, reply: Reply)

  /** An account as tunnel/xray/user.go:75-87 builds it: only shadowsocks looks at the cipher. */
  datatype Account =
    | TrojanAccount(level: int, password: string)
    | ShadowsocksAccount(level: int, cipher: Cipher, password: string)

  datatype Cipher = Aes128Gcm | Aes256Gcm | Chacha20Poly1305 | Unknown

  /** mappingCipher, tunnel/xray/services.go:18-28. */
  function MappingCipher(s: string): Cipher {
    if s == "aes-128-gcm" then Aes128Gcm
    else if s == "aes-256-gcm" then Aes256Gcm
    else if s == "chacha20-ietf-poly1305" then Chacha20Poly1305
    else Unknown
  }

  /** ToXrayUser; None: there is no account for the protocol, and xray refuses a user without one. */
  function AccountOf(u: User): Option<Account> {
    var level := u.level % 0x1_0000_0000;
    if u.protocol == "trojan" then Some(TrojanAccount(level, u.password))
    else if u.protocol == "ss" then Some(ShadowsocksAccount(level, MappingCipher(u.cipher), u.password))
    else None
  }

  /** What stays fixed over a run: the password key (absent for xray), the hooks, and the backend's answer to its
      n-th call. */
  datatype Config<!K> = Config(key: Option<string -> K>, hooks: Hooks, replies: (Op, nat) -> Reply)

  /** Hook invocations, in order. A hook that is not installed counts as one that returns nil. */
  datatype Event = Added(id: int, ok: bool) | Updated(id: int) | Removed(id: int, ok: bool)

  /** Where traffic went: attributed to users of the pool, overwritten in a counter by a later
      fetch, sent to the control plane, put in a request that was not delivered, lost with removed users. */
  datatype Ledger = Ledger(attributed: nat, overwritten: nat, posted: nat, dropped: nat, lost: nat)

  /** users and index are the pool's; inbound is the backend's user list with its accounts; calls, trace and ledger
      record what happened. */
  datatype State<K> = State(
    users: map<int, User>, index: map<K, int>, inbound: map<int, Account>,
    calls: seq<Call>, trace: seq<Event>, ledger: Ledger)

  function Empty<K>(): State<K> {
    State(map[], map[], map[], [], [], Ledger(0, 0, 0, 0, 0))
  }

  // ----- the pool's own operations ----------------------------------------

  function NewUser(e: User): User {
    e.(upload := 0, download := 0, running := false)
  }

  /** CreateUser, lines 75-91. */
  function Create<K>(cfg: Config<K>, s: State<K>, e: User): State<K> {
    s.(users := s.users[e.id := NewUser(e)],
       index := if cfg.key.Some? then s.index[cfg.key.value(e.password) := e.id] else s.index)
  }

  /** UpdateFromServer on the pool's user, line 186. */
  function WriteFields<K>(s: State<K>, e: User): State<K>
    requires e.id in s.users
  {
    s.(users := s.users[e.id := s.users[e.id].Updated(e)])
  }

  /** The re-index block, lines 187-192. */
  function Reindex<K>(cfg: Config<K>, s: State<K>, id: int, oldPass: string): State<K>
    requires id in s.users
  {
    if cfg.key.Some? && oldPass != s.users[id].password then
      s.(index := (s.index - {cfg.key.value(oldPass)})[cfg.key.value(s.users[id].password) := id])
    else s
  }

  /** RemoveUser, lines 111-122. */
  function Remove<K>(cfg: Config<K>, s: State<K>, id: int): State<K> {
    if id !in s.users then s
    else
      s.(users := s.users - {id},
         index := if cfg.key.Some? then s.index - {cfg.key.value(s.users[id].password)} else s.index,
         ledger := s.ledger.(lost := s.ledger.lost + s.users[id].Traffic()))
  }

  /** GetUserByKey, lines 100-109. */
  function Lookup<K>(s: State<K>, k: K): Option<User> {
    if k in s.index && s.index[k] in s.users then Some(s.users[s.index[k]]) else None
  }

  // ----- hooks ------------------------------------------------------------

  function SetRunning<K>(s: State<K>, id: int, v: bool): State<K> {
    if id in s.users then s.(users := s.users[id := s.users[id].(running := v)]) else s
  }

  /** The backend's answer to its next call. */
  function NextReply<K>(cfg: Config<K>, s: State<K>, op: Op): Reply {
    cfg.replies(op, |s.calls|)
  }

  /** The backend's part of AddInboundUser, tunnel/xray/services.go:31-40. */
  function AddInbound<K>(cfg: Config<K>, s: State<K>, u: User): (State<K>, bool) {
    if u.id in s.inbound then (s.(calls := s.calls + [AddRefused(u.id)]), false)
    else
      var reply := if AccountOf(u).Some? then NextReply(cfg, s, AddOp) else Failed;
      var s1 := s.(calls := s.calls + [AddCall(u.id, reply)]);
      if reply == Failed then (s1, false)
      else (s1.(inbound := s.inbound[u.id := AccountOf(u).value]), reply == Done)
  }

  /** The backend's part of RemoveInboundUser, tunnel/xray/services.go:47-64; "not found" counts as success. */
  function RemoveInbound<K>(cfg: Config<K>, s: State<K>, id: int): (State<K>, bool) {
    var reply := NextReply(cfg, s, RemoveOp);
    var s1 := s.(calls := s.calls + [RemoveCall(id, reply)]);
    if reply == Failed then (s1, false) else (s1.(inbound := s.inbound - {id}), reply == Done)
  }

  /** kickUser, tunnel/hysteria/user.go:140-170. */
  function Kick<K>(cfg: Config<K>, s: State<K>, id: int): (State<K>, bool) {
    (s.(calls := s.calls + [RemoveCall(id, NextReply(cfg, s, RemoveOp))]), NextReply(cfg, s, RemoveOp) == Done)
  }

  function OnAdd<K>(cfg: Config<K>, s: State<K>, id: int): (State<K>, bool)
    requires id in s.users
  {
    var (s1, ok) := if cfg.hooks.Xray? then AddInbound(cfg, s, s.users[id]) else (s, true);
    var s2 := if cfg.hooks.Xray? && ok then SetRunning(s1, id, true) else s1;
    (s2.(trace := s.trace + [Added(id, ok)]), ok)
  }

  /** The xray hook's part: it marks the response's user, not the pool's, after adding it back (line 58). */
  function Replace<K>(cfg: Config<K>, s: State<K>, e: User): State<K>
    requires e.id in s.users
  {
    var s1 :=
      if s.users[e.id].running then
        var (r, ok) := RemoveInbound(cfg, s, e.id);
        if ok then SetRunning(r, e.id, false) else r
      else s;
    if e.enable then AddInbound(cfg, s1, e).0 else s1
  }

  function OnUpdate<K>(cfg: Config<K>, s: State<K>, e: User): State<K>
    requires e.id in s.users
  {
    var s1 := s.(trace := s.trace + [Updated(e.id)]);
    match cfg.hooks
    case Anytls => s1
    case Hysteria => if s.users[e.id].running then SetRunning(Kick(cfg, s1, e.id).0, e.id, false) else s1
    case Xray => Replace(cfg, s1, e)
  }

  function OnRemove<K>(cfg: Config<K>, s: State<K>, id: int): (State<K>, bool) {
    var (s1, ok) :=
      match cfg.hooks
      case Anytls => (s, true)
      case Hysteria => Kick(cfg, s, id)
      case Xray =>
        var (r, ok) := RemoveInbound(cfg, s, id);
        (if ok then SetRunning(r, id, false) else r, ok);
    (s1.(trace := s.trace + [Removed(id, ok)]), ok)
  }

  /** All a hook does to the pool: it may flip the running flag of its own user. */
  ghost predicate HookFrame<K>(s: State<K>, s': State<K>, id: int) {
    && s'.index == s.index && s'.ledger == s.ledger && s'.users.Keys == s.users.Keys
    && (forall i :: i in s.users && i != id ==> s'.users[i] == s.users[i])
    && (id in s.users ==> s'.users[id] == s.users[id].(running := s'.users[id].running))
  }

  lemma AddHookFrame<K>(cfg: Config<K>, s: State<K>, id: int)
    requires id in s.users
    ensures HookFrame(s, OnAdd(cfg, s, id).0, id)
    ensures OnAdd(cfg, s, id).0.trace == s.trace + [Added(id, OnAdd(cfg, s, id).1)]
  {
  }

  lemma RemoveHookFrame<K>(cfg: Config<K>, s: State<K>, id: int)
    ensures HookFrame(s, OnRemove(cfg, s, id).0, id)
    ensures OnRemove(cfg, s, id).0.trace == s.trace + [Removed(id, OnRemove(cfg, s, id).1)]
  {
  }

  lemma UpdateHookFrame<K>(cfg: Config<K>, s: State<K>, e: User)
    requires e.id in s.users
    ensures HookFrame(s, OnUpdate(cfg, s, e), e.id)
    ensures OnUpdate(cfg, s, e).trace == s.trace + [Updated(e.id)]
  {
    match cfg.hooks
    case Anytls =>
    case Hysteria =>
    case Xray =>
      var s1 := s.(trace := s.trace + [Updated(e.id)]);
      var (r, ok) := RemoveInbound(cfg, s1, e.id);
      var s2 := if s.users[e.id].running then if ok then SetRunning(r, e.id, false) else r else s1;
      assert HookFrame(s, s2, e.id) && s2.trace == s1.trace;
      AddInboundFrame(cfg, s2, e);
  }

  lemma AddInboundFrame<K>(cfg: Config<K>, s: State<K>, u: User)
    ensures
      var s' := AddInbound(cfg, s, u).0;
      s'.users == s.users && s'.index == s.index && s'.ledger == s.ledger && s'.trace == s.trace
  {
  }

  // ----- one synchronisation ----------------------------------------------

  /** What the update branch does before its hook runs, lines 185-192. */
  function Rewrite<K>(cfg: Config<K>, s: State<K>, e: User): State<K>
    requires e.id in s.users
  {
    Reindex(cfg, WriteFields(s, e), e.id, s.users[e.id].password)
  }

  /** One turn of the loop over the response, lines 174-197. */
  function Upsert<K>(cfg: Config<K>, s: State<K>, e: User): (State<K>, bool) {
    if e.id !in s.users then OnAdd(cfg, Create(cfg, s, e), e.id)
    else if !s.users[e.id].Equal(e) then
      (OnUpdate(cfg, Rewrite(cfg, s, e), e), true)
    else (s, true)
  }

  function UpsertAll<K>(cfg: Config<K>, s: State<K>, resp: seq<User>): (State<K>, bool)
    decreases |resp|
  {
    if resp == [] then (s, true)
    else
      var (s1, ok) := Upsert(cfg, s, resp[0]);
      if ok then UpsertAll(cfg, s1, resp[1..]) else (s1, false)
  }

  /** One turn of the loop over GetAllUsers, lines 199-207. */
  function Drop<K>(cfg: Config<K>, s: State<K>, id: int, keep: set<int>): (State<K>, bool) {
    if id in keep then (s, true)
    else
      var (s1, ok) := OnRemove(cfg, s, id);
      if ok then (Remove(cfg, s1, id), true) else (s1, false)
  }

  function DropAll<K>(cfg: Config<K>, s: State<K>, order: seq<int>, keep: set<int>): (State<K>, bool)
    decreases |order|
  {
    if order == [] then (s, true)
    else
      var (s1, ok) := Drop(cfg, s, order[0], keep);
      if ok then DropAll(cfg, s1, order[1..], keep) else (s1, false)
  }

  function Ids(resp: seq<User>): set<int> {
    set e | e in resp :: e.id
  }

  lemma IdsSnoc(resp: seq<User>, i: nat)
    requires i < |resp|
    ensures Ids(resp[..i + 1]) == Ids(resp[..i]) + {resp[i].id}
  {
    assert resp[..i + 1] == resp[..i] + [resp[i]];
  }

  /** syncUserConfigsFromServer, lines 168-210; `order` is the order GetAllUsers happened to return. */
  function Sync<K>(cfg: Config<K>, s: State<K>, resp: seq<User>, order: seq<int>): (State<K>, bool) {
    var (s1, ok) := UpsertAll(cfg, s, resp);
    if ok then DropAll(cfg, s1, order, Ids(resp)) else (s1, false)
  }

  /** GetAllUsers lists every user once. */
  ghost predicate Enumerates<K>(s: State<K>, order: seq<int>) {
    Distinct(order) && forall id :: id in order <==> id in s.users
  }

  predicate Distinct(order: seq<int>) {
    forall i, j :: 0 <= i < j < |order| ==> order[i] != order[j]
  }

  /** There always is such an order. */
  lemma SomeOrder(ids: set<int>) returns (order: seq<int>)
    ensures Distinct(order) && forall id :: id in order <==> id in ids
    decreases ids
  {
    if id :| id in ids {
      var rest := SomeOrder(ids - {id});
      order := rest + [id];
    } else {
      order := [];
    }
  }

  // ----- traffic ----------------------------------------------------------

  /** A decoded statistics entry: the counters it sets, or an id that does not parse. */
  datatype Record = Record(id: int, up: Option<nat>, down: Option<nat>) | Bad

  function Amount(v: Option<nat>): nat {
    if v.Some? then v.value else 0
  }

  /** The counters are overwritten, not added to (tunnel/hysteria/user.go:90-91, tunnel/xray/user.go:119-121). */
  function Credit<K>(s: State<K>, r: Record): State<K>
    requires r.Record? && r.id in s.users
  {
    var u := s.users[r.id];
    s.(users := s.users[r.id := u.(
         upload := if r.up.Some? then r.up.value else u.upload,
         download := if r.down.Some? then r.down.value else u.download)],
       ledger := s.ledger.(
         attributed := s.ledger.attributed + Amount(r.up) + Amount(r.down),
         overwritten := s.ledger.overwritten
           + (if r.up.Some? then u.upload else 0) + (if r.down.Some? then u.download else 0)))
  }

  /** The fetch loops; a user unknown to the pool is kicked from the backend, whose error is ignored. */
  function Fetch<K>(cfg: Config<K>, s: State<K>, records: seq<Record>): (State<K>, bool)
    decreases |records|
  {
    if records == [] then (s, true)
    else if records[0].Bad? then (s, false)
    else Fetch(cfg, FetchOne(cfg, s, records[0]), records[1..])
  }

  function FetchOne<K>(cfg: Config<K>, s: State<K>, r: Record): State<K>
    requires r.Record?
  {
    if r.id in s.users then Credit(s, r)
    else
      match cfg.hooks
      case Xray => RemoveInbound(cfg, s, r.id).0
      case Hysteria => Kick(cfg, s, r.id).0
      case Anytls => s
  }

  /** GenTraffic: what a request says about one user. */
  datatype Usage = Usage(id: int, upload: nat, download: nat)

  /** GetTotalTraffic, tunnel/common/user.go:34-40. */
  function Total(data: seq<Usage>): nat {
    if data == [] then 0 else Total(data[..|data| - 1]) + data[|data| - 1].upload + data[|data| - 1].download
  }

  /** One turn of the reporting loop, tunnel/common/pool.go:142-149. */
  function ReportOne<K>(s: State<K>, data: seq<Usage>, id: int): (State<K>, seq<Usage>)
    requires id in s.users
  {
    var u := s.users[id];
    if u.Traffic() > 0 then
      (s.(users := s.users[id := u.(upload := 0, download := 0)]), data + [Usage(u.id, u.upload, u.download)])
    else (s, data)
  }

  function ReportAll<K>(s: State<K>, data: seq<Usage>, order: seq<int>): (State<K>, seq<Usage>)
    requires forall id :: id in order ==> id in s.users
    decreases |order|
  {
    if order == [] then (s, data)
    else
      assert order[0] in order;
      var (s1, data1) := ReportOne(s, data, order[0]);
      ReportAll(s1, data1, order[1..])
  }

  /** The request is posted, unless the bandwidth call or the post itself fails (lines 152-163). */
  function Send<K>(s: State<K>, data: seq<Usage>, bandwidthOk: bool, postOk: bool): State<K> {
    if bandwidthOk && postOk then s.(ledger := s.ledger.(posted := s.ledger.posted + Total(data)))
    else s.(ledger := s.ledger.(dropped := s.ledger.dropped + Total(data)))
  }

  /** The FetchTraffic hook, which anytls does not install. */
  function FetchTraffic<K>(cfg: Config<K>, s: State<K>, fetch: Option<seq<Record>>): (State<K>, bool) {
    if cfg.hooks.Anytls? then (s, true)
    else if fetch.None? then (s, false)
    else Fetch(cfg, s, fetch.value)
  }

  /** syncTrafficToServer, lines 134-166; fetch is None when the statistics call itself fails. */
  function SyncTraffic<K>(
    cfg: Config<K>, s: State<K>, fetch: Option<seq<Record>>, order: seq<int>, bandwidthOk: bool, postOk: bool)
    : (State<K>, bool)
    requires forall id :: id in order ==> id in s.users
  {
    FetchKeepsUsers(cfg, s, if fetch.Some? then fetch.value else []);
    var (s1, ok) := FetchTraffic(cfg, s, fetch);
    if !ok then (s1, false)
    else
      var (s2, data) := ReportAll(s1, [], order);
      (Send(s2, data, bandwidthOk, postOk), bandwidthOk && postOk)
  }

  lemma FetchKeepsUsers<K>(cfg: Config<K>, s: State<K>, records: seq<Record>)
    ensures Fetch(cfg, s, records).0.users.Keys == s.users.Keys
    decreases |records|
  {
    if records != [] && records[0].Record? {
      assert FetchOne(cfg, s, records[0]).users.Keys == s.users.Keys;
      FetchKeepsUsers(cfg, FetchOne(cfg, s, records[0]), records[1..]);
    }
  }

  /** An anytls connection adds to its user's counters (tunnel/anytls/counting_conn.go:22-32). */
  function Count<K>(s: State<K>, id: int, up: nat, down: nat): State<K> {
    if id !in s.users then s
    else
      var u := s.users[id];
      s.(users := s.users[id := u.(upload := u.upload + up, download := u.download + down)],
         ledger := s.ledger.(attributed := s.ledger.attributed + up + down))
  }

  // ----- runs -------------------------------------------------------------

  /** What the environment feeds the pool, with the iteration orders GetAllUsers happened to choose. */
  datatype Input =
    | Configs(resp: seq<User>, order: seq<int>)
    | Traffic(fetch: Option<seq<Record>>, order: seq<int>, bandwidthOk: bool, postOk: bool)
    | Bytes(id: int, up: nat, down: nat)
    | LoggedIn(id: int) // hysteria's auth handler, tunnel/hysteria/services.go:52-54

  /** The order is one that GetAllUsers can return. */
  ghost predicate FairOrder<K>(cfg: Config<K>, s: State<K>, i: Input) {
    match i
    case Configs(resp, order) => Enumerates(UpsertAll(cfg, s, resp).0, order)
    case Traffic(_, order, _, _) => Enumerates(s, order)
    case _ => true
  }

  ghost function Step<K>(cfg: Config<K>, s: State<K>, i: Input): State<K>
    requires FairOrder(cfg, s, i)
  {
    match i
    case Configs(resp, order) => Sync(cfg, s, resp, order).0
    case Traffic(fetch, order, bandwidthOk, postOk) => SyncTraffic(cfg, s, fetch, order, bandwidthOk, postOk).0
    case Bytes(id, up, down) => Count(s, id, up, down)
    case LoggedIn(id) => SetRunning(s, id, true)
  }

  /** s' follows from s by the inputs, each cycle completed or aborted anywhere. */
  ghost predicate Run<K>(cfg: Config<K>, s: State<K>, inputs: seq<Input>, s': State<K>)
    decreases |inputs|
  {
    if inputs == [] then s == s'
    else FairOrder(cfg, s, inputs[0]) && Run(cfg, Step(cfg, s, inputs[0]), inputs[1..], s')
  }

  /** The call behind the input returns nil. */
  ghost predicate Succeeds<K>(cfg: Config<K>, s: State<K>, i: Input)
    requires FairOrder(cfg, s, i)
  {
    match i
    case Configs(resp, order) => Sync(cfg, s, resp, order).1
    case Traffic(fetch, order, bandwidthOk, postOk) => SyncTraffic(cfg, s, fetch, order, bandwidthOk, postOk).1
    case _ => true
  }

  ghost predicate AllSucceed<K>(cfg: Config<K>, s: State<K>, inputs: seq<Input>)
    decreases |inputs|
  {
    inputs == [] || (
      && FairOrder(cfg, s, inputs[0]) && Succeeds(cfg, s, inputs[0])
      && AllSucceed(cfg, Step(cfg, s, inputs[0]), inputs[1..]))
  }

  /** Runs follow one another, and the whole succeeds if and only if both parts do. */
  lemma {:induction false} RunConcat<K>(
    cfg: Config<K>, s: State<K>, first: seq<Input>, s1: State<K>, second: seq<Input>, s2: State<K>)
    requires Run(cfg, s, first, s1) && Run(cfg, s1, second, s2)
    ensures Run(cfg, s, first + second, s2)
    decreases |first|
  {
    if first == [] {
      assert first + second == second;
    } else {
      RunConcat(cfg, Step(cfg, s, first[0]), first[1..], s1, second, s2);
      assert (first + second)[1..] == first[1..] + second;
    }
  }

  lemma {:induction false} SucceedConcat<K>(
    cfg: Config<K>, s: State<K>, first: seq<Input>, s1: State<K>, second: seq<Input>)
    requires Run(cfg, s, first, s1)
    ensures AllSucceed(cfg, s, first + second) <==> AllSucceed(cfg, s, first) && AllSucceed(cfg, s1, second)
    decreases |first|
  {
    if first == [] {
      assert first + second == second;
    } else {
      SucceedConcat(cfg, Step(cfg, s, first[0]), first[1..], s1, second);
      assert (first + second)[1..] == first[1..] + second;
    }
  }

  // ----- an induction principle -------------------------------------------

  /** p survives every turn of both configuration loops and every other admitted input. */
  ghost predicate Inductive<K(!new)>(cfg: Config<K>, p: State<K> -> bool, admitted: Input -> bool) {
    && (forall s, e :: p(s) ==> p(Upsert(cfg, s, e).0))
    && (forall s, id, keep :: p(s) && id in s.users ==> p(Drop(cfg, s, id, keep).0))
    && (forall s, i: Input :: p(s) && !i.Configs? && admitted(i) && FairOrder(cfg, s, i) ==> p(Step(cfg, s, i)))
  }

  lemma SyncKeeps<K(!new)>(
    cfg: Config<K>, p: State<K> -> bool, admitted: Input -> bool, s: State<K>, resp: seq<User>, order: seq<int>)
    requires Inductive(cfg, p, admitted) && p(s) && FairOrder(cfg, s, Configs(resp, order))
    ensures p(Sync(cfg, s, resp, order).0)
  {
    UpsertAllKeeps(cfg, p, admitted, s, resp);
    var (s1, ok) := UpsertAll(cfg, s, resp);
    if ok { DropAllKeeps(cfg, p, admitted, s1, order, Ids(resp)); }
  }

  lemma {:induction false} UpsertAllKeeps<K(!new)>(
    cfg: Config<K>, p: State<K> -> bool, admitted: Input -> bool, s: State<K>, resp: seq<User>)
    requires Inductive(cfg, p, admitted) && p(s)
    ensures p(UpsertAll(cfg, s, resp).0)
    decreases |resp|
  {
    if resp != [] {
      var (s1, ok) := Upsert(cfg, s, resp[0]);
      assert p(s1);
      if ok { UpsertAllKeeps(cfg, p, admitted, s1, resp[1..]); }
    }
  }

  /** Dropping one user leaves the others in the pool. */
  lemma DropTakesOne<K>(cfg: Config<K>, s: State<K>, id: int, keep: set<int>)
    ensures Drop(cfg, s, id, keep).0.users.Keys ==
            if id !in keep && Drop(cfg, s, id, keep).1 then s.users.Keys - {id} else s.users.Keys
  {
  }

  lemma {:induction false} DropAllKeeps<K(!new)>(
    cfg: Config<K>, p: State<K> -> bool, admitted: Input -> bool, s: State<K>, order: seq<int>, keep: set<int>)
    requires Inductive(cfg, p, admitted) && p(s)
    requires Distinct(order) && forall id :: id in order ==> id in s.users
    ensures p(DropAll(cfg, s, order, keep).0)
    decreases |order|
  {
    if order != [] {
      assert order[0] in order;
      var (s1, ok) := Drop(cfg, s, order[0], keep);
      assert p(s1);
      DropTakesOne(cfg, s, order[0], keep);
      if ok { DropAllKeeps(cfg, p, admitted, s1, order[1..], keep); }
    }
  }

  /** An inductive property holds throughout every run over admitted inputs. */
  lemma {:induction false} RunKeeps<K(!new)>(
    cfg: Config<K>, p: State<K> -> bool, admitted: Input -> bool, s: State<K>, inputs: seq<Input>, s': State<K>)
    requires Inductive(cfg, p, admitted) && p(s) && Run(cfg, s, inputs, s')
    requires forall i :: i in inputs ==> admitted(i)
    ensures p(s')
    decreases |inputs|
  {
    if inputs != [] {
      assert inputs[0] in inputs;
      if inputs[0].Configs? {
        SyncKeeps(cfg, p, admitted, s, inputs[0].resp, inputs[0].order);
      }
      RunKeeps(cfg, p, admitted, Step(cfg, s, inputs[0]), inputs[1..], s');
    }
  }

  // ----- what traffic leaves alone ----------------------------------------

  /** Everything but counters, running flags, the backend and the ledger is as before. */
  ghost predicate TrafficFrame<K>(s: State<K>, s': State<K>) {
    && s'.index == s.index && s'.trace == s.trace && s'.users.Keys == s.users.Keys
    && forall id :: id in s.users ==>
         var u := s'.users[id];
         var v := s.users[id];
         v == u.(upload := v.upload, download := v.download, running := v.running)
  }

  lemma {:induction false} FetchFrame<K>(cfg: Config<K>, s: State<K>, records: seq<Record>)
    ensures TrafficFrame(s, Fetch(cfg, s, records).0)
    decreases |records|
  {
    if records != [] && records[0].Record? {
      assert TrafficFrame(s, FetchOne(cfg, s, records[0]));
      FetchFrame(cfg, FetchOne(cfg, s, records[0]), records[1..]);
    }
  }

  lemma {:induction false} ReportFrame<K>(s: State<K>, data: seq<Usage>, order: seq<int>)
    requires forall id :: id in order ==> id in s.users
    ensures TrafficFrame(s, ReportAll(s, data, order).0)
    decreases |order|
  {
    if order != [] {
      assert order[0] in order;
      var (s1, data1) := ReportOne(s, data, order[0]);
      ReportFrame(s1, data1, order[1..]);
    }
  }

  lemma StepFrame<K>(cfg: Config<K>, s: State<K>, i: Input)
    requires !i.Configs? && FairOrder(cfg, s, i)
    ensures TrafficFrame(s, Step(cfg, s, i))
  {
    if i.Traffic? {
      FetchTrafficFrame(cfg, s, i.fetch);
      var (s1, ok) := FetchTraffic(cfg, s, i.fetch);
      if ok {
        ReportFrame(s1, [], i.order);
        TrafficFrameTransitive(s, s1, ReportAll(s1, [], i.order).0);
      }
    }
  }

  lemma FetchTrafficFrame<K>(cfg: Config<K>, s: State<K>, fetch: Option<seq<Record>>)
    ensures TrafficFrame(s, FetchTraffic(cfg, s, fetch).0)
  {
    if fetch.Some? { FetchFrame(cfg, s, fetch.value); }
  }

  lemma TrafficFrameTransitive<K>(s: State<K>, s1: State<K>, s2: State<K>)
    requires TrafficFrame(s, s1) && TrafficFrame(s1, s2)
    ensures TrafficFrame(s, s2)
  {
  }
}
