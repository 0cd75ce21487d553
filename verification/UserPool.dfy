/** The pool of tunnel/common/pool.go as it is written: user objects on the heap,
    two maps that the methods update in place, and loops over responses and users.
    Every method is proved to do what the function of module Pool of the same name says. */
module UserPool {
  import opened Common
  import P = Pool

  /** tunnel/common/user.go. Id, level and protocol are never written after creation. */
  class User {
    const id: int
    const level: int
    const protocol: string
    var cipher: string
    var password: string
    var enable: bool
    var upload: nat
    var download: nat
    var running: bool

    constructor (e: P.User)
      ensures Value() == P.NewUser(e)
    {
      id, level, protocol := e.id, e.level, e.protocol;
      cipher, password, enable := e.cipher, e.password, e.enable;
      upload, download, running := 0, 0, false;
    }

    function Value(): P.User
      reads this
    {
      P.User(id, cipher, password, level, enable, protocol, upload, download, running)
    }

    method UpdateFromServer(e: P.User)
      modifies this
      ensures Value() == old(Value()).Updated(e)
    {
      cipher := e.cipher;
      enable := e.enable;
      password := e.password;
    }

    method SetRunning(v: bool)
      modifies this`running
      ensures Value() == old(Value()).(running := v)
    {
      running := v;
    }

    method GenTraffic() returns (t: P.Usage)
      ensures t == P.Usage(id, upload, download)
    {
      t := P.Usage(id, upload, download);
    }

    method ResetTraffic()
      modifies this
      ensures Value() == old(Value()).(upload := 0, download := 0)
    {
      download := 0;
      upload := 0;
    }
  }

  /** An anytls stream wrapped for accounting (tunnel/anytls/counting_conn.go); n is what the stream's own call
      returned. */
  class CountingConn {
    const user: User

    constructor (user: User)
      ensures this.user == user
    {
      this.user := user;
    }

    /** What is read from the client counts as download, lines 22-26. */
    method Read(n: nat)
      modifies user`download
      ensures user.Value() == old(user.Value()).(download := old(user.download) + n)
    {
      user.download := user.download + n;
    }

    /** What is written to the client counts as upload, lines 28-32. */
    method Write(n: nat)
      modifies user`upload
      ensures user.Value() == old(user.Value()).(upload := old(user.upload) + n)
    {
      user.upload := user.upload + n;
    }
  }

  class UserPool<K(==)> {
    const cfg: P.Config<K>
    var users: map<int, User>
    var userpass: map<K, int>

    // The world behind the hooks, and what happened so far.
    var inbound: map<int, P.Account>
    var calls: seq<P.Call>
    ghost var trace: seq<P.Event>
    ghost var ledger: P.Ledger

    /** Every user object sits under its own id, so no two ids share an object. */
    ghost predicate Valid()
      reads this`users, users.Values
    {
      forall id :: id in users ==> users[id].id == id
    }

    ghost function Users(): map<int, P.User>
      reads this`users, users.Values
    {
      map id | id in users :: users[id].Value()
    }

    ghost function Value(): P.State<K>
      reads this, users.Values
    {
      P.State(Users(), userpass, inbound, calls, trace, ledger)
    }

    /** Writing to one user object changes that user and no other: ids do not share objects. */
    twostate lemma OneUserChanged(u: User)
      requires old(Valid()) && old(u.id in users && users[u.id] == u) && users == old(users)
      requires forall o: User :: o in old(users).Values && o != u ==> unchanged(o)
      ensures Users() == old(Users())[u.id := u.Value()]
    {
      forall id | id in users && id != u.id ensures users[id].Value() == old(users[id].Value()) {
        assert users[id] != u && users[id] in users.Values;
      }
    }

    constructor (cfg: P.Config<K>)
      ensures Valid() && Value() == P.Empty() && this.cfg == cfg && users == map[]
    {
      this.cfg := cfg;
      users, userpass, inbound, calls := map[], map[], map[], [];
      trace, ledger := [], P.Ledger(0, 0, 0, 0, 0);
    }

    method CreateUser(e: P.User) returns (u: User)
      requires Valid()
      modifies this`users, this`userpass
      ensures Valid() && Value() == P.Create(cfg, old(Value()), e)
      ensures fresh(u) && u.id == e.id && users == old(users)[e.id := u]
    {
      u := new User(e);
      users := users[e.id := u];
      if cfg.key.Some? {
        userpass := userpass[cfg.key.value(u.password) := u.id];
      }
    }

    method RemoveUser(id: int)
      requires Valid()
      modifies this`users, this`userpass, this`ledger
      ensures Valid() && Value() == P.Remove(cfg, old(Value()), id)
      ensures users == old(users) - {id}
    {
      if id !in users {
        assert users - {id} == users;
        return;
      }
      var user := users[id];
      users := users - {id};
      if cfg.key.Some? {
        userpass := userpass - {cfg.key.value(user.password)};
      }
      ledger := ledger.(lost := ledger.lost + user.upload + user.download);
    }

    method GetUserByKey(k: K) returns (u: User?)
      requires Valid()
      ensures u == null <==> P.Lookup(Value(), k) == None
      ensures u != null ==> P.Lookup(Value(), k) == Some(u.Value()) && u in users.Values
    {
      if k in userpass && userpass[k] in users {
        u := users[userpass[k]];
      } else {
        u := null;
      }
    }

    /** Go iterates over a map in an unspecified order. */
    method GetAllUsers() returns (all: seq<User>, ghost order: seq<int>)
      requires Valid()
      ensures P.Enumerates(Value(), order) && |all| == |order|
      ensures forall i :: 0 <= i < |all| ==> order[i] in users && all[i] == users[order[i]]
      ensures forall id :: id in users ==> users[id] in all
    {
      all, order := [], [];
      var left := users.Keys;
      while exists id :: id in left
        invariant left <= users.Keys && |all| == |order|
        invariant P.Distinct(order) && forall id :: id in order <==> id in users.Keys - left
        invariant forall i :: 0 <= i < |all| ==> order[i] in users && all[i] == users[order[i]]
        invariant forall id :: id in users.Keys - left ==> users[id] in all
        decreases left
      {
        var id :| id in left;
        assert id !in order;
        all, order := all + [users[id]], order + [id];
        left := left - {id};
      }
    }

    // ----- hooks ----------------------------------------------------------

    predicate Owns(u: User)
      reads this`users
    {
      u.id in users && users[u.id] == u
    }

    /** SetRunning on the pool's user or on one outside it. */
    method Mark(u: User, v: bool)
      requires Valid()
      modifies u`running
      ensures u.Value() == old(u.Value()).(running := v)
      ensures Value() == if Owns(u) then P.SetRunning(old(Value()), u.id, v) else old(Value())
    {
      u.SetRunning(v);
      if Owns(u) {
        OneUserChanged(u);
      } else {
        assert forall id :: id in users ==> users[id] != u;
        assert Users() == old(Users());
      }
    }

    /** AddInboundUser, tunnel/xray/services.go:31-44; u is the pool's object or, from the update hook, the
        response's. */
    method AddInboundUser(u: User) returns (ok: bool)
      requires Valid()
      modifies this`inbound, this`calls, u`running
      ensures u.running == (old(u.running) || ok)
      ensures
        var (s, r) := P.AddInbound(cfg, old(Value()), old(u.Value()));
        ok == r && Value() == if r && Owns(u) then P.SetRunning(s, u.id, true) else s
    {
      var account := P.AccountOf(u.Value());
      var reply := if account.Some? then cfg.replies(P.AddOp, |calls|) else P.Failed;
      if u.id in inbound {
        calls := calls + [P.AddRefused(u.id)];
        return false;
      }
      calls := calls + [P.AddCall(u.id, reply)];
      if reply == P.Failed { return false; }
      inbound := inbound[u.id := account.value];
      ok := reply == P.Done;
      if ok { Mark(u, true); }
    }

    /** RemoveInboundUser, tunnel/xray/services.go:47-68; fetchXrayTraffic passes a user object of its own. */
    method RemoveInboundUser(u: User) returns (ok: bool)
      requires Valid()
      modifies this`inbound, this`calls, u`running
      ensures u.running == (old(u.running) && !ok)
      ensures
        var (s, r) := P.RemoveInbound(cfg, old(Value()), u.id);
        ok == r && Value() == if r && Owns(u) then P.SetRunning(s, u.id, false) else s
    {
      var reply := cfg.replies(P.RemoveOp, |calls|);
      calls := calls + [P.RemoveCall(u.id, reply)];
      if reply == P.Failed { return false; }
      inbound := inbound - {u.id};
      ok := reply == P.Done;
      if ok { Mark(u, false); }
    }

    /** kickUser, tunnel/hysteria/user.go:140-170. */
    method KickUser(id: int) returns (ok: bool)
      modifies this`calls
      ensures var (s, r) := P.Kick(cfg, old(Value()), id); Value() == s && ok == r
    {
      var reply := cfg.replies(P.RemoveOp, |calls|);
      calls := calls + [P.RemoveCall(id, reply)];
      ok := reply == P.Done;
    }

    method OnUserAdd(u: User) returns (ok: bool)
      requires Valid() && Owns(u)
      modifies this`inbound, this`calls, this`trace, u`running
      ensures var (s, r) := P.OnAdd(cfg, old(Value()), u.id); Value() == s && ok == r
    {
      ok := true;
      if cfg.hooks.Xray? {
        ok := AddInboundUser(u);
      }
      trace := trace + [P.Added(u.id, ok)];
    }

    /** The xray hook, tunnel/xray/user.go:52-60: what is marked as running again is the response's object. */
    method ReplaceInboundUser(u: User, e: P.User)
      requires Valid() && Owns(u) && e.id == u.id
      modifies this`inbound, this`calls, u`running
      ensures Value() == P.Replace(cfg, old(Value()), e)
    {
      if u.running {
        var _ := RemoveInboundUser(u);
      }
      if e.enable {
        ghost var s1 := Value();
        var newUser := new User(e);
        assert P.AccountOf(newUser.Value()) == P.AccountOf(e) && !Owns(newUser);
        var _ := AddInboundUser(newUser);
        assert Value() == P.AddInbound(cfg, s1, e).0;
      }
    }

    method OnUserUpdate(u: User, e: P.User)
      requires Valid() && Owns(u) && e.id == u.id
      modifies this`inbound, this`calls, this`trace, u`running
      ensures Value() == P.OnUpdate(cfg, old(Value()), e)
    {
      trace := trace + [P.Updated(u.id)];
      match cfg.hooks
      case Anytls =>
      case Hysteria =>
        if u.running {
          var _ := KickUser(u.id);
          Mark(u, false);
        }
      case Xray =>
        ReplaceInboundUser(u, e);
    }

    method OnUserRemove(u: User) returns (ok: bool)
      requires Valid() && Owns(u)
      modifies this`inbound, this`calls, this`trace, u`running
      ensures var (s, r) := P.OnRemove(cfg, old(Value()), u.id); Value() == s && ok == r
    {
      ok := true;
      match cfg.hooks {
        case Anytls =>
        case Hysteria =>
          ok := KickUser(u.id);
        case Xray =>
          ok := RemoveInboundUser(u);
      }
      trace := trace + [P.Removed(u.id, ok)];
    }

    // ----- synchronisation ------------------------------------------------

    /** One entry of the response, lines 174-197. */
    method Upsert(e: P.User) returns (ok: bool)
      requires Valid()
      modifies this, users.Values
      ensures Valid() && fresh(users.Values - old(users.Values))
      ensures var (s, r) := P.Upsert(cfg, old(Value()), e); Value() == s && ok == r
    {
      ok := true;
      if e.id !in users {
        var u := CreateUser(e);
        ok := OnUserAdd(u);
      } else {
        var u := users[e.id];
        if !u.Value().Equal(e) {
          RewriteUser(u, e);
          OnUserUpdate(u, e);
        }
      }
    }

    /** The update branch up to the hook, lines 185-192. */
    method RewriteUser(u: User, e: P.User)
      requires Valid() && e.id in users && users[e.id] == u
      modifies this`userpass, u
      ensures Valid() && Value() == P.Rewrite(cfg, old(Value()), e)
    {
      var oldPass := u.password;
      u.UpdateFromServer(e);
      OneUserChanged(u);
      if cfg.key.Some? && oldPass != u.password {
        userpass := userpass - {cfg.key.value(oldPass)};
        userpass := userpass[cfg.key.value(u.password) := u.id];
      }
    }

    /** One user of the pool, lines 199-207. */
    method Drop(u: User, keep: set<int>) returns (ok: bool)
      requires Valid() && Owns(u)
      modifies this, users.Values
      ensures Valid() && users == (if u.id !in keep && ok then old(users) - {u.id} else old(users))
      ensures var (s, r) := P.Drop(cfg, old(Value()), u.id, keep); Value() == s && ok == r
    {
      ok := true;
      if u.id !in keep {
        ok := OnUserRemove(u);
        if ok { RemoveUser(u.id); }
      }
    }

    /** The loop over the response, lines 173-198. */
    method UpsertUsers(entries: seq<P.User>) returns (ok: bool, keep: set<int>)
      requires Valid()
      modifies this, users.Values
      ensures Valid() && fresh(users.Values - old(users.Values))
      ensures (Value(), ok) == P.UpsertAll(cfg, old(Value()), entries)
      ensures ok ==> keep == P.Ids(entries)
    {
      keep := {};
      ghost var s0 := Value();
      var i := 0;
      while i < |entries|
        invariant 0 <= i <= |entries| && Valid() && fresh(users.Values - old(users.Values))
        invariant keep == P.Ids(entries[..i])
        invariant P.UpsertAll(cfg, s0, entries) == P.UpsertAll(cfg, Value(), entries[i..])
      {
        assert entries[i..][1..] == entries[i + 1..];
        P.IdsSnoc(entries, i);
        ok := Upsert(entries[i]);
        if !ok { return; }
        keep := keep + {entries[i].id};
        i := i + 1;
      }
      assert entries[..i] == entries;
      ok := true;
    }

    /** The loop over the pool, lines 199-208. */
    method DropUsers(keep: set<int>) returns (ok: bool, ghost order: seq<int>)
      requires Valid()
      modifies this, users.Values
      ensures Valid() && users.Values <= old(users.Values)
      ensures P.Enumerates(old(Value()), order)
      ensures (Value(), ok) == P.DropAll(cfg, old(Value()), order, keep)
    {
      var all: seq<User>;
      all, order := GetAllUsers();
      var i := 0;
      while i < |all|
        invariant 0 <= i <= |all| && Valid() && users.Values <= old(users.Values)
        invariant forall j :: i <= j < |all| ==> order[j] in users && all[j] == users[order[j]]
        invariant P.DropAll(cfg, old(Value()), order, keep) == P.DropAll(cfg, Value(), order[i..], keep)
      {
        ok := Drop(all[i], keep);
        if !ok { return; }
        assert order[i..][1..] == order[i + 1..];
        i := i + 1;
      }
      ok := true;
    }

    /** syncUserConfigsFromServer, lines 168-210; resp is None when the request or its decoding fails. */
    method SyncUserConfigsFromServer(resp: Option<seq<P.User>>) returns (ok: bool, ghost order: seq<int>)
      requires Valid()
      modifies this, users.Values
      ensures Valid() && fresh(users.Values - old(users.Values))
      ensures resp == None ==> !ok && Value() == old(Value())
      ensures resp.Some? ==>
        && (Value(), ok) == P.Sync(cfg, old(Value()), resp.value, order)
        && P.FairOrder(cfg, old(Value()), P.Configs(resp.value, order))
    {
      order := [];
      if resp == None { return false, order; }
      var keep;
      ok, keep := UpsertUsers(resp.value);
      if ok {
        ok, order := DropUsers(keep);
      } else {
        order := P.SomeOrder(Users().Keys);
      }
    }

    // ----- traffic --------------------------------------------------------

    /** One entry of a statistics reply (tunnel/hysteria/user.go:74-92, tunnel/xray/user.go:98-123). */
    method FetchOne(r: P.Record)
      requires Valid() && r.Record?
      modifies this, users.Values
      ensures Valid() && users == old(users) && Value() == P.FetchOne(cfg, old(Value()), r)
    {
      if r.id !in users {
        match cfg.hooks
        case Xray =>
          var fakeUser := new User(P.User(r.id, "", "", 0, false, "", 0, 0, false));
          var _ := RemoveInboundUser(fakeUser);
        case Hysteria => var _ := KickUser(r.id);
        case Anytls =>
      } else {
        var u := users[r.id];
        ledger := ledger.(
          attributed := ledger.attributed + P.Amount(r.up) + P.Amount(r.down),
          overwritten := ledger.overwritten
            + (if r.up.Some? then u.upload else 0) + (if r.down.Some? then u.download else 0));
        if r.up.Some? { u.upload := r.up.value; }
        if r.down.Some? { u.download := r.down.value; }
        OneUserChanged(u);
      }
    }

    method FetchTraffic(records: seq<P.Record>) returns (ok: bool)
      requires Valid()
      modifies this, users.Values
      ensures Valid() && users == old(users)
      ensures var (s, r) := P.Fetch(cfg, old(Value()), records); Value() == s && ok == r
    {
      var i := 0;
      while i < |records|
        invariant 0 <= i <= |records| && Valid() && users == old(users)
        invariant P.Fetch(cfg, old(Value()), records) == P.Fetch(cfg, Value(), records[i..])
      {
        if records[i].Bad? { return false; }
        FetchOne(records[i]);
        assert records[i..][1..] == records[i + 1..];
        i := i + 1;
      }
      ok := true;
    }

    /** The reporting loop, lines 141-149. */
    method Report() returns (data: seq<P.Usage>, ghost order: seq<int>)
      requires Valid()
      modifies users.Values
      ensures Valid() && P.Enumerates(old(Value()), order)
      ensures (Value(), data) == P.ReportAll(old(Value()), [], order)
    {
      data := [];
      var all: seq<User>;
      all, order := GetAllUsers();
      var i := 0;
      while i < |all|
        invariant 0 <= i <= |all| && Valid()
        invariant P.ReportAll(old(Value()), [], order) == P.ReportAll(Value(), data, order[i..])
      {
        var u := all[i];
        assert order[i..][0] == order[i] && order[i..][1..] == order[i + 1..];
        ghost var (s1, data1) := P.ReportOne(Value(), data, order[i]);
        label turn:
        if u.download + u.upload > 0 {
          var t := u.GenTraffic();
          data := data + [t];
          u.ResetTraffic();
          OneUserChanged@turn(u);
        }
        assert Value() == s1 && data == data1;
        i := i + 1;
      }
    }

    /** syncTrafficToServer, lines 134-166, with the outcomes of its three calls. */
    method SyncTrafficToServer(fetch: Option<seq<P.Record>>, bandwidthOk: bool, postOk: bool)
      returns (ok: bool, ghost order: seq<int>)
      requires Valid()
      modifies this, users.Values
      ensures Valid() && users == old(users) && P.Enumerates(old(Value()), order)
      ensures var (s, r) := P.SyncTraffic(cfg, old(Value()), fetch, order, bandwidthOk, postOk); Value() == s && ok == r
    {
      if !cfg.hooks.Anytls? {
        order := P.SomeOrder(Users().Keys);
        if fetch == None { return false, order; }
        ok := FetchTraffic(fetch.value);
        if !ok { return; }
      }
      ok, order := ReportToServer(bandwidthOk, postOk);
    }

    /** Lines 139-163. */
    method ReportToServer(bandwidthOk: bool, postOk: bool) returns (ok: bool, ghost order: seq<int>)
      requires Valid()
      modifies this`ledger, users.Values
      ensures Valid() && P.Enumerates(old(Value()), order) && ok == (bandwidthOk && postOk)
      ensures var (s, data) := P.ReportAll(old(Value()), [], order); Value() == P.Send(s, data, bandwidthOk, postOk)
    {
      var data;
      data, order := Report();
      ok := bandwidthOk && postOk;
      ledger := if ok then ledger.(posted := ledger.posted + P.Total(data))
        else ledger.(dropped := ledger.dropped + P.Total(data));
    }

    /** A connection's bytes land in the pool as module Pool counts them; attributed is booked along. */
    method CountBytes(c: CountingConn, up: nat, down: nat)
      requires Valid() && c.user.id in users && users[c.user.id] == c.user
      modifies c.user`upload, c.user`download, this`ledger
      ensures Valid() && users == old(users) && Value() == P.Count(old(Value()), c.user.id, up, down)
    {
      c.Write(up);
      c.Read(down);
      ledger := ledger.(attributed := ledger.attributed + up + down);
      OneUserChanged(c.user);
    }

    /** One turn of syncOnce: users first and then traffic. */
    method SyncTurn(t: Turn) returns (ok: bool, ghost played: seq<P.Input>)
      requires Valid()
      modifies this, users.Values
      ensures Valid() && fresh(users.Values - old(users.Values))
      ensures Cycle(cfg, old(Value()), [t], played, Value())
      ensures ok <==> |played| == 2 && P.AllSucceed(cfg, old(Value()), played)
      ensures !ok ==> StopsAtFailure(cfg, old(Value()), [t], played)
    {
      played := [];
      ghost var order;
      ok, order := SyncUserConfigsFromServer(t.resp);
      if t.resp == None { return; }
      ghost var s1 := Value();
      played := [P.Configs(t.resp.value, order)];
      assert played[1..] == [] && played[..0] == [];
      if !ok { return; }
      ok, order := SyncTrafficToServer(t.fetch, t.bandwidthOk, t.postOk);
      ghost var last := [P.Traffic(t.fetch, order, t.bandwidthOk, t.postOk)];
      assert last[1..] == [];
      P.RunConcat(cfg, old(Value()), played, s1, last, Value());
      P.SucceedConcat(cfg, old(Value()), played, s1, last);
      assert (played + last)[..1] == played;
      played := played + last;
    }

    /** The turn for tag i, as part of a cycle that began in s0. */
    method SyncNext(turns: seq<Turn>, i: nat, ghost s0: P.State<K>, ghost inputs: seq<P.Input>)
      returns (ok: bool, ghost inputs': seq<P.Input>)
      requires Valid() && i < |turns| && |inputs| == 2 * i
      requires Cycle(cfg, s0, turns, inputs, Value()) && P.AllSucceed(cfg, s0, inputs)
      modifies this, users.Values
      ensures Valid() && fresh(users.Values - old(users.Values))
      ensures Cycle(cfg, s0, turns, inputs', Value())
      ensures ok ==> |inputs'| == 2 * i + 2 && P.AllSucceed(cfg, s0, inputs')
      ensures !ok ==> StopsAtFailure(cfg, s0, turns, inputs')
      ensures !ok ==> |inputs'| < 2 * |turns| || !P.AllSucceed(cfg, s0, inputs')
    {
      ghost var s1 := Value();
      ghost var played;
      ok, played := SyncTurn(turns[i]);
      CycleContinues(cfg, s0, turns, i, inputs, s1, played, Value());
      inputs' := inputs + played;
    }

    /** syncOnce, lines 226-237: a turn per tag; the first failure ends the cycle. `inputs` is the cycle as the runs
        of module Pool see it: the turns' outcomes in order, up to the first failure. */
    method SyncOnce(turns: seq<Turn>) returns (ok: bool, ghost inputs: seq<P.Input>)
      requires Valid()
      modifies this, users.Values
      ensures Valid() && fresh(users.Values - old(users.Values))
      ensures Cycle(cfg, old(Value()), turns, inputs, Value())
      ensures ok <==> |inputs| == 2 * |turns| && P.AllSucceed(cfg, old(Value()), inputs)
      ensures !ok ==> StopsAtFailure(cfg, old(Value()), turns, inputs)
    {
      ghost var s0 := Value();
      inputs := [];
      var i := 0;
      while i < |turns|
        invariant 0 <= i <= |turns| && Valid() && fresh(users.Values - old(users.Values))
        invariant |inputs| == 2 * i && Cycle(cfg, s0, turns, inputs, Value()) && P.AllSucceed(cfg, s0, inputs)
      {
        ok, inputs := SyncNext(turns, i, s0, inputs);
        if !ok { return; }
        i := i + 1;
      }
      ok := true;
    }
  }

  /** The outcomes one tag's turn meets: the user list, the statistics, the bandwidth call and the post. */
  datatype Turn = Turn(resp: Option<seq<P.User>>, fetch: Option<seq<P.Record>>, bandwidthOk: bool, postOk: bool)

  /** The inputs are those the turns supply, users and traffic in alternation. */
  predicate Script(turns: seq<Turn>, inputs: seq<P.Input>) {
    |inputs| <= 2 * |turns| && forall k :: 0 <= k < |turns| ==> Plays(turns[k], inputs, 2 * k)
  }

  /** The turn supplies the two inputs from position n on, as far as there are any. */
  predicate Plays(t: Turn, inputs: seq<P.Input>, n: nat) {
    && (n < |inputs| ==> inputs[n].Configs? && t.resp == Some(inputs[n].resp))
    && (n + 1 < |inputs| ==>
      inputs[n + 1].Traffic? && inputs[n + 1] == P.Traffic(t.fetch, inputs[n + 1].order, t.bandwidthOk, t.postOk))
  }

  ghost predicate Cycle<K>(cfg: P.Config<K>, s: P.State<K>, turns: seq<Turn>, inputs: seq<P.Input>, s': P.State<K>) {
    Script(turns, inputs) && P.Run(cfg, s, inputs, s')
  }

  /** Everything before succeeded, and either the last input failed or the next turn's user list was not to be had. */
  ghost predicate StopsAtFailure<K>(cfg: P.Config<K>, s: P.State<K>, turns: seq<Turn>, inputs: seq<P.Input>) {
    || (inputs != [] && P.AllSucceed(cfg, s, inputs[..|inputs| - 1]) && !P.AllSucceed(cfg, s, inputs))
    || (P.AllSucceed(cfg, s, inputs) && |inputs| % 2 == 0 && |inputs| < 2 * |turns| && turns[|inputs| / 2].resp == None)
  }

  lemma ScriptContinues(turns: seq<Turn>, i: nat, inputs: seq<P.Input>, played: seq<P.Input>)
    requires i < |turns| && |inputs| == 2 * i && Script(turns, inputs) && Script([turns[i]], played)
    ensures Script(turns, inputs + played)
  {
    assert Plays([turns[i]][0], played, 0);
    forall k | 0 <= k < |turns| ensures Plays(turns[k], inputs + played, 2 * k) {
      assert Plays(turns[k], inputs, 2 * k);
    }
  }

  lemma FailureContinues<K>(
    cfg: P.Config<K>, s: P.State<K>, turns: seq<Turn>, i: nat, inputs: seq<P.Input>,
    s1: P.State<K>, played: seq<P.Input>)
    requires i < |turns| && |inputs| == 2 * i && P.Run(cfg, s, inputs, s1) && P.AllSucceed(cfg, s, inputs)
    requires |played| <= 2 && StopsAtFailure(cfg, s1, [turns[i]], played)
    ensures StopsAtFailure(cfg, s, turns, inputs + played)
  {
    P.SucceedConcat(cfg, s, inputs, s1, played);
    if played == [] {
      assert inputs + played == inputs;
    } else {
      P.SucceedConcat(cfg, s, inputs, s1, played[..|played| - 1]);
      assert (inputs + played)[..|inputs + played| - 1] == inputs + played[..|played| - 1];
    }
  }

  lemma CycleContinues<K>(
    cfg: P.Config<K>, s: P.State<K>, turns: seq<Turn>, i: nat, inputs: seq<P.Input>,
    s1: P.State<K>, played: seq<P.Input>, s2: P.State<K>)
    requires i < |turns| && |inputs| == 2 * i && Cycle(cfg, s, turns, inputs, s1) && P.AllSucceed(cfg, s, inputs)
    requires Cycle(cfg, s1, [turns[i]], played, s2)
    ensures Cycle(cfg, s, turns, inputs + played, s2)
    ensures P.AllSucceed(cfg, s, inputs + played) <==> P.AllSucceed(cfg, s1, played)
    ensures StopsAtFailure(cfg, s1, [turns[i]], played) ==> StopsAtFailure(cfg, s, turns, inputs + played)
  {
    ScriptContinues(turns, i, inputs, played);
    P.RunConcat(cfg, s, inputs, s1, played, s2);
    P.SucceedConcat(cfg, s, inputs, s1, played);
    if StopsAtFailure(cfg, s1, [turns[i]], played) {
      FailureContinues(cfg, s, turns, i, inputs, s1, played);
    }
  }

  /** GetTotalTraffic, tunnel/common/user.go:34-40. */
  method GetTotalTraffic(data: seq<P.Usage>) returns (total: nat)
    ensures total == P.Total(data)
  {
    total := 0;
    var i := 0;
    while i < |data|
      invariant 0 <= i <= |data| && total == P.Total(data[..i])
    {
      assert data[..i + 1][..i] == data[..i];
      total := total + (data[i].upload + data[i].download);
      i := i + 1;
    }
    assert data[..i] == data;
  }
}
