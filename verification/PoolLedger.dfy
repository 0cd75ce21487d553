/** Where every byte attributed to a user ends up, over whole runs (tunnel/common/pool.go:134-166,
    tunnel/hysteria/user.go:67-94, tunnel/xray/user.go:89-125). */
module PoolLedger {
  import opened Common
  import opened Pool

  /** The sum of all counters in the pool. */
  ghost function Pending(users: map<int, User>): nat {
    if forall id :: id !in users then 0
    else
      var id :| id in users;
      users[id].Traffic() + Pending(users - {id})
  }

  lemma {:induction false} PendingSplit(users: map<int, User>, id: int)
    requires id in users
    ensures Pending(users) == users[id].Traffic() + Pending(users - {id})
    decreases |users|
  {
    var x :| x in users && Pending(users) == users[x].Traffic() + Pending(users - {x});
    if x != id {
      PendingSplit(users - {x}, id);
      PendingSplit(users - {id}, x);
      assert users - {x} - {id} == users - {id} - {x};
    }
  }

  lemma PendingUpdate(users: map<int, User>, id: int, u: User)
    ensures Pending(users[id := u]) == u.Traffic() + Pending(users - {id})
  {
    PendingSplit(users[id := u], id);
    assert users[id := u] - {id} == users - {id};
  }

  /** Only counters matter to the sum. */
  lemma {:induction false} PendingSame(users: map<int, User>, users': map<int, User>)
    requires users.Keys == users'.Keys && forall id :: id in users ==> users[id].Traffic() == users'[id].Traffic()
    ensures Pending(users) == Pending(users')
    decreases |users|
  {
    if id :| id in users {
      PendingSplit(users, id);
      PendingSplit(users', id);
      PendingSame(users - {id}, users' - {id});
    }
  }

  /** What the books leave unexplained. */
  ghost function Gap<K>(s: State<K>): int {
    s.ledger.attributed - (s.ledger.posted + s.ledger.dropped + Pending(s.users) + s.ledger.overwritten + s.ledger.lost)
  }

  // ----- each step balances -----------------------------------------------

  lemma UpsertBalances<K>(cfg: Config<K>, s: State<K>, e: User)
    ensures Gap(Upsert(cfg, s, e).0) == Gap(s)
  {
    if e.id !in s.users {
      AddHookFrame(cfg, Create(cfg, s, e), e.id);
      PendingUpdate(s.users, e.id, NewUser(e));
      assert s.users - {e.id} == s.users;
      PendingSame(Create(cfg, s, e).users, Upsert(cfg, s, e).0.users);
    } else if !s.users[e.id].Equal(e) {
      UpdateHookFrame(cfg, Rewrite(cfg, s, e), e);
      PendingSame(s.users, Upsert(cfg, s, e).0.users);
    }
  }

  lemma DropBalances<K>(cfg: Config<K>, s: State<K>, id: int, keep: set<int>)
    requires id in s.users
    ensures Gap(Drop(cfg, s, id, keep).0) == Gap(s)
  {
    RemoveHookFrame(cfg, s, id);
    var s1 := OnRemove(cfg, s, id).0;
    PendingSame(s.users, s1.users);
    PendingSplit(s1.users, id);
  }

  lemma CreditBalances<K>(s: State<K>, r: Record)
    requires r.Record? && r.id in s.users
    ensures Gap(Credit(s, r)) == Gap(s)
  {
    PendingSplit(s.users, r.id);
    PendingUpdate(s.users, r.id, Credit(s, r).users[r.id]);
  }

  lemma {:induction false} FetchBalances<K>(cfg: Config<K>, s: State<K>, records: seq<Record>)
    ensures Gap(Fetch(cfg, s, records).0) == Gap(s)
    decreases |records|
  {
    if records != [] && records[0].Record? {
      if records[0].id in s.users { CreditBalances(s, records[0]); }
      FetchBalances(cfg, FetchOne(cfg, s, records[0]), records[1..]);
    }
  }

  /** The reporting loop moves the counters into the request, byte for byte. */
  lemma {:induction false} ReportMoves<K>(s: State<K>, data: seq<Usage>, order: seq<int>)
    requires forall id :: id in order ==> id in s.users
    ensures
      var (s', data') := ReportAll(s, data, order);
      && Total(data') + Pending(s'.users) == Total(data) + Pending(s.users)
      && s'.ledger == s.ledger && s'.users.Keys == s.users.Keys
      && (forall id :: id in s.users && s.users[id].Traffic() == 0 ==> s'.users[id].Traffic() == 0)
      && (forall id :: id in order ==> s'.users[id].Traffic() == 0)
    decreases |order|
  {
    if order != [] {
      var id := order[0];
      assert id in order;
      var (s1, data1) := ReportOne(s, data, id);
      if s.users[id].Traffic() > 0 {
        PendingSplit(s.users, id);
        PendingUpdate(s.users, id, s1.users[id]);
        assert data1[..|data1| - 1] == data;
      }
      ReportMoves(s1, data1, order[1..]);
      assert order == [order[0]] + order[1..];
    }
  }

  lemma {:induction false} NothingPending(users: map<int, User>)
    requires forall id :: id in users ==> users[id].Traffic() == 0
    ensures Pending(users) == 0
    decreases |users|
  {
    if id :| id in users {
      PendingSplit(users, id);
      NothingPending(users - {id});
    }
  }

  /** A request's total is the sum of all counters of the pool just before the loop, and the loop clears them. */
  lemma RequestCarriesAllCounters<K>(s: State<K>, order: seq<int>)
    requires Enumerates(s, order)
    ensures
      var (s', data) := ReportAll(s, [], order);
      && Total(data) == Pending(s.users)
      && s'.users.Keys == s.users.Keys && forall id :: id in s.users ==> s'.users[id].Traffic() == 0
  {
    ReportMoves(s, [], order);
    NothingPending(ReportAll(s, [], order).0.users);
  }

  lemma TrafficBalances<K>(cfg: Config<K>, s: State<K>, i: Input)
    requires i.Traffic? && FairOrder(cfg, s, i)
    ensures Gap(Step(cfg, s, i)) == Gap(s)
  {
    if i.fetch.Some? {
      FetchBalances(cfg, s, i.fetch.value);
      FetchFrame(cfg, s, i.fetch.value);
    }
    var (s1, ok) := FetchTraffic(cfg, s, i.fetch);
    if ok { ReportMoves(s1, [], i.order); }
  }

  lemma CountBalances<K>(s: State<K>, id: int, up: nat, down: nat)
    ensures Gap(Count(s, id, up, down)) == Gap(s)
  {
    if id in s.users {
      PendingSplit(s.users, id);
      PendingUpdate(s.users, id, Count(s, id, up, down).users[id]);
    }
  }

  lemma StepBalances<K>(cfg: Config<K>, s: State<K>, i: Input)
    requires !i.Configs? && FairOrder(cfg, s, i)
    ensures Gap(Step(cfg, s, i)) == Gap(s)
  {
    match i
    case Traffic(_, _, _, _) => TrafficBalances(cfg, s, i);
    case Bytes(id, up, down) => CountBalances(s, id, up, down);
    case LoggedIn(id) => PendingSame(s.users, Step(cfg, s, i).users);
  }

  /** Conservation: at every point of every run, whatever was attributed to users has been posted, dropped with
      a failed request, overwritten, lost with a removed user, or is still pending. Runs take a report as one step;
      module PoolArrivals is about bytes that arrive while a report is under way. */
  lemma TrafficIsConserved<K(!new)>(cfg: Config<K>, inputs: seq<Input>, s: State<K>)
    requires Run(cfg, Empty(), inputs, s)
    ensures s.ledger.attributed ==
      s.ledger.posted + s.ledger.dropped + Pending(s.users) + s.ledger.overwritten + s.ledger.lost
  {
    var p := (s: State<K>) => Gap(s) == 0;
    forall s, e | p(s) ensures p(Upsert(cfg, s, e).0) { UpsertBalances(cfg, s, e); }
    forall s, id, keep | p(s) && id in s.users ensures p(Drop(cfg, s, id, keep).0) {
      DropBalances(cfg, s, id, keep);
    }
    forall s, i: Input | p(s) && !i.Configs? && FairOrder(cfg, s, i) ensures p(Step(cfg, s, i)) {
      StepBalances(cfg, s, i);
    }
    RunKeeps(cfg, p, i => true, Empty(), inputs, s);
  }

  // ----- runs with canonical ids ------------------------------------------

  /** Every id parses and no counter is set twice. */
  ghost predicate Canonical(records: seq<Record>) {
    && (forall r :: r in records ==> r.Record?)
    && (forall a, b :: 0 <= a < b < |records| && records[a].id == records[b].id ==>
          !(records[a].up.Some? && records[b].up.Some?) && !(records[a].down.Some? && records[b].down.Some?))
  }

  /** The records a fetch gets to: it stops at the first id that does not parse. */
  function Parsed(records: seq<Record>): seq<Record> {
    if records == [] || records[0].Bad? then [] else [records[0]] + Parsed(records[1..])
  }

  /** Every counter the record is about to set is zero. */
  predicate Room<K>(s: State<K>, r: Record) {
    r.Record? && r.id in s.users ==>
      (r.up.Some? ==> s.users[r.id].upload == 0) && (r.down.Some? ==> s.users[r.id].download == 0)
  }

  /** The second record sets a counter to which the first gave something. */
  predicate Overwrites(first: Record, second: Record) {
    && first.Record? && second.Record? && first.id == second.id
    && ((Amount(first.up) > 0 && second.up.Some?) || (Amount(first.down) > 0 && second.down.Some?))
  }

  /** Nothing of a user of the pool is in the way of the records, neither in its counters nor among themselves. */
  ghost predicate NothingInTheWay<K>(s: State<K>, records: seq<Record>) {
    && (forall i :: 0 <= i < |records| ==> Room(s, records[i]))
    && forall a, b :: 0 <= a < b < |records| && records[a].Record? && records[a].id in s.users ==>
      !Overwrites(records[a], records[b])
  }

  lemma {:induction false} FetchLosesNothing<K>(cfg: Config<K>, s: State<K>, records: seq<Record>)
    ensures
      var (s', ok) := Fetch(cfg, s, records);
      && s'.ledger.lost == s.ledger.lost && s'.ledger.overwritten >= s.ledger.overwritten
      && (ok <==> Parsed(records) == records)
    decreases |records|
  {
    if records != [] && records[0].Record? {
      FetchLosesNothing(cfg, FetchOne(cfg, s, records[0]), records[1..]);
      assert records == [records[0]] + records[1..];
    }
  }

  /** What one record leaves in the way of another. */
  lemma RoomAfter<K>(cfg: Config<K>, s: State<K>, r: Record, next: Record)
    requires r.Record? && Room(s, r)
    ensures Room(FetchOne(cfg, s, r), next) <==> Room(s, next) && (r.id in s.users ==> !Overwrites(r, next))
  {
  }

  lemma InTheWayCons<K>(cfg: Config<K>, s: State<K>, r: Record, rest: seq<Record>)
    requires r.Record?
    ensures NothingInTheWay(s, [r] + rest) <==> Room(s, r) && NothingInTheWay(FetchOne(cfg, s, r), rest)
  {
    var records := [r] + rest;
    var s1 := FetchOne(cfg, s, r);
    assert s1.users.Keys == s.users.Keys;
    assert forall i :: 0 <= i < |rest| ==> records[i + 1] == rest[i];
    if Room(s, r) {
      forall i | 0 <= i < |rest| { RoomAfter(cfg, s, r, rest[i]); }
      if NothingInTheWay(s, records) {
        forall i | 0 <= i < |rest| ensures Room(s1, rest[i]) {
          assert Room(s, records[i + 1]) && !(r.id in s.users && Overwrites(records[0], records[i + 1]));
        }
        forall a, b | 0 <= a < b < |rest| && rest[a].Record? && rest[a].id in s1.users
          ensures !Overwrites(rest[a], rest[b]) {
          assert !Overwrites(records[a + 1], records[b + 1]);
        }
      }
      if NothingInTheWay(s1, rest) {
        forall i | 0 <= i < |records| ensures Room(s, records[i]) {
          if i > 0 { assert Room(s1, rest[i - 1]); }
        }
        forall a, b | 0 <= a < b < |records| && records[a].Record? && records[a].id in s.users
          ensures !Overwrites(records[a], records[b]) {
          assert Room(s1, rest[b - 1]);
          if a > 0 { assert !Overwrites(rest[a - 1], rest[b - 1]); }
        }
      }
    } else {
      assert records[0] == r;
    }
  }

  /** Fetches overwrite counters instead of adding to them. Whatever the reply, no traffic is lost that way if and only
      if the counters it sets are zero, and none is set again after the reply itself gave it something. */
  lemma {:induction false} FetchOverwritesNothingIff<K>(cfg: Config<K>, s: State<K>, records: seq<Record>)
    ensures Fetch(cfg, s, records).0.ledger.overwritten == s.ledger.overwritten <==> NothingInTheWay(s, Parsed(records))
    decreases |records|
  {
    if records != [] && records[0].Record? {
      var s1 := FetchOne(cfg, s, records[0]);
      FetchOverwritesNothingIff(cfg, s1, records[1..]);
      FetchLosesNothing(cfg, s1, records[1..]);
      InTheWayCons(cfg, s, records[0], Parsed(records[1..]));
      assert s1.ledger.overwritten == s.ledger.overwritten <==> Room(s, records[0]);
    }
  }

  lemma {:induction false} AllParse(records: seq<Record>)
    requires forall r :: r in records ==> r.Record?
    ensures Parsed(records) == records
    decreases |records|
  {
    if records != [] {
      assert records[0] in records;
      AllParse(records[1..]);
    }
  }

  /** Nothing pending, overwritten or lost. */
  ghost predicate Clean<K>(s: State<K>) {
    && (forall id :: id in s.users ==> s.users[id].Traffic() == 0)
    && s.ledger.overwritten == 0 && s.ledger.lost == 0
  }

  ghost predicate CanonicalInput(i: Input) {
    match i
    case Traffic(fetch, _, _, _) => fetch.Some? ==> Canonical(fetch.value)
    case Bytes(_, _, _) => false
    case _ => true
  }

  /** A canonical fetch does not fail half-way, so nothing it credits stays behind unreported. */
  lemma CleanFetch<K>(cfg: Config<K>, s: State<K>, fetch: Option<seq<Record>>)
    requires Clean(s) && (fetch.Some? ==> Canonical(fetch.value))
    ensures
      var (s1, ok) := FetchTraffic(cfg, s, fetch);
      && s1.users.Keys == s.users.Keys && s1.ledger.overwritten == s1.ledger.lost == 0
      && (!ok ==> s1 == s)
  {
    if fetch.Some? {
      AllParse(fetch.value);
      FetchLosesNothing(cfg, s, fetch.value);
      FetchOverwritesNothingIff(cfg, s, fetch.value);
      FetchFrame(cfg, s, fetch.value);
    }
  }

  lemma TrafficKeepsClean<K>(cfg: Config<K>, s: State<K>, i: Input)
    requires Clean(s) && i.Traffic? && CanonicalInput(i) && FairOrder(cfg, s, i)
    ensures Clean(Step(cfg, s, i))
  {
    CleanFetch(cfg, s, i.fetch);
    var (s1, ok) := FetchTraffic(cfg, s, i.fetch);
    if ok {
      RequestCarriesAllCounters(s1, i.order);
      ReportMoves(s1, [], i.order);
    }
  }

  /** With canonical ids, and counters fed by fetches alone, nothing is overwritten or lost and nothing is pending
      between cycles, whatever fails: every attributed byte was posted, or dropped with a request that failed. */
  lemma CanonicalTrafficIsPostedOrDropped<K(!new)>(cfg: Config<K>, inputs: seq<Input>, s: State<K>)
    requires Run(cfg, Empty(), inputs, s) && forall i :: i in inputs ==> CanonicalInput(i)
    ensures s.ledger.attributed == s.ledger.posted + s.ledger.dropped
    ensures Pending(s.users) == 0 && s.ledger.overwritten == 0 && s.ledger.lost == 0
  {
    TrafficIsConserved(cfg, inputs, s);
    var p := (s: State<K>) => Clean(s);
    forall s, e | p(s) ensures p(Upsert(cfg, s, e).0) {
      if e.id !in s.users {
        AddHookFrame(cfg, Create(cfg, s, e), e.id);
      } else if !s.users[e.id].Equal(e) {
        UpdateHookFrame(cfg, Rewrite(cfg, s, e), e);
      }
    }
    forall s, id, keep | p(s) && id in s.users ensures p(Drop(cfg, s, id, keep).0) { RemoveHookFrame(cfg, s, id); }
    forall s, i: Input | p(s) && !i.Configs? && CanonicalInput(i) && FairOrder(cfg, s, i) ensures p(Step(cfg, s, i)) {
      if i.Traffic? { TrafficKeepsClean(cfg, s, i); }
    }
    RunKeeps(cfg, p, i => CanonicalInput(i), Empty(), inputs, s);
    NothingPending(s.users);
  }
}
