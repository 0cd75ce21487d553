/** What a traffic report fetches, says and leaves behind (tunnel/common/pool.go:134-166, tunnel/common/user.go:50-63,
    tunnel/hysteria/user.go:74-92, tunnel/xray/user.go:98-123). */
module PoolReports {
  import opened Common
  import opened Pool
  import opened PoolLedger
  import opened PoolBackend

  // ----- the fetch --------------------------------------------------------

  /** Record i is the last of those the fetch gets to that sets the user's upload (download) counter. */
  predicate LastUp(records: seq<Record>, id: int, i: nat) {
    && i < |records| && records[i].Record? && records[i].id == id && records[i].up.Some?
    && forall j :: i < j < |records| ==> !(records[j].Record? && records[j].id == id && records[j].up.Some?)
  }

  predicate LastDown(records: seq<Record>, id: int, i: nat) {
    && i < |records| && records[i].Record? && records[i].id == id && records[i].down.Some?
    && forall j :: i < j < |records| ==> !(records[j].Record? && records[j].id == id && records[j].down.Some?)
  }

  /** A counter after the fetch: the last reading for it, or what it was before. */
  ghost predicate CountersFetched(u: User, u': User, records: seq<Record>) {
    && (forall i: nat :: LastUp(records, u.id, i) ==> u'.upload == records[i].up.value)
    && ((forall i: nat :: !LastUp(records, u.id, i)) ==> u'.upload == u.upload)
    && (forall i: nat :: LastDown(records, u.id, i) ==> u'.download == records[i].down.value)
    && ((forall i: nat :: !LastDown(records, u.id, i)) ==> u'.download == u.download)
  }

  lemma LastCons(r: Record, rest: seq<Record>, id: int, i: nat)
    ensures i > 0 ==> (LastUp([r] + rest, id, i) <==> LastUp(rest, id, i - 1))
    ensures i > 0 ==> (LastDown([r] + rest, id, i) <==> LastDown(rest, id, i - 1))
  {
    var records := [r] + rest;
    assert forall j :: 0 < j < |records| ==> records[j] == rest[j - 1];
    if i > 0 {
      assert forall j :: i - 1 < j < |rest| ==> rest[j] == records[j + 1];
    }
  }

  lemma {:induction false} SomeLastUp(records: seq<Record>, id: int, i: nat) returns (l: nat)
    requires i < |records| && records[i].Record? && records[i].id == id && records[i].up.Some?
    ensures LastUp(records, id, l)
    decreases |records| - i
  {
    if j :| i < j < |records| && records[j].Record? && records[j].id == id && records[j].up.Some? {
      l := SomeLastUp(records, id, j);
    } else {
      l := i;
    }
  }

  lemma {:induction false} SomeLastDown(records: seq<Record>, id: int, i: nat) returns (l: nat)
    requires i < |records| && records[i].Record? && records[i].id == id && records[i].down.Some?
    ensures LastDown(records, id, l)
    decreases |records| - i
  {
    if j :| i < j < |records| && records[j].Record? && records[j].id == id && records[j].down.Some? {
      l := SomeLastDown(records, id, j);
    } else {
      l := i;
    }
  }

  /** What one record does to a user of the pool. */
  lemma OneRecord<K>(cfg: Config<K>, s: State<K>, r: Record, id: int)
    requires r.Record? && id in s.users
    ensures
      var u, u' := s.users[id], FetchOne(cfg, s, r).users[id];
      && u'.upload == (if r.id == id && r.up.Some? then r.up.value else u.upload)
      && u'.download == (if r.id == id && r.down.Some? then r.down.value else u.download)
      && u'.id == u.id
  {
  }

  lemma CountersCons(u: User, u1: User, u2: User, r: Record, rest: seq<Record>)
    requires r.Record? && u1.id == u.id && CountersFetched(u1, u2, rest)
    requires u1.upload == if r.id == u.id && r.up.Some? then r.up.value else u.upload
    requires u1.download == if r.id == u.id && r.down.Some? then r.down.value else u.download
    ensures CountersFetched(u, u2, [r] + rest)
  {
    var records := [r] + rest;
    forall i: nat { LastCons(r, rest, u.id, i); }
    forall i: nat | LastUp(records, u.id, i) ensures u2.upload == records[i].up.value {
      if i == 0 {
        forall k: nat ensures !LastUp(rest, u.id, k) { assert !LastUp(records, u.id, k + 1); }
      } else {
        assert LastUp(rest, u.id, i - 1);
      }
    }
    forall i: nat | LastDown(records, u.id, i) ensures u2.download == records[i].down.value {
      if i == 0 {
        forall k: nat ensures !LastDown(rest, u.id, k) { assert !LastDown(records, u.id, k + 1); }
      } else {
        assert LastDown(rest, u.id, i - 1);
      }
    }
    if forall i: nat :: !LastUp(records, u.id, i) {
      forall k: nat ensures !LastUp(rest, u.id, k) { assert !LastUp(records, u.id, k + 1); }
      if r.id == u.id && r.up.Some? { var l := SomeLastUp(records, u.id, 0); }
    }
    if forall i: nat :: !LastDown(records, u.id, i) {
      forall k: nat ensures !LastDown(rest, u.id, k) { assert !LastDown(records, u.id, k + 1); }
      if r.id == u.id && r.down.Some? { var l := SomeLastDown(records, u.id, 0); }
    }
  }

  /** Every counter of every user of the pool is set to the last reading for it, upload and download apart, and
      stays as it was without one; a fetch that stops half-way has set those it got to. */
  lemma {:induction false} FetchSetsCounters<K>(cfg: Config<K>, s: State<K>, records: seq<Record>, id: int)
    requires id in s.users && s.users[id].id == id
    ensures
      var s' := Fetch(cfg, s, records).0;
      id in s'.users && CountersFetched(s.users[id], s'.users[id], Parsed(records))
    decreases |records|
  {
    if records != [] && records[0].Record? {
      var s1 := FetchOne(cfg, s, records[0]);
      OneRecord(cfg, s, records[0], id);
      FetchSetsCounters(cfg, s1, records[1..], id);
      var s' := Fetch(cfg, s1, records[1..]).0;
      CountersCons(s.users[id], s1.users[id], s'.users[id], records[0], Parsed(records[1..]));
    }
  }

  /** The strangers among the records, in order. */
  function Strangers(users: set<int>, records: seq<Record>): seq<int> {
    if records == [] then []
    else if records[0].Record? && records[0].id !in users then [records[0].id] + Strangers(users, records[1..])
    else Strangers(users, records[1..])
  }

  /** The calls ask for the removal of these users, in this order. */
  predicate Evictions(calls: seq<Call>, ids: seq<int>) {
    |calls| == |ids| && forall k :: 0 <= k < |ids| ==> calls[k].RemoveCall? && calls[k].id == ids[k]
  }

  lemma OneRecordCalls<K>(cfg: Config<K>, s: State<K>, r: Record) returns (own: seq<Call>)
    requires r.Record? && !cfg.hooks.Anytls?
    ensures FetchOne(cfg, s, r).calls == s.calls + own && FetchOne(cfg, s, r).users.Keys == s.users.Keys
    ensures Evictions(own, if r.id in s.users then [] else [r.id])
  {
    own := if r.id in s.users then [] else [FetchOne(cfg, s, r).calls[|s.calls|]];
    assert s.calls + [] == s.calls;
  }

  lemma EvictionsAppend(calls: seq<Call>, ids: seq<int>, more: seq<Call>, moreIds: seq<int>)
    requires Evictions(calls, ids) && Evictions(more, moreIds)
    ensures Evictions(calls + more, ids + moreIds)
  {
  }

  /** A fetch asks the backend to evict exactly the strangers, each time one is reported, whatever came of it before. */
  lemma {:induction false} FetchEvictsStrangers<K>(cfg: Config<K>, s: State<K>, records: seq<Record>)
    returns (own: seq<Call>)
    requires !cfg.hooks.Anytls?
    ensures Fetch(cfg, s, records).0.calls == s.calls + own
    ensures Evictions(own, Strangers(s.users.Keys, Parsed(records)))
    decreases |records|
  {
    own := [];
    if records != [] && records[0].Record? {
      var r := records[0];
      var s1 := FetchOne(cfg, s, r);
      var first := OneRecordCalls(cfg, s, r);
      var rest := FetchEvictsStrangers(cfg, s1, records[1..]);
      own := first + rest;
      StrangersCons(s.users.Keys, r, Parsed(records[1..]));
      EvictionsAppend(
        first, if r.id in s.users then [] else [r.id], rest, Strangers(s.users.Keys, Parsed(records[1..])));
      assert (s.calls + first) + rest == s.calls + own;
    } else {
      assert s.calls + own == s.calls;
    }
  }

  lemma StrangersCons(users: set<int>, r: Record, rest: seq<Record>)
    requires r.Record?
    ensures Strangers(users, [r] + rest) == (if r.id in users then [] else [r.id]) + Strangers(users, rest)
  {
    assert ([r] + rest)[1..] == rest;
  }

  // ----- the request ------------------------------------------------------

  /** The user has something to report. */
  predicate Active(u: User) {
    u.upload > 0 || u.download > 0
  }

  /** The entry says what the user's counters say. */
  predicate Says(d: Usage, u: User) {
    Active(u) && d.upload == u.upload && d.download == u.download
  }

  /** What the request says is exactly what the counters of active users say. */
  ghost predicate Lists<K>(s: State<K>, order: seq<int>, data: seq<Usage>) {
    && (forall d :: d in data ==> d.id in order && d.id in s.users && Says(d, s.users[d.id]))
    && (forall id :: id in order && id in s.users && Active(s.users[id]) ==> exists d :: d in data && d.id == id)
    && forall i, j :: 0 <= i < j < |data| ==> data[i].id != data[j].id
  }

  lemma {:induction false} ReportAllLists<K>(s: State<K>, data: seq<Usage>, order: seq<int>) returns (own: seq<Usage>)
    requires Distinct(order) && forall id :: id in order ==> id in s.users && s.users[id].id == id
    ensures ReportAll(s, data, order).1 == data + own && Lists(s, order, own)
    decreases |order|
  {
    if order == [] {
      own := [];
      assert data + own == data;
    } else {
      var id := order[0];
      assert id in order;
      var (s1, data1) := ReportOne(s, data, id);
      assert order == [id] + order[1..];
      forall i | i in order[1..] ensures i in s1.users && s1.users[i] == s.users[i] {
        assert i in order;
        var k :| 0 <= k < |order[1..]| && order[1..][k] == i;
        assert order[k + 1] == i;
      }
      var rest := ReportAllLists(s1, data1, order[1..]);
      own := data1[|data|..] + rest;
      assert data1 + rest == data + own;
      ListsCons(s, s1, id, order[1..], data1[|data|..], rest);
    }
  }

  lemma ListsCons<K>(s: State<K>, s1: State<K>, id: int, order: seq<int>, first: seq<Usage>, rest: seq<Usage>)
    requires id in s.users && id !in order && Lists(s1, order, rest)
    requires forall i :: i in order ==> i in s.users && i in s1.users && s1.users[i] == s.users[i]
    requires first == if Active(s.users[id]) then [Usage(id, s.users[id].upload, s.users[id].download)] else []
    ensures Lists(s, [id] + order, first + rest)
  {
    var data := first + rest;
    forall i | i in [id] + order && i in s.users && Active(s.users[i]) ensures exists d :: d in data && d.id == i {
      if i == id {
        assert data[0].id == id && data[0] in data;
      } else {
        assert i in order && Active(s1.users[i]);
        var d :| d in rest && d.id == i;
        assert d in data;
      }
    }
    forall i, j | 0 <= i < j < |data| ensures data[i].id != data[j].id {
      if i < |first| {
        assert data[j] == rest[j - |first|] && rest[j - |first|] in rest;
      } else {
        assert data[i] == rest[i - |first|] && data[j] == rest[j - |first|];
      }
    }
    forall d | d in data
      ensures d.id in [id] + order && d.id in s.users && Says(d, s.users[d.id])
    {
      if d !in rest { assert d in first; }
    }
  }

  /** A request lists every user of the pool with traffic exactly once, with its upload and its download, and nobody
      else. */
  lemma RequestListsActiveUsers<K>(s: State<K>, order: seq<int>)
    requires Enumerates(s, order) && forall id :: id in s.users ==> s.users[id].id == id
    ensures
      var data := ReportAll(s, [], order).1;
      && (forall d :: d in data ==> d.id in s.users && Says(d, s.users[d.id]))
      && (forall id :: id in s.users && Active(s.users[id]) ==> exists d :: d in data && d.id == id)
      && (forall i, j :: 0 <= i < j < |data| ==> data[i].id != data[j].id)
  {
    var own := ReportAllLists(s, [], order);
    assert ReportAll(s, [], order).1 == own;
  }

  // ----- the whole report -------------------------------------------------

  /** A failed statistics call ends the report before it touches anything. */
  lemma FailedFetchEndsReport<K>(cfg: Config<K>, s: State<K>, order: seq<int>, bandwidthOk: bool, postOk: bool)
    requires !cfg.hooks.Anytls? && forall id :: id in order ==> id in s.users
    ensures SyncTraffic(cfg, s, None, order, bandwidthOk, postOk) == (s, false)
  {
  }

  /** So does an id that does not parse, after the records before it: nothing is reported or posted. */
  lemma BadRecordEndsReport<K>(
    cfg: Config<K>, s: State<K>, records: seq<Record>, order: seq<int>, bandwidthOk: bool, postOk: bool)
    requires !cfg.hooks.Anytls? && Bad in records && forall id :: id in order ==> id in s.users
    ensures SyncTraffic(cfg, s, Some(records), order, bandwidthOk, postOk) == (Fetch(cfg, s, records).0, false)
    ensures SyncTraffic(cfg, s, Some(records), order, bandwidthOk, postOk).0.ledger.posted == s.ledger.posted
    ensures SyncTraffic(cfg, s, Some(records), order, bandwidthOk, postOk).0.ledger.dropped == s.ledger.dropped
  {
    FetchLosesNothing(cfg, s, records);
    ParsedHasNoBad(records);
    FetchPostsNothing(cfg, s, records);
  }

  lemma {:induction false} ParsedHasNoBad(records: seq<Record>)
    ensures Bad !in Parsed(records)
    decreases |records|
  {
    if records != [] && records[0].Record? { ParsedHasNoBad(records[1..]); }
  }

  lemma {:induction false} FetchPostsNothing<K>(cfg: Config<K>, s: State<K>, records: seq<Record>)
    ensures Fetch(cfg, s, records).0.ledger.posted == s.ledger.posted
    ensures Fetch(cfg, s, records).0.ledger.dropped == s.ledger.dropped
    decreases |records|
  {
    if records != [] && records[0].Record? {
      FetchPostsNothing(cfg, FetchOne(cfg, s, records[0]), records[1..]);
    }
  }

  /** A report succeeds if and only if the statistics came and all parse, unless there are none to fetch, and the
      bandwidth call and the post succeed. */
  lemma ReportSucceedsIff<K>(
    cfg: Config<K>, s: State<K>, fetch: Option<seq<Record>>, order: seq<int>, bandwidthOk: bool, postOk: bool)
    requires forall id :: id in order ==> id in s.users
    ensures SyncTraffic(cfg, s, fetch, order, bandwidthOk, postOk).1 <==>
      && (cfg.hooks.Anytls? || (fetch.Some? && Bad !in fetch.value))
      && bandwidthOk && postOk
  {
    if fetch.Some? {
      FetchLosesNothing(cfg, s, fetch.value);
      ParsedHasNoBad(fetch.value);
      if Bad !in fetch.value { AllParse(fetch.value); }
    }
  }

  /** What it posts: once the fetch is through, all counters of the pool together, if both calls that follow succeed;
      otherwise the same traffic is dropped. Either way the counters are cleared. */
  lemma ReportPostsAllOrDropsAll<K>(
    cfg: Config<K>, s: State<K>, fetch: Option<seq<Record>>, order: seq<int>, bandwidthOk: bool, postOk: bool)
    requires Enumerates(s, order) && (cfg.hooks.Anytls? || (fetch.Some? && Bad !in fetch.value))
    ensures
      var s1 := FetchTraffic(cfg, s, fetch).0;
      var s' := SyncTraffic(cfg, s, fetch, order, bandwidthOk, postOk).0;
      && s'.ledger.posted == s.ledger.posted + (if bandwidthOk && postOk then Pending(s1.users) else 0)
      && s'.ledger.dropped == s.ledger.dropped + (if bandwidthOk && postOk then 0 else Pending(s1.users))
      && forall id :: id in s'.users ==> s'.users[id].upload == s'.users[id].download == 0
  {
    var s1 := FetchTraffic(cfg, s, fetch).0;
    if !cfg.hooks.Anytls? {
      AllParse(fetch.value);
      FetchLosesNothing(cfg, s, fetch.value);
      FetchPostsNothing(cfg, s, fetch.value);
      FetchKeepsUsers(cfg, s, fetch.value);
    }
    assert Enumerates(s1, order);
    RequestCarriesAllCounters(s1, order);
    ReportMoves(s1, [], order);
  }

  /** Anytls connections add what they write to upload and what they read to download, for their user alone. */
  lemma BytesGoToTheirCounters<K>(s: State<K>, id: int, up: nat, down: nat, other: int)
    requires id in s.users && other in s.users
    ensures
      var u, u' := s.users[other], Count(s, id, up, down).users[other];
      && u'.upload == u.upload + (if other == id then up else 0)
      && u'.download == u.download + (if other == id then down else 0)
  {
  }
}
