/** The report of tunnel/common/pool.go:140-163 cut into its accesses to the counters, while anytls connections keep
    adding to them (tunnel/anytls/counting_conn.go:22-32), and the synchronisation cut into the steps of module
    PoolReaders. */
module PoolArrivals {
  import opened Common
  import opened Pool
  import opened PoolLedger
  import R = PoolReaders

  /** Where the report stands: the users still to visit, the one in hand first, and the request so far. `late`
      counts the bytes that arrived since a counter was read. The entry of the request, private to the loop, is
      appended last. */
  datatype Phase =
    | Resting
    | Looping(order: seq<int>, data: seq<Usage>)                                        // line 140
    | Peeked(order: seq<int>, data: seq<Usage>, peek: nat)                              // line 141, one operand loaded
    | Chosen(order: seq<int>, data: seq<Usage>)                                         // line 142 passed
    | ReadUp(order: seq<int>, data: seq<Usage>, up: nat, lateUp: nat)                   // GenTraffic, upload read
    | ReadBoth(order: seq<int>, data: seq<Usage>, up: nat, lateUp: nat, down: nat, lateDown: nat)
    | ClearedDown(order: seq<int>, data: seq<Usage>, up: nat, lateUp: nat, down: nat)   // ResetTraffic, half done

  /** `missed` counts the bytes that arrived between the read of a counter and its clearing. */
  datatype Machine<K> = Machine(readers: R.Machine<K>, phase: Phase, missed: nat) {
    function Pool(): State<K> {
      readers.pool
    }

    function With(s: State<K>, phase: Phase): Machine<K> {
      this.(readers := readers.(pool := s), phase := phase)
    }
  }

  datatype Event =
    | Reader(e: R.Event)               // a step of a synchronisation, a login, or a report of a tunnel that fetches
    | Arrive(id: int, up: nat, down: nat)
    | Begin(order: seq<int>)           // an anytls report begins; GetAllUsers returns this order
    | Go                               // its next access to a counter
    | Finish(bandwidthOk: bool, postOk: bool)

  predicate Ready<K>(m: Machine<K>) {
    m.phase != Resting ==>
      && (forall id :: id in m.phase.order ==> id in m.Pool().users)
      && (m.phase.Looping? || m.phase.order != [])
  }

  ghost predicate CanHappen<K>(cfg: Config<K>, m: Machine<K>, e: Event) {
    match e
    case Reader(r) =>
      && m.phase == Resting && R.Located(m.readers) && R.CanHappen(cfg, m.readers, r)
      && (r.Other? && r.i.Traffic? ==> !cfg.hooks.Anytls?)
    case Arrive(_, _, _) => true
    case Begin(order) =>
      m.phase == Resting && m.readers.pc == R.Idle && cfg.hooks.Anytls? && Enumerates(m.Pool(), order)
    case Go => m.phase != Resting && m.phase.order != []
    case Finish(_, _) => m.phase.Looping? && m.phase.order == []
  }

  /** The bytes of an arrival that hit a counter already read and not yet cleared. */
  function LateUp(phase: Phase, id: int, up: nat): nat {
    var open := phase.ReadUp? || phase.ReadBoth? || phase.ClearedDown?;
    if open && phase.order != [] && phase.order[0] == id then up else 0
  }

  function LateDown(phase: Phase, id: int, down: nat): nat {
    if phase.ReadBoth? && phase.order != [] && phase.order[0] == id then down else 0
  }

  /** What an event adds to the bytes missed. */
  function Late<K>(m: Machine<K>, e: Event): nat {
    if e.Arrive? && e.id in m.Pool().users then LateUp(m.phase, e.id, e.up) + LateDown(m.phase, e.id, e.down) else 0
  }

  function Overtaken(phase: Phase, id: int, up: nat, down: nat): Phase {
    match phase
    case ReadUp(order, data, u, late) => ReadUp(order, data, u, late + LateUp(phase, id, up))
    case ReadBoth(order, data, u, late, d, lateDown) =>
      ReadBoth(order, data, u, late + LateUp(phase, id, up), d, lateDown + LateDown(phase, id, down))
    case ClearedDown(order, data, u, late, d) => ClearedDown(order, data, u, late + LateUp(phase, id, up), d)
    case _ => phase
  }

  /** One access of the loop to a counter of its user. */
  function Access<K>(m: Machine<K>): Machine<K>
    requires Ready(m) && m.phase != Resting && m.phase.order != []
  {
    var s, id := m.Pool(), m.phase.order[0];
    assert id in m.phase.order;
    var u := s.users[id];
    match m.phase
    case Looping(order, data) => m.(phase := Peeked(order, data, u.download))
    case Peeked(order, data, peek) =>
      m.(phase := if peek + u.upload > 0 then Chosen(order, data) else Looping(order[1..], data))
    case Chosen(order, data) => m.(phase := ReadUp(order, data, u.upload, 0))
    case ReadUp(order, data, up, late) => m.(phase := ReadBoth(order, data, up, late, u.download, 0))
    case ReadBoth(order, data, up, late, down, _) =>
      m.With(s.(users := s.users[id := u.(download := 0)]), ClearedDown(order, data, up, late, down))
    case ClearedDown(order, data, up, _, down) =>
      m.With(s.(users := s.users[id := u.(upload := 0)]), Looping(order[1..], data + [Usage(u.id, up, down)]))
  }

  ghost function Happen<K>(cfg: Config<K>, m: Machine<K>, e: Event): Machine<K>
    requires Ready(m) && CanHappen(cfg, m, e)
  {
    match e
    case Reader(r) => m.(readers := R.Happen(cfg, m.readers, r))
    case Arrive(id, up, down) =>
      m.With(Count(m.Pool(), id, up, down), Overtaken(m.phase, id, up, down)).(missed := m.missed + Late(m, e))
    case Begin(order) => m.(phase := Looping(order, []))
    case Go => Access(m)
    case Finish(bandwidthOk, postOk) => m.With(Send(m.Pool(), m.phase.data, bandwidthOk, postOk), Resting)
  }

  ghost predicate History<K>(cfg: Config<K>, m: Machine<K>, events: seq<Event>, m': Machine<K>)
    decreases |events|
  {
    if events == [] then m == m'
    else Ready(m) && CanHappen(cfg, m, events[0]) && History(cfg, Happen(cfg, m, events[0]), events[1..], m')
  }

  function Start<K>(): Machine<K> {
    Machine(R.Machine(Empty(), R.Idle), Resting, 0)
  }

  // ----- the books --------------------------------------------------------

  /** The counters of the user in hand are what was read plus what came late. */
  predicate ReadOk<K>(s: State<K>, phase: Phase) {
    match phase
    case ReadUp(order, _, up, late) =>
      order != [] && order[0] in s.users && s.users[order[0]].upload == up + late
    case ReadBoth(order, _, up, lateUp, down, lateDown) =>
      && order != [] && order[0] in s.users
      && s.users[order[0]].upload == up + lateUp && s.users[order[0]].download == down + lateDown
    case ClearedDown(order, _, up, late, _) =>
      order != [] && order[0] in s.users && s.users[order[0]].upload == up + late
    case _ => true
  }

  /** What left the counters for the request that is being put together. */
  function InRequest(phase: Phase): nat {
    match phase
    case Resting => 0
    case ClearedDown(_, data, _, _, down) => Total(data) + down
    case _ => Total(phase.data)
  }

  /** Late bytes still in their counter. */
  function StillThere(phase: Phase): nat {
    match phase
    case ReadUp(_, _, _, late) => late
    case ReadBoth(_, _, _, lateUp, _, lateDown) => lateUp + lateDown
    case ClearedDown(_, _, _, late, _) => late
    case _ => 0
  }

  ghost predicate Booked<K>(m: Machine<K>) {
    && Ready(m) && ReadOk(m.Pool(), m.phase)
    && Gap(m.Pool()) == m.missed - StillThere(m.phase) + InRequest(m.phase)
  }

  lemma MicroBalances<K>(cfg: Config<K>, m: R.Machine<K>, order: seq<int>)
    requires R.Located(m)
    ensures Gap(R.Micro(cfg, m, order).pool) == Gap(m.pool)
  {
    var s, s' := m.pool, R.Micro(cfg, m, order).pool;
    match m.pc
    case Upserting(_, todo) =>
      if todo != [] && todo[0].id !in s.users {
        PendingUpdate(s.users, todo[0].id, NewUser(todo[0]));
        assert s.users - {todo[0].id} == s.users;
      } else {
        PendingSame(s.users, s'.users);
      }
    case Created(_, todo) =>
      AddHookFrame(cfg, s, todo[0].id);
      PendingSame(s.users, s'.users);
    case Rewritten(_, todo) =>
      UpdateHookFrame(cfg, s, todo[0]);
      PendingSame(s.users, s'.users);
    case Dropping(order, _) =>
      if order != [] { RemoveHookFrame(cfg, s, order[0]); }
      PendingSame(s.users, s'.users);
    case Unhooked(order, _) =>
      assert order[0] in order;
      PendingSplit(s.users, order[0]);
    case _ =>
  }

  lemma ReaderBalances<K>(cfg: Config<K>, m: R.Machine<K>, e: R.Event)
    requires R.Located(m) && R.CanHappen(cfg, m, e)
    ensures Gap(R.Happen(cfg, m, e).pool) == Gap(m.pool)
  {
    match e
    case Start(_) =>
    case Go(order) => MicroBalances(cfg, m, order);
    case Other(i) => StepBalances(cfg, m.pool, i);
  }

  lemma ArriveKeepsBooks<K>(cfg: Config<K>, m: Machine<K>, e: Event)
    requires Booked(m) && e.Arrive?
    ensures Booked(Happen(cfg, m, e))
  {
    CountBalances(m.Pool(), e.id, e.up, e.down);
    if m.phase != Resting && m.phase.order != [] { assert m.phase.order[0] in m.phase.order; }
  }

  lemma AccessKeepsBooks<K>(m: Machine<K>)
    requires Booked(m) && m.phase != Resting && m.phase.order != []
    ensures Booked(Access(m))
  {
    var m', id := Access(m), m.phase.order[0];
    assert id in m.phase.order;
    if m.phase.ReadBoth? || m.phase.ClearedDown? {
      PendingSplit(m.Pool().users, id);
      PendingUpdate(m.Pool().users, id, m'.Pool().users[id]);
    }
    if m.phase.ClearedDown? { assert m'.phase.data[..|m'.phase.data| - 1] == m.phase.data; }
  }

  lemma HappenKeepsBooks<K>(cfg: Config<K>, m: Machine<K>, e: Event)
    requires Booked(m) && CanHappen(cfg, m, e)
    ensures Booked(Happen(cfg, m, e))
  {
    match e
    case Reader(r) => ReaderBalances(cfg, m.readers, r);
    case Arrive(_, _, _) => ArriveKeepsBooks(cfg, m, e);
    case Begin(_) =>
    case Go => AccessKeepsBooks(m);
    case Finish(_, _) =>
  }

  lemma {:induction false} HistoryKeepsBooks<K>(cfg: Config<K>, m: Machine<K>, events: seq<Event>, m': Machine<K>)
    requires Booked(m) && History(cfg, m, events, m')
    ensures Booked(m')
    decreases |events|
  {
    if events != [] {
      HappenKeepsBooks(cfg, m, events[0]);
      HistoryKeepsBooks(cfg, Happen(cfg, m, events[0]), events[1..], m');
    }
  }

  /** Conservation with bytes arriving at any moment: whenever no report is under way, whatever was attributed to
      users of the pool has been posted, dropped with a failed request, overwritten by a fetch, lost with a removed
      user, is pending, or was missed, that is, it arrived between the read of its counter and the clearing. */
  lemma TrafficIsConserved<K>(cfg: Config<K>, events: seq<Event>, m: Machine<K>)
    requires History(cfg, Start(), events, m) && m.phase == Resting
    ensures
      var l := m.Pool().ledger;
      l.attributed == l.posted + l.dropped + Pending(m.Pool().users) + l.overwritten + l.lost + m.missed
  {
    HistoryKeepsBooks(cfg, Start(), events, m);
  }

  /** No bytes arrive in such a window. */
  ghost predicate NoneLate<K>(cfg: Config<K>, m: Machine<K>, events: seq<Event>)
    decreases |events|
  {
    events != [] && Ready(m) && CanHappen(cfg, m, events[0]) ==>
      Late(m, events[0]) == 0 && NoneLate(cfg, Happen(cfg, m, events[0]), events[1..])
  }

  lemma {:induction false} MissedGrows<K>(cfg: Config<K>, m: Machine<K>, events: seq<Event>, m': Machine<K>)
    requires History(cfg, m, events, m')
    ensures m.missed <= m'.missed && (m'.missed == m.missed <==> NoneLate(cfg, m, events))
    decreases |events|
  {
    if events != [] {
      assert Happen(cfg, m, events[0]).missed == m.missed + Late(m, events[0]);
      MissedGrows(cfg, Happen(cfg, m, events[0]), events[1..], m');
    }
  }

  /** So the five places of module PoolLedger hold all traffic if and only if no bytes arrive in such a window. */
  lemma NothingMissedIffNoneLate<K>(cfg: Config<K>, events: seq<Event>, m: Machine<K>)
    requires History(cfg, Start(), events, m) && m.phase == Resting
    ensures Gap(m.Pool()) == 0 <==> NoneLate(cfg, Start(), events)
  {
    HistoryKeepsBooks(cfg, Start(), events, m);
    MissedGrows(cfg, Start(), events, m);
  }

  // ----- one report -------------------------------------------------------

  lemma {:induction false} LoopKeepsLedger<K>(cfg: Config<K>, m: Machine<K>, events: seq<Event>, m': Machine<K>)
    requires History(cfg, m, events, m') && forall e :: e in events ==> e.Go? || e.Arrive?
    ensures m'.Pool().ledger == m.Pool().ledger.(attributed := m'.Pool().ledger.attributed)
    decreases |events|
  {
    if events != [] {
      assert events[0] in events;
      LoopKeepsLedger(cfg, Happen(cfg, m, events[0]), events[1..], m');
    }
  }

  /** The request of a report with bytes arriving during its loop: what it carries, what is pending afterwards and what
      was missed add up to the counters before the loop and the bytes that arrived. */
  lemma RequestCarriesCounters<K>(
    cfg: Config<K>, before: seq<Event>, m: Machine<K>, events: seq<Event>, m': Machine<K>)
    requires History(cfg, Start(), before, m) && m.phase.Looping? && m.phase.data == []
    requires History(cfg, m, events, m') && forall e :: e in events ==> e.Go? || e.Arrive?
    requires m'.phase.Looping? && m'.phase.order == []
    ensures
      var arrived := m'.Pool().ledger.attributed - m.Pool().ledger.attributed;
      Total(m'.phase.data) + Pending(m'.Pool().users) + (m'.missed - m.missed) == Pending(m.Pool().users) + arrived
  {
    HistoryKeepsBooks(cfg, Start(), before, m);
    HistoryKeepsBooks(cfg, m, events, m');
    LoopKeepsLedger(cfg, m, events, m');
  }

  function Rank(phase: Phase): nat {
    match phase
    case Resting => 0
    case Looping(_, _) => 5
    case Peeked(_, _, _) => 4
    case Chosen(_, _) => 3
    case ReadUp(_, _, _, _) => 2
    case ReadBoth(_, _, _, _, _, _) => 1
    case ClearedDown(_, _, _, _, _) => 0
  }

  /** The loop runs to its end while nothing else happens. */
  function Loop<K>(m: Machine<K>): Machine<K>
    requires Ready(m) && m.phase != Resting
    decreases |m.phase.order|, Rank(m.phase)
  {
    if m.phase.order == [] then m
    else
      var m' := Access(m);
      if Ready(m') then Loop(m') else m'
  }

  /** Undisturbed, the accesses make up exactly the report of the other results. */
  lemma {:induction false} AccessesMakeUpReport<K>(m: Machine<K>)
    requires Ready(m) && m.phase.Looping?
    ensures
      var (s, data) := ReportAll(m.Pool(), m.phase.data, m.phase.order);
      Loop(m) == m.With(s, Looping([], data))
    decreases |m.phase.order|
  {
    if m.phase.order != [] {
      var id := m.phase.order[0];
      assert id in m.phase.order;
      var m1 := Access(m);
      var m2 := Access(m1);
      assert Loop(m) == Loop(m1) == Loop(m2);
      var next := m2;
      if m2.phase.Chosen? {
        next := FourAccesses(m2);
      }
      var (s, data) := ReportOne(m.Pool(), m.phase.data, id);
      assert next == m.With(s, Looping(m.phase.order[1..], data));
      AccessesMakeUpReport(next);
    }
  }

  lemma FourAccesses<K>(m: Machine<K>) returns (next: Machine<K>)
    requires Ready(m) && m.phase.Chosen?
    ensures Ready(next) && next.phase.Looping? && Loop(m) == Loop(next)
    ensures
      var u := m.Pool().users[m.phase.order[0]];
      next == m.With(
        m.Pool().(users := m.Pool().users[m.phase.order[0] := u.(upload := 0, download := 0)]),
        Looping(m.phase.order[1..], m.phase.data + [Usage(u.id, u.upload, u.download)]))
  {
    assert m.phase.order[0] in m.phase.order;
    var m1 := Access(m);
    var m2 := Access(m1);
    var m3 := Access(m2);
    next := Access(m3);
    assert Loop(m) == Loop(m1) == Loop(m2) == Loop(m3) == Loop(next);
  }

  /** So does the whole report, with its two calls: undisturbed it is the report of an anytls pool. */
  lemma StepsMakeUpReport<K>(cfg: Config<K>, m: Machine<K>, order: seq<int>, bandwidthOk: bool, postOk: bool)
    requires Ready(m) && CanHappen(cfg, m, Begin(order))
    ensures
      var done := Loop(Happen(cfg, m, Begin(order)));
      && Ready(done) && CanHappen(cfg, done, Finish(bandwidthOk, postOk))
      && Happen(cfg, done, Finish(bandwidthOk, postOk)) ==
           m.With(SyncTraffic(cfg, m.Pool(), None, order, bandwidthOk, postOk).0, Resting)
  {
    AccessesMakeUpReport(Happen(cfg, m, Begin(order)));
  }
}
