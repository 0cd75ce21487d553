/** A synchronisation cut into the steps between which other goroutines can look users up
    (GetUserByKey, tunnel/common/pool.go:100-109): one step per critical section, hook call or unlocked write. */
module PoolReaders {
  import opened Common
  import opened Pool
  import opened PoolIndex

  /** Where the synchronising goroutine is. `todo` starts with the response entry in hand, `order` with the user. */
  datatype PC =
    | Idle
    | Upserting(resp: seq<User>, todo: seq<User>)                   // line 174
    | Created(resp: seq<User>, todo: seq<User>)                     // between 179 and 180
    | Rewriting(resp: seq<User>, todo: seq<User>, oldPass: string)  // between 186 and 187
    | Rewritten(resp: seq<User>, todo: seq<User>)                   // between 192 and 193
    | Dropping(order: seq<int>, keep: set<int>)                     // line 199
    | Unhooked(order: seq<int>, keep: set<int>)                     // between 205 and 206

  datatype Machine<K> = Machine(pool: State<K>, pc: PC)

  /** Where the goroutine stands is consistent with the pool. */
  ghost predicate Located<K>(m: Machine<K>) {
    match m.pc
    case Created(_, todo) => todo != [] && todo[0].id in m.pool.users
    case Rewriting(_, todo, _) =>
      todo != [] && todo[0].id in m.pool.users && m.pool.users[todo[0].id].password == todo[0].password
    case Rewritten(_, todo) => todo != [] && todo[0].id in m.pool.users
    case Dropping(order, _) => Distinct(order) && forall id :: id in order ==> id in m.pool.users
    case Unhooked(order, _) => order != [] && Distinct(order) && forall id :: id in order ==> id in m.pool.users
    case _ => true
  }

  /** The goroutine's next step; `order` is what GetAllUsers returns if it is called in this step. */
  ghost function Micro<K>(cfg: Config<K>, m: Machine<K>, order: seq<int>): Machine<K>
    requires Located(m)
  {
    var s := m.pool;
    match m.pc
    case Idle => m
    case Upserting(resp, todo) =>
      if todo == [] then m.(pc := Dropping(order, Ids(resp)))
      else if todo[0].id !in s.users then Machine(Create(cfg, s, todo[0]), Created(resp, todo))
      else if !s.users[todo[0].id].Equal(todo[0]) then
        Machine(WriteFields(s, todo[0]), Rewriting(resp, todo, s.users[todo[0].id].password))
      else m.(pc := Upserting(resp, todo[1..]))
    case Created(resp, todo) =>
      var (s1, ok) := OnAdd(cfg, s, todo[0].id);
      Machine(s1, if ok then Upserting(resp, todo[1..]) else Idle)
    case Rewriting(resp, todo, oldPass) => Machine(Reindex(cfg, s, todo[0].id, oldPass), Rewritten(resp, todo))
    case Rewritten(resp, todo) => Machine(OnUpdate(cfg, s, todo[0]), Upserting(resp, todo[1..]))
    case Dropping(order, keep) =>
      if order == [] then m.(pc := Idle)
      else if order[0] in keep then m.(pc := Dropping(order[1..], keep))
      else
        var (s1, ok) := OnRemove(cfg, s, order[0]);
        Machine(s1, if ok then Unhooked(order, keep) else Idle)
    case Unhooked(order, keep) => Machine(Remove(cfg, s, order[0]), Dropping(order[1..], keep))
  }

  /** What can happen next: a synchronisation starts, goes on, or something else touches the pool. */
  datatype Event = Start(resp: seq<User>) | Go(order: seq<int>) | Other(i: Input)

  ghost predicate CanHappen<K>(cfg: Config<K>, m: Machine<K>, e: Event) {
    match e
    case Start(_) => m.pc == Idle
    case Go(order) => m.pc.Upserting? && m.pc.todo == [] ==> Enumerates(m.pool, order)
    case Other(i) => FairOrder(cfg, m.pool, i) && (i.Bytes? || i.LoggedIn? || (i.Traffic? && m.pc == Idle))
  }

  ghost function Happen<K>(cfg: Config<K>, m: Machine<K>, e: Event): Machine<K>
    requires Located(m) && CanHappen(cfg, m, e)
  {
    match e
    case Start(resp) => m.(pc := Upserting(resp, resp))
    case Go(order) => Micro(cfg, m, order)
    case Other(i) => m.(pool := Step(cfg, m.pool, i))
  }

  ghost predicate History<K>(cfg: Config<K>, m: Machine<K>, events: seq<Event>, m': Machine<K>)
    decreases |events|
  {
    if events == [] then m == m'
    else Located(m) && CanHappen(cfg, m, events[0]) && History(cfg, Happen(cfg, m, events[0]), events[1..], m')
  }

  // ----- what readers see -------------------------------------------------

  /** The one user whose fields are written and whose entry has not been moved yet. */
  predicate InFlight<K(==)>(cfg: Config<K>, m: Machine<K>, k: K, id: int) {
    && m.pc.Rewriting? && m.pc.todo != [] && m.pc.todo[0].id == id
    && cfg.key.Some? && cfg.key.value(m.pc.oldPass) == k && m.pc.oldPass != m.pc.todo[0].password
  }

  ghost predicate ReaderSound<K(!new)>(cfg: Config<K>, m: Machine<K>) {
    && Located(m) && IdsMatch(m.pool)
    && forall k :: k in m.pool.index ==>
         && cfg.key.Some? && m.pool.index[k] in m.pool.users
         && (cfg.key.value(m.pool.users[m.pool.index[k]].password) == k || InFlight(cfg, m, k, m.pool.index[k]))
  }

  lemma SettledPcIsIndexSound<K(!new)>(cfg: Config<K>, m: Machine<K>)
    requires ReaderSound(cfg, m) && !m.pc.Rewriting?
    ensures IndexSound(cfg, m.pool)
  {
  }

  lemma SoundAnywhere<K(!new)>(cfg: Config<K>, m: Machine<K>)
    requires IndexSound(cfg, m.pool) && Located(m)
    ensures ReaderSound(cfg, m)
  {
  }

  lemma HookStepKeeps<K(!new)>(cfg: Config<K>, m: Machine<K>, order: seq<int>)
    requires ReaderSound(cfg, m) && (m.pc.Created? || m.pc.Rewritten? || m.pc.Dropping?)
    ensures ReaderSound(cfg, Micro(cfg, m, order))
  {
    SettledPcIsIndexSound(cfg, m);
    var m' := Micro(cfg, m, order);
    match m.pc
    case Created(_, todo) =>
      AddHookFrame(cfg, m.pool, todo[0].id);
      HookKeepsSound(cfg, m.pool, m'.pool, todo[0].id);
    case Rewritten(_, todo) =>
      UpdateHookFrame(cfg, m.pool, todo[0]);
      HookKeepsSound(cfg, m.pool, m'.pool, todo[0].id);
    case Dropping(order, keep) =>
      if order != [] {
        assert order[0] in order;
        RemoveHookFrame(cfg, m.pool, order[0]);
        if order[0] !in keep { HookKeepsSound(cfg, m.pool, m'.pool, order[0]); }
      }
  }

  lemma MicroKeeps<K(!new)>(cfg: Config<K>, m: Machine<K>, order: seq<int>)
    requires ReaderSound(cfg, m) && (m.pc.Upserting? && m.pc.todo == [] ==> Enumerates(m.pool, order))
    ensures ReaderSound(cfg, Micro(cfg, m, order))
  {
    var m' := Micro(cfg, m, order);
    if m.pc.Created? || m.pc.Rewritten? || m.pc.Dropping? {
      HookStepKeeps(cfg, m, order);
    } else if m.pc.Unhooked? {
      SettledPcIsIndexSound(cfg, m);
      assert m.pc.order[0] in m.pc.order;
      SoundAnywhere(cfg, m');
    } else if m.pc.Rewriting? {
      assert IndexSound(cfg, m'.pool);
      SoundAnywhere(cfg, m');
    }
  }

  lemma {:induction false} HistoryKeeps<K(!new)>(cfg: Config<K>, m: Machine<K>, events: seq<Event>, m': Machine<K>)
    requires ReaderSound(cfg, m) && History(cfg, m, events, m')
    ensures ReaderSound(cfg, m')
    decreases |events|
  {
    if events != [] {
      var e := events[0];
      match e {
        case Start(_) =>
        case Go(order) => MicroKeeps(cfg, m, order);
        case Other(i) =>
          StepFrame(cfg, m.pool, i);
          FrameKeepsReaders(cfg, m, Step(cfg, m.pool, i));
      }
      HistoryKeeps(cfg, Happen(cfg, m, e), events[1..], m');
    }
  }

  lemma FrameKeepsReaders<K(!new)>(cfg: Config<K>, m: Machine<K>, s': State<K>)
    requires ReaderSound(cfg, m) && TrafficFrame(m.pool, s')
    ensures ReaderSound(cfg, m.(pool := s'))
  {
  }

  /** Between any two steps, no index entry dangles, and a looked-up user's password has the key
      asked for, except for the one user between the write of its fields and the move of its entry. */
  lemma ReadersSeeOwners<K(!new)>(cfg: Config<K>, events: seq<Event>, m: Machine<K>, k: K)
    requires History(cfg, Machine(Empty(), Idle), events, m) && k in m.pool.index
    ensures
      var id := m.pool.index[k];
      && id in m.pool.users && m.pool.users[id].id == id && Lookup(m.pool, k) == Some(m.pool.users[id])
      && cfg.key.Some? && (cfg.key.value(m.pool.users[id].password) == k || InFlight(cfg, m, k, id))
  {
    HistoryKeeps(cfg, Machine(Empty(), Idle), events, m);
  }

  // ----- a user object in a reader's hands --------------------------------

  /** A user object that a look-up returned: in the pool, or removed from it and left as it was. */
  datatype Held = Held(user: User, live: bool)

  function Seen<K>(h: Held, s: State<K>): Held {
    if h.live && h.user.id in s.users then Held(s.users[h.user.id], true) else h.(live := false)
  }

  /** The object after the events. */
  ghost function After<K>(cfg: Config<K>, m: Machine<K>, events: seq<Event>, h: Held): Held
    decreases |events|
  {
    if events == [] || !Located(m) || !CanHappen(cfg, m, events[0]) then h
    else
      var m1 := Happen(cfg, m, events[0]);
      After(cfg, m1, events[1..], Seen(h, m1.pool))
  }

  lemma {:induction false} HeldUserKeepsId<K(!new)>(
    cfg: Config<K>, m: Machine<K>, events: seq<Event>, m': Machine<K>, h: Held)
    requires ReaderSound(cfg, m) && History(cfg, m, events, m')
    requires h.live ==> h.user.id in m.pool.users && m.pool.users[h.user.id] == h.user
    ensures
      var h' := After(cfg, m, events, h);
      && h'.user.id == h.user.id
      && (h'.live ==> h.live && h'.user.id in m'.pool.users && m'.pool.users[h'.user.id] == h'.user)
    decreases |events|
  {
    if events != [] {
      var m1 := Happen(cfg, m, events[0]);
      assert History(cfg, m, [events[0]], m1) by { assert [events[0]][1..] == []; }
      HistoryKeeps(cfg, m, [events[0]], m1);
      HeldUserKeepsId(cfg, m1, events[1..], m', Seen(h, m1.pool));
    }
  }

  // ----- the steps add up to a synchronisation ----------------------------

  /** The goroutine runs to the end; `order` is the order of its GetAllUsers. */
  ghost function Complete<K>(cfg: Config<K>, m: Machine<K>, order: seq<int>): State<K>
    requires Located(m)
    decreases Remaining(m.pc).0, Remaining(m.pc).1
  {
    if m.pc == Idle then m.pool
    else
      var m' := Micro(cfg, m, order);
      if Located(m') then Complete(cfg, m', order) else m'.pool
  }

  /** Removals come after the upserts; each entry takes at most three steps, each user two. */
  function Remaining(pc: PC): (nat, nat) {
    match pc
    case Idle => (0, 0)
    case Upserting(_, todo) => (1, 4 * |todo| + 3)
    case Created(_, todo) => (1, 4 * |todo| + 2)
    case Rewriting(_, todo, _) => (1, 4 * |todo| + 2)
    case Rewritten(_, todo) => (1, 4 * |todo| + 1)
    case Dropping(order, _) => (0, 2 * |order| + 2)
    case Unhooked(order, _) => (0, 2 * |order| + 1)
  }

  lemma {:induction false} CompleteDrops<K>(cfg: Config<K>, s: State<K>, order: seq<int>, keep: set<int>, o: seq<int>)
    requires Located(Machine(s, Dropping(order, keep)))
    ensures Complete(cfg, Machine(s, Dropping(order, keep)), o) == DropAll(cfg, s, order, keep).0
    decreases |order|
  {
    var m := Machine(s, Dropping(order, keep));
    var m1 := Micro(cfg, m, o);
    if order == [] {
      assert m1.pc == Idle;
    } else if order[0] in keep {
      CompleteDrops(cfg, s, order[1..], keep, o);
    } else {
      assert order[0] in order;
      RemoveHookFrame(cfg, s, order[0]);
      if m1.pc.Unhooked? {
        var m2 := Micro(cfg, m1, o);
        DropTakesOne(cfg, s, order[0], keep);
        assert Located(m2);
        CompleteDrops(cfg, m2.pool, order[1..], keep, o);
        assert Complete(cfg, m1, o) == Complete(cfg, m2, o);
      }
    }
  }

  /** Undisturbed, the steps make up exactly the synchronisation the other results are about. */
  lemma {:induction false} StepsMakeUpSync<K>(
    cfg: Config<K>, s: State<K>, resp: seq<User>, todo: seq<User>, order: seq<int>)
    requires Enumerates(UpsertAll(cfg, s, todo).0, order)
    ensures
      var (s1, ok) := UpsertAll(cfg, s, todo);
      Complete(cfg, Machine(s, Upserting(resp, todo)), order) == if ok then DropAll(cfg, s1, order, Ids(resp)).0 else s1
    decreases |todo|
  {
    var m := Machine(s, Upserting(resp, todo));
    var m1 := Micro(cfg, m, order);
    if todo == [] {
      CompleteDrops(cfg, s, order, Ids(resp), order);
    } else if m1.pc.Created? {
      var m2 := Micro(cfg, m1, order);
      assert Complete(cfg, m1, order) == Complete(cfg, m2, order);
      if m2.pc.Upserting? { StepsMakeUpSync(cfg, m2.pool, resp, todo[1..], order); }
    } else if m1.pc.Rewriting? {
      var m2 := Micro(cfg, m1, order);
      var m3 := Micro(cfg, m2, order);
      assert Complete(cfg, m1, order) == Complete(cfg, m2, order);
      assert Complete(cfg, m2, order) == Complete(cfg, m3, order);
      StepsMakeUpSync(cfg, m3.pool, resp, todo[1..], order);
    } else {
      StepsMakeUpSync(cfg, s, resp, todo[1..], order);
    }
  }
}
