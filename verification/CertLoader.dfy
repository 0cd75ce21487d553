/** The certificate cache of tunnel/hysteria/utils/certloader.go as a step machine.

    Any number of goroutines call `InitializeCache` and `getCertificateWithCache`
    while anybody rewrites, hides or restores the two files. One action is one
    shared access (a stat, a read, a lock operation, a load or a store of the
    atomic pointer); computations on private data ride along with it. */
module CertLoader {
  import opened Common

  // ----- the disk ---------------------------------------------------------

  /** One rewrite of a file. The assumption on file systems is made here:
      no two versions of one file carry the same modification time. */
  datatype Version = Version(modTime: int, content: string)

  datatype File = File(history: seq<Version>, statable: bool, readable: bool) {
    predicate Valid() {
      && (statable || readable ==> history != [])
      && forall i, j :: 0 <= i < j < |history| ==> history[i].modTime != history[j].modTime
    }

    /** The version a stat or a read sees now. */
    function Now(): (n: nat)
      requires history != []
    {
      |history| - 1
    }
  }

  /** What `os.Stat` reported. The version number is book-keeping: the machine's guards look at `modTime` only. */
  datatype Stamp = Stamp(version: nat, modTime: int)

  /** What a read returned, with the version it came from. */
  datatype Blob = Blob(version: nat, content: string)

  predicate StampOf(f: File, s: Stamp) {
    s.version < |f.history| && s.modTime == f.history[s.version].modTime
  }

  predicate BlobOf(f: File, b: Blob) {
    b.version < |f.history| && b.content == f.history[b.version].content
  }

  // ----- the loader -------------------------------------------------------

  /** localCertificateCache: read-only once built. */
  datatype Cache = Cache(certStamp: Stamp, keyStamp: Stamp, cert: Blob, key: Blob)

  /** A pointer to a cache object: 0 is nil, p > 0 is the p-th object ever stored. */
  type Pointer = nat

  /** The way a call came to its answer. */
  datatype Path =
    | StatFailed                                // lines 113-118
    | UpToDate(certStat: Stamp, keyStat: Stamp) // line 123
    | Busy                                      // line 129
    | Superseded                                // line 138
    | LoadFailed                                // lines 142-147
    | Renewed                                   // line 151
    | Initialized                               // lines 38-47

  /** The pointer a call returns (0: it returns an error) and the path it took. */
  datatype Answer = Answer(ptr: Pointer, path: Path)

  datatype Stage =
    | CertStat
    | KeyStat(certStat: Stamp)
    | CertRead(certStat: Stamp, keyStat: Stamp)
    | KeyRead(certStat: Stamp, keyStat: Stamp, cert: Blob)
    | Commit(certStat: Stamp, keyStat: Stamp, cert: Blob, key: Blob)

  datatype PC =
    | Idle
    | Enter                                                     // line 110
    | StatCert(snap: Pointer)                                   // line 68
    | StatKey(snap: Pointer, certStat: Stamp)                   // line 75
    | Compare(snap: Pointer, certStat: Stamp, keyStat: Stamp)   // lines 121-127
    | Await(init: bool)                                         // lines 38 and 132
    | Recheck(snap: Pointer)                                    // line 136
    | Reload                                                    // line 138
    | Make(init: bool, snap: Pointer, stage: Stage)             // makeCache and the store
    | Unlock(answer: Answer)                                    // the deferred unlock
    | Crashed                                                   // a nil pointer was dereferenced

  /** How much had been recorded when a call began: calls returned, caches stored, versions of the two files. */
  datatype Since = Since(calls: nat, stores: nat, cert: nat, key: nat)

  /** A goroutine, and when its current call began. */
  datatype Thread = Thread(pc: PC, since: Since)

  /** A finished call. */
  datatype Done = Done(t: nat, since: Since, answer: Answer)

  datatype State = State(
    cert: File, key: File,
    lock: Option<nat>,
    cache: Pointer,
    published: seq<Cache>,
    threads: seq<Thread>,
    log: seq<Done>)

  /** Whether a certificate and a key parse and belong together. */
  type Match = (string, string) -> bool

  datatype Action =
    | WriteCert(v: Version)
    | WriteKey(v: Version)
    | Access(cert: (bool, bool), key: (bool, bool)) // files become (un)statable, (un)readable
    | Call(t: nat, init: bool)
    | Run(t: nat)
    | TryLockFails(t: nat) // the Go memory model lets TryLock fail on a free mutex

  predicate Fresh(f: File, v: Version) {
    forall i :: 0 <= i < |f.history| ==> f.history[i].modTime != v.modTime
  }

  predicate Enabled(s: State, a: Action) {
    match a
    case WriteCert(v) => Fresh(s.cert, v)
    case WriteKey(v) => Fresh(s.key, v)
    case Access(c, k) => (c.0 || c.1 ==> s.cert.history != []) && (k.0 || k.1 ==> s.key.history != [])
    case Call(t, _) => t < |s.threads| && s.threads[t].pc == Idle
    case Run(t) =>
      && t < |s.threads|
      && s.threads[t].pc !in {Idle, Crashed}
      && (s.threads[t].pc.Await? ==> s.lock == None)
      && (s.threads[t].pc.Compare? && s.threads[t].pc.snap != 0 && !SameTimes(s, s.threads[t].pc) ==> s.lock == None)
    case TryLockFails(t) =>
      && t < |s.threads|
      && s.threads[t].pc.Compare? && s.threads[t].pc.snap != 0 && !SameTimes(s, s.threads[t].pc)
  }

  /** The test of line 121. */
  predicate SameTimes(s: State, pc: PC)
    requires pc.Compare?
  {
    && 0 < pc.snap <= |s.published|
    && s.published[pc.snap - 1].certStamp.modTime == pc.certStat.modTime
    && s.published[pc.snap - 1].keyStamp.modTime == pc.keyStat.modTime
  }

  function StatOf(f: File): Stamp
    requires f.history != []
  {
    Stamp(f.Now(), f.history[f.Now()].modTime)
  }

  function ReadOf(f: File): Blob
    requires f.history != []
  {
    Blob(f.Now(), f.history[f.Now()].content)
  }

  predicate CanStat(f: File) { f.statable && f.history != [] }

  predicate CanRead(f: File) { f.readable && f.history != [] }

  /** What one shared access does to the goroutine's program counter and to the shared state. */
  datatype Effect =
    | Goto(pc: PC)
    | Lock(pc: PC)
    | Store(cache: Cache, init: bool)
    | Return(answer: Answer)
    | Release(answer: Answer)

  function Move(ok: Match, s: State, pc: PC): Effect {
    match pc
    case Enter => Goto(StatCert(s.cache))
    case StatCert(snap) =>
      if CanStat(s.cert) then Goto(StatKey(snap, StatOf(s.cert))) else Return(Answer(snap, StatFailed))
    case StatKey(snap, cs) =>
      if CanStat(s.key) then Goto(Compare(snap, cs, StatOf(s.key))) else Return(Answer(snap, StatFailed))
    case Compare(snap, cs, ks) =>
      if SameTimes(s, pc) then Return(Answer(snap, UpToDate(cs, ks)))
      else if snap != 0 then Lock(Recheck(snap))
      else Goto(Await(false))
    case Await(init) => Lock(if init then Make(true, 0, CertStat) else Recheck(0))
    case Recheck(snap) => Goto(if s.cache != snap then Reload else Make(false, snap, CertStat))
    case Reload => Goto(if s.cache == 0 then Crashed else Unlock(Answer(s.cache, Superseded)))
    case Make(init, snap, stage) => MakeMove(ok, s, init, snap, stage)
    case Unlock(answer) => Release(answer)
    case Idle => Goto(Idle)
    case Crashed => Goto(Crashed)
  }

  /** One shared access inside makeCache, or its final check with the store. */
  function MakeMove(ok: Match, s: State, init: bool, snap: Pointer, stage: Stage): Effect {
    var failed := Goto(Unlock(if init then Answer(0, Initialized) else Answer(snap, LoadFailed)));
    match stage
    case CertStat => if CanStat(s.cert) then Goto(Make(init, snap, KeyStat(StatOf(s.cert)))) else failed
    case KeyStat(cs) => if CanStat(s.key) then Goto(Make(init, snap, CertRead(cs, StatOf(s.key)))) else failed
    case CertRead(cs, ks) => if CanRead(s.cert) then Goto(Make(init, snap, KeyRead(cs, ks, ReadOf(s.cert)))) else failed
    case KeyRead(cs, ks, c) =>
      if CanRead(s.key) then Goto(Make(init, snap, Commit(cs, ks, c, ReadOf(s.key)))) else failed
    case Commit(cs, ks, c, k) => if ok(c.content, k.content) then Store(Cache(cs, ks, c, k), init) else failed
  }

  function Perform(s: State, t: nat, e: Effect): State
    requires t < |s.threads|
  {
    match e
    case Goto(pc) => At(s, t, pc)
    case Lock(pc) => At(s.(lock := Some(t)), t, pc)
    case Store(c, init) =>
      var p := |s.published| + 1;
      At(s.(published := s.published + [c], cache := p), t, Unlock(Answer(p, if init then Initialized else Renewed)))
    case Return(answer) => Finish(s, t, answer)
    case Release(answer) => Finish(s.(lock := None), t, answer)
  }

  function At(s: State, t: nat, pc: PC): State
    requires t < |s.threads|
  {
    s.(threads := s.threads[t := s.threads[t].(pc := pc)])
  }

  function Finish(s: State, t: nat, answer: Answer): State
    requires t < |s.threads|
  {
    At(s.(log := s.log + [Done(t, s.threads[t].since, answer)]), t, Idle)
  }

  function Apply(ok: Match, s: State, a: Action): State
    requires Enabled(s, a)
  {
    match a
    case WriteCert(v) => s.(cert := s.cert.(history := s.cert.history + [v]))
    case WriteKey(v) => s.(key := s.key.(history := s.key.history + [v]))
    case Access(c, k) =>
      s.(cert := s.cert.(statable := c.0, readable := c.1), key := s.key.(statable := k.0, readable := k.1))
    case Call(t, init) =>
      var since := Since(|s.log|, |s.published|, |s.cert.history|, |s.key.history|);
      s.(threads := s.threads[t := Thread(if init then Await(true) else Enter, since)])
    case Run(t) => Perform(s, t, Move(ok, s, s.threads[t].pc))
    case TryLockFails(t) => Perform(s, t, Return(Answer(s.threads[t].pc.snap, Busy)))
  }

  // ----- runs -------------------------------------------------------------

  ghost predicate Initial(s: State) {
    && s.cert.Valid() && s.key.Valid()
    && s.lock == None && s.cache == 0 && s.published == [] && s.log == []
    && forall t :: 0 <= t < |s.threads| ==> s.threads[t] == Thread(Idle, Since(0, 0, 0, 0))
  }

  /** s' follows from s by the given schedule. */
  ghost predicate Runs(ok: Match, s: State, schedule: seq<Action>, s': State)
    decreases |schedule|
  {
    if schedule == [] then s == s'
    else Enabled(s, schedule[0]) && Runs(ok, Apply(ok, s, schedule[0]), schedule[1..], s')
  }

  lemma {:induction false} RunsSnoc(ok: Match, s: State, schedule: seq<Action>, s': State, a: Action)
    requires Runs(ok, s, schedule, s') && Enabled(s', a)
    ensures Runs(ok, s, schedule + [a], Apply(ok, s', a))
    decreases |schedule|
  {
    if schedule == [] {
      assert schedule + [a] == [a] && [a][1..] == [];
    } else {
      RunsSnoc(ok, Apply(ok, s, schedule[0]), schedule[1..], s', a);
      assert (schedule + [a])[1..] == schedule[1..] + [a];
    }
  }

  /** A run goes on from wherever it has come to. */
  lemma {:induction false} RunsSuffix(
    ok: Match, s: State, first: seq<Action>, s1: State, schedule: seq<Action>, s2: State)
    requires Runs(ok, s, first, s1) && Runs(ok, s, schedule, s2) && first <= schedule
    ensures Runs(ok, s1, schedule[|first|..], s2)
    decreases |first|
  {
    if first != [] {
      RunsSuffix(ok, Apply(ok, s, first[0]), first[1..], s1, schedule[1..], s2);
      assert schedule[1..][|first| - 1..] == schedule[|first|..];
    } else {
      assert schedule[|first|..] == schedule;
    }
  }

  // ----- the invariant ----------------------------------------------------

  predicate Holds(pc: PC) {
    pc.Recheck? || pc.Reload? || pc.Make? || pc.Unlock? || pc.Crashed?
  }

  /** b was read no earlier than the last stored cache was. */
  predicate NotOlder(s: State, certVersion: nat, keyVersion: nat, p: Pointer) {
    0 < p <= |s.published| ==>
      s.published[p - 1].cert.version <= certVersion && s.published[p - 1].key.version <= keyVersion
  }

  predicate StageOk(s: State, since: Since, stage: Stage) {
    match stage
    case CertStat => true
    case KeyStat(cs) => StampOf(s.cert, cs)
    case CertRead(cs, ks) => StampOf(s.cert, cs) && StampOf(s.key, ks)
    case KeyRead(cs, ks, c) =>
      StampOf(s.cert, cs) && StampOf(s.key, ks) && BlobOf(s.cert, c) && cs.version <= c.version
      && since.cert <= c.version + 1
      && (s.cache > 0 && s.cache <= |s.published| ==> s.published[s.cache - 1].cert.version <= c.version)
    case Commit(cs, ks, c, k) =>
      && StampOf(s.cert, cs) && StampOf(s.key, ks) && BlobOf(s.cert, c) && BlobOf(s.key, k)
      && cs.version <= c.version && ks.version <= k.version
      && since.cert <= c.version + 1 && since.key <= k.version + 1
      && NotOlder(s, c.version, k.version, s.cache)
  }

  /** What a finished call's answer says about the call. */
  predicate AnswerOk(s: State, since: Since, a: Answer) {
    && a.ptr <= |s.published|
    && (a.path != Initialized || a.ptr != 0 ==> since.stores <= a.ptr)
    && (a.path.Renewed? || a.path.Superseded? || (a.path.Initialized? && a.ptr != 0) ==> since.stores < a.ptr)
    && (a.ptr == 0 ==> a.path.StatFailed? || a.path.LoadFailed? || a.path.Initialized?)
    && (a.path.UpToDate? || a.path.Renewed? || (a.path.Initialized? && a.ptr != 0) ==>
          && 0 < a.ptr
          && since.cert <= s.published[a.ptr - 1].cert.version + 1
          && since.key <= s.published[a.ptr - 1].key.version + 1)
    && (a.path.UpToDate? ==>
          && 0 < a.ptr
          && StampOf(s.cert, a.path.certStat) && StampOf(s.key, a.path.keyStat)
          && s.published[a.ptr - 1].cert.version == a.path.certStat.version
          && s.published[a.ptr - 1].key.version == a.path.keyStat.version)
  }

  predicate PcOk(s: State, since: Since, pc: PC) {
    match pc
    case StatCert(snap) => since.stores <= snap <= s.cache
    case StatKey(snap, cs) =>
      && since.stores <= snap <= s.cache && StampOf(s.cert, cs) && since.cert <= cs.version + 1
      && (0 < snap <= |s.published| ==> s.published[snap - 1].cert.version <= cs.version)
    case Compare(snap, cs, ks) =>
      && since.stores <= snap <= s.cache && StampOf(s.cert, cs) && StampOf(s.key, ks)
      && since.cert <= cs.version + 1 && since.key <= ks.version + 1
      && NotOlder(s, cs.version, ks.version, snap)
    case Await(init) => init || since.stores == 0
    case Recheck(snap) => since.stores <= snap <= s.cache
    case Reload => since.stores < s.cache
    case Make(init, snap, stage) => (!init ==> since.stores <= snap == s.cache) && StageOk(s, since, stage)
    case Unlock(a) => AnswerOk(s, since, a)
    case Crashed => false
    case _ => true
  }

  predicate CacheOk(ok: Match, s: State, c: Cache) {
    && StampOf(s.cert, c.certStamp) && StampOf(s.key, c.keyStamp)
    && BlobOf(s.cert, c.cert) && BlobOf(s.key, c.key)
    && c.certStamp.version <= c.cert.version && c.keyStamp.version <= c.key.version
    && ok(c.cert.content, c.key.content)
  }

  predicate Past(s: State, since: Since) {
    since.stores <= |s.published| && since.cert <= |s.cert.history| && since.key <= |s.key.history|
  }

  /** The calls that had returned by then were answered with what had been stored by then. */
  predicate Before(s: State, since: Since) {
    Past(s, since) && since.calls <= |s.log| && forall i :: 0 <= i < since.calls ==> s.log[i].answer.ptr <= since.stores
  }

  /** Every stored cache is what its stamps say, and later ones were read later. */
  ghost predicate StoreOk(ok: Match, s: State) {
    && s.cert.Valid() && s.key.Valid()
    && s.cache == |s.published|
    && (forall k :: 0 <= k < |s.published| ==> CacheOk(ok, s, s.published[k]))
    && (forall j, k :: 0 <= j < k < |s.published| ==>
          && s.published[j].cert.version <= s.published[k].cert.version
          && s.published[j].key.version <= s.published[k].key.version)
  }

  ghost predicate LockOk(s: State) {
    forall t :: 0 <= t < |s.threads| ==> (Holds(s.threads[t].pc) <==> s.lock == Some(t))
  }

  ghost predicate ThreadsOk(s: State) {
    forall t :: 0 <= t < |s.threads| ==>
      && PcOk(s, s.threads[t].since, s.threads[t].pc)
      && Before(s, s.threads[t].since)
  }

  ghost predicate LogOk(s: State) {
    forall j :: 0 <= j < |s.log| ==>
      && AnswerOk(s, s.log[j].since, s.log[j].answer)
      && s.log[j].since.calls <= j
      && Before(s, s.log[j].since)
  }

  ghost predicate Inv(ok: Match, s: State) {
    StoreOk(ok, s) && LockOk(s) && ThreadsOk(s) && LogOk(s)
  }

  /** Histories, stored caches and the log only grow. */
  ghost predicate Extends(s: State, s': State) {
    && s.cert.history <= s'.cert.history && s.key.history <= s'.key.history
    && s.published <= s'.published && s.cache <= s'.cache && s.log <= s'.log
  }

  /** Facts about a goroutine survive the others' steps: only the lock holder relies on the cache standing still. */
  lemma OthersKeepPcOk(s: State, s': State, since: Since, pc: PC)
    requires Extends(s, s') && PcOk(s, since, pc)
    requires s.cache == |s.published|
    requires Holds(pc) && !pc.Unlock? ==> s'.cache == s.cache && s'.published == s.published
    ensures PcOk(s', since, pc)
  {
  }

  lemma ExtendsKeepsRecords(ok: Match, s: State, s': State)
    requires StoreOk(ok, s) && LogOk(s) && Extends(s, s')
    ensures forall k :: 0 <= k < |s.published| ==> CacheOk(ok, s', s.published[k])
    ensures forall j :: 0 <= j < |s.log| ==>
      AnswerOk(s', s.log[j].since, s.log[j].answer) && Before(s', s.log[j].since)
  {
  }

  /** What an effect must respect, for a goroutine whose call began at `since` and that is at `pc`. */
  ghost predicate EffectOk(ok: Match, s: State, since: Since, pc: PC, e: Effect) {
    match e
    case Goto(pc') => PcOk(s, since, pc') && (Holds(pc') <==> Holds(pc))
    case Lock(pc') => PcOk(s, since, pc') && Holds(pc') && !Holds(pc)
    case Store(c, init) =>
      && CacheOk(ok, s, c) && NotOlder(s, c.cert.version, c.key.version, s.cache) && Holds(pc)
      && since.cert <= c.cert.version + 1 && since.key <= c.key.version + 1
    case Return(a) => AnswerOk(s, since, a) && !Holds(pc)
    case Release(a) => AnswerOk(s, since, a) && Holds(pc)
  }

  /** The heart of coherence. The cached contents were read at or after the
      version whose time was recorded, and before this call's stats; if both
      ends carry the same time, nothing lies between them. */
  lemma UpToDateIsCurrent(ok: Match, s: State, since: Since, pc: PC)
    requires StoreOk(ok, s) && PcOk(s, since, pc) && pc.Compare? && SameTimes(s, pc)
    ensures AnswerOk(s, since, Answer(pc.snap, UpToDate(pc.certStat, pc.keyStat)))
  {
    var c := s.published[pc.snap - 1];
    assert CacheOk(ok, s, c);
    assert c.certStamp.version == pc.certStat.version && c.keyStamp.version == pc.keyStat.version;
  }

  lemma MakeMoveOk(ok: Match, s: State, since: Since, init: bool, snap: Pointer, stage: Stage)
    requires StoreOk(ok, s) && Past(s, since) && PcOk(s, since, Make(init, snap, stage))
    ensures EffectOk(ok, s, since, Make(init, snap, stage), MakeMove(ok, s, init, snap, stage))
  {
    if stage.CertRead? {
      CertReadOk(ok, s, since, init, snap, stage);
    } else if stage.KeyRead? {
      StoredIsPast(ok, s);
      if CanRead(s.key) { KeyReadOk(s, since, stage); }
    } else if stage.Commit? {
      CommitMoveOk(ok, s, since, init, snap, stage);
    } else {
      StatStageMoveOk(ok, s, since, init, snap, stage);
    }
  }

  lemma CommitMoveOk(ok: Match, s: State, since: Since, init: bool, snap: Pointer, stage: Stage)
    requires s.cache == |s.published| && Past(s, since) && PcOk(s, since, Make(init, snap, stage)) && stage.Commit?
    ensures EffectOk(ok, s, since, Make(init, snap, stage), MakeMove(ok, s, init, snap, stage))
  {
  }

  lemma StatStageMoveOk(ok: Match, s: State, since: Since, init: bool, snap: Pointer, stage: Stage)
    requires s.cache == |s.published| && Past(s, since) && PcOk(s, since, Make(init, snap, stage))
    requires stage.CertStat? || stage.KeyStat?
    ensures EffectOk(ok, s, since, Make(init, snap, stage), MakeMove(ok, s, init, snap, stage))
  {
  }

  predicate LastIsPast(s: State) {
    s.published != [] ==>
      var last := s.published[|s.published| - 1];
      last.cert.version < |s.cert.history| && last.key.version < |s.key.history|
  }

  lemma StoredIsPast(ok: Match, s: State)
    requires StoreOk(ok, s)
    ensures LastIsPast(s)
  {
    assert s.published != [] ==> CacheOk(ok, s, s.published[|s.published| - 1]);
  }

  lemma CertReadOk(ok: Match, s: State, since: Since, init: bool, snap: Pointer, stage: Stage)
    requires StoreOk(ok, s) && Past(s, since) && PcOk(s, since, Make(init, snap, stage)) && stage.CertRead?
    ensures EffectOk(ok, s, since, Make(init, snap, stage), MakeMove(ok, s, init, snap, stage))
  {
    StoredIsPast(ok, s);
  }

  lemma KeyReadOk(s: State, since: Since, stage: Stage)
    requires s.cache == |s.published| && Past(s, since) && CanRead(s.key) && LastIsPast(s)
    requires StageOk(s, since, stage) && stage.KeyRead?
    ensures StageOk(s, since, Commit(stage.certStat, stage.keyStat, stage.cert, ReadOf(s.key)))
  {
  }

  lemma StatMoveOk(ok: Match, s: State, since: Since, pc: PC)
    requires StoreOk(ok, s) && Past(s, since) && PcOk(s, since, pc) && (pc.StatCert? || pc.StatKey?)
    ensures EffectOk(ok, s, since, pc, Move(ok, s, pc))
  {
  }

  /** The moves that neither look at the disk nor at a cache's contents. */
  lemma LocalMoveOk(ok: Match, s: State, since: Since, pc: PC)
    requires s.cache == |s.published| && Past(s, since) && PcOk(s, since, pc)
    requires !pc.Make? && !pc.StatCert? && !pc.StatKey? && (pc.Compare? ==> !SameTimes(s, pc))
    ensures EffectOk(ok, s, since, pc, Move(ok, s, pc))
  {
  }

  lemma MoveOk(ok: Match, s: State, since: Since, pc: PC)
    requires StoreOk(ok, s) && Past(s, since) && PcOk(s, since, pc)
    ensures EffectOk(ok, s, since, pc, Move(ok, s, pc))
  {
    if pc.Make? {
      MakeMoveOk(ok, s, since, pc.init, pc.snap, pc.stage);
    } else if pc.StatCert? || pc.StatKey? {
      StatMoveOk(ok, s, since, pc);
    } else if pc.Compare? && SameTimes(s, pc) {
      UpToDateIsCurrent(ok, s, since, pc);
    } else {
      LocalMoveOk(ok, s, since, pc);
    }
  }

  lemma PublishKeepsStore(ok: Match, s: State, c: Cache)
    requires StoreOk(ok, s) && CacheOk(ok, s, c) && NotOlder(s, c.cert.version, c.key.version, s.cache)
    ensures StoreOk(ok, s.(published := s.published + [c], cache := s.cache + 1))
  {
  }

  lemma StoreOkDependsOnStore(ok: Match, s: State, s': State)
    requires StoreOk(ok, s)
    requires s'.cert == s.cert && s'.key == s.key && s'.cache == s.cache && s'.published == s.published
    ensures StoreOk(ok, s')
  {
  }

  lemma PerformKeepsStore(ok: Match, s: State, t: nat, e: Effect)
    requires StoreOk(ok, s) && t < |s.threads| && EffectOk(ok, s, s.threads[t].since, s.threads[t].pc, e)
    ensures StoreOk(ok, Perform(s, t, e))
  {
    if e.Store? {
      PublishKeepsStore(ok, s, e.cache);
      StoreOkDependsOnStore(ok, s.(published := s.published + [e.cache], cache := s.cache + 1), Perform(s, t, e));
    } else {
      StoreOkDependsOnStore(ok, s, Perform(s, t, e));
    }
  }

  lemma PerformKeepsLock(ok: Match, s: State, t: nat, e: Effect)
    requires LockOk(s) && t < |s.threads| && EffectOk(ok, s, s.threads[t].since, s.threads[t].pc, e)
    requires e.Lock? ==> s.lock == None
    ensures LockOk(Perform(s, t, e))
  {
  }

  lemma PerformExtends(ok: Match, s: State, t: nat, e: Effect)
    requires t < |s.threads| && s.cache == |s.published|
    ensures Extends(s, Perform(s, t, e))
  {
  }

  lemma PerformKeepsOwnPc(ok: Match, s: State, t: nat, e: Effect)
    requires StoreOk(ok, s) && t < |s.threads| && EffectOk(ok, s, s.threads[t].since, s.threads[t].pc, e)
    requires Past(s, s.threads[t].since)
    ensures PcOk(Perform(s, t, e), s.threads[t].since, Perform(s, t, e).threads[t].pc)
  {
    var s' := Perform(s, t, e);
    if e.Goto? || e.Lock? {
      PcOkDependsOnStore(s, s', s.threads[t].since, e.pc);
    }
  }

  lemma PcOkDependsOnStore(s: State, s': State, since: Since, pc: PC)
    requires PcOk(s, since, pc)
    requires s'.cert == s.cert && s'.key == s.key && s'.cache == s.cache && s'.published == s.published
    ensures PcOk(s', since, pc)
  {
  }

  lemma PerformKeepsThreads(ok: Match, s: State, t: nat, e: Effect)
    requires Inv(ok, s) && t < |s.threads| && EffectOk(ok, s, s.threads[t].since, s.threads[t].pc, e)
    ensures ThreadsOk(Perform(s, t, e))
  {
    var s' := Perform(s, t, e);
    PerformExtends(ok, s, t, e);
    PerformKeepsOwnPc(ok, s, t, e);
    forall u | 0 <= u < |s'.threads|
      ensures PcOk(s', s'.threads[u].since, s'.threads[u].pc)
      ensures Before(s', s'.threads[u].since)
    {
      if u != t { OthersKeepPcOk(s, s', s.threads[u].since, s.threads[u].pc); }
    }
  }

  lemma PerformKeepsLog(ok: Match, s: State, t: nat, e: Effect)
    requires Inv(ok, s) && t < |s.threads| && EffectOk(ok, s, s.threads[t].since, s.threads[t].pc, e)
    ensures LogOk(Perform(s, t, e))
  {
    PerformExtends(ok, s, t, e);
    ExtendsKeepsRecords(ok, s, Perform(s, t, e));
  }

  lemma PerformKeepsInv(ok: Match, s: State, t: nat, e: Effect)
    requires Inv(ok, s) && t < |s.threads| && EffectOk(ok, s, s.threads[t].since, s.threads[t].pc, e)
    requires e.Lock? ==> s.lock == None
    ensures Inv(ok, Perform(s, t, e)) && Extends(s, Perform(s, t, e))
  {
    PerformKeepsStore(ok, s, t, e);
    PerformKeepsLock(ok, s, t, e);
    PerformKeepsThreads(ok, s, t, e);
    PerformKeepsLog(ok, s, t, e);
    PerformExtends(ok, s, t, e);
  }

  lemma StepKeepsInv(ok: Match, s: State, a: Action)
    requires Inv(ok, s) && Enabled(s, a)
    ensures Inv(ok, Apply(ok, s, a)) && Extends(s, Apply(ok, s, a))
  {
    match a
    case Run(t) =>
      MoveOk(ok, s, s.threads[t].since, s.threads[t].pc);
      PerformKeepsInv(ok, s, t, Move(ok, s, s.threads[t].pc));
    case TryLockFails(t) =>
      PerformKeepsInv(ok, s, t, Return(Answer(s.threads[t].pc.snap, Busy)));
    case _ =>
      EnvironmentKeepsInv(ok, s, a);
  }

  lemma EnvironmentKeepsInv(ok: Match, s: State, a: Action)
    requires Inv(ok, s) && Enabled(s, a) && !a.Run? && !a.TryLockFails?
    ensures Inv(ok, Apply(ok, s, a)) && Extends(s, Apply(ok, s, a))
  {
    var s' := Apply(ok, s, a);
    ExtendsKeepsRecords(ok, s, s');
    forall u | 0 <= u < |s'.threads|
      ensures PcOk(s', s'.threads[u].since, s'.threads[u].pc)
      ensures Before(s', s'.threads[u].since)
    {
      OthersKeepPcOk(s, s', s.threads[u].since, s.threads[u].pc);
    }
  }

  lemma {:induction false} RunKeepsInv(ok: Match, s: State, schedule: seq<Action>, s': State)
    requires Inv(ok, s) && Runs(ok, s, schedule, s')
    ensures Inv(ok, s') && Extends(s, s')
    decreases |schedule|
  {
    if schedule != [] {
      StepKeepsInv(ok, s, schedule[0]);
      RunKeepsInv(ok, Apply(ok, s, schedule[0]), schedule[1..], s');
    }
  }

  ghost predicate Reachable(ok: Match, s: State) {
    exists s0, schedule :: Initial(s0) && Runs(ok, s0, schedule, s)
  }

  lemma ReachableInv(ok: Match, s: State)
    requires Reachable(ok, s)
    ensures Inv(ok, s)
  {
    var s0, schedule :| Initial(s0) && Runs(ok, s0, schedule, s);
    RunKeepsInv(ok, s0, schedule, s);
  }

  /** What goroutine t may count on while others move: records grow, its own place stays, and under its lock the
      cache stands still. */
  ghost predicate Rely(s: State, s': State, t: nat) {
    && Extends(s, s') && (s'.lock == Some(t) <==> s.lock == Some(t))
    && (s.lock == Some(t) ==> s'.cache == s.cache && s'.published == s.published)
    && |s'.threads| == |s.threads| && (t < |s.threads| ==> s'.threads[t] == s.threads[t])
  }

  predicate ActionOf(a: Action, t: nat) {
    (a.Call? || a.Run? || a.TryLockFails?) && a.t == t
  }

  /** No action of goroutine t occurs. */
  predicate Spares(schedule: seq<Action>, t: nat) {
    forall i :: 0 <= i < |schedule| ==> !ActionOf(schedule[i], t)
  }

  lemma OtherGrantsRely(ok: Match, s: State, a: Action, t: nat)
    requires Inv(ok, s) && Enabled(s, a) && t < |s.threads| && !ActionOf(a, t)
    ensures Rely(s, Apply(ok, s, a), t)
  {
    StepKeepsInv(ok, s, a);
    if a.Run? {
      assert Holds(s.threads[a.t].pc) <==> s.lock == Some(a.t);
      MoveOk(ok, s, s.threads[a.t].since, s.threads[a.t].pc);
    }
  }

  /** Whatever the disk and the other goroutines do, in any number of steps, grants it. */
  lemma {:induction false} OthersGrantRely(ok: Match, s: State, schedule: seq<Action>, s': State, t: nat)
    requires Inv(ok, s) && Runs(ok, s, schedule, s') && t < |s.threads| && Spares(schedule, t)
    ensures Rely(s, s', t)
    decreases |schedule|
  {
    if schedule != [] {
      var s1 := Apply(ok, s, schedule[0]);
      OtherGrantsRely(ok, s, schedule[0], t);
      StepKeepsInv(ok, s, schedule[0]);
      OthersGrantRely(ok, s1, schedule[1..], s', t);
      RelyTransitive(s, s1, s', t);
    }
  }

  /** What a goroutine has seen to differ goes on differing: stored caches do not change. */
  lemma StillDiffers(s: State, s': State, pc: PC)
    requires pc.Compare? && pc.snap <= |s.published| && s.published <= s'.published && !SameTimes(s, pc)
    ensures !SameTimes(s', pc)
  {
  }

  lemma RelyTransitive(s: State, s1: State, s2: State, t: nat)
    requires Rely(s, s1, t) && Rely(s1, s2, t)
    ensures Rely(s, s2, t)
  {
  }

  // ----- main results -----------------------------------------------------

  /** The certificate a successful answer serves. */
  function Served(s: State, a: Answer): Cache
    requires 0 < a.ptr <= |s.published|
  {
    s.published[a.ptr - 1]
  }

  /** Coherence: in every schedule, an answer given on the up-to-date branch is exactly the
      certificate file as of that call's certificate stat and the key file as of its key stat. */
  lemma UpToDateAnswersMatchDisk(ok: Match, s: State, j: nat)
    requires Reachable(ok, s) && j < |s.log| && s.log[j].answer.path.UpToDate?
    ensures
      var a := s.log[j].answer;
      && 0 < a.ptr <= |s.published|
      && a.path.certStat.version < |s.cert.history| && a.path.keyStat.version < |s.key.history|
      && Served(s, a).cert.content == s.cert.history[a.path.certStat.version].content
      && Served(s, a).key.content == s.key.history[a.path.keyStat.version].content
  {
    ReachableInv(ok, s);
    assert AnswerOk(s, s.log[j].since, s.log[j].answer);
    assert CacheOk(ok, s, Served(s, s.log[j].answer));
  }

  /** Freshness: a certificate served as up to date or just loaded is no older than the files were when the call
      began. */
  lemma FreshAnswersAreCurrent(ok: Match, s: State, j: nat)
    requires Reachable(ok, s) && j < |s.log| && (s.log[j].answer.path.UpToDate? || s.log[j].answer.path.Renewed?)
    ensures
      var a := s.log[j].answer;
      && 0 < a.ptr <= |s.published|
      && s.log[j].since.cert <= Served(s, a).cert.version + 1 <= |s.cert.history|
      && s.log[j].since.key <= Served(s, a).key.version + 1 <= |s.key.history|
  {
    ReachableInv(ok, s);
    assert AnswerOk(s, s.log[j].since, s.log[j].answer);
    assert CacheOk(ok, s, Served(s, s.log[j].answer));
  }

  /** Every certificate ever served came from the files and passed the key-match check. */
  lemma ServedPairsMatch(ok: Match, s: State, j: nat)
    requires Reachable(ok, s) && j < |s.log| && s.log[j].answer.ptr != 0
    ensures
      var a := s.log[j].answer;
      && a.ptr <= |s.published|
      && BlobOf(s.cert, Served(s, a).cert) && BlobOf(s.key, Served(s, a).key)
      && ok(Served(s, a).cert.content, Served(s, a).key.content)
  {
    ReachableInv(ok, s);
    assert AnswerOk(s, s.log[j].since, s.log[j].answer);
    assert CacheOk(ok, s, Served(s, s.log[j].answer));
  }

  /** File versions in successive stored caches never decrease. */
  lemma StoredVersionsNeverDecrease(ok: Match, s: State, j: nat, k: nat)
    requires Reachable(ok, s) && j <= k < |s.published|
    ensures s.published[j].cert.version <= s.published[k].cert.version
    ensures s.published[j].key.version <= s.published[k].key.version
  {
    ReachableInv(ok, s);
  }

  /** Real-time monotonicity: if call i had returned when lookup j began and i got a
      certificate, j gets one too, and neither its certificate nor its key is older. */
  lemma LaterCallsNeverServeOlder(ok: Match, s: State, i: nat, j: nat)
    requires Reachable(ok, s) && i < j < |s.log| && i < s.log[j].since.calls
    requires !s.log[j].answer.path.Initialized? && s.log[i].answer.ptr != 0
    ensures
      var a, b := s.log[i].answer, s.log[j].answer;
      && 0 < a.ptr <= b.ptr <= |s.published|
      && Served(s, a).cert.version <= Served(s, b).cert.version
      && Served(s, a).key.version <= Served(s, b).key.version
  {
    ReachableInv(ok, s);
    assert AnswerOk(s, s.log[j].since, s.log[j].answer);
    assert Before(s, s.log[j].since);
  }

  /** A lookup that begins when some cache has been stored never returns an error. */
  lemma NoErrorOnceStored(ok: Match, s: State, j: nat)
    requires Reachable(ok, s) && j < |s.log| && !s.log[j].answer.path.Initialized?
    requires 0 < s.log[j].since.stores
    ensures 0 < s.log[j].answer.ptr <= |s.published|
  {
    ReachableInv(ok, s);
    assert AnswerOk(s, s.log[j].since, s.log[j].answer);
  }

  /** The mutex makes the store a compare-and-swap: the pointer only moves under the lock, by one
      store of the holder, and a lookup's store replaces the very snapshot it loaded on entry. */
  lemma StoreReplacesSnapshot(ok: Match, s: State, a: Action)
    requires Reachable(ok, s) && Enabled(s, a) && Apply(ok, s, a).cache != s.cache
    ensures a.Run? && s.lock == Some(a.t) && Apply(ok, s, a).cache == s.cache + 1
    ensures s.threads[a.t].pc.Make? && (!s.threads[a.t].pc.init ==> s.threads[a.t].pc.snap == s.cache)
  {
    ReachableInv(ok, s);
    if a.Run? {
      assert PcOk(s, s.threads[a.t].since, s.threads[a.t].pc);
      assert Holds(s.threads[a.t].pc) <==> s.lock == Some(a.t);
    }
  }

  /** The pointer never goes back to nil, so line 138 never dereferences nil. */
  lemma NeverCrashes(ok: Match, s: State, schedule: seq<Action>, s': State, t: nat)
    requires Reachable(ok, s) && Runs(ok, s, schedule, s') && t < |s'.threads|
    ensures s.cache <= s'.cache && s'.threads[t].pc != Crashed
  {
    ReachableInv(ok, s);
    RunKeepsInv(ok, s, schedule, s');
    assert PcOk(s', s'.threads[t].since, s'.threads[t].pc);
  }

  // ----- one call on its own ----------------------------------------------

  function Rank(pc: PC): nat {
    match pc
    case Idle => 0
    case Crashed => 0
    case Unlock(_) => 1
    case Reload => 2
    case Make(_, _, stage) =>
      (match stage
       case Commit(_, _, _, _) => 2
       case KeyRead(_, _, _) => 3
       case CertRead(_, _) => 4
       case KeyStat(_) => 5
       case CertStat => 6)
    case Recheck(_) => 7
    case Await(_) => 8
    case Compare(_, _, _) => 9
    case StatKey(_, _) => 10
    case StatCert(_) => 11
    case Enter => 12
  }

  /** Goroutine t runs to the end of its call while nobody else moves. */
  function Solo(ok: Match, s: State, t: nat): State
    requires t < |s.threads|
    decreases Rank(s.threads[t].pc)
  {
    if s.threads[t].pc in {Idle, Crashed} then s
    else Solo(ok, Perform(s, t, Move(ok, s, s.threads[t].pc)), t)
  }

  /** With the lock free or its own, a goroutine is never blocked, so Solo is a run of the machine. */
  lemma {:induction false} SoloIsRun(ok: Match, s: State, t: nat) returns (schedule: seq<Action>)
    requires t < |s.threads| && LockOk(s) && (s.lock == None || s.lock == Some(t))
    ensures Runs(ok, s, schedule, Solo(ok, s, t))
    decreases Rank(s.threads[t].pc)
  {
    if s.threads[t].pc in {Idle, Crashed} {
      schedule := [];
    } else {
      var rest := SoloIsRun(ok, Perform(s, t, Move(ok, s, s.threads[t].pc)), t);
      schedule := [Run(t)] + rest;
      assert schedule[1..] == rest;
    }
  }

  /** The pair on disk can be loaded right now. */
  predicate Loadable(ok: Match, s: State) {
    && CanStat(s.cert) && CanStat(s.key) && CanRead(s.cert) && CanRead(s.key)
    && ok(ReadOf(s.cert).content, ReadOf(s.key).content)
  }

  /** The uncached specification: the pair on disk if it loads, else the last good pair, else an error. */
  predicate ServesDisk(ok: Match, s: State, s': State, a: Answer) {
    if Loadable(ok, s) then
      && 0 < a.ptr <= |s'.published|
      && Served(s', a).cert.content == ReadOf(s.cert).content
      && Served(s', a).key.content == ReadOf(s.key).content
    else a.ptr == s.cache && s'.published == s.published
  }

  /** t's moves from pc in s end in answer a, having stored `stored`. */
  ghost predicate Ends(ok: Match, s: State, t: nat, pc: PC, a: Answer, stored: seq<Cache>)
    requires t < |s.threads|
  {
    Solo(ok, At(s, t, pc), t) ==
      Finish(s.(lock := None, published := s.published + stored, cache := s.cache + |stored|), t, a)
  }

  lemma SoloGoto(ok: Match, s: State, t: nat, pc: PC, pc': PC, a: Answer, stored: seq<Cache>)
    requires t < |s.threads| && pc !in {Idle, Crashed} && Move(ok, s, pc) == Goto(pc') && Ends(ok, s, t, pc', a, stored)
    ensures Ends(ok, s, t, pc, a, stored)
  {
    var s1 := At(s, t, pc);
    assert Move(ok, s1, pc) == Goto(pc') by { MoveIgnoresThreads(ok, s, s1, pc); }
    assert At(s1, t, pc') == At(s, t, pc');
  }

  lemma MoveIgnoresThreads(ok: Match, s: State, s1: State, pc: PC)
    requires s1 == s.(threads := s1.threads)
    ensures Move(ok, s1, pc) == Move(ok, s, pc)
  {
  }

  lemma SoloUnlock(ok: Match, s: State, t: nat, a: Answer)
    requires t < |s.threads|
    ensures Ends(ok, s, t, Unlock(a), a, [])
  {
  }

  lemma SoloLock(ok: Match, s: State, t: nat, pc: PC, pc': PC, a: Answer, stored: seq<Cache>)
    requires t < |s.threads| && pc !in {Idle, Crashed} && Move(ok, s, pc) == Lock(pc')
    requires Ends(ok, s.(lock := Some(t)), t, pc', a, stored)
    ensures Ends(ok, s, t, pc, a, stored)
  {
    var s1 := At(s, t, pc);
    assert Move(ok, s1, pc) == Lock(pc') by { MoveIgnoresThreads(ok, s, s1, pc); }
    assert At(s1.(lock := Some(t)), t, pc') == At(s.(lock := Some(t)), t, pc');
  }

  lemma SoloReturn(ok: Match, s: State, t: nat, pc: PC, a: Answer)
    requires t < |s.threads| && s.lock == None && pc !in {Idle, Crashed} && Move(ok, s, pc) == Return(a)
    ensures Ends(ok, s, t, pc, a, [])
  {
  }

  lemma SoloCommit(ok: Match, s: State, t: nat, init: bool, snap: Pointer, cs: Stamp, ks: Stamp, c: Blob, k: Blob)
    requires t < |s.threads| && s.cache == |s.published| && ok(c.content, k.content)
    ensures Ends(ok, s, t, Make(init, snap, Commit(cs, ks, c, k)),
      Answer(s.cache + 1, if init then Initialized else Renewed), [Cache(cs, ks, c, k)])
  {
    var s1 := At(s, t, Make(init, snap, Commit(cs, ks, c, k)));
    var s2 := s.(published := s.published + [Cache(cs, ks, c, k)], cache := s.cache + 1);
    SoloUnlock(ok, s2, t, Answer(s.cache + 1, if init then Initialized else Renewed));
    assert Perform(s1, t, Store(Cache(cs, ks, c, k), init)) == At(s2, t,
      Unlock(Answer(s.cache + 1, if init then Initialized else Renewed)));
    assert s2.published + [] == s2.published;
  }

  /** makeCache, left alone, stores the pair on disk if it loads and gives the snapshot back otherwise. */
  lemma SoloMake(ok: Match, s: State, t: nat, init: bool, snap: Pointer) returns (a: Answer, stored: seq<Cache>)
    requires t < |s.threads| && s.cache == |s.published|
    ensures Ends(ok, s, t, Make(init, snap, CertStat), a, stored)
    ensures if Loadable(ok, s)
      then a.ptr == s.cache + 1 && |stored| == 1 && stored[0].cert == ReadOf(s.cert) && stored[0].key == ReadOf(s.key)
      else a.ptr == (if init then 0 else snap) && stored == []
    ensures !a.path.UpToDate? && (init ==> a.path == Initialized)
  {
    a, stored := if init then Answer(0, Initialized) else Answer(snap, LoadFailed), [];
    var p0 := Make(init, snap, CertStat);
    SoloUnlock(ok, s, t, a);
    if !CanStat(s.cert) { SoloGoto(ok, s, t, p0, Unlock(a), a, stored); return; }
    var cs := StatOf(s.cert);
    var p1 := Make(init, snap, KeyStat(cs));
    if !CanStat(s.key) {
      SoloGoto(ok, s, t, p1, Unlock(a), a, stored);
    } else {
      var ks := StatOf(s.key);
      a, stored := SoloRead(ok, s, t, init, snap, cs, ks);
      SoloGoto(ok, s, t, p1, Make(init, snap, CertRead(cs, ks)), a, stored);
    }
    SoloGoto(ok, s, t, p0, p1, a, stored);
  }

  lemma SoloRead(ok: Match, s: State, t: nat, init: bool, snap: Pointer, cs: Stamp, ks: Stamp)
    returns (a: Answer, stored: seq<Cache>)
    requires t < |s.threads| && s.cache == |s.published|
    ensures Ends(ok, s, t, Make(init, snap, CertRead(cs, ks)), a, stored)
    ensures if CanRead(s.cert) && CanRead(s.key) && ok(ReadOf(s.cert).content, ReadOf(s.key).content)
      then a.ptr == s.cache + 1 && |stored| == 1 && stored[0].cert == ReadOf(s.cert) && stored[0].key == ReadOf(s.key)
      else a.ptr == (if init then 0 else snap) && stored == []
    ensures !a.path.UpToDate? && (init ==> a.path == Initialized)
  {
    a, stored := if init then Answer(0, Initialized) else Answer(snap, LoadFailed), [];
    var p0 := Make(init, snap, CertRead(cs, ks));
    SoloUnlock(ok, s, t, a);
    if !CanRead(s.cert) { SoloGoto(ok, s, t, p0, Unlock(a), a, stored); return; }
    var c := ReadOf(s.cert);
    var p1 := Make(init, snap, KeyRead(cs, ks, c));
    if !CanRead(s.key) {
      SoloGoto(ok, s, t, p1, Unlock(a), a, stored);
    } else {
      var k := ReadOf(s.key);
      var p2 := Make(init, snap, Commit(cs, ks, c, k));
      if ok(c.content, k.content) {
        a, stored := Answer(s.cache + 1, if init then Initialized else Renewed), [Cache(cs, ks, c, k)];
        SoloCommit(ok, s, t, init, snap, cs, ks, c, k);
      } else {
        SoloGoto(ok, s, t, p2, Unlock(a), a, stored);
      }
      SoloGoto(ok, s, t, p1, p2, a, stored);
    }
    SoloGoto(ok, s, t, p0, p1, a, stored);
  }

  /** From the comparison on, with the lock free. */
  lemma SoloCompare(ok: Match, s: State, t: nat) returns (a: Answer, stored: seq<Cache>)
    requires Inv(ok, s) && t < |s.threads| && s.lock == None && CanStat(s.cert) && CanStat(s.key)
    ensures Ends(ok, s, t, Compare(s.cache, StatOf(s.cert), StatOf(s.key)), a, stored)
    ensures stored == []
      || (Loadable(ok, s) && |stored| == 1 && stored[0].cert == ReadOf(s.cert) && stored[0].key == ReadOf(s.key))
    ensures a.path.UpToDate? <==> SameTimes(s, Compare(s.cache, StatOf(s.cert), StatOf(s.key)))
    ensures a.path.UpToDate? ==> stored == []
    ensures stored == [] ==> a.ptr == s.cache
    ensures stored != [] ==> a.ptr == s.cache + 1
    ensures Loadable(ok, s) && stored == [] ==>
      0 < s.cache && s.published[s.cache - 1].cert == ReadOf(s.cert) && s.published[s.cache - 1].key == ReadOf(s.key)
  {
    var p0 := Compare(s.cache, StatOf(s.cert), StatOf(s.key));
    var p2 := Recheck(s.cache);
    if SameTimes(s, p0) {
      a, stored := Answer(s.cache, UpToDate(p0.certStat, p0.keyStat)), [];
      SoloReturn(ok, s, t, p0, a);
      CachedIsCurrent(ok, s);
    } else {
      var locked := s.(lock := Some(t));
      a, stored := SoloMake(ok, locked, t, false, s.cache);
      SoloGoto(ok, locked, t, p2, Make(false, s.cache, CertStat), a, stored);
      if s.cache != 0 {
        SoloLock(ok, s, t, p0, p2, a, stored);
      } else {
        SoloLock(ok, s, t, Await(false), p2, a, stored);
        SoloGoto(ok, s, t, p0, Await(false), a, stored);
      }
    }
  }

  /** If both recorded times are the current ones, the cached pair is the pair on disk. */
  lemma CachedIsCurrent(ok: Match, s: State)
    requires StoreOk(ok, s) && s.cert.history != [] && s.key.history != []
    requires SameTimes(s, Compare(s.cache, StatOf(s.cert), StatOf(s.key)))
    ensures s.published[s.cache - 1].cert == ReadOf(s.cert) && s.published[s.cache - 1].key == ReadOf(s.key)
  {
  }

  /** The cached pair was loaded from files with the times they have now. */
  predicate HasCurrentTimes(s: State) {
    && 0 < s.cache <= |s.published| && s.cert.history != [] && s.key.history != []
    && s.published[s.cache - 1].certStamp.modTime == s.cert.history[|s.cert.history| - 1].modTime
    && s.published[s.cache - 1].keyStamp.modTime == s.key.history[|s.key.history| - 1].modTime
  }

  /** The whole lookup, from the load of the pointer on. */
  lemma SoloLookup(ok: Match, s: State, t: nat) returns (a: Answer, stored: seq<Cache>)
    requires Inv(ok, s) && t < |s.threads| && s.lock == None
    ensures Ends(ok, s, t, Enter, a, stored)
    ensures a.path.UpToDate? <==> CanStat(s.cert) && CanStat(s.key) && HasCurrentTimes(s)
    ensures a.path.UpToDate? || !Loadable(ok, s) ==> stored == []
    ensures stored == [] ==> a.ptr == s.cache
    ensures stored != [] ==>
      a.ptr == s.cache + 1 && |stored| == 1 && stored[0].cert == ReadOf(s.cert) && stored[0].key == ReadOf(s.key)
    ensures Loadable(ok, s) && stored == [] ==>
      0 < s.cache && s.published[s.cache - 1].cert == ReadOf(s.cert) && s.published[s.cache - 1].key == ReadOf(s.key)
  {
    var snap := s.cache;
    if !CanStat(s.cert) {
      a, stored := Answer(snap, StatFailed), [];
      SoloReturn(ok, s, t, StatCert(snap), a);
    } else {
      var cs := StatOf(s.cert);
      if !CanStat(s.key) {
        a, stored := Answer(snap, StatFailed), [];
        SoloReturn(ok, s, t, StatKey(snap, cs), a);
      } else {
        a, stored := SoloCompare(ok, s, t);
        SoloGoto(ok, s, t, StatKey(snap, cs), Compare(snap, cs, StatOf(s.key)), a, stored);
      }
      SoloGoto(ok, s, t, StatCert(snap), StatKey(snap, cs), a, stored);
    }
    SoloGoto(ok, s, t, Enter, StatCert(snap), a, stored);
  }

  /** Refinement of the uncached specification: in every reachable state with the lock free, a lookup that
      runs undisturbed returns exactly one answer, frees the lock again, and serves the pair on disk if it
      loads, else the last good pair, else an error. */
  lemma UndisturbedLookupServesDisk(ok: Match, s: State, t: nat)
    requires Reachable(ok, s) && t < |s.threads| && s.threads[t].pc == Idle && s.lock == None
    ensures
      var s' := Solo(ok, Apply(ok, s, Call(t, false)), t);
      && s'.lock == None && s'.cert == s.cert && s'.key == s.key
      && |s'.log| == |s.log| + 1 && s.log == s'.log[..|s.log|]
      && ServesDisk(ok, s, s', s'.log[|s.log|].answer)
  {
    ReachableInv(ok, s);
    StepKeepsInv(ok, s, Call(t, false));
    var s1 := Apply(ok, s, Call(t, false));
    assert s1 == At(s1, t, Enter);
    var a, stored := SoloLookup(ok, s1, t);
  }

  /** And files whose times are the recorded ones are not loaded again: the cached pair is served as it is. */
  lemma UndisturbedLookupUsesCache(ok: Match, s: State, t: nat)
    requires Reachable(ok, s) && t < |s.threads| && s.threads[t].pc == Idle && s.lock == None
    ensures
      var s' := Solo(ok, Apply(ok, s, Call(t, false)), t);
      && |s'.log| == |s.log| + 1
      && (s'.log[|s.log|].answer.path.UpToDate? <==> CanStat(s.cert) && CanStat(s.key) && HasCurrentTimes(s))
      && (s'.log[|s.log|].answer.path.UpToDate? ==>
        s'.published == s.published && s'.log[|s.log|].answer.ptr == s.cache)
  {
    ReachableInv(ok, s);
    StepKeepsInv(ok, s, Call(t, false));
    var s1 := Apply(ok, s, Call(t, false));
    assert s1 == At(s1, t, Enter);
    var a, stored := SoloLookup(ok, s1, t);
  }

  /** An initialisation that runs undisturbed always loads: it stores the pair on disk if that loads, whatever is
      cached, and otherwise fails and leaves the cache alone. */
  lemma UndisturbedInitializeLoadsDisk(ok: Match, s: State, t: nat)
    requires Reachable(ok, s) && t < |s.threads| && s.threads[t].pc == Idle && s.lock == None
    ensures
      var s' := Solo(ok, Apply(ok, s, Call(t, true)), t);
      && s'.lock == None && s'.cert == s.cert && s'.key == s.key
      && |s'.log| == |s.log| + 1 && s.log == s'.log[..|s.log|]
      && if Loadable(ok, s) then
           && s'.cache == s.cache + 1 == |s'.published| && s'.log[|s.log|].answer == Answer(s'.cache, Initialized)
           && s'.published[s.cache].cert == ReadOf(s.cert) && s'.published[s.cache].key == ReadOf(s.key)
         else s'.cache == s.cache && s'.published == s.published && s'.log[|s.log|].answer == Answer(0, Initialized)
  {
    ReachableInv(ok, s);
    var s1 := Apply(ok, s, Call(t, true));
    assert s1 == At(s1, t, Await(true));
    var a, stored := SoloMake(ok, s1.(lock := Some(t)), t, true, 0);
    SoloLock(ok, s1, t, Await(true), Make(true, 0, CertStat), a, stored);
  }
}
