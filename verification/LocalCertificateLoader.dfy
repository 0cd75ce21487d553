/** The loader of tunnel/hysteria/utils/certloader.go as it is written, on one goroutine `me`, while others
    interfere. Each shared access of the code is recorded as the action of module CertLoader it is, so that every
    execution of the methods is a run of that machine: its results hold of the code, and a method can only answer
    what the machine answers. */
module LocalCertificateLoader {
  import opened Common
  import C = CertLoader

  class Loader {
    const ok: C.Match
    var cert: C.File
    var key: C.File
    var holder: Option<nat>
    var cache: C.Pointer
    var published: seq<C.Cache>

    // Where every goroutine is, what was answered, and the run that led here.
    ghost const start: C.State
    ghost var threads: seq<C.Thread>
    ghost var log: seq<C.Done>
    ghost var schedule: seq<C.Action>

    ghost function Value(): C.State
      reads this
    {
      C.State(cert, key, holder, cache, published, threads, log)
    }

    ghost predicate Valid()
      reads this
    {
      C.Initial(start) && C.Runs(ok, start, schedule, Value())
    }

    ghost predicate IsAt(me: nat, pc: C.PC)
      reads this
    {
      me < |threads| && threads[me].pc == pc
    }

    /** The run went on, within the same call of goroutine me. */
    twostate predicate Continued(me: nat)
      reads this
    {
      && Valid() && old(schedule) <= schedule
      && me < |threads| == old(|threads|) && threads[me].since == old(threads[me].since)
    }

    /** Goroutine me has returned with answer a from a call begun at `since`. */
    ghost predicate Returned(me: nat, since: C.Since, a: C.Answer)
      reads this
    {
      IsAt(me, C.Idle) && log != [] && log[|log| - 1] == C.Done(me, since, a)
    }

    ghost function Now(): C.Since
      reads this
    {
      C.Since(|log|, |published|, |cert.history|, |key.history|)
    }

    constructor (ok: C.Match, cert: C.File, key: C.File, ghost goroutines: nat)
      requires cert.Valid() && key.Valid()
      ensures Valid() && cache == 0 && |threads| == goroutines && forall t :: 0 <= t < goroutines ==> IsAt(t, C.Idle)
    {
      this.ok, this.cert, this.key := ok, cert, key;
      holder, cache, published := None, 0, [];
      var idle := seq(goroutines, _ => C.Thread(C.Idle, C.Since(0, 0, 0, 0)));
      threads, log, schedule := idle, [], [];
      start := C.State(cert, key, None, 0, [], idle, []);
    }

    /** The access just made, from state s, was action a of the machine. */
    ghost method Record(s: C.State, a: C.Action)
      requires C.Initial(start) && C.Runs(ok, start, schedule, s) && C.Enabled(s, a)
      requires var s' := C.Apply(ok, s, a); Value() == s'.(threads := threads, log := log)
      modifies this`threads, this`log, this`schedule
      ensures Valid() && Value() == C.Apply(ok, s, a) && schedule == old(schedule) + [a]
    {
      C.RunsSnoc(ok, start, schedule, s, a);
      var s' := C.Apply(ok, s, a);
      threads, log, schedule := s'.threads, s'.log, schedule + [a];
    }

    /** Any number of steps of the disk and of other goroutines, none included. */
    method Interference(me: nat)
      requires Valid() && me < |threads|
      modifies this
      ensures Valid() && old(schedule) <= schedule && C.Spares(schedule[|old(schedule)|..], me)
    {
    }

    /** What goroutine me can count on meanwhile follows from CertLoader.OthersGrantRely. */
    method Others(me: nat)
      requires Valid() && me < |threads|
      modifies this
      ensures Continued(me) && C.Rely(old(Value()), Value(), me)
    {
      ghost var s, before := Value(), schedule;
      Invariant();
      Interference(me);
      C.RunsSuffix(ok, start, before, s, schedule, Value());
      C.OthersGrantRely(ok, s, schedule[|before|..], Value(), me);
    }

    lemma Invariant()
      requires Valid()
      ensures C.Inv(ok, Value())
    {
      C.ReachableInv(ok, Value());
    }

    lemma AnsweredOk(me: nat, since: C.Since, a: C.Answer)
      requires Valid() && Returned(me, since, a)
      ensures C.AnswerOk(Value(), since, a)
      ensures a.path != C.Initialized && a.ptr == 0 ==> since.stores == 0
      ensures a.path == C.Initialized && a.ptr != 0 ==> since.stores < cache
    {
      Invariant();
    }

    lemma SnapshotIsStored(me: nat)
      requires Valid() && me < |threads| && threads[me].pc.Compare?
      ensures threads[me].pc.snap <= |published|
    {
      Invariant();
      assert C.PcOk(Value(), threads[me].since, threads[me].pc);
    }

    // ----- the mutex ------------------------------------------------------

    /** TryLock, line 127: it may fail on a free mutex. */
    method TryLock(me: nat, snap: C.Pointer, ghost pc: C.PC) returns (got: bool)
      requires Valid() && IsAt(me, pc) && pc.Compare? && pc.snap == snap != 0 && !C.SameTimes(Value(), pc)
      modifies this
      ensures Continued(me)
      ensures if got then IsAt(me, C.Recheck(snap)) else Returned(me, old(threads[me].since), C.Answer(snap, C.Busy))
    {
      ghost var s := Value();
      got := false;
      if holder == None {
        got := *;
        if got { holder := Some(me); }
      }
      Record(s, if got then C.Run(me) else C.TryLockFails(me));
    }

    /** Lock, lines 38 and 132: waits for the mutex; after `patience` rounds without success the goroutine is still
        waiting. */
    method Lock(me: nat, patience: nat, ghost init: bool) returns (got: bool)
      requires Valid() && IsAt(me, C.Await(init))
      modifies this
      ensures Continued(me)
      ensures IsAt(me, if !got then C.Await(init) else if init then C.Make(true, 0, C.CertStat) else C.Recheck(0))
    {
      got := false;
      var rounds := 0;
      while rounds < patience && !got
        invariant Continued(me)
        invariant IsAt(me, if !got then C.Await(init) else if init then C.Make(true, 0, C.CertStat) else C.Recheck(0))
        decreases patience - rounds
      {
        Others(me);
        if holder == None {
          ghost var s := Value();
          holder, got := Some(me), true;
          Record(s, C.Run(me));
        }
        rounds := rounds + 1;
      }
    }

    /** The deferred Unlock, with which the call returns. */
    method Unlock(me: nat, ghost a: C.Answer)
      requires Valid() && IsAt(me, C.Unlock(a))
      modifies this
      ensures Continued(me) && Returned(me, old(threads[me].since), a)
    {
      Others(me);
      ghost var s := Value();
      holder := None;
      Record(s, C.Run(me));
    }

    // ----- the files ------------------------------------------------------

    /** Where a goroutine is once it has, or has not, got both modification times. */
    ghost function AfterStats(pc: C.PC, times: Option<(C.Stamp, C.Stamp)>): C.PC
      requires pc.StatCert? || (pc.Make? && pc.stage == C.CertStat)
    {
      match (pc, times)
      case (StatCert(snap), Some(ts)) => C.Compare(snap, ts.0, ts.1)
      case (StatCert(_), None) => C.Idle
      case (Make(init, snap, _), Some(ts)) => C.Make(init, snap, C.CertRead(ts.0, ts.1))
      case (Make(init, snap, _), None) => C.Unlock(Failed(init, snap))
    }

    /** What a call answers when makeCache failed. */
    ghost function Failed(init: bool, snap: C.Pointer): C.Answer {
      if init then C.Answer(0, C.Initialized) else C.Answer(snap, C.LoadFailed)
    }

    /** checkModTime, lines 67-82. */
    method CheckModTime(me: nat) returns (times: Option<(C.Stamp, C.Stamp)>)
      requires Valid() && me < |threads|
      requires var pc := threads[me].pc; pc.StatCert? || (pc.Make? && pc.stage == C.CertStat)
      modifies this
      ensures Continued(me) && threads[me].pc == AfterStats(old(threads[me].pc), times)
      ensures times == None && old(threads[me].pc.StatCert?) ==>
        Returned(me, old(threads[me].since), C.Answer(old(threads[me].pc.snap), C.StatFailed))
      ensures times == None ==> !C.CanStat(cert) || !C.CanStat(key)
    {
      Others(me);
      Record(Value(), C.Run(me));
      if !C.CanStat(cert) { return None; }
      var certModTime := C.StatOf(cert);
      Others(me);
      Record(Value(), C.Run(me));
      if !C.CanStat(key) { return None; }
      times := Some((certModTime, C.StatOf(key)));
    }

    /** makeCache, lines 84-107, called with the lock held. */
    method MakeCache(me: nat, ghost init: bool, ghost snap: C.Pointer) returns (c: Option<C.Cache>)
      requires Valid() && IsAt(me, C.Make(init, snap, C.CertStat))
      modifies this
      ensures Continued(me)
      ensures c.Some? ==>
        && IsAt(me, C.Make(init, snap, C.Commit(c.value.certStamp, c.value.keyStamp, c.value.cert, c.value.key)))
        && ok(c.value.cert.content, c.value.key.content)
      ensures c == None ==>
        IsAt(me, C.Unlock(Failed(init, snap))) && (!C.CanStat(cert) || !C.CanStat(key) || PairFails())
    {
      var times := CheckModTime(me);
      if times == None { return None; }
      var pair := LoadX509KeyPair(me, init, snap, times.value.0, times.value.1);
      if pair == None { return None; }
      c := Some(C.Cache(times.value.0, times.value.1, pair.value.0, pair.value.1));
    }

    /** One of the files is unreadable, or the key does not match some version of the certificate. */
    ghost predicate PairFails()
      reads this
    {
      || !C.CanRead(cert) || !C.CanRead(key)
      || exists v: nat :: v < |cert.history| && !ok(cert.history[v].content, C.ReadOf(key).content)
    }

    /** Reads both files and checks that they belong together. */
    method LoadX509KeyPair(
      me: nat, ghost init: bool, ghost snap: C.Pointer, ghost certStat: C.Stamp, ghost keyStat: C.Stamp)
      returns (pair: Option<(C.Blob, C.Blob)>)
      requires Valid() && IsAt(me, C.Make(init, snap, C.CertRead(certStat, keyStat)))
      modifies this
      ensures Continued(me)
      ensures pair.Some? ==>
        && IsAt(me, C.Make(init, snap, C.Commit(certStat, keyStat, pair.value.0, pair.value.1)))
        && ok(pair.value.0.content, pair.value.1.content)
      ensures pair == None ==> IsAt(me, C.Unlock(Failed(init, snap))) && PairFails()
    {
      Others(me);
      Record(Value(), C.Run(me));
      if !C.CanRead(cert) { return None; }
      var certBlob := C.ReadOf(cert);
      var keyBlob := ReadKey(me, certBlob, init, snap, certStat, keyStat);
      pair := if keyBlob == None then None else Some((certBlob, keyBlob.value));
    }

    /** The second read and the match. */
    method ReadKey(
      me: nat, certBlob: C.Blob, ghost init: bool, ghost snap: C.Pointer,
      ghost certStat: C.Stamp, ghost keyStat: C.Stamp)
      returns (keyBlob: Option<C.Blob>)
      requires Valid() && IsAt(me, C.Make(init, snap, C.KeyRead(certStat, keyStat, certBlob)))
      requires C.BlobOf(cert, certBlob)
      modifies this
      ensures Continued(me)
      ensures keyBlob.Some? ==>
        && IsAt(me, C.Make(init, snap, C.Commit(certStat, keyStat, certBlob, keyBlob.value)))
        && ok(certBlob.content, keyBlob.value.content)
      ensures keyBlob == None ==> IsAt(me, C.Unlock(Failed(init, snap))) && PairFails()
    {
      Others(me);
      Record(Value(), C.Run(me));
      if !C.CanRead(key) { return None; }
      keyBlob := Some(C.ReadOf(key));
      if !ok(certBlob.content, keyBlob.value.content) {
        assert cert.history[certBlob.version].content == certBlob.content;
        Record(Value(), C.Run(me));
        return None;
      }
    }

    /** l.cache.Store of a fresh object. */
    method Store(me: nat, c: C.Cache, ghost init: bool, ghost snap: C.Pointer) returns (p: C.Pointer)
      requires Valid() && IsAt(me, C.Make(init, snap, C.Commit(c.certStamp, c.keyStamp, c.cert, c.key)))
      requires ok(c.cert.content, c.key.content)
      modifies this
      ensures Continued(me) && p != 0 && IsAt(me, C.Unlock(C.Answer(p, if init then C.Initialized else C.Renewed)))
    {
      Others(me);
      ghost var s := Value();
      published := published + [c];
      cache := |published|;
      p := cache;
      Record(s, C.Run(me));
    }

    /** makeCache and the store; 0: makeCache failed. */
    method Renew(me: nat, ghost init: bool, ghost snap: C.Pointer) returns (p: C.Pointer)
      requires Valid() && IsAt(me, C.Make(init, snap, C.CertStat))
      modifies this
      ensures Continued(me)
      ensures IsAt(me,
        C.Unlock(if p == 0 then Failed(init, snap) else C.Answer(p, if init then C.Initialized else C.Renewed)))
    {
      var c := MakeCache(me, init, snap);
      if c == None { return 0; }
      p := Store(me, c.value, init, snap);
    }

    // ----- the two calls --------------------------------------------------

    /** InitializeCache, lines 37-48; None: still waiting for the mutex. */
    method InitializeCache(me: nat, patience: nat) returns (r: Option<bool>, ghost a: C.Answer)
      requires Valid() && IsAt(me, C.Idle)
      modifies this
      ensures Valid() && old(schedule) <= schedule
      ensures if r == None then IsAt(me, C.Await(true)) else Returned(me, old(Now()), a)
      ensures r.Some? ==> a.path == C.Initialized && (r.value <==> a.ptr != 0)
      ensures r == Some(true) ==> old(cache) < cache
    {
      Invariant();
      assert cache == |published|;
      ghost var since := Now();
      a := C.Answer(0, C.Initialized);
      Record(Value(), C.Call(me, true));
      var got := Lock(me, patience, true);
      if !got { return None, a; }
      var p := Renew(me, true, 0);
      a := C.Answer(p, C.Initialized);
      Unlock(me, a);
      r := Some(p != 0);
      AnsweredOk(me, since, a);
    }

    /** getCertificateWithCache, lines 109-152; None: still waiting for the mutex. However others interfere, the
        call is one of the machine's, begun when the method was called and ended with the answer returned. So the
        answer is at least as new as anything stored when it began, an error only if nothing was, and on the
        up-to-date path exactly what both stats saw. */
    method GetCertificateWithCache(me: nat, patience: nat) returns (r: Option<C.Answer>)
      requires Valid() && IsAt(me, C.Idle)
      modifies this
      ensures Valid() && old(schedule) <= schedule
      ensures if r == None then IsAt(me, C.Await(false)) else Returned(me, old(Now()), r.value)
      ensures r.Some? ==> C.AnswerOk(Value(), old(Now()), r.value)
      ensures r.Some? && r.value.ptr == 0 ==> old(cache) == 0
    {
      Invariant();
      assert cache == |published|;
      ghost var since := Now();
      Record(Value(), C.Call(me, false));
      r := Lookup(me, patience);
      if r.Some? { AnsweredOk(me, since, r.value); }
    }

    method Lookup(me: nat, patience: nat) returns (r: Option<C.Answer>)
      requires Valid() && IsAt(me, C.Enter)
      modifies this
      ensures Continued(me)
      ensures if r == None then IsAt(me, C.Await(false))
        else Returned(me, old(threads[me].since), r.value) && r.value.path != C.Initialized
    {
      var snap, times := Look(me);
      if times == None { return Some(C.Answer(snap, C.StatFailed)); }
      var current := UpToDate(me, snap, times.value.0, times.value.1);
      if current { return Some(C.Answer(snap, C.UpToDate(times.value.0, times.value.1))); }
      var got := Acquire(me, snap, patience, C.Compare(snap, times.value.0, times.value.1));
      if !got { return if snap == 0 then None else Some(C.Answer(snap, C.Busy)); }
      var a := Refresh(me, snap);
      r := Some(a);
    }

    /** Lines 110-112: load the pointer first, then stat. */
    method Look(me: nat) returns (snap: C.Pointer, times: Option<(C.Stamp, C.Stamp)>)
      requires Valid() && IsAt(me, C.Enter)
      modifies this
      ensures Continued(me)
      ensures times.Some? ==> IsAt(me, C.Compare(snap, times.value.0, times.value.1))
      ensures times == None ==> Returned(me, old(threads[me].since), C.Answer(snap, C.StatFailed))
    {
      Others(me);
      snap := cache;
      Record(Value(), C.Run(me));
      times := CheckModTime(me);
    }

    /** Line 121: the recorded times against those just seen. */
    method UpToDate(me: nat, snap: C.Pointer, certStat: C.Stamp, keyStat: C.Stamp) returns (same: bool)
      requires Valid() && IsAt(me, C.Compare(snap, certStat, keyStat))
      modifies this
      ensures Continued(me)
      ensures if same then Returned(me, old(threads[me].since), C.Answer(snap, C.UpToDate(certStat, keyStat)))
        else IsAt(me, C.Compare(snap, certStat, keyStat)) && !C.SameTimes(Value(), C.Compare(snap, certStat, keyStat))
    {
      SnapshotIsStored(me);
      same := snap != 0
        && published[snap - 1].certStamp.modTime == certStat.modTime
        && published[snap - 1].keyStamp.modTime == keyStat.modTime;
      if same { Record(Value(), C.Run(me)); }
    }

    /** Lines 126-133. */
    method Acquire(me: nat, snap: C.Pointer, patience: nat, ghost pc: C.PC) returns (got: bool)
      requires Valid() && IsAt(me, pc) && pc.Compare? && pc.snap == snap && !C.SameTimes(Value(), pc)
      modifies this
      ensures Continued(me)
      ensures got ==> IsAt(me, C.Recheck(snap))
      ensures !got && snap == 0 ==> IsAt(me, C.Await(false))
      ensures !got && snap != 0 ==> Returned(me, old(threads[me].since), C.Answer(snap, C.Busy))
    {
      if snap != 0 {
        ghost var s := Value();
        SnapshotIsStored(me);
        Others(me);
        C.StillDiffers(s, Value(), pc);
        got := TryLock(me, snap, pc);
      } else {
        Record(Value(), C.Run(me));
        got := Lock(me, patience, false);
      }
    }

    /** Lines 134-151: with the lock held, serve what others stored meanwhile or load the files. */
    method Refresh(me: nat, snap: C.Pointer) returns (a: C.Answer)
      requires Valid() && IsAt(me, C.Recheck(snap))
      modifies this
      ensures Continued(me) && Returned(me, old(threads[me].since), a) && a.path != C.Initialized
    {
      Others(me);
      Record(Value(), C.Run(me));
      if cache != snap {
        Others(me);
        Invariant();
        assert C.PcOk(Value(), threads[me].since, threads[me].pc);
        a := C.Answer(cache, C.Superseded);
        Record(Value(), C.Run(me));
      } else {
        var p := Renew(me, false, snap);
        a := if p == 0 then C.Answer(snap, C.LoadFailed) else C.Answer(p, C.Renewed);
      }
      Unlock(me, a);
    }
  }
}
