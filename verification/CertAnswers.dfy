/** What a lookup of tunnel/hysteria/utils/certloader.go:109-152 answers, in terms of the pointer it loaded on entry. */
module CertAnswers {
  import opened Common
  import opened CertLoader

  /** The answer that fits the way it was come by: the snapshot itself where the code falls back on it or found it up to
      date, a cache stored meanwhile by another goroutine, or the next one, stored by this lookup. */
  predicate Fits(a: Answer, snap: Pointer) {
    match a.path
    case StatFailed => a.ptr == snap
    case UpToDate(_, _) => a.ptr == snap != 0
    case Busy => a.ptr == snap != 0
    case LoadFailed => a.ptr == snap
    case Superseded => snap < a.ptr
    case Renewed => a.ptr == snap + 1
    case Initialized => false
  }

  /** A goroutine between its load and its answer. */
  predicate Carries(s: State, pc: PC, snap: Pointer) {
    match pc
    case StatCert(p) => p == snap
    case StatKey(p, _) => p == snap
    case Compare(p, _, _) => p == snap
    case Await(init) => !init && snap == 0
    case Recheck(p) => p == snap
    case Reload => snap < s.cache
    case Make(init, p, _) => !init && p == snap
    case Unlock(a) => Fits(a, snap)
    case _ => false
  }

  predicate EffectCarries(s: State, e: Effect, snap: Pointer) {
    match e
    case Goto(pc) => Carries(s, pc, snap)
    case Lock(pc) => Carries(s, pc, snap)
    case Store(_, init) => !init && Fits(Answer(|s.published| + 1, Renewed), snap)
    case Return(a) => Fits(a, snap)
    case Release(a) => Fits(a, snap)
  }

  lemma MoveCarries(ok: Match, s: State, since: Since, pc: PC, snap: Pointer)
    requires s.cache == |s.published| && PcOk(s, since, pc) && Carries(s, pc, snap)
    ensures EffectCarries(s, Move(ok, s, pc), snap)
  {
  }

  /** t goes on with its snapshot, or has just returned an answer that fits it. */
  ghost predicate GoesOn(s: State, s': State, t: nat, snap: Pointer) {
    t < |s'.threads| && s.log <= s'.log &&
    if s'.log != s.log && s'.log[|s.log|].t == t then Fits(s'.log[|s.log|].answer, snap)
    else Carries(s', s'.threads[t].pc, snap)
  }

  lemma OwnStepCarries(s: State, t: nat, e: Effect, snap: Pointer)
    requires t < |s.threads| && EffectCarries(s, e, snap)
    ensures GoesOn(s, Perform(s, t, e), t, snap)
  {
  }

  lemma CarriesStays(s: State, s': State, pc: PC, snap: Pointer)
    requires s.cache <= s'.cache && Carries(s, pc, snap)
    ensures Carries(s', pc, snap)
  {
  }

  lemma OthersLog(ok: Match, s: State, a: Action, t: nat)
    requires Enabled(s, a) && !ActionOf(a, t)
    ensures var l := Apply(ok, s, a).log; s.log <= l && |l| <= |s.log| + 1 && (l != s.log ==> l[|s.log|].t != t)
  {
  }

  /** One step of any goroutine or of the disk. */
  lemma StepCarries(ok: Match, s: State, a: Action, t: nat, snap: Pointer)
    requires Inv(ok, s) && Enabled(s, a) && t < |s.threads| && Carries(s, s.threads[t].pc, snap)
    ensures GoesOn(s, Apply(ok, s, a), t, snap)
  {
    if !ActionOf(a, t) {
      OtherGrantsRely(ok, s, a, t);
      CarriesStays(s, Apply(ok, s, a), s.threads[t].pc, snap);
      OthersLog(ok, s, a, t);
    } else if a.Run? {
      MoveCarries(ok, s, s.threads[t].since, s.threads[t].pc, snap);
      OwnStepCarries(s, t, Move(ok, s, s.threads[t].pc), snap);
    } else {
      OwnStepCarries(s, t, Return(Answer(snap, Busy)), snap);
    }
  }

  lemma OneEntry(ok: Match, s: State, a: Action)
    requires Enabled(s, a)
    ensures |Apply(ok, s, a).log| <= |s.log| + 1
  {
  }

  lemma {:induction false} AnswersCarry(
    ok: Match, s: State, schedule: seq<Action>, s': State, t: nat, snap: Pointer, j: nat)
    requires Inv(ok, s) && Runs(ok, s, schedule, s') && t < |s.threads| && Carries(s, s.threads[t].pc, snap)
    requires |s.log| <= j < |s'.log| && s'.log[j].t == t && forall k :: |s.log| <= k < j ==> s'.log[k].t != t
    ensures Fits(s'.log[j].answer, snap)
    decreases |schedule|, 0
  {
    if schedule != [] {
      var s1 := Apply(ok, s, schedule[0]);
      StepCarries(ok, s, schedule[0], t, snap);
      OneEntry(ok, s, schedule[0]);
      StepKeepsInv(ok, s, schedule[0]);
      RunKeepsInv(ok, s1, schedule[1..], s');
      NextAnswer(ok, s, s1, schedule[1..], s', t, snap, j);
    }
  }

  lemma {:induction false} NextAnswer(
    ok: Match, s: State, s1: State, schedule: seq<Action>, s': State, t: nat, snap: Pointer, j: nat)
    requires Inv(ok, s1) && Runs(ok, s1, schedule, s') && GoesOn(s, s1, t, snap)
    requires |s1.log| <= |s.log| + 1 && s1.log <= s'.log
    requires |s.log| <= j < |s'.log| && s'.log[j].t == t && forall k :: |s.log| <= k < j ==> s'.log[k].t != t
    ensures Fits(s'.log[j].answer, snap)
    decreases |schedule|, 1
  {
    if s1.log != s.log && s1.log[|s.log|].t == t {
      assert s'.log[|s.log|] == s1.log[|s.log|];
    } else {
      assert s1.log != s.log ==> s'.log[|s.log|] == s1.log[|s.log|];
      AnswersCarry(ok, s1, schedule, s', t, snap, j);
    }
  }

  /** In every schedule: a lookup about to load the pointer answers, when it next returns, with that very pointer
      unless it stored the next cache itself or, under the lock, found that another goroutine had stored one. */
  lemma AnswersFollowSnapshot(ok: Match, s: State, schedule: seq<Action>, s': State, t: nat, j: nat)
    requires Reachable(ok, s) && t < |s.threads| && s.threads[t].pc == Enter
    requires Runs(ok, Apply(ok, s, Run(t)), schedule, s')
    requires |s.log| <= j < |s'.log| && s'.log[j].t == t && forall k :: |s.log| <= k < j ==> s'.log[k].t != t
    ensures Fits(s'.log[j].answer, s.cache)
  {
    ReachableInv(ok, s);
    StepKeepsInv(ok, s, Run(t));
    AnswersCarry(ok, Apply(ok, s, Run(t)), schedule, s', t, s.cache, j);
  }

  /** A lookup that finds itself overtaken serves what was stored after it began, never an error. */
  lemma SupersededAnswersAreNewer(ok: Match, s: State, j: nat)
    requires Reachable(ok, s) && j < |s.log| && s.log[j].answer.path == Superseded
    ensures s.log[j].since.stores < s.log[j].answer.ptr <= |s.published|
  {
    ReachableInv(ok, s);
    assert AnswerOk(s, s.log[j].since, s.log[j].answer);
  }

  /** A lookup returns an error only after a failed stat or a failed load. */
  lemma ErrorsComeFromTheFiles(ok: Match, s: State, j: nat)
    requires Reachable(ok, s) && j < |s.log| && s.log[j].answer.ptr == 0
    ensures s.log[j].answer.path in {StatFailed, LoadFailed, Initialized}
  {
    ReachableInv(ok, s);
    assert AnswerOk(s, s.log[j].since, s.log[j].answer);
  }
}
