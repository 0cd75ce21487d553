/** The anytls preamble, hash · be16(length) · padding, and the look-up that guards it
    (tunnel/anytls/inbound_tcp.go:30-75, tunnel/anytls/user.go:15-26). */
module Framing {
  import opened Common
  import opened Pool
  import opened PoolIndex
  import R = PoolReaders
  import U = UserPool

  type Byte = b: int | 0 <= b < 256

  const HASH_SIZE := 32

  /** What becomes of a connection: it is closed, or a session starts for a user and reads `input`. */
  datatype Outcome = Closed | Session(user: User, input: seq<Byte>)

  function Uint16(high: Byte, low: Byte): (n: nat)
    ensures n < 0x1_0000
  {
    (high as int) * 256 + (low as int)
  }

  // ----- the handler ------------------------------------------------------

  /** A packet buffer: ReadBytes hands out the next n bytes, or fails and hands out none. */
  class Buffer {
    const data: seq<Byte>
    var start: nat

    constructor (data: seq<Byte>)
      ensures this.data == data && start == 0
    {
      this.data := data;
      start := 0;
    }

    method ReadBytes(n: nat) returns (r: Option<seq<Byte>>)
      requires start <= |data|
      modifies this
      ensures start <= |data|
      ensures old(start) + n <= |data| ==> r == Some(data[old(start)..old(start) + n]) && start == old(start) + n
      ensures old(start) + n > |data| ==> r == None && start == old(start)
    {
      if start + n > |data| { return None; }
      r := Some(data[start..start + n]);
      start := start + n;
    }
  }

  /** The specification: the first read must hold the whole preamble, and the hash must be an enabled user's. */
  function Handle(s: State<seq<Byte>>, first: seq<Byte>, later: seq<Byte>): Outcome {
    if |first| < HASH_SIZE then Closed else Proceed(Lookup(s, first[..HASH_SIZE]), first, later)
  }

  /** The handler after the look-up, with the user as it is when its Enable is read. */
  function Proceed(u: Option<User>, first: seq<Byte>, later: seq<Byte>): Outcome {
    if u == None || !u.value.enable || |first| < HASH_SIZE + 2 then Closed
    else
      var length := Uint16(first[HASH_SIZE], first[HASH_SIZE + 1]);
      if |first| < HASH_SIZE + 2 + length then Closed
      else Session(u.value, first[HASH_SIZE + 2 + length..] + later)
  }

  /** handleTcpConnection up to the creation of the session. `first` is what the first read returned (None: it failed);
      the session's connection yields what is left in the buffer and then the `later` bytes. */
  method HandleTcpConnection(up: U.UserPool<seq<Byte>>, first: Option<seq<Byte>>, later: seq<Byte>) returns (r: Outcome)
    requires up.Valid()
    ensures r == if first == None then Closed else Handle(up.Value(), first.value, later)
  {
    if first == None { return Closed; }
    var b := new Buffer(first.value);
    var part := b.ReadBytes(32);
    if part == None { return Closed; }
    var authHash := part.value;
    var user := up.GetUserByKey(authHash);
    if user == null || !user.enable { return Closed; }
    part := b.ReadBytes(2);
    if part == None { return Closed; }
    var paddingLen := Uint16(part.value[0], part.value[1]);
    if paddingLen > 0 {
      part := b.ReadBytes(paddingLen);
      if part == None { return Closed; }
    }
    r := Session(user.Value(), b.data[b.start..] + later);
  }

  // ----- framing ----------------------------------------------------------

  /** A length in two bytes, the high one first. */
  function LengthBytes(n: nat): (b: seq<Byte>)
    requires n < 0x1_0000
    ensures |b| == 2 && b[0] as int * 256 + b[1] as int == n
  {
    [n / 256, n % 256]
  }

  /** Round trip: if the first read holds the whole preamble, 32 bytes of hash, two of length, high byte first, and
      the padding, the session reads exactly what follows it, for every hash, every padding up to 65535 bytes and
      every split of the stream; and there is a session if and only if the hash belongs to an enabled user. */
  lemma SessionReadsWhatFollows(
    s: State<seq<Byte>>, hash: seq<Byte>, padding: seq<Byte>, stream: seq<Byte>, first: seq<Byte>, later: seq<Byte>)
    requires |hash| == 32 && |padding| < 0x1_0000
    requires first + later == hash + LengthBytes(|padding|) + padding + stream && |first| >= 34 + |padding|
    ensures
      var u := Lookup(s, hash);
      Handle(s, first, later) == if u.Some? && u.value.enable then Session(u.value, stream) else Closed
  {
    var p := hash + LengthBytes(|padding|) + padding;
    assert first == (first + later)[..|first|];
    assert forall i :: 0 <= i < |p| ==> first[i] == p[i];
    assert first[..32] == hash;
    assert Uint16(first[32], first[33]) == |padding|;
    assert first[|p|..] + later == (first + later)[|p|..];
    assert (p + stream)[|p|..] == stream;
  }

  lemma Preamble(first: seq<Byte>, length: nat)
    requires |first| >= 34 + length && length < 0x1_0000 && Uint16(first[32], first[33]) == length
    ensures first[..34 + length] == first[..32] + LengthBytes(length) + first[34..34 + length]
  {
    assert first[32..34] == LengthBytes(length);
    assert first[..34] == first[..32] + first[32..34];
  }

  lemma Append(a: seq<Byte>, b: seq<Byte>, c: seq<Byte>)
    ensures (a + b) + c == a + (b + c)
  {
  }

  /** Conversely a session exists only for a first read that starts with a whole preamble, and reads what follows it. */
  lemma SessionsAreFramed(s: State<seq<Byte>>, first: seq<Byte>, later: seq<Byte>) returns (padding: seq<Byte>)
    requires Handle(s, first, later).Session?
    ensures |padding| < 0x1_0000 && |first| >= 34 + |padding|
    ensures first + later == first[..32] + LengthBytes(|padding|) + padding + Handle(s, first, later).input
  {
    var length := Uint16(first[32], first[33]);
    padding := first[34..34 + length];
    Preamble(first, length);
    Append(first[..34 + length], first[34 + length..], later);
  }

  /** Framing composed with look-up, with the synchronisation going on before, after and between the look-up (in m)
      and the read of Enable (in m'). A session is created only for a user that was in the pool at the look-up and
      whose password hashed to the 32 bytes received then, the one user being rewritten excepted, who can still be
      found under the hash of the password just replaced; and that user, if still in the pool, is enabled at the
      read, or was when it was removed. */
  lemma SessionsAreAuthenticated(
    cfg: Config<seq<Byte>>, before: seq<R.Event>, m: R.Machine<seq<Byte>>, events: seq<R.Event>,
    m': R.Machine<seq<Byte>>, first: seq<Byte>, later: seq<Byte>)
    requires R.History(cfg, R.Machine(Empty(), R.Idle), before, m) && R.History(cfg, m, events, m')
    requires |first| >= 32 && Lookup(m.pool, first[..32]).Some?
    requires
      var h := R.After(cfg, m, events, R.Held(Lookup(m.pool, first[..32]).value, true));
      Proceed(Some(h.user), first, later).Session?
    ensures
      var u := Lookup(m.pool, first[..32]).value;
      var h := R.After(cfg, m, events, R.Held(u, true));
      && u.id in m.pool.users && m.pool.users[u.id] == u && cfg.key.Some?
      && (cfg.key.value(u.password) == first[..32] || R.InFlight(cfg, m, first[..32], u.id))
      && h.user.id == u.id && h.user.enable
      && (h.live ==> u.id in m'.pool.users && m'.pool.users[u.id] == h.user)
  {
    R.ReadersSeeOwners(cfg, before, m, first[..32]);
    R.HistoryKeeps(cfg, R.Machine(Empty(), R.Idle), before, m);
    R.HeldUserKeepsId(cfg, m, events, m', R.Held(Lookup(m.pool, first[..32]).value, true));
  }

  /** With both reads at once, the enabled user is also the one whose password was checked. */
  lemma PromptSessionsAreAuthenticated(
    cfg: Config<seq<Byte>>, before: seq<R.Event>, m: R.Machine<seq<Byte>>, first: seq<Byte>, later: seq<Byte>)
    requires R.History(cfg, R.Machine(Empty(), R.Idle), before, m) && Handle(m.pool, first, later).Session?
    ensures
      var u := Handle(m.pool, first, later).user;
      && u.id in m.pool.users && m.pool.users[u.id] == u && u.enable
      && cfg.key.Some? && |first| >= 32
      && (cfg.key.value(u.password) == first[..32] || R.InFlight(cfg, m, first[..32], u.id))
  {
    SessionsAreAuthenticated(cfg, before, m, [], m, first, later);
  }

  /** With the reads apart it need not be: a disabled user found under its old password can be enabled with
      a new password before Enable is read, and the old password opens the session. */
  lemma EnabledAfterLookUp(cfg: Config<seq<Byte>>, first: seq<Byte>, later: seq<Byte>)
    requires cfg.key.Some? && cfg.hooks.Anytls? && cfg.key.value("old") != cfg.key.value("new")
    requires |first| == 34 && first[..32] == cfg.key.value("old")
    requires first[32] == 0 && first[33] == 0
    ensures
      var was, now := User(1, "", "old", 0, false, "", 0, 0, false), User(1, "", "new", 0, true, "", 0, 0, false);
      var m := R.Machine(Create(cfg, Empty(), was), R.Idle);
      var events := [R.Start([now]), R.Go([]), R.Go([])];
      var m' := R.Machine(Create(cfg, Empty(), now), R.Rewritten([now], [now]));
      && R.History(cfg, m, events, m') && Lookup(m.pool, first[..32]) == Some(was)
      && R.After(cfg, m, events, R.Held(was, true)) == R.Held(now, true)
      && Proceed(Some(now), first, later) == Session(now, later)
      && Handle(m.pool, first, later) == Closed && Handle(m'.pool, first, later) == Closed
  {
    var was, now := User(1, "", "old", 0, false, "", 0, 0, false), User(1, "", "new", 0, true, "", 0, 0, false);
    var m := R.Machine(Create(cfg, Empty(), was), R.Idle);
    var m1 := R.Machine(m.pool, R.Upserting([now], [now]));
    var m2 := R.Machine(WriteFields(m.pool, now), R.Rewriting([now], [now], "old"));
    var m3 := R.Machine(Create(cfg, Empty(), now), R.Rewritten([now], [now]));
    var events := [R.Start([now]), R.Go([]), R.Go([])];
    assert events[1..] == [R.Go([]), R.Go([])] && events[1..][1..] == [R.Go([])] && events[1..][1..][1..] == [];
    assert R.Happen(cfg, m, events[0]) == m1;
    assert R.Happen(cfg, m1, R.Go([])) == m2;
    assert m2.pool.index - {cfg.key.value("old")} == map[];
    assert m2.pool.users == m3.pool.users;
    assert R.Happen(cfg, m2, R.Go([])) == m3;
    assert R.History(cfg, m3, [], m3);
    assert R.Seen(R.Held(was, true), m1.pool) == R.Held(was, true);
    assert R.Seen(R.Held(was, true), m2.pool) == R.Held(now, true) == R.Seen(R.Held(now, true), m3.pool);
    assert R.After(cfg, m2, [R.Go([])], R.Held(now, true)) == R.Held(now, true);
    assert first[34..] == [];
  }

  /** So after whole synchronisations there is no exception. */
  lemma SettledSessionsAreAuthenticated(
    cfg: Config<seq<Byte>>, inputs: seq<Input>, s: State<seq<Byte>>, first: seq<Byte>, later: seq<Byte>)
    requires Run(cfg, Empty(), inputs, s) && Handle(s, first, later).Session?
    ensures
      var u := Handle(s, first, later).user;
      && u.id in s.users && s.users[u.id] == u && u.enable
      && cfg.key.Some? && |first| >= 32 && cfg.key.value(u.password) == first[..32]
  {
    LookupFindsOwner(cfg, inputs, s, first[..32]);
  }
}
