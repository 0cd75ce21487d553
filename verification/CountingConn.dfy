/** Byte counters of anytls users, with connections adding to them (tunnel/anytls/counting_conn.go:22-32)
    while the synchronisation loop reads and clears them (tunnel/common/pool.go:140-147, tunnel/common/user.go:50-63).

    One step is one access to one counter. Counters belong to user objects, numbered here; a removed user's
    object can still be added to, and a user that comes back gets a new one. */
module CountingConn {

  datatype Direction = Upload | Download

  /** A counter, and of its bytes: how many were ever counted, how many were in a
      request when the counter was cleared, how many arrived while it was being read and cleared. */
  datatype Cell = Cell(value: nat, counted: nat, reported: nat, missed: nat)

  /** Where the loop stands with the user object it is at. */
  datatype PC =
    | Resting
    | Peeked(o: nat, down: nat)            // line 141: download loaded, upload not yet
    | Chosen(o: nat)                       // line 142 passed
    | ReadUp(o: nat, up: nat)              // GenTraffic has read the upload counter
    | ReadBoth(o: nat, up: nat, down: nat) // and the download counter
    | ClearedDown(o: nat, up: nat)         // ResetTraffic has cleared the download counter

  datatype State = State(up: seq<Cell>, down: seq<Cell>, pc: PC) {
    predicate Valid() {
      |up| == |down| && (pc != Resting ==> pc.o < |up|)
    }

    function Cells(d: Direction): seq<Cell> {
      if d == Upload then up else down
    }

    /** The counter's value has been read and not been cleared since. */
    predicate InWindow(d: Direction, o: nat) {
      pc != Resting && pc.o == o &&
      if d == Upload then pc.ReadUp? || pc.ReadBoth? || pc.ClearedDown? else pc.ReadBoth?
    }

    /** The value read in the open window. */
    function Snapshot(d: Direction): nat
      requires pc != Resting && InWindow(d, pc.o)
    {
      if d == Upload then pc.up else pc.down
    }
  }

  datatype Action = Add(d: Direction, o: nat, n: nat) | NewUser | Pick(o: nat) | Go

  predicate Enabled(s: State, a: Action) {
    match a
    case Add(d, o, _) => o < |s.Cells(d)|
    case NewUser => true
    case Pick(o) => s.pc == Resting && o < |s.down|
    case Go => s.pc != Resting
  }

  /** atomic.AddInt64; the bytes are missed if the window is open. */
  function Bump(s: State, d: Direction, o: nat, n: nat): Cell
    requires o < |s.Cells(d)|
  {
    var c := s.Cells(d)[o];
    c.(value := c.value + n, counted := c.counted + n, missed := c.missed + (if s.InWindow(d, o) then n else 0))
  }

  function Cleared(c: Cell, inRequest: nat): Cell {
    c.(value := 0, reported := c.reported + inRequest)
  }

  function Apply(s: State, a: Action): State
    requires s.Valid() && Enabled(s, a)
  {
    match a
    case Add(Upload, o, n) => s.(up := s.up[o := Bump(s, Upload, o, n)])
    case Add(Download, o, n) => s.(down := s.down[o := Bump(s, Download, o, n)])
    case NewUser => s.(up := s.up + [Cell(0, 0, 0, 0)], down := s.down + [Cell(0, 0, 0, 0)])
    case Pick(o) => s.(pc := Peeked(o, s.down[o].value))
    case Go =>
      match s.pc
      case Resting => s
      case Peeked(o, d) => s.(pc := if d + s.up[o].value > 0 then Chosen(o) else Resting)
      case Chosen(o) => s.(pc := ReadUp(o, s.up[o].value))
      case ReadUp(o, u) => s.(pc := ReadBoth(o, u, s.down[o].value))
      case ReadBoth(o, u, d) => s.(down := s.down[o := Cleared(s.down[o], d)], pc := ClearedDown(o, u))
      case ClearedDown(o, u) => s.(up := s.up[o := Cleared(s.up[o], u)], pc := Resting)
  }

  ghost predicate Runs(s: State, schedule: seq<Action>, s': State)
    decreases |schedule|
  {
    if schedule == [] then s == s'
    else s.Valid() && Enabled(s, schedule[0]) && Runs(Apply(s, schedule[0]), schedule[1..], s')
  }

  const START := State([], [], Resting)

  /** The books of one counter: in an open window the value read is what is still owed, else the value itself. */
  predicate CellOk(s: State, d: Direction, o: nat)
    requires o < |s.Cells(d)|
  {
    var c := s.Cells(d)[o];
    if s.InWindow(d, o) then
      && c.counted == c.reported + s.Snapshot(d) + c.missed
      && s.Snapshot(d) <= c.value <= s.Snapshot(d) + c.missed
    else c.counted == c.reported + c.value + c.missed
  }

  ghost predicate Inv(s: State) {
    s.Valid() && forall d, o: nat :: o < |s.Cells(d)| ==> CellOk(s, d, o)
  }

  lemma StepKeepsInv(s: State, a: Action)
    requires Inv(s) && Enabled(s, a)
    ensures Inv(Apply(s, a))
  {
    var s' := Apply(s, a);
    forall d, o: nat | o < |s'.Cells(d)| ensures CellOk(s', d, o) {
      if o < |s.Cells(d)| { assert CellOk(s, d, o); }
    }
  }

  lemma {:induction false} RunKeepsInv(s: State, schedule: seq<Action>, s': State)
    requires Inv(s) && Runs(s, schedule, s')
    ensures Inv(s')
    decreases |schedule|
  {
    if schedule != [] {
      StepKeepsInv(s, schedule[0]);
      RunKeepsInv(Apply(s, schedule[0]), schedule[1..], s');
    }
  }

  /** Nothing is counted twice: in every schedule, per user and direction, what was reported
      together with what is pending never exceeds what was counted. */
  lemma NeverOverReported(schedule: seq<Action>, s: State, d: Direction, o: nat)
    requires Runs(START, schedule, s) && o < |s.Cells(d)|
    ensures s.Cells(d)[o].reported + s.Cells(d)[o].value <= s.Cells(d)[o].counted
  {
    RunKeepsInv(START, schedule, s);
    assert CellOk(s, d, o);
  }

  /** And the shortfall is exactly the bytes added between the read of a counter and its clearing. */
  lemma ShortfallIsMissedBytes(schedule: seq<Action>, s: State, d: Direction, o: nat)
    requires Runs(START, schedule, s) && o < |s.Cells(d)| && !s.InWindow(d, o)
    ensures s.Cells(d)[o].counted - (s.Cells(d)[o].reported + s.Cells(d)[o].value) == s.Cells(d)[o].missed
  {
    RunKeepsInv(START, schedule, s);
    assert CellOk(s, d, o);
  }

  /** No add of this schedule falls into an open window of this counter. */
  ghost predicate NoAddInWindow(s: State, schedule: seq<Action>, d: Direction, o: nat)
    decreases |schedule|
  {
    schedule != [] && s.Valid() && Enabled(s, schedule[0]) ==>
      && !(schedule[0].Add? && schedule[0].d == d && schedule[0].o == o && schedule[0].n > 0 && s.InWindow(d, o))
      && NoAddInWindow(Apply(s, schedule[0]), schedule[1..], d, o)
  }

  lemma {:induction false} MissedOnlyInWindow(s: State, schedule: seq<Action>, s': State, d: Direction, o: nat)
    requires s.Valid() && Runs(s, schedule, s')
    ensures |s.Cells(d)| <= |s'.Cells(d)|
    ensures o < |s'.Cells(d)| ==>
      var before := if o < |s.Cells(d)| then s.Cells(d)[o].missed else 0;
      before <= s'.Cells(d)[o].missed && (s'.Cells(d)[o].missed == before <==> NoAddInWindow(s, schedule, d, o))
    decreases |schedule|
  {
    if schedule != [] {
      MissedOnlyInWindow(Apply(s, schedule[0]), schedule[1..], s', d, o);
    }
  }

  /** So every byte is reported or pending if and only if no add fell into such a window. */
  lemma NothingMissedIffNoAddInWindow(schedule: seq<Action>, s: State, d: Direction, o: nat)
    requires Runs(START, schedule, s) && o < |s.Cells(d)| && !s.InWindow(d, o)
    ensures s.Cells(d)[o].counted == s.Cells(d)[o].reported + s.Cells(d)[o].value <==>
      NoAddInWindow(START, schedule, d, o)
  {
    ShortfallIsMissedBytes(schedule, s, d, o);
    MissedOnlyInWindow(START, schedule, s, d, o);
  }

  /** The loop's turn with one user object, from its choice to the clearing of both counters. */
  function Turn(s: State, o: nat): State
    requires s.Valid() && s.pc == Resting && o < |s.up|
  {
    var s1 := Apply(s, Pick(o));
    var s2 := Apply(s1, Go);
    if s2.pc == Resting then s2 else Apply(Apply(Apply(Apply(s2, Go), Go), Go), Go)
  }

  /** Undisturbed, a turn puts both counters into the request and clears them; a user without traffic is left alone. */
  lemma TurnReportsBoth(s: State, o: nat)
    requires s.Valid() && s.pc == Resting && o < |s.up|
    ensures
      var s', u, d := Turn(s, o), s.up[o], s.down[o];
      && s'.pc == Resting
      && s'.up == s.up[o := Cell(0, u.counted, u.reported + u.value, u.missed)]
      && s'.down == s.down[o := Cell(0, d.counted, d.reported + d.value, d.missed)]
  {
    var s1 := Apply(s, Pick(o));
    var s2 := Apply(s1, Go);
    assert s.up[o].value + s.down[o].value == 0 ==> s.up == s.up[o := s.up[o]] && s.down == s.down[o := s.down[o]];
  }
}
