/** The names under which xray reports traffic (tunnel/xray/services.go:13-16, tunnel/xray/user.go:89-123)
    and the user ids hysteria reports (tunnel/hysteria/user.go:74-91). */
module StatName {
  import opened Common
  import opened Text
  import opened Pool
  import L = PoolLedger

  datatype Direction = Uplink | Downlink

  function DirectionName(d: Direction): string {
    if d == Uplink then "uplink" else "downlink"
  }

  /** user>>>id>>>traffic>>>direction */
  function Name(id: int, d: Direction): string {
    "user" + ">>>" + (Itoa(id) + ">>>" + ("traffic" + ">>>" + DirectionName(d)))
  }

  /** strings.Split around ">>>" */
  function Split(s: string): (parts: seq<string>)
    ensures parts != []
  {
    SplitFrom(s, 0)
  }

  function SplitFrom(s: string, i: nat): (parts: seq<string>)
    requires i <= |s|
    ensures parts != []
    decreases |s|, |s| - i
  {
    if i + 3 > |s| then [s]
    else if s[i..i + 3] == ">>>" then [s[..i]] + SplitFrom(s[i + 3..], 0)
    else SplitFrom(s, i + 1)
  }

  /** getEmailAndTrafficType; None: the index s[1] is out of range. */
  function EmailAndTrafficType(input: string): Option<(string, string)> {
    var s := Split(input);
    if |s| < 2 then None else Some((s[1], s[|s| - 1]))
  }

  lemma {:induction false} SplitHead(a: string, rest: string, i: nat)
    requires '>' !in a && i <= |a|
    ensures SplitFrom(a + ">>>" + rest, i) == [a] + SplitFrom(rest, 0)
    decreases |a| - i
  {
    var s := a + ">>>" + rest;
    if i < |a| {
      assert s[i..i + 3][0] == a[i];
      SplitHead(a, rest, i + 1);
    } else {
      assert s[i..i + 3] == ">>>";
      assert s[..i] == a && s[i + 3..] == rest;
    }
  }

  lemma {:induction false} SplitWhole(s: string, i: nat)
    requires '>' !in s && i <= |s|
    ensures SplitFrom(s, i) == [s]
    decreases |s| - i
  {
    if i + 3 <= |s| {
      assert s[i..i + 3][0] == s[i];
      SplitWhole(s, i + 1);
    }
  }

  lemma ItoaHasNoArrow(n: int)
    ensures '>' !in Itoa(n)
  {
  }

  lemma NameParts(email: string, kind: string)
    requires '>' !in email && '>' !in kind
    ensures Split("user" + ">>>" + (email + ">>>" + ("traffic" + ">>>" + kind))) == ["user", email, "traffic", kind]
  {
    SplitHead("user", email + ">>>" + ("traffic" + ">>>" + kind), 0);
    SplitHead(email, "traffic" + ">>>" + kind, 0);
    SplitHead("traffic", kind, 0);
    SplitWhole(kind, 0);
  }

  /** The id printed in a stat name is recovered together with its direction. */
  lemma NameRoundTrip(id: int, d: Direction)
    requires -TWO63 <= id < TWO63
    ensures
      var r := EmailAndTrafficType(Name(id, d));
      r.Some? && Atoi(r.value.0) == Some(id) && r.value.1 == DirectionName(d)
  {
    ItoaHasNoArrow(id);
    NameParts(Itoa(id), DirectionName(d));
    AtoiItoa(id);
  }

  // ----- from statistics to records ---------------------------------------

  /** One entry of xray's reply: xray counts one way only, so the value is doubled. */
  function XrayRecord(name: string, value: nat): Record
    requires EmailAndTrafficType(name).Some?
  {
    var (email, kind) := EmailAndTrafficType(name).value;
    match Atoi(email)
    case None => Bad
    case Some(id) =>
      if kind == "uplink" then Record(id, Some(2 * value), None)
      else if kind == "downlink" then Record(id, None, Some(2 * value))
      else Record(id, None, None)
  }

  /** One entry of hysteria's reply. */
  function HysteriaRecord(id: string, tx: nat, rx: nat): Record {
    match Atoi(id)
    case None => Bad
    case Some(n) => Record(n, Some(tx), Some(rx))
  }

  /** Where the readings land: xray's uplink is the user's upload and its downlink the download, doubled;
      another kind of counter sets nothing, and an id that is no number ends the fetch. */
  lemma XrayReadingsLand(id: int, value: nat)
    requires -TWO63 <= id < TWO63
    ensures
      var up, down := "user>>>" + Itoa(id) + ">>>traffic>>>" + "uplink",
        "user>>>" + Itoa(id) + ">>>traffic>>>" + "downlink";
      && EmailAndTrafficType(up).Some? && XrayRecord(up, value) == Record(id, Some(2 * value), None)
      && EmailAndTrafficType(down).Some? && XrayRecord(down, value) == Record(id, None, Some(2 * value))
  {
    PlainName(Itoa(id), "uplink");
    PlainName(Itoa(id), "downlink");
    ItoaHasNoArrow(id);
    NameParts(Itoa(id), "uplink");
    NameParts(Itoa(id), "downlink");
    AtoiItoa(id);
  }

  lemma PlainName(email: string, kind: string)
    ensures "user>>>" + email + ">>>traffic>>>" + kind == "user" + ">>>" + (email + ">>>" + ("traffic" + ">>>" + kind))
  {
    assert "user>>>" == "user" + ">>>" && ">>>traffic>>>" == ">>>" + "traffic" + ">>>";
  }

  lemma OtherReadingsSetNothing(email: string, kind: string, value: nat)
    requires '>' !in email && '>' !in kind && kind != "uplink" && kind != "downlink"
    ensures
      var name := "user" + ">>>" + (email + ">>>" + ("traffic" + ">>>" + kind));
      && EmailAndTrafficType(name).Some?
      && XrayRecord(name, value) == match Atoi(email) case None => Bad case Some(id) => Record(id, None, None)
  {
    NameParts(email, kind);
  }

  /** Hysteria's tx is the user's upload and its rx the download; here too an id that is no number ends the fetch. */
  lemma HysteriaReadingsLand(id: int, tx: nat, rx: nat)
    requires -TWO63 <= id < TWO63
    ensures HysteriaRecord(Itoa(id), tx, rx) == Record(id, Some(tx), Some(rx))
  {
    AtoiItoa(id);
  }

  lemma OddIdsEndTheFetch(id: string, tx: nat, rx: nat)
    ensures Atoi(id) == None <==> HysteriaRecord(id, tx, rx) == Bad
  {
  }

  datatype Stat = Stat(id: int, direction: Direction, value: nat)

  /** xray's reply lists each counter once, under the name of its user and direction. */
  function XrayReply(stats: seq<Stat>): (rs: seq<Record>)
    requires forall i :: 0 <= i < |stats| ==> -TWO63 <= stats[i].id < TWO63
    ensures |rs| == |stats|
    ensures forall i :: 0 <= i < |stats| ==>
      rs[i] == if stats[i].direction == Uplink then Record(stats[i].id, Some(2 * stats[i].value), None)
               else Record(stats[i].id, None, Some(2 * stats[i].value))
  {
    if stats == [] then []
    else
      var s := stats[0];
      NameRoundTrip(s.id, s.direction);
      [XrayRecord(Name(s.id, s.direction), s.value)] + XrayReply(stats[1..])
  }

  /** So distinct counters never collide, and the accounting of PoolLedger applies to xray as it reports. */
  lemma XrayReplyIsCanonical(stats: seq<Stat>)
    requires forall i :: 0 <= i < |stats| ==> -TWO63 <= stats[i].id < TWO63
    requires forall i, j :: 0 <= i < j < |stats| ==>
      stats[i].id != stats[j].id || stats[i].direction != stats[j].direction
    ensures L.Canonical(XrayReply(stats))
  {
  }

  /** Hysteria reports a map from printed ids; printed canonically they cannot collide ... */
  lemma HysteriaReplyIsCanonical(ids: seq<int>, tx: seq<nat>, rx: seq<nat>)
    requires |ids| == |tx| == |rx|
    requires forall i :: 0 <= i < |ids| ==> -TWO63 <= ids[i] < TWO63
    requires forall i, j :: 0 <= i < j < |ids| ==> Itoa(ids[i]) != Itoa(ids[j])
    ensures L.Canonical(seq(|ids|, i requires 0 <= i < |ids| => HysteriaRecord(Itoa(ids[i]), tx[i], rx[i])))
  {
    forall i | 0 <= i < |ids|
      ensures HysteriaRecord(Itoa(ids[i]), tx[i], rx[i]) == Record(ids[i], Some(tx[i]), Some(rx[i])) {
      AtoiItoa(ids[i]);
    }
  }

  /** ... but two keys "7" and "07", which the agent's own auth handler never hands out, would name the same user:
      what the first reading gave is overwritten by the second. */
  lemma OddKeysCollide<K>(cfg: Config<K>, s: State<K>)
    requires 7 in s.users && s.users[7].upload == s.users[7].download == 0
    ensures
      var (s', ok) := Fetch(cfg, s, [HysteriaRecord("7", 1, 2), HysteriaRecord("07", 3, 4)]);
      ok && s'.ledger.overwritten == s.ledger.overwritten + 3 && s'.users[7].Traffic() == 7
  {
    assert "7"[..0] == "" && DigitsValue("7") == 7;
    assert "07"[..1] == "0" && "0"[..0] == "" && DigitsValue("0") == 0 && DigitsValue("07") == 7;
    var first, second := Record(7, Some(1), Some(2)), Record(7, Some(3), Some(4));
    assert HysteriaRecord("7", 1, 2) == first && HysteriaRecord("07", 3, 4) == second;
    assert [first, second][1..] == [second] && [second][1..] == [];
  }
}
