/** The overlay of command-line ACME flags on the configuration file, cli/init.go:45-129. */
module AcmeOverlay {
  import opened Common
  import opened Text

  datatype Dns = Dns(name: string, config: Option<map<string, string>>)

  datatype Acme = Acme(
    domains: seq<string>, email: string, ca: string, keyType: string, dir: string, challenge: string,
    dns: Option<Dns>, httpPort: int, tlsAlpnPort: int, fallback: bool, eabKeyID: string, eabMACKey: string)

  const NO_ACME := Acme([], "", "", "", "", "", None, 0, 0, false, "", "")

  datatype Flags = Flags(
    domains: seq<string>, email: string, ca: string, keyType: string, dir: string, challenge: string,
    dnsName: string, dnsConfig: seq<string>, httpPort: int, tlsAlpnPort: int, fallback: bool, zeroSSLEAB: string)
  {
    /** Some flag is set (lines 48-59). */
    predicate Any() {
      || |domains| > 0 || email != "" || ca != "" || challenge != "" || dnsName != "" || |dnsConfig| > 0
      || zeroSSLEAB != "" || keyType != "" || dir != "" || httpPort > 0 || tlsAlpnPort > 0 || fallback
    }
  }

  function Or(flag: string, file: string): string {
    if flag != "" then flag else file
  }

  /** The provider options on top of `m`, in order; an option without "=" is ignored. */
  function Options(m: map<string, string>, kvs: seq<string>): map<string, string> {
    if kvs == [] then m
    else
      var before := Options(m, kvs[..|kvs| - 1]);
      match Cut(kvs[|kvs| - 1], '=')
      case None => before
      case Some(kv) => before[kv.0 := kv.1]
  }

  function MergeDns(f: Flags, file: Option<Dns>): Option<Dns> {
    var own := if file.Some? then file.value else Dns("", None);
    var named := if f.dnsName != "" then Some(own.(name := f.dnsName)) else file;
    if |f.dnsConfig| == 0 then named
    else
      var d := if named.Some? then named.value else Dns("", None);
      Some(d.(config := Some(Options(if d.config.Some? then d.config.value else map[], f.dnsConfig))))
  }

  function Merge(f: Flags, file: Option<Acme>): Option<Acme> {
    if file == None && !f.Any() then None
    else Some(MergeLast(f, MergeFirst(f, if file.Some? then file.value else NO_ACME)))
  }

  /** Lines 69-86. */
  function MergeFirst(f: Flags, a: Acme): Acme {
    a.(domains := if |f.domains| > 0 then f.domains else a.domains,
       email := Or(f.email, a.email), ca := Or(f.ca, a.ca), keyType := Or(f.keyType, a.keyType),
       dir := Or(f.dir, a.dir), challenge := Or(f.challenge, a.challenge))
  }

  /** Lines 87-128. */
  function MergeLast(f: Flags, a: Acme): Acme {
    var eab := Cut(f.zeroSSLEAB, ':');
    a.(httpPort := if f.httpPort > 0 then f.httpPort else a.httpPort,
       tlsAlpnPort := if f.tlsAlpnPort > 0 then f.tlsAlpnPort else a.tlsAlpnPort,
       fallback := f.fallback || a.fallback,
       dns := MergeDns(f, a.dns),
       eabKeyID := if eab.Some? then eab.value.0 else a.eabKeyID,
       eabMACKey := if eab.Some? then eab.value.1 else a.eabMACKey)
  }

  /** The loop over the provider options, lines 113-118. */
  method ApplyOptions(file: map<string, string>, kvs: seq<string>) returns (m: map<string, string>)
    ensures m == Options(file, kvs)
  {
    m := file;
    var i := 0;
    while i < |kvs|
      invariant 0 <= i <= |kvs| && m == Options(file, kvs[..i])
    {
      var parts := Cut(kvs[i], '=');
      assert kvs[..i + 1][..i] == kvs[..i];
      if parts.Some? { m := m[parts.value.0 := parts.value.1]; }
      i := i + 1;
    }
    assert kvs[..i] == kvs;
  }

  /** Lines 97-119. */
  method OverlayDns(f: Flags, file: Option<Dns>) returns (dns: Option<Dns>)
    ensures dns == MergeDns(f, file)
  {
    dns := file;
    if f.dnsName != "" {
      if dns == None { dns := Some(Dns("", None)); }
      dns := Some(dns.value.(name := f.dnsName));
    }
    if |f.dnsConfig| > 0 {
      if dns == None { dns := Some(Dns("", None)); }
      var m := ApplyOptions(if dns.value.config.Some? then dns.value.config.value else map[], f.dnsConfig);
      dns := Some(dns.value.(config := Some(m)));
    }
  }

  method OverlayFirst(f: Flags, file: Acme) returns (a: Acme)
    ensures a == MergeFirst(f, file)
  {
    a := file;
    if |f.domains| > 0 { a := a.(domains := f.domains); }
    if f.email != "" { a := a.(email := f.email); }
    if f.ca != "" { a := a.(ca := f.ca); }
    if f.keyType != "" { a := a.(keyType := f.keyType); }
    if f.dir != "" { a := a.(dir := f.dir); }
    if f.challenge != "" { a := a.(challenge := f.challenge); }
  }

  method OverlayLast(f: Flags, file: Acme) returns (a: Acme)
    ensures a == MergeLast(f, file)
  {
    a := file;
    if f.httpPort > 0 { a := a.(httpPort := f.httpPort); }
    if f.tlsAlpnPort > 0 { a := a.(tlsAlpnPort := f.tlsAlpnPort); }
    if f.fallback { a := a.(fallback := true); }
    var dns := OverlayDns(f, a.dns);
    a := a.(dns := dns);
    if f.zeroSSLEAB != "" {
      var parts := Cut(f.zeroSSLEAB, ':');
      if parts.Some? { a := a.(eabKeyID := parts.value.0, eabMACKey := parts.value.1); }
    }
  }

  class Config {
    var acme: Option<Acme>

    /** mergeACMECLI, lines 45-129. */
    method MergeACMECLI(f: Flags)
      modifies this
      ensures acme == Merge(f, old(acme))
    {
      if acme == None && !f.Any() { return; }
      var a := OverlayFirst(f, if acme.Some? then acme.value else NO_ACME);
      a := OverlayLast(f, a);
      acme := Some(a);
    }
  }

  // ----- what the overlay means -------------------------------------------

  /** Option i sets k. */
  predicate Sets(kvs: seq<string>, k: string, i: int) {
    0 <= i < |kvs| && Cut(kvs[i], '=').Some? && Cut(kvs[i], '=').value.0 == k
  }

  /** Option i is the last one that sets k. */
  predicate SetsLast(kvs: seq<string>, k: string, i: int) {
    Sets(kvs, k, i) && forall j :: i < j < |kvs| ==> !Sets(kvs, k, j)
  }

  lemma SetsShorter(kvs: seq<string>, k: string, i: int)
    requires kvs != [] && i < |kvs| - 1
    ensures Sets(kvs, k, i) <==> Sets(kvs[..|kvs| - 1], k, i)
  {
  }

  lemma {:induction false} LastOptionWins(m: map<string, string>, kvs: seq<string>, k: string, i: int)
    requires SetsLast(kvs, k, i)
    ensures k in Options(m, kvs) && Options(m, kvs)[k] == Cut(kvs[i], '=').value.1
    decreases |kvs|
  {
    var n := |kvs| - 1;
    if i < n {
      assert !Sets(kvs, k, n);
      forall j | i <= j < n ensures Sets(kvs, k, j) <==> Sets(kvs[..n], k, j) { SetsShorter(kvs, k, j); }
      LastOptionWins(m, kvs[..n], k, i);
    }
  }

  lemma {:induction false} FileValueStays(m: map<string, string>, kvs: seq<string>, k: string)
    requires forall j :: 0 <= j < |kvs| ==> !Sets(kvs, k, j)
    ensures (k in Options(m, kvs) <==> k in m) && (k in m ==> Options(m, kvs)[k] == m[k])
    decreases |kvs|
  {
    if kvs != [] {
      var n := |kvs| - 1;
      assert !Sets(kvs, k, n);
      forall j | 0 <= j < n ensures !Sets(kvs[..n], k, j) { SetsShorter(kvs, k, j); }
      FileValueStays(m, kvs[..n], k);
    }
  }

  lemma {:induction false} SomeLast(kvs: seq<string>, k: string, i: int) returns (l: int)
    requires Sets(kvs, k, i)
    ensures SetsLast(kvs, k, l)
    decreases |kvs| - i
  {
    if j :| i < j < |kvs| && Sets(kvs, k, j) {
      l := SomeLast(kvs, k, j);
    } else {
      l := i;
    }
  }

  /** The options are the file's map overridden, key by key, with the last command-line option, split at
      its first "=". */
  lemma OptionsOverride(m: map<string, string>, kvs: seq<string>, k: string)
    ensures forall i :: SetsLast(kvs, k, i) ==> k in Options(m, kvs) && Options(m, kvs)[k] == Cut(kvs[i], '=').value.1
    ensures (forall i :: !SetsLast(kvs, k, i)) ==>
      (k in Options(m, kvs) <==> k in m) && (k in m ==> Options(m, kvs)[k] == m[k])
  {
    if i :| SetsLast(kvs, k, i) {
      LastOptionWins(m, kvs, k, i);
    } else {
      forall j | 0 <= j < |kvs| ensures !Sets(kvs, k, j) {
        if Sets(kvs, k, j) { var l := SomeLast(kvs, k, j); }
      }
      FileValueStays(m, kvs, k);
    }
  }

  lemma OptionsIdempotent(m: map<string, string>, kvs: seq<string>)
    ensures Options(Options(m, kvs), kvs) == Options(m, kvs)
  {
    var once := Options(m, kvs);
    var twice := Options(once, kvs);
    forall k ensures (k in twice <==> k in once) && (k in once ==> twice[k] == once[k]) {
      OptionsOverride(m, kvs, k);
      OptionsOverride(once, kvs, k);
      if i :| SetsLast(kvs, k, i) {
        assert k in once && k in twice;
      }
    }
  }

  /** Idempotence: overlaying the same flags a second time changes nothing. */
  lemma MergeIdempotent(f: Flags, file: Option<Acme>)
    ensures Merge(f, Merge(f, file)) == Merge(f, file)
  {
    forall m ensures Options(Options(m, f.dnsConfig), f.dnsConfig) == Options(m, f.dnsConfig) {
      OptionsIdempotent(m, f.dnsConfig);
    }
    if Merge(f, file).Some? {
      var dns := if file.Some? then file.value.dns else None;
      assert MergeDns(f, MergeDns(f, dns)) == MergeDns(f, dns);
    }
  }

  /** The provider options of a configuration; none if there is no map. */
  function OptionsOf(a: Acme): map<string, string> {
    if a.dns.Some? && a.dns.value.config.Some? then a.dns.value.config.value else map[]
  }

  /** Through the whole overlay: every provider option of the result is the command line's last
      setting of its key, or else the file's. */
  lemma MergedOptions(f: Flags, file: Acme, k: string)
    ensures
      var a := Merge(f, Some(file));
      && a.Some?
      && (forall i :: SetsLast(f.dnsConfig, k, i) ==>
            k in OptionsOf(a.value) && OptionsOf(a.value)[k] == Cut(f.dnsConfig[i], '=').value.1)
      && ((forall i :: !SetsLast(f.dnsConfig, k, i)) ==>
            (k in OptionsOf(a.value) <==> k in OptionsOf(file))
            && (k in OptionsOf(file) ==> OptionsOf(a.value)[k] == OptionsOf(file)[k]))
  {
    OptionsOverride(OptionsOf(file), f.dnsConfig, k);
  }

  /** A flag that is set beats the file, one that is not leaves it alone; the EAB flag is the key id, a colon and
      the key. */
  lemma FlagsBeatFile(f: Flags, file: Acme)
    ensures
      var m := Merge(f, Some(file));
      m.Some? &&
      var a := m.value;
      && a.domains == (if f.domains != [] then f.domains else file.domains)
      && a.email == (if f.email != "" then f.email else file.email)
      && a.ca == (if f.ca != "" then f.ca else file.ca)
      && a.keyType == (if f.keyType != "" then f.keyType else file.keyType)
      && a.dir == (if f.dir != "" then f.dir else file.dir)
      && a.challenge == (if f.challenge != "" then f.challenge else file.challenge)
      && a.httpPort == (if f.httpPort > 0 then f.httpPort else file.httpPort)
      && a.tlsAlpnPort == (if f.tlsAlpnPort > 0 then f.tlsAlpnPort else file.tlsAlpnPort)
      && a.fallback == (f.fallback || file.fallback)
      && (if ':' in f.zeroSSLEAB then f.zeroSSLEAB == a.eabKeyID + ":" + a.eabMACKey && ':' !in a.eabKeyID
          else a.eabKeyID == file.eabKeyID && a.eabMACKey == file.eabMACKey)
  {
  }

  /** The DNS provider's name likewise; a section appears if and only if the file has one or a DNS flag is set. */
  lemma DnsFlagsBeatFile(f: Flags, file: Acme)
    ensures
      var dns := Merge(f, Some(file)).value.dns;
      && (dns.Some? <==> file.dns.Some? || f.dnsName != "" || f.dnsConfig != [])
      && (f.dnsName != "" ==> dns.value.name == f.dnsName)
      && (f.dnsName == "" && file.dns.Some? ==> dns.value.name == file.dns.value.name)
      && (f.dnsName == "" && file.dns == None && dns.Some? ==> dns.value.name == "")
  {
  }

  /** Without a section in the file there is one if and only if some flag is set, and then it is the overlay on an
      empty one. */
  lemma SectionAppearsIff(f: Flags)
    ensures Merge(f, None) == None <==>
      && f.domains == [] && f.email == "" && f.ca == "" && f.keyType == "" && f.dir == "" && f.challenge == ""
      && f.dnsName == "" && f.dnsConfig == [] && f.httpPort <= 0 && f.tlsAlpnPort <= 0 && !f.fallback
      && f.zeroSSLEAB == ""
    ensures Merge(f, None).Some? ==>
      Merge(f, None) == Merge(f, Some(Acme([], "", "", "", "", "", None, 0, 0, false, "", "")))
  {
  }
}
