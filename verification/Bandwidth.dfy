/** Bandwidth texts, tunnel/hysteria/utils/bpsconv.go, on ASCII and in unsigned 64-bit arithmetic. */
module Bandwidth {
  import opened Common
  import opened Text

  /** Bytes-per-second units times eight; 0: not a unit. */
  function Multiplier(unit: string): nat {
    if unit in {"b", "bps"} then 1
    else if unit in {"k", "kb", "kbps"} then 1_000
    else if unit in {"m", "mb", "mbps"} then 1_000_000
    else if unit in {"g", "gb", "gbps"} then 1_000_000_000
    else if unit in {"t", "tb", "tbps"} then 1_000_000_000_000
    else 0
  }

  /** v * unit / 8 as Go computes it: the product wraps around. */
  function Bps(v: nat, multiplier: nat): nat {
    v * multiplier % TWO64 / 8
  }

  /** StringToBps, lines 20-53. */
  method StringToBps(text: string) returns (r: Option<nat>)
    ensures r == Parse(text, Multiplier)
  {
    var s := Lower(Trim(text));
    var spl := 0;
    var i := 0;
    while i < |s|
      invariant 0 <= i <= |s| && spl == 0 && forall j :: 0 <= j < i ==> IsDigit(s[j])
    {
      if !IsDigit(s[i]) {
        spl := i;
        break;
      }
      i := i + 1;
    }
    DigitRunStops(s, i);
    assert AllDigits(s[..spl]);
    if spl == 0 { return None; }
    if DigitsValue(s[..spl]) >= TWO64 { return None; }
    var v := DigitsValue(s[..spl]);
    var unit := Trim(s[spl..]);
    var m := Multiplier(Lower(unit));
    if m == 0 { return None; }
    r := Some(Bps(v, m));
  }

  /** The length of the run of digits at the front. */
  function DigitRun(s: string): (n: nat)
    ensures n <= |s| && (forall i :: 0 <= i < n ==> IsDigit(s[i])) && (n < |s| ==> !IsDigit(s[n]))
  {
    if s == "" || !IsDigit(s[0]) then 0 else DigitRun(s[1..]) + 1
  }

  lemma DigitRunStops(s: string, n: nat)
    requires n <= |s| && (forall i :: 0 <= i < n ==> IsDigit(s[i])) && (n < |s| ==> !IsDigit(s[n]))
    ensures DigitRun(s) == n
  {
  }

  /** The value of a text, given the multipliers of the units: None if it is refused.
      A text that is all digits has no unit and is refused. */
  function Parse(text: string, multiplier: string -> nat): Option<nat> {
    var s := Lower(Trim(text));
    var n := DigitRun(s);
    if n == 0 || n == |s| || DigitsValue(s[..n]) >= TWO64 then None
    else
      var m := multiplier(Lower(Trim(s[n..])));
      if m == 0 then None else Some(Bps(DigitsValue(s[..n]), m))
  }

  // ----- what is accepted -------------------------------------------------

  /** digits · spaces · unit, with spaces around and letters in any case. */
  datatype Reading = Reading(left: string, digits: string, gap: string, unit: string, right: string) {
    predicate Spaced() {
      && AllSpaces(left) && AllSpaces(gap) && AllSpaces(right)
      && digits != "" && AllDigits(digits) && DigitsValue(digits) < TWO64
    }

    function Text(): string {
      left + (digits + gap + unit) + right
    }
  }

  /** A text that stands free of spaces and digits, as all units do. */
  predicate Free(u: string) {
    u != "" && !IsSpace(u[0]) && !IsSpace(u[|u| - 1]) && !IsDigit(u[0])
  }

  lemma UnitsAreFree(u: string)
    requires Multiplier(u) > 0
    ensures Free(u)
  {
  }

  lemma LowerTwice(s: string)
    ensures Lower(Lower(s)) == Lower(s)
  {
  }

  lemma SpacesAreLower(s: string)
    requires AllSpaces(Lower(s))
    ensures AllSpaces(s)
  {
    forall i | 0 <= i < |s| ensures IsSpace(s[i]) {
      assert Lower(s)[i] == LowerChar(s[i]) && IsSpace(Lower(s)[i]);
    }
  }

  lemma LowerKeepsFree(u: string)
    requires Free(Lower(u))
    ensures Free(u)
  {
  }

  lemma DigitsAreLower(d: string, l: string)
    requires Lower(d) == l && AllDigits(l)
    ensures d == l
  {
  }

  lemma LowerOfReading(r: Reading)
    requires AllDigits(r.digits) && AllSpaces(r.gap)
    ensures Lower(r.digits + r.gap + r.unit) == r.digits + (r.gap + Lower(r.unit))
  {
  }

  lemma PartsRun(digits: string, gap: string, unit: string)
    requires AllDigits(digits) && AllSpaces(gap) && Free(unit)
    ensures DigitRun(digits + (gap + unit)) == |digits|
  {
    var s := digits + (gap + unit);
    assert s[|digits|] == if gap == "" then unit[0] else gap[0];
    DigitRunStops(s, |digits|);
  }

  lemma PartsTrim(gap: string, unit: string)
    requires AllSpaces(gap) && Free(unit)
    ensures Trim(gap + unit) == unit
  {
    TrimKeeps(gap, unit, "");
    assert gap + unit + "" == gap + unit;
  }

  /** Parsing a text whose three parts are known. */
  lemma PartsParse(text: string, digits: string, gap: string, unit: string, multiplier: string -> nat)
    requires Lower(Trim(text)) == digits + (gap + unit)
    requires digits != "" && AllDigits(digits) && DigitsValue(digits) < TWO64 && AllSpaces(gap)
    requires Free(unit) && Lower(unit) == unit && multiplier(unit) > 0
    ensures Parse(text, multiplier) == Some(Bps(DigitsValue(digits), multiplier(unit)))
  {
    PartsRun(digits, gap, unit);
    PartsTrim(gap, unit);
    TakeDrop(digits, gap + unit);
  }

  lemma TakeDrop(a: string, b: string)
    ensures (a + b)[..|a|] == a && (a + b)[|a|..] == b
  {
  }

  /** Every reading with a known unit is accepted, with its value. */
  lemma ReadingsAreAccepted(r: Reading, multiplier: string -> nat)
    requires r.Spaced() && multiplier(Lower(r.unit)) > 0 && Free(Lower(r.unit))
    ensures Parse(r.Text(), multiplier) == Some(Bps(DigitsValue(r.digits), multiplier(Lower(r.unit))))
  {
    LowerKeepsFree(r.unit);
    LowerTwice(r.unit);
    var core := r.digits + r.gap + r.unit;
    assert IsDigit(core[0]) && core[|core| - 1] == r.unit[|r.unit| - 1];
    TrimKeeps(r.left, core, r.right);
    LowerOfReading(r);
    PartsParse(r.Text(), r.digits, r.gap, Lower(r.unit), multiplier);
  }

  /** And nothing else is: whatever is accepted reads as digits, spaces and a known unit. */
  lemma AcceptedTextsAreReadings(text: string, multiplier: string -> nat) returns (r: Reading)
    requires Parse(text, multiplier).Some?
    ensures r.Spaced() && multiplier(Lower(r.unit)) > 0 && r.Text() == text
  {
    var left, right := TrimSplits(text);
    var core := Trim(text);
    var n := DigitRun(Lower(core));
    var lowGap, lowTail := TrimSplits(Lower(core)[n..]);
    r := CutReading(left, core, right, n, lowGap, Trim(Lower(core)[n..]), lowTail);
    LowerTwice(r.unit);
  }

  /** Cutting a text the way its lower-case form is cut. */
  lemma CutReading(left: string, core: string, right: string, n: nat, gap: string, unit: string, tail: string)
    returns (r: Reading)
    requires n <= |core| && Lower(core)[n..] == gap + unit + tail
    requires AllDigits(Lower(core)[..n]) && AllSpaces(gap) && AllSpaces(tail) && AllSpaces(left) && AllSpaces(right)
    ensures r.digits == Lower(core)[..n] && Lower(r.unit) == unit && r.Text() == left + core + right
    ensures AllSpaces(r.left) && AllSpaces(r.gap) && AllSpaces(r.right)
  {
    assert Lower(core) == Lower(core)[..n] + Lower(core)[n..];
    LowerSplits(core, Lower(core)[..n], Lower(core)[n..]);
    DigitsAreLower(core[..n], Lower(core)[..n]);
    var rest := core[n..];
    LowerSplits(rest, gap + unit, tail);
    var first, last := rest[..|gap + unit|], rest[|gap + unit|..];
    LowerSplits(first, gap, unit);
    SpacesAreLower(first[..|gap|]);
    SpacesAreLower(last);
    r := Reading(left, core[..n], first[..|gap|], first[|gap|..], last + right);
    TakeDropJoin(core, n);
    TakeDropJoin(rest, |gap + unit|);
    TakeDropJoin(first, |gap|);
    Regroup(left, r.digits, r.gap, r.unit, last, right);
  }

  lemma TakeDropJoin(s: string, n: nat)
    requires n <= |s|
    ensures s == s[..n] + s[n..]
  {
  }

  lemma Regroup(a: string, b: string, c: string, d: string, e: string, f: string)
    ensures a + (b + ((c + d) + e)) + f == a + (b + c + d) + (e + f)
  {
  }

  lemma LowerSplits(s: string, a: string, b: string)
    requires Lower(s) == a + b
    ensures |a| <= |s| && Lower(s[..|a|]) == a && Lower(s[|a|..]) == b
  {
    assert |s| == |a| + |b|;
    assert Lower(s[..|a|]) == Lower(s)[..|a|];
    assert Lower(s[|a|..]) == Lower(s)[|a|..];
  }

  /** A bandwidth text is accepted if and only if it is digits, spaces and a known unit with a 64-bit value. */
  lemma AcceptedIffReading(text: string)
    ensures Parse(text, Multiplier).Some? <==>
      exists r: Reading :: r.Spaced() && Multiplier(Lower(r.unit)) > 0 && r.Text() == text
  {
    if Parse(text, Multiplier).Some? {
      var r := AcceptedTextsAreReadings(text, Multiplier);
    }
    if r: Reading :| r.Spaced() && Multiplier(Lower(r.unit)) > 0 && r.Text() == text {
      UnitsAreFree(Lower(r.unit));
      ReadingsAreAccepted(r, Multiplier);
    }
  }

  /** The value of a reading in each unit: bits per second, in decimal multiples, as bytes per second. */
  lemma ReadingsMean(r: Reading)
    requires r.Spaced()
    ensures
      var u, v, p := Lower(r.unit), DigitsValue(r.digits), Parse(r.Text(), Multiplier);
      && (u in {"b", "bps"} ==> p == Some(v % TWO64 / 8))
      && (u in {"k", "kb", "kbps"} ==> p == Some(v * 1_000 % TWO64 / 8))
      && (u in {"m", "mb", "mbps"} ==> p == Some(v * 1_000_000 % TWO64 / 8))
      && (u in {"g", "gb", "gbps"} ==> p == Some(v * 1_000_000_000 % TWO64 / 8))
      && (u in {"t", "tb", "tbps"} ==> p == Some(v * 1_000_000_000_000 % TWO64 / 8))
  {
    if Multiplier(Lower(r.unit)) > 0 {
      UnitsAreFree(Lower(r.unit));
      ReadingsAreAccepted(r, Multiplier);
    }
  }

  /** No other unit is known. */
  lemma UnitsAreKnown(unit: string)
    ensures Multiplier(unit) > 0 <==>
      unit in {"b", "bps", "k", "kb", "kbps", "m", "mb", "mbps", "g", "gb", "gbps", "t", "tb", "tbps"}
  {
  }

  /** The result is the true number of bytes, rounded down, if and only if the product fits into 64 bits. */
  lemma ExactIffNoWrap(v: nat, m: nat)
    ensures Bps(v, m) == v * m / 8 <==> v * m < TWO64
  {
    var p := v * m;
    if p >= TWO64 {
      assert p % TWO64 / 8 < TWO64 / 8 <= p / 8;
    }
  }

  /** ConvBandwidth, lines 59-68: an int is taken as it stands, two's complement for negative ones. */
  datatype Value = Str(s: string) | Int(n: int) | Other

  method ConvBandwidth(bw: Value) returns (r: Option<nat>)
    requires bw.Int? ==> -TWO63 <= bw.n < TWO63
    ensures bw.Str? ==> r == Parse(bw.s, Multiplier)
    ensures bw.Int? ==> r.Some? && r.value < TWO64 && (r.value - bw.n) % TWO64 == 0
    ensures bw.Other? ==> r == None
  {
    match bw
    case Str(s) => r := StringToBps(s);
    case Int(n) => r := Some(n % TWO64);
    case Other => r := None;
  }
}
