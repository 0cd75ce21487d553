/** The string functions of the Go library that the agent's parsers use, on ASCII. */
module Text {
  import opened Common

  predicate IsDigit(c: char) {
    '0' <= c <= '9'
  }

  predicate AllDigits(s: string) {
    forall i :: 0 <= i < |s| ==> IsDigit(s[i])
  }

  /** The number a string of digits denotes. */
  function DigitsValue(s: string): nat
    requires AllDigits(s)
  {
    if s == "" then 0 else DigitsValue(s[..|s| - 1]) * 10 + (s[|s| - 1] - '0') as nat
  }

  function Digits(n: nat): (s: string)
    ensures s != "" && AllDigits(s)
  {
    if n < 10 then ['0' + n as char] else Digits(n / 10) + ['0' + (n % 10) as char]
  }

  lemma {:induction false} DigitsDenote(n: nat)
    ensures DigitsValue(Digits(n)) == n
  {
    if n >= 10 {
      DigitsDenote(n / 10);
      assert Digits(n)[..|Digits(n)| - 1] == Digits(n / 10);
    } else {
      assert Digits(n)[..0] == "";
    }
  }

  // ----- strconv ----------------------------------------------------------

  const TWO63 := 0x8000_0000_0000_0000
  const TWO64 := 0x1_0000_0000_0000_0000

  /** strconv.Itoa */
  function Itoa(n: int): string {
    if n < 0 then "-" + Digits(-n) else Digits(n)
  }

  /** strconv.Atoi: an optional sign, at least one digit, and a 64-bit result. */
  function Atoi(s: string): Option<int> {
    var body := if s != "" && s[0] in {'-', '+'} then s[1..] else s;
    if body == "" || !AllDigits(body) then None
    else
      var n: int := if s[0] == '-' then 0 - DigitsValue(body) else DigitsValue(body);
      if -TWO63 <= n < TWO63 then Some(n) else None
  }

  /** Every 64-bit number survives being printed and parsed; so no two print alike. */
  lemma AtoiItoa(n: int)
    requires -TWO63 <= n < TWO63
    ensures Atoi(Itoa(n)) == Some(n)
  {
    DigitsDenote(if n < 0 then -n else n);
    if n < 0 {
      assert Itoa(n)[1..] == Digits(-n);
    } else {
      assert IsDigit(Itoa(n)[0]);
    }
  }

  /** A number that does not fit into 64 bits is refused. */
  lemma AtoiRefusesWide(n: int)
    requires !(-TWO63 <= n < TWO63)
    ensures Atoi(Itoa(n)) == None
  {
    DigitsDenote(if n < 0 then -n else n);
    if n < 0 {
      assert Itoa(n)[1..] == Digits(-n);
    } else {
      assert IsDigit(Itoa(n)[0]);
    }
  }

  /** Digits with an optional sign are read as decimals, if the number fits ... */
  lemma AtoiReads(d: string)
    requires d != "" && AllDigits(d) && DigitsValue(d) < TWO63
    ensures var n: int := DigitsValue(d); Atoi(d) == Atoi("+" + d) == Some(n) && Atoi("-" + d) == Some(-n)
  {
    assert ("+" + d)[1..] == d && ("-" + d)[1..] == d && IsDigit(d[0]);
  }

  /** ... and nothing else is read. */
  lemma AtoiReadsOnly(s: string) returns (d: string)
    requires Atoi(s).Some?
    ensures d != "" && AllDigits(d) && (s == d || s == "+" + d || s == "-" + d)
  {
    d := if s[0] in {'-', '+'} then s[1..] else s;
  }

  /** The last digit counts once, the one before ten times. */
  lemma DecimalDigits()
    ensures AllDigits("120") && DigitsValue("120") == 120
    ensures Digits(120) == "120"
  {
    assert "120"[..2] == "12" && "12"[..1] == "1" && "1"[..0] == "";
    assert DigitsValue("1") == 1 && DigitsValue("12") == 12;
    assert Digits(12) == "1" + "2";
  }

  // ----- strings ----------------------------------------------------------

  /** Cuts around the first c, as strings.SplitN with a limit of two does. */
  function Cut(s: string, c: char): (r: Option<(string, string)>)
    ensures r == None <==> c !in s
    ensures r.Some? ==> s == r.value.0 + [c] + r.value.1 && c !in r.value.0
  {
    if s == "" then None
    else if s[0] == c then Some(("", s[1..]))
    else
      match Cut(s[1..], c)
      case None => None
      case Some(p) => Some(([s[0]] + p.0, p.1))
  }

  predicate IsSpace(c: char) {
    c == ' ' || '\t' <= c <= '\r'
  }

  predicate AllSpaces(s: string) {
    forall i :: 0 <= i < |s| ==> IsSpace(s[i])
  }

  function TrimLeft(s: string): string {
    if s != "" && IsSpace(s[0]) then TrimLeft(s[1..]) else s
  }

  function TrimRight(s: string): string {
    if s != "" && IsSpace(s[|s| - 1]) then TrimRight(s[..|s| - 1]) else s
  }

  lemma {:induction false} TrimLeftSplits(s: string) returns (spaces: string)
    ensures AllSpaces(spaces) && s == spaces + TrimLeft(s)
  {
    if s != "" && IsSpace(s[0]) {
      var rest := TrimLeftSplits(s[1..]);
      spaces := [s[0]] + rest;
    } else {
      spaces := "";
    }
  }

  lemma {:induction false} TrimRightSplits(s: string) returns (spaces: string)
    ensures AllSpaces(spaces) && s == TrimRight(s) + spaces
  {
    if s != "" && IsSpace(s[|s| - 1]) {
      var rest := TrimRightSplits(s[..|s| - 1]);
      spaces := rest + [s[|s| - 1]];
    } else {
      spaces := "";
    }
  }

  /** strings.TrimSpace */
  function Trim(s: string): string {
    TrimRight(TrimLeft(s))
  }

  /** What is trimmed off is space, at both ends. */
  lemma TrimSplits(s: string) returns (left: string, right: string)
    ensures AllSpaces(left) && AllSpaces(right) && s == left + Trim(s) + right
  {
    left := TrimLeftSplits(s);
    right := TrimRightSplits(TrimLeft(s));
  }

  /** Trimming stops at the first and the last character that is no space. */
  lemma TrimKeeps(left: string, s: string, right: string)
    requires AllSpaces(left) && AllSpaces(right)
    requires s != "" && !IsSpace(s[0]) && !IsSpace(s[|s| - 1])
    ensures Trim(left + s + right) == s
  {
    TrimLeftKeeps(left, s + right);
    assert left + s + right == left + (s + right);
    TrimRightKeeps(s, right);
  }

  lemma {:induction false} TrimLeftKeeps(left: string, s: string)
    requires AllSpaces(left) && s != "" && !IsSpace(s[0])
    ensures TrimLeft(left + s) == s
    decreases |left|
  {
    if left != "" {
      TrimLeftKeeps(left[1..], s);
      assert (left + s)[1..] == left[1..] + s;
    } else {
      assert left + s == s;
    }
  }

  lemma {:induction false} TrimRightKeeps(s: string, right: string)
    requires AllSpaces(right) && s != "" && !IsSpace(s[|s| - 1])
    ensures TrimRight(s + right) == s
    decreases |right|
  {
    if right != "" {
      TrimRightKeeps(s, right[..|right| - 1]);
      assert (s + right)[..|s + right| - 1] == s + right[..|right| - 1];
    } else {
      assert s + right == s;
    }
  }

  function LowerChar(c: char): char {
    if 'A' <= c <= 'Z' then c + 32 as char else c
  }

  /** strings.ToLower */
  function Lower(s: string): (r: string)
    ensures |r| == |s|
  {
    seq(|s|, i requires 0 <= i < |s| => LowerChar(s[i]))
  }

  lemma LowerAndSpace(c: char)
    ensures LowerChar('M') == 'm' && LowerChar('A') == 'a' && LowerChar('Z') == 'z'
    ensures !('A' <= c <= 'Z') ==> LowerChar(c) == c
    ensures IsSpace(c) <==> c == ' ' || c == '\t' || c == '\n' || c == '\r' || c == 11 as char || c == 12 as char
  {
  }
}
