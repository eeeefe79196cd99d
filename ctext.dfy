/** The C string and number conversions the session engine relies on:
    `atoi`, `sprintf("%d")`, `strchr`, the NUL-terminated view of a buffer,
    `sscanf("%u,%u")` and truncating integer division. */
module CText {
  import opened Sys

  const Nul: char := '\0'

  predicate IsDigit(ch: char) { '0' <= ch <= '9' }

  /** `isspace` in the C locale. */
  predicate IsSpace(ch: char) { ch == ' ' || 9 <= ch as int <= 13 }

  predicate AllDigits(s: string) { forall i :: 0 <= i < |s| ==> IsDigit(s[i]) }

  /** Drops leading white space. */
  function SkipSpace(s: string): string
  {
    if s != [] && IsSpace(s[0]) then SkipSpace(s[1..]) else s
  }

  /** Length of the leading run of decimal digits. */
  function DigitRun(s: string): (n: nat)
    ensures n <= |s|
  {
    if s != [] && IsDigit(s[0]) then DigitRun(s[1..]) + 1 else 0
  }

  function DigitValue(ch: char): nat
  {
    if IsDigit(ch) then ch as int - '0' as int else 0
  }

  /** Value of a string of decimal digits, most significant digit first. */
  function DigitsValue(d: string): nat
  {
    if d == [] then 0 else 10 * DigitsValue(d[..|d| - 1]) + DigitValue(d[|d| - 1])
  }

  /** Value of the leading digits of `s`, 0 when there are none. */
  function LeadingValue(s: string): nat
  {
    DigitsValue(s[..DigitRun(s)])
  }

  /** C `atoi`: optional white space, an optional sign, then decimal digits;
      0 when no digit follows. */
  function Atoi(s: string): int
  {
    var t := SkipSpace(s);
    if t != [] && t[0] == '-' then -(LeadingValue(t[1..]) as int)
    else if t != [] && t[0] == '+' then LeadingValue(t[1..])
    else LeadingValue(t)
  }

  /** A lone digit reads as its value. */
  lemma AtoiDigit(s: string)
    requires |s| == 1 && IsDigit(s[0])
    ensures Atoi(s) == s[0] as int - '0' as int
  {
    assert SkipSpace(s) == s;
    assert DigitRun(s[1..]) == 0;
    assert DigitRun(s) == 1;
    assert s[..1] == s && s[..|s| - 1] == [];
    assert DigitsValue(s) == DigitValue(s[0]);
  }

  function DigitChar(d: nat): (ch: char)
    requires d < 10
    ensures IsDigit(ch)
  {
    ('0' as int + d) as char
  }

  /** Decimal digits of a natural number, without leading zeros. */
  function NatString(n: nat): (s: string)
    ensures |s| >= 1 && AllDigits(s)
  {
    if n < 10 then [DigitChar(n)] else NatString(n / 10) + [DigitChar(n % 10)]
  }

  /** `sprintf("%d")` and `sprintf("%u")` for values that fit. */
  function DecimalString(n: int): (s: string)
    ensures s != [] && (IsDigit(s[0]) || s[0] == '-')
    ensures forall i :: 0 <= i < |s| ==> s[i] != ','
  {
    if n < 0 then "-" + NatString(-n) else NatString(n)
  }

  lemma {:induction false} NatStringValue(n: nat)
    ensures DigitsValue(NatString(n)) == n
  {
    if n >= 10 {
      var s := NatString(n);
      assert s[..|s| - 1] == NatString(n / 10);
      NatStringValue(n / 10);
    }
  }

  lemma {:induction false} DigitRunStops(d: string, tail: string)
    requires AllDigits(d)
    requires tail == [] || !IsDigit(tail[0])
    ensures DigitRun(d + tail) == |d|
  {
    if d != [] {
      assert (d + tail)[1..] == d[1..] + tail;
      DigitRunStops(d[1..], tail);
    } else {
      assert d + tail == tail;
    }
  }

  lemma LeadingValueOf(d: string, tail: string)
    requires AllDigits(d)
    requires tail == [] || !IsDigit(tail[0])
    ensures LeadingValue(d + tail) == DigitsValue(d)
  {
    DigitRunStops(d, tail);
    assert (d + tail)[..|d|] == d;
  }

  /** `atoi` reads back what `sprintf("%d")` wrote, whatever non-digit text
      follows it (a comma, the end of the string). */
  lemma AtoiDecimalString(n: int, tail: string)
    requires tail == [] || !IsDigit(tail[0])
    ensures Atoi(DecimalString(n) + tail) == n
  {
    if n < 0 {
      var m: nat := -n;
      AtoiNegative(m, tail);
      assert DecimalString(n) + tail == "-" + NatString(m) + tail;
    } else {
      AtoiNatural(n, tail);
      assert DecimalString(n) + tail == NatString(n) + tail;
    }
  }

  lemma AtoiNatural(n: nat, tail: string)
    requires tail == [] || !IsDigit(tail[0])
    ensures Atoi(NatString(n) + tail) == n
  {
    var s := NatString(n) + tail;
    assert IsDigit(s[0]) && !IsSpace(s[0]);
    assert SkipSpace(s) == s;
    LeadingValueOf(NatString(n), tail);
    NatStringValue(n);
  }

  lemma AtoiNegative(m: nat, tail: string)
    requires m > 0
    requires tail == [] || !IsDigit(tail[0])
    ensures Atoi("-" + NatString(m) + tail) == -(m as int)
  {
    var s := "-" + NatString(m) + tail;
    assert s[0] == '-' && !IsSpace(s[0]);
    assert SkipSpace(s) == s;
    assert s[1..] == NatString(m) + tail;
    LeadingValueOf(NatString(m), tail);
    NatStringValue(m);
  }

  /** `strchr`: index of the first occurrence of `c`. */
  function Find(s: string, c: char): (r: Option<nat>)
    ensures r.Some? ==> r.value < |s| && s[r.value] == c
    ensures r.Some? ==> forall i :: 0 <= i < r.value ==> s[i] != c
    ensures r.None? ==> forall i :: 0 <= i < |s| ==> s[i] != c
  {
    if s == [] then None
    else if s[0] == c then Some(0)
    else match Find(s[1..], c)
      case None => None
      case Some(k) => Some(k + 1)
  }

  /** The values a `strchr(tmp, ',')` walk reads with `atoi`: one per
      comma-separated field, `atoi` taken from the start of each field. */
  function FieldValues(s: string): (r: seq<int>)
    ensures r != [] && r[0] == Atoi(s)
    decreases |s|
  {
    match Find(s, ',')
    case None => [Atoi(s)]
    case Some(k) => [Atoi(s)] + FieldValues(s[k + 1..])
  }

  /** Membership in the field values, one field at a time. */
  lemma FieldValuesHas(s: string, x: int)
    ensures Find(s, ',').None? ==> (x in FieldValues(s) <==> x == Atoi(s))
    ensures Find(s, ',').Some? ==>
      (x in FieldValues(s) <==> x == Atoi(s) || x in FieldValues(s[Find(s, ',').value + 1..]))
  {
  }

  /** `strsep(&p, ",")` on a non-NULL `p`: the token before the first comma,
      and where `p` is left: just past that comma, or NULL when there is
      none. */
  function StrSep(p: string): (string, Option<string>)
  {
    match Find(p, ',')
    case None => (p, None)
    case Some(k) => (p[..k], Some(p[k + 1..]))
  }

  /** The token holds no comma, and token, comma and rest rebuild the text. */
  lemma StrSepSplits(p: string)
    ensures ',' !in StrSep(p).0
    ensures StrSep(p).1.None? ==> StrSep(p).0 == p
    ensures StrSep(p).1.Some? ==> p == StrSep(p).0 + [','] + StrSep(p).1.value
  {
    match Find(p, ',')
    case None =>
    case Some(k) =>
      assert p == p[..k] + [','] + p[k + 1..];
  }

  /** One step of the walk: the value at the head, then the fields after the
      first comma. */
  lemma FieldValuesStep(s: string)
    ensures Find(s, ',').None? ==> FieldValues(s) == [Atoi(s)]
    ensures Find(s, ',').Some? ==>
      FieldValues(s) == [Atoi(s)] + FieldValues(s[Find(s, ',').value + 1..])
  {
  }

  /** One value per field: one more than there are commas. */
  lemma {:induction false} FieldCount(s: string)
    ensures |FieldValues(s)| == 1 + multiset(s)[',']
    decreases |s|
  {
    match Find(s, ',')
    case None =>
      assert multiset(s)[','] == 0;
    case Some(k) =>
      assert s == s[..k] + [','] + s[k + 1..];
      assert multiset(s[..k])[','] == 0;
      FieldCount(s[k + 1..]);
  }

  /** Comma-separated decimal rendering of a list, as a peer writes it. */
  function Joined(vals: seq<int>): string
    requires vals != []
  {
    if |vals| == 1 then DecimalString(vals[0])
    else DecimalString(vals[0]) + "," + Joined(vals[1..])
  }

  /** Reading a comma-separated list of decimals returns the list written. */
  lemma {:induction false} FieldValuesJoined(vals: seq<int>)
    requires vals != []
    ensures FieldValues(Joined(vals)) == vals
  {
    var d := DecimalString(vals[0]);
    if |vals| == 1 {
      AtoiDecimalString(vals[0], []);
      assert d + [] == d;
      assert Find(d, ',') == None;
    } else {
      var rest := Joined(vals[1..]);
      var s := d + "," + rest;
      assert s == d + ("," + rest);
      AtoiDecimalString(vals[0], "," + rest);
      FindAfter(d, rest);
      assert s[|d| + 1..] == rest;
      FieldValuesJoined(vals[1..]);
    }
  }

  lemma FindAfter(d: string, rest: string)
    requires forall i :: 0 <= i < |d| ==> d[i] != ','
    ensures Find(d + "," + rest, ',') == Some(|d|)
  {
    var s := d + "," + rest;
    assert s[|d|] == ',';
    assert forall i :: 0 <= i < |d| ==> s[i] == d[i];
  }

  /** The C string that starts at the head of `s`: everything before the
      first NUL. */
  function CStr(s: string): (r: string)
    ensures r <= s
    ensures forall i :: 0 <= i < |r| ==> r[i] != Nul
    ensures |r| < |s| ==> s[|r|] == Nul
  {
    if s == [] || s[0] == Nul then [] else [s[0]] + CStr(s[1..])
  }

  /** Advancing a pointer into a C string gives the rest of that string. */
  lemma {:induction false} CStrDrop(s: string, d: nat)
    requires d <= |CStr(s)|
    ensures CStr(s[d..]) == CStr(s)[d..]
  {
    if d > 0 {
      assert s[d..] == s[1..][d - 1..];
      CStrDrop(s[1..], d - 1);
    }
  }

  /** A NUL at position `j` ends the C string there at the latest. */
  lemma {:induction false} CStrBefore(s: string, j: nat)
    requires j < |s| && s[j] == Nul
    ensures |CStr(s)| <= j
    ensures CStr(s) == CStr(s[..j])
  {
    if j > 0 && s[0] != Nul {
      assert s[1..][..j - 1] == s[..j][1..];
      CStrBefore(s[1..], j - 1);
    }
  }

  const ULongMax: nat := 0xFFFF_FFFF_FFFF_FFFF

  /** `strtoul` on a sign and the value of a digit run: a negated value
      wraps modulo 2^64, a value too large saturates at ULONG_MAX. */
  function StrToUL(negative: bool, n: nat): (r: nat)
    ensures r <= ULongMax
    ensures n > ULongMax ==> r == ULongMax
    ensures n <= ULongMax && !negative ==> r == n
    ensures n <= ULongMax && negative ==> (r + n) % (ULongMax + 1) == 0
  {
    if n > ULongMax then ULongMax else if negative && n > 0 then ULongMax + 1 - n else n
  }

  /** One `%u` conversion of `sscanf`: optional white space, an optional
      sign and at least one digit; the `strtoul` value is stored in an
      `unsigned int`. Also the text after the digits. */
  function ScanUnsigned(s: string): (r: Option<(nat, string)>)
    ensures r.Some? ==> r.value.0 < 0x1_0000_0000
  {
    var t := SkipSpace(s);
    var signed := t != [] && (t[0] == '-' || t[0] == '+');
    var d := if signed then t[1..] else t;
    var n := DigitRun(d);
    if n == 0 then None
    else Some((U32(StrToUL(signed && t[0] == '-', LeadingValue(d))), d[n..]))
  }

  /** `sscanf(s, "%u,%u", &a, &b) == 2`: a conversion, a comma right after
      its digits, and a second conversion. */
  function ScanPair(s: string): (r: Option<(nat, nat)>)
    ensures r.Some? ==> r.value.0 < 0x1_0000_0000 && r.value.1 < 0x1_0000_0000
  {
    match ScanUnsigned(s)
    case None => None
    case Some((a, rest)) =>
      if rest == [] || rest[0] != ',' then None
      else
        match ScanUnsigned(rest[1..])
        case None => None
        case Some((b, _)) => Some((a, b))
  }

  /** A negative value is accepted by `%u` and wraps: "-1" reads as
      4294967295. */
  lemma ScanPairNegative()
    ensures ScanPair("1,-1") == Some((1, 0xFFFF_FFFF))
  {
    assert SkipSpace("1,-1") == "1,-1";
    assert DigitRun("1,-1") == 1 by { assert DigitRun(",-1") == 0; }
    assert "1,-1"[..1] == "1";
    AtoiDigit("1");
    assert "1,-1"[1..] == ",-1";
    assert ",-1"[1..] == "-1";
    assert SkipSpace("-1") == "-1";
    assert "-1"[1..] == "1";
    assert DigitRun("1") == 1 by { assert DigitRun("1"[1..]) == 0; }
    assert "1"[..1] == "1";
  }

  /** A value beyond ULONG_MAX saturates, and keeps its low 32 bits once
      stored. */
  lemma ScanUnsignedSaturates(d: string, tail: string)
    requires AllDigits(d) && d != [] && DigitsValue(d) > ULongMax
    requires tail == [] || !IsDigit(tail[0])
    ensures ScanUnsigned(d + tail) == Some((0xFFFF_FFFF, tail))
  {
    var s := d + tail;
    assert IsDigit(s[0]) && !IsSpace(s[0]) && s[0] != '-' && s[0] != '+';
    DigitRunStops(d, tail);
    LeadingValueOf(d, tail);
    assert s[|d|..] == tail;
  }

  /** `sscanf("%u,%u")` reads back a pair of `unsigned int`s written as
      "a,b". */
  lemma ScanPairWritten(a: nat, b: nat, tail: string)
    requires a < 0x1_0000_0000 && b < 0x1_0000_0000
    requires tail == [] || !IsDigit(tail[0])
    ensures ScanPair(NatString(a) + "," + NatString(b) + tail) == Some((a, b))
  {
    NatStringValue(a);
    NatStringValue(b);
    ScanPairDigits(NatString(a), NatString(b), tail);
  }

  lemma ScanUnsignedDigits(d: string, tail: string)
    requires AllDigits(d) && d != [] && DigitsValue(d) < 0x1_0000_0000
    requires tail == [] || !IsDigit(tail[0])
    ensures ScanUnsigned(d + tail) == Some((DigitsValue(d), tail))
  {
    var s := d + tail;
    assert IsDigit(s[0]) && !IsSpace(s[0]) && s[0] != '-' && s[0] != '+';
    DigitRunStops(d, tail);
    LeadingValueOf(d, tail);
    assert s[|d|..] == tail;
  }

  lemma ScanPairDigits(d1: string, d2: string, tail: string)
    requires AllDigits(d1) && AllDigits(d2) && d1 != [] && d2 != []
    requires DigitsValue(d1) < 0x1_0000_0000 && DigitsValue(d2) < 0x1_0000_0000
    requires tail == [] || !IsDigit(tail[0])
    ensures ScanPair(d1 + "," + d2 + tail) == Some((DigitsValue(d1), DigitsValue(d2)))
  {
    var rest := d2 + tail;
    var s := d1 + ([','] + rest);
    assert d1 + "," + d2 + tail == s;
    var after := [','] + rest;
    ScanUnsignedDigits(d1, after);
    assert ScanUnsigned(s) == Some((DigitsValue(d1), after));
    assert after != [] && after[0] == ',' && after[1..] == rest;
    ScanUnsignedDigits(d2, tail);
  }

  /** C division of signed integers: the quotient is truncated toward zero. */
  function CDiv(a: int, b: int): (q: int)
    requires b > 0
    ensures a >= 0 ==> q * b <= a < q * b + b
    ensures a < 0 ==> q * b - b < a <= q * b
  {
    if a >= 0 then a / b else -((-a) / b)
  }

  /** Conversion of an `int` to a 32-bit `unsigned int`. */
  function U32(x: int): (r: nat)
    ensures r < 0x1_0000_0000
    ensures (x - r) % 0x1_0000_0000 == 0
    ensures 0 <= x < 0x1_0000_0000 ==> r == x
  {
    x % 0x1_0000_0000
  }

  /** Conversion of an `int` to a 64-bit `size_t`: the one value below 2^64
      congruent to it modulo 2^64. */
  function U64(x: int): (r: nat)
    ensures r < 0x1_0000_0000_0000_0000
    ensures (x - r) % 0x1_0000_0000_0000_0000 == 0
    ensures 0 <= x < 0x1_0000_0000_0000_0000 ==> r == x
  {
    x % 0x1_0000_0000_0000_0000
  }
}
