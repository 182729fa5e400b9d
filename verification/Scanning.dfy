/** The text primitives behind hash strings: decimal fields, prefix scanning and splitting. */
module Scanning {
  import opened Types

  predicate IsDigit(c: char) { '0' <= c <= '9' }

  function Digit(d: nat): char
    requires d < 10
  {
    '0' + d as char
  }

  /** Decimal notation, as the format verb `%d` prints it. */
  function Decimal(n: nat): string {
    if n < 10 then [Digit(n)] else Decimal(n / 10) + [Digit(n % 10)]
  }

  function NumberOf(s: string): nat
    requires forall i :: 0 <= i < |s| ==> IsDigit(s[i])
  {
    if s == "" then 0
    else
      assert IsDigit(s[|s| - 1]);
      NumberOf(s[..|s| - 1]) * 10 + (s[|s| - 1] as int - '0' as int)
  }

  /** The length of the longest prefix of digits. */
  function DigitPrefix(s: string): (k: nat)
    ensures k <= |s| && forall i :: 0 <= i < k ==> IsDigit(s[i])
    ensures k < |s| ==> !IsDigit(s[k])
  {
    if s == "" || !IsDigit(s[0]) then 0 else 1 + DigitPrefix(s[1..])
  }

  // The characters the scanner takes for white space; a line feed is an error instead.
  predicate IsSpace(c: char) {
    c in {'\t', '\U{b}', '\U{c}', '\r', ' ', '\U{85}', '\U{a0}', '\U{1680}', '\U{2028}', '\U{2029}', '\U{202f}',
        '\U{205f}', '\U{3000}'}
    || '\U{2000}' <= c <= '\U{200a}'
  }

  function SkipSpace(s: string): string {
    if s != "" && IsSpace(s[0]) then SkipSpace(s[1..]) else s
  }

  /** Scan one unsigned number of at most `max`, after optional white space; what follows is left over. */
  function ScanNumber(s: string, max: nat): Option<(nat, string)> {
    var t := SkipSpace(s);
    var k := DigitPrefix(t);
    if k == 0 || NumberOf(t[..k]) > max then None else Some((NumberOf(t[..k]), t[k..]))
  }

  /** Scan a number that may carry a sign. */
  function ScanSigned(s: string, max: nat): Option<(int, string)> {
    var t := SkipSpace(s);
    var unsigned := if t != "" && t[0] in "+-" then t[1..] else t;
    var k := DigitPrefix(unsigned);
    if k == 0 || NumberOf(unsigned[..k]) > max then None
    else Some((if t[0] == '-' then 0 - NumberOf(unsigned[..k]) else NumberOf(unsigned[..k]) as int, unsigned[k..]))
  }

  function ScanLiteral(s: string, literal: string): Option<string> {
    if literal <= s then Some(s[|literal|..]) else None
  }

  function Split(s: string, sep: char): (parts: seq<string>)
    ensures |parts| >= 1
  {
    if s == "" then [""]
    else
      var rest := Split(s[1..], sep);
      if s[0] == sep then [""] + rest else [[s[0]] + rest[0]] + rest[1..]
  }

  // ----- printing and scanning back -----

  lemma {:induction false} DecimalIsDigits(n: nat)
    ensures |Decimal(n)| > 0 && forall i :: 0 <= i < |Decimal(n)| ==> IsDigit(Decimal(n)[i])
  {
    if n >= 10 { DecimalIsDigits(n / 10); }
  }

  lemma {:induction false} NumberOfDecimal(n: nat)
    ensures |Decimal(n)| > 0 && forall i :: 0 <= i < |Decimal(n)| ==> IsDigit(Decimal(n)[i])
    ensures NumberOf(Decimal(n)) == n
  {
    DecimalIsDigits(n);
    if n >= 10 {
      NumberOfDecimal(n / 10);
      assert Decimal(n)[..|Decimal(n)| - 1] == Decimal(n / 10);
    } else {
      assert Decimal(n)[..0] == "";
    }
  }

  /** A printed number followed by anything but a digit scans back to itself, leaving the rest. */
  lemma ScanDecimal(n: nat, rest: string, max: nat)
    requires n <= max && (rest != "" ==> !IsDigit(rest[0]))
    ensures ScanNumber(Decimal(n) + rest, max) == Some((n, rest))
    ensures ScanSigned(Decimal(n) + rest, max) == Some((n, rest))
  {
    var d, s := Decimal(n), Decimal(n) + rest;
    NumberOfDecimal(n);
    assert s[0] == d[0];
    var k := DigitPrefix(s);
    assert forall i :: 0 <= i < |d| ==> s[i] == d[i];
    assert rest != "" ==> s[|d|] == rest[0];
    assert k == |d|;
    assert s[..k] == d && s[k..] == rest;
  }

  lemma {:induction false} SplitOff(p: string, rest: string, sep: char)
    requires sep !in p
    ensures Split(p + [sep] + rest, sep) == [p] + Split(rest, sep)
  {
    var s := p + [sep] + rest;
    if p == "" {
      assert s[1..] == rest;
    } else {
      assert s[1..] == p[1..] + [sep] + rest && [p[0]] + p[1..] == p;
      SplitOff(p[1..], rest, sep);
    }
  }

  lemma {:induction false} SplitNothing(p: string, sep: char)
    requires sep !in p
    ensures Split(p, sep) == [p]
  {
    if p != "" {
      SplitNothing(p[1..], sep);
      assert [p[0]] + p[1..] == p;
    }
  }
}
