/**
 Base64 (sections 4 and 5 of RFC 4648; without padding, section 3.2), as the Go library
 encodes and decodes it: decoding skips line breaks and does not check the unused bits of the
 last symbol.
 */
module Base64 {
  import opened Types

  type byte = x: int | 0 <= x < 256
  type sextet = x: int | 0 <= x < 64

  datatype Alphabet = Std | Url
  datatype Encoding = Encoding(alphabet: Alphabet, padded: bool)

  const PAD := '='

  function Symbol(a: Alphabet, v: sextet): char {
    if v < 26 then 'A' + v as char
    else if v < 52 then 'a' + (v - 26) as char
    else if v < 62 then '0' + (v - 52) as char
    else if v == 62 then (if a.Std? then '+' else '-')
    else (if a.Std? then '/' else '_')
  }

  function Value(a: Alphabet, c: char): Option<sextet> {
    if 'A' <= c <= 'Z' then Some((c - 'A') as int)
    else if 'a' <= c <= 'z' then Some((c - 'a') as int + 26)
    else if '0' <= c <= '9' then Some((c - '0') as int + 52)
    else if c == (if a.Std? then '+' else '-') then Some(62)
    else if c == (if a.Std? then '/' else '_') then Some(63)
    else None
  }

  const UPPER := "ABCDEFGHIJKLMNOPQRSTUVWXYZ"
  const LOWER := "abcdefghijklmnopqrstuvwxyz"
  const DIGITS := "0123456789"

  lemma UpperCase(i: int)
    requires 0 <= i < 26
    ensures UPPER[i] as int == 'A' as int + i
  {
  }

  lemma LowerCase(i: int)
    requires 0 <= i < 26
    ensures LOWER[i] as int == 'a' as int + i
  {
  }

  /** The symbols are those of tables 1 and 2 of RFC 4648, in order. */
  lemma SymbolTables(a: Alphabet, v: sextet)
    ensures Symbol(a, v) == (UPPER + LOWER + DIGITS + (if a.Std? then "+/" else "-_"))[v]
  {
    if v < 26 {
      UpperCase(v);
    } else if v < 52 {
      LowerCase(v - 26);
    }
  }

  predicate IsSymbol(a: Alphabet, c: char) {
    Value(a, c).Some?
  }

  lemma ValueOfSymbol(a: Alphabet, v: sextet)
    ensures Value(a, Symbol(a, v)) == Some(v)
  {
  }

  /** A symbol both alphabets have stands for the same value in both. */
  lemma AlphabetsAgree(a: Alphabet, b: Alphabet, c: char)
    requires IsSymbol(a, c) && IsSymbol(b, c)
    ensures Value(a, c) == Value(b, c)
  {
  }

  // ----- encoding -----

  function Encode(e: Encoding, b: seq<byte>): string {
    if |b| == 0 then ""
    else if |b| == 1 then
      [Symbol(e.alphabet, b[0] / 4), Symbol(e.alphabet, b[0] % 4 * 16)] + (if e.padded then [PAD, PAD] else [])
    else if |b| == 2 then
      [Symbol(e.alphabet, b[0] / 4), Symbol(e.alphabet, b[0] % 4 * 16 + b[1] / 16), Symbol(e.alphabet, b[1] % 16 * 4)]
      + (if e.padded then [PAD] else [])
    else
      [Symbol(e.alphabet, b[0] / 4), Symbol(e.alphabet, b[0] % 4 * 16 + b[1] / 16),
       Symbol(e.alphabet, b[1] % 16 * 4 + b[2] / 64), Symbol(e.alphabet, b[2] % 64)]
      + Encode(e, b[3..])
  }

  // ----- decoding -----

  function Byte0(v: sextet, w: sextet): byte { v * 4 + w / 16 }
  function Byte1(w: sextet, x: sextet): byte { w % 16 * 16 + x / 4 }
  function Byte2(x: sextet, y: sextet): byte { x % 4 * 64 + y }

  predicate FullQuantum(a: Alphabet, s: string) {
    |s| >= 4 && IsSymbol(a, s[0]) && IsSymbol(a, s[1]) && IsSymbol(a, s[2]) && IsSymbol(a, s[3])
  }

  /** The bytes of a text without line breaks, if it is an encoding. */
  function DecodeQuanta(e: Encoding, s: string): Option<seq<byte>> {
    if s == "" then Some([])
    else if FullQuantum(e.alphabet, s) then
      var v, w := Value(e.alphabet, s[0]).value, Value(e.alphabet, s[1]).value;
      var x, y := Value(e.alphabet, s[2]).value, Value(e.alphabet, s[3]).value;
      match DecodeQuanta(e, s[4..])
      case None => None
      case Some(rest) => Some([Byte0(v, w), Byte1(w, x), Byte2(x, y)] + rest)
    else DecodeLast(e, s)
  }

  /** The final, incomplete quantum. */
  function DecodeLast(e: Encoding, s: string): Option<seq<byte>> {
    if |s| < 2 || !IsSymbol(e.alphabet, s[0]) || !IsSymbol(e.alphabet, s[1]) then None
    else
      var v, w := Value(e.alphabet, s[0]).value, Value(e.alphabet, s[1]).value;
      if s[2..] == (if e.padded then [PAD, PAD] else []) then Some([Byte0(v, w)])
      else if |s| >= 3 && IsSymbol(e.alphabet, s[2]) && s[3..] == (if e.padded then [PAD] else []) then
        Some([Byte0(v, w), Byte1(w, Value(e.alphabet, s[2]).value)])
      else None
  }

  function SkipLineBreaks(s: string): string {
    if s == "" then ""
    else (if s[0] == '\r' || s[0] == '\n' then [] else [s[0]]) + SkipLineBreaks(s[1..])
  }

  function Decode(e: Encoding, s: string): Option<seq<byte>> {
    DecodeQuanta(e, SkipLineBreaks(s))
  }

  // ----- round trip -----

  predicate Encoded(e: Encoding, c: char) {
    IsSymbol(e.alphabet, c) || (e.padded && c == PAD)
  }

  lemma {:induction false} EncodedChars(e: Encoding, b: seq<byte>)
    ensures forall c :: c in Encode(e, b) ==> Encoded(e, c)
  {
    hide Symbol, Value;
    forall v: sextet ensures Encoded(e, Symbol(e.alphabet, v)) { ValueOfSymbol(e.alphabet, v); }
    if |b| > 2 { EncodedChars(e, b[3..]); }
  }

  lemma {:induction false} SkipNothing(s: string)
    requires '\r' !in s && '\n' !in s
    ensures SkipLineBreaks(s) == s
  {
    if s != "" { SkipNothing(s[1..]); }
  }

  /** Splitting three bytes into four groups of six bits and joining them again. */
  lemma BitsRoundTrip(b: byte, c: byte, d: byte)
    ensures Byte0(b / 4, b % 4 * 16 + c / 16) == b
    ensures Byte1(b % 4 * 16 + c / 16, c % 16 * 4 + d / 64) == c
    ensures Byte2(c % 16 * 4 + d / 64, d % 64) == d
  {
  }

  lemma {:induction false} QuantaRoundTrip(e: Encoding, b: seq<byte>)
    ensures DecodeQuanta(e, Encode(e, b)) == Some(b)
  {
    hide Symbol, Value, Byte0, Byte1, Byte2;
    var a, s := e.alphabet, Encode(e, b);
    forall v: sextet ensures Value(a, Symbol(a, v)) == Some(v) { ValueOfSymbol(a, v); }
    PadIsNoSymbol(a);
    if |b| > 2 {
      QuantaRoundTrip(e, b[3..]);
      BitsRoundTrip(b[0], b[1], b[2]);
      assert s[4..] == Encode(e, b[3..]);
      assert b == [b[0], b[1], b[2]] + b[3..];
    } else if |b| == 2 {
      BitsRoundTrip(b[0], b[1], 0);
      assert b == [b[0], b[1]];
      assert s[3..] == if e.padded then [PAD] else [];
    } else if |b| == 1 {
      BitsRoundTrip(b[0], 0, 0);
      assert b == [b[0]];
      assert s[2..] == if e.padded then [PAD, PAD] else [];
    }
  }

  lemma PadIsNoSymbol(a: Alphabet)
    ensures !IsSymbol(a, PAD)
  {
  }

  /** Decoding undoes encoding, for every byte string and each of the four encodings. */
  lemma DecodeEncode(e: Encoding, b: seq<byte>)
    ensures Decode(e, Encode(e, b)) == Some(b)
  {
    EncodedChars(e, b);
    assert !Encoded(e, '\r') && !Encoded(e, '\n');
    SkipNothing(Encode(e, b));
    QuantaRoundTrip(e, b);
  }

  // ----- no two decoders disagree -----

  lemma {:induction false} QuantaAgree(e: Encoding, f: Encoding, s: string)
    requires DecodeQuanta(e, s).Some? && DecodeQuanta(f, s).Some?
    ensures DecodeQuanta(e, s) == DecodeQuanta(f, s)
    decreases |s|
  {
    forall c | IsSymbol(e.alphabet, c) && IsSymbol(f.alphabet, c) ensures Value(e.alphabet, c) == Value(f.alphabet, c) {
      AlphabetsAgree(e.alphabet, f.alphabet, c);
    }
    if s != "" && FullQuantum(e.alphabet, s) && FullQuantum(f.alphabet, s) {
      QuantaAgree(e, f, s[4..]);
    }
  }

  /** Whatever the text, any two of the decoders that accept it return the same bytes. */
  lemma DecodersAgree(e: Encoding, f: Encoding, s: string)
    requires Decode(e, s).Some? && Decode(f, s).Some?
    ensures Decode(e, s) == Decode(f, s)
  {
    QuantaAgree(e, f, SkipLineBreaks(s));
  }

  // ----- which texts are encodings -----

  /** Line breaks are skipped wherever they stand: one more or one fewer decodes to the same bytes. */
  lemma LineBreaksIgnored(e: Encoding, before: string, c: char, after: string)
    requires c == '\r' || c == '\n'
    ensures Decode(e, before + [c] + after) == Decode(e, before + after)
  {
    hide DecodeQuanta;
    SkipOne(before, c, after);
  }

  lemma {:induction false} SkipOne(before: string, c: char, after: string)
    requires c == '\r' || c == '\n'
    ensures SkipLineBreaks(before + [c] + after) == SkipLineBreaks(before + after)
  {
    if before == "" {
      assert [c] + after == before + [c] + after && after == before + after && ([c] + after)[1..] == after;
    } else {
      SkipOne(before[1..], c, after);
      assert (before + [c] + after)[1..] == before[1..] + [c] + after;
      assert (before + after)[1..] == before[1..] + after;
    }
  }

  /** What stands after `n` symbols: padding up to a multiple of four, or nothing. */
  function Padding(e: Encoding, n: nat): string {
    if !e.padded || n % 4 == 0 then "" else if n % 4 == 2 then [PAD, PAD] else [PAD]
  }

  /** `n` symbols of the alphabet, as many as whole bytes leave, and their padding. */
  predicate IsText(e: Encoding, s: string, n: nat) {
    n <= |s| && n % 4 != 1 && s[n..] == Padding(e, n) && forall i :: 0 <= i < n ==> IsSymbol(e.alphabet, s[i])
  }

  lemma {:induction false} TextAccepted(e: Encoding, s: string, n: nat)
    requires IsText(e, s, n)
    ensures DecodeQuanta(e, s).Some? && |DecodeQuanta(e, s).value| == n * 3 / 4
    decreases n
  {
    hide Value;
    PadIsNoSymbol(e.alphabet);
    if n >= 4 {
      TextAccepted(e, s[4..], n - 4);
      assert FullQuantum(e.alphabet, s);
    } else if n > 0 {
      ShortTextAccepted(e, s, n);
    }
  }

  lemma ShortTextAccepted(e: Encoding, s: string, n: nat)
    requires IsText(e, s, n) && 0 < n < 4
    ensures DecodeQuanta(e, s).Some? && |DecodeQuanta(e, s).value| == n - 1
  {
    hide Value;
    PadIsNoSymbol(e.alphabet);
    assert s == s[..n] + s[n..];
    assert !FullQuantum(e.alphabet, s);
    if n == 3 && e.padded { assert s[2..] != [PAD, PAD]; }
  }

  lemma {:induction false} AcceptedIsText(e: Encoding, s: string) returns (n: nat)
    requires DecodeQuanta(e, s).Some?
    ensures IsText(e, s, n)
    decreases |s|
  {
    hide Value;
    if s == "" {
      n := 0;
    } else if FullQuantum(e.alphabet, s) {
      var m := AcceptedIsText(e, s[4..]);
      n := m + 4;
      assert forall i :: 4 <= i < n ==> s[i] == s[4..][i - 4];
      assert s[n..] == s[4..][m..];
    } else {
      n := if s[2..] == (if e.padded then [PAD, PAD] else []) then 2 else 3;
    }
  }

  /**
   A text is accepted exactly if, its line breaks skipped, it is some symbols of the alphabet, not
   one more than a multiple of four, and then the padding; it decodes to three bytes for every
   four symbols. The unused bits of the last symbol are not checked.
   */
  lemma AcceptedIffText(e: Encoding, s: string)
    ensures Decode(e, s).Some? <==> exists n: nat :: IsText(e, SkipLineBreaks(s), n)
    ensures forall n: nat :: IsText(e, SkipLineBreaks(s), n) ==>
              Decode(e, s).Some? && |Decode(e, s).value| == n * 3 / 4
  {
    hide SkipLineBreaks, DecodeQuanta, IsText;
    forall n: nat | IsText(e, SkipLineBreaks(s), n)
      ensures Decode(e, s).Some? && |Decode(e, s).value| == n * 3 / 4
    {
      TextAccepted(e, SkipLineBreaks(s), n);
    }
    if Decode(e, s).Some? {
      var n := AcceptedIsText(e, SkipLineBreaks(s));
      assert exists k: nat :: IsText(e, SkipLineBreaks(s), k);
    }
  }
}
