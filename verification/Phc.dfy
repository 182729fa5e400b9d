/**
 Password hashes as PHC strings: printing, parsing and verification. The argon2id function
 itself is a parameter.
 */
module Phc {
  import opened Types
  import opened Base64
  import opened Scanning

  const VERSION := 19
  const MAX_UINT32 := 0xffff_ffff
  const MAX_UINT8 := 0xff
  const MAX_INT := 0x7fff_ffff_ffff_ffff
  const RAW_STD := Encoding(Std, false)

  /** password, salt, iterations, memory, parallelism, key length: the derived key. */
  type Kdf = (string, seq<byte>, nat, nat, nat, nat) -> seq<byte>

  /** A key derivation function returns as many bytes as it is asked for. */
  ghost predicate DerivesFullKeys(kdf: Kdf) {
    forall p, salt, t, m, par, len :: |kdf(p, salt, t, m, par, len)| == len
  }

  /** A hasher's configuration. */
  datatype Params = Params(memory: nat, iterations: nat, parallelism: nat, keyLen: nat)

  predicate InRange(p: Params) {
    p.memory <= MAX_UINT32 && p.iterations <= MAX_UINT32 && p.parallelism <= MAX_UINT8
  }

  datatype Reason =
    | Malformed | UnsupportedVersion | MalformedParameters | MalformedSalt | MalformedKey | ImplausibleKeyLength

  datatype Parsed =
    | Parsed(memory: nat, iterations: nat, parallelism: nat, salt: seq<byte>, key: seq<byte>)
    | Rejected(reason: Reason)

  function ParametersText(p: Params): string {
    "m=" + Decimal(p.memory) + ",t=" + Decimal(p.iterations) + ",p=" + Decimal(p.parallelism)
  }

  function Print(p: Params, salt: seq<byte>, key: seq<byte>): string {
    "$argon2id$v=" + Decimal(VERSION) + "$" + ParametersText(p)
    + "$" + Encode(RAW_STD, salt) + "$" + Encode(RAW_STD, key)
  }

  function ScanVersion(s: string): Option<int> {
    var t := ScanLiteral(s, "v=");
    if t.None? then None
    else
      var v := ScanSigned(t.value, MAX_INT);
      if v.None? then None else Some(v.value.0)
  }

  /** One `name=number` field, and the text after it. */
  function ScanField(s: string, name: string, max: nat): Option<(nat, string)> {
    var t := ScanLiteral(s, name);
    if t.None? then None else ScanNumber(t.value, max)
  }

  function ScanParameters(s: string): Option<(nat, nat, nat)> {
    var m := ScanField(s, "m=", MAX_UINT32);
    if m.None? then None
    else
      var t := ScanField(m.value.1, ",t=", MAX_UINT32);
      if t.None? then None
      else
        var p := ScanField(t.value.1, ",p=", MAX_UINT8);
        if p.None? then None else Some((m.value.0, t.value.0, p.value.0))
  }

  function Parse(phc: string): (r: Parsed)
    ensures r.Parsed? ==> 16 <= |r.key| <= 128
    ensures r.Parsed? ==> r.memory <= MAX_UINT32 && r.iterations <= MAX_UINT32 && r.parallelism <= MAX_UINT8
  {
    var parts := Split(phc, '$');
    if |parts| != 6 || parts[1] != "argon2id" then Rejected(Malformed)
    else if ScanVersion(parts[2]) != Some(VERSION) then Rejected(UnsupportedVersion)
    else
      var fields := ScanParameters(parts[3]);
      var salt := Decode(RAW_STD, parts[4]);
      var key := Decode(RAW_STD, parts[5]);
      if fields.None? then Rejected(MalformedParameters)
      else if salt.None? then Rejected(MalformedSalt)
      else if key.None? then Rejected(MalformedKey)
      else if |key.value| < 16 || |key.value| > 128 then Rejected(ImplausibleKeyLength)
      else Parsed(fields.value.0, fields.value.1, fields.value.2, salt.value, key.value)
  }

  // ----- round trip -----

  lemma {:induction false} DecimalHasNo(n: nat, c: char)
    requires !IsDigit(c)
    ensures c !in Decimal(n)
  {
    DecimalIsDigits(n);
  }

  /** Six texts without the separator, joined by it. */
  function Joined(a: string, b: string, c: string, d: string, e: string, f: string): string {
    a + ['$'] + (b + ['$'] + (c + ['$'] + (d + ['$'] + (e + ['$'] + f))))
  }

  lemma JoinedParts(a: string, b: string, c: string, d: string, e: string, f: string)
    requires '$' !in a && '$' !in b && '$' !in c && '$' !in d && '$' !in e && '$' !in f
    ensures Split(Joined(a, b, c, d, e, f), '$') == [a, b, c, d, e, f]
  {
    hide Split;
    SplitOff(a, b + ['$'] + (c + ['$'] + (d + ['$'] + (e + ['$'] + f))), '$');
    SplitOff(b, c + ['$'] + (d + ['$'] + (e + ['$'] + f)), '$');
    SplitOff(c, d + ['$'] + (e + ['$'] + f), '$');
    SplitOff(d, e + ['$'] + f, '$');
    SplitOff(e, f, '$');
    SplitNothing(f, '$');
  }

  lemma ScanPrintedField(name: string, n: nat, rest: string, max: nat)
    requires n <= max && (rest != "" ==> !IsDigit(rest[0]))
    ensures ScanField(name + Decimal(n) + rest, name, max) == Some((n, rest))
  {
    var s := name + Decimal(n) + rest;
    assert s[|name|..] == Decimal(n) + rest;
    ScanDecimal(n, rest, max);
  }

  lemma ScanPrintedParameters(p: Params, after: string)
    requires InRange(p) && Follows(after)
    ensures ScanParameters(ParametersText(p) + after) == Some((p.memory, p.iterations, p.parallelism))
    ensures '$' !in after ==> '$' !in ParametersText(p) + after
  {
    hide ScanField, Decimal;
    var fromP := ",p=" + Decimal(p.parallelism) + after;
    var fromT := ",t=" + Decimal(p.iterations) + fromP;
    assert ParametersText(p) + after == "m=" + Decimal(p.memory) + fromT;
    ScanPrintedField("m=", p.memory, fromT, MAX_UINT32);
    ScanPrintedField(",t=", p.iterations, fromP, MAX_UINT32);
    ScanPrintedField(",p=", p.parallelism, after, MAX_UINT8);
    DecimalHasNo(p.memory, '$'); DecimalHasNo(p.iterations, '$'); DecimalHasNo(p.parallelism, '$');
  }

  lemma ScanPrintedVersion(version: nat, after: string)
    requires version <= MAX_INT && Follows(after)
    ensures ScanVersion("v=" + Decimal(version) + after) == Some(version)
    ensures '$' !in after ==> '$' !in "v=" + Decimal(version) + after
  {
    var s := "v=" + Decimal(version) + after;
    assert s[2..] == Decimal(version) + after;
    ScanDecimal(version, after, MAX_INT);
    DecimalHasNo(version, '$');
  }

  /** A text that does not carry on the number before it. */
  predicate Follows(s: string) {
    s != "" ==> !IsDigit(s[0])
  }

  /** A hash string with any name and version, and with further text before it and after two of its numbers. */
  function Variant(head: string, name: string, version: nat, after: string, p: Params, after': string,
                   salt: seq<byte>, key: seq<byte>): string {
    Joined(head, name, "v=" + Decimal(version) + after, ParametersText(p) + after',
           Encode(RAW_STD, salt), Encode(RAW_STD, key))
  }

  /**
   What parsing insists on, and what it lets through: the name must be argon2id, the version 19
   and the key 16 to 128 bytes long, tested in this order; text before the first separator, after
   the version and after the parameters is ignored, and any salt will do.
   */
  lemma ParseVariant(head: string, name: string, version: nat, after: string, p: Params, after': string,
                     salt: seq<byte>, key: seq<byte>)
    requires InRange(p) && version <= MAX_INT && Follows(after) && Follows(after')
    requires '$' !in head && '$' !in name && '$' !in after && '$' !in after'
    ensures Parse(Variant(head, name, version, after, p, after', salt, key)) ==
      if name != "argon2id" then Rejected(Malformed)
      else if version != 19 then Rejected(UnsupportedVersion)
      else if 16 <= |key| <= 128 then Parsed(p.memory, p.iterations, p.parallelism, salt, key)
      else Rejected(ImplausibleKeyLength)
  {
    hide Parse, Joined, ScanVersion, ScanParameters, Decode, Encode, Split, Decimal, ParametersText;
    VariantParts(head, name, version, after, p, after', salt, key);
    ScanPrintedVersion(version, after);
    ScanPrintedParameters(p, after');
    DecodeEncode(RAW_STD, salt);
    DecodeEncode(RAW_STD, key);
    ParseParts(Variant(head, name, version, after, p, after', salt, key), version, p, salt, key);
  }

  lemma VariantParts(head: string, name: string, version: nat, after: string, p: Params, after': string,
                     salt: seq<byte>, key: seq<byte>)
    requires InRange(p) && version <= MAX_INT && Follows(after) && Follows(after')
    requires '$' !in head && '$' !in name && '$' !in after && '$' !in after'
    ensures Split(Variant(head, name, version, after, p, after', salt, key), '$')
         == [head, name, "v=" + Decimal(version) + after, ParametersText(p) + after',
             Encode(RAW_STD, salt), Encode(RAW_STD, key)]
  {
    EncodedChars(RAW_STD, salt); EncodedChars(RAW_STD, key);
    assert !Encoded(RAW_STD, '$');
    hide Joined, Encode, Split, Decimal, ParametersText, Encoded;
    ScanPrintedVersion(version, after);
    ScanPrintedParameters(p, after');
    JoinedParts(head, name, "v=" + Decimal(version) + after, ParametersText(p) + after',
                Encode(RAW_STD, salt), Encode(RAW_STD, key));
  }

  /** The decision on six parts that scan and decode. */
  lemma ParseParts(phc: string, version: int, p: Params, salt: seq<byte>, key: seq<byte>)
    requires InRange(p)
    requires var parts := Split(phc, '$');
             && |parts| == 6 && ScanVersion(parts[2]) == Some(version)
             && ScanParameters(parts[3]) == Some((p.memory, p.iterations, p.parallelism))
             && Decode(RAW_STD, parts[4]) == Some(salt) && Decode(RAW_STD, parts[5]) == Some(key)
    ensures Parse(phc) ==
      if Split(phc, '$')[1] != "argon2id" then Rejected(Malformed)
      else if version != 19 then Rejected(UnsupportedVersion)
      else if 16 <= |key| <= 128 then Parsed(p.memory, p.iterations, p.parallelism, salt, key)
      else Rejected(ImplausibleKeyLength)
  {
    hide ScanVersion, ScanParameters, Decode, Split;
  }

  lemma PrintIsVariant(p: Params, salt: seq<byte>, key: seq<byte>)
    ensures Print(p, salt, key) == Variant("", "argon2id", VERSION, "", p, "", salt, key)
  {
    hide Encode, Decimal, ParametersText;
  }

  /**
   Parsing a printed hash returns the same parameters, salt and key, whatever the salt, exactly
   for the keys of 16 to 128 bytes; a key of any other length is printed but never accepted.
   */
  lemma ParsePrint(p: Params, salt: seq<byte>, key: seq<byte>)
    requires InRange(p)
    ensures Parse(Print(p, salt, key)) ==
      if 16 <= |key| <= 128 then Parsed(p.memory, p.iterations, p.parallelism, salt, key)
      else Rejected(ImplausibleKeyLength)
  {
    hide Print, Parse, Variant;
    PrintIsVariant(p, salt, key);
    ParseVariant("", "argon2id", VERSION, "", p, "", salt, key);
  }

  /** The format, on the parameters of an example: the name, version 19 and the three costs, each after its letter. */
  lemma PrintedExample(salt: seq<byte>, key: seq<byte>)
    ensures "$argon2id$v=19$m=8192,t=1,p=1$" <= Print(Params(8192, 1, 1, 32), salt, key)
  {
    hide Encode, Decimal;
    ExampleNumbers();
  }

  lemma ExampleNumbers()
    ensures Decimal(19) == "19" && Decimal(1) == "1" && Decimal(8192) == "8192"
  {
    assert Decimal(81) == "81" && Decimal(819) == "819";
  }

  // ----- hashing and verifying -----

  /** The hash of a password under a drawn salt. */
  function HashPassword(kdf: Kdf, h: Params, password: string, salt: seq<byte>): string {
    Print(h, salt, kdf(password, salt, h.iterations, h.memory, h.parallelism, h.keyLen))
  }

  datatype Verdict = Match(needsRehash: bool) | WrongPassword | BadHash(reason: Reason)

  function Verify(kdf: Kdf, h: Params, password: string, phc: string): Verdict {
    match Parse(phc)
    case Rejected(reason) => BadHash(reason)
    case Parsed(memory, iterations, parallelism, salt, key) =>
      if kdf(password, salt, iterations, memory, parallelism, |key|) != key then WrongPassword
      else Match(memory < h.memory || iterations < h.iterations || |key| < h.keyLen)
  }

  /** The stored parameters are below the current ones. Parallelism is not compared. */
  predicate Weaker(stored: Params, current: Params) {
    stored.memory < current.memory || stored.iterations < current.iterations || stored.keyLen < current.keyLen
  }

  /** Configurations argon2id accepts and whose hashes verify. */
  predicate Usable(h: Params) {
    InRange(h) && 1 <= h.iterations && 1 <= h.parallelism && 16 <= h.keyLen <= 128
  }

  /** Two passwords with one derived key under the given salt and parameters. */
  predicate SameKey(kdf: Kdf, h: Params, salt: seq<byte>, p: string, q: string) {
    kdf(p, salt, h.iterations, h.memory, h.parallelism, h.keyLen)
    == kdf(q, salt, h.iterations, h.memory, h.parallelism, h.keyLen)
  }

  /**
   A hash made under one configuration, verified under another: it matches exactly the passwords
   with the same derived key, and asks for a rehash exactly when its parameters are weaker.
   */
  lemma VerifyHashed(kdf: Kdf, made: Params, current: Params, salt: seq<byte>, p: string, q: string)
    requires DerivesFullKeys(kdf) && Usable(made)
    ensures Verify(kdf, current, q, HashPassword(kdf, made, p, salt)) ==
      if SameKey(kdf, made, salt, p, q)
      then Match(made.memory < current.memory || made.iterations < current.iterations || made.keyLen < current.keyLen)
      else WrongPassword
  {
    hide Print, Parse;
    ParsePrint(made, salt, kdf(p, salt, made.iterations, made.memory, made.parallelism, made.keyLen));
  }

  /** After a lazy rehash the same password verifies and never asks for another rehash under the same parameters. */
  lemma RehashSettles(kdf: Kdf, current: Params, salt: seq<byte>, p: string)
    requires DerivesFullKeys(kdf) && Usable(current)
    ensures Verify(kdf, current, p, HashPassword(kdf, current, p, salt)) == Match(false)
  {
    VerifyHashed(kdf, current, current, salt, p, p);
  }
}
