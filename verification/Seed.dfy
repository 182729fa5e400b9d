/** The signing seed from configuration: base64, standard or URL alphabet, padded or raw. */
module Seed {
  import opened Types
  import opened Base64

  // The order in which the decoders are tried.
  const ENCODINGS := [Encoding(Std, true), Encoding(Std, false), Encoding(Url, true), Encoding(Url, false)]

  /**
   The first decoder that accepts decides; the result is nevertheless that of every accepting
   decoder, and there is none exactly when all four reject.
   */
  method ParseSigningSeed(encoded: string) returns (r: Option<seq<byte>>)
    ensures r.Some? ==> forall e: Encoding :: Decode(e, encoded).Some? ==> Decode(e, encoded) == r
    ensures r.Some? <==> exists e: Encoding :: Decode(e, encoded).Some?
  {
    for i := 0 to |ENCODINGS|
      invariant forall k :: 0 <= k < i ==> Decode(ENCODINGS[k], encoded).None?
    {
      var b := Decode(ENCODINGS[i], encoded);
      if b.Some? {
        forall e: Encoding | Decode(e, encoded).Some? ensures Decode(e, encoded) == b {
          DecodersAgree(e, ENCODINGS[i], encoded);
        }
        return b;
      }
    }
    forall e: Encoding ensures Decode(e, encoded).None? {
      var k := (if e.alphabet.Std? then 0 else 2) + (if e.padded then 0 else 1);
      assert ENCODINGS[k] == e;
    }
    return None;
  }

  /** A seed in any of the four encodings is recovered exactly. */
  method ParseEncodedSeed(e: Encoding, seed: seq<byte>) returns (r: Option<seq<byte>>)
    ensures r == Some(seed)
  {
    DecodeEncode(e, seed);
    r := ParseSigningSeed(Encode(e, seed));
  }
}
