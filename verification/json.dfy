/**
 The boundary between the containers and Go's encoding/json package.

 Encoded JSON text is a byte sequence. The payload type T brings its own
 encoder and decoder (json.Marshal and json.Unmarshal instantiated at T);
 the containers only delegate to them, so they are kept abstract here as a
 pair of total functions that may fail.
 */
module Json {
  import opened Wrappers

  newtype byte = x: int | 0 <= x < 256

  type Bytes = seq<byte>

  /** The bytes of an ASCII string. */
  function Ascii(s: string): (b: Bytes)
    requires forall i :: 0 <= i < |s| ==> s[i] as int < 256
    ensures |b| == |s|
    ensures forall i :: 0 <= i < |s| ==> b[i] as int == s[i] as int
  {
    seq(|s|, i requires 0 <= i < |s| => s[i] as int as byte)
  }

  /** The four-byte JSON literal `null`. */
  const NullLiteral: Bytes := Ascii("null")

  /** An error reported by the payload encoder or decoder; its text is opaque here. */
  datatype JsonError = JsonError(reason: string)

  /**
   The payload codec of a type T: what json.Marshal does with a T, and what
   json.Unmarshal does when it decodes into a fresh zero-valued T.
   */
  datatype Codec<!T> = Codec(marshal: T -> Result<Bytes, JsonError>, unmarshal: Bytes -> Result<T, JsonError>)

  /**
   The payload value `v` survives a trip through the codec, and its encoding
   is not the `null` literal (which the containers intercept before the
   payload decoder ever sees it).
   */
  ghost predicate RoundTrips<T>(c: Codec<T>, v: T) {
    && c.marshal(v).Success?
    && c.marshal(v).value != NullLiteral
    && c.unmarshal(c.marshal(v).value) == Success(v)
  }

  /** The error BoolCodec reports for any other token; its text is not modelled. */
  const BoolMismatch: JsonError := JsonError("bool")

  const TrueLiteral: Bytes := Ascii("true")
  const FalseLiteral: Bytes := Ascii("false")

  /**
   encoding/json's codec for Go's `bool`: `true` and `false` encode as the
   two literals; decoding accepts those literals, treats `null` as a no-op
   that leaves the fresh `false` in place, and rejects every other token.
   */
  function BoolCodec(): Codec<bool> {
    Codec(
      b => Success(if b then TrueLiteral else FalseLiteral),
      d =>
        if d == TrueLiteral then Success(true)
        else if d == FalseLiteral || d == NullLiteral then Success(false)
        else Failure(BoolMismatch))
  }

  /** Every bool round-trips through BoolCodec, so the round-trip hypothesis of the container lemmas can be met. */
  lemma BoolCodecRoundTrips(b: bool)
    ensures RoundTrips(BoolCodec(), b)
  {
    assert TrueLiteral[0] != NullLiteral[0];
    assert FalseLiteral[0] != NullLiteral[0];
    assert TrueLiteral[0] != FalseLiteral[0];
  }
}
