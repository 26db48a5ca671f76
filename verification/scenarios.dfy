/**
 The JSON scenarios of the repository's tests, replayed on a `bool`
 payload with encoding/json's bool codec.
 */
module Scenarios {
  import opened Wrappers
  import opened Json
  import NullMap
  import Nullable

  /** The bytes `123`: a JSON number, which a bool field rejects. */
  const NumberLiteral: Bytes := Ascii("123")

  /**
   A map-backed bool field: a value encodes as its literal, null as `null`,
   an absent optional field is dropped; decoding `null` gives null, and a
   number is a type mismatch that leaves the field as it was.
   */
  lemma MapBoolField(prior: NullMap.Nullable<bool>)
    ensures NullMap.MarshalJSON(NullMap.From(true), BoolCodec(), false) == Success(TrueLiteral)
    ensures NullMap.MarshalJSON(NullMap.From(false), BoolCodec(), false) == Success(FalseLiteral)
    ensures NullMap.MarshalJSON(NullMap.Null(false), BoolCodec(), false) == Success(NullLiteral)
    ensures NullMap.MarshalField(NullMap.Zero(), true, BoolCodec(), false) == Success(None)
    ensures NullMap.MarshalField(NullMap.Zero(), false, BoolCodec(), false) == Success(Some(FalseLiteral))
    ensures NullMap.UnmarshalJSON(prior, NullLiteral, BoolCodec(), false) == (NullMap.Null(false), None)
    ensures NullMap.UnmarshalJSON(prior, TrueLiteral, BoolCodec(), false) == (NullMap.From(true), None)
    ensures NullMap.UnmarshalJSON(prior, NumberLiteral, BoolCodec(), false).0 == prior
    ensures NullMap.UnmarshalJSON(prior, NumberLiteral, BoolCodec(), false).1.Some?
  {
    assert NumberLiteral[0] != TrueLiteral[0] && NumberLiteral[0] != FalseLiteral[0];
    assert NumberLiteral[0] != NullLiteral[0];
    assert TrueLiteral[0] != NullLiteral[0];
  }

  /**
   A struct-backed bool field decoded from an object: a missing key leaves
   the fresh field unset, `null` makes it null, `false` makes it hold false
   (a zero value that is still specified), and a number fails with the field unchanged.
   */
  lemma StructBoolField()
    ensures Nullable.UnmarshalField(Nullable.New(false), None, BoolCodec(), false).0 == Nullable.New(false)
    ensures Nullable.IsNull(Nullable.UnmarshalField(Nullable.New(false), Some(NullLiteral), BoolCodec(), false).0)
    ensures Nullable.Get(Nullable.UnmarshalField(Nullable.New(false), Some(FalseLiteral), BoolCodec(), false).0, false)
              == (false, true)
    ensures Nullable.UnmarshalField(Nullable.New(false), Some(NumberLiteral), BoolCodec(), false).0 == Nullable.New(false)
    ensures Nullable.UnmarshalField(Nullable.New(false), Some(NumberLiteral), BoolCodec(), false).1.Some?
  {
  }
}
