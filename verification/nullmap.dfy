/**
 The map-backed container of null.go: `Nullable[T]` is a Go `map[bool]T`.
 An empty (or nil) map is unset, `{false: zero}` is an explicit null and
 `{true: v}` holds `v`. Every query is derived from key membership and map
 length rather than from a tag, and every mutator replaces the whole map.

 Go's zero value of T is passed explicitly as `zero`, and a nil map is the
 empty map (Go reads both the same way).
 */
module NullMap {
  import opened Wrappers
  import opened Json

  /** `Nullable[T]`: a map from bool to T. */
  type Nullable<T> = map<bool, T>

  /**
   The keys of a map over bool are whichever of `true` and `false` are
   present, so its length counts them: an empty map has neither key.
   */
  lemma KeysOfBoolMap<T(!new)>(t: map<bool, T>)
    ensures true in t && false in t ==> t.Keys == {true, false} && |t| == 2
    ensures true in t && false !in t ==> t.Keys == {true} && |t| == 1
    ensures true !in t && false in t ==> t.Keys == {false} && |t| == 1
    ensures true !in t && false !in t ==> t.Keys == {} && |t| == 0
  {
    forall b | b in t.Keys ensures b in {true, false} {
      if b { assert b == true; } else { assert b == false; }
    }
    assert |{true, false}| == 2;
  }

  /**
   The shape every constructor and mutator produces: at most one key, and a
   `false` key always maps to the zero value.
   */
  ghost predicate Wf<T>(t: Nullable<T>, zero: T) {
    |t| <= 1 && (false in t ==> t[false] == zero)
  }

  /** Go's `t[k]`: a missing key reads as the zero value. */
  function Index<T(!new)>(t: Nullable<T>, k: bool, zero: T): T {
    if k in t then t[k] else zero
  }

  // ---------------------------------------------------------------- queries

  /** `IsNull`: the field was sent as `null`, i.e. the `false` key is present. */
  predicate IsNull<T(!new)>(t: Nullable<T>)
    ensures IsNull(t) ==> |t| != 0
  {
    false in t
  }

  /** `IsSet`: the field was sent at all, i.e. the map is not empty. */
  predicate IsSet<T(!new)>(t: Nullable<T>)
    ensures IsSet(t) <==> true in t || false in t
    ensures IsNull(t) ==> IsSet(t)
  {
    KeysOfBoolMap(t);
    |t| != 0
  }

  /**
   `Get`: the flag is set exactly when the `true` key is present and the
   `false` key is absent, and then the value is the one under `true`; every
   other map yields the zero value.
   */
  function Get<T(!new)>(t: Nullable<T>, zero: T): (r: (T, bool))
    ensures r.1 <==> true in t && false !in t
    ensures r.1 ==> r.0 == t[true]
    ensures !r.1 ==> r.0 == zero
  {
    if IsNull(t) then (zero, false)
    else if !IsSet(t) then (zero, false)
    else (t[true], true)
  }

  /** `MustGet`: the value of a map Get accepts; Go panics for the null and unset maps, so that is the precondition. */
  function MustGet<T(!new)>(t: Nullable<T>): (v: T)
    requires !IsNull(t) && IsSet(t)
    ensures true in t && v == t[true]
    ensures forall zero: T :: Get(t, zero) == (v, true)
  {
    t[true]
  }

  // ----------------------------------------------------------- constructors

  /** `Zero`: the unset map. */
  function Zero<T(!new)>(): (t: Nullable<T>)
    ensures !IsSet(t) && !IsNull(t)
    ensures forall k: bool :: k !in t
  {
    map[]
  }

  /** `From`: a map holding `v`. */
  function From<T(!new)>(v: T): (t: Nullable<T>)
    ensures IsSet(t) && !IsNull(t)
    ensures forall zero: T :: Get(t, zero) == (v, true)
    ensures |t| == 1
  {
    map[true := v]
  }

  /** `Null`: a map holding an explicit null. */
  function Null<T(!new)>(zero: T): (t: Nullable<T>)
    ensures IsSet(t) && IsNull(t)
    ensures Get(t, zero) == (zero, false)
    ensures Wf(t, zero)
  {
    map[false := zero]
  }

  // --------------------------------------------------------------- mutators

  /** `Set`: replace the map by one holding `v`, whatever it held before. */
  function Set<T(!new)>(t: Nullable<T>, v: T): (r: Nullable<T>)
    ensures IsSet(r) && !IsNull(r)
    ensures forall zero: T :: Get(r, zero) == (v, true)
    ensures |r| == 1 && r[true] == v
  {
    map[true := v]
  }

  /** `SetNull`: replace the map by an explicit null. */
  function SetNull<T(!new)>(t: Nullable<T>, zero: T): (r: Nullable<T>)
    ensures IsSet(r) && IsNull(r)
    ensures Get(r, zero) == (zero, false)
    ensures Wf(r, zero)
  {
    map[false := zero]
  }

  /** `Reset`: replace the map by the unset (empty) one. */
  function Reset<T(!new)>(t: Nullable<T>): (r: Nullable<T>)
    ensures !IsSet(r) && !IsNull(r)
    ensures |r| == 0
  {
    map[]
  }

  /** The three mutators ignore the prior map: each yields its constructor's map. */
  lemma MutatorsForgetPriorState<T(!new)>(t: Nullable<T>, u: Nullable<T>, v: T, zero: T)
    ensures Set(t, v) == Set(u, v) == From(v)
    ensures SetNull(t, zero) == SetNull(u, zero) == Null(zero)
    ensures Reset(t) == Reset(u) == Zero()
  {
  }

  /** Every constructor and mutator yields a well-formed map, whatever it started from. */
  lemma ConstructorsWf<T(!new)>(t: Nullable<T>, v: T, zero: T)
    ensures Wf(Zero(), zero) && Wf(From(v), zero) && Wf(Null(zero), zero)
    ensures Wf(Set(t, v), zero) && Wf(SetNull(t, zero), zero) && Wf(Reset(t), zero)
  {
  }

  /** Every map Get accepts is `{true: v}` for the value v it returns, and so is well formed. */
  lemma GetOkIsFrom<T(!new)>(t: Nullable<T>, zero: T)
    requires Get(t, zero).1
    ensures t == From(Get(t, zero).0)
    ensures Wf(t, zero)
  {
    KeysOfBoolMap(t);
  }

  /** A well-formed map is one of the three maps the constructors build. */
  lemma WfIsConstructed<T(!new)>(t: Nullable<T>, zero: T)
    requires Wf(t, zero)
    ensures t == Zero() || t == Null(zero) || t == From(Index(t, true, zero))
  {
    KeysOfBoolMap(t);
  }

  // ---------------------------------------------------------- serialization

  /**
   `MarshalJSON`: a null map encodes as the `null` literal; any other map
   encodes what Get reports, which for an unset map is the zero value of T
   (Go's `t[true]` on an empty map). That encoding may itself be `null`
   when the payload is a nil pointer, slice or map.
   */
  function MarshalJSON<T(!new)>(t: Nullable<T>, c: Codec<T>, zero: T): (r: Result<Bytes, JsonError>)
    ensures IsNull(t) ==> r == Success(NullLiteral)
    ensures !IsNull(t) ==> r == c.marshal(Get(t, zero).0)
    ensures !IsSet(t) ==> r == c.marshal(zero)
  {
    if IsNull(t) then Success(NullLiteral) else c.marshal(Index(t, true, zero))
  }

  /**
   `UnmarshalJSON`: the map after the call, and the error it returned. The
   exact bytes `null` give the null map; otherwise a successful payload
   decode gives `{true: v}`, and a failed one is returned with the map left
   as it was.
   */
  function UnmarshalJSON<T(!new)>(t: Nullable<T>, data: Bytes, c: Codec<T>, zero: T): (r: (Nullable<T>, Option<JsonError>))
    ensures Wf(t, zero) ==> Wf(r.0, zero)
    ensures data == NullLiteral ==> r == (Null(zero), None)
    ensures data != NullLiteral ==>
              match c.unmarshal(data)
              case Success(v) => r == (From(v), None)
              case Failure(e) => r == (t, Some(e))
  {
    if data == NullLiteral then
      (SetNull(t, zero), None)
    else
      match c.unmarshal(data)
      case Failure(e) => (t, Some(e))
      case Success(v) => (Set(t, v), None)
  }

  /**
   Decoding what a set, well-formed map encoded gives that map back, whatever
   the decoding target held before, provided a present value round-trips
   through the payload codec.
   */
  lemma MarshalUnmarshalRoundTrip<T(!new)>(x: Nullable<T>, prior: Nullable<T>, c: Codec<T>, zero: T)
    requires Wf(x, zero) && IsSet(x)
    requires true in x ==> RoundTrips(c, x[true])
    ensures MarshalJSON(x, c, zero).Success?
    ensures UnmarshalJSON(prior, MarshalJSON(x, c, zero).value, c, zero) == (x, None)
  {
    WfIsConstructed(x, zero);
    if x == Null(zero) {
      assert MarshalJSON(x, c, zero) == Success(NullLiteral);
    } else {
      assert x == From(x[true]);
      assert MarshalJSON(x, c, zero) == c.marshal(x[true]);
    }
  }

  /**
   An unset map written out (no omission) does not come back unset: it comes
   back holding the zero value, or as null when the zero value of T itself
   encodes as `null`.
   */
  lemma UnsetMarshalUnmarshal<T(!new)>(x: Nullable<T>, prior: Nullable<T>, c: Codec<T>, zero: T)
    requires !IsSet(x)
    ensures RoundTrips(c, zero) ==>
              UnmarshalJSON(prior, MarshalJSON(x, c, zero).value, c, zero) == (From(zero), None)
    ensures c.marshal(zero) == Success(NullLiteral) ==>
              UnmarshalJSON(prior, MarshalJSON(x, c, zero).value, c, zero) == (Null(zero), None)
  {
  }

  // ------------------------------------------- the field inside a JSON object

  /**
   What an enclosing object emits for a field of this type: `None` when the
   field is dropped. encoding/json's omit-when-empty rule drops a map-typed
   field when its length is 0, which is exactly the unset state.
   */
  function MarshalField<T(!new)>(t: Nullable<T>, omitEmpty: bool, c: Codec<T>, zero: T): (r: Result<Option<Bytes>, JsonError>)
    ensures r == Success(None) <==> omitEmpty && !IsSet(t)
    ensures !(omitEmpty && !IsSet(t)) ==>
              match MarshalJSON(t, c, zero)
              case Success(b) => r == Success(Some(b))
              case Failure(e) => r == Failure(e)
  {
    if omitEmpty && |t| == 0 then
      Success(None)
    else
      match MarshalJSON(t, c, zero)
      case Success(b) => Success(Some(b))
      case Failure(e) => Failure(e)
  }

  /**
   What decoding an enclosing object does to a field of this type: a key
   absent from the input (`None`) never reaches UnmarshalJSON and leaves the
   map as it was.
   */
  function UnmarshalField<T(!new)>(t: Nullable<T>, input: Option<Bytes>, c: Codec<T>, zero: T): (r: (Nullable<T>, Option<JsonError>))
    ensures input.None? ==> r == (t, None)
    ensures Wf(t, zero) ==> Wf(r.0, zero)
  {
    match input
    case None => (t, None)
    case Some(data) => UnmarshalJSON(t, data, c, zero)
  }

  /**
   With omit-when-empty, every well-formed map survives a trip through an
   enclosing object decoded into a fresh (nil) field: the unset map is
   dropped and stays unset, the null and value maps come back as they were.
   */
  lemma FieldRoundTrip<T(!new)>(x: Nullable<T>, c: Codec<T>, zero: T)
    requires Wf(x, zero)
    requires true in x ==> RoundTrips(c, x[true])
    ensures MarshalField(x, true, c, zero).Success?
    ensures UnmarshalField(Zero(), MarshalField(x, true, c, zero).value, c, zero) == (x, None)
  {
    if IsSet(x) {
      MarshalUnmarshalRoundTrip(x, Zero(), c, zero);
    } else {
      KeysOfBoolMap(x);
      assert x == Zero();
    }
  }
}
