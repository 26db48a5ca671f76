/**
 The `Opt[T]` container of option.go (package param). It is the map-backed
 container of null.go under another name: the same `map[bool]T`
 representation and the same operation bodies. Here it is that container
 instantiated under option.go's names, and each operation states the
 properties option.go's callers rely on.
 */
module Param {
  import opened Wrappers
  import opened Json
  import NullMap

  /** `Opt[T]`: a map from bool to T; empty is unset, `{false: zero}` is null, `{true: v}` holds v. */
  type Opt<T> = NullMap.Nullable<T>

  /** `IsNull`: the `false` key is present, which makes the map nonempty. */
  predicate IsNull<T(!new)>(t: Opt<T>)
    ensures IsNull(t) ==> |t| != 0
  {
    NullMap.IsNull(t)
  }

  /** `IsSet`: the map is not empty; an explicit null is set. */
  predicate IsSet<T(!new)>(t: Opt<T>)
    ensures IsSet(t) <==> |t| != 0
    ensures IsNull(t) ==> IsSet(t)
  {
    NullMap.IsSet(t)
  }

  /** `Get`: ok exactly when `true` is a key and `false` is not, returning the value under `true`. */
  function Get<T(!new)>(t: Opt<T>, zero: T): (r: (T, bool))
    ensures r.1 <==> true in t && false !in t
    ensures r.1 ==> r.0 == t[true]
    ensures !r.1 ==> r.0 == zero
  {
    NullMap.Get(t, zero)
  }

  /** `MustGet`: defined exactly where Get is ok; it panics for the null and the unset map. */
  function MustGet<T(!new)>(t: Opt<T>): (v: T)
    requires !IsNull(t) && IsSet(t)
    ensures forall zero: T :: Get(t, zero) == (v, true)
  {
    NullMap.MustGet(t)
  }

  /** `Zero`: the unset map. */
  function Zero<T(!new)>(): (t: Opt<T>)
    ensures !IsSet(t) && !IsNull(t)
  {
    NullMap.Zero()
  }

  /** `From`: `{true: v}`, which Get reads back as `(v, true)`. */
  function From<T(!new)>(v: T): (t: Opt<T>)
    ensures IsSet(t) && !IsNull(t)
    ensures forall zero: T :: Get(t, zero) == (v, true)
  {
    NullMap.From(v)
  }

  /** `Null`: `{false: zero}`, which is null and set and which Get rejects. */
  function Null<T(!new)>(zero: T): (t: Opt<T>)
    ensures IsSet(t) && IsNull(t)
    ensures Get(t, zero) == (zero, false)
    ensures NullMap.Wf(t, zero)
  {
    NullMap.Null(zero)
  }

  /** `Set`: replaces any map by one Get reads back as `(v, true)`. */
  function Set<T(!new)>(t: Opt<T>, v: T): (r: Opt<T>)
    ensures IsSet(r) && !IsNull(r)
    ensures forall zero: T :: Get(r, zero) == (v, true)
  {
    NullMap.Set(t, v)
  }

  /** `SetNull`: replaces any map by the null map. */
  function SetNull<T(!new)>(t: Opt<T>, zero: T): (r: Opt<T>)
    ensures IsSet(r) && IsNull(r)
    ensures r == Null(zero)
  {
    NullMap.SetNull(t, zero)
  }

  /** `Reset`: replaces any map by the empty one. */
  function Reset<T(!new)>(t: Opt<T>): (r: Opt<T>)
    ensures !IsSet(r) && !IsNull(r)
    ensures r == Zero()
  {
    NullMap.Reset(t)
  }

  /**
   `MarshalJSON`: a null map yields `null`; any other map yields the payload
   encoding of what Get reports, which may itself be `null`.
   */
  function MarshalJSON<T(!new)>(t: Opt<T>, c: Codec<T>, zero: T): (r: Result<Bytes, JsonError>)
    ensures IsNull(t) ==> r == Success(NullLiteral)
    ensures !IsNull(t) ==> r == c.marshal(Get(t, zero).0)
  {
    NullMap.MarshalJSON(t, c, zero)
  }

  /**
   `UnmarshalJSON`: the `null` literal gives the null map, a decoded value v
   gives `{true: v}`, and a decode error is returned with the map unchanged.
   */
  function UnmarshalJSON<T(!new)>(t: Opt<T>, data: Bytes, c: Codec<T>, zero: T): (r: (Opt<T>, Option<JsonError>))
    ensures data == NullLiteral ==> r == (Null(zero), None)
    ensures data != NullLiteral ==>
              match c.unmarshal(data)
              case Success(v) => r == (From(v), None)
              case Failure(e) => r == (t, Some(e))
  {
    NullMap.UnmarshalJSON(t, data, c, zero)
  }

  /**
   With omit-when-empty, the field of an unset `Opt` is dropped (its length
   is 0), and a set, well-formed `Opt` decodes back to itself from what it
   encodes, given a payload that round-trips.
   */
  lemma FieldRoundTrip<T(!new)>(x: Opt<T>, c: Codec<T>, zero: T)
    requires NullMap.Wf(x, zero)
    requires true in x ==> RoundTrips(c, x[true])
    ensures NullMap.MarshalField(x, true, c, zero) == Success(None) <==> |x| == 0
    ensures IsSet(x) ==> UnmarshalJSON(Zero(), MarshalJSON(x, c, zero).value, c, zero) == (x, None)
  {
    NullMap.FieldRoundTrip(x, c, zero);
    if IsSet(x) {
      NullMap.MarshalUnmarshalRoundTrip(x, Zero(), c, zero);
    }
  }
}
