/**
 The map-backed container (null.go) and the struct-with-tag container
 (nullable.go) are two encodings of one tri-state value. Abs reads a map
 as a struct, Rep writes a struct as a map; on well-formed values they are
 inverse to each other, and every operation of one commutes with its
 counterpart in the other.
 */
module Correspondence {
  import opened Wrappers
  import opened Json
  import NullMap
  import Nullable

  /** The struct a map stands for: a `false` key means null, else a `true` key means valid, else unset. */
  function Abs<T(!new)>(t: NullMap.Nullable<T>, zero: T): (n: Nullable.Null<T>)
    ensures Nullable.Wf(n, zero)
  {
    if false in t then Nullable.Null(zero, Nullable.StateNull)
    else if true in t then Nullable.Null(t[true], Nullable.StateValid)
    else Nullable.Null(zero, Nullable.StateUnset)
  }

  /** The map a struct stands for. */
  function Rep<T(!new)>(n: Nullable.Null<T>, zero: T): (t: NullMap.Nullable<T>)
    ensures NullMap.Wf(t, zero)
  {
    match n.state
    case StateUnset => map[]
    case StateNull => map[false := zero]
    case StateValid => map[true := n.value]
  }

  /** Every query gives the same answer on a map as on the struct it stands for. */
  lemma QueriesAgree<T(!new)>(t: NullMap.Nullable<T>, zero: T)
    ensures Nullable.IsNull(Abs(t, zero)) == NullMap.IsNull(t)
    ensures Nullable.IsSpecified(Abs(t, zero)) == NullMap.IsSet(t)
    ensures Nullable.IsZero(Abs(t, zero)) == (|t| == 0)
    ensures Nullable.Get(Abs(t, zero), zero) == NullMap.Get(t, zero)
  {
  }

  /** The constructors build corresponding values. */
  lemma ConstructorsAgree<T(!new)>(v: T, zero: T)
    ensures Abs(NullMap.Zero(), zero) == Nullable.New(zero)
    ensures Abs(NullMap.From(v), zero) == Nullable.NewFrom(v)
    ensures Abs(NullMap.Null(zero), zero) == Nullable.NewNull(zero)
  {
  }

  /** The mutators commute with Abs: mutating the map then reading it equals reading it then mutating. */
  lemma MutatorsAgree<T(!new)>(t: NullMap.Nullable<T>, v: T, zero: T)
    ensures Abs(NullMap.Set(t, v), zero) == Nullable.Set(Abs(t, zero), v)
    ensures Abs(NullMap.SetNull(t, zero), zero) == Nullable.SetNull(Abs(t, zero), zero)
    ensures Abs(NullMap.Reset(t), zero) == Nullable.SetUnspecified(Abs(t, zero), zero)
  {
  }

  /** A map and the struct it stands for encode to the same bytes, or fail with the same error. */
  lemma MarshalAgrees<T(!new)>(t: NullMap.Nullable<T>, c: Codec<T>, zero: T)
    ensures NullMap.MarshalJSON(t, c, zero) == Nullable.MarshalJSON(Abs(t, zero), c)
  {
  }

  /** Decoding the same bytes into a map and into the struct it stands for gives corresponding results and the same error. */
  lemma UnmarshalAgrees<T(!new)>(t: NullMap.Nullable<T>, data: Bytes, c: Codec<T>, zero: T)
    ensures Abs(NullMap.UnmarshalJSON(t, data, c, zero).0, zero) == Nullable.UnmarshalJSON(Abs(t, zero), data, c, zero).0
    ensures NullMap.UnmarshalJSON(t, data, c, zero).1 == Nullable.UnmarshalJSON(Abs(t, zero), data, c, zero).1
  {
  }

  /** MustGet is defined on a map exactly when it is on the struct the map stands for, and returns the same value. */
  lemma MustGetAgrees<T(!new)>(t: NullMap.Nullable<T>, zero: T)
    ensures (!NullMap.IsNull(t) && NullMap.IsSet(t)) <==> Abs(t, zero).state == Nullable.StateValid
    ensures !NullMap.IsNull(t) && NullMap.IsSet(t) ==> NullMap.MustGet(t) == Nullable.MustGet(Abs(t, zero))
  {
  }

  /** Decoding an object field (present or absent key) into a map and into its struct gives corresponding results. */
  lemma UnmarshalFieldAgrees<T(!new)>(t: NullMap.Nullable<T>, input: Option<Bytes>, c: Codec<T>, zero: T)
    ensures Abs(NullMap.UnmarshalField(t, input, c, zero).0, zero)
              == Nullable.UnmarshalField(Abs(t, zero), input, c, zero).0
    ensures NullMap.UnmarshalField(t, input, c, zero).1 == Nullable.UnmarshalField(Abs(t, zero), input, c, zero).1
  {
    if input.Some? {
      UnmarshalAgrees(t, input.value, c, zero);
    }
  }

  /** The omit-when-empty rules agree: an empty map is dropped exactly when the struct it stands for is. */
  lemma FieldOmissionAgrees<T(!new)>(t: NullMap.Nullable<T>, omitEmpty: bool, c: Codec<T>, zero: T)
    ensures NullMap.MarshalField(t, omitEmpty, c, zero) == Nullable.MarshalField(Abs(t, zero), omitEmpty, c)
  {
  }

  /** Reading a well-formed struct back from its map gives the struct. */
  lemma AbsRep<T(!new)>(n: Nullable.Null<T>, zero: T)
    requires Nullable.Wf(n, zero)
    ensures Abs(Rep(n, zero), zero) == n
  {
  }

  /** Writing the struct a well-formed map stands for gives the map: the two encodings are in bijection. */
  lemma RepAbs<T(!new)>(t: NullMap.Nullable<T>, zero: T)
    requires NullMap.Wf(t, zero)
    ensures Rep(Abs(t, zero), zero) == t
  {
    NullMap.WfIsConstructed(t, zero);
  }
}
