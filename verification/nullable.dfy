/**
 The struct-with-tag container of nullable.go: `Null[T]` holds a payload slot
 and an explicit state tag, so "field absent", "field is null" and "field has
 a value" are three values of one type.

 Go's zero value of T is passed explicitly as `zero`; pointer-receiver
 mutators are functions that return the container after the call.
 */
module Nullable {
  import opened Wrappers
  import opened Json

  /**
   The state tag. Go declares the three states as uint8 constants 0, 1, 2
   (iota order), so the Go zero value of a container is in StateUnset.
   */
  datatype State = StateUnset | StateNull | StateValid

  /** `Null[T]`: the payload slot and the state tag. */
  datatype Null<T> = Null(value: T, state: State)

  /**
   The representation invariant every constructor and mutator establishes:
   outside StateValid the payload slot holds the zero value of T, so no stale
   payload is ever kept.
   */
  ghost predicate Wf<T>(n: Null<T>, zero: T) {
    n.state != StateValid ==> n.value == zero
  }

  // ---------------------------------------------------------------- queries

  /** The field was sent as an explicit `null`. */
  predicate IsNull<T>(n: Null<T>)
  {
    n.state == StateNull
  }

  /** The field was sent at all, as `null` or as a value; explicit null is specified. */
  predicate IsSpecified<T>(n: Null<T>)
    ensures IsNull(n) ==> IsSpecified(n)
  {
    n.state != StateUnset
  }

  /** The predicate an omit-when-empty rule keys on: exactly the unspecified containers. */
  predicate IsZero<T>(n: Null<T>)
    ensures IsZero(n) <==> !IsSpecified(n)
    ensures IsZero(n) ==> !IsNull(n)
  {
    n.state == StateUnset
  }

  /**
   The payload and whether it is usable. The flag is set exactly for a
   specified, non-null container; otherwise the zero value comes back.
   */
  function Get<T(!new)>(n: Null<T>, zero: T): (r: (T, bool))
    ensures r.1 <==> IsSpecified(n) && !IsNull(n)
    ensures !r.1 ==> r.0 == zero
    ensures Wf(n, zero) ==> r.0 == n.value
  {
    if n.state != StateValid then (zero, false) else (n.value, true)
  }

  /** The payload of a valid container; Go panics in every other state, so that is the precondition. */
  function MustGet<T(!new)>(n: Null<T>): (v: T)
    requires n.state == StateValid
    ensures forall zero: T :: Get(n, zero) == (v, true)
  {
    n.value
  }

  // ----------------------------------------------------------- constructors

  /** `New`: the unspecified container, which is also Go's zero value of `Null[T]`. */
  function New<T(!new)>(zero: T): (n: Null<T>)
    ensures Wf(n, zero)
    ensures !IsSpecified(n) && !IsNull(n) && IsZero(n)
    ensures Get(n, zero) == (zero, false)
  {
    Null(zero, StateUnset)
  }

  /** `NewFrom`: a container holding `v`. */
  function NewFrom<T(!new)>(v: T): (n: Null<T>)
    ensures IsSpecified(n) && !IsNull(n) && !IsZero(n)
    ensures forall zero: T :: Wf(n, zero) && Get(n, zero) == (v, true)
  {
    Null(v, StateValid)
  }

  /** `NewNull`: a container holding an explicit null. */
  function NewNull<T(!new)>(zero: T): (n: Null<T>)
    ensures Wf(n, zero)
    ensures IsSpecified(n) && IsNull(n) && !IsZero(n)
    ensures Get(n, zero) == (zero, false)
  {
    Null(zero, StateNull)
  }

  // --------------------------------------------------------------- mutators

  /** `Set`: store `v` and mark it valid, whatever the container held before. */
  function Set<T(!new)>(n: Null<T>, v: T): (r: Null<T>)
    ensures IsSpecified(r) && !IsNull(r)
    ensures forall zero: T :: Wf(r, zero) && Get(r, zero) == (v, true)
  {
    n.(value := v, state := StateValid)
  }

  /** `SetNull`: switch to explicit null and clear the payload slot. */
  function SetNull<T(!new)>(n: Null<T>, zero: T): (r: Null<T>)
    ensures Wf(r, zero)
    ensures IsSpecified(r) && IsNull(r)
    ensures Get(r, zero) == (zero, false)
  {
    n.(value := zero, state := StateNull)
  }

  /** `SetUnspecified`: switch back to unspecified and clear the payload slot. */
  function SetUnspecified<T(!new)>(n: Null<T>, zero: T): (r: Null<T>)
    ensures Wf(r, zero)
    ensures IsZero(r) && !IsNull(r)
    ensures Get(r, zero) == (zero, false)
  {
    n.(value := zero, state := StateUnset)
  }

  /** The three mutators replace the whole state: their result does not depend on the prior container. */
  lemma MutatorsForgetPriorState<T(!new)>(n: Null<T>, m: Null<T>, v: T, zero: T)
    ensures Set(n, v) == Set(m, v) == NewFrom(v)
    ensures SetNull(n, zero) == SetNull(m, zero) == NewNull(zero)
    ensures SetUnspecified(n, zero) == SetUnspecified(m, zero) == New(zero)
  {
  }

  // ---------------------------------------------------------- serialization

  /**
   `MarshalJSON`: a null container encodes as the `null` literal; any other
   container encodes what Get reports, which for an unset container is the
   zero value of T (not `null`).
   */
  function MarshalJSON<T(!new)>(n: Null<T>, c: Codec<T>): (r: Result<Bytes, JsonError>)
    ensures IsNull(n) ==> r == Success(NullLiteral)
    ensures forall zero: T :: Wf(n, zero) && !IsNull(n) ==> r == c.marshal(Get(n, zero).0)
  {
    if n.state == StateNull then Success(NullLiteral) else c.marshal(n.value)
  }

  /**
   `UnmarshalJSON`: the container after the call, and the error it returned.
   The exact bytes `null` make it null; otherwise a successful payload
   decode makes it valid, and a failed one is returned with the container
   left as it was.
   */
  function UnmarshalJSON<T(!new)>(n: Null<T>, data: Bytes, c: Codec<T>, zero: T): (r: (Null<T>, Option<JsonError>))
    ensures Wf(n, zero) ==> Wf(r.0, zero)
    ensures data == NullLiteral ==> r == (NewNull(zero), None)
    ensures data != NullLiteral ==>
              match c.unmarshal(data)
              case Success(v) => r == (NewFrom(v), None)
              case Failure(e) => r == (n, Some(e))
  {
    if data == NullLiteral then
      (SetNull(n, zero), None)
    else
      match c.unmarshal(data)
      case Failure(e) => (n, Some(e))
      case Success(v) => (Set(n, v), None)
  }

  /**
   Decoding what a specified container encoded gives that container back,
   whatever the decoding target held before, provided a valid payload
   round-trips through the payload codec.
   */
  lemma MarshalUnmarshalRoundTrip<T(!new)>(x: Null<T>, prior: Null<T>, c: Codec<T>, zero: T)
    requires Wf(x, zero) && IsSpecified(x)
    requires x.state == StateValid ==> RoundTrips(c, x.value)
    ensures MarshalJSON(x, c).Success?
    ensures UnmarshalJSON(prior, MarshalJSON(x, c).value, c, zero) == (x, None)
  {
  }

  /**
   An unset container written out (no omission) does not come back unset:
   it comes back holding the zero value, or as null when the zero value of T
   itself encodes as `null` (a nil pointer, map or slice).
   */
  lemma UnsetMarshalUnmarshal<T(!new)>(x: Null<T>, prior: Null<T>, c: Codec<T>, zero: T)
    requires Wf(x, zero) && IsZero(x)
    ensures RoundTrips(c, zero) ==>
              UnmarshalJSON(prior, MarshalJSON(x, c).value, c, zero) == (NewFrom(zero), None)
    ensures c.marshal(zero) == Success(NullLiteral) ==>
              UnmarshalJSON(prior, MarshalJSON(x, c).value, c, zero) == (NewNull(zero), None)
  {
  }

  // ------------------------------------------- the field inside a JSON object

  /**
   What an enclosing object emits for a field of this type: `None` when the
   field is dropped, otherwise the encoded value. With omit-when-empty the
   field is dropped exactly when the container is unspecified.
   */
  function MarshalField<T(!new)>(n: Null<T>, omitEmpty: bool, c: Codec<T>): (r: Result<Option<Bytes>, JsonError>)
    ensures r == Success(None) <==> omitEmpty && !IsSpecified(n)
    ensures !(omitEmpty && IsZero(n)) ==>
              match MarshalJSON(n, c)
              case Success(b) => r == Success(Some(b))
              case Failure(e) => r == Failure(e)
  {
    if omitEmpty && IsZero(n) then
      Success(None)
    else
      match MarshalJSON(n, c)
      case Success(b) => Success(Some(b))
      case Failure(e) => Failure(e)
  }

  /**
   What decoding an enclosing object does to a field of this type: a key
   absent from the input (`None`) never reaches UnmarshalJSON and leaves the
   container as it was.
   */
  function UnmarshalField<T(!new)>(n: Null<T>, input: Option<Bytes>, c: Codec<T>, zero: T): (r: (Null<T>, Option<JsonError>))
    ensures input.None? ==> r == (n, None)
    ensures Wf(n, zero) ==> Wf(r.0, zero)
  {
    match input
    case None => (n, None)
    case Some(data) => UnmarshalJSON(n, data, c, zero)
  }

  /**
   With omit-when-empty, every state survives a trip through an enclosing
   object decoded into a freshly constructed field: an unset field is
   dropped and stays unset, null and valid fields come back as they were.
   */
  lemma FieldRoundTrip<T(!new)>(x: Null<T>, c: Codec<T>, zero: T)
    requires Wf(x, zero)
    requires x.state == StateValid ==> RoundTrips(c, x.value)
    ensures MarshalField(x, true, c).Success?
    ensures UnmarshalField(New(zero), MarshalField(x, true, c).value, c, zero) == (x, None)
  {
  }
}
