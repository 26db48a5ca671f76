# A tri-state optional field, modelled in Dafny

The Go repository `qntx/param` provides a container for one field of a JSON
object. The container tells three states apart: the key was absent (unset),
the key carried `null`, or the key carried a value. The same idea is written
three times:

- `nullable.go`: `Null[T]` is a struct holding a payload slot and an explicit
  state tag (`StateUnset`, `StateNull`, `StateValid`). `IsZero` is the
  predicate the omit-when-empty rule is meant to use.
- `null.go`: `Nullable[T]` is a `map[bool]T`. An empty or nil map is unset,
  `{false: zero}` is null and `{true: v}` holds `v`. Its queries come from
  key membership and map length.
- `option.go`: `Opt[T]` is `null.go` under another name, in package `param`.

Each container has constructors, queries, whole-state mutators and a
`MarshalJSON`/`UnmarshalJSON` pair. The pair hands the payload to
encoding/json and intercepts the `null` literal itself.

## Layout

| file | module | models |
|---|---|---|
| `wrappers.dfy` | `Wrappers` | `Option` and `Result` |
| `json.dfy` | `Json` | JSON bytes, the `null` literal, the abstract payload codec, encoding/json's codec for `bool` |
| `nullable.dfy` | `Nullable` | `nullable.go` |
| `nullmap.dfy` | `NullMap` | `null.go` |
| `param.dfy` | `Param` | `option.go`, built on `NullMap` because the file is textually the same |
| `correspondence.dfy` | `Correspondence` | the link between the map encoding and the struct encoding |
| `scenarios.dfy` | `Scenarios` | the tests' JSON scenarios, replayed on a `bool` payload |

How the Go code is represented:

- Go's zero value of `T` (`var zero T`, `*new(T)`) is an explicit parameter
  `zero: T`.
- `json.Marshal` and `json.Unmarshal` at type `T` form a `Codec<T>`: two total
  functions that may fail. Decoding starts from a fresh zero `T`, so it
  depends only on the input bytes.
- No round-trip axiom is assumed. The lemmas that need one take
  `RoundTrips(c, v)` as a hypothesis. `Json.BoolCodecRoundTrips` shows that
  the hypothesis can be met.
- A pointer-receiver mutator is a function that returns the container after
  the call.
- `UnmarshalJSON` returns a pair: the container after the call, and the error
  it returned, if any. So "a failed decode leaves the container unchanged" is
  a stated property.
- A `MustGet` panic is a precondition.
- The enclosing object is modelled by `MarshalField`/`UnmarshalField`.
  `None` stands for an absent key.
- On the well-formed values, `Correspondence.Abs` and `Correspondence.Rep` are
  inverse to each other. Under `Abs`, the map encoding's queries, `MustGet`,
  constructors, mutators, `MarshalJSON`, `UnmarshalJSON`, `MarshalField` and
  `UnmarshalField` each agree with their struct counterparts.

Where the code and its test disagree, this model follows the code. The test
name at `null_test.go:209` says an unset field without `omitempty` "marshals
to null". The expected output at `null_test.go:215` and the code at
`null.go:97` both show that it marshals the payload's zero value. The
`UnsetMarshalUnmarshal` lemmas state this behaviour. They also state its
consequence: such a field is read back as holding the zero value, not as
unset.

## Model

| member | source | states |
|---|---|---|
| `Nullable.IsNull` | nullable.go:88-90 | Explicit null is the `StateNull` tag. |
| `Nullable.IsSpecified` | nullable.go:99-101 | A null container counts as specified. |
| `Nullable.IsZero` | nullable.go:104-106 | `IsZero` holds exactly when `IsSpecified` fails. An unset container is never null. |
| `Nullable.Get` | nullable.go:65-71 | The ok flag holds exactly for a specified, non-null container. When the flag is false, the zero value is returned. Under the invariant, the returned value is always the slot's content. |
| `Nullable.MustGet` | nullable.go:74-79 | Defined only in `StateValid` (Go panics otherwise). There it returns what `Get` returns with ok set. |
| `Nullable.New` | nullable.go:45-47 | The result is unset: not specified, not null, `IsZero`. `Get` gives `(zero, false)`. The invariant holds. |
| `Nullable.NewFrom` | nullable.go:50-55 | The result is specified and not null. For every zero value, `Get` gives `(v, true)` and the invariant holds. |
| `Nullable.NewNull` | nullable.go:58-62 | The result is null and specified, not `IsZero`. `Get` gives `(zero, false)`. The invariant holds. |
| `Nullable.Set` | nullable.go:82-85 | From any prior container, the result is valid and `Get` reads back exactly `(v, true)`. The invariant holds. |
| `Nullable.SetNull` | nullable.go:93-96 | From any prior container, the result is null and the slot is cleared, so the invariant holds. |
| `Nullable.SetUnspecified` | nullable.go:109-112 | From any prior container, the result is `IsZero` and not null, and the slot is cleared. |
| `Nullable.MutatorsForgetPriorState` | nullable.go:82-112 | The three mutators' results do not depend on the prior container. They equal `NewFrom`, `NewNull` and `New`. |
| `Nullable.MarshalJSON` | nullable.go:115-123 | A null container yields the `null` literal. Any other well-formed container yields the payload encoding of what `Get` reports, so an unset container encodes the zero value. |
| `Nullable.UnmarshalJSON` | nullable.go:126-138 | Exactly the bytes `null` give `NewNull`. Otherwise a successful decode of `v` gives `NewFrom(v)`. A failed decode returns its error and leaves the container as it was. The invariant is kept. |
| `Nullable.MarshalUnmarshalRoundTrip` | nullable.go:115-138 | For a well-formed specified container, decoding its encoding into any prior container gives the original container back, with no error. A valid payload must round-trip through the codec. |
| `Nullable.UnsetMarshalUnmarshal` | nullable.go:115-123 | An unset container encoded without omission comes back as `NewFrom(zero)` when the zero value round-trips. It comes back as `NewNull` when the zero value itself encodes as `null`. |
| `Nullable.MarshalField` | nullable.go:103-106 | With omit-when-empty, the field is dropped exactly when the container is not specified. Otherwise the field carries `MarshalJSON`'s bytes or error. |
| `Nullable.UnmarshalField` | nullable_test.go:41-48 | A key absent from the input leaves the container untouched, with no error. The invariant is kept. |
| `Nullable.FieldRoundTrip` | nullable_test.go:17-84 | With omit-when-empty, decoding into a fresh container gives back every well-formed container in all three states. |
| `NullMap.KeysOfBoolMap` | null.go:80-82 | A map over bool has as many entries as the keys present. It is empty exactly when neither key is present. |
| `NullMap.IsNull` | null.go:69-72 | A present `false` key makes the map nonempty. |
| `NullMap.IsSet` | null.go:80-82 | A nonempty map has a `true` key or a `false` key. `IsNull` implies `IsSet`. |
| `NullMap.Get` | null.go:43-52 | The ok flag holds exactly when key `true` is present and key `false` is absent. The value is then `t[true]`. Every other map, including a map with both keys, gives the zero value. |
| `NullMap.MustGet` | null.go:55-61 | Defined exactly where `Get` is ok (Go panics for the null and the unset map). It returns the value under `true`. |
| `NullMap.Zero` | null.go:28-30 | The empty map is neither set nor null. |
| `NullMap.From` | null.go:33-35 | `{true: v}` is set and not null, and `Get` reads it back as `(v, true)`. |
| `NullMap.Null` | null.go:38-40 | `{false: zero}` is null and set. `Get` rejects it. It is well formed. |
| `NullMap.Set` | null.go:64-66 | From any prior map, the result has one entry, `true: v`, and `Get` reads back `(v, true)`. |
| `NullMap.SetNull` | null.go:75-77 | From any prior map, the result is the well-formed null map. |
| `NullMap.Reset` | null.go:85-87 | From any prior map, the result is empty, so neither set nor null. |
| `NullMap.MutatorsForgetPriorState` | null.go:64-87 | `Set`, `SetNull` and `Reset` do not depend on the prior map. They equal `From`, `Null` and `Zero`. |
| `NullMap.ConstructorsWf` | null.go:28-40 | Every constructor and mutator yields a map with at most one key, whose `false` entry holds the zero value. |
| `NullMap.GetOkIsFrom` | null.go:43-52 | Every map that `Get` accepts is exactly `From` of the value it returns. |
| `NullMap.WfIsConstructed` | null.go:28-40 | Every well-formed map is one of the three maps the constructors build. |
| `NullMap.MarshalJSON` | null.go:89-98 | A null map yields `null`. Any other map yields the payload encoding of what `Get` reports, which may itself be `null`. So an unset map encodes the zero value. |
| `NullMap.UnmarshalJSON` | null.go:100-111 | `null` gives the null map, a decoded `v` gives `{true: v}`, and a decode error is returned with the map unchanged. Well-formedness is kept. |
| `NullMap.MarshalUnmarshalRoundTrip` | null.go:89-111 | For a well-formed set map, decoding its encoding into any prior map gives the map back, with no error. A present value must round-trip through the codec. |
| `NullMap.UnsetMarshalUnmarshal` | null_test.go:208-216 | An unset map encoded without `omitempty` comes back as `From(zero)`, or as the null map when the zero value encodes as `null`. |
| `NullMap.MarshalField` | null_test.go:199-207 | Under `omitempty` (length 0 for a Go map), the field is dropped exactly when the map is unset. Otherwise it carries `MarshalJSON`'s bytes or error. |
| `NullMap.UnmarshalField` | null_test.go:248-260 | A missing key leaves the map as it was, with no error. Well-formedness is kept. |
| `NullMap.FieldRoundTrip` | null_test.go:177-228 | With `omitempty`, decoding into a fresh nil map gives back every well-formed map: unset, null and valued. |
| `Param.IsNull` | option.go:69-72 | A present `false` key makes the length nonzero. |
| `Param.IsSet` | option.go:80-82 | `IsSet` holds exactly when the length is nonzero. `IsNull` implies `IsSet`. |
| `Param.Get` | option.go:43-52 | The ok flag holds exactly when `true` is in the map and `false` is not. The value is then `t[true]`, and the zero value otherwise. |
| `Param.MustGet` | option.go:55-61 | Defined exactly where `Get` is ok. It returns `Get`'s value. |
| `Param.Zero` | option.go:28-30 | The result is neither set nor null. |
| `Param.From` | option.go:33-35 | The result is set and not null, and `Get` gives `(v, true)`. |
| `Param.Null` | option.go:38-40 | The result is set and null, and `Get` gives `(zero, false)`. It is well formed: its one key is `false`, holding the zero value. |
| `Param.Set` | option.go:64-66 | From any map, the result is set and not null, and `Get` gives `(v, true)`. |
| `Param.SetNull` | option.go:75-77 | From any map, the result is the `Null` map. |
| `Param.Reset` | option.go:85-87 | From any map, the result is the `Zero` map. |
| `Param.MarshalJSON` | option.go:89-98 | A null map yields `null`. Any other map yields the payload encoding of what `Get` reports, which may itself be `null`; for an unset map that is the zero value. |
| `Param.UnmarshalJSON` | option.go:100-111 | `null` gives `Null`, a decoded `v` gives `From(v)`, and an error leaves the map unchanged. |
| `Param.FieldRoundTrip` | option_test.go:177-228 | Under `omitempty`, the field is dropped exactly when the length is 0. A set, well-formed `Opt` decodes back to itself from its own encoding. |
| `Correspondence.Abs` | null.go:16-20 | Reading any map, including one with both keys, as a struct always gives a struct that keeps the struct invariant. |
| `Correspondence.Rep` | nullable.go:27-37 | Writing any struct as a map always gives a well-formed map. |
| `Correspondence.QueriesAgree` | null.go:43-82 | On every map, `IsNull`, `IsSet`/`IsSpecified`, emptiness/`IsZero` and `Get` agree with the struct the map stands for. |
| `Correspondence.ConstructorsAgree` | null.go:28-40 | `Zero`, `From` and `Null` stand for `New`, `NewFrom` and `NewNull`. |
| `Correspondence.MutatorsAgree` | null.go:64-87 | `Set`, `SetNull` and `Reset` on maps commute with `Abs` and the struct mutators `Set`, `SetNull` and `SetUnspecified`. |
| `Correspondence.MarshalAgrees` | null.go:89-98 | A map and the struct it stands for encode to the same result. |
| `Correspondence.UnmarshalAgrees` | null.go:100-111 | Decoding the same bytes into a map and into its struct gives corresponding containers and the same error. |
| `Correspondence.MustGetAgrees` | null.go:55-61 | `MustGet` is defined on a map exactly when the struct it stands for is valid, and both return the same value. |
| `Correspondence.UnmarshalFieldAgrees` | null.go:100-111 | Decoding a present or absent key into a map and into its struct gives corresponding containers and the same error. |
| `Correspondence.FieldOmissionAgrees` | null.go:94 | The map's length-0 omission rule and the struct's `IsZero` omission rule drop the same fields and emit the same bytes. |
| `Correspondence.AbsRep` | nullable.go:27-37 | A well-formed struct read back from its map is unchanged. |
| `Correspondence.RepAbs` | null.go:16-20 | A well-formed map written back from its struct is unchanged, so the two encodings are in bijection. |
| `Json.BoolCodecRoundTrips` | null_test.go:182 | Every `bool` payload round-trips through encoding/json's bool codec, and neither encoding is `null`. |
| `Scenarios.MapBoolField` | null_test.go:177-279 | For a `bool` map field, values and null encode as their literals, an unset optional field is dropped, `null` decodes to null, and a number is an error that leaves the field unchanged. |
| `Scenarios.StructBoolField` | nullable_test.go:17-84 | In a fresh struct field, a missing key stays unset, `null` gives null, `false` gives a specified false, and a number gives an error with the field unchanged. |

## Left out

- field.go: the typed helper constructors (`String`, `Int`, `Float`, `Time`, …) and `Ptr`. They only call `From`, and they involve floats and `time.Time`.
- encoding/json itself: the payload codec is abstract, and JSON syntax, whitespace and error texts are not modelled. The one concrete codec, for `bool`, does not accept whitespace around its tokens.
- What encoding/json's `omitempty` does with a field is host behaviour. `MarshalField` states the intended rule and does not model the host. For a map-typed field, encoding/json's documented rule is length 0, which is what `NullMap.MarshalField` uses. For a struct-typed field such as `Null[T]`, the documented `omitempty` rule never drops the field, and only the newer `omitzero` option consults `IsZero`. `Nullable.MarshalField` follows the intent stated in the `IsZero` doc comment instead.
- The Go interfaces `Nullable` and `JSONNullable`/`JSONOpt`, and the compile-time `var _ …` checks: they declare method sets and have no behaviour.
- `State` values other than the three constants: the field is unexported, so code outside the package cannot produce them.
- The distinction between a nil map and an empty map: every operation reads them the same way.
- Go map aliasing: every mutator assigns a fresh map, so sharing is not observable through the package's operations.
- The panic message of `MustGet`: a panic is a precondition here.
- Payload types that hold references: the generic members that quantify over the zero value require `T(!new)`, which covers JSON payload values.
- Benchmarks and example output formatting: they do not affect the container's behaviour.
