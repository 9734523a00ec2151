# jsonconfig in Dafny

A model of the `Config` store of the Go package `jsonconfig`. The store is a
two-level mapping from section to key to a dynamically typed value. It is
loaded once from a JSON document by `ReadConfig`. `Get` reads it.
`GetAsString`, `GetAsInt` and `GetAsFloat64` coerce what `Get` returns.
`SetValue` writes into it in place.

Files:

- `go_values.dfy` (module `GoValues`): the dynamic value union `Value`,
  bounded integer types for Go's `int32`, `int64`, `uint32`, `uint64` and
  `int` (64-bit platform), Go's `(T, error)` pair as `Ret<T>`, and Go's
  integer conversion `int(x)` as `ToInt`.
- `decimal.dfy` (module `Decimal`): base-10 integer text as `strconv`
  formats it, with an independent reading of decimal text (`DecimalValue`).
  It proves that formatting and reading are inverse in both directions.
- `jsonconfig.dfy` (module `JsonConfig`): the class `Config` with its one
  field `m`, and the functions that specify it. `Lookup` specifies `Get`.
  `Assign` specifies the new map after `SetValue`. `AsString`, `AsInt` and
  `AsFloat64` are the three type switches.
- `config_properties.dfy` (module `ConfigProperties`): lemmas that relate
  several operations. They cover read-after-write, how writes combine, the
  section shape that writes keep, and agreement between the getters. A client
  method `ServerExample` loads a small document and reads it back through
  every getter using only the contracts. `PartialDecodeExample` reads the
  entries a failed decode left behind.

Modelling choices:

- `m` is `Option<map<string, Value>>`. `None` is the nil map of the zero
  `Config`, which a failed open (and most decode failures) leaves in the
  returned store. Reading a nil map yields nil, so
  `Lookup(None, s, k) == Nil`.
- `Value.Nil` is Go's nil interface. A missing key yields this value, and so
  does a JSON `null`. Go cannot tell the two apart, so the model does not.
- `Value.Object` is a `map[string]interface{}`. Every JSON object decodes to
  one, and every section that `SetValue` creates is one.
- `Value.Other(goType)` is every dynamic type that the type switches do not
  list. Examples are `int8`, `int16`, `uint`, `uint8`, `uint16` and
  `[]interface{}` (a JSON array). These fall into the `default` branches:
  `GetAsString` gives `""` and `GetAsInt` gives a conversion error. The
  integer types `int8`, `int16`, `uint`, `uint8`, `uint16` and `uintptr` all
  take these `default` branches; only `int`, `int32`, `int64`, `uint32` and
  `uint64` are coerced.
- JSON numbers decode to `float64` (`F64`). So `GetAsInt` on a loaded number
  goes through float truncation, not through an integer case.
- Floats are IEEE 754 bit patterns (`bv32`, `bv64`). The float, time and
  parsing conversions the getters call are fields of the `Library` datatype,
  passed as a parameter and left uninterpreted. These are the library calls
  `strconv.FormatFloat`, `strconv.ParseFloat`, `strconv.Atoi`,
  `time.Duration.String` and `time.Time.Format(time.RFC3339)`, and the
  language conversions `float64(f)` and `int(f)` on floats. Integer and bool
  formatting are modelled exactly: `strconv.Itoa`, `strconv.FormatInt` and
  `strconv.FormatUint` by `Decimal.FormatInt` and `Decimal.FormatNat`, and
  `strconv.FormatBool` inline in `AsString`.
- Two Go panics are preconditions (`JsonConfig.Usable`). The first is the
  type assertion on a section that is neither nil nor a map. JSON such as
  `{"a": 5}` decodes without error and then panics in `Get` or `SetValue`.
  The second is `SetValue` writing a new section into a nil map.

## Model

| member | source | states |
|---|---|---|
| GoValues.ToInt | jsonconfig.go:109-116 | Go's `int(x)`: the result is a 64-bit `int` congruent to `x` modulo 2^64, and equal to `x` whenever `x` fits |
| Decimal.FormatNat | jsonconfig.go:63-66 | `FormatUint(n, 10)` is canonical digits (no leading zero) whose decimal value is `n` |
| Decimal.FormatInt | jsonconfig.go:57-62 | `Itoa` / `FormatInt(x, 10)` is decimal text (sign only for negatives, no leading zero) whose value is `x` |
| Decimal.FormatNatOfDigits | jsonconfig.go:63-66 | every canonical digit string is exactly the text `FormatUint` gives for its value |
| Decimal.DecimalRoundTrip | jsonconfig.go:57-66 | every decimal text is exactly the text `FormatInt` gives for its value, so integers and their text correspond one to one |
| JsonConfig.Lookup | jsonconfig.go:39-45 | the stored entry when the section holds a map with that key; nil when the map is nil, the section is missing or nil, or the key is missing |
| JsonConfig.Assign | jsonconfig.go:134-139 | after a write the section is a map holding `key` with `value`; a missing or nil section becomes a map with only `key`; an existing map keeps its other keys; every other section is unchanged |
| JsonConfig.AsString | jsonconfig.go:54-79 | a string unchanged; any of the five integer types as decimal text denoting its value; a bool as `"true"`/`"false"`; floats, durations and times through their formatters; nil, maps and unlisted types as `""`; never an error |
| JsonConfig.AsFloat64 | jsonconfig.go:86-96 | a string through `ParseFloat` verbatim; `float32` widened and `float64` passed through with no error; every other type gives `(0, "convert to float64 in: " + section + "." + key)` |
| JsonConfig.AsInt | jsonconfig.go:103-128 | a string through `Atoi` verbatim; `int`, `int32`, `int64`, `uint32` unchanged; `uint64` wrapped modulo 2^64 with no error; bool as 1/0; floats truncated; nil, duration, time, maps and unlisted types give `(0, "convert to int in: " + section + "." + key)` |
| JsonConfig.Config.constructor | jsonconfig.go:23 | the zero `Config` has a nil map |
| JsonConfig.Config.ReadConfig | jsonconfig.go:21-34 | a fresh store always; no error exactly when the file opened and decoded; an open failure gives the message `"read file: " + cause` and leaves the map nil; a decode failure gives `"decode json: " + cause` and keeps whatever the decoder left in the map (nil, or partly filled); on success the map is the decoded one |
| JsonConfig.Config.Get | jsonconfig.go:37-48 | reads the store without changing it and answers `Lookup` of the current map |
| JsonConfig.Config.GetAsString | jsonconfig.go:51-53 | the `GetAsString` switch applied to what `Get` returns |
| JsonConfig.Config.GetAsFloat64 | jsonconfig.go:83-85 | the `GetAsFloat64` switch applied to what `Get` returns |
| JsonConfig.Config.GetAsInt | jsonconfig.go:100-102 | the `GetAsInt` switch applied to what `Get` returns |
| JsonConfig.Config.SetValue | jsonconfig.go:132-141 | the new map is `Assign` of the old one; `Get(section, key)` then returns exactly `value`; every other readable coordinate reads as before |
| ConfigProperties.LookupAfterAssign | jsonconfig.go:37-48 | after `SetValue(s, k, v)` any value, duration and time included, is read back exactly at `(s, k)` and every other coordinate reads as before |
| ConfigProperties.AssignKeepsAllUsable | jsonconfig.go:134-139 | if no section would panic before a write, none does after it: a section once created is a map |
| ConfigProperties.LastWriteWins | jsonconfig.go:132-141 | two writes to one coordinate leave the same store as the second write alone |
| ConfigProperties.WritesCommute | jsonconfig.go:132-141 | writes to two different coordinates give the same store in either order |
| ConfigProperties.RewriteChangesNothing | jsonconfig.go:132-141 | writing back the value a key already holds leaves the store as it was |
| ConfigProperties.MissingEntryDefaults | jsonconfig.go:39-45 | a missing entry, including any entry of a nil map (left by a failed open and by most failed decodes), reads as `""`, and the two numeric getters return zero with the conversion error naming `section.key` |
| ConfigProperties.IntErrorCases | jsonconfig.go:103-128 | `GetAsInt` errs exactly for nil, duration, time, maps and unlisted types, and for strings `Atoi` rejects |
| ConfigProperties.FloatErrorCases | jsonconfig.go:86-96 | `GetAsFloat64` errs exactly outside strings and floats, and for strings `ParseFloat` rejects |
| ConfigProperties.StringAndIntAgree | jsonconfig.go:57-66 | for an integer that fits `int`, `GetAsInt` succeeds with the number that `GetAsString`'s text denotes, and formatting that number gives that text back |
| ConfigProperties.Uint64Wraps | jsonconfig.go:115-116 | a `uint64` of 2^63 or more is not rejected: `GetAsInt` returns it minus 2^64, a negative number, while `GetAsString` still shows the unsigned value |
| ConfigProperties.FloatTextMatchesReading | jsonconfig.go:69-72 | a float's string form is the float64 formatter applied to exactly what `GetAsFloat64` reads from it, with no error |

## Left out

- The embedded `sync.RWMutex` and its `RLock`, `RUnlock`, `Lock` and `Unlock` calls: the operations are modelled as sequential, so atomicity under concurrent readers and one writer is not stated.
- Opening the file and JSON decoding in `ReadConfig`: they are I/O and `encoding/json`. Their outcome is the `OpenOutcome` parameter, including the map a failed decode leaves behind (`DecodeFailed(cause, left)`); which errors leave which partial map is `encoding/json` behaviour and not modelled. A decoded top-level JSON `null` is `Decoded(None)`, which loads without error and leaves a nil map.
- Stack traces and the error cause chain kept by `github.com/pkg/errors`: only the message text is modelled.
- JsonConfig.AsString: float, duration and time texts are only what the `Library` formatters return. Shortest round-trip float text, `Duration.String` layout and RFC 3339 layout are not stated.
- JsonConfig.AsFloat64: parsing, widening and their error texts are the uninterpreted `Library.parseFloat` and `Library.widen`.
- JsonConfig.AsInt: `strconv.Atoi` and float-to-int truncation are the uninterpreted `Library.atoi`, `Library.truncate32` and `Library.truncate64`. Their range and syntax errors are not stated.
- 32-bit platforms, where Go's `int` has 32 bits: `int` is modelled as 64 bits.
- Aliasing of map values: Go maps are references, so a caller that changes a map returned by `Get` (a nested JSON object under a key) changes the store. The model gives maps value semantics.
- The two panics are preconditions (`Usable`, and a non-nil map for `SetValue`), not modelled behaviour.
