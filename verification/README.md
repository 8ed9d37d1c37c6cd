# mgin core, modelled in Dafny

`mgin` is a small Go web layer over the `negroni` middleware chain and the
`bone` router. This project models three parts of it:

- the tag-driven request binder of `context.go`: `readParams`, `ReadParams`
  and `ReadAndValidate`, together with the small request helpers `Param`,
  `QueryParam`/`GetQueryParam`, the `Redirect` code guard and `IsWebsocket`;
- the route groups of `group.go`: `toAbsPath`, `lastChar`, `Group` and the
  fourteen route methods (`Get` … `Delete` with an `http.HandlerFunc`,
  `GET` … `DELETE` with a context handler);
- the handler chain `NewMgin` in `mgin.go` builds, and its root group at "/".

The proofs are about that model.

Modules:

- `Wrappers` holds `Option`.
- `Strconv` models the parts of Go's `strconv` the binder calls. `ParseInt`
  and `ParseUint` parse base 10 within a bit width, `ParseBool` accepts the
  twelve spellings, and the formatters are their inverses.
- `Binding` is the binder.
  - A struct pointer is a `Target`. A struct is a `Record`: its `Field`s, each
    with a kind and tags, and the current `Value`s.
  - A `Request` gives one reader per source: path, query, form, header,
    cookie.
  - A field is bound by one `FieldStep`: keep the field, store a value, or
    fail with a status. `BindFrom` is the fail-fast loop over the fields.
  - `ReadParamsMode` is `readParams` with its `onlyRead` flag.
- `BindingLaws` holds the laws of the binder and worked examples.
- `ContextHelpers` holds the request helpers.
- `Paths` models Go's `path.Join`/`path.Clean` lexically, plus `lastChar`
  and `toAbsPath`. `PathLaws` proves their laws.
- `Routing` holds route groups and route registration.
- `Mgin` holds the chain built by `NewMgin`.

Where the binder's behaviour is easy to misread, the model follows the code:

- A field with none of the five source tags is not skipped. It reads the
  empty string.
  - `ReadParams` answers 400 "no value specified" for it unless it is
    `optional`.
  - `ReadAndValidate` converts the empty string. An empty string is accepted
    for string and byte-slice fields and is a 400 for numbers and bools.
- `ReadParams` (`onlyRead` false) checks presence and honours `optional` and
  `ignore-error`. `ReadAndValidate` (`onlyRead` true) checks no presence, so
  `optional` has no effect there and `ignore-error` is switched off.
- Suppose a struct has an `int` path field and an optional `bool` query
  field, and the query is empty. `ReadParams` then succeeds.
  `ReadAndValidate` answers 400, because `strconv.ParseBool("")` fails
  (`BindingLaws.ExampleId42Validating`).

## Model

| member | source | states |
|---|---|---|
| Strconv.ParseUint | context.go:174-180 | `strconv.ParseUint(val, 10, bits)` succeeds exactly on a non-empty string of decimal digits whose value is below 2^bits, and then yields that value |
| Strconv.ParseInt | context.go:167-173 | `strconv.ParseInt(val, 10, bits)` succeeds exactly on an optional '+' or '-' followed by at least one decimal digit whose signed value lies in [-2^(bits-1), 2^(bits-1)), and then yields that signed value; leading zeros and '+' are accepted |
| Strconv.UintRoundTrip | context.go:174-180 | parsing the decimal form of n gives n back exactly when n fits the field's width, and is a failure otherwise |
| Strconv.IntRoundTrip | context.go:167-173 | parsing the decimal form of a signed x gives x back exactly when x fits the signed width, and is a failure otherwise |
| Strconv.IntSpellings | context.go:167-173 | "+5", "007" and "-0" parse as 5, 7 and 0; "-128" fits 8 bits and "128" does not; a lone sign and an underscore are rejected |
| Strconv.DigitsValueFormat | context.go:174-180 | the digits of the decimal form of n denote n |
| Strconv.ParseBool | context.go:188-194 | `strconv.ParseBool` accepts exactly "1", "t", "T", "TRUE", "true", "True" as true and "0", "f", "F", "FALSE", "false", "False" as false, and rejects everything else |
| Strconv.BoolRoundTrip | context.go:188-194 | `ParseBool` reads back both spellings `FormatBool` writes |
| Strconv.BoolSpellings | context.go:188-194 | the three capitalisations are accepted, other mixed-case spellings and "yes" are not |
| Strconv.EmptyNeverParses | context.go:167-194 | the empty string is rejected by the int, uint and bool parsers, so an absent value fails every numeric or bool field that is converted |
| Binding.FirstSourceTag | context.go:135-150 | the tag lookup finds the first of path, query, form, header, cookie that the field carries, and none exactly when it carries none of them |
| Binding.RawValue | context.go:144-150 | the raw value is the reader of the first source tag present (path, query, form, header, cookie in that order) applied to that tag's value, and "" when the field has none of them |
| Binding.Convert | context.go:164-203 | strings and `[]byte` take the raw value as it is; int, uint and bool values are exactly what `ParseInt`, `ParseUint` and `ParseBool` give at the field's width, and their failure is a conversion error; floats come from the float parser, and "" never parses as a float; only slices other than `[]byte` and other kinds are unsupported |
| Binding.Reader | context.go:135-141 | the tag handler table pairs `path` with the path parameters, `query` with the query, `form` with the form, `header` with the headers and `cookie` with the cookies |
| Binding.ParseFloat | context.go:181-187 | "" is never a float; any other string is whatever `strconv.ParseFloat` makes of it at the field's width |
| Binding.FieldStep | context.go:144-203 | one field's outcome: a stored value fits the field's kind; failures are 400 or 501; 501 only for an unsupported kind; a field is left untouched only when presence is checked; once past the presence check, a value the conversion accepts is exactly what the field stores (`SetString`, `SetInt`, `SetUint`, `SetFloat`, `SetBool`, `SetBytes`) |
| Binding.FirstFailure | context.go:142-204 | the index of the first field whose step fails: every earlier field succeeds |
| Binding.Fold | context.go:142-206 | the fail-fast fold over the fields' steps: 200 exactly when no step fails, otherwise the first failing step's status and error, with the steps before it applied and the fields from it on untouched |
| Binding.BindFrom | context.go:142-206 | the loop is fail-fast. It succeeds with 200 exactly when no field fails. Otherwise it returns the first failing field's status and error. The fields before that one hold their new values and every later field is unchanged |
| Binding.ReadParamsMode | context.go:116-206 | nil is 200 and binds nothing; a non-pointer and a pointer to a non-struct are 500 with their own errors; for a struct pointer the error is absent exactly when no field fails, otherwise status and error are the first failing field's, the fields before it hold their new values and the rest are untouched; the error is absent exactly when the status is 200; a well-typed struct stays well-typed |
| Binding.ReadParams | context.go:86-88 | `ReadParams` is `readParams` with presence checking (`onlyRead` false); when it succeeds on a struct, every field not marked `optional` found a non-empty value |
| Binding.ReadAndValidate | context.go:105-114 | a failed read is returned as it is, without running the validator; otherwise a validation error is a 400 and no error keeps the read result |
| BindingLaws.SourcePrecedence | context.go:145-150 | the raw value comes from the reader of the first source tag the field carries, keyed by that tag's value |
| BindingLaws.NoSourceTagReadsEmpty | context.go:144-150 | a field without any source tag reads the empty string, so it is not skipped |
| BindingLaws.PathTagWins | context.go:135-150 | a `path` tag wins over every other source, so changing the query, form, header or cookie does not change the value |
| BindingLaws.FirstSourceTagOnlySeesSourceKeys | context.go:145-150 | tags other than the five source tags (`optional`, `validate`, …) never influence where a value is read from |
| BindingLaws.PresencePolicy | context.go:151-158 | with presence checked, an empty value skips an optional field and is a 400 "no value" naming the Go field otherwise |
| BindingLaws.RemovingOptionalRequiresValue | context.go:151-158 | the `optional` tag is exactly what turns an empty value from a 400 into a skipped field |
| BindingLaws.ReadParamsNeverStoresEmpty | context.go:151-158 | when presence is checked, a stored value always came from a non-empty raw value |
| BindingLaws.ValidatingModeConvertsEmpty | context.go:151-203 | without presence checking, an empty value is stored as "" in string and byte-slice fields and is a 400 for number and bool fields, whatever the tags |
| BindingLaws.IgnoreErrorPolicy | context.go:159-194 | a conversion error is a 400 unless the field is `ignore-error` and presence is checked, in which case the field is left as it was |
| BindingLaws.ConvertedIsStored | context.go:164-198 | for every kind, in both modes, a raw value that gets past the presence check and that the conversion accepts is stored as the converted value |
| BindingLaws.StringAndBytesStoreVerbatim | context.go:165-166 | a string or `[]byte` field stores the raw value verbatim whenever it gets past the presence check, in both modes and whatever its other tags |
| BindingLaws.UnsupportedKindIsNotImplemented | context.go:195-202 | a slice that is not `[]byte` or any other kind answers 501 naming the type, in both modes, even with `ignore-error` |
| BindingLaws.IntFieldRoundTrip | context.go:167-173 | an int field whose source holds the decimal form of x stores x if x fits its width and is a 400 otherwise |
| BindingLaws.UintFieldRoundTrip | context.go:174-180 | a uint field whose source holds the decimal form of n stores n if n fits its width and is a 400 otherwise |
| BindingLaws.UntaggedStructNeedsOptional | context.go:142-158 | for a struct without source tags, `ReadParams` succeeds exactly when every field is optional, and answers 400 otherwise |
| BindingLaws.InternalErrorOnlyForBadTargets | context.go:122-132 | 500 is answered exactly for a non-pointer or a pointer to a non-struct, and then no request influences the answer |
| BindingLaws.ExampleIdStep | context.go:167-173 | the path value "42" of an `int64` field stores 42 in both modes |
| BindingLaws.ExampleActiveStep | context.go:151-160 | an optional bool field with no value is skipped by `ReadParams` and is a 400 for `ReadAndValidate` |
| BindingLaws.ExampleSteps | context.go:144-203 | the two fields' steps for `id=42` in each mode |
| BindingLaws.ExampleLoop | context.go:142-206 | the loop for `id=42` binds ID to 42 and leaves Active false, succeeding with presence checked and failing on Active without it |
| BindingLaws.ExampleId42 | context.go:86-88 | `ReadParams` binds ID=42 and leaves the optional Active false, with 200 |
| BindingLaws.ExampleId42OnlyRead | context.go:116-206 | `readParams` without the presence check answers 400 for that request with ID already set to 42 |
| BindingLaws.ExampleId42Validating | context.go:105-108 | `ReadAndValidate` answers 400 for the same request, because it parses the absent bool |
| BindingLaws.ExampleIdAbc | context.go:167-172 | "abc" for an int field stops the bind with a 400 conversion error and leaves the struct unchanged |
| BindingLaws.ExampleMissingToken | context.go:151-156 | a missing required query value is a 400 naming the Go field `Token` |
| ContextHelpers.Param | context.go:59-70 | a named path parameter gives its value, and a missing one, or a request without parameters, gives "" |
| ContextHelpers.QueryParam | context.go:208-213 | `QueryParam` is the first value of the name, and "" when the name is missing or has no value |
| ContextHelpers.GetQueryParam | context.go:223-232 | the flag is true exactly when the name occurs in the query, and a missing name gives "" |
| ContextHelpers.QueryAccessorsAgree | context.go:208-232 | `QueryParam` and `GetQueryParam` give the same first value; only the flag tells an empty value from an absent one |
| ContextHelpers.RedirectCodeError | context.go:393-396 | a redirect is refused exactly for codes outside 300..308, with "ErrInvalidRedirectCode " and the code in decimal |
| ContextHelpers.ToLower | context.go:441 | `strings.ToLower` keeps the length and maps each character to its lower case |
| ContextHelpers.ToLowerIdempotent | context.go:441 | lower-casing an already lower-cased header changes nothing |
| ContextHelpers.EqualFold | context.go:442 | `strings.EqualFold` holds exactly when both strings are equal once lower-cased |
| ContextHelpers.Contains | context.go:441 | `strings.Contains` holds exactly when `sub` occurs somewhere in `s` |
| ContextHelpers.ContainsFrom | context.go:441 | the substring search finds `sub` exactly when it occurs at or after the start position |
| ContextHelpers.IsWebsocket | context.go:440-446 | a request is a websocket upgrade exactly when the lower-cased `Connection` header contains "upgrade" and `Upgrade` is "websocket" up to case |
| ContextHelpers.WebsocketExamples | context.go:440-446 | "keep-alive, Upgrade" with "WebSocket" is an upgrade; a missing `Connection` header is not |
| Paths.Clean | group.go:30 | the cleaned path is never empty. It ends in '/' only when it is "/". It is rooted exactly when its input is |
| Paths.Join | group.go:30 | `path.Join` of two arguments is empty only when both are; otherwise it is the cleaned concatenation, rooted exactly when its first non-empty argument is, and it ends in '/' only when it is "/" |
| Paths.LastChar | group.go:37-43 | `lastChar` is the final character; the model demands a non-empty string where Go panics |
| Paths.ToAbsPath | group.go:25-35 | an empty relative path gives the base unchanged; otherwise the result is the join, with one '/' appended exactly when the relative path ends in '/' and the join is not the root "/" (the only join that ends in '/'); it ends in '/' exactly when the relative path does or the join is "/" |
| PathLaws.SplitConcat | group.go:30 | splitting at a '/' splits the pieces of both sides |
| PathLaws.SplitJoin | group.go:30 | splitting the join of path elements gives the elements back |
| PathLaws.ResolveAppend | group.go:30 | resolving "." and ".." over two runs of pieces is resolving the second over the result of the first |
| PathLaws.ResolveSplitClean | group.go:30 | the elements of a cleaned rooted path are the resolved elements of the original |
| PathLaws.CleanIdempotent | group.go:30 | cleaning a rooted path twice is cleaning it once |
| PathLaws.CleanAbsorbsPrefix | group.go:30 | cleaning the base before joining changes nothing |
| PathLaws.ToAbsPathRooted | group.go:25-35 | under a rooted base every group and route path is rooted |
| PathLaws.ToAbsPathShape | group.go:25-35 | under a non-empty base, a non-empty relative path gives the cleaned `base/rel`, possibly followed by one '/' |
| PathLaws.JoinAfterClean | group.go:30 | joining onto a cleaned rooted path, with or without a trailing '/', is cleaning the joined original |
| PathLaws.JoinUnderGroup | group.go:14-35 | joining under a group's path is joining under its base with the group's relative path in front |
| PathLaws.NestedToAbsPath | group.go:14-35 | resolving relB under the result of relA is resolving relA + "/" + relB under the base |
| PathLaws.ToAbsPathExamples | group.go:25-35 | under "/", "" stays "/" and "api/" becomes "/api/" |
| Routing.Group | group.go:14-19 | a subgroup shares its parent's router; its base is the parent's base joined with the relative path, and stays rooted |
| Routing.Handle | group.go:45-72 | a route method registers its handler on the group's router, for its verb, at the group-relative absolute path |
| Routing.HandleContext | group.go:75-101 | the context variants register the same route with the context handler wrapped by `unwrap` |
| Routing.DescendStaysRooted | group.go:14-35 | any chain of subgroups from a rooted group stays rooted and on the same router, so by `Routing.Handle` its routes are rooted too |
| Routing.NestedGroupRoute | group.go:14-47 | a route on a subgroup is the route on the parent at rel + "/" + pattern |
| Routing.NestedGroups | group.go:14-19 | a subgroup of a subgroup is the subgroup at a + "/" + b |
| Mgin.Loggers | mgin.go:29-34 | the first pass keeps only loggers |
| Mgin.Others | mgin.go:38-42 | the second pass keeps only non-loggers |
| Mgin.HasLoggerIffLoggers | mgin.go:28-37 | `hasLogger` is set exactly when a supplied handler is a logger |
| Mgin.PartitionIsPermutation | mgin.go:29-42 | the two passes together use every supplied handler exactly once |
| Mgin.ChainEnds | mgin.go:25-45 | the chain starts with recovery and ends with the router, and is two entries longer than the supplied handlers plus the default logger when it is added |
| Mgin.ChainDefaultLogger | mgin.go:35-37 | the default logger "mgin" is in the chain exactly when no logger was supplied, and then comes right after recovery |
| Mgin.ChainLoggersFirst | mgin.go:25-42 | apart from recovery, no non-logger comes before a logger |
| Mgin.UseLoggers | mgin.go:28-34 | the first loop appends the supplied loggers in order and reports whether there was one |
| Mgin.UseOthers | mgin.go:38-42 | the second loop appends the other handlers in order |
| Mgin.NewMgin | mgin.go:24-53 | the built chain is recovery, then loggers, then the default logger when none was supplied, then the others, then the router; the root group is "/" on that router |

## Left out

- Reflection is modelled by the `Kind` of a field. Go's struct-tag syntax is
  modelled by a tag map, so tag parsing is not modelled.
- A flag key in the tag map stands for the `key:"value"` form, such as
  `optional:""`. Go's `StructTag.Lookup` only reads `key:"value"` pairs, so a
  bare `optional` or `ignore-error`, as the doc comment of `ReadParams`
  writes them, is never found and has no effect.
- The five value readers are left as functions of the request. This covers
  `c.Param`, `QueryParam`, `FormValue`, `Header` and `CookieValue`.
  - The memoisation of parsed path values, query and form is not modelled.
  - Form parsing with its memory limit is not modelled. `FormValue` swallows
    parse errors, so the binder has no form-error path.
- `strconv.ParseFloat` is a parameter of the model: decimal floating-point
  parsing is not modelled. The model only fixes that the empty string fails.
- Float values are mathematical reals. Go's `ParseFloat` also returns NaN
  and ±Inf without an error for "NaN", "Inf" or "-Infinity", and
  `SetFloat` stores them with 200; the model has no such values, and no
  float32 rounding.
- Syntax and range `NumError`s are not told apart. The model keeps their
  common effect, a 400 carrying the offending text.
- Go's `int` and `uint` are taken to be 64 bits wide.
- Setting an unexported field panics in Go. Every field is treated as
  settable.
- `validator.Struct` is a parameter (target to optional error text). Its
  rules are not modelled.
- The validator's `InvalidValidationError` for a nil argument is not built
  in. Go's `ReadAndValidate(nil)` is therefore always a 400, while the
  model allows any validator answer, including none, and so a 200.
- ContextHelpers.ToLower: handles ASCII letters only, because Unicode case
  mapping is not modelled; `IsWebsocket` compares the same way.
- ContextHelpers.GetQueryParam: requires every present name to carry at least
  one value. Parsed query values always do, and Go would panic on an empty
  slice.
- Paths.Clean: is stated on path elements (split at '/', drop "" and ".",
  resolve ".."). It is not Go's byte-by-byte loop, but it cleans to the same
  result.
- The HTTP side of `Redirect` is not modelled, because it writes to the
  response. This covers `http.Redirect`. The model keeps the code guard.
- The formatting `WithLogger` applies is not modelled, because it only
  affects log output. `ServeHTTP`, `Run`, the `Wrap*` adaptors and
  `NotFoundHandler` are not modelled either. The chain records the default
  logger by its name.
- The response writers are not modelled. Neither are `ReadJSON`,
  `ReadAndValidateJSON`, SSE, the body dumper, `context-for-embedding.go` and
  `cores-free.go`. None of them is part of the binder or the routing.
- A nil handler is not modelled: `Mgin.Handler` has no nil value. In Go,
  negroni's `Use` panics on a nil handler, so `NewMgin` panics when given
  one.
- What `bone` and `negroni` do at run time is not modelled. A router is an
  identity. A route records verb, path and handler.
