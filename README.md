# goeasyconf, modelled in Dafny

goeasyconf fills a Go configuration struct from environment variables.
`FillConfig` takes a pointer to a struct. `populateStruct` walks the
struct's fields in declaration order:

- A nested struct field is always recursed into.
- Any other field reads the variable its `env` tag names.
- A field tagged `required:"true"` fails when that variable is empty or unset.
- A non-empty value is handed to `setFieldValue`. It converts the string to
  the field's kind: string, signed or unsigned integer of a given bit size,
  bool, float, or a comma-separated slice of any of these.
- The first error ends the walk. Nothing assigned before it is undone.

The model has five modules, one file each:

- `Strconv` (`strconv.dfy`): the parts of Go's `strconv` the populator
  calls. These are base-10 `ParseInt` and `ParseUint` with their range
  checks and `ParseBool`'s twelve spellings. `Itoa` and `FormatBool` are
  included to state round trips.
- `Strings` (`strings.dfy`): `strings.Split(s, ",")` and its inverse
  `strings.Join`.
- `GoEasyConf` (`goeasyconf.dfy`): the data model and the three functions
  of the populator.
  - A struct type is a `Shape`: its fields in order, each either `Nested` or
    a `Leaf` with its key, its required flag and its `Kind`.
  - An instance is a tree of `Value`s and the environment is a map.
  - `FillConfig` is a module-level method taking a `Target`: either a
    pointer (`Pointer(Cell?)`, where a `Cell` is the pointed-to variable,
    updated in place) or a non-pointer.
  - `PopulateStruct` and `SetFieldValue` are methods with the source's
    loops. The slice loop fills an array element by element.
  - Each method is proved equal to a reference function: `Populate` for the
    walk, `Coerce` for one conversion.
- `PopulateProperties` (`properties.dfy`): what those functions guarantee.
  This covers the order and first error of the walk, no rollback, required
  and optional fields, nested structs, integer ranges and round trips,
  booleans and slices.
- `Scenarios` (`scenarios.dfy`): the configuration of `TestFillConfig`,
  filled through `FillConfig`, plus small configurations for each rule.

A failed conversion returns `strconv`'s own `*NumError`. It holds the
parsed text (for a slice, the failing piece) and no key, so `TypeCoercion`
holds the raw text and the kind.

## Model

| member | source | states |
|---|---|---|
| GoEasyConf.FillConfig | goeasyconf.go:14-20 | Anything but a non-nil pointer to a struct gives the invalid-target error and leaves the pointee unchanged. Otherwise the pointee becomes exactly the populated struct, the error is that of the walk, and the pointee stays an instance of its type. |
| GoEasyConf.PopulateStruct | goeasyconf.go:23-56 | The field loop, with its early returns and its recursion into nested structs, gives exactly the fields and error of the reference walk `Populate`. |
| GoEasyConf.SetFieldValue | goeasyconf.go:59-108 | Every kind's conversion, including the slice built in a fresh array and filled piece by piece, gives exactly `Coerce`'s result. |
| GoEasyConf.Coerce | goeasyconf.go:59-108 | A successful conversion always gives a value the field's kind can hold. In particular an integer lies within its bit width. |
| GoEasyConf.CoerceEach | goeasyconf.go:96-101 | When the element loop succeeds it has one element per piece, and element j is piece j converted. |
| GoEasyConf.CoerceEachPrefixFailure | goeasyconf.go:98-100 | Once an element fails, the loop returns that element's error whatever follows. |
| GoEasyConf.Getenv | goeasyconf.go:41 | The empty key always reads "", and a non-empty reading is the variable's value in the environment. |
| GoEasyConf.FieldStep | goeasyconf.go:30-53 | Processing one field never makes it hold a value outside its type. |
| GoEasyConf.PopulateFrom | goeasyconf.go:26-55 | The walk from any field on keeps the struct an instance of its type. |
| GoEasyConf.Populate | goeasyconf.go:23-56 | The reference walk over a whole struct keeps it an instance of its type. It is what `PopulateStruct` and `FillConfig` are proved equal to. |
| GoEasyConf.Zero | goeasyconf_test.go:58 | Go's zero value of every kind is a value of that kind. |
| GoEasyConf.ZeroStruct | goeasyconf_test.go:58 | The zero value of a struct type, nested structs included, is an instance of it. |
| Strconv.ParseUint | goeasyconf.go:72 | An accepted unsigned value lies in [0, 2^bits). |
| Strconv.ParseInt | goeasyconf.go:65 | An accepted signed value lies in [-2^(bits-1), 2^(bits-1)). |
| Strconv.FormatDec | goeasyconf.go:65 | The decimal spelling of a number is a non-empty run of digits. |
| Strconv.ParseDecFormat | goeasyconf.go:65 | Parsing the decimal spelling of any natural number gives that number back. |
| Strconv.DecValueOfFormat | goeasyconf.go:65 | The decimal value of a number's spelling is the number. |
| Strconv.ParseUintFormat | goeasyconf.go:72 | The spelling of n is accepted as unsigned exactly when n < 2^bits, and then gives n. |
| Strconv.ParseIntFormat | goeasyconf.go:65 | `Itoa(n)` is accepted as signed exactly when n is within the signed range, and then gives n. |
| Strconv.DecValueLeadingZero | goeasyconf.go:65 | Prefixing a digit string with 0 keeps it all digits and keeps its decimal value. |
| Strconv.ParseBool | goeasyconf.go:79 | Every accepted spelling has one to five characters, its first character alone decides the value (1, t, T for true; 0, f, F for false), and Go's "true" and "false" are accepted as themselves. |
| Strconv.ParseBoolFormat | goeasyconf.go:79 | `ParseBool` undoes `FormatBool`. |
| Strconv.ParseBoolRejectsMixedCase | goeasyconf.go:79 | Spellings outside the twelve, such as "tRUE", "yes" and "", are refused. |
| Strings.SplitComma | goeasyconf.go:93 | Splitting gives one piece more than there are commas, no piece holds a comma, and joining the pieces with commas gives the input back. |
| Strings.SplitJoin | goeasyconf.go:93 | Splitting a comma-join of comma-free pieces gives the pieces back. |
| Strings.SplitCommaFree | goeasyconf.go:93 | A comma-free string splits into itself alone. |
| Strings.SplitPrefix | goeasyconf.go:93 | A comma-free head, a comma and a tail split into the head followed by the tail's pieces. |
| PopulateProperties.CoerceStringVerbatim | goeasyconf.go:61-62 | A string field receives the raw text verbatim. A slice of strings always succeeds, with piece j as element j. |
| PopulateProperties.CoerceIntRoundTrip | goeasyconf.go:64-69 | A signed field accepts `Itoa(n)` exactly when n fits its bit size and then stores n. Otherwise it fails with a coercion error on that text. |
| PopulateProperties.CoerceUintRoundTrip | goeasyconf.go:71-76 | An unsigned field accepts the spelling of n exactly when n < 2^bits and then stores n. Otherwise it fails with a coercion error on that text. |
| PopulateProperties.CoerceSignedSpellings | goeasyconf.go:64-76 | An unsigned field refuses "+7" and a signed one takes it. "-128" fits 8 bits and "128" does not. A blank before the digits is refused. |
| PopulateProperties.CoerceBoolVocabulary | goeasyconf.go:78-83 | A bool field is true exactly for "1", "t", "T", "TRUE", "true", "True" and false exactly for "0", "f", "F", "FALSE", "false", "False". Anything else is a coercion error on that text. |
| PopulateProperties.CoerceEachAllSucceed | goeasyconf.go:96-101 | If every piece converts, the element loop succeeds. |
| PopulateProperties.CoerceEachFirstFailure | goeasyconf.go:96-101 | The element loop fails with the error of its first failing piece. |
| PopulateProperties.CoerceEachSucceedsIff | goeasyconf.go:96-101 | The element loop succeeds if and only if every piece converts. |
| PopulateProperties.CoerceSliceSucceeds | goeasyconf.go:92-102 | A slice field is assigned if and only if every comma-separated piece converts. It then has commas + 1 elements, element j being piece j converted. |
| PopulateProperties.CoerceSliceOfValues | goeasyconf.go:92-102 | Comma-free pieces that convert to known values, joined by commas, give the slice of exactly those values in order. |
| PopulateProperties.CoerceSliceFirstFailure | goeasyconf.go:96-101 | A slice conversion fails with the error of its first failing piece. (That the field is then not assigned is `CoercionFailureStops`.) |
| PopulateProperties.CoerceSliceOfJoin | goeasyconf.go:92-102 | A comma-join of comma-free pieces converts exactly as the pieces do one by one, in order. |
| PopulateProperties.CoerceSliceOfSlices | goeasyconf.go:92-102 | In a slice of slices every inner slice has exactly one element, because no piece holds a comma. |
| PopulateProperties.CoerceSliceUnsupported | goeasyconf.go:92-105 | A slice of an unsupported element kind (a slice of structs included) always fails with unsupported type. |
| PopulateProperties.FirstError | goeasyconf.go:26-55 | The index found is that of the first failing step from i on, or the field count when none fails. |
| PopulateProperties.PopulateFromKeepsBefore | goeasyconf.go:26-55 | The walk from field i on never changes a field before i. |
| PopulateProperties.PopulateFromPrefix | goeasyconf.go:26-55 | From field i up to the first failing step, each field holds its step's value. |
| PopulateProperties.PopulateFromStops | goeasyconf.go:26-55 | The walk's error is the first failing step's, or none when no step fails. The failing field holds what its step left, and later fields keep their old values. |
| PopulateProperties.PopulateFirstError | goeasyconf.go:26-55 | In order: every field before the first failing step holds its step's value (no rollback). The walk succeeds if and only if no step fails. Otherwise the error is the first failure's and every later field is untouched. |
| PopulateProperties.PopulateAllSucceed | goeasyconf.go:26-55 | When every step succeeds, the walk succeeds with exactly the steps' values. |
| PopulateProperties.MissingRequiredFails | goeasyconf.go:30-46 | A required field whose variable is unset or empty, or which has no `env` tag, ends the walk with the missing-required error naming its key. That field and all later ones are untouched. |
| PopulateProperties.CoercionFailureStops | goeasyconf.go:49-52 | A present value that fails to convert ends the walk with that conversion's error. That field and all later ones keep their old values. |
| PopulateProperties.FirstErrorAt | goeasyconf.go:26-55 | The first failing step is k when steps i to k-1 succeed and step k fails. |
| PopulateProperties.FirstErrorNone | goeasyconf.go:26-55 | With no failing step, the first failure is past the last field. |
| PopulateProperties.OptionalAbsentUnchanged | goeasyconf.go:48-53 | A non-required field of any kind whose variable is unset or empty raises no error in its step, is never where the walk stops, and is left exactly as it was. |
| PopulateProperties.SuccessMeansRequiredPresent | goeasyconf.go:33-46 | After a successful walk every required field, at any depth, had a non-empty variable. |
| PopulateProperties.NothingToDoUnchanged | goeasyconf.go:26-55 | With no required field and no variable set, the walk succeeds and leaves the struct exactly as it was. |
| PopulateProperties.RetagFrom | goeasyconf.go:33-39 | Changing a nested field's tags changes nothing in the walk from any field on. |
| PopulateProperties.NestedTagsIgnored | goeasyconf.go:33-39 | A nested struct field's own `env` and `required` tags make no difference to the result. |
| Scenarios.ConfigPopulates | goeasyconf_test.go:28-84 | With the test's eleven variables, walking a zero `Config` gives exactly the expected literal, nested struct included, with no error. |
| Scenarios.NestedConfigPopulates | goeasyconf_test.go:73-78 | The nested struct is filled from its own fields' keys. |
| Scenarios.TestFillConfig | goeasyconf_test.go:57-84 | `FillConfig` on a pointer to a zero `Config` succeeds and leaves exactly the expected value behind. |
| Scenarios.ServiceWithoutPort | goeasyconf.go:48-53 | An unset optional integer stays 0, and "a,b,c" becomes three strings. |
| Scenarios.ServiceEmptyEnv | goeasyconf.go:44-46 | An empty environment fails on the required field. |
| Scenarios.PortNotANumber | goeasyconf.go:64-68 | "not-a-number" in an integer field gives a coercion error on that text, and the field stays 0. |
| Scenarios.NestedFromOwnKey | goeasyconf.go:34-39 | An untagged nested struct is filled from its inner key. |
| Scenarios.NoRollback | goeasyconf.go:26-55 | A is assigned, B fails, and C is not reached, although its variable is set. |
| Scenarios.RequiredWithoutTag | goeasyconf.go:30-46 | A required field without an `env` tag fails even when the environment has an entry under the empty name. |
| Scenarios.UnsupportedOnlyWhenPresent | goeasyconf.go:48-53 | An unsupported kind is an error only when its variable is set. |
| Scenarios.InvalidTargets | goeasyconf.go:15-18 | A non-pointer, a nil pointer and a pointer to an int are all refused, and the int is left alone. |

## Left out

- Reflection is not modelled. Kinds, tags and field order are explicit data in a `Shape`. Tag parsing is done in advance: `required` is true exactly when the tag reads "true".
- os.Getenv is a map parameter. Unset and empty are the same to the populator, and the empty key always reads "". The test's `Setenv`/`Unsetenv` set-up and clean-up are not modelled; the test environment is a map literal.
- Float fields: `strconv.ParseFloat` is the parameter `parseFloat`. Its rounding is not modelled; only its result and whether it fails are used.
- The text of error messages and the `strconv` error types are not modelled. Each error is one `ConfigError` variant, and a `strconv` failure is `TypeCoercion(raw, kind)`. It holds no key because the Go error holds none.
- A `Shape` is not checked for well-formedness. A struct-kind field must be written `Nested`. A `Leaf` of kind `Other("struct")` is read as an unsupported kind and gives `UnsupportedType("struct")` when its variable is set, where Go would recurse into it. As a slice element, struct is unsupported in Go as well.
- Go strings are byte strings. Here a value is a `seq<char>`, so an environment value that is not valid UTF-8 cannot be represented.
- Panics are not modelled. Reflection panics on unexported or unsettable fields; every field of a Shape is taken to be settable.
- Go's platform-dependent `int` and `uint` width is not modelled. Each integer kind carries its bit size, and the test's types use 64.
- Go's `strconv` accepts underscores and base prefixes only with base 0. The populator uses base 10, so neither is accepted here.
- A nested struct is not updated in place, which would alias `populateStruct`'s `reflect.Value`. `PopulateStruct` takes the nested field's values and returns the filled ones, and the caller stores them in the field. The result is the same.
- A nil slice and an empty slice are not distinguished. A slice is only ever assigned from `strings.Split`, which returns at least one piece, so the populator never produces an empty slice.
