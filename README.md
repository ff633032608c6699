# Enum string helpers, verified model

A Dafny model of the string/enum conversion helpers of the Temporal API Go
package `enums` (`enums/v1/common.go-helpers.go`). Three enum families,
`EncodingType`, `IndexedValueType` and `Severity`, can be written in two ways:
the canonical SCREAMING_CASE name generated from the protobuf schema, and a
PascalCase "shorthand" name. For each family the source keeps two static
shorthand tables (name to number, number to name) and offers two helpers:

- `<Enum>FromString(s)` looks `s` up in the canonical table first, then in the
  shorthand table, and otherwise returns value 0 with an error;
- `<Enum>.Shorthand()` returns the value's shorthand name and `true`, or
  `("", false)` for a value with no registered name.

The three families are copies of one template, so the model has:

- `EnumHelpers` (`enum_helpers.dfy`): the template. One family is a `Tables`
  value (its Go type name and its two shorthand tables). `FromString` and
  `Shorthand` are defined over it once. The properties are proved once: inverse
  tables have equal size, a table keyed by `0 .. n-1` has `n` entries, shorthand
  names are injective, and both round trips hold (print then parse, and parse
  then print).
- `EncodingTypeHelpers`, `IndexedValueTypeHelpers`, `SeverityHelpers`: each
  holds the family's literal tables and the family's Go enum type, a newtype
  over `int32` with a `Shorthand()` member. Each also has its `FromString`
  function. The lemmas here instantiate the template: the tables are exact
  inverses, they cover exactly `0 .. n-1`, value 0 is "Unspecified", and the
  round trips hold, and so do a few examples, among them the
  `-1` case from the source's doc comment.

The canonical `<Enum>_value` tables are generated code that is not part of
this model. Each `FromString` therefore takes the canonical table as a
parameter `canonical: map<string, int32>`. The round-trip lemmas assume
`Compatible(canonical, shorthandValue)`: a name that is in both tables maps
to the same number in each. Key sets that do not overlap, SCREAMING_CASE
against PascalCase, meet it trivially.
`EncodingTypeHelpers.CanonicalShadowsShorthand` shows why the assumption is
needed. The canonical table wins, so a canonical entry `"Proto3" := 2` makes
`"Proto3"` parse to 2, while `Shorthand()` of 1 is `"Proto3"`.

Go's `int32` is the newtype `EnumHelpers.int32`. A Go enum conversion such as
`EncodingType(v)` is the identity on the number, and the model writes it as
`v as EncodingType`. The error returned by `FromString` is
`InvalidEnumString(input, enumName)`. It holds the two things the source's
message is built from.

## Model

| member | source | states |
|---|---|---|
| EnumHelpers.FromString | enums/v1/common.go-helpers.go:44-51 | succeeds exactly when `s` is a canonical or a shorthand key; a canonical key gives the canonical value whatever the shorthand table holds; otherwise a shorthand key gives the shorthand value; any other string gives value 0 and an error naming the input and the family |
| EnumHelpers.Shorthand | enums/v1/common.go-helpers.go:58-63 | the flag is true exactly when the value is a key of the shorthand-name table, the name is then that table's entry, and an unregistered value gives `""` |
| EnumHelpers.InversesSameSize | enums/v1/common.go-helpers.go:30-39 | two maps that undo each other on their whole domains have the same number of entries |
| EnumHelpers.RangeSize | enums/v1/common.go-helpers.go:35-39 | a table whose keys are exactly `0 .. n-1` has `n` entries |
| EnumHelpers.ShorthandInjective | enums/v1/common.go-helpers.go:58-63 | with inverse tables, two registered values with the same shorthand name are equal |
| EnumHelpers.ShorthandThenParse | enums/v1/common.go-helpers.go:44-63 | with inverse tables and a compatible canonical table, parsing a registered value's shorthand name gives back that value with no error |
| EnumHelpers.ParseThenShorthand | enums/v1/common.go-helpers.go:44-63 | with inverse tables and a compatible canonical table, a shorthand name parses with no error to a value whose shorthand is that name |
| EnumHelpers.ParsedValueHasShorthand | enums/v1/common.go-helpers.go:44-63 | when every canonical value is registered, every value that `FromString` accepts has a shorthand name |
| EncodingTypeHelpers.EncodingType.Shorthand | enums/v1/common.go-helpers.go:53-63 | `(name, true)` exactly for 0..2, where `name` is the non-empty table entry; `("", false)` for every other `int32` |
| EncodingTypeHelpers.EncodingTypeFromString | enums/v1/common.go-helpers.go:42-51 | succeeds exactly on canonical or shorthand keys; a canonical key gives its canonical value; a shorthand key that is not canonical gives its shorthand value, for any canonical table; under compatibility every shorthand key gives its shorthand value; failure gives 0 and the error for "EncodingType" |
| EncodingTypeHelpers.TablesAreInverse | enums/v1/common.go-helpers.go:29-40 | the two EncodingType shorthand tables are exact inverses of equal size |
| EncodingTypeHelpers.TablesCoverRange | enums/v1/common.go-helpers.go:30-39 | the registered values are exactly 0..2, both tables have 3 entries, and 0 is "Unspecified" |
| EncodingTypeHelpers.ShorthandRoundTrip | enums/v1/common.go-helpers.go:44-63 | under compatibility, `e.Shorthand() == (s, true)` implies `EncodingTypeFromString(s) == (e, no error)` |
| EncodingTypeHelpers.ParseRoundTrip | enums/v1/common.go-helpers.go:44-63 | under compatibility, a shorthand name parses with no error to a value whose `Shorthand()` is that name |
| EncodingTypeHelpers.CanonicalShadowsShorthand | enums/v1/common.go-helpers.go:45-48 | a canonical entry for "Proto3" overrides the shorthand table, so the round trip fails without the compatibility assumption |
| EncodingTypeHelpers.Examples | enums/v1/common.go-helpers.go:50-62 | examples: "Proto3" parses to 1, "bogus" gives 0 and an error, 1 prints as "Proto3", -1 (the doc comment's case) and 999 print as `("", false)` |
| IndexedValueTypeHelpers.IndexedValueType.Shorthand | enums/v1/common.go-helpers.go:99-109 | `(name, true)` exactly for 0..7, where `name` is the non-empty table entry; `("", false)` for every other `int32` |
| IndexedValueTypeHelpers.IndexedValueTypeFromString | enums/v1/common.go-helpers.go:88-97 | succeeds exactly on canonical or shorthand keys; a canonical key gives its canonical value; a shorthand key that is not canonical gives its shorthand value, for any canonical table; under compatibility every shorthand key gives its shorthand value; failure gives 0 and the error for "IndexedValueType" |
| IndexedValueTypeHelpers.TablesAreInverse | enums/v1/common.go-helpers.go:65-86 | the two IndexedValueType shorthand tables are exact inverses of equal size |
| IndexedValueTypeHelpers.TablesCoverRange | enums/v1/common.go-helpers.go:66-85 | the registered values are exactly 0..7, both tables have 8 entries, and 0 is "Unspecified" |
| IndexedValueTypeHelpers.ShorthandRoundTrip | enums/v1/common.go-helpers.go:90-109 | under compatibility, `e.Shorthand() == (s, true)` implies `IndexedValueTypeFromString(s) == (e, no error)` |
| IndexedValueTypeHelpers.ParseRoundTrip | enums/v1/common.go-helpers.go:90-109 | under compatibility, a shorthand name parses with no error to a value whose `Shorthand()` is that name |
| IndexedValueTypeHelpers.Examples | enums/v1/common.go-helpers.go:96-108 | examples: "Keyword" parses to 2, "bogus" gives 0 and an error, 2 prints as "Keyword", -1 (the doc comment's case) and 8 print as `("", false)` |
| SeverityHelpers.Severity.Shorthand | enums/v1/common.go-helpers.go:137-147 | `(name, true)` exactly for 0..3, where `name` is the non-empty table entry; `("", false)` for every other `int32` |
| SeverityHelpers.SeverityFromString | enums/v1/common.go-helpers.go:126-135 | succeeds exactly on canonical or shorthand keys; a canonical key gives its canonical value; a shorthand key that is not canonical gives its shorthand value, for any canonical table; under compatibility every shorthand key gives its shorthand value; failure gives 0 and the error for "Severity" |
| SeverityHelpers.TablesAreInverse | enums/v1/common.go-helpers.go:111-124 | the two Severity shorthand tables are exact inverses of equal size |
| SeverityHelpers.TablesCoverRange | enums/v1/common.go-helpers.go:112-123 | the registered values are exactly 0..3, both tables have 4 entries, and 0 is "Unspecified" |
| SeverityHelpers.ShorthandRoundTrip | enums/v1/common.go-helpers.go:128-147 | under compatibility, `e.Shorthand() == (s, true)` implies `SeverityFromString(s) == (e, no error)` |
| SeverityHelpers.ParseRoundTrip | enums/v1/common.go-helpers.go:128-147 | under compatibility, a shorthand name parses with no error to a value whose `Shorthand()` is that name |
| SeverityHelpers.Examples | enums/v1/common.go-helpers.go:134-146 | examples: "High" parses to 1, "bogus" gives 0 and an error, 1 prints as "High", -1 (the doc comment's case) and 4 print as `("", false)` |

## Left out

- The generated canonical tables `EncodingType_value`, `IndexedValueType_value` and `Severity_value`, and the generated `_name` tables, are not part of this model. The canonical table is a parameter of each `FromString`, and the round trips assume it is compatible with the shorthand table.
- The error message text produced by `fmt.Errorf` is not modelled. The error keeps the input string and the enum family name it is built from.
- Go maps are mutable, but the source never writes these tables after initialisation. They are modelled as immutable constants, and concurrent reads play no part.
