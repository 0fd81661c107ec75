# gormupdatemap in Dafny

A model of `CreateUpdateMap` from the Go package `gormupdatemap`. The function takes an update-request struct and an
`isAdmin` flag. It builds the column → value map that is handed to GORM's `Updates`.

It makes one left-to-right pass over the struct's fields:

- Nil pointers, non-pointers, unexported fields and fields tagged `json:"-"` are skipped.
- A field's name is the first comma-separated piece of its `json` tag. When the tag is empty, the declared field name is used instead.
- A field with an `admin_only` tag stops the pass with a validation message unless the caller is an admin.
- The name is then rewritten to GORM's column naming. The rewrite splits on `_`, drops each underscore that comes before a digit, and lower-cases the result.
- The pointed-to value is stored under that column when its kind is an integer, an unsigned integer, a float, a string, a bool or a `time.Time`.

Go reflection is replaced by an ordered list of field descriptors (`Fields.FieldDesc`). Each descriptor holds:

- the declared name;
- whether the field is exported;
- what the field's slot holds: a plain value, a nil pointer, or a pointer to a value of some kind;
- the raw `json` and `admin_only` tag strings.

The pass is a pure function with three outcomes (`UpdateMap.Outcome`):

- `Updates`: the finished map.
- `Rejected`: the nil map together with the validation message.
- `Panicked`: the index-out-of-range panic that the rewrite loop hits on a name containing `__` or ending in `_`.

Modules:

- `Strings`: ASCII lower-casing, `strings.Split`/`Join` on one character, and the first piece before a separator.
- `ColumnNaming`: the column rewrite as the loop does it (`CollapseSegments` over `Split`). It also has a character-level reference (`DropDigitUnderscores`) and a mask-based one (`Select` with `Kept`).
- `Fields`: field descriptors, value kinds, value extraction and tag-name resolution.
- `UpdateMap`: the verdict on one field (`FieldVerdict`), the pass (`Run`) and `CreateUpdateMap`. It also has a reference for the finished map: the last field storing each column (`Lookup`).
- `UpdateMapProperties`: properties that relate several fields or calls.
- `Scenarios`: the test suite's cases, proved for every value the pointers may hold.

Two behaviours of the code differ from what a reader of the feature might expect. The package's doc comment (create_update_map.go:13-19) promises neither, and the model follows the code:

- **Admin message name.** One might expect the message to name the field as it will appear after the column rewrite, that is, as its column. In the code, the message is formatted at create_update_map.go:78, before the rewrite at lines 83-102, so it quotes the tag name as written. `Limit_24` is refused as `'Limit_24'`, not `'limit24'` (`Scenarios.RefusalQuotesTagBeforeRewrite`).
- **Keys and fields.** One might expect every key to come from exactly one field. The code assigns into a plain map, so two fields whose names rewrite to the same column both store it, and the later one wins (`UpdateMapProperties.KeysComeFromPointerFields`, `Scenarios.LaterFieldOverwrites`).

## Model

| member | source | states |
|---|---|---|
| Fields.TagName | create_update_map.go:62-72 | The source text is the `json` tag, or the declared field name when the tag is empty. The resolved name is the longest comma-free prefix of that text: a prefix with no comma in it, followed in the text by a comma whenever it is shorter. So a comma-free tag or name resolves to itself. |
| Fields.TagNameFallsBack | create_update_map.go:62-72 | A field with an empty `json` tag resolves to its whole declared name, and a comma-free tag resolves to itself. |
| Fields.ExtractInvertsKindOf | create_update_map.go:104-123 | The six storable kinds (integer, unsigned integer, float, string, bool, `time.Time`) map one-to-one onto stored values with no coercion, every value can be stored, and exactly the other structs and the remaining kinds store nothing. |
| Strings.FirstSegmentIsFirstPiece | create_update_map.go:67-72 | Cutting a string at its first separator gives exactly element `[0]` of `strings.Split`. |
| Strings.FirstSegmentBefore | create_update_map.go:67-72 | For a tag `name,options` with a comma-free `name`, the resolved name is `name`. |
| Strings.FirstSegmentWhole | create_update_map.go:67-72 | A tag without a comma resolves to itself. |
| Strings.SplitPieces | create_update_map.go:68 | No piece of a split holds the separator. The first piece is a prefix of the string and is followed in it by the separator when it is shorter. |
| Strings.JoinSplit | create_update_map.go:83 | Joining the pieces of a split with the separator gives back the original string. |
| Strings.SplitJoin | create_update_map.go:83 | Splitting a join of separator-free pieces gives back the pieces. |
| Strings.SplitAfterPrefix | create_update_map.go:83 | Splitting `a + t` with a separator-free `a` glues `a` onto the first piece of `t`'s split and leaves the other pieces unchanged. |
| ColumnNaming.SegmentsIndexableIff | create_update_map.go:85-89 | The rewrite loop can index the first character of every piece after the first exactly when every `_` in the name is followed by a character other than `_`. So there is no `__` and no trailing `_`. |
| ColumnNaming.CollapseMatchesDrop | create_update_map.go:83-99 | Gluing the pieces back as the loop does (no `_` before a piece starting with a digit, `_` otherwise) equals deleting exactly the underscores followed by a digit from the original name. |
| ColumnNaming.CollapseJoin | create_update_map.go:85-99 | For underscore-free pieces with non-empty tails, the loop's gluing equals the character-level deletion applied to their `_`-join. |
| ColumnNaming.ColumnName | create_update_map.go:81-102 | For a name the loop can process, the column is the name with exactly its digit-preceding underscores removed, then lower-cased. |
| ColumnNaming.DropDeletesExactly | create_update_map.go:86-98 | The rewrite keeps every character except a `_` whose next character is a digit, in order. It is the selection of the original characters by that mask. |
| ColumnNaming.DropAfterPlainPrefix | create_update_map.go:86-98 | A prefix with no underscore passes through the rewrite untouched. |
| ColumnNaming.DropAfterUnderscore | create_update_map.go:88-93 | A `_` is dropped exactly when the character after it is a digit. |
| ColumnNaming.DropKeepsPlainName | create_update_map.go:86-98 | A name with no underscore before a digit is left unchanged by the rewrite. |
| ColumnNaming.DropLeavesPlainName | create_update_map.go:83-99 | The rewrite of a well-formed name is well-formed and has no underscore left before a digit. |
| ColumnNaming.LowerKeepsShape | create_update_map.go:101-102 | Lower-casing changes neither underscores nor digits, and it is idempotent. |
| ColumnNaming.ColumnNameIdempotent | create_update_map.go:81-102 | A column name is itself a name the loop can process, and rewriting it again changes nothing. |
| UpdateMap.FieldVerdict | create_update_map.go:33-102 | A field is skipped exactly when it is not a non-nil exported pointer with a tag other than `-`. It is refused exactly when it is looked at, admin-only, and the caller is not an admin; the refusal names the tag name before the rewrite. It panics exactly when it is not refused and its name has an empty piece after the first. Otherwise it yields the rewritten column and the extracted value. |
| UpdateMap.FirstHalt | create_update_map.go:28-79 | The stopping position is within the fields. Every earlier field lets the pass go on, and the field at that position, if any, stops it. |
| UpdateMap.Lookup | create_update_map.go:104-123 | The reference value for a column exists exactly when some field stores that column. |
| UpdateMap.LookupIsLastStore | create_update_map.go:104-123 | The reference value is the one of a field that stores the column and is followed by no other field storing it. |
| UpdateMap.RunHalts | create_update_map.go:74-79 | A pass that reaches a stopping field ends with that field's admin message or panic, whatever the map held. |
| UpdateMap.RunCompletes | create_update_map.go:104-126 | A pass that no field stops returns the map it started with, overridden column by column by the last field storing that column. |
| UpdateMap.CreateUpdateMap | create_update_map.go:20-127 | The result is a map exactly when no field stops the pass. It is a refusal exactly when the first stopping field is refused, and then it carries that field's message. Each column of a finished map holds the last stored value for it. An admin is never refused. |
| UpdateMapProperties.InertFieldIrrelevantInRun | create_update_map.go:28-46 | A field that neither stops the pass nor stores anything can be inserted anywhere without changing the pass's result. |
| UpdateMapProperties.InertFieldIrrelevant | create_update_map.go:28-46 | Inserting such a field at any position leaves the outcome unchanged. |
| UpdateMapProperties.NilOrPlainFieldIgnored | create_update_map.go:33-46 | A nil pointer, or a non-pointer holding any value, never changes the outcome, whatever its tags say. |
| UpdateMapProperties.HiddenFieldIgnored | create_update_map.go:51-60 | An unexported field, or one tagged exactly `-`, never changes the outcome, even when it is admin-only. |
| UpdateMapProperties.UnstorableKindIgnored | create_update_map.go:104-123 | A pointer to a struct other than `time.Time`, or to any other unstored kind, is dropped silently when it is neither refused nor panicking. |
| UpdateMapProperties.AdminRunSeesUnrestricted | create_update_map.go:74-79 | For an admin the pass gives the same result as a non-admin's pass over the same fields with their `admin_only` tags removed. |
| UpdateMapProperties.AdminSeesUnrestricted | create_update_map.go:74-79 | For an admin, `admin_only` tags make no difference to the outcome. |
| UpdateMapProperties.FirstHaltOfExtension | create_update_map.go:28-79 | Appending fields does not move an existing first stopping field. |
| UpdateMapProperties.StopIgnoresLaterFields | create_update_map.go:76-79 | Once a request is refused or panics, appending fields changes nothing: no later field is examined. |
| UpdateMapProperties.NonAdminRefusal | create_update_map.go:74-79 | Both directions: a non-admin is refused exactly when some looked-at field is admin-only and every earlier field lets the pass go on. The message then names such a field by its tag name before the rewrite. |
| UpdateMapProperties.KeysComeFromPointerFields | create_update_map.go:26-126 | Every key of a finished map is the rewritten name of a non-nil, exported, non-`-` pointer field. That field's extracted value is the one stored, and no later field stores the same key. |
| UpdateMapProperties.StoringFieldAppears | create_update_map.go:13-16 | In a pass nobody stops, every field that reaches the kind switch with a storable kind appears in the map, even when its value is a default such as `false`. |
| UpdateMapProperties.WellFormedNamesNeverPanic | create_update_map.go:85-89 | When no looked-at name has `__` or a trailing `_`, the pass never panics. |
| Scenarios.PlainColumnIsColumnName | create_update_map.go:81-102 | A name of lower-case letters in which every `_` is followed by a letter has no comma, is not `-`, and is its own column name. |
| Scenarios.NoPointersLeaveMap | create_update_map.go:33-46 | A run of fields that are all nil or plain leaves the map as it is. |
| Scenarios.OnlyFirstFieldSet | create_update_map_test.go:36-53 | With only the first field set and every later field nil or plain, the map holds the first field's column alone. |
| Scenarios.ThirdFieldRefused | create_update_map_test.go:56-64 | Two stored fields followed by an admin-only one give a non-admin the message naming the third field, whatever the first two held. |
| Scenarios.FirstThreeFieldsSet | create_update_map_test.go:66-70 | Three settable fields and no later pointer give a map of exactly those three columns. |
| Scenarios.OptionsCutFromTag | create_update_map_test.go:72-79 | A tag `name,options` resolves to `name`, and `name` is its own column. |
| Scenarios.SecondAndFifthSet | create_update_map_test.go:72-79 | With the second and fifth fields set, the map holds the second's column and the fifth's name before the comma. |
| Scenarios.IgnoresNilFields | create_update_map_test.go:25-34 | All-nil pointers, with the plain field holding anything, give an empty map and no error. |
| Scenarios.SetsNonNilFields | create_update_map_test.go:36-53 | A pointer to `false` is stored as `field_one`, and the plain `bool` field never appears, even when it is `true`. |
| Scenarios.RefusesNonAdmin | create_update_map_test.go:55-64 | A non-admin setting `Field3` gets exactly `Only admins can update field 'field_three'.`. |
| Scenarios.AcceptsAdmin | create_update_map_test.go:66-70 | An admin setting the same fields gets `field_one`, `field_two` and `field_three` with their values. |
| Scenarios.UsesFirstTagSegment | create_update_map_test.go:72-79 | `field_five,omitempty` is stored as `field_five`, next to `field_two`. |
| Scenarios.SingleFieldStored | create_update_map.go:62-123 | A single settable field whose resolved name rewrites to `col` gives the map `{col: value}`. |
| Scenarios.LaterFieldWins | create_update_map.go:104-123 | Two settable fields whose names rewrite to the same column give a map holding only the later one's value. |
| Scenarios.SingleFieldRefused | create_update_map.go:74-79 | A single admin-only field sent by a non-admin is refused, with its tag name quoted as written. |
| Scenarios.SingleFieldPanics | create_update_map.go:85-89 | A single field whose name has an empty piece after the first makes the pass panic. |
| Scenarios.DigitSuffixShape | create_update_map.go:83-89 | A letters-only prefix, `_` and a run of digits has no comma and no bare underscore. |
| Scenarios.DigitSuffixDrop | create_update_map.go:86-98 | The rewrite turns `prefix_digits` into `prefixdigits`. |
| Scenarios.LowerLimit24Column | create_update_map_test.go:84-90 | `limit_24` is a well-formed name whose column is `limit24`. |
| Scenarios.UpperLimit24Column | create_update_map.go:81-102 | `Limit_24` is a well-formed name whose column is `limit24`. |
| Scenarios.Limit24IsColumn | create_update_map.go:81-102 | `limit24` is its own column. |
| Scenarios.CountColumn | create_update_map.go:62-65 | `Count` is a well-formed name whose column is `count`. |
| Scenarios.RemovesUnderscoreBeforeDigits | create_update_map_test.go:82-91 | A `*float64` tagged `limit_24` is stored under `limit24`, with no error. |
| Scenarios.LowersTheColumn | create_update_map.go:101-102 | The tag `Limit_24` is stored under `limit24`. |
| Scenarios.FallsBackToFieldName | create_update_map.go:62-65 | A field `Count` with no `json` tag is stored under `count`. |
| Scenarios.LaterFieldOverwrites | create_update_map.go:104-110 | Fields tagged `limit_24` and then `limit24` both store `limit24`, and the second value is kept. |
| Scenarios.RefusalQuotesTagBeforeRewrite | create_update_map.go:74-79 | An admin-only field tagged `Limit_24` is refused as `'Limit_24'`, not as its column `limit24`. |
| Scenarios.PanicsOnEmptyPiece | create_update_map.go:83-89 | The tags `a__b` and `a_` make the pass panic. An admin-only `a_` panics for an admin, but a non-admin is refused first. |

## Left out

- Go reflection (`reflect.TypeOf`/`ValueOf`, `Tag.Get`, `PkgPath`, `NumField`) is replaced by the descriptor list. A struct argument that is not a struct, or is a pointer to a struct, makes `NumField` panic in Go; that panic is not modelled.
- The logrus debug logging at create_update_map.go:36, 44, 53 and 120 has no effect on the result and is left out.
- Float values are carried as opaque 64-bit patterns. `float32` fields are widened to `float64` by `Float()`, and that widening is not modelled.
- Integers of every width are held already widened to `int64`/`uint64`, as `Int()` and `Uint()` return them. Narrower Go types are not distinguished. `uintptr` and complex numbers are not among the kinds listed at create_update_map.go:105-114, so they are `Other` kinds and are skipped.
- `time.Time` is an opaque payload. The type-name comparison and the type assertion at create_update_map.go:116-121 are folded into one `TimeStruct` kind. The type name at line 116 prints the package's name, not its import path. So a struct named `Time` in some other package called `time` also prints `time.Time`. It then fails the type assertion at line 117 and is skipped at lines 119-120. The model treats such a value as an `OtherStruct`, which is likewise skipped, so the outcome is the same.
- `ColumnNaming.ColumnName`: `strings.ToLower` is modelled for ASCII letters only. Non-ASCII letters are left as they are, whereas Go lower-cases them by Unicode rules.
- `unicode.IsDigit` is modelled as `'0'..'9'`. This is exact for the single byte the loop tests, because no other Latin-1 character is a decimal digit.
- Strings are sequences of characters, not UTF-8 bytes. The loop's `[0]` reads a byte, which differs from a character only for a piece that starts with a non-ASCII character, and such a piece never starts with a digit either way.
- The `*string` error and the nil map are folded into the `Rejected` outcome. The runtime panic is the `Panicked` outcome.
- common.go (`strPtr`, `boolPtr`, `float64Ptr`) is pointer plumbing and is not part of this model.
- The Ginkgo/Gomega test harness is not modelled. Its cases appear as the `Scenarios` lemmas, generalised to every value the pointers may hold.
- GORM itself, and what `Updates` does with the map, are not part of this model.
