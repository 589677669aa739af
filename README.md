# ar_row decode engine, modelled in Dafny

`ar_row` turns Apache Arrow record batches into one Rust value per row. This
project models its decode engine:

- the **schema checker**: `check_datatype` for the scalar types,
  `FixedSizeBinary<N>`, `Timestamp`, `Vec<T>` and `Option<T>`, plus the
  struct checker and the dotted column listing that `#[derive(ArRowDeserialize)]`
  generates;
- the **column decoders** (`read_from_array` / `read_options_from_array`). Each
  writes into a pre-sized destination and returns a count. They cover:
  - scalars and timestamps, with truncating quotient and remainder;
  - dictionary lookups;
  - list reconstruction from offsets;
  - the generated record decoder, which prefills the destination and then
    decodes field by field through `MultiMap` projections;
- the **iterator helpers** `NotNullArrayIter` and `NullableValuesIterator`;
- **`RowIterator`**, the batch-by-batch row iterator with its reused buffer;
- the **dynamic JSON flattener** `columntree_to_json_rows`.

## How the model is laid out

| module (file) | what it holds |
|---|---|
| `Wrappers` (wrappers.dfy) | `Option` and `Result` |
| `Arrow` (arrow.dfy) | An Arrow column as an abstract value: a `DataType` tag, an optional validity bitmap (`true` = valid) and a payload. The payload is a value sequence, offsets plus a child column, keys plus a values column, or named children. |
| `Rows` (rows.dfy) | The Rust target types (`RustType`) and decoded values (`Value`), `Default`, typing, `DeserializationError`, and the `Decoded(outcome, slots)` pair that every decoder produces |
| `Timestamps` (timestamps.dfy) | Rust's truncating `/` and `%`, unit timestamps, `timestamp_from_decimal128` |
| `Scalars` (scalars.dfy) | The per-row conversion of each scalar type, the downcast each one performs, and the plain and `Option` scalar decoders |
| `Dictionaries` (dictionaries.dfy) | Key lookup and the two dictionary decoders |
| `Lists` (lists.dfy) | `build_list_item`, and list splitting from offsets as a loop over a destination array |
| `Records` (records.dfy) | The generated prefill loops and the field projections that records use |
| `Targets` (targets.dfy) | The destination buffer (`array<Value>`), the zip-and-write loop, and `MultiMap` as a lens with a copy-in / write-back pair |
| `Engine` (engine.dfy) | `from_array` and `read_from_array` for every target type: a recursive specification function `Decode`, and recursive methods over a destination array proved equal to it |
| `Schema` (schema.dfy) | `check_datatype` and the generated struct checker, the message layout, `columns_with_prefix` |
| `DecodeProperties` (decode_properties.dfy) | Properties of `Decode`: field-by-field record decoding, dispatch, nulls, dictionaries, and the dictionary tests |
| `ArrayIterators` (array_iterators.dfy) | The two iterator classes |
| `RowIterators` (row_iterator.dfy) | The `RowIterator` class and its step functions |
| `ToJson` (to_json.dfy) | `columntree_to_json_rows`, as a function plus the source's loops as methods |

Each loop of the source is a Dafny method whose postcondition ties its result
and its new state to a specification function. The lemmas then state the
source's promises about that function. For example:

- `Engine.ReadFromArray` mutates a destination `array<Value>` and ensures
  `Decoded(r, dst[..]) == Decode(t, src, old(dst[..]))`;
- `DecodeProperties` states what `Decode` does.

`MultiMap` is modelled as a copy of the projected field column into a fresh
array (`Targets.ProjectInto`), followed by a write-back of that column into the
records (`Targets.EmbedFrom`). This is exact because a decoder's effect on its
destination depends only on the slot values it sees.
`Targets.ProjectEmbed` and `Targets.EmbedProject` are the two lens laws.

The validity bitmap's polarity is kept as each function uses it:

- Arrow's bitmap has `true` = valid, and that is what the `Arrow.Array` model stores;
- `NullableValuesIterator` reads `true` as absent;
- the dictionary decoder reads `true` as present;
- the generated prefill resets on `b` in the plain version and on `!b` in the
  `Option` version.

## Model

| member | source | states |
|---|---|---|
| Schema.CheckDatatypeEquals | ar_row/src/deserialize.rs:73-92 | The check succeeds exactly when the column's type is one of the expected types |
| Schema.CheckScalarIff | ar_row/src/deserialize.rs:213-232 | A scalar check succeeds iff the column type is in that Rust type's allowed list; otherwise the error is "<T> must be decoded from Arrow <A/B>, not Arrow <D>", with `<D>` the `{:?}` text that `Schema.DebugName` gives |
| Schema.ListedDispatch | ar_row/src/deserialize.rs:213-232 | The check of a listed scalar is `check_datatype_equals` against that type's allowed Arrow types, under its Rust name |
| Schema.CheckFixedSizeBinaryIff | ar_row/src/deserialize.rs:393-409 | `FixedSizeBinary<N>` is accepted iff the column is FixedSizeBinary of size exactly N (and N fits an i32) |
| Schema.CheckTimestampIff | ar_row/src/deserialize.rs:515-530 | `Timestamp` is accepted iff the column is a timezone-less Timestamp of any of the four units, or Decimal128(38, 9) |
| Schema.CheckVecIff | ar_row/src/deserialize.rs:790-797 | `Vec<T>` is accepted iff the column is a List whose item type `T` accepts |
| Schema.CheckerAcceptExamples | ar_row/src/deserialize.rs:1127-1137 | All six accepting cases of the unit test: i64 from Int64, Timestamp from Timestamp(Nanosecond, None), String from Utf8 and LargeUtf8, `Box<[u8]>` from Binary and LargeBinary |
| Schema.CheckerRejectI64Example | ar_row/src/deserialize.rs:1141-1144 | i64 from Utf8 is refused with "i64 must be decoded from Arrow Int64, not Arrow Utf8" |
| Schema.CheckerRejectStringExample | ar_row/src/deserialize.rs:1153-1156 | String from Binary is refused with "String must be decoded from Arrow Utf8/LargeUtf8, not Arrow Binary" |
| Schema.CheckDatatype | ar_row/src/deserialize.rs:103 | The checker of every target type. An accepted struct target has a Struct column and an accepted `Vec` target a List column, and every rejection carries a message; the per-type lemmas (`CheckScalarIff`, `CheckFixedSizeBinaryIff`, `CheckTimestampIff`, `CheckVecIff`, `StructCheckIff`) state exactly what it accepts |
| Schema.CheckNaiveDecimal | ar_row/src/deserialize.rs:491-500 | `NaiveDecimal128` accepts exactly the Decimal128 columns, of any precision and scale |
| Schema.CheckFixedSizeBinary | ar_row/src/deserialize.rs:393-409 | Accepts only a FixedSizeBinary column of size N and gives a message otherwise; the whole condition is `CheckFixedSizeBinaryIff` |
| Schema.FieldErrorNoneIff | ar_row_derive/src/lib.rs:227-245 | A field records no error iff it exists physically, its name matches, and its type is accepted; a name mismatch skips the type check |
| Schema.FieldError | ar_row_derive/src/lib.rs:227-245 | The error recorded for one declared field: a field with no physical column always has one, and it is never an empty message; when there is none is `FieldErrorNoneIff` |
| Schema.FieldErrors | ar_row_derive/src/lib.rs:224-246 | Specification function: the errors of the declared fields from k on, in declaration order. `FieldErrorsEmptyIff` and `FieldErrorsCollected` state its properties |
| Schema.FieldErrorsEmptyIff | ar_row_derive/src/lib.rs:224-246 | The collected error list is empty iff every declared field from position k on is accepted |
| Schema.FieldErrorsCollected | ar_row_derive/src/lib.rs:224-246 | Every field's error appears in the collected list, every listed error comes from some field, and there is at most one error per field |
| Schema.StructCheckIff | ar_row_derive/src/lib.rs:218-263 | The struct check succeeds iff the column is a Struct with at least as many fields and every declared field is accepted by position; extra physical fields are never reported |
| Schema.StructRejectsNonStruct | ar_row_derive/src/lib.rs:256-260 | A non-struct column is refused with "<T> must be decoded from DataType::Struct, not <D>" |
| Schema.CheckStruct | ar_row_derive/src/lib.rs:218-263 | The generated loop that pushes one error per failing field returns exactly the result of the recursive checker |
| Schema.IndentAppend | ar_row_derive/src/lib.rs:249-252 | Putting a tab after every newline distributes over concatenation |
| Schema.IndentWithoutNewline | ar_row_derive/src/lib.rs:249-252 | A message without a newline is left unchanged by that replacement |
| Schema.TwoErrorLayout | ar_row_derive/src/lib.rs:246-254 | Two single-line errors give "<T> cannot be decoded:\n\t<e1>\n\t<e2>" |
| Schema.SwappedFieldErrors | ar_row_derive/tests/datatypes.rs:35-45 | Swapping two fields yields two name errors, "Field #1 must be called string1, not bytes1" then "Field #2 must be called bytes1, not string1" |
| Schema.SwappedFieldsExample | ar_row_derive/tests/datatypes.rs:35-45 | The whole message of the swapped-fields test |
| Schema.StructColumns | ar_row_derive/src/lib.rs:266-287 | The generated loop that extends the column list field by field returns exactly `ColumnsWithPrefix` |
| Schema.ColumnsWithPrefix | ar_row/src/deserialize.rs:136 | Specification function: `columns_with_prefix` of every target type. `SingleColumn`, `ColumnsUnderPrefix`, `FlatStructColumns` and the codegen examples state its properties, and `StructColumns` proves the generated loop equal to it |
| Schema.SingleColumn | ar_row/src/deserialize.rs:218-222 | A type without nested structure contributes exactly the prefix itself |
| Schema.ColumnsUnderPrefix | ar_row_derive/src/lib.rs:274-284 | Every column listed under a non-empty prefix is the prefix itself or starts with "prefix." |
| Schema.FieldColumnsUnderPrefix | ar_row_derive/src/lib.rs:274-284 | Every column listed for the fields of a struct under a non-empty prefix starts with "prefix." |
| Schema.FlatStructColumns | ar_row_derive/src/lib.rs:274-284 | A struct of flat fields lists "prefix.name" (or just "name" for an empty prefix) for each field, in declaration order |
| Schema.FlatFieldColumns | ar_row_derive/src/lib.rs:274-284 | The same, from field k onward |
| Schema.CodegenInnerColumns | ar_row_derive/tests/test_codegen.rs:54-58 | The nested test's inner struct lists "prefix.ghi" and "prefix.jkl" |
| Schema.CodegenColumnsExample | ar_row_derive/tests/test_codegen.rs:77-80 | The nested test's columns are abc, def.ghi, def.jkl, def2.ghi, def2.jkl: `Vec` fields are listed through |
| Timestamps.QuotBounds | ar_row/src/deserialize.rs:540-545 | Rust's truncating quotient leaves a remainder of the dividend's sign, of size less than the divisor |
| Timestamps.Rem | ar_row/src/deserialize.rs:540-545 | Rust's `%`: quotient times divisor plus remainder is the dividend, and the remainder has the dividend's sign |
| Timestamps.Ratio | ar_row/src/deserialize.rs:563-566 | Every unit's ratio is positive and divides 10^9 |
| Timestamps.FromUnit | ar_row/src/deserialize.rs:532-566 | A unit count split into seconds and nanoseconds; a Second count has no nanoseconds. `FromUnitExact` states that the instant is kept exactly |
| Timestamps.FromDecimal128 | ar_row/src/deserialize.rs:663-672 | A decimal nanosecond count split at 10^9: nanoseconds within one second on success, `TimestampOverflow` with seconds outside the i64 range on failure. `FromDecimal128Exact` states the iff |
| Timestamps.FromUnitExact | ar_row/src/deserialize.rs:540-566 | A unit timestamp denotes exactly the same instant in nanoseconds, with nanoseconds inside (-10^9, 10^9) and of the seconds' sign; the Second unit gives 0 nanoseconds |
| Timestamps.FromDecimal128Exact | ar_row/src/deserialize.rs:663-672 | A Decimal128 nanosecond count converts iff its seconds fit an i64, to the same instant; otherwise it fails with `TimestampOverflow{seconds}` |
| Timestamps.NegativeDecimalExample | ar_row/src/deserialize.rs:663-672 | -2198229903900000000 gives seconds -2198229903 and nanoseconds -900000000 |
| Timestamps.NegativeMillisecondExample | ar_row/src/deserialize.rs:540-545 | -1500 ms gives seconds -1 and nanoseconds -500000000 (truncation, not flooring) |
| Timestamps.OverflowExample | ar_row/src/deserialize.rs:663-672 | One second past i64::MAX overflows |
| Scalars.Convert | ar_row/src/deserialize.rs:244-257 | The per-row conversion fails exactly for a FixedSizeBinary value of the wrong length, with `MismatchedBinarySize`; otherwise the value has the target type |
| Scalars.CastsTo | ar_row/src/deserialize.rs:304-385 | Corrected (LargeUtf8 and LargeBinary are downcast, see Findings): the downcast of each scalar decoder only accepts non-dictionary columns for non-timestamp scalar targets. `CheckedScalarsDowncast` proves that it covers every type the checker accepts |
| Scalars.DecodePlain | ar_row/src/deserialize.rs:236-270 | The non-`Option` scalar loop on a downcast column: a bitmap gives `UnexpectedNull` with the destination unchanged, the slot count is kept, it never panics, and success returns src.len; the slots are stated by `PlainScalarContract` |
| Scalars.DecodeOption | ar_row/src/deserialize.rs:272-300 | The `Option` scalar loop keeps the slot count, never panics and returns src.len on success; `OptionScalarContract` states the slots |
| Scalars.DecodeTimestamp | ar_row/src/deserialize.rs:555-599 | The Timestamp loop: a bitmap is an error with the destination unchanged, the slot count is kept, it never panics, and success returns src.len; `DecimalTimestampOverflow` and `TimestampRefusesNulls` state the rest |
| Scalars.DecodeOptionTimestamp | ar_row/src/deserialize.rs:621-662 | The `Option<Timestamp>` loop keeps the slot count, never panics and returns src.len on success |
| Scalars.Cells | ar_row/src/deserialize.rs:244-257 | One converted cell per source row |
| Scalars.OptionCells | ar_row/src/deserialize.rs:280-289 | One cell per source row in the `Option` decoder |
| Scalars.TimestampCells | ar_row/src/deserialize.rs:555-599 | One converted timestamp per source row |
| Scalars.PlainScalarContract | ar_row/src/deserialize.rs:236-270 | With a null buffer the decoder returns `UnexpectedNull` and writes nothing; otherwise it writes converted row i into slot i for i < min(src.len, dst.len), leaves later slots unchanged, and returns src.len |
| Scalars.OptionScalarContract | ar_row/src/deserialize.rs:272-300 | The `Option` decoder returns src.len and writes `None` exactly at null rows and `Some(converted row)` elsewhere |
| Scalars.FixedSizeBinaryMismatch | ar_row/src/deserialize.rs:411-448 | The first row whose byte length differs from N stops the decode with `MismatchedBinarySize` |
| Scalars.DecimalTimestampOverflow | ar_row/src/deserialize.rs:568-587 | The first Decimal128 row whose seconds overflow an i64 stops the decode with `TimestampOverflow{seconds}` |
| Scalars.CheckedScalarsDowncast | ar_row/src/deserialize.rs:304-385 | Every column type the corrected checker accepts for a scalar is one its decoder can downcast |
| Scalars.LargeStringRejectedAsWritten | ar_row/src/deserialize.rs:372-385 | As written, LargeUtf8 and LargeBinary pass the check but cannot be downcast by the String and `Box<[u8]>` decoders |
| Scalars.CheckedTimestampsDecode | ar_row/src/deserialize.rs:515-530 | Every column type the Timestamp check accepts is a Timestamp or Decimal128(38, 9), the two the decoder handles |
| Dictionaries.Lookup | ar_row/src/dictionaries.rs:28-39 | A key succeeds iff it is below the number of decoded values; it yields that value, and otherwise `DictionaryOverflow{key, len, data_type}` |
| Dictionaries.LookupCells | ar_row/src/dictionaries.rs:28-39 | One lookup per key |
| Dictionaries.LookupWrite | ar_row/src/dictionaries.rs:28-39 | The lookup loop keeps the slot count, never panics and returns src.len on success; `LookupContract` and `LookupOverflow` state its slots and error |
| Dictionaries.OptionLookupWrite | ar_row/src/dictionaries.rs:59-80 | The bitmap lookup loop keeps the slot count, never panics and returns src.len on success; `OptionLookupContract` states its slots |
| Dictionaries.OptionLookupCells | ar_row/src/dictionaries.rs:59-80 | One cell per row the bitmap and the keys both cover |
| Dictionaries.LookupContract | ar_row/src/dictionaries.rs:13-41 | With all keys in range, slot i becomes a copy of `decoded[key[i]]` for i < min(src.len, dst.len), later slots are unchanged, and the result is src.len |
| Dictionaries.LookupOverflow | ar_row/src/dictionaries.rs:31-37 | The first out-of-range key stops the decode with `DictionaryOverflow` |
| Dictionaries.OptionLookupContract | ar_row/src/dictionaries.rs:46-84 | With a bitmap, a `false` bit gives `None` and a `true` bit gives `Some(lookup)`; the result is src.len |
| Lists.FirstShort | ar_row/src/deserialize.rs:822-842 | The first row whose elements run past the decoded children: every earlier row fits, and this one does not |
| Lists.FirstShortIs | ar_row/src/deserialize.rs:822-842 | Characterises that first short row by the rows before it |
| Lists.BuildListItem | ar_row/src/deserialize.rs:822-842 | `build_list_item` returns exactly the next `count` elements, or reports "List too short" iff fewer remain |
| Lists.ListSplit | ar_row/src/deserialize.rs:912-952 | The list split: it keeps the slot count, and its only error, `MismatchedLength`, leaves the destination unchanged. `WellFormedSplit`, `TooFewElements`, `TooManyElements` and `LengthCheckedFirst` state the rest, and `SplitLists` proves the loop equal to it |
| Lists.SplitLists | ar_row/src/deserialize.rs:912-952 | The loop over the destination array computes exactly the list split: its outcome and every slot |
| Lists.ConsumedIsOffset | ar_row/src/deserialize.rs:922-942 | With non-decreasing offsets, the elements consumed before row i are `off[i] - off[0]` |
| Lists.OffsetsMonotone | ar_row/src/deserialize.rs:922-942 | Adjacent non-decreasing offsets are non-decreasing everywhere |
| Lists.WellFormedItems | ar_row/src/deserialize.rs:922-942 | With offsets starting at 0, non-decreasing and ending at the element count, every row fits and row i is `elements[off[i]..off[i+1]]` |
| Lists.WellFormedSplit | ar_row/src/deserialize.rs:912-952 | For such offsets the decode returns the row count, slot i holds `elements[off[i]..off[i+1]]`, and later slots are unchanged |
| Lists.TooFewElements | ar_row/src/deserialize.rs:822-842 | Offsets running past the elements panic with "List too short" |
| Lists.TooManyElements | ar_row/src/deserialize.rs:943-945 | Elements left over after the last offset panic with "List too long" |
| Lists.LengthCheckedFirst | ar_row/src/deserialize.rs:922-932 | More rows than destination slots give `MismatchedLength{src, dst}` before any write |
| Lists.AsWrittenRows | ar_row/src/deserialize.rs:845-884 | The nullable list loop as written: it consumes between the starting position and the number of elements, builds at most one row per item (one per item unless a list runs short), and row i is `None` exactly when item i is `None` |
| Lists.AsWrittenOptionList | ar_row/src/deserialize.rs:845-884 | `read_list_of_options_from_array` as written keeps the slot count, and its only error, `MismatchedLength`, leaves the destination unchanged; `NullableListExample` and `AsWrittenWithoutBitmap` state what it decodes |
| Lists.AsWrittenWithoutBitmap | ar_row/src/deserialize.rs:845-884 | Without a bitmap the function as written decodes exactly what the corrected split decodes, so the discrepancy in Findings needs a bitmap |
| Lists.AsWrittenRowsPresent | ar_row/src/deserialize.rs:845-884 | Over the stream of a column without a bitmap, the loop as written from list j on takes the lists the split takes, stops at the same short list and consumes the same elements |
| Lists.NullableListExample | ar_row/src/deserialize.rs:845-884 | As written, offsets [0,2,2,5] with validity [valid, null, valid] panic "List too long" |
| Lists.NullableListSplitExample | ar_row/src/deserialize.rs:845-884 | The corrected split of offsets [0,2,2,5] with validity [valid, null, valid] gives `[Some([1,2]), None, Some([3,4,5])]` |
| Records.Prefill | ar_row_derive/src/lib.rs:330-343 | The prefill keeps the number of slots |
| Records.PrefillSlots | ar_row_derive/src/lib.rs:330-343 | The prefill loop over the destination computes exactly `Prefill` |
| Records.MaskNulls | ar_row_derive/src/lib.rs:359-395 | Masking keeps the number of slots |
| Records.MaskNullSlots | ar_row_derive/src/lib.rs:359-395 | The loop that sets null rows to `None` computes exactly `MaskNulls` |
| Records.RecordPrefill | ar_row_derive/src/lib.rs:330-343 | With no bitmap every slot becomes `Default`; with one, exactly the slots whose bit is set are reset and the others are unchanged; every slot is a record |
| Records.OptionPrefill | ar_row_derive/src/lib.rs:368-381 | The corrected `Option` prefill makes every slot `Some(record)`, so every field projection is defined |
| Records.OptionPrefillAsWritten | ar_row_derive/src/lib.rs:374-379 | As written, the `Option` prefill resets only the null rows and leaves the valid rows as they were |
| Records.OptionPrefillUnsoundExample | ar_row_derive/src/lib.rs:374-388 | A valid row over a `None` slot stays `None` after the prefill as written, so the field projection's `unwrap_unchecked` has no record to reach; the corrected prefill has one |
| Records.ProjectTyped | ar_row/src/deserialize.rs:1022-1044 | Projecting field k of a column of records is defined and yields values of the field's type |
| Records.EmbedTyped | ar_row/src/deserialize.rs:1022-1044 | Writing a typed field column back keeps every slot a record |
| Records.FieldColumnAfterEmbed | ar_row/src/deserialize.rs:1022-1044 | Writing field k changes field k's column to the written one and leaves every other field's column as it was |
| Targets.FirstFailure | ar_row/src/deserialize.rs:253-257 | The first failing cell: every earlier one succeeds, and this one fails |
| Targets.ZipWrite | ar_row/src/deserialize.rs:253-257 | The zip-write keeps the slot count, never panics, returns the count on success and leaves the slots past min(cells, dst) unchanged; `ZipWriteSucceeds` and `ZipWriteFails` state the rest |
| Targets.WriteCells | ar_row/src/deserialize.rs:253-257 | The loop zipping cells with `dst.iter_mut()` computes exactly the zip-write: the outcome and every slot |
| Targets.ZipWriteSucceeds | ar_row/src/deserialize.rs:253-257 | With no failing cell, slot i becomes cell i for i < min(cells, dst), later slots are unchanged, and the count is returned |
| Targets.ZipWriteFails | ar_row/src/deserialize.rs:253-257 | The first failing cell's error is returned, the slots before it are written, and it and the later slots are unchanged |
| Targets.Put | ar_row/src/deserialize.rs:1028-1044 | Writing through a projection keeps the slot projectable |
| Targets.Project | ar_row/src/deserialize.rs:1028-1044 | A projection has its base's length, and its slot i is the field of the base's slot i |
| Targets.Embed | ar_row/src/deserialize.rs:1028-1044 | Writing back has the base's length, and slot i is the base's slot i with its field replaced |
| Targets.GetPut | ar_row/src/deserialize.rs:1028-1044 | Reading a field just written gives the written value |
| Targets.PutGet | ar_row/src/deserialize.rs:1028-1044 | Writing back a field's own value changes nothing |
| Targets.PutOtherField | ar_row/src/deserialize.rs:1028-1044 | Writing field k leaves every other field unchanged |
| Targets.ProjectEmbed | ar_row/src/deserialize.rs:1028-1044 | Projecting after writing back a column gives that column |
| Targets.EmbedProject | ar_row/src/deserialize.rs:1028-1044 | Writing back a projection unchanged leaves the base unchanged |
| Targets.ProjectInto | ar_row/src/deserialize.rs:1022-1044 | Copies the projected field column into a fresh array |
| Targets.EmbedFrom | ar_row/src/deserialize.rs:1022-1044 | Writes a field column back into the destination's records |
| Engine.FromArray | ar_row/src/deserialize.rs:194-200 | `from_array` decodes into `len` default values and returns `len` typed slots |
| Engine.Decode | ar_row/src/deserialize.rs:146-165 | Every decode keeps the destination's length and leaves well-typed values in it |
| Engine.Prelude | ar_row_derive/src/lib.rs:301-318 | The generated prelude lets the decode go on iff the column is a struct column with one column per field and no more rows than slots; otherwise it stops with an error or the `assert_eq!` panic |
| Engine.DecodeScalar | ar_row/src/deserialize.rs:236-270 | Corrected (LargeUtf8 and LargeBinary are downcast, see Findings): the non-`Option` scalar dispatch, downcast, dictionary, or `MismatchedColumnDataType`; it keeps length and typing |
| Engine.DecodeOptionScalar | ar_row/src/deserialize.rs:272-300 | Corrected (LargeUtf8 and LargeBinary are downcast, see Findings): the `Option` scalar dispatch keeps length and typing |
| Engine.DecodeDictionary | ar_row/src/dictionaries.rs:13-41 | The dictionary decode keeps length and typing |
| Engine.DecodeOptionDictionary | ar_row/src/dictionaries.rs:46-84 | The `Option` dictionary decode keeps length and typing |
| Engine.DecodeVec | ar_row/src/deserialize.rs:912-952 | The list decode keeps length and typing |
| Engine.DecodeOptionVec | ar_row/src/deserialize.rs:845-884 | The corrected `Option` list decode keeps length and typing |
| Engine.DecodeRecord | ar_row_derive/src/lib.rs:321-357 | Corrected (a structure bitmap is refused, see Findings): keeps length and typing, and a column with a null buffer never decodes and leaves the destination unchanged |
| Engine.DecodeRecordAsWritten | ar_row_derive/src/lib.rs:321-357 | The generated record decode as written: it keeps length and typing, and agrees with the corrected decode on every column without a null buffer |
| Engine.DecodeOptionRecord | ar_row_derive/src/lib.rs:359-395 | The corrected `Option` record decode keeps length and typing |
| Engine.DecodeFields | ar_row_derive/src/lib.rs:345-352 | Decoding the fields from k on keeps every slot a record |
| Engine.FieldDecode | ar_row_derive/src/lib.rs:345-352 | Decoding one field column keeps length and the field's type |
| Engine.ReadNew | ar_row/src/deserialize.rs:194-200 | Allocating `len` defaults and decoding into them computes exactly `FromArray` |
| Engine.ReadFromArray | ar_row/src/deserialize.rs:1060-1071 | The recursive decoder over a destination array computes exactly `Decode`, for every target type |
| Engine.ReadScalar | ar_row/src/deserialize.rs:236-300 | Corrected (LargeUtf8 and LargeBinary are downcast, see Findings): the scalar decoders over a destination array compute exactly the scalar specification |
| Engine.ReadDictionary | ar_row/src/dictionaries.rs:13-41 | The dictionary decoder over a destination array computes exactly its specification |
| Engine.ReadOptionDictionary | ar_row/src/dictionaries.rs:46-84 | The `Option` dictionary decoder over a destination array computes exactly its specification |
| Engine.ReadVec | ar_row/src/deserialize.rs:955-973 | The list decoders over a destination array compute exactly their specification |
| Engine.ReadRecord | ar_row_derive/src/lib.rs:321-357 | Corrected (see Findings): the generated record decoder with the null check computes exactly `DecodeRecord` |
| Engine.ReadOptionRecord | ar_row_derive/src/lib.rs:359-395 | The corrected `Option` record decoder computes exactly its specification |
| Engine.ReadFields | ar_row_derive/src/lib.rs:345-352 | The loop over the fields, each through its projection, computes exactly `DecodeFields` |
| DecodeProperties.FieldsDecodeIndependently | ar_row_derive/src/lib.rs:345-352 | When every field decodes, field j's column in the result is exactly that field decoded on its own, and earlier columns are untouched |
| DecodeProperties.FieldsSucceed | ar_row_derive/src/lib.rs:345-352 | When every field from k on decodes without error, the loop over them returns `Ok` |
| DecodeProperties.FieldKept | ar_row_derive/src/lib.rs:345-352 | The statements for fields k and later leave the column of an earlier field j unchanged, whether or not one of them fails |
| DecodeProperties.FieldWritten | ar_row_derive/src/lib.rs:345-352 | When the fields before j decode without error, field j's column afterwards is what field j's decoder wrote into its projection, whatever the later fields do |
| DecodeProperties.FirstFieldErrorReturned | ar_row_derive/src/lib.rs:345-352 | The first failing field's outcome is the record's outcome (`?`) |
| DecodeProperties.DefaultFieldColumns | ar_row_derive/src/lib.rs:330-336 | Field j's column of `n` default records is `n` defaults of field j's type |
| DecodeProperties.RecordDecodesFieldByField | ar_row_derive/src/lib.rs:321-357 | A record column without nulls decodes to src.len, and field j's column is exactly field j's child column decoded into defaults |
| DecodeProperties.RecordReportsFirstFieldError | ar_row_derive/src/lib.rs:345-352 | A record column returns the error of its first failing field |
| DecodeProperties.OptionRecordNulls | ar_row_derive/src/lib.rs:359-395 | After a successful corrected `Option` record decode, a slot is `None` iff its row is null |
| DecodeProperties.ScalarDispatch | ar_row/src/deserialize.rs:244-257 | Corrected (LargeUtf8 and LargeBinary are downcast, see Findings): a scalar column that downcasts is decoded by the plain scalar loop |
| DecodeProperties.OptionScalarDispatch | ar_row/src/deserialize.rs:1060-1071 | Corrected (LargeUtf8 and LargeBinary are downcast, see Findings): `Option<T>` with T scalar is decoded by the `Option` scalar loop |
| DecodeProperties.DictionaryDispatch | ar_row/src/deserialize.rs:260-261 | A dictionary column for a scalar is decoded by the dictionary path |
| DecodeProperties.OptionDictionaryDispatch | ar_row/src/deserialize.rs:290-291 | A dictionary column for an `Option` scalar is decoded by the `Option` dictionary path |
| DecodeProperties.OptionDictionaryWithNulls | ar_row/src/dictionaries.rs:55-80 | With a bitmap, the `Option` dictionary decode looks up the decoded values under the bitmap |
| DecodeProperties.ScalarRefusesNulls | ar_row/src/deserialize.rs:244-250 | A scalar column with a null buffer gives `UnexpectedNull` and the destination is unchanged |
| DecodeProperties.TimestampRefusesNulls | ar_row/src/deserialize.rs:563-566 | A timestamp column with a null buffer gives `UnexpectedNull` and the destination is unchanged |
| DecodeProperties.DictionaryRefusesNulls | ar_row/src/dictionaries.rs:21-26 | A dictionary column with a null buffer gives `UnexpectedNull` before its values are decoded |
| DecodeProperties.ListRefusesNulls | ar_row/src/deserialize.rs:912-952 | A list column with a null buffer gives `UnexpectedNull` and the destination is unchanged |
| DecodeProperties.RecordRefusesNulls | ar_row_derive/src/lib.rs:26-27 | Corrected: a structure column with a null buffer that passes the prelude gives `UnexpectedNull`, destination unchanged, as the crate documents for targets without `Option` |
| DecodeProperties.OptionScalarNulls | ar_row/src/deserialize.rs:280-289 | The `Option` scalar decode returns src.len and sets slot i to `None` iff source row i is null |
| DecodeProperties.DictionaryTransparent | ar_row/src/dictionaries.rs:13-41 | Decoding a dictionary column gives the same result as decoding the plain column it encodes |
| DecodeProperties.AbcDecodes | ar_row/tests/dict.rs:14-35 | The values column `["a","b","c"]` decodes to those strings |
| DecodeProperties.DictionaryExample | ar_row/tests/dict.rs:14-35 | The dictionary column with keys [0,0,1,2,0] decodes to a, a, b, c, a |
| DecodeProperties.DictionarySlots | ar_row/tests/dict.rs:14-35 | The lookup loop maps keys [0,0,1,2,0] over [a,b,c] to a, a, b, c, a with count 5 |
| DecodeProperties.NullableDictionaryLookup | ar_row/tests/dict.rs:38-63 | The nullable dictionary column decodes to `Option` through the bitmap lookup |
| DecodeProperties.NullableDictionarySlots | ar_row/tests/dict.rs:38-63 | That lookup gives Some(a), None, Some(b), Some(c), Some(a) |
| DecodeProperties.NullableDictionaryExample | ar_row/tests/dict.rs:38-63 | The nullable dictionary column decodes to Some(a), None, Some(b), Some(c), Some(a) |
| DecodeProperties.NullableDictionaryRefused | ar_row/tests/dict.rs:38-63 | The same column refuses a non-`Option` target with `UnexpectedNull` |
| DecodeProperties.NullStructRowAsWritten | ar_row_derive/src/lib.rs:330-343 | As written, a one-row structure column `{a: i64}` whose only row is null decodes `Ok(1)` into a record holding the child's 7 |
| DecodeProperties.NullStructRowRefused | ar_row_derive/src/lib.rs:26-27 | The corrected decode refuses the same column with `UnexpectedNull`, leaving the default record |
| ArrayIterators.NotNullArrayIter.constructor | ar_row/src/array_iterators.rs:16-24 | A new iterator starts at index 0 over the array's values |
| ArrayIterators.NotNullArrayIter.New | ar_row/src/array_iterators.rs:16-24 | No iterator iff the array has a null buffer, whatever its bits |
| ArrayIterators.NotNullArrayIter.Next | ar_row/src/array_iterators.rs:30-40 | `value(index)` and advance while index < len; then `None` with the index unchanged |
| ArrayIterators.CollectNotNull | ar_row/src/array_iterators.rs:16-40 | Draining a fresh iterator yields the values in order (and `None` afterwards), or nothing when the array has a bitmap |
| ArrayIterators.NullableValuesIterator.constructor | ar_row/src/array_iterators.rs:45-53 | The iterator starts over the values and the bitmap |
| ArrayIterators.NullableValuesIterator.Next | ar_row/src/array_iterators.rs:58-70 | One step of the iterator is exactly `Advance` |
| ArrayIterators.Advance | ar_row/src/array_iterators.rs:58-70 | A step either yields the next value (consuming it), yields `None` on a `true` bit (consuming no value), panics on a `false` bit with no value left, or ends when nothing remains |
| ArrayIterators.NullableItems | ar_row/src/array_iterators.rs:58-70 | All the items of a fresh `NullableValuesIterator`: never more than `len()` says. `ItemsStep`, `NoBitmapYieldsValues`, `BitmapPanicIff`, `BitmapItems` and `LenIsItemCount` state the rest, and `CollectNullable` proves the loop equal to it |
| ArrayIterators.Remaining | ar_row/src/array_iterators.rs:73-80 | Specification function: `ExactSizeIterator::len`, the bitmap's length or else the values' length. `LenIsItemCount` proves it equals the number of items when the iterator does not panic |
| ArrayIterators.ItemsStep | ar_row/src/array_iterators.rs:58-70 | The items of the iterator are empty at the end, a panic when a `false` bit finds no value, and otherwise the step's item followed by the items of the rest |
| ArrayIterators.CollectNullable | ar_row/src/array_iterators.rs:58-70 | Draining the iterator step by step gives exactly `NullableItems` |
| ArrayIterators.NoBitmapYieldsValues | ar_row/src/array_iterators.rs:60-63 | Without a bitmap the iterator yields exactly the values, each wrapped in `Some`, and never panics |
| ArrayIterators.BitmapPanicIff | ar_row/src/array_iterators.rs:64-68 | With a bitmap it panics iff it has more `false` bits than values |
| ArrayIterators.BitmapItems | ar_row/src/array_iterators.rs:64-68 | With a bitmap it yields one item per bit: `None` for a `true` bit, and for a `false` bit the value numbered by the `false` bits before it |
| ArrayIterators.LenIsItemCount | ar_row/src/array_iterators.rs:73-80 | When it does not panic, the number of items is the bitmap's length if there is one, else the values' length |
| RowIterators.Resize | ar_row/src/row_iterator.rs:61 | `Vec::resize`: the new length, the old prefix kept, the new slots filled with the default |
| RowIterators.ResizeTyped | ar_row/src/row_iterator.rs:61 | Resizing with the type's default keeps the buffer well typed |
| RowIterators.ReadBatchStep | ar_row/src/row_iterator.rs:57-67 | `read_batch` always resets the index; on a batch it resizes to num_rows and sets `decoded_items` to the decode count; at exhaustion it reports the end and leaves the buffer and `decoded_items` unchanged |
| RowIterators.LoadBatch | ar_row/src/row_iterator.rs:57-67 | A batch that decodes to `rows` leaves the buffer holding exactly `rows`, index 0, `decoded_items` equal to their count, and one batch fewer in the reader |
| RowIterators.Fetch | ar_row/src/row_iterator.rs:86-89 | Yields `batch[index]` iff it exists (otherwise `None`), and increments the index either way |
| RowIterators.NextStep | ar_row/src/row_iterator.rs:77-90 | One `next` keeps the buffer well typed |
| RowIterators.Open | ar_row/src/row_iterator.rs:46-55 | `new` reads the first batch eagerly and fails iff decoding it fails |
| RowIterators.RowIterator.constructor | ar_row/src/row_iterator.rs:47-52 | A fresh iterator has an empty buffer, index 0 and 0 decoded items |
| RowIterators.RowIterator.ReadBatch | ar_row/src/row_iterator.rs:57-67 | The method updates the fields exactly as `ReadBatchStep` says |
| RowIterators.RowIterator.Next | ar_row/src/row_iterator.rs:77-90 | The method updates the fields and answers exactly as `NextStep` says |
| RowIterators.New | ar_row/src/row_iterator.rs:46-55 | Returns an iterator in the state `Open` describes, or the first batch's decode error |
| RowIterators.NextWithinBatch | ar_row/src/row_iterator.rs:86-89 | Inside a batch, `next` yields `batch[index]` and increments the index |
| RowIterators.NotFused | ar_row/src/row_iterator.rs:77-90 | After `None` at exhaustion, the next call yields the old buffer's row 0 again |
| RowIterators.StallsPastEmptyBatch | ar_row/src/row_iterator.rs:77-90 | Once the index has passed `decoded_items`, every call returns `None` and no batch is pulled |
| RowIterators.EmptyBatchEnds | ar_row/src/row_iterator.rs:77-90 | An empty batch makes `next` return `None` and leaves index 1 above 0 decoded items |
| RowIterators.DrainAfterYield | ar_row/src/row_iterator.rs:77-90 | A yielded row is the first of the rows drained from that point |
| RowIterators.Drain | ar_row/src/row_iterator.rs:77-90 | The rows `next` yields until its first `None`: the iterator afterwards still holds a well-typed buffer and has pulled batches, never returned them. `DrainBatch`, `DrainOneBatch` and `DrainYieldsEveryBatch` state what it yields |
| RowIterators.Flatten | ar_row_derive/tests/test1.rs:36-126 | The rows of the batches, one batch after another; it is empty iff every batch is empty |
| RowIterators.PrependTwice | ar_row/src/row_iterator.rs:77-90 | Prepending rows twice is prepending their concatenation |
| RowIterators.DrainBatch | ar_row/src/row_iterator.rs:86-89 | Draining inside a batch yields the rest of the batch, then what follows |
| RowIterators.PullBatch | ar_row/src/row_iterator.rs:79-89 | At the end of a batch, `next` pulls the next batch, decodes it and yields its first row |
| RowIterators.DrainOneBatch | ar_row/src/row_iterator.rs:77-90 | Draining from a batch boundary yields that batch's rows, then what the rest yields |
| RowIterators.DrainYieldsEveryBatch | ar_row/src/row_iterator.rs:77-90 | When every batch is non-empty and decodes, draining yields the concatenation of the decoded batches |
| RowIterators.SameRowsForAnyBatching | ar_row_derive/tests/test1.rs:36-126 | Two readers whose batches decode to the same concatenated rows yield the same rows, whatever the batch sizes |
| Rows.FieldDefaults | ar_row_derive/src/lib.rs:330-336 | One default per field |
| Rows.Defaults | ar_row/src/deserialize.rs:194-200 | `n` copies of the default |
| Rows.FieldDefaultsAt | ar_row_derive/src/lib.rs:330-336 | Field k of a default record is the default of field k's type |
| Rows.DefaultHasType | ar_row/src/deserialize.rs:194-200 | `Default::default()` has its type |
| Rows.DefaultsTyped | ar_row/src/deserialize.rs:194-200 | A column of defaults is well typed |
| ToJson.MapNullable | src/to_json.rs:13-23 | Keeps the length, maps `None` to `Null` and `Some(v)` to `f(v)` |
| ToJson.BytesJson | src/to_json.rs:42-48 | A binary value renders as an array with one number in 0..255 per byte, in order |
| ToJson.EmptyObjects | src/to_json.rs:68-70 | `n` empty objects |
| ToJson.Insert | src/to_json.rs:72-79 | `Object::insert` adds at most one entry; `InsertFresh` states that a fresh key is appended |
| ToJson.InsertColumn | src/to_json.rs:72-79 | Inserting a column keeps the number of objects |
| ToJson.InsertColumnInPlace | src/to_json.rs:72-79 | The zip over the column's rows and the objects, inserting in place, leaves the objects equal to `InsertColumn` of the old ones |
| ToJson.Rendered | src/to_json.rs:156-162 | One JSON row per list slot |
| ToJson.Entries | src/to_json.rs:188 | Zipping keys with values gives as many entries as the shorter side, each the `{"key", "value"}` object that `ToJson.EntryObject` builds (lines 205-208) |
| ToJson.FillFields | src/to_json.rs:72-79 | Filling the fields keeps the number of objects |
| ToJson.ToJsonRows | src/to_json.rs:25-231 | `columntree_to_json_rows`: every failure is one of its panics (the two `assert_eq!`s, the `expect` on a missing object, the `unwrap` on a closed list, `todo!`). The arm lemmas state its rows, and `ColumnTreeToJsonRows` proves the loops equal to it |
| ToJson.StructRows | src/to_json.rs:49-106 | The Struct arm fails only with one of those panics; `StructWithNulls`, `StructWithoutNulls` and `StructCountMismatch` state its rows |
| ToJson.SplitRows | src/to_json.rs:107-163 | The List and Map arms once their elements are decoded fail only with the `unwrap` panic; `SplitRowsWithin`, `ListRoundTrip` and the examples state the rows |
| ToJson.ColumnTreeToJsonRows | src/to_json.rs:25-231 | The function with its loops computes exactly `ToJsonRows`, including its panics |
| ToJson.StructArm | src/to_json.rs:49-106 | The Struct arm's loops compute exactly `StructRows` |
| ToJson.SplitArm | src/to_json.rs:114-162 | The List arm's loops compute exactly `SplitRows` |
| ToJson.BooleanRows | src/to_json.rs:27-29 | A Boolean byte b gives `true` iff b is non-zero, and a null gives `Null` |
| ToJson.NonZeroStep | src/to_json.rs:84-104 | Counting non-zero bytes one byte at a time |
| ToJson.NonZeroPrefix | src/to_json.rs:84-104 | A prefix has no more non-zero bytes than the whole |
| ToJson.Interleaved | src/to_json.rs:84-104 | The interleaving has one row per `not_null` byte |
| ToJson.InterleaveNulls | src/to_json.rs:84-104 | The loop over `not_null` and the final check that no object is left give exactly the reference interleaving, including its two panics |
| ToJson.InterleaveFrom | src/to_json.rs:84-104 | The loop over `not_null` fails only with "too short" or "too long"; `Interleaved` and `InterleavedObjects` state its rows |
| ToJson.InterleaveExact | src/to_json.rs:84-104 | With exactly as many objects as non-zero bytes, the interleaving loop succeeds and gives the reference interleaving |
| ToJson.InterleavedObjects | src/to_json.rs:84-104 | A non-zero byte at row j gets the object numbered by the non-zero bytes before it, so objects are consumed in order |
| ToJson.StructWithNulls | src/to_json.rs:49-106 | A struct with `not_null` yields exactly one row per byte, `Null` iff the byte is 0 |
| ToJson.StructCountMismatch | src/to_json.rs:54-56 | A `not_null` length different from `num_elements` fails the assertion |
| ToJson.InsertFresh | src/to_json.rs:72-79 | Inserting a fresh key appends the entry |
| ToJson.ObjectRow | src/to_json.rs:72-79 | Row i's object after k fields has k entries |
| ToJson.FillFieldsObjects | src/to_json.rs:72-79 | With distinct field names, object i receives every field's row i, in the order of the elements |
| ToJson.StructWithoutNulls | src/to_json.rs:68-82 | A struct without `not_null` yields `num_elements` objects, each with every field in order |
| ToJson.PullSplitsKeepsNulls | src/to_json.rs:129-148 | Pulling offsets never turns an emitted `Null` into a list |
| ToJson.FeedKeepsNulls | src/to_json.rs:129-148 | Feeding values never turns an emitted `Null` into a list |
| ToJson.FillKeepsNulls | src/to_json.rs:150-154 | Filling pending splits never turns an emitted `Null` into a list |
| ToJson.LeadingNullOffsets | src/to_json.rs:114-128 | Leading null offsets each emit a `Null`, and the first non-null offset becomes the next split |
| ToJson.LeadingNullRows | src/to_json.rs:114-128 | The first rows, one per leading null offset, are `Null` |
| ToJson.FillPending | src/to_json.rs:150-154 | Splits still pending after the last value become `Null` rows, and filling stops at the first null offset or at the end |
| ToJson.PullSplitsWithin | src/to_json.rs:129-148 | Pulling offsets adds only empty or null lists |
| ToJson.FeedWithin | src/to_json.rs:129-148 | Feeding puts only fed values into lists |
| ToJson.FillWithin | src/to_json.rs:150-154 | Filling adds only null rows |
| ToJson.LeadingWithin | src/to_json.rs:114-128 | The leading pass adds only null rows |
| ToJson.SplitRowsWithin | src/to_json.rs:107-163 | Every list row is `Null` or an array of values taken from the element stream |
| ToJson.MapRowsAreEntries | src/to_json.rs:164-228 | Every map row is `Null` or an array of objects with exactly the keys "key" and "value" |
| ToJson.Starts | src/to_json.rs:129-148 | One start offset per list |
| ToJson.Opened | src/to_json.rs:129-148 | One opened list per row |
| ToJson.ConcatStep | src/to_json.rs:129-148 | The concatenation of k+1 lists extends that of k lists by list k |
| ToJson.ConcatPrefix | src/to_json.rs:129-148 | The concatenation of the first k lists is a prefix of the whole |
| ToJson.ConcatSlice | src/to_json.rs:129-148 | List k sits between its start offset and the next one in the concatenation |
| ToJson.PushOnto | src/to_json.rs:147 | Each value is appended to the last opened list |
| ToJson.Push | src/to_json.rs:147 | The push fails only with the `unwrap` panic, and on success keeps the number of lists, the pending split and the offsets |
| ToJson.Feed | src/to_json.rs:129-148 | The `for (i, value)` loop fails only with the `unwrap` panic; `FeedRun`, `OpenList` and `FeedRows` state what it builds |
| ToJson.PullSplits | src/to_json.rs:130-146 | The `while Some(i) == next_split` loop only pulls offsets, never puts one back; `PullAtStart` and `PullSplitsWithin` state what it pushes |
| ToJson.Leading | src/to_json.rs:114-128 | The first loop only pulls offsets, and ends with no pending split only when the offsets are exhausted; `LeadingNullOffsets` states what it pushes |
| ToJson.Fill | src/to_json.rs:150-154 | Filling the pending splits only adds lists; `FillPending` and `FillWithin` state which |
| ToJson.FeedRun | src/to_json.rs:129-148 | Values fed before the next split all go into the last opened list |
| ToJson.PullAtStart | src/to_json.rs:135-146 | Reaching a list's start offset opens that list with the next start as its split |
| ToJson.OpenList | src/to_json.rs:129-148 | Feeding from a list's start fills that list and moves on to the next start |
| ToJson.FeedRows | src/to_json.rs:129-148 | Feeding the concatenation from list k's start fills lists k onward exactly |
| ToJson.ListRoundTrip | src/to_json.rs:107-163 | Splitting the concatenation of non-empty lists at their start offsets gives back exactly those lists |
| ToJson.TrailingEmptyListExample | src/to_json.rs:150-154 | An empty last list renders as `Null`, and a null list after it is dropped |
| ToJson.NullOffsetOrderExample | src/to_json.rs:135-146 | A null offset between two lists emits its `Null` when the split before it is reached, ahead of the list that split opens |

## Left out

- ar_row/src/reader.rs (the C++ ORC reader, files, stripes), the C++ glue and the command-line example are I/O and foreign code: a reader is modelled as a sequence of already-read struct columns.
- Arrow library internals (`as_primitive_opt`, `as_string_opt`, `NullBuffer`, `normalized_keys`, `read_from_record_batch`): a downcast succeeds iff the data-type tag and the payload shape agree, and a record batch is its struct column.
- Floating-point values are kept as their 64-bit patterns, never computed on; `f32`/`f64` decoding and JSON float numbers are identity copies.
- Integer widths of the non-timestamp scalars are not enforced: a column's values are assumed to fit its type, as Arrow guarantees. Timestamp seconds are bounded to i64 explicitly.
- Lists with i32 and i64 offsets are one case; the model does not distinguish `List` from `LargeList` offsets.
- `Schema.CheckScalarIff`: the `{:?}` text of a nested `DataType` inside a message is abbreviated (`DebugName`). Only the message layout of flat types and of the generated struct check is exact.
- Error messages of `DeserializationError` are not modelled, only the variant and its structured fields: `MismatchedColumnDataType` carries the column's `DataType` instead of its "Could not cast … array with …" text, `UnexpectedNull` carries no payload instead of "{T} column contains nulls" (ar_row/src/deserialize.rs:247, ar_row/src/dictionaries.rs:22), and `UsizeOverflow` drops its inner `TryFromIntError`.
- Panic messages keep only their fixed text: "List too short" drops the expected and actual counts that the source formats into it.
- The `println!` in the generated prelude is output only, and is left out.
- The column-count `assert_eq!` in the generated prelude is a panic, modelled as an `Outcome.Panic`, not with the source's text.
- Rust lifetimes, `unsafe` and the `len()`/`iter_mut()` agreement of `DeserializationTarget`: the destination is one `array<Value>`, whose length is its slot count.
- `MultiMap` aliasing: the projection is a copy followed by a write-back (`Targets.ProjectInto`, `Targets.EmbedFrom`), not a view sharing storage. The two agree because decoders only overwrite slots.
- `ColumnTree` is not part of this model's sources; its shape is inferred from the match arms of src/to_json.rs. An offsets stream is a sequence of `Some(start)` / `None`, and its end is the end of the sequence.
- ToJson.ListRoundTrip: stated for non-null, non-empty lists only. An empty last list renders as `Null`, and a null list after it is dropped (`ToJson.TrailingEmptyListExample`), so the round trip does not hold for them. A null offset is also emitted before the list it follows: offsets `[Some(0), None, Some(1)]` render as `[null, [1], [2]]`, not `[[1], null, [2]]` (`ToJson.NullOffsetOrderExample`). That is how the source behaves; no corrected splitter is modelled, because the intended rendering of those offsets is not documented.
- Engine.DecodeScalar: models the corrected downcast (`Scalars.CastsTo`), so a String target over a LargeUtf8 column, or a `Box<[u8]>` target over a LargeBinary column, decodes. The source returns `MismatchedColumnDataType` there; `Scalars.CastsToAsWritten` and `Scalars.LargeStringRejectedAsWritten` model that behaviour (see Findings).
- Engine.DecodeRecord: models the corrected structure decode, which refuses a structure column with a null buffer with `UnexpectedNull`. As written, the generated decoder does not check the structure's bitmap, and a null row takes whatever its field columns hold; `Engine.DecodeRecordAsWritten` and `DecodeProperties.NullStructRowAsWritten` model that behaviour (see Findings).
- Engine.DecodeOptionScalar: the same corrected downcast for `Option<String>` and `Option<Box<[u8]>>`.
- RowIterators.DrainYieldsEveryBatch: stated for readers whose batches are all non-empty. As written, an empty batch in the middle of the stream makes `next` return `None`, and the later batches are never pulled (`RowIterators.EmptyBatchEnds`, `RowIterators.StallsPastEmptyBatch`). No corrected iterator that skips empty batches is modelled.
- The Struct arm's `try_into().expect` on the element count is not modelled: counts are unbounded.
- UTF-8 decoding of JSON strings (`from_utf8_lossy`) is not modelled: a JSON string keeps its bytes.
- Concurrency (the rayon-based parallel row iterator) is not modelled.
- The commented-out `rust_decimal` code (ar_row/src/deserialize.rs:674-782) is not compiled, and is left out.
- `Date` and `NaiveDecimal128` are single-field wrappers over their integer.

## Findings

| source | as written | input that shows it | evidently intended | confidence | as-written member | corrected member |
|---|---|---|---|---|---|---|
| ar_row/src/deserialize.rs:845-884 | `read_list_of_options_from_array` passes Arrow's validity bits (`true` = valid) to `NullableValuesIterator`, which reads `true` as absent (ar_row/src/array_iterators.rs:64-67) | offsets [0,2,2,5], validity [valid, null, valid]: the valid rows become `None` and the null row takes a list, so 3 of 5 elements are left over and it panics "List too long" | a null row gives `None`, a valid row gives `Some(elements[off[i]..off[i+1]])` | not executed | Lists.NullableListExample | Engine.DecodeOptionVec |
| ar_row_derive/src/lib.rs:374-379 | the `Option` record prefill resets a slot to `Some(Default)` only when its bit is `false` (null), and leaves the valid rows as they were | a one-row column with validity [valid] and destination [None]: the slot stays `None`, and the field projection's `unwrap_unchecked` (line 388) then has no record to reach | every slot becomes `Some(record)` before the fields are decoded, and null rows become `None` afterwards | not executed | Records.OptionPrefillUnsoundExample | Records.OptionPrefill |
| ar_row_derive/src/lib.rs:330-343 | the generated `read_from_array` of a structure without `Option` resets the rows whose bit is set and never looks at the structure's null buffer, although the crate documents that omitting `Option` returns an error early for files with null values (lib.rs:26-27) | a one-row `{a: i64}` column whose row is null, over a child column holding 7: `from_array` returns `Ok(1)` with the record `{a: 7}` | a structure column with a null buffer gives `UnexpectedNull` | not executed | DecodeProperties.NullStructRowAsWritten | DecodeProperties.RecordRefusesNulls |
| ar_row/src/deserialize.rs:372-385 | `String` and `Box<[u8]>` accept LargeUtf8 and LargeBinary in `check_datatype`, but the decoder downcasts only to the i32-offset string and binary arrays | a LargeUtf8 column passes the check for `String`, then decoding it fails with `MismatchedColumnDataType` | the decoder accepts every column type the check accepts | not executed | Scalars.LargeStringRejectedAsWritten | Scalars.CheckedScalarsDowncast |
