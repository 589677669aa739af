/**
 * What the decode engine promises across its cases: structure fields are
 * decoded independently of one another, a dictionary-encoded column decodes
 * like the column it encodes, non-`Option` scalar, dictionary and list
 * targets refuse nulls (structures refuse them only in the corrected decode,
 * `Engine.DecodeRecord`), and `Option` targets map null rows to `None`.
 */
module DecodeProperties {
  import opened Wrappers
  import opened Arrow
  import opened Rows
  import Targets
  import Scalars
  import Dictionaries
  import Lists
  import Records
  import opened Engine

  /** The slots once field `k` has been decoded and written back. */
  function AfterField(t: RustType, src: Array, view: seq<Value>, optional: bool, k: nat): (w: seq<Value>)
    requires FieldLoop(t, src, view, optional) && k < |t.fields|
    ensures |w| == |view| && FieldLoop(t, src, w, optional)
  {
    var field := FieldDecode(t, src, view, optional, k);
    Records.EmbedTyped(view, t, optional, k, field.slots);
    Targets.Embed(view, Records.FieldLens(optional, k), field.slots)
  }

  /** Writing field `k` back and going on with field `k + 1` is the loop's step at `k`. */
  lemma FieldStep(t: RustType, src: Array, view: seq<Value>, optional: bool, k: nat)
    requires FieldLoop(t, src, view, optional) && k < |t.fields|
    requires FieldDecode(t, src, view, optional, k).outcome.Ok?
    ensures DecodeFields(t, src, view, optional, k) == DecodeFields(t, src, AfterField(t, src, view, optional, k), optional, k + 1)
  {
  }

  /** At field `k` the loop either stops with field `k` written back or goes on from `k + 1`. */
  lemma FieldStepAny(t: RustType, src: Array, view: seq<Value>, optional: bool, k: nat)
    requires FieldLoop(t, src, view, optional) && k < |t.fields|
    ensures DecodeFields(t, src, view, optional, k).slots == AfterField(t, src, view, optional, k)
      || DecodeFields(t, src, view, optional, k) == DecodeFields(t, src, AfterField(t, src, view, optional, k), optional, k + 1)
  {
  }

  /** Writing field `k` back sets that field to what its decoder wrote. */
  lemma FieldStepSets(t: RustType, src: Array, view: seq<Value>, optional: bool, k: nat)
    requires FieldLoop(t, src, view, optional) && k < |t.fields|
    ensures Records.FieldColumn(AfterField(t, src, view, optional, k), t, optional, k) == FieldDecode(t, src, view, optional, k).slots
  {
    Records.FieldColumnAfterEmbed(view, t, optional, k, k, FieldDecode(t, src, view, optional, k).slots);
  }

  /** Writing field `k` back leaves field `j != k` alone. */
  lemma FieldStepKeeps(t: RustType, src: Array, view: seq<Value>, optional: bool, k: nat, j: nat)
    requires FieldLoop(t, src, view, optional) && k < |t.fields| && j < |t.fields| && j != k
    ensures Records.FieldColumn(AfterField(t, src, view, optional, k), t, optional, j) == Records.FieldColumn(view, t, optional, j)
  {
    Records.FieldColumnAfterEmbed(view, t, optional, k, j, FieldDecode(t, src, view, optional, k).slots);
  }

  /** After field `k` is written back, the decoders of later fields see what they saw before. */
  lemma FieldStepLater(t: RustType, src: Array, view: seq<Value>, optional: bool, k: nat)
    requires FieldLoop(t, src, view, optional) && k < |t.fields|
    ensures forall j :: k < j < |t.fields| ==>
      FieldDecode(t, src, AfterField(t, src, view, optional, k), optional, j) == FieldDecode(t, src, view, optional, j)
  {
    forall j | k < j < |t.fields|
      ensures FieldDecode(t, src, AfterField(t, src, view, optional, k), optional, j) == FieldDecode(t, src, view, optional, j)
    {
      FieldStepKeeps(t, src, view, optional, k, j);
      assert Records.FieldColumn(AfterField(t, src, view, optional, k), t, optional, j) == Records.FieldColumn(view, t, optional, j);
    }
  }

  /** When every field from `k` on decodes without error, so does the loop over them. */
  lemma {:induction false} FieldsSucceed(t: RustType, src: Array, view: seq<Value>, optional: bool, k: nat)
    requires FieldLoop(t, src, view, optional) && k <= |t.fields|
    requires forall j :: k <= j < |t.fields| ==> FieldDecode(t, src, view, optional, j).outcome.Ok?
    ensures DecodeFields(t, src, view, optional, k).outcome == Ok(0)
    decreases |t.fields| - k
  {
    if k < |t.fields| {
      FieldStep(t, src, view, optional, k);
      FieldStepLater(t, src, view, optional, k);
      FieldsSucceed(t, src, AfterField(t, src, view, optional, k), optional, k + 1);
    }
  }

  /** The loop over the fields from `k` on leaves field `j < k` alone, whether it ends early or not. */
  lemma {:induction false} FieldKept(t: RustType, src: Array, view: seq<Value>, optional: bool, k: nat, j: nat)
    requires FieldLoop(t, src, view, optional) && j < k <= |t.fields|
    ensures Records.FieldColumn(DecodeFields(t, src, view, optional, k).slots, t, optional, j) ==
      Records.FieldColumn(view, t, optional, j)
    decreases |t.fields| - k, 1
  {
    if k < |t.fields| {
      FieldKeptStep(t, src, view, optional, k, j);
    }
  }

  /** The step of `FieldKept`: field `k` is written back, then the loop stops or goes on from `k + 1`. */
  lemma {:induction false} FieldKeptStep(t: RustType, src: Array, view: seq<Value>, optional: bool, k: nat, j: nat)
    requires FieldLoop(t, src, view, optional) && j < k < |t.fields|
    ensures Records.FieldColumn(DecodeFields(t, src, view, optional, k).slots, t, optional, j) ==
      Records.FieldColumn(view, t, optional, j)
    decreases |t.fields| - k, 0
  {
    var written := AfterField(t, src, view, optional, k);
    var column := Records.FieldColumn(DecodeFields(t, src, view, optional, k).slots, t, optional, j);
    FieldStepAny(t, src, view, optional, k);
    assert column == Records.FieldColumn(written, t, optional, j)
      || column == Records.FieldColumn(DecodeFields(t, src, written, optional, k + 1).slots, t, optional, j);
    FieldKept(t, src, written, optional, k + 1, j);
    FieldStepKeeps(t, src, view, optional, k, j);
  }

  /**
   * When the fields from `k` up to `j` decode without error, field `j >= k`
   * of the slots is what its decoder wrote, whatever the later fields do.
   */
  lemma {:induction false} FieldWritten(t: RustType, src: Array, view: seq<Value>, optional: bool, k: nat, j: nat)
    requires FieldLoop(t, src, view, optional) && k <= j < |t.fields|
    requires forall i :: k <= i < j ==> FieldDecode(t, src, view, optional, i).outcome.Ok?
    ensures Records.FieldColumn(DecodeFields(t, src, view, optional, k).slots, t, optional, j) ==
      FieldDecode(t, src, view, optional, j).slots
    decreases |t.fields| - k, 1
  {
    if k == j {
      FieldWrittenHere(t, src, view, optional, k);
    } else {
      FieldWrittenLater(t, src, view, optional, k, j);
    }
  }

  /** The loop from `k` on leaves in field `k` what its decoder wrote. */
  lemma FieldWrittenHere(t: RustType, src: Array, view: seq<Value>, optional: bool, k: nat)
    requires FieldLoop(t, src, view, optional) && k < |t.fields|
    ensures Records.FieldColumn(DecodeFields(t, src, view, optional, k).slots, t, optional, k) ==
      FieldDecode(t, src, view, optional, k).slots
  {
    FieldStepAny(t, src, view, optional, k);
    FieldStepSets(t, src, view, optional, k);
    FieldKept(t, src, AfterField(t, src, view, optional, k), optional, k + 1, k);
  }

  /** The step of `FieldWritten` for a field after `k`: field `k` is written back, which field `j` does not see. */
  lemma {:induction false} FieldWrittenLater(t: RustType, src: Array, view: seq<Value>, optional: bool, k: nat, j: nat)
    requires FieldLoop(t, src, view, optional) && k < j < |t.fields|
    requires forall i :: k <= i < j ==> FieldDecode(t, src, view, optional, i).outcome.Ok?
    ensures Records.FieldColumn(DecodeFields(t, src, view, optional, k).slots, t, optional, j) ==
      FieldDecode(t, src, view, optional, j).slots
    decreases |t.fields| - k, 0
  {
    FieldStep(t, src, view, optional, k);
    FieldStepLater(t, src, view, optional, k);
    FieldWritten(t, src, AfterField(t, src, view, optional, k), optional, k + 1, j);
  }

  /**
   * When every field decodes without error, the loop over the fields from
   * `k` on succeeds, field `j >= k` of the slots is what the decoder of field
   * `j` wrote into the original projection, and the fields before `k` are
   * unchanged: the fields do not interfere with one another.
   */
  lemma FieldsDecodeIndependently(t: RustType, src: Array, view: seq<Value>, optional: bool, k: nat)
    requires FieldLoop(t, src, view, optional) && k <= |t.fields|
    requires forall j :: k <= j < |t.fields| ==> FieldDecode(t, src, view, optional, j).outcome.Ok?
    ensures DecodeFields(t, src, view, optional, k).outcome == Ok(0)
    ensures forall j :: k <= j < |t.fields| ==>
      Records.FieldColumn(DecodeFields(t, src, view, optional, k).slots, t, optional, j) ==
        FieldDecode(t, src, view, optional, j).slots
    ensures forall j :: 0 <= j < k ==>
      Records.FieldColumn(DecodeFields(t, src, view, optional, k).slots, t, optional, j) ==
        Records.FieldColumn(view, t, optional, j)
  {
    FieldsSucceed(t, src, view, optional, k);
    forall j | k <= j < |t.fields|
      ensures Records.FieldColumn(DecodeFields(t, src, view, optional, k).slots, t, optional, j) ==
        FieldDecode(t, src, view, optional, j).slots
    {
      FieldWritten(t, src, view, optional, k, j);
    }
    forall j | 0 <= j < k
      ensures Records.FieldColumn(DecodeFields(t, src, view, optional, k).slots, t, optional, j) ==
        Records.FieldColumn(view, t, optional, j)
    {
      FieldKept(t, src, view, optional, k, j);
    }
  }

  /**
   * The first field whose decode fails ends the structure's decode with that
   * field's error; the fields before it are written.
   */
  lemma {:induction false} FirstFieldErrorReturned(t: RustType, src: Array, view: seq<Value>, optional: bool, k: nat, e: nat)
    requires FieldLoop(t, src, view, optional) && k <= e < |t.fields|
    requires forall j :: k <= j < e ==> FieldDecode(t, src, view, optional, j).outcome.Ok?
    requires !FieldDecode(t, src, view, optional, e).outcome.Ok?
    ensures DecodeFields(t, src, view, optional, k).outcome == FieldDecode(t, src, view, optional, e).outcome
    decreases e - k
  {
    var field := FieldDecode(t, src, view, optional, k);
    if k < e {
      Records.EmbedTyped(view, t, optional, k, field.slots);
      var written := Targets.Embed(view, Records.FieldLens(optional, k), field.slots);
      forall j | k < j <= e
        ensures FieldDecode(t, src, written, optional, j) == FieldDecode(t, src, view, optional, j)
      {
        Records.FieldColumnAfterEmbed(view, t, optional, k, j, field.slots);
      }
      FirstFieldErrorReturned(t, src, written, optional, k + 1, e);
    }
  }

  /** A decode into a fresh buffer of `n` defaults, as a prefilled structure hands each field. */
  function IntoDefaults(t: RustType, src: Array, n: nat): Decoded
    requires Deserializable(t)
  {
    DefaultsTyped(t, n);
    Decode(t, src, Defaults(t, n))
  }

  /** Each field of a prefilled default record buffer is a buffer of the field's defaults. */
  lemma DefaultFieldColumns(t: RustType, n: nat)
    requires t.StructT?
    ensures Records.AllRecords(Defaults(t, n), t, false)
    ensures forall j :: 0 <= j < |t.fields| ==> Records.FieldColumn(Defaults(t, n), t, false, j) == Defaults(t.fields[j].ty, n)
  {
    DefaultsTyped(t, n);
    forall j | 0 <= j < |t.fields|
      ensures Records.FieldColumn(Defaults(t, n), t, false, j) == Defaults(t.fields[j].ty, n)
    {
      FieldDefaultsAt(t.fields, j);
    }
  }

  /**
   * A structure column without nulls: every slot is reset to the default
   * record, then, when every column decodes into a buffer of its field's
   * defaults without error, the call returns `src.len()` and field `j` of
   * the slots is exactly what column `j` decodes to.
   */
  lemma RecordDecodesFieldByField(t: RustType, src: Array, view: seq<Value>)
    requires Deserializable(t) && t.StructT? && Typed(view, t)
    requires IsStruct(src) && |src.data.columns| == |t.fields| && Len(src) <= |view| && src.nulls.None?
    requires forall j :: 0 <= j < |t.fields| ==>
      IntoDefaults(t.fields[j].ty, src.data.columns[j], |view|).outcome.Ok?
    ensures Decode(t, src, view).outcome == Ok(Len(src))
    ensures forall j :: 0 <= j < |t.fields| ==>
      Records.FieldColumn(Decode(t, src, view).slots, t, false, j) ==
        IntoDefaults(t.fields[j].ty, src.data.columns[j], |view|).slots
  {
    Records.RecordPrefill(view, t, None);
    var pre := Records.Prefill(view, None, true, Default(t));
    assert pre == Defaults(t, |view|);
    DefaultFieldColumns(t, |view|);
    FieldsDecodeIndependently(t, src, pre, false, 0);
  }

  /**
   * A structure column whose field `e` is the first that fails (for example
   * a non-`Option` field over a column with nulls) fails with that field's
   * error.
   */
  lemma RecordReportsFirstFieldError(t: RustType, src: Array, view: seq<Value>, e: nat)
    requires Deserializable(t) && t.StructT? && Typed(view, t)
    requires IsStruct(src) && |src.data.columns| == |t.fields| && Len(src) <= |view| && src.nulls.None?
    requires e < |t.fields|
    requires forall j :: 0 <= j < e ==>
      IntoDefaults(t.fields[j].ty, src.data.columns[j], |view|).outcome.Ok?
    requires !IntoDefaults(t.fields[e].ty, src.data.columns[e], |view|).outcome.Ok?
    ensures Decode(t, src, view).outcome == IntoDefaults(t.fields[e].ty, src.data.columns[e], |view|).outcome
  {
    Records.RecordPrefill(view, t, None);
    var pre := Records.Prefill(view, None, true, Default(t));
    assert pre == Defaults(t, |view|);
    DefaultFieldColumns(t, |view|);
    FirstFieldErrorReturned(t, src, pre, false, 0, e);
  }

  /**
   * The corrected `Option` structure decode: on success a slot is `None`
   * exactly when its row is null, and `Some` of a record otherwise.
   */
  lemma OptionRecordNulls(t: RustType, src: Array, view: seq<Value>)
    requires Deserializable(t) && t.OptionT? && t.inner.StructT? && Typed(view, t)
    requires Decode(t, src, view).outcome.Ok?
    ensures forall i :: 0 <= i < |view| ==>
      (Decode(t, src, view).slots[i] == OptVal(None) <==> IsNull(src, i))
  {
    var pre := Records.OptionPrefill(view, t.inner);
    var fields := DecodeFields(t.inner, src, pre, true, 0);
    forall i | 0 <= i < |view|
      ensures Decode(t, src, view).slots[i] == OptVal(None) <==> IsNull(src, i)
    {
      assert Records.RecordSlot(fields.slots[i], t.inner, true);
    }
  }

  /** A scalar target over a column its decoder downcasts runs the plain scalar decoder. */
  lemma ScalarDispatch(t: RustType, src: Array, view: seq<Value>)
    requires IsScalar(t) && t != TimestampT && Typed(view, t) && Scalars.Downcasts(t, src)
    ensures Decode(t, src, view) == Scalars.DecodePlain(t, src, view)
  {
  }

  lemma OptionScalarDispatch(t: RustType, src: Array, view: seq<Value>)
    requires IsScalar(t) && t != TimestampT && Typed(view, OptionT(t)) && Scalars.Downcasts(t, src)
    ensures Decode(OptionT(t), src, view) == Scalars.DecodeOption(t, src, view)
  {
  }

  /** A scalar target over a dictionary column runs the dictionary decoder. */
  lemma DictionaryDispatch(t: RustType, src: Array, view: seq<Value>)
    requires IsScalar(t) && Typed(view, t) && IsDictionary(src)
    ensures Decode(t, src, view) == DecodeDictionary(t, src, view)
  {
    assert !Scalars.Downcasts(t, src) && !Scalars.TimestampDowncasts(src);
  }

  lemma OptionDictionaryDispatch(t: RustType, src: Array, view: seq<Value>)
    requires IsScalar(t) && Typed(view, OptionT(t)) && IsDictionary(src)
    ensures Decode(OptionT(t), src, view) == DecodeOptionDictionary(OptionT(t), src, view)
  {
    assert !Scalars.Downcasts(t, src) && !Scalars.TimestampDowncasts(src);
  }

  /**
   * An `Option` scalar target over a dictionary column with nulls whose
   * values decode looks each valid key up in the decoded values.
   */
  lemma OptionDictionaryWithNulls(t: RustType, src: Array, view: seq<Value>)
    requires IsScalar(t) && Typed(view, OptionT(t)) && IsDictionary(src) && src.nulls.Some?
    requires FromArray(t, src.data.dictValues).outcome.Ok?
    ensures Decode(OptionT(t), src, view) == Dictionaries.OptionLookupWrite(src, FromArray(t, src.data.dictValues).slots, view)
  {
    OptionDictionaryDispatch(t, src, view);
  }

  /**
   * A non-`Option` scalar target refuses a downcast column that has a
   * validity bitmap with `UnexpectedNull`, leaving the destination untouched.
   */
  lemma ScalarRefusesNulls(t: RustType, src: Array, view: seq<Value>)
    requires IsScalar(t) && t != TimestampT && Typed(view, t)
    requires Scalars.Downcasts(t, src) && src.nulls.Some?
    ensures Decode(t, src, view) == Decoded(Err(UnexpectedNull), view)
  {
  }

  /** The same holds of a timestamp column with a time unit. */
  lemma TimestampRefusesNulls(src: Array, view: seq<Value>)
    requires Typed(view, TimestampT)
    requires Scalars.TimestampDowncasts(src) && src.dataType.Timestamp? && src.nulls.Some?
    ensures Decode(TimestampT, src, view) == Decoded(Err(UnexpectedNull), view)
  {
  }

  /** A dictionary column with nulls is refused before its values are decoded. */
  lemma DictionaryRefusesNulls(t: RustType, src: Array, view: seq<Value>)
    requires IsScalar(t) && Typed(view, t)
    requires IsDictionary(src) && src.nulls.Some?
    ensures Decode(t, src, view) == Decoded(Err(UnexpectedNull), view)
  {
    DictionaryDispatch(t, src, view);
  }

  /** A list column with nulls is refused once its elements are decoded. */
  lemma ListRefusesNulls(t: RustType, src: Array, view: seq<Value>)
    requires Deserializable(t) && t.VecT? && Typed(view, t)
    requires IsList(src) && src.nulls.Some? && FromArray(t.item, src.data.child).outcome.Ok?
    ensures Decode(t, src, view) == Decoded(Err(UnexpectedNull), view)
  {
    assert Decode(t, src, view) == DecodeVec(t, src, view);
    assert DecodeVec(t, src, view) == Decoded(Err(UnexpectedNull), view);
  }

  /**
   * The corrected structure decode refuses a structure column with a null
   * buffer once the prelude passes, leaving the destination untouched.
   */
  lemma RecordRefusesNulls(t: RustType, src: Array, view: seq<Value>)
    requires Deserializable(t) && t.StructT? && Typed(view, t)
    requires IsStruct(src) && |src.data.columns| == |t.fields| && Len(src) <= |view| && src.nulls.Some?
    ensures Decode(t, src, view) == Decoded(Err(UnexpectedNull), view)
  {
  }

  /**
   * An `Option` scalar target on a downcast column whose conversions all
   * succeed returns `src.len()` and sets slot `i` to `None` exactly when row
   * `i` is null.
   */
  lemma OptionScalarNulls(t: RustType, src: Array, view: seq<Value>)
    requires IsScalar(t) && t != TimestampT && Scalars.Downcasts(t, src) && Typed(view, OptionT(t))
    requires forall i :: 0 <= i < Len(src) ==> Scalars.Convert(t, src.data.values[i]).Success?
    ensures Decode(OptionT(t), src, view).outcome == Ok(Len(src))
    ensures forall i :: 0 <= i < Targets.Min(Len(src), |view|) ==>
      (Decode(OptionT(t), src, view).slots[i] == OptVal(None) <==> IsNull(src, i))
  {
    OptionScalarDispatch(t, src, view);
    var d := Scalars.DecodeOption(t, src, view);
    Scalars.OptionScalarContract(t, src, view);
    forall i | 0 <= i < Targets.Min(Len(src), |view|)
      ensures d.slots[i] == OptVal(None) <==> IsNull(src, i)
    {
      assert d.slots[i] == if IsNull(src, i) then OptVal(None) else OptVal(Some(Scalars.Convert(t, src.data.values[i]).value));
    }
  }

  /**
   * A dictionary-encoded scalar column without nulls, whose keys are all in
   * range and whose values all convert, decodes exactly like the plain
   * column holding `values[keys[i]]` in row `i`.
   */
  lemma DictionaryTransparent(t: RustType, dict: Array, flat: Array, view: seq<Value>)
    requires IsScalar(t) && t != TimestampT && Typed(view, t)
    requires IsDictionary(dict) && dict.nulls.None?
    requires Scalars.Downcasts(t, dict.data.dictValues) && dict.data.dictValues.nulls.None?
    requires forall i :: 0 <= i < |dict.data.keys| ==> dict.data.keys[i] < |dict.data.dictValues.data.values|
    requires forall j :: 0 <= j < Len(dict.data.dictValues) ==> Scalars.Convert(t, dict.data.dictValues.data.values[j]).Success?
    requires Scalars.Downcasts(t, flat) && flat.nulls.None? && |flat.data.values| == |dict.data.keys|
    requires forall i :: 0 <= i < |dict.data.keys| ==> flat.data.values[i] == dict.data.dictValues.data.values[dict.data.keys[i]]
    ensures Decode(t, dict, view) == Decode(t, flat, view)
  {
    var values := dict.data.dictValues;
    var n := Len(values);
    Scalars.PlainScalarContract(t, values, Defaults(t, n));
    DefaultsTyped(t, n);
    ScalarDispatch(t, values, Defaults(t, n));
    var decoded := FromArray(t, values);
    assert decoded.outcome.Ok?;
    DictionaryDispatch(t, dict, view);
    ScalarDispatch(t, flat, view);
    var lookups := Dictionaries.LookupCells(dict.data.keys, decoded.slots, dict.dataType);
    assert lookups == Scalars.Cells(t, flat);
  }

  // ---- the dictionary tests of the repository ----

  const Abc: Array := Array(Utf8, None, Primitive([NStr("a"), NStr("b"), NStr("c")]))

  /** `["a", "a", "b", "c", "a"]` as a dictionary column: keys `[0, 0, 1, 2, 0]`. */
  const DictColumn: Array := Array(Dictionary(Int8, Utf8), None, DictData([0, 0, 1, 2, 0], Abc))

  /** `[Some("a"), None, Some("b"), Some("c"), Some("a")]`: the key under the null row is 0. */
  const NullableDictColumn: Array :=
    Array(Dictionary(Int8, Utf8), Some([true, false, true, true, true]), DictData([0, 0, 1, 2, 0], Abc))

  lemma AbcDecodes()
    ensures FromArray(StringT, Abc) == Decoded(Ok(3), [StrVal("a"), StrVal("b"), StrVal("c")])
  {
    DefaultsTyped(StringT, 3);
    ScalarDispatch(StringT, Abc, Defaults(StringT, 3));
    Scalars.PlainScalarContract(StringT, Abc, Defaults(StringT, 3));
  }

  /** `from_array` of a scalar target on a dictionary column without nulls whose values decode looks up every key. */
  lemma FromDictionary(t: RustType, src: Array)
    requires IsScalar(t) && IsDictionary(src) && src.nulls.None?
    requires FromArray(t, src.data.dictValues).outcome.Ok?
    ensures FromArray(t, src) == Dictionaries.LookupWrite(src, FromArray(t, src.data.dictValues).slots, Defaults(t, Len(src)))
  {
    DefaultsTyped(t, Len(src));
    DictionaryDispatch(t, src, Defaults(t, Len(src)));
  }

  /** The same for an `Option` scalar target on a dictionary column with nulls. */
  lemma FromOptionDictionary(t: RustType, src: Array)
    requires IsScalar(t) && IsDictionary(src) && src.nulls.Some?
    requires FromArray(t, src.data.dictValues).outcome.Ok?
    ensures FromArray(OptionT(t), src) ==
      Dictionaries.OptionLookupWrite(src, FromArray(t, src.data.dictValues).slots, Defaults(OptionT(t), Len(src)))
  {
    DefaultsTyped(OptionT(t), Len(src));
    OptionDictionaryWithNulls(t, src, Defaults(OptionT(t), Len(src)));
  }

  /** `String::from_array` of the dictionary column gives the five strings. */
  lemma DictionaryExample()
    ensures FromArray(StringT, DictColumn) ==
      Decoded(Ok(5), [StrVal("a"), StrVal("a"), StrVal("b"), StrVal("c"), StrVal("a")])
  {
    AbcDecodes();
    assert DictColumn.data.dictValues == Abc && Len(DictColumn) == 5;
    FromDictionary(StringT, DictColumn);
    DictionarySlots();
  }

  /** The lookup loop maps the keys `[0, 0, 1, 2, 0]` to a, a, b, c, a. */
  lemma DictionarySlots()
    ensures Dictionaries.LookupWrite(DictColumn, [StrVal("a"), StrVal("b"), StrVal("c")], Defaults(StringT, 5)) ==
      Decoded(Ok(5), [StrVal("a"), StrVal("a"), StrVal("b"), StrVal("c"), StrVal("a")])
  {
    var decoded := [StrVal("a"), StrVal("b"), StrVal("c")];
    var view := Defaults(StringT, 5);
    Dictionaries.LookupContract(DictColumn, decoded, view);
  }

  /** The nullable dictionary column decodes through the bitmap branch of the lookup loop. */
  lemma NullableDictionaryLookup()
    ensures FromArray(OptionT(StringT), NullableDictColumn) ==
      Dictionaries.OptionLookupWrite(NullableDictColumn, [StrVal("a"), StrVal("b"), StrVal("c")], Defaults(OptionT(StringT), 5))
  {
    AbcDecodes();
    assert NullableDictColumn.data.dictValues == Abc && Len(NullableDictColumn) == 5;
    FromOptionDictionary(StringT, NullableDictColumn);
  }

  /** The bitmap branch looks up the set rows and gives `None` for the clear one. */
  lemma NullableDictionarySlots()
    ensures Dictionaries.OptionLookupWrite(NullableDictColumn, [StrVal("a"), StrVal("b"), StrVal("c")], Defaults(OptionT(StringT), 5)) ==
      Decoded(Ok(5), [OptVal(Some(StrVal("a"))), OptVal(None), OptVal(Some(StrVal("b"))), OptVal(Some(StrVal("c"))), OptVal(Some(StrVal("a")))])
  {
    NullableDictionaryCells(Dictionaries.OptionLookupWrite(NullableDictColumn, [StrVal("a"), StrVal("b"), StrVal("c")], Defaults(OptionT(StringT), 5)));
  }

  /** The slots of that lookup, stated of the result by name. */
  lemma NullableDictionaryCells(d: Decoded)
    requires d == Dictionaries.OptionLookupWrite(NullableDictColumn, [StrVal("a"), StrVal("b"), StrVal("c")], Defaults(OptionT(StringT), 5))
    ensures d == Decoded(Ok(5), [OptVal(Some(StrVal("a"))), OptVal(None), OptVal(Some(StrVal("b"))), OptVal(Some(StrVal("c"))), OptVal(Some(StrVal("a")))])
  {
    Dictionaries.OptionLookupContract(NullableDictColumn, [StrVal("a"), StrVal("b"), StrVal("c")], Defaults(OptionT(StringT), 5));
    assert |d.slots| == 5;
  }

  /** `Option<String>::from_array` of the nullable dictionary column gives `None` for the null row. */
  lemma NullableDictionaryExample()
    ensures FromArray(OptionT(StringT), NullableDictColumn) ==
      Decoded(Ok(5), [OptVal(Some(StrVal("a"))), OptVal(None), OptVal(Some(StrVal("b"))), OptVal(Some(StrVal("c"))), OptVal(Some(StrVal("a")))])
  {
    NullableDictionaryLookup();
    NullableDictionarySlots();
  }

  /** `String::from_array` refuses the nullable dictionary column. */
  lemma NullableDictionaryRefused()
    ensures FromArray(StringT, NullableDictColumn).outcome == Err(UnexpectedNull)
  {
    DefaultsTyped(StringT, 5);
    DictionaryRefusesNulls(StringT, NullableDictColumn, Defaults(StringT, 5));
  }

  // ---- a null structure row ----

  /** `struct P { a: i64 }`, without `Option`. */
  const PointT: RustType := StructT("P", [FieldDecl("a", I64T)])

  /** One structure row that is null, over a child column holding 7. */
  const NullPoint: Array :=
    Array(Struct([Field("a", Int64, false)]), Some([false]), StructData(1, [Array(Int64, None, Primitive([NInt(7)]))]))

  /**
   * As written, `P::from_array` accepts the null row: the prefill skips it,
   * and the field decodes the child's value into it.
   */
  lemma NullStructRowAsWritten()
    ensures DecodeRecordAsWritten(PointT, NullPoint, Defaults(PointT, 1)) == Decoded(Ok(1), [RecordVal([IntVal(7)])])
  {
    var view := Defaults(PointT, 1);
    DefaultsTyped(PointT, 1);
    PointDefault();
    assert view == [RecordVal([IntVal(0)])];
    var pre := Records.Prefill(view, NullPoint.nulls, true, Default(PointT));
    Records.RecordPrefill(view, PointT, NullPoint.nulls);
    assert pre == view;
    var column := NullPoint.data.columns[0];
    Records.ProjectTyped(pre, PointT, false, 0);
    var proj := Records.FieldColumn(pre, PointT, false, 0);
    assert proj == [IntVal(0)];
    ScalarDispatch(I64T, column, proj);
    Scalars.PlainScalarContract(I64T, column, proj);
    assert FieldDecode(PointT, NullPoint, pre, false, 0) == Decoded(Ok(1), [IntVal(7)]);
    FieldsDecodeIndependently(PointT, NullPoint, pre, false, 0);
    var slots := DecodeFields(PointT, NullPoint, pre, false, 0).slots;
    PointFromColumn(slots);
  }

  /** A column of one `P` whose field column is `[7]` is that record. */
  lemma PointFromColumn(slots: seq<Value>)
    requires |slots| == 1 && Records.AllRecords(slots, PointT, false)
    requires Records.FieldColumn(slots, PointT, false, 0) == [IntVal(7)]
    ensures slots == [RecordVal([IntVal(7)])]
  {
    assert Records.FieldColumn(slots, PointT, false, 0)[0] == slots[0].fields[0];
    assert HasType(slots[0], PointT);
    assert slots[0].fields == [IntVal(7)];
    assert slots[0] == RecordVal([IntVal(7)]);
  }

  /** The corrected `P::from_array` refuses the same column with `UnexpectedNull`. */
  lemma NullStructRowRefused()
    ensures FromArray(PointT, NullPoint) == Decoded(Err(UnexpectedNull), [RecordVal([IntVal(0)])])
  {
    DefaultsTyped(PointT, 1);
    PointDefault();
    RecordRefusesNulls(PointT, NullPoint, Defaults(PointT, 1));
  }

  lemma PointDefault()
    ensures Defaults(PointT, 1) == [RecordVal([IntVal(0)])]
  {
    assert PointT.fields[1..] == [];
    assert FieldDefaults(PointT.fields) == [IntVal(0)];
    assert Default(PointT) == RecordVal([IntVal(0)]);
    assert Defaults(PointT, 1)[0] == Default(PointT);
  }
}
