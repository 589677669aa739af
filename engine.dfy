/**
 * The decode engine: `ArRowDeserialize::read_from_array` for every target
 * type, dispatched on the Rust type as the trait implementations are, with
 * the nested decodes (list elements, dictionary values, structure fields)
 * as recursive calls on the child columns.
 */
module Engine {
  import opened Wrappers
  import opened Arrow
  import opened Rows
  import Targets
  import Scalars
  import Dictionaries
  import Lists
  import Records

  // ---- typing of the written slots ----

  /** Every conversion that succeeds yields a value of type `t`. */
  predicate CellsTyped(cells: seq<Result<Value, DeserializationError>>, t: RustType) {
    forall i :: 0 <= i < |cells| ==> cells[i].Success? ==> HasType(cells[i].value, t)
  }

  lemma ZipWriteTyped(cells: seq<Result<Value, DeserializationError>>, view: seq<Value>, count: nat, t: RustType)
    requires CellsTyped(cells, t) && Typed(view, t)
    ensures |Targets.ZipWrite(cells, view, count).slots| == |view|
    ensures Typed(Targets.ZipWrite(cells, view, count).slots, t)
  {
  }

  lemma OptionCellsTyped(cells: seq<Result<Value, DeserializationError>>, a: Array, t: RustType)
    requires CellsTyped(cells, t)
    ensures CellsTyped(Scalars.OptionCells(cells, a), OptionT(t))
  {
  }

  lemma ScalarCellsTyped(t: RustType, a: Array)
    requires IsScalar(t) && t != TimestampT && Scalars.Downcasts(t, a)
    ensures CellsTyped(Scalars.Cells(t, a), t)
  {
  }

  lemma LookupCellsTyped(keys: seq<nat>, decoded: seq<Value>, dt: DataType, t: RustType)
    requires Typed(decoded, t)
    ensures CellsTyped(Dictionaries.LookupCells(keys, decoded, dt), t)
  {
  }

  lemma OptionLookupCellsTyped(bits: seq<bool>, keys: seq<nat>, decoded: seq<Value>, dt: DataType, t: RustType)
    requires Typed(decoded, t)
    ensures CellsTyped(Dictionaries.OptionLookupCells(bits, keys, decoded, dt), OptionT(t))
  {
  }

  /** The lists a split writes have the vector (or optional vector) type of their elements. */
  lemma ListSplitTyped(offsets: seq<nat>, elements: seq<Value>, mask: Option<seq<bool>>, optional: bool, view: seq<Value>, item: RustType)
    requires Typed(elements, item)
    requires Typed(view, if optional then OptionT(VecT(item)) else VecT(item))
    ensures |Lists.ListSplit(offsets, elements, mask, optional, view).slots| == |view|
    ensures Typed(Lists.ListSplit(offsets, elements, mask, optional, view).slots, if optional then OptionT(VecT(item)) else VecT(item))
  {
    var n := Lists.RowCount(offsets);
    if n <= |view| {
      var k := Lists.FirstShort(offsets, |elements|, n);
      forall i | 0 <= i < k
        ensures HasType(Lists.Wrap(Lists.Items(offsets, elements, i), optional, Lists.NullRow(mask, i)),
                        if optional then OptionT(VecT(item)) else VecT(item))
      {
        assert Lists.Fits(offsets, |elements|, i);
        assert Lists.Consumed(offsets, i + 1) == Lists.Consumed(offsets, i) + Lists.Span(offsets[i], offsets[i + 1]);
        SliceTyped(elements, Lists.Consumed(offsets, i), Lists.Consumed(offsets, i + 1), item);
        WrapTyped(Lists.Items(offsets, elements, i), optional, Lists.NullRow(mask, i), item);
      }
    }
  }

  lemma SliceTyped(elements: seq<Value>, lo: nat, hi: nat, item: RustType)
    requires lo <= hi <= |elements| && Typed(elements, item)
    ensures Typed(elements[lo..hi], item)
  {
    assert forall j :: 0 <= j < hi - lo ==> elements[lo..hi][j] == elements[lo + j];
  }

  lemma WrapTyped(items: seq<Value>, optional: bool, isNull: bool, item: RustType)
    requires Typed(items, item)
    ensures HasType(Lists.Wrap(items, optional, isNull), if optional then OptionT(VecT(item)) else VecT(item))
  {
  }

  // ---- the decoders ----

  /**
   * `from_array`: decodes a whole column into a fresh buffer of
   * `src.len()` default values.
   */
  function FromArray(t: RustType, src: Array): (d: Decoded)
    requires Deserializable(t)
    ensures |d.slots| == Len(src) && Typed(d.slots, t)
    decreases src, t, 3, 0
  {
    DefaultsTyped(t, Len(src));
    Decode(t, src, Defaults(t, Len(src)))
  }

  /**
   * `T::read_from_array(src, dst)`: the outcome and the destination after
   * the call. Every slot keeps the type `T`.
   */
  function Decode(t: RustType, src: Array, view: seq<Value>): (d: Decoded)
    requires Deserializable(t) && Typed(view, t)
    ensures |d.slots| == |view| && Typed(d.slots, t)
    decreases src, t, 2, 0
  {
    match t
    case VecT(_) => DecodeVec(t, src, view)
    case StructT(_, _) => DecodeRecord(t, src, view)
    case OptionT(inner) =>
      (match inner
       case VecT(_) => DecodeOptionVec(t, src, view)
       case StructT(_, _) => DecodeOptionRecord(t, src, view)
       case BoolT | I8T | I16T | I32T | I64T | U8T | U16T | U32T | U64T | F32T | F64T
         | StringT | BoxBytesT | DateT | FixedSizeBinaryT(_) | NaiveDecimal128T | TimestampT =>
         DecodeOptionScalar(t, src, view))
    case BoolT | I8T | I16T | I32T | I64T | U8T | U16T | U32T | U64T | F32T | F64T
      | StringT | BoxBytesT | DateT | FixedSizeBinaryT(_) | NaiveDecimal128T | TimestampT =>
      DecodeScalar(t, src, view)
  }

  /**
   * A scalar (`impl_scalar_deser!`, `FixedSizeBinary<N>`, `Timestamp`): the
   * downcast, else a dictionary column, else `MismatchedColumnDataType`.
   */
  function DecodeScalar(t: RustType, src: Array, view: seq<Value>): (d: Decoded)
    requires IsScalar(t) && Typed(view, t)
    ensures |d.slots| == |view| && Typed(d.slots, t)
    decreases src, t, 1, 0
  {
    if t == TimestampT then
      if Scalars.TimestampDowncasts(src) then
        ZipWriteTyped(Scalars.TimestampCells(src), view, Len(src), t);
        Scalars.DecodeTimestamp(src, view)
      else if IsDictionary(src) then DecodeDictionary(t, src, view)
      else Decoded(Err(MismatchedColumnDataType(src.dataType)), view)
    else if Scalars.Downcasts(t, src) then
      ScalarCellsTyped(t, src);
      ZipWriteTyped(Scalars.Cells(t, src), view, Len(src), t);
      Scalars.DecodePlain(t, src, view)
    else if IsDictionary(src) then DecodeDictionary(t, src, view)
    else Decoded(Err(MismatchedColumnDataType(src.dataType)), view)
  }

  /** `Option<T>` for a scalar `T`. */
  function DecodeOptionScalar(t: RustType, src: Array, view: seq<Value>): (d: Decoded)
    requires t.OptionT? && IsScalar(t.inner) && Typed(view, t)
    ensures |d.slots| == |view| && Typed(d.slots, t)
    decreases src, t, 1, 0
  {
    if t.inner == TimestampT then
      if Scalars.TimestampDowncasts(src) then
        OptionCellsTyped(Scalars.TimestampCells(src), src, TimestampT);
        ZipWriteTyped(Scalars.OptionCells(Scalars.TimestampCells(src), src), view, Len(src), t);
        Scalars.DecodeOptionTimestamp(src, view)
      else if IsDictionary(src) then DecodeOptionDictionary(t, src, view)
      else Decoded(Err(MismatchedColumnDataType(src.dataType)), view)
    else if Scalars.Downcasts(t.inner, src) then
      ScalarCellsTyped(t.inner, src);
      OptionCellsTyped(Scalars.Cells(t.inner, src), src, t.inner);
      ZipWriteTyped(Scalars.OptionCells(Scalars.Cells(t.inner, src), src), view, Len(src), t);
      Scalars.DecodeOption(t.inner, src, view)
    else if IsDictionary(src) then DecodeOptionDictionary(t, src, view)
    else Decoded(Err(MismatchedColumnDataType(src.dataType)), view)
  }

  /**
   * `read_from_dictionary_array`: a bitmap on the keys is refused, then the
   * dictionary's values are decoded with `from_array` and looked up.
   */
  function DecodeDictionary(t: RustType, src: Array, view: seq<Value>): (d: Decoded)
    requires Deserializable(t) && IsDictionary(src) && Typed(view, t)
    ensures |d.slots| == |view| && Typed(d.slots, t)
    decreases src, t, 0, 0
  {
    if src.nulls.Some? then Decoded(Err(UnexpectedNull), view)
    else
      var values := FromArray(t, src.data.dictValues);
      if !values.outcome.Ok? then Decoded(values.outcome, view)
      else
        LookupCellsTyped(src.data.keys, values.slots, src.dataType, t);
        ZipWriteTyped(Dictionaries.LookupCells(src.data.keys, values.slots, src.dataType), view, Len(src), t);
        Dictionaries.LookupWrite(src, values.slots, view)
  }

  /**
   * `read_options_from_dictionary_array`: the values are decoded as `T`
   * first; without a bitmap on the keys the call is handed to
   * `read_from_dictionary_array` for `Option<T>`, which decodes the values
   * again as options.
   */
  function DecodeOptionDictionary(t: RustType, src: Array, view: seq<Value>): (d: Decoded)
    requires Deserializable(t) && t.OptionT? && IsDictionary(src) && Typed(view, t)
    ensures |d.slots| == |view| && Typed(d.slots, t)
    decreases src, t, 0, 1
  {
    var values := FromArray(t.inner, src.data.dictValues);
    if !values.outcome.Ok? then Decoded(values.outcome, view)
    else if src.nulls.None? then DecodeDictionary(t, src, view)
    else
      OptionLookupCellsTyped(src.nulls.value, src.data.keys, values.slots, src.dataType, t.inner);
      ZipWriteTyped(Dictionaries.OptionLookupCells(src.nulls.value, src.data.keys, values.slots, src.dataType), view, Len(src), t);
      Dictionaries.OptionLookupWrite(src, values.slots, view)
  }

  /** `Vec<I>`: the elements are decoded first, then a bitmap is refused, then the offsets split them. */
  function DecodeVec(t: RustType, src: Array, view: seq<Value>): (d: Decoded)
    requires Deserializable(t) && t.VecT? && Typed(view, t)
    ensures |d.slots| == |view| && Typed(d.slots, t)
    decreases src, t, 1, 0
  {
    if !IsList(src) then Decoded(Err(MismatchedColumnDataType(src.dataType)), view)
    else
      var elements := FromArray(t.item, src.data.child);
      if !elements.outcome.Ok? then Decoded(elements.outcome, view)
      else if src.nulls.Some? then Decoded(Err(UnexpectedNull), view)
      else
        ListSplitTyped(src.data.offsets, elements.slots, None, false, view, t.item);
        Lists.ListSplit(src.data.offsets, elements.slots, None, false, view)
  }

  /** `Option<Vec<I>>`, corrected: a null list is `None` and still consumes its range of elements. */
  function DecodeOptionVec(t: RustType, src: Array, view: seq<Value>): (d: Decoded)
    requires Deserializable(t) && t.OptionT? && t.inner.VecT? && Typed(view, t)
    ensures |d.slots| == |view| && Typed(d.slots, t)
    decreases src, t, 1, 0
  {
    if !IsList(src) then Decoded(Err(MismatchedColumnDataType(src.dataType)), view)
    else
      assert Deserializable(t.inner);
      var elements := FromArray(t.inner.item, src.data.child);
      if !elements.outcome.Ok? then Decoded(elements.outcome, view)
      else
        ListSplitTyped(src.data.offsets, elements.slots, src.nulls, true, view, t.inner.item);
        Lists.ListSplit(src.data.offsets, elements.slots, src.nulls, true, view)
  }

  /**
   * The checks of the generated prelude: the column must be a struct column
   * (`as_struct_opt`), have one column per field (`assert_eq!`, a panic) and
   * have no more rows than the destination has slots.
   */
  function Prelude(t: RustType, src: Array, view: seq<Value>): (r: Option<Outcome>)
    requires t.StructT?
    ensures r.None? <==> IsStruct(src) && |src.data.columns| == |t.fields| && Len(src) <= |view|
    ensures r.Some? ==> !r.value.Ok?
  {
    if !IsStruct(src) then Some(Err(MismatchedColumnDataType(src.dataType)))
    else if |src.data.columns| != |t.fields| then Some(Panic("struct has a different number of fields than columns"))
    else if Len(src) > |view| then Some(Err(MismatchedLength(Len(src), |view|)))
    else None
  }

  /**
   * The generated `read_from_array`, corrected: after the prelude, a
   * structure column with a null buffer is refused with `UnexpectedNull`, as
   * the crate documents for targets without `Option`; otherwise every slot
   * is reset, each field column is decoded through the projection on that
   * field, and the result is `Ok(src.len())`.
   */
  function DecodeRecord(t: RustType, src: Array, view: seq<Value>): (d: Decoded)
    requires Deserializable(t) && t.StructT? && Typed(view, t)
    ensures |d.slots| == |view| && Typed(d.slots, t)
    ensures src.nulls.Some? ==> !d.outcome.Ok? && d.slots == view
    decreases src, t, 1, 0
  {
    var stop := Prelude(t, src, view);
    if stop.Some? then Decoded(stop.value, view)
    else if src.nulls.Some? then Decoded(Err(UnexpectedNull), view)
    else
      Records.RecordPrefill(view, t, src.nulls);
      var fields := DecodeFields(t, src, Records.Prefill(view, src.nulls, true, Default(t)), false, 0);
      if fields.outcome.Ok? then Decoded(Ok(Len(src)), fields.slots) else fields
  }

  /**
   * The generated `read_from_array` as written: no null check; the slots of
   * valid rows are reset, null rows keep their old record, and every field
   * column is decoded into every slot, null rows included.
   */
  function DecodeRecordAsWritten(t: RustType, src: Array, view: seq<Value>): (d: Decoded)
    requires Deserializable(t) && t.StructT? && Typed(view, t)
    ensures |d.slots| == |view| && Typed(d.slots, t)
    ensures src.nulls.None? ==> d == DecodeRecord(t, src, view)
  {
    var stop := Prelude(t, src, view);
    if stop.Some? then Decoded(stop.value, view)
    else
      Records.RecordPrefill(view, t, src.nulls);
      var fields := DecodeFields(t, src, Records.Prefill(view, src.nulls, true, Default(t)), false, 0);
      if fields.outcome.Ok? then Decoded(Ok(Len(src)), fields.slots) else fields
  }

  /**
   * The generated `read_options_from_array`, corrected: every slot is set to
   * `Some(Default::default())`, the fields are decoded through
   * `unwrap_unchecked()`, and the null rows are then set to `None`.
   */
  function DecodeOptionRecord(t: RustType, src: Array, view: seq<Value>): (d: Decoded)
    requires Deserializable(t) && t.OptionT? && t.inner.StructT? && Typed(view, t)
    ensures |d.slots| == |view| && Typed(d.slots, t)
    decreases src, t, 1, 0
  {
    var stop := Prelude(t.inner, src, view);
    if stop.Some? then Decoded(stop.value, view)
    else
      var fields := DecodeFields(t.inner, src, Records.OptionPrefill(view, t.inner), true, 0);
      if fields.outcome.Ok? then Decoded(Ok(Len(src)), Records.MaskNulls(fields.slots, src.nulls)) else fields
  }

  /**
   * What the loop over a structure's fields works on: a structure type whose
   * field types can be decoded, a structure column with one column per
   * field, and slots that hold records of the type.
   */
  predicate FieldLoop(t: RustType, src: Array, view: seq<Value>, optional: bool) {
    Deserializable(t) && t.StructT? && IsStruct(src) && |src.data.columns| == |t.fields|
    && Records.AllRecords(view, t, optional)
  }

  /**
   * The fields from `k` on, in declaration order: each column is decoded
   * into the projection of the slots on its field and written back; the
   * first error (`?`) stops the loop with the fields before it written.
   */
  function DecodeFields(t: RustType, src: Array, view: seq<Value>, optional: bool, k: nat): (d: Decoded)
    requires FieldLoop(t, src, view, optional) && k <= |t.fields|
    ensures |d.slots| == |view| && Records.AllRecords(d.slots, t, optional)
    decreases src, t, 0, |t.fields| - k
  {
    if k == |t.fields| then Decoded(Ok(0), view)
    else
      var field := FieldDecode(t, src, view, optional, k);
      Records.EmbedTyped(view, t, optional, k, field.slots);
      var written := Targets.Embed(view, Records.FieldLens(optional, k), field.slots);
      if !field.outcome.Ok? then Decoded(field.outcome, written)
      else DecodeFields(t, src, written, optional, k + 1)
  }

  /**
   * One field's statement of the generated code: column `k` decoded by the
   * field's type into `dst.map(|struct_| &mut struct_.field_k)`.
   */
  function FieldDecode(t: RustType, src: Array, view: seq<Value>, optional: bool, k: nat): (d: Decoded)
    requires FieldLoop(t, src, view, optional) && k < |t.fields|
    ensures |d.slots| == |view| && Typed(d.slots, t.fields[k].ty)
    decreases src, t, 0, 0
  {
    Records.ProjectTyped(view, t, optional, k);
    Decode(t.fields[k].ty, src.data.columns[k], Targets.Project(view, Records.FieldLens(optional, k)))
  }

  // ---- the decoders over a destination buffer ----

  /** `from_array`: a fresh buffer of `src.len()` defaults, decoded into in place. */
  method ReadNew(t: RustType, src: Array) returns (d: Decoded)
    requires Deserializable(t)
    ensures d == FromArray(t, src)
    decreases src, t, 3, 0
  {
    DefaultsTyped(t, Len(src));
    var buf := new Value[Len(src)](_ => Default(t));
    assert buf[..] == Defaults(t, Len(src));
    var r := ReadFromArray(t, src, buf);
    d := Decoded(r, buf[..]);
  }

  /** `T::read_from_array(src, dst)` writing the slots of `dst` in place. */
  method ReadFromArray(t: RustType, src: Array, dst: array<Value>) returns (r: Outcome)
    requires Deserializable(t) && Typed(dst[..], t)
    modifies dst
    ensures Decoded(r, dst[..]) == Decode(t, src, old(dst[..]))
    decreases src, t, 2, 0
  {
    if t.VecT? {
      r := ReadVec(t, src, dst, false);
    } else if t.StructT? {
      r := ReadRecord(t, src, dst);
    } else if t.OptionT? && t.inner.VecT? {
      r := ReadVec(t, src, dst, true);
    } else if t.OptionT? && t.inner.StructT? {
      r := ReadOptionRecord(t, src, dst);
    } else {
      r := ReadScalar(t, src, dst);
    }
  }

  /** A scalar `T` or `Option<T>`: the zip-write loop over the converted rows, or the dictionary path. */
  method ReadScalar(t: RustType, src: Array, dst: array<Value>) returns (r: Outcome)
    requires (IsScalar(t) || (t.OptionT? && IsScalar(t.inner))) && Typed(dst[..], t)
    modifies dst
    ensures IsScalar(t) ==> Decoded(r, dst[..]) == DecodeScalar(t, src, old(dst[..]))
    ensures t.OptionT? ==> Decoded(r, dst[..]) == DecodeOptionScalar(t, src, old(dst[..]))
    decreases src, t, 1, 0
  {
    var optional := t.OptionT?;
    var scalar := if optional then t.inner else t;
    if scalar == TimestampT && Scalars.TimestampDowncasts(src) {
      if src.dataType.Decimal128? && src.dataType != Decimal128(38, 9) {
        r := Err(MismatchedColumnDataType(src.dataType));
      } else if optional {
        r := Targets.WriteCells(Scalars.OptionCells(Scalars.TimestampCells(src), src), dst, Len(src));
      } else if src.nulls.Some? {
        r := Err(UnexpectedNull);
      } else {
        r := Targets.WriteCells(Scalars.TimestampCells(src), dst, Len(src));
      }
    } else if scalar != TimestampT && Scalars.Downcasts(scalar, src) {
      if optional {
        r := Targets.WriteCells(Scalars.OptionCells(Scalars.Cells(scalar, src), src), dst, Len(src));
      } else if src.nulls.Some? {
        r := Err(UnexpectedNull);
      } else {
        r := Targets.WriteCells(Scalars.Cells(scalar, src), dst, Len(src));
      }
    } else if IsDictionary(src) {
      if optional {
        r := ReadOptionDictionary(t, src, dst);
      } else {
        r := ReadDictionary(t, src, dst);
      }
    } else {
      r := Err(MismatchedColumnDataType(src.dataType));
    }
  }

  /** `read_from_dictionary_array`: the values decoded into a buffer of their own, then looked up. */
  method ReadDictionary(t: RustType, src: Array, dst: array<Value>) returns (r: Outcome)
    requires Deserializable(t) && IsDictionary(src) && Typed(dst[..], t)
    modifies dst
    ensures Decoded(r, dst[..]) == DecodeDictionary(t, src, old(dst[..]))
    decreases src, t, 0, 0
  {
    if src.nulls.Some? {
      return Err(UnexpectedNull);
    }
    var values := ReadNew(t, src.data.dictValues);
    if !values.outcome.Ok? {
      return values.outcome;
    }
    r := Targets.WriteCells(Dictionaries.LookupCells(src.data.keys, values.slots, src.dataType), dst, Len(src));
  }

  /** `read_options_from_dictionary_array`. */
  method ReadOptionDictionary(t: RustType, src: Array, dst: array<Value>) returns (r: Outcome)
    requires Deserializable(t) && t.OptionT? && IsDictionary(src) && Typed(dst[..], t)
    modifies dst
    ensures Decoded(r, dst[..]) == DecodeOptionDictionary(t, src, old(dst[..]))
    decreases src, t, 0, 1
  {
    var values := ReadNew(t.inner, src.data.dictValues);
    if !values.outcome.Ok? {
      return values.outcome;
    }
    if src.nulls.None? {
      r := ReadDictionary(t, src, dst);
    } else {
      r := Targets.WriteCells(
        Dictionaries.OptionLookupCells(src.nulls.value, src.data.keys, values.slots, src.dataType), dst, Len(src));
    }
  }

  /** `Vec<I>` and `Option<Vec<I>>`: the elements decoded first, then split by the offsets. */
  method ReadVec(t: RustType, src: Array, dst: array<Value>, optional: bool) returns (r: Outcome)
    requires Deserializable(t) && Typed(dst[..], t)
    requires if optional then t.OptionT? && t.inner.VecT? else t.VecT?
    modifies dst
    ensures !optional ==> Decoded(r, dst[..]) == DecodeVec(t, src, old(dst[..]))
    ensures optional ==> Decoded(r, dst[..]) == DecodeOptionVec(t, src, old(dst[..]))
    decreases src, t, 1, 0
  {
    if !IsList(src) {
      return Err(MismatchedColumnDataType(src.dataType));
    }
    var item := if optional then t.inner.item else t.item;
    assert optional ==> Deserializable(t.inner);
    var elements := ReadNew(item, src.data.child);
    if !elements.outcome.Ok? {
      return elements.outcome;
    }
    if !optional && src.nulls.Some? {
      return Err(UnexpectedNull);
    }
    r := Lists.SplitLists(src.data.offsets, elements.slots, if optional then src.nulls else None, optional, dst);
  }

  /** The generated `read_from_array`, corrected (see `DecodeRecord`). */
  method ReadRecord(t: RustType, src: Array, dst: array<Value>) returns (r: Outcome)
    requires Deserializable(t) && t.StructT? && Typed(dst[..], t)
    modifies dst
    ensures Decoded(r, dst[..]) == DecodeRecord(t, src, old(dst[..]))
    decreases src, t, 1, 0
  {
    var stop := Prelude(t, src, dst[..]);
    if stop.Some? {
      return stop.value;
    }
    if src.nulls.Some? {
      return Err(UnexpectedNull);
    }
    Records.RecordPrefill(dst[..], t, src.nulls);
    Records.PrefillSlots(dst, src.nulls, true, Default(t));
    r := ReadFields(t, src, dst, false);
    if r.Ok? {
      r := Ok(Len(src));
    }
  }

  /** The generated `read_options_from_array`, corrected (see `DecodeOptionRecord`). */
  method ReadOptionRecord(t: RustType, src: Array, dst: array<Value>) returns (r: Outcome)
    requires Deserializable(t) && t.OptionT? && t.inner.StructT? && Typed(dst[..], t)
    modifies dst
    ensures Decoded(r, dst[..]) == DecodeOptionRecord(t, src, old(dst[..]))
    decreases src, t, 1, 0
  {
    var stop := Prelude(t.inner, src, dst[..]);
    if stop.Some? {
      return stop.value;
    }
    DefaultHasType(t.inner);
    Records.PrefillSlots(dst, None, false, OptVal(Some(Default(t.inner))));
    r := ReadFields(t.inner, src, dst, true);
    if r.Ok? {
      Records.MaskNullSlots(dst, src.nulls);
      r := Ok(Len(src));
    }
  }

  /**
   * One statement per field, in declaration order: the field's column is
   * decoded into the projection of the slots on that field, which is then
   * written back; `?` returns the first error.
   */
  method ReadFields(t: RustType, src: Array, dst: array<Value>, optional: bool) returns (r: Outcome)
    requires FieldLoop(t, src, dst[..], optional)
    modifies dst
    ensures Decoded(r, dst[..]) == DecodeFields(t, src, old(dst[..]), optional, 0)
    decreases src, t, 0, |t.fields|
  {
    var k := 0;
    while k < |t.fields|
      invariant k <= |t.fields| && Records.AllRecords(dst[..], t, optional)
      invariant DecodeFields(t, src, dst[..], optional, k) == DecodeFields(t, src, old(dst[..]), optional, 0)
    {
      var lens := Records.FieldLens(optional, k);
      ghost var before := dst[..];
      Records.ProjectTyped(before, t, optional, k);
      var p := Targets.ProjectInto(dst, lens);
      var o := ReadFromArray(t.fields[k].ty, src.data.columns[k], p);
      assert Decoded(o, p[..]) == FieldDecode(t, src, before, optional, k);
      Records.EmbedTyped(before, t, optional, k, p[..]);
      Targets.EmbedFrom(dst, lens, p);
      if !o.Ok? {
        return o;
      }
      k := k + 1;
    }
    r := Ok(0);
  }
}
