/**
 * The scalar decoders of `impl_scalar_deser!`, `FixedSizeBinary<N>` and
 * `Timestamp`: a downcast of the column to the decoder's array type, a
 * per-row conversion, and the zip-write loop of `Targets`.
 */
module Scalars {
  import opened Wrappers
  import opened Arrow
  import opened Rows
  import Schema
  import Timestamps
  import Targets

  /**
   * Whether the downcast (`as_boolean_opt`, `as_primitive_opt`,
   * `as_string_opt`, `as_binary_opt`, `as_fixed_size_binary_opt`) of a column
   * of type `d` succeeds for the decoder of `t`, corrected so that String and
   * byte-string columns with 64-bit offsets are downcast too, as the checker
   * accepts them (the code as written is `CastsToAsWritten`).
   */
  predicate CastsTo(t: RustType, d: DataType)
    ensures CastsTo(t, d) ==> IsScalar(t) && t != TimestampT && !d.Dictionary?
  {
    match t
    case BoolT => d == Boolean
    case I8T => d == Int8
    case I16T => d == Int16
    case I32T => d == Int32
    case I64T => d == Int64
    case U8T => d == UInt8
    case U16T => d == UInt16
    case U32T => d == UInt32
    case U64T => d == UInt64
    case F32T => d == Float32
    case F64T => d == Float64
    case DateT => d == Date32
    case StringT => d == Utf8 || d == LargeUtf8
    case BoxBytesT => d == Binary || d == LargeBinary
    case FixedSizeBinaryT(_) => d.FixedSizeBinary?
    case NaiveDecimal128T => d.Decimal128?
    case _ => false
  }

  /**
   * The downcast as the code writes it: `as_string_opt` and `as_binary_opt`
   * target `StringArray` and `BinaryArray`, whose offsets are 32-bit, so
   * `LargeUtf8` and `LargeBinary` columns are not downcast.
   */
  predicate CastsToAsWritten(t: RustType, d: DataType) {
    match t
    case StringT => d == Utf8
    case BoxBytesT => d == Binary
    case _ => CastsTo(t, d)
  }

  /** The element of a column of that type holds the native value the conversion expects. */
  predicate Shaped(t: RustType, v: Native) {
    match t
    case BoolT => v.NBool?
    case F32T => v.NFloat?
    case F64T => v.NFloat?
    case StringT => v.NStr?
    case BoxBytesT => v.NBytes?
    case FixedSizeBinaryT(_) => v.NBytes?
    case _ => v.NInt?
  }

  /** The column is a value array the decoder of `t` can downcast. */
  predicate Downcasts(t: RustType, a: Array) {
    CastsTo(t, a.dataType) && a.data.Primitive?
    && forall i :: 0 <= i < |a.data.values| ==> Shaped(t, a.data.values[i])
  }

  /**
   * The per-row conversion (`$cast`): the identity on the value for most
   * types, a wrapper for `Date` and `NaiveDecimal128`, and for
   * `FixedSizeBinary<N>` a `try_into` that fails on a length other than `N`.
   */
  function Convert(t: RustType, v: Native): (r: Result<Value, DeserializationError>)
    requires IsScalar(t) && t != TimestampT && Shaped(t, v)
    ensures r.Failure? <==> t.FixedSizeBinaryT? && |v.bytes| != t.n
    ensures r.Failure? ==> r.error == MismatchedBinarySize(|v.bytes|, t.n)
    ensures t.FixedSizeBinaryT? && r.Success? ==> r.value == FixedVal(v.bytes)
    ensures r.Success? ==> HasType(r.value, t)
  {
    match t
    case BoolT => Success(BoolVal(v.b))
    case F32T => Success(FloatVal(v.bits))
    case F64T => Success(FloatVal(v.bits))
    case StringT => Success(StrVal(v.s))
    case BoxBytesT => Success(BytesVal(v.bytes))
    case DateT => Success(DateVal(v.i))
    case NaiveDecimal128T => Success(DecimalVal(v.i))
    case FixedSizeBinaryT(n) =>
      if |v.bytes| == n then Success(FixedVal(v.bytes)) else Failure(MismatchedBinarySize(|v.bytes|, n))
    case I8T | I16T | I32T | I64T | U8T | U16T | U32T | U64T => Success(IntVal(v.i))
  }

  /** The conversions of the rows of a downcast column. */
  function Cells(t: RustType, a: Array): (cells: seq<Result<Value, DeserializationError>>)
    requires IsScalar(t) && t != TimestampT && Downcasts(t, a)
    ensures |cells| == Len(a)
  {
    var vs := a.data.values;
    seq(|vs|, i requires 0 <= i < |vs| => Convert(t, vs[i]))
  }

  /** The rows of the `Option` decoder: `None` for a null row, the conversion wrapped in `Some` otherwise. */
  function OptionCells(cells: seq<Result<Value, DeserializationError>>, a: Array): (r: seq<Result<Value, DeserializationError>>)
    ensures |r| == |cells|
  {
    seq(|cells|, i requires 0 <= i < |cells| =>
      if IsNull(a, i) then Success(OptVal(None))
      else if cells[i].Failure? then Failure(cells[i].error)
      else Success(OptVal(Some(cells[i].value))))
  }

  /** `read_from_array` of a non-`Option` scalar on a downcast column: a bitmap is refused outright. */
  function DecodePlain(t: RustType, a: Array, view: seq<Value>): (d: Decoded)
    requires IsScalar(t) && t != TimestampT && Downcasts(t, a)
    ensures |d.slots| == |view| && !d.outcome.Panic?
    ensures a.nulls.Some? ==> d == Decoded(Err(UnexpectedNull), view)
    ensures d.outcome.Ok? ==> d.outcome.count == Len(a)
  {
    if a.nulls.Some? then Decoded(Err(UnexpectedNull), view)
    else Targets.ZipWrite(Cells(t, a), view, Len(a))
  }

  /** `read_from_array` of `Option<T>` for a scalar `T` on a downcast column. */
  function DecodeOption(t: RustType, a: Array, view: seq<Value>): (d: Decoded)
    requires IsScalar(t) && t != TimestampT && Downcasts(t, a)
    ensures |d.slots| == |view| && !d.outcome.Panic?
    ensures d.outcome.Ok? ==> d.outcome.count == Len(a)
  {
    Targets.ZipWrite(OptionCells(Cells(t, a), a), view, Len(a))
  }

  // ----- timestamps -----

  /** The timestamp column arms: one per time unit (any timezone), and `Decimal128`. */
  predicate TimestampDowncasts(a: Array) {
    (a.dataType.Timestamp? || a.dataType.Decimal128?) && a.data.Primitive?
    && forall i :: 0 <= i < |a.data.values| ==> a.data.values[i].NInt?
  }

  /** The conversion of each row of a timestamp column. */
  function TimestampCells(a: Array): (cells: seq<Result<Value, DeserializationError>>)
    requires TimestampDowncasts(a)
    ensures |cells| == Len(a)
  {
    var vs := a.data.values;
    seq(|vs|, i requires 0 <= i < |vs| =>
      if a.dataType.Timestamp? then Success(TimestampVal(Timestamps.FromUnit(vs[i].i, a.dataType.unit)))
      else
        var ts := Timestamps.FromDecimal128(vs[i].i);
        if ts.Success? then Success(TimestampVal(ts.value)) else Failure(ts.error))
  }

  /** `Timestamp::read_from_array` on a unit or decimal column; decimals other than (38, 9) are refused. */
  function DecodeTimestamp(a: Array, view: seq<Value>): (d: Decoded)
    requires TimestampDowncasts(a)
    ensures |d.slots| == |view| && !d.outcome.Panic?
    ensures a.nulls.Some? ==> d.outcome.Err? && d.slots == view
    ensures d.outcome.Ok? ==> d.outcome.count == Len(a)
  {
    if a.dataType.Decimal128? && a.dataType != Decimal128(38, 9) then
      Decoded(Err(MismatchedColumnDataType(a.dataType)), view)
    else if a.nulls.Some? then Decoded(Err(UnexpectedNull), view)
    else Targets.ZipWrite(TimestampCells(a), view, Len(a))
  }

  /** `Option<Timestamp>::read_from_array` on a unit or decimal column. */
  function DecodeOptionTimestamp(a: Array, view: seq<Value>): (d: Decoded)
    requires TimestampDowncasts(a)
    ensures |d.slots| == |view| && !d.outcome.Panic?
    ensures d.outcome.Ok? ==> d.outcome.count == Len(a)
  {
    if a.dataType.Decimal128? && a.dataType != Decimal128(38, 9) then
      Decoded(Err(MismatchedColumnDataType(a.dataType)), view)
    else Targets.ZipWrite(OptionCells(TimestampCells(a), a), view, Len(a))
  }

  // ----- properties -----

  /**
   * A non-`Option` scalar decode on a column with a bitmap returns
   * `UnexpectedNull` and writes nothing; otherwise it writes slot `i` for
   * `i < min(src.len, dst.len)`, leaves later slots unchanged and returns
   * `src.len()`, unless a conversion fails.
   */
  lemma PlainScalarContract(t: RustType, a: Array, view: seq<Value>)
    requires IsScalar(t) && t != TimestampT && Downcasts(t, a)
    requires forall i :: 0 <= i < Len(a) ==> Convert(t, a.data.values[i]).Success?
    ensures a.nulls.Some? ==> DecodePlain(t, a, view) == Decoded(Err(UnexpectedNull), view)
    ensures a.nulls.None? ==>
      var d := DecodePlain(t, a, view);
      d.outcome == Ok(Len(a)) && |d.slots| == |view|
      && (forall i :: 0 <= i < Targets.Min(Len(a), |view|) ==> d.slots[i] == Convert(t, a.data.values[i]).value)
      && (forall i :: Targets.Min(Len(a), |view|) <= i < |view| ==> d.slots[i] == view[i])
  {
    if a.nulls.None? {
      Targets.ZipWriteSucceeds(Cells(t, a), view, Len(a));
    }
  }

  /**
   * An `Option` scalar decode sets slot `i` to `None` exactly when source row
   * `i` is null, and otherwise to `Some` of the converted value.
   */
  lemma OptionScalarContract(t: RustType, a: Array, view: seq<Value>)
    requires IsScalar(t) && t != TimestampT && Downcasts(t, a)
    requires forall i :: 0 <= i < Len(a) ==> Convert(t, a.data.values[i]).Success?
    ensures DecodeOption(t, a, view).outcome == Ok(Len(a))
    ensures forall i :: 0 <= i < Targets.Min(Len(a), |view|) ==>
      DecodeOption(t, a, view).slots[i] ==
        if IsNull(a, i) then OptVal(None) else OptVal(Some(Convert(t, a.data.values[i]).value))
  {
    Targets.ZipWriteSucceeds(OptionCells(Cells(t, a), a), view, Len(a));
  }

  /** A fixed-size binary row of the wrong length stops the decode with `MismatchedBinarySize{src, dst: N}`. */
  lemma FixedSizeBinaryMismatch(n: nat, a: Array, view: seq<Value>, k: nat)
    requires Downcasts(FixedSizeBinaryT(n), a) && a.nulls.None?
    requires k < Targets.Min(Len(a), |view|) && |a.data.values[k].bytes| != n
    requires forall i :: 0 <= i < k ==> |a.data.values[i].bytes| == n
    ensures DecodePlain(FixedSizeBinaryT(n), a, view).outcome == Err(MismatchedBinarySize(|a.data.values[k].bytes|, n))
  {
    Targets.ZipWriteFails(Cells(FixedSizeBinaryT(n), a), view, Len(a), k);
  }

  /** A timestamp decimal whose seconds overflow `i64` stops the decode with `TimestampOverflow`. */
  lemma DecimalTimestampOverflow(a: Array, view: seq<Value>, k: nat)
    requires TimestampDowncasts(a) && a.dataType == Decimal128(38, 9) && a.nulls.None?
    requires k < Targets.Min(Len(a), |view|) && Timestamps.FromDecimal128(a.data.values[k].i).Failure?
    requires forall i :: 0 <= i < k ==> Timestamps.FromDecimal128(a.data.values[i].i).Success?
    ensures DecodeTimestamp(a, view).outcome ==
      Err(TimestampOverflow(Timestamps.Quot(a.data.values[k].i, Timestamps.NanosPerSecond)))
  {
    Targets.ZipWriteFails(TimestampCells(a), view, Len(a), k);
  }

  /**
   * Every column type the checker accepts for a listed scalar (other than
   * `Timestamp`), and for `FixedSizeBinary<N>` and `NaiveDecimal128`, is one
   * the decoder downcasts.
   */
  lemma CheckedScalarsDowncast(t: RustType, d: DataType)
    requires IsScalar(t) && t != TimestampT
    requires Schema.CheckDatatype(t, d).Success?
    ensures CastsTo(t, d)
  {
    if Schema.IsListedScalar(t) {
      Schema.CheckScalarIff(t, d);
    }
  }

  /**
   * As written, a `String` column the checker accepts (`LargeUtf8`) is not
   * downcast by `String::read_from_array`, which then reports a mismatched
   * column type; the same holds for `Box<[u8]>` and `LargeBinary`.
   */
  lemma LargeStringRejectedAsWritten()
    ensures Schema.CheckDatatype(StringT, LargeUtf8).Success? && !CastsToAsWritten(StringT, LargeUtf8)
    ensures Schema.CheckDatatype(BoxBytesT, LargeBinary).Success? && !CastsToAsWritten(BoxBytesT, LargeBinary)
  {
    Schema.CheckerAcceptExamples();
  }

  /** The accepted timestamp column types are those the timestamp decoder handles. */
  lemma CheckedTimestampsDecode(d: DataType)
    requires Schema.CheckDatatype(TimestampT, d).Success?
    ensures d.Timestamp? || d == Decimal128(38, 9)
  {
    Schema.CheckTimestampIff(d);
  }
}
