/**
 * The Apache Arrow side of the decoder: data-type descriptors and an abstract
 * column ("array"). A column is a type tag, an optional validity bitmap
 * (`true` = the row holds a value, as in Arrow's null buffer) and a payload.
 * The payload is a value sequence, offsets plus a child column (variable-size
 * list layout), keys plus a values column (dictionary-encoded layout) or
 * named children (struct layout).
 */
module Arrow {
  import opened Wrappers

  newtype byte = x: int | 0 <= x < 256

  datatype TimeUnit = Second | Millisecond | Microsecond | Nanosecond

  datatype DataType =
    | Null
    | Boolean
    | Int8 | Int16 | Int32 | Int64
    | UInt8 | UInt16 | UInt32 | UInt64
    | Float32 | Float64
    | Date32
    | Utf8 | LargeUtf8
    | Binary | LargeBinary
    | FixedSizeBinary(size: int)
    | Decimal128(precision: int, scale: int)
    | Timestamp(unit: TimeUnit, timezone: Option<string>)
    | List(item: Field)
    | LargeList(item: Field)
    | Struct(fields: seq<Field>)
    | Dictionary(keyType: DataType, valueType: DataType)

  datatype Field = Field(name: string, dataType: DataType, nullable: bool)

  /** One physical slot of a primitive column. Floats are kept as raw bits: they are only copied. */
  datatype Native =
    | NBool(b: bool)
    | NInt(i: int)
    | NFloat(bits: bv64)
    | NStr(s: string)
    | NBytes(bytes: seq<byte>)

  datatype Array = Array(dataType: DataType, nulls: Option<seq<bool>>, data: ArrayData)

  datatype ArrayData =
    | Primitive(values: seq<Native>)
    | ListData(offsets: seq<nat>, child: Array)
    | DictData(keys: seq<nat>, dictValues: Array)
    | StructData(rows: nat, columns: seq<Array>)

  /** `Array::len`: the number of rows of a column. */
  function Len(a: Array): nat {
    match a.data
    case Primitive(values) => |values|
    case ListData(offsets, _) => if |offsets| == 0 then 0 else |offsets| - 1
    case DictData(keys, _) => |keys|
    case StructData(rows, _) => rows
  }

  /** `Array::is_null`: row `i` is null iff a bitmap is present and its bit `i` is clear. */
  predicate IsNull(a: Array, i: nat) {
    a.nulls.Some? && i < |a.nulls.value| && !a.nulls.value[i]
  }

  /** The column can be viewed as a dictionary array (`as_any_dictionary_opt`). */
  predicate IsDictionary(a: Array) {
    a.dataType.Dictionary? && a.data.DictData?
  }

  /** The column can be viewed as a struct array (`as_struct_opt`). */
  predicate IsStruct(a: Array) {
    a.dataType.Struct? && a.data.StructData?
  }

  /** The column can be viewed as a list array with 32-bit or 64-bit offsets (`as_list_opt`). */
  predicate IsList(a: Array) {
    (a.dataType.List? || a.dataType.LargeList?) && a.data.ListData?
  }
}
