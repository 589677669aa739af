/**
 * The Rust side of the decoder: the tree of target types a column can be
 * decoded into (`RustType`), the decoded values (`Value`), the error type of
 * a decode call and its outcome.
 */
module Rows {
  import opened Wrappers
  import Arrow

  /** `ar_row::Timestamp`: a timezone-less instant split into whole seconds and nanoseconds. */
  datatype Timestamp = Timestamp(seconds: int, nanoseconds: int)

  /** The Rust types that implement the decoding traits, one constructor per implementation. */
  datatype RustType =
    | BoolT
    | I8T | I16T | I32T | I64T
    | U8T | U16T | U32T | U64T
    | F32T | F64T
    | StringT
    | BoxBytesT
    | DateT
    | FixedSizeBinaryT(n: nat)
    | NaiveDecimal128T
    | TimestampT
    | VecT(item: RustType)
    | OptionT(inner: RustType)
    | StructT(name: string, fields: seq<FieldDecl>)

  /** A declared field of a `#[derive(ArRowDeserialize)]` structure. */
  datatype FieldDecl = FieldDecl(name: string, ty: RustType)

  /** A decoded Rust value. `Date`, `FixedSizeBinary` and `NaiveDecimal128` are single-field wrappers. */
  datatype Value =
    | BoolVal(b: bool)
    | IntVal(i: int)
    | FloatVal(bits: bv64)
    | StrVal(s: string)
    | BytesVal(bytes: seq<Arrow.byte>)
    | DateVal(days: int)
    | FixedVal(fixed: seq<Arrow.byte>)
    | DecimalVal(d: int)
    | TimestampVal(ts: Timestamp)
    | ListVal(items: seq<Value>)
    | OptVal(opt: Option<Value>)
    | RecordVal(fields: seq<Value>)

  predicate IsScalar(t: RustType) {
    !(t.VecT? || t.OptionT? || t.StructT?)
  }

  /** `Default::default()` of each target type. */
  function Default(t: RustType): Value
    decreases t
  {
    match t
    case BoolT => BoolVal(false)
    case I8T => IntVal(0)
    case I16T => IntVal(0)
    case I32T => IntVal(0)
    case I64T => IntVal(0)
    case U8T => IntVal(0)
    case U16T => IntVal(0)
    case U32T => IntVal(0)
    case U64T => IntVal(0)
    case F32T => FloatVal(0)
    case F64T => FloatVal(0)
    case StringT => StrVal("")
    case BoxBytesT => BytesVal([])
    case DateT => DateVal(0)
    case FixedSizeBinaryT(n) => FixedVal(seq(n, _ => 0))
    case NaiveDecimal128T => DecimalVal(0)
    case TimestampT => TimestampVal(Timestamp(0, 0))
    case VecT(_) => ListVal([])
    case OptionT(_) => OptVal(None)
    case StructT(_, fields) => RecordVal(FieldDefaults(fields))
  }

  function FieldDefaults(fields: seq<FieldDecl>): (r: seq<Value>)
    ensures |r| == |fields|
    decreases fields
  {
    if fields == [] then [] else [Default(fields[0].ty)] + FieldDefaults(fields[1..])
  }

  /** A buffer of `n` default values, as `resize_with(n, Default::default)` builds it. */
  function Defaults(t: RustType, n: nat): (r: seq<Value>)
    ensures |r| == n
  {
    seq(n, _ => Default(t))
  }

  /** Whether a value has the shape of the Rust type: what the compiler guarantees of every slot. */
  predicate HasType(v: Value, t: RustType)
    decreases t
  {
    match t
    case BoolT => v.BoolVal?
    case I8T | I16T | I32T | I64T | U8T | U16T | U32T | U64T => v.IntVal?
    case F32T | F64T => v.FloatVal?
    case StringT => v.StrVal?
    case BoxBytesT => v.BytesVal?
    case DateT => v.DateVal?
    case FixedSizeBinaryT(n) => v.FixedVal? && |v.fixed| == n
    case NaiveDecimal128T => v.DecimalVal?
    case TimestampT => v.TimestampVal?
    case VecT(item) => v.ListVal? && forall i :: 0 <= i < |v.items| ==> HasType(v.items[i], item)
    case OptionT(inner) => v.OptVal? && (v.opt.Some? ==> HasType(v.opt.value, inner))
    case StructT(_, fields) =>
      v.RecordVal? && |v.fields| == |fields| && forall k :: 0 <= k < |fields| ==> HasType(v.fields[k], fields[k].ty)
  }

  /** Every slot of a buffer of `T`s has type `T`. */
  predicate Typed(view: seq<Value>, t: RustType) {
    forall i :: 0 <= i < |view| ==> HasType(view[i], t)
  }

  /**
   * The types that implement `ArRowDeserialize`: `Option<I>` is implemented
   * for scalars, vectors and structures, not for `Option<Option<_>>`.
   */
  predicate Deserializable(t: RustType)
    decreases t
  {
    match t
    case VecT(item) => Deserializable(item)
    case OptionT(inner) => !inner.OptionT? && Deserializable(inner)
    case StructT(_, fields) => forall k :: 0 <= k < |fields| ==> Deserializable(fields[k].ty)
    case _ => true
  }

  lemma {:induction false} FieldDefaultsAt(fields: seq<FieldDecl>, k: nat)
    requires k < |fields|
    ensures FieldDefaults(fields)[k] == Default(fields[k].ty)
    decreases k
  {
    if k > 0 {
      FieldDefaultsAt(fields[1..], k - 1);
    }
  }

  /** `Default::default()` has the type it is the default of, structures included. */
  lemma {:induction false} DefaultHasType(t: RustType)
    ensures HasType(Default(t), t)
    decreases t
  {
    match t
    case StructT(_, fields) =>
      forall k | 0 <= k < |fields|
        ensures HasType(Default(t).fields[k], fields[k].ty)
      {
        FieldDefaultsAt(fields, k);
        DefaultHasType(fields[k].ty);
      }
    case _ =>
  }

  lemma DefaultsTyped(t: RustType, n: nat)
    ensures Typed(Defaults(t, n), t)
  {
    DefaultHasType(t);
  }

  /** `DeserializationError`. Messages are not modelled; the structured data is. */
  datatype DeserializationError =
    | MismatchedColumnDataType(got: Arrow.DataType)
    | MissingField(name: string)
    | UsizeOverflow
    | UnexpectedNull
    | MismatchedLength(src: nat, dst: nat)
    | MismatchedBinarySize(srcSize: nat, dstSize: nat)
    | DictionaryOverflow(key: nat, len: nat, dataType: Arrow.DataType)
    | TimestampOverflow(overflowSeconds: int)

  /**
   * How a decode call ends: `Ok(n)` is `Ok(n)` of `read_from_array`, `Err` its
   * error, `Panic` an abort of the process (a failed `assert`/`expect`/`panic!`).
   */
  datatype Outcome = Ok(count: nat) | Err(error: DeserializationError) | Panic(message: string)

  /** The outcome of a decode call together with the destination contents after it. */
  datatype Decoded = Decoded(outcome: Outcome, slots: seq<Value>)
}
