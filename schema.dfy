/**
 * The schema checker (`CheckableDataType::check_datatype`) and the column
 * listing (`ArRowStruct::columns_with_prefix`): pure recursive functions over
 * the target type tree, one case per Rust implementation, including the
 * implementation that `#[derive(ArRowDeserialize)]` generates for a structure.
 */
module Schema {
  import opened Wrappers
  import opened Arrow
  import opened Rows

  // ----- text helpers -----

  function DigitChar(d: nat): char
    requires d < 10
  {
    "0123456789"[d]
  }

  function NatToString(n: nat): string
    decreases n
  {
    if n < 10 then [DigitChar(n)] else NatToString(n / 10) + [DigitChar(n % 10)]
  }

  function IntToString(i: int): string {
    if i < 0 then "-" + NatToString(-i) else NatToString(i)
  }

  /** `parts.join(sep)` */
  function Join(parts: seq<string>, sep: string): string
    decreases |parts|
  {
    if |parts| == 0 then ""
    else if |parts| == 1 then parts[0]
    else parts[0] + sep + Join(parts[1..], sep)
  }

  /** `s.replace("\n", "\n\t")` */
  function Indent(s: string): (r: string)
    ensures |r| >= |s|
    decreases |s|
  {
    if s == [] then ""
    else (if s[0] == '\n' then "\n\t" else [s[0]]) + Indent(s[1..])
  }

  function TimeUnitName(u: TimeUnit): string {
    match u
    case Second => "Second"
    case Millisecond => "Millisecond"
    case Microsecond => "Microsecond"
    case Nanosecond => "Nanosecond"
  }

  /** `format!("{:?}", datatype)`, with nested field lists abbreviated. */
  function DebugName(d: DataType): string {
    match d
    case Null => "Null"
    case Boolean => "Boolean"
    case Int8 => "Int8"
    case Int16 => "Int16"
    case Int32 => "Int32"
    case Int64 => "Int64"
    case UInt8 => "UInt8"
    case UInt16 => "UInt16"
    case UInt32 => "UInt32"
    case UInt64 => "UInt64"
    case Float32 => "Float32"
    case Float64 => "Float64"
    case Date32 => "Date32"
    case Utf8 => "Utf8"
    case LargeUtf8 => "LargeUtf8"
    case Binary => "Binary"
    case LargeBinary => "LargeBinary"
    case FixedSizeBinary(size) => "FixedSizeBinary(" + IntToString(size) + ")"
    case Decimal128(p, s) => "Decimal128(" + IntToString(p) + ", " + IntToString(s) + ")"
    case Timestamp(unit, tz) =>
      "Timestamp(" + TimeUnitName(unit) + ", " + (if tz.None? then "None" else "Some(\"" + tz.value + "\")") + ")"
    case List(item) => "List(" + DebugName(item.dataType) + ")"
    case LargeList(item) => "LargeList(" + DebugName(item.dataType) + ")"
    case Struct(_) => "Struct(..)"
    case Dictionary(k, v) => "Dictionary(" + DebugName(k) + ", " + DebugName(v) + ")"
  }

  function DebugNames(ds: seq<DataType>): seq<string> {
    seq(|ds|, i requires 0 <= i < |ds| => DebugName(ds[i]))
  }

  // ----- scalar checks -----

  /** The types checked by `check_datatype_equals` against a fixed list. */
  predicate IsListedScalar(t: RustType) {
    IsScalar(t) && !t.FixedSizeBinaryT? && !t.NaiveDecimal128T?
  }

  /** `stringify!($ty)` of each listed scalar implementation. */
  function TypeName(t: RustType): string
    requires IsListedScalar(t)
  {
    match t
    case BoolT => "bool"
    case I8T => "i8"
    case I16T => "i16"
    case I32T => "i32"
    case I64T => "i64"
    case U8T => "u8"
    case U16T => "u16"
    case U32T => "u32"
    case U64T => "u64"
    case F32T => "f32"
    case F64T => "f64"
    case StringT => "String"
    case BoxBytesT => "Box<[u8]>"
    case DateT => "Date"
    case TimestampT => "Timestamp"
  }

  /** The Arrow types each listed scalar implementation passes to `check_datatype_equals`. */
  function AllowedTypes(t: RustType): seq<DataType>
    requires IsListedScalar(t)
  {
    match t
    case BoolT => [Boolean]
    case I8T => [Int8]
    case I16T => [Int16]
    case I32T => [Int32]
    case I64T => [Int64]
    case U8T => [UInt8]
    case U16T => [UInt16]
    case U32T => [UInt32]
    case U64T => [UInt64]
    case F32T => [Float32]
    case F64T => [Float64]
    case StringT => [Utf8, LargeUtf8]
    case BoxBytesT => [Binary, LargeBinary]
    case DateT => [Date32]
    case TimestampT =>
      [Arrow.Timestamp(Second, None), Arrow.Timestamp(Millisecond, None),
       Arrow.Timestamp(Microsecond, None), Arrow.Timestamp(Nanosecond, None),
       Decimal128(38, 9)]
  }

  /** `check_datatype_equals`: accepted iff the column type is one of the expected ones. */
  function CheckDatatypeEquals(got: DataType, expected: seq<DataType>, typeName: string): (r: Result<(), string>)
    ensures r.Success? <==> got in expected
  {
    if got in expected then Success(())
    else Failure(typeName + " must be decoded from Arrow " + Join(DebugNames(expected), "/")
                 + ", not Arrow " + DebugName(got))
  }

  const I32Max: int := 0x7fff_ffff

  // ----- the checker -----

  /** `check_datatype` of `FixedSizeBinary<N>`: `i32::try_from(N)` fails for sizes beyond the i32 range. */
  function CheckFixedSizeBinary(n: nat, d: DataType): (r: Result<(), string>)
    ensures r.Success? ==> d.FixedSizeBinary? && d.size == n
    ensures r.Failure? ==> |r.error| > 0
  {
    if d.FixedSizeBinary? then
      if n <= I32Max && n == d.size then Success(())
      else Failure("[u8; " + NatToString(n) + "] must be decoded from Arrow FixedSizeBinary("
                   + NatToString(n) + "), not Arrow FixedSizeBinary(" + IntToString(d.size) + ")")
    else Failure("[u8; _] must be decoded from Arrow FixedSizeBinary, not Arrow " + DebugName(d))
  }

  /** `check_datatype` of `NaiveDecimal128`: any precision and scale. */
  function CheckNaiveDecimal(d: DataType): (r: Result<(), string>)
    ensures r.Success? <==> d.Decimal128?
  {
    if d.Decimal128? then Success(())
    else Failure("NaiveDecimal128 must be decoded from Arrow Decimal128(_, _), not Arrow " + DebugName(d))
  }

  /** `check_datatype` of the scalars checked against a list. */
  function CheckListedScalar(t: RustType, d: DataType): Result<(), string>
    requires IsListedScalar(t)
  {
    CheckDatatypeEquals(d, AllowedTypes(t), TypeName(t))
  }

  /** The failure of a derived structure's check, given the collected errors. */
  function StructFailure(name: string, errors: seq<string>): string {
    name + " cannot be decoded:\n\t" + Indent(Join(errors, "\n"))
  }

  /** `<T as CheckableDataType>::check_datatype(d)` */
  function CheckDatatype(t: RustType, d: DataType): (r: Result<(), string>)
    ensures r.Success? && t.StructT? ==> d.Struct?
    ensures r.Success? && t.VecT? ==> d.List?
    ensures r.Failure? ==> |r.error| > 0
    decreases t, 2
  {
    match t
    case FixedSizeBinaryT(n) => CheckFixedSizeBinary(n, d)
    case NaiveDecimal128T => CheckNaiveDecimal(d)
    case VecT(item) =>
      if d.List? then CheckDatatype(item, d.item.dataType)
      else Failure("Must be a List, not " + DebugName(d))
    case OptionT(inner) => CheckDatatype(inner, d)
    case StructT(name, fields) =>
      if d.Struct? then
        var errors := FieldErrors(t, fields, d.fields, 0);
        if errors == [] then Success(()) else Failure(StructFailure(name, errors))
      else Failure(name + " must be decoded from DataType::Struct, not " + DebugName(d))
    case _ => CheckListedScalar(t, d)
  }

  /** The error the generated checker records for declared field `i`, if any. */
  function FieldError(ghost owner: RustType, fields: seq<FieldDecl>, phys: seq<Field>, i: nat): (r: Option<string>)
    requires owner.StructT? && owner.fields == fields && i < |fields|
    ensures i >= |phys| ==> r.Some?
    ensures r.Some? ==> |r.value| > 0
    decreases owner, 0, 0
  {
    assert fields[i] in owner.fields;
    if i < |phys| then
      if phys[i].name != fields[i].name then
        Some("Field #" + NatToString(i) + " must be called " + fields[i].name + ", not " + phys[i].name)
      else
        var inner := CheckDatatype(fields[i].ty, phys[i].dataType);
        if inner.Failure? then Some("Field " + fields[i].name + " cannot be decoded: " + inner.error)
        else None
    else
      Some("Field " + fields[i].name + " is missing")
  }

  /** The errors recorded for declared fields `i..`, in declaration order. */
  function FieldErrors(ghost owner: RustType, fields: seq<FieldDecl>, phys: seq<Field>, i: nat): seq<string>
    requires owner.StructT? && owner.fields == fields && i <= |fields|
    decreases owner, 1, |fields| - i
  {
    if i == |fields| then []
    else
      var e := FieldError(owner, fields, phys, i);
      (if e.Some? then [e.value] else []) + FieldErrors(owner, fields, phys, i + 1)
  }

  // ----- column names -----

  /** The column name of field `name` under `prefix`. */
  function Dotted(prefix: string, name: string): string {
    if |prefix| != 0 then prefix + "." + name else name
  }

  /** `<T as ArRowStruct>::columns_with_prefix(prefix)` */
  function ColumnsWithPrefix(t: RustType, prefix: string): seq<string>
    decreases t, 1
  {
    match t
    case VecT(item) => ColumnsWithPrefix(item, prefix)
    case OptionT(inner) => ColumnsWithPrefix(inner, prefix)
    case StructT(_, fields) => FieldColumns(t, fields, prefix, 0)
    case _ => [prefix]
  }

  function FieldColumns(ghost owner: RustType, fields: seq<FieldDecl>, prefix: string, i: nat): seq<string>
    requires owner.StructT? && owner.fields == fields && i <= |fields|
    decreases owner, 0, |fields| - i
  {
    if i == |fields| then []
    else
      assert fields[i] in owner.fields;
      ColumnsWithPrefix(fields[i].ty, Dotted(prefix, fields[i].name)) + FieldColumns(owner, fields, prefix, i + 1)
  }

  /** `ArRowStruct::columns()` */
  function Columns(t: RustType): seq<string> {
    ColumnsWithPrefix(t, "")
  }

  // ----- the generated code, step by step -----

  /**
   * The generated `check_datatype` of a structure: one statement per
   * declared field pulls the next physical field and pushes its error, if
   * any, onto `errors`; the errors are reported together at the end.
   */
  method CheckStruct(t: RustType, d: DataType) returns (r: Result<(), string>)
    requires t.StructT?
    ensures r == CheckDatatype(t, d)
  {
    StructDispatch(t, d);
    if !d.Struct? {
      return Failure(t.name + " must be decoded from DataType::Struct, not " + DebugName(d));
    }
    var errors: seq<string> := [];
    var i := 0;
    while i < |t.fields|
      invariant i <= |t.fields|
      invariant errors + FieldErrors(t, t.fields, d.fields, i) == FieldErrors(t, t.fields, d.fields, 0)
    {
      var e := FieldError(t, t.fields, d.fields, i);
      FieldErrorsStep(t, d.fields, errors, i);
      if e.Some? {
        errors := errors + [e.value];
      }
      i := i + 1;
    }
    assert errors == errors + FieldErrors(t, t.fields, d.fields, |t.fields|);
    if errors == [] {
      r := Success(());
    } else {
      r := Failure(StructFailure(t.name, errors));
    }
  }

  /** The check of a structure, as `CheckDatatype` states it for that case. */
  lemma StructDispatch(t: RustType, d: DataType)
    requires t.StructT?
    ensures !d.Struct? ==> CheckDatatype(t, d) == Failure(t.name + " must be decoded from DataType::Struct, not " + DebugName(d))
    ensures d.Struct? && FieldErrors(t, t.fields, d.fields, 0) == [] ==> CheckDatatype(t, d) == Success(())
    ensures d.Struct? && FieldErrors(t, t.fields, d.fields, 0) != [] ==>
      CheckDatatype(t, d) == Failure(StructFailure(t.name, FieldErrors(t, t.fields, d.fields, 0)))
  {
    match t {
      case StructT(name, fields) =>
    }
  }

  /** One statement of the generated check appends field `i`'s error, if any, to those collected so far. */
  lemma FieldErrorsStep(t: RustType, phys: seq<Field>, errors: seq<string>, i: nat)
    requires t.StructT? && i < |t.fields|
    ensures var e := FieldError(t, t.fields, phys, i);
      errors + FieldErrors(t, t.fields, phys, i) ==
        (if e.Some? then errors + [e.value] else errors) + FieldErrors(t, t.fields, phys, i + 1)
  {
    var e := FieldError(t, t.fields, phys, i);
    if e.Some? {
      assert errors + ([e.value] + FieldErrors(t, t.fields, phys, i + 1)) == (errors + [e.value]) + FieldErrors(t, t.fields, phys, i + 1);
    } else {
      assert [] + FieldErrors(t, t.fields, phys, i + 1) == FieldErrors(t, t.fields, phys, i + 1);
    }
  }

  /**
   * The generated `columns_with_prefix` of a structure: the columns of each
   * field, under the field's dotted name, appended to `columns` in
   * declaration order.
   */
  method StructColumns(t: RustType, prefix: string) returns (columns: seq<string>)
    requires t.StructT?
    ensures columns == ColumnsWithPrefix(t, prefix)
  {
    columns := [];
    var i := 0;
    while i < |t.fields|
      invariant i <= |t.fields|
      invariant columns + FieldColumns(t, t.fields, prefix, i) == FieldColumns(t, t.fields, prefix, 0)
    {
      assert t.fields[i] in t.fields;
      columns := columns + ColumnsWithPrefix(t.fields[i].ty, Dotted(prefix, t.fields[i].name));
      i := i + 1;
    }
  }

  // ----- properties of the checker -----

  /** A listed scalar is accepted exactly when the column type is in its list. */
  lemma CheckScalarIff(t: RustType, d: DataType)
    requires IsListedScalar(t)
    ensures CheckDatatype(t, d).Success? <==> d in AllowedTypes(t)
    ensures CheckDatatype(t, d).Failure? ==>
      CheckDatatype(t, d).error == TypeName(t) + " must be decoded from Arrow "
        + Join(DebugNames(AllowedTypes(t)), "/") + ", not Arrow " + DebugName(d)
  {
    ListedDispatch(t, d);
  }

  /** A listed scalar is accepted exactly when the column type is in its list. */
  lemma ListedAccepts(t: RustType, d: DataType)
    requires IsListedScalar(t)
    ensures CheckDatatype(t, d).Success? <==> d in AllowedTypes(t)
  {
    ListedDispatch(t, d);
  }

  /** A listed scalar goes straight to `check_datatype_equals`. */
  lemma ListedDispatch(t: RustType, d: DataType)
    requires IsListedScalar(t)
    ensures CheckDatatype(t, d) == CheckDatatypeEquals(d, AllowedTypes(t), TypeName(t))
  {
    assert !t.FixedSizeBinaryT? && !t.NaiveDecimal128T? && !t.VecT? && !t.OptionT? && !t.StructT?;
  }

  /** `FixedSizeBinary<N>` accepts only `FixedSizeBinary(N)`, and only when `N` fits an `i32`. */
  lemma CheckFixedSizeBinaryIff(n: nat, d: DataType)
    ensures CheckDatatype(FixedSizeBinaryT(n), d).Success? <==> d == FixedSizeBinary(n) && n <= I32Max
  {
  }

  /** `Timestamp` accepts the four time units without a timezone, and `Decimal128(38, 9)`. */
  lemma CheckTimestampIff(d: DataType)
    ensures CheckDatatype(TimestampT, d).Success? <==>
      (d.Timestamp? && d.timezone.None?) || d == Decimal128(38, 9)
  {
    ListedAccepts(TimestampT, d);
    if d.Timestamp? && d.timezone.None? {
      assert d == Arrow.Timestamp(d.unit, None);
      if d.unit == Second {
        assert d == AllowedTypes(TimestampT)[0];
      } else if d.unit == Millisecond {
        assert d == AllowedTypes(TimestampT)[1];
      } else if d.unit == Microsecond {
        assert d == AllowedTypes(TimestampT)[2];
      } else {
        assert d == AllowedTypes(TimestampT)[3];
      }
    }
  }

  /** `Vec<T>` accepts only `List(inner)` (not `LargeList`) and delegates to `T` on `inner`. */
  lemma CheckVecIff(item: RustType, d: DataType)
    ensures CheckDatatype(VecT(item), d).Success? <==>
      d.List? && CheckDatatype(item, d.item.dataType).Success?
  {
  }

  /** Declared field `i` is acceptable: the physical field at the same position has its name and an accepted type. */
  predicate FieldAccepted(fields: seq<FieldDecl>, phys: seq<Field>, i: nat)
    requires i < |fields|
  {
    i < |phys| && phys[i].name == fields[i].name && CheckDatatype(fields[i].ty, phys[i].dataType).Success?
  }

  lemma FieldErrorNoneIff(owner: RustType, fields: seq<FieldDecl>, phys: seq<Field>, i: nat)
    requires owner.StructT? && owner.fields == fields && i < |fields|
    ensures FieldError(owner, fields, phys, i).None? <==> FieldAccepted(fields, phys, i)
  {
  }

  lemma {:induction false} FieldErrorsEmptyIff(owner: RustType, fields: seq<FieldDecl>, phys: seq<Field>, k: nat)
    requires owner.StructT? && owner.fields == fields && k <= |fields|
    ensures FieldErrors(owner, fields, phys, k) == [] <==>
      forall i :: k <= i < |fields| ==> FieldAccepted(fields, phys, i)
    decreases |fields| - k
  {
    if k < |fields| {
      FieldErrorNoneIff(owner, fields, phys, k);
      FieldErrorsEmptyIff(owner, fields, phys, k + 1);
    }
  }

  /**
   * A derived structure is accepted exactly when the column is a struct whose
   * first fields pair up, by position, with the declared ones; extra physical
   * fields are never reported.
   */
  lemma StructCheckIff(name: string, fields: seq<FieldDecl>, d: DataType)
    ensures CheckDatatype(StructT(name, fields), d).Success? <==>
      d.Struct? && |fields| <= |d.fields| && forall i :: 0 <= i < |fields| ==> FieldAccepted(fields, d.fields, i)
  {
    if d.Struct? {
      FieldErrorsEmptyIff(StructT(name, fields), fields, d.fields, 0);
      if |fields| > |d.fields| {
        assert !FieldAccepted(fields, d.fields, |d.fields|);
      }
    }
  }

  /**
   * Errors are collected rather than the first one returned: every rejected
   * field contributes its message, and every message comes from a rejected
   * field, so at most one message per declared field.
   */
  lemma {:induction false} FieldErrorsCollected(owner: RustType, fields: seq<FieldDecl>, phys: seq<Field>, k: nat)
    requires owner.StructT? && owner.fields == fields && k <= |fields|
    ensures |FieldErrors(owner, fields, phys, k)| <= |fields| - k
    ensures forall i :: k <= i < |fields| && FieldError(owner, fields, phys, i).Some? ==>
      FieldError(owner, fields, phys, i).value in FieldErrors(owner, fields, phys, k)
    ensures forall e :: e in FieldErrors(owner, fields, phys, k) ==>
      exists i :: k <= i < |fields| && FieldError(owner, fields, phys, i) == Some(e)
    decreases |fields| - k
  {
    if k < |fields| {
      FieldErrorsCollected(owner, fields, phys, k + 1);
      var here := FieldError(owner, fields, phys, k);
      var rest := FieldErrors(owner, fields, phys, k + 1);
      assert FieldErrors(owner, fields, phys, k) == (if here.Some? then [here.value] else []) + rest;
      forall e | e in FieldErrors(owner, fields, phys, k)
        ensures exists i :: k <= i < |fields| && FieldError(owner, fields, phys, i) == Some(e)
      {
        if e !in rest {
          assert FieldError(owner, fields, phys, k) == Some(e);
        }
      }
      assert forall e :: e in FieldErrors(owner, fields, phys, k) ==>
        exists i :: k <= i < |fields| && FieldError(owner, fields, phys, i) == Some(e);
    } else {
      assert FieldErrors(owner, fields, phys, k) == [];
    }
  }

  /** A derived structure rejects every column that is not a struct. */
  lemma StructRejectsNonStruct(name: string, fields: seq<FieldDecl>, d: DataType)
    requires !d.Struct?
    ensures CheckDatatype(StructT(name, fields), d) ==
      Failure(name + " must be decoded from DataType::Struct, not " + DebugName(d))
  {
  }

  /** The crate's own checker tests: accepted column types. */
  lemma CheckerAcceptExamples()
    ensures CheckDatatype(I64T, Int64) == Success(())
    ensures CheckDatatype(TimestampT, Arrow.Timestamp(Nanosecond, None)) == Success(())
    ensures CheckDatatype(StringT, Utf8) == Success(())
    ensures CheckDatatype(StringT, LargeUtf8) == Success(())
    ensures CheckDatatype(BoxBytesT, Binary) == Success(())
    ensures CheckDatatype(BoxBytesT, LargeBinary) == Success(())
  {
    AcceptsI64();
    AcceptsNanosecondTimestamp();
    AcceptsUtf8();
    AcceptsLargeUtf8();
    AcceptsBinary();
    AcceptsLargeBinary();
  }

  lemma AcceptsI64()
    ensures CheckDatatype(I64T, Int64) == Success(())
  {
  }

  lemma AcceptsNanosecondTimestamp()
    ensures CheckDatatype(TimestampT, Arrow.Timestamp(Nanosecond, None)) == Success(())
  {
  }

  lemma AcceptsUtf8()
    ensures CheckDatatype(StringT, Utf8) == Success(())
  {
  }

  lemma AcceptsBinary()
    ensures CheckDatatype(BoxBytesT, Binary) == Success(())
  {
  }

  lemma AcceptsLargeUtf8()
    ensures CheckDatatype(StringT, LargeUtf8) == Success(())
  {
  }

  lemma AcceptsLargeBinary()
    ensures CheckDatatype(BoxBytesT, LargeBinary) == Success(())
  {
  }

  /** The crate's own checker tests: the message for `i64` read from `Utf8`. */
  lemma CheckerRejectI64Example()
    ensures CheckDatatype(I64T, Utf8) ==
      Failure("i64" + " must be decoded from Arrow " + "Int64" + ", not Arrow " + "Utf8")
  {
    CheckScalarIff(I64T, Utf8);
    assert AllowedTypes(I64T) == [Int64];
    assert DebugNames([Int64]) == ["Int64"];
    assert Join(["Int64"], "/") == "Int64";
    assert DebugName(Utf8) == "Utf8";
  }

  /** The crate's own checker tests: the message for `String` read from `Binary`. */
  lemma CheckerRejectStringExample()
    ensures CheckDatatype(StringT, Binary) ==
      Failure("String" + " must be decoded from Arrow " + "Utf8/LargeUtf8" + ", not Arrow " + "Binary")
  {
    StringAllowedNames();
    assert DebugName(Binary) == "Binary";
  }

  /** The expected types of `String`, as its error message lists them. */
  lemma StringAllowedNames()
    ensures Join(DebugNames(AllowedTypes(StringT)), "/") == "Utf8/LargeUtf8"
  {
    assert AllowedTypes(StringT) == [Utf8, LargeUtf8];
    assert DebugNames([Utf8, LargeUtf8]) == ["Utf8", "LargeUtf8"];
    assert Join(["LargeUtf8"], "/") == "LargeUtf8";
  }

  lemma {:induction false} IndentAppend(a: string, b: string)
    ensures Indent(a + b) == Indent(a) + Indent(b)
    decreases |a|
  {
    if a != [] {
      assert (a + b)[0] == a[0] && (a + b)[1..] == a[1..] + b;
      IndentAppend(a[1..], b);
    } else {
      assert a + b == b;
    }
  }

  lemma {:induction false} IndentWithoutNewline(s: string)
    requires '\n' !in s
    ensures Indent(s) == s
    decreases |s|
  {
    if s != [] {
      assert s[0] in s;
      assert forall c :: c in s[1..] ==> c in s;
      IndentWithoutNewline(s[1..]);
      assert [s[0]] + s[1..] == s;
    }
  }

  /** Two single-line errors are laid out on two tab-indented lines. */
  lemma TwoErrorLayout(name: string, e1: string, e2: string)
    requires '\n' !in e1 && '\n' !in e2
    ensures StructFailure(name, [e1, e2]) == name + " cannot be decoded:\n\t" + e1 + "\n\t" + e2
  {
    assert Join([e1, e2], "\n") == e1 + "\n" + e2 by {
      assert [e1, e2][1..] == [e2];
    }
    calc {
      Indent(e1 + "\n" + e2);
      { assert e1 + "\n" + e2 == e1 + ("\n" + e2); IndentAppend(e1, "\n" + e2); }
      Indent(e1) + Indent("\n" + e2);
      { IndentAppend("\n", e2); }
      Indent(e1) + (Indent("\n") + Indent(e2));
      { IndentWithoutNewline(e1); IndentWithoutNewline(e2); assert Indent("\n") == "\n\t"; }
      e1 + ("\n\t" + e2);
    }
  }

  /** The structure with `string1` and `bytes1` swapped relative to the file. */
  const IncorrectOrder: RustType :=
    StructT("Test1IncorrectOrder", [FieldDecl("long1", OptionT(I64T)), FieldDecl("string1", OptionT(StringT)),
                                    FieldDecl("bytes1", OptionT(BoxBytesT))])
  const Test1Projection: DataType :=
    Struct([Field("long1", Int64, true), Field("bytes1", Binary, true), Field("string1", Utf8, true)])

  const SwappedError1: string := "Field #" + "1" + " must be called " + "string1" + ", not " + "bytes1"
  const SwappedError2: string := "Field #" + "2" + " must be called " + "bytes1" + ", not " + "string1"

  lemma SwappedFieldErrors()
    ensures FieldErrors(IncorrectOrder, IncorrectOrder.fields, Test1Projection.fields, 0)
      == [SwappedError1, SwappedError2]
  {
    var fields := IncorrectOrder.fields;
    var phys := Test1Projection.fields;
    assert FieldError(IncorrectOrder, fields, phys, 0) == None by {
      CheckScalarIff(I64T, Int64);
    }
    assert FieldError(IncorrectOrder, fields, phys, 1) == Some(SwappedError1) by {
      assert NatToString(1) == "1";
    }
    assert FieldError(IncorrectOrder, fields, phys, 2) == Some(SwappedError2) by {
      assert NatToString(2) == "2";
    }
    assert FieldErrors(IncorrectOrder, fields, phys, 3) == [];
  }

  /**
   * Swapped fields yield two name errors and no type error; by
   * `TwoErrorLayout` they are printed on two tab-indented lines.
   */
  lemma SwappedFieldsExample()
    ensures CheckDatatype(IncorrectOrder, Test1Projection) ==
      Failure(StructFailure("Test1IncorrectOrder", [SwappedError1, SwappedError2]))
  {
    SwappedFieldErrors();
  }

  // ----- properties of the column listing -----

  /** Scalars, and lists or options of them, contain no structure. */
  predicate NoStructure(t: RustType) {
    match t
    case VecT(item) => NoStructure(item)
    case OptionT(inner) => NoStructure(inner)
    case StructT(_, _) => false
    case _ => true
  }

  /** A type without a structure occupies exactly one column, named by the prefix. */
  lemma {:induction false} SingleColumn(t: RustType, prefix: string)
    requires NoStructure(t)
    ensures ColumnsWithPrefix(t, prefix) == [prefix]
  {
    match t
    case VecT(item) => SingleColumn(item, prefix);
    case OptionT(inner) => SingleColumn(inner, prefix);
    case _ =>
  }

  /**
   * Under a non-empty prefix every listed column is the prefix itself or
   * starts with the prefix followed by a dot.
   */
  lemma {:induction false} ColumnsUnderPrefix(t: RustType, prefix: string)
    requires prefix != ""
    ensures forall c :: c in ColumnsWithPrefix(t, prefix) ==> c == prefix || prefix + "." <= c
    decreases t, 1
  {
    match t
    case VecT(item) => ColumnsUnderPrefix(item, prefix);
    case OptionT(inner) => ColumnsUnderPrefix(inner, prefix);
    case StructT(_, fields) => FieldColumnsUnderPrefix(t, fields, prefix, 0);
    case _ =>
  }

  lemma {:induction false} FieldColumnsUnderPrefix(owner: RustType, fields: seq<FieldDecl>, prefix: string, i: nat)
    requires owner.StructT? && owner.fields == fields && i <= |fields|
    requires prefix != ""
    ensures forall c :: c in FieldColumns(owner, fields, prefix, i) ==> prefix + "." <= c
    decreases owner, 0, |fields| - i
  {
    if i < |fields| {
      assert fields[i] in owner.fields;
      var q := Dotted(prefix, fields[i].name);
      assert q == (prefix + ".") + fields[i].name;
      ColumnsUnderPrefix(fields[i].ty, q);
      FieldColumnsUnderPrefix(owner, fields, prefix, i + 1);
      forall c | c in ColumnsWithPrefix(fields[i].ty, q) ensures prefix + "." <= c {
        assert prefix + "." <= q;
        if c != q {
          assert q <= q + "." <= c;
        }
      }
    }
  }

  /** A structure of unstructured fields lists one column per field, in declaration order. */
  lemma {:induction false} FlatStructColumns(name: string, fields: seq<FieldDecl>, prefix: string)
    requires forall i :: 0 <= i < |fields| ==> NoStructure(fields[i].ty)
    ensures ColumnsWithPrefix(StructT(name, fields), prefix)
      == seq(|fields|, i requires 0 <= i < |fields| => Dotted(prefix, fields[i].name))
  {
    FlatFieldColumns(StructT(name, fields), fields, prefix, 0);
  }

  lemma {:induction false} FlatFieldColumns(owner: RustType, fields: seq<FieldDecl>, prefix: string, k: nat)
    requires owner.StructT? && owner.fields == fields && k <= |fields|
    requires forall i :: 0 <= i < |fields| ==> NoStructure(fields[i].ty)
    ensures FieldColumns(owner, fields, prefix, k)
      == seq(|fields| - k, i requires 0 <= i < |fields| - k => Dotted(prefix, fields[k + i].name))
    decreases |fields| - k
  {
    if k < |fields| {
      SingleColumn(fields[k].ty, Dotted(prefix, fields[k].name));
      FlatFieldColumns(owner, fields, prefix, k + 1);
    }
  }

  /** The nested structure of the code generator's test. */
  const CodegenInner: RustType := StructT("Inner", [FieldDecl("ghi", I64T), FieldDecl("jkl", VecT(I32T))])
  const CodegenTest: RustType :=
    StructT("Test", [FieldDecl("abc", StringT), FieldDecl("def", CodegenInner), FieldDecl("def2", VecT(CodegenInner))])

  lemma CodegenInnerColumns(prefix: string)
    ensures ColumnsWithPrefix(CodegenInner, prefix) == [Dotted(prefix, "ghi"), Dotted(prefix, "jkl")]
  {
    FlatStructColumns("Inner", CodegenInner.fields, prefix);
  }

  /** The last field, a vector of `Inner`, lists `Inner`'s columns under `def2`. */
  lemma CodegenListFieldColumns()
    ensures FieldColumns(CodegenTest, CodegenTest.fields, "", 2) == ["def2.ghi", "def2.jkl"]
  {
    CodegenInnerColumns("def2");
    assert Dotted("def2", "ghi") == "def2.ghi" && Dotted("def2", "jkl") == "def2.jkl";
  }

  /** The nested field lists `Inner`'s columns under `def`, before the last field's. */
  lemma CodegenNestedFieldColumns()
    ensures FieldColumns(CodegenTest, CodegenTest.fields, "", 1) == ["def.ghi", "def.jkl", "def2.ghi", "def2.jkl"]
  {
    CodegenListFieldColumns();
    CodegenInnerColumns("def");
    assert Dotted("def", "ghi") == "def.ghi" && Dotted("def", "jkl") == "def.jkl";
  }

  /** Nested and list-of-structure fields contribute their own dotted columns. */
  lemma CodegenColumnsExample()
    ensures Columns(CodegenTest) == ["abc", "def.ghi", "def.jkl", "def2.ghi", "def2.jkl"]
  {
    CodegenNestedFieldColumns();
    assert Dotted("", "abc") == "abc";
    assert ColumnsWithPrefix(StringT, "abc") == ["abc"];
    assert FieldColumns(CodegenTest, CodegenTest.fields, "", 0) == ["abc", "def.ghi", "def.jkl", "def2.ghi", "def2.jkl"];
  }
}
