/**
 * `columntree_to_json_rows`: the dynamic consumer that turns a column tree,
 * read without a compile-time record type, into one JSON value per row.
 * Scalar columns map each nullable value; a structure builds one object per
 * non-null row and interleaves nulls from its `not_null` bytes; lists and maps
 * split a flat stream of decoded children at the offsets of a stream of
 * nullable offsets.
 */
module ToJson {
  import opened Wrappers
  import Arrow

  /** A JSON value. Object entries keep their insertion order. */
  datatype Json =
    | JNull
    | JBool(b: bool)
    | JNumber(n: int)
    | JFloat(bits: bv64)
    | JString(utf8: seq<Arrow.byte>)
    | JArray(items: seq<Json>)
    | JObject(entries: seq<Entry>)

  datatype Entry = Entry(key: string, value: Json)

  /**
   * `ColumnTree`: the column of every arm the function matches. An offsets
   * stream yields `Some(start)` for each non-null list and `None` for a null
   * one; the end of the sequence is the end of the stream.
   */
  datatype ColumnTree =
    | Boolean(bytes: seq<Option<Arrow.byte>>)
    | Byte(ints: seq<Option<int>>)
    | Short(ints: seq<Option<int>>)
    | Int(ints: seq<Option<int>>)
    | Long(ints: seq<Option<int>>)
    | Float(floats: seq<Option<bv64>>)
    | Double(floats: seq<Option<bv64>>)
    | String(strings: seq<Option<seq<Arrow.byte>>>)
    | Binary(blobs: seq<Option<seq<Arrow.byte>>>)
    | Struct(notNull: Option<seq<Arrow.byte>>, numElements: nat, elements: seq<NamedTree>)
    | List(offsets: seq<Option<nat>>, items: ColumnTree)
    | Map(offsets: seq<Option<nat>>, keys: ColumnTree, values: ColumnTree)
    /** Any arm the function does not handle (`todo!`). */
    | Unsupported

  datatype NamedTree = NamedTree(name: string, tree: ColumnTree)

  const AssertEqFailed: string := "assertion `left == right` failed"
  const TooShort: string := "Struct field vector unexpectedly too short"
  const TooLong: string := "Struct field vector unexpectedly too long"
  const UnwrapNone: string := "called `Option::unwrap()` on a `None` value"
  const NotImplemented: string := "not yet implemented"

  /** The panics `columntree_to_json_rows` can raise. */
  predicate SourcePanic(message: string) {
    message == AssertEqFailed || message == TooShort || message == TooLong
    || message == UnwrapNone || message == NotImplemented
  }

  // ----- scalar arms -----

  /** `map_nullable_json_values`: one value per row, `Null` for `None` and `f(v)` for `Some(v)`. */
  function MapNullable<V>(column: seq<Option<V>>, f: V -> Json): (r: seq<Json>)
    ensures |r| == |column|
    ensures forall i :: 0 <= i < |column| ==> r[i] == if column[i].None? then JNull else f(column[i].value)
  {
    if column == [] then []
    else [if column[0].None? then JNull else f(column[0].value)] + MapNullable(column[1..], f)
  }

  /** A binary value: an array of its bytes as numbers. */
  function BytesJson(bytes: seq<Arrow.byte>): (r: Json)
    ensures r.JArray? && |r.items| == |bytes|
    ensures forall i :: 0 <= i < |bytes| ==> r.items[i].JNumber? && 0 <= r.items[i].n < 256 && r.items[i].n == bytes[i] as int
  {
    JArray(seq(|bytes|, i requires 0 <= i < |bytes| => JNumber(bytes[i] as int)))
  }

  // ----- objects -----

  /** `Object::insert`: replaces the value of an existing key in place, else appends the entry. */
  function Insert(obj: seq<Entry>, key: string, value: Json): (r: seq<Entry>)
    ensures |obj| <= |r| <= |obj| + 1
  {
    if obj == [] then [Entry(key, value)]
    else if obj[0].key == key then [Entry(key, value)] + obj[1..]
    else [obj[0]] + Insert(obj[1..], key, value)
  }

  /** `(0..n).map(|_| Object::with_capacity(num_fields))`: `n` empty objects. */
  function EmptyObjects(n: nat): (r: seq<seq<Entry>>)
    ensures |r| == n && forall i :: 0 <= i < n ==> r[i] == []
  {
    seq(n, _ => [])
  }

  /** `for (subvalue, object) in zip(rows, objects.iter_mut()) { object.insert(name, subvalue) }` */
  function InsertColumn(objects: seq<seq<Entry>>, name: string, rows: seq<Json>): (r: seq<seq<Entry>>)
    ensures |r| == |objects|
  {
    seq(|objects|, i requires 0 <= i < |objects| => if i < |rows| then Insert(objects[i], name, rows[i]) else objects[i])
  }

  /** The number of non-zero bytes of a `not_null` buffer: the number of non-null structures. */
  function NonZero(bits: seq<Arrow.byte>): nat {
    if bits == [] then 0 else NonZero(bits[..|bits| - 1]) + (if bits[|bits| - 1] != 0 then 1 else 0)
  }

  /**
   * The loop over `not_null` from byte `i` on: a zero byte pushes `Null`, a
   * non-zero byte the next object (a panic when there is none), and objects
   * left after the last byte are a panic.
   */
  function InterleaveFrom(bits: seq<Arrow.byte>, objects: seq<seq<Entry>>, i: nat, used: nat, acc: seq<Json>)
    : (r: Result<seq<Json>, string>)
    requires i <= |bits| && used <= |objects|
    ensures r.Failure? ==> r.error == TooLong || r.error == TooShort
    decreases |bits| - i
  {
    if i == |bits| then
      if used < |objects| then Failure(TooLong) else Success(acc)
    else if bits[i] == 0 then InterleaveFrom(bits, objects, i + 1, used, acc + [JNull])
    else if used == |objects| then Failure(TooShort)
    else InterleaveFrom(bits, objects, i + 1, used + 1, acc + [JObject(objects[used])])
  }

  // ----- list and map splitting -----

  /**
   * The state of the splitting loops: the lists pushed so far (`None` for a
   * null list), the index at which the next list starts, and the offsets not
   * pulled yet.
   */
  datatype Splitter = Splitter(arrays: seq<Option<seq<Json>>>, nextSplit: Option<nat>, offsets: seq<Option<nat>>)

  /**
   * The first `loop`: leading null offsets push `Null` rows; the first
   * non-null offset becomes the first split; the end of the offsets ends it.
   */
  function Leading(s: Splitter): (r: Splitter)
    requires s.nextSplit.None?
    ensures |r.offsets| <= |s.offsets|
    ensures r.nextSplit.None? ==> r.offsets == []
    decreases |s.offsets|
  {
    if s.offsets == [] then s
    else if s.offsets[0].None? then Leading(s.(arrays := s.arrays + [None], offsets := s.offsets[1..]))
    else s.(nextSplit := Some(s.offsets[0].value), offsets := s.offsets[1..])
  }

  /**
   * `while Some(i) == next_split`: the end of the offsets opens the last list,
   * a null offset pushes `Null`, a split `j` opens a list that ends at `j`.
   */
  function PullSplits(s: Splitter, i: nat): (r: Splitter)
    ensures |r.offsets| <= |s.offsets|
    decreases |s.offsets|, if s.nextSplit == Some(i) then 1 else 0
  {
    if s.nextSplit != Some(i) then s
    else if s.offsets == [] then s.(arrays := s.arrays + [Some([])], nextSplit := None)
    else if s.offsets[0].None? then PullSplits(s.(arrays := s.arrays + [None], offsets := s.offsets[1..]), i)
    else PullSplits(Splitter(s.arrays + [Some([])], Some(s.offsets[0].value), s.offsets[1..]), i)
  }

  /** `arrays.last_mut().unwrap().as_mut().unwrap().push(value)`: a panic unless the last list is open. */
  function Push(s: Splitter, v: Json): (r: Result<Splitter, string>)
    ensures r.Failure? ==> r.error == UnwrapNone
    ensures r.Success? ==> |r.value.arrays| == |s.arrays| && r.value.nextSplit == s.nextSplit && r.value.offsets == s.offsets
  {
    if s.arrays == [] || s.arrays[|s.arrays| - 1].None? then Failure(UnwrapNone)
    else
      var last := |s.arrays| - 1;
      Success(s.(arrays := s.arrays[..last] + [Some(s.arrays[last].value + [v])]))
  }

  /** The `for (i, value)` loop from value `i` on. */
  function Feed(s: Splitter, values: seq<Json>, i: nat): (r: Result<Splitter, string>)
    ensures r.Failure? ==> r.error == UnwrapNone
    decreases |values| - i
  {
    if i >= |values| then Success(s)
    else
      var p := Push(PullSplits(s, i), values[i]);
      if p.Failure? then p else Feed(p.value, values, i + 1)
  }

  /**
   * "Fill nulls at the end": while a split is pending, push `Null` and pull
   * the next offset; a null offset or the end of the offsets stops it.
   */
  function Fill(s: Splitter): (r: seq<Option<seq<Json>>>)
    ensures |s.arrays| <= |r|
    decreases |s.offsets|, if s.nextSplit.Some? then 1 else 0
  {
    if s.nextSplit.None? then s.arrays
    else if s.offsets == [] then Fill(Splitter(s.arrays + [None], None, []))
    else Fill(Splitter(s.arrays + [None], s.offsets[0], s.offsets[1..]))
  }

  /** The final `map`: a list becomes an array, a null list `Null`. */
  function Rendered(arrays: seq<Option<seq<Json>>>): (r: seq<Json>)
    ensures |r| == |arrays|
  {
    seq(|arrays|, i requires 0 <= i < |arrays| => if arrays[i].Some? then JArray(arrays[i].value) else JNull)
  }

  /** The List arm once its elements are decoded (and the Map arm once its entries are zipped). */
  function SplitRows(offsets: seq<Option<nat>>, values: seq<Json>): (r: Result<seq<Json>, string>)
    ensures r.Failure? ==> r.error == UnwrapNone
  {
    var fed := Feed(Leading(Splitter([], None, offsets)), values, 0);
    if fed.Failure? then Failure(fed.error) else Success(Rendered(Fill(fed.value)))
  }

  /** A map entry: an object with exactly the keys `key` and `value`, in that order. */
  function EntryObject(key: Json, value: Json): Json {
    JObject([Entry("key", key), Entry("value", value)])
  }

  /** `zip(keys, values)`, each pair made an entry object. */
  function Entries(keys: seq<Json>, values: seq<Json>): (r: seq<Json>)
    ensures |r| == if |keys| <= |values| then |keys| else |values|
  {
    var n := if |keys| <= |values| then |keys| else |values|;
    seq(n, i requires 0 <= i < n => EntryObject(keys[i], values[i]))
  }

  // ----- the whole function -----

  /** `columntree_to_json_rows(tree)`: the rows, or the message of the panic that aborts it. */
  function ToJsonRows(tree: ColumnTree): (r: Result<seq<Json>, string>)
    ensures r.Failure? ==> SourcePanic(r.error)
    decreases tree, 2, 0
  {
    match tree
    case Boolean(bytes) => Success(MapNullable(bytes, (b: Arrow.byte) => JBool(b != 0)))
    case Byte(_) | Short(_) | Int(_) | Long(_) => Success(MapNullable(tree.ints, (n: int) => JNumber(n)))
    case Float(_) | Double(_) => Success(MapNullable(tree.floats, (x: bv64) => JFloat(x)))
    case String(strings) => Success(MapNullable(strings, (s: seq<Arrow.byte>) => JString(s)))
    case Binary(blobs) => Success(MapNullable(blobs, BytesJson))
    case Struct(_, _, _) => StructRows(tree)
    case List(offsets, items) =>
      var values := ToJsonRows(items);
      if values.Failure? then values else SplitRows(offsets, values.value)
    case Map(offsets, keys, values) =>
      var ks := ToJsonRows(keys);
      if ks.Failure? then ks
      else
        var vs := ToJsonRows(values);
        if vs.Failure? then vs else SplitRows(offsets, Entries(ks.value, vs.value))
    case Unsupported => Failure(NotImplemented)
  }

  /** The Struct arm. */
  function StructRows(tree: ColumnTree): (r: Result<seq<Json>, string>)
    requires tree.Struct?
    ensures r.Failure? ==> SourcePanic(r.error)
    decreases tree, 1, 0
  {
    if tree.notNull.Some? && tree.numElements != |tree.notNull.value| then Failure(AssertEqFailed)
    else
      var count := if tree.notNull.None? then tree.numElements else NonZero(tree.notNull.value);
      var filled := FillFields(tree, EmptyObjects(count), 0);
      if filled.Failure? then Failure(filled.error)
      else if tree.notNull.None? then Success(seq(|filled.value|, i requires 0 <= i < |filled.value| => JObject(filled.value[i])))
      else InterleaveFrom(tree.notNull.value, filled.value, 0, 0, [])
  }

  /** The loop over the fields from field `k` on: each subtree's rows are inserted into the objects. */
  function FillFields(owner: ColumnTree, objects: seq<seq<Entry>>, k: nat): (r: Result<seq<seq<Entry>>, string>)
    requires owner.Struct? && k <= |owner.elements|
    ensures r.Success? ==> |r.value| == |objects|
    ensures r.Failure? ==> SourcePanic(r.error)
    decreases owner, 0, |owner.elements| - k
  {
    if k == |owner.elements| then Success(objects)
    else
      assert owner.elements[k] in owner.elements;
      var rows := ToJsonRows(owner.elements[k].tree);
      if rows.Failure? then Failure(rows.error)
      else FillFields(owner, InsertColumn(objects, owner.elements[k].name, rows.value), k + 1)
  }

  // ----- the loops -----

  /** `columntree_to_json_rows`, with the Struct, List and Map arms run as the source's loops. */
  method ColumnTreeToJsonRows(tree: ColumnTree) returns (r: Result<seq<Json>, string>)
    ensures r == ToJsonRows(tree)
    decreases tree, 1
  {
    match tree {
      case Struct(_, _, _) =>
        r := StructArm(tree);
      case List(offsets, items) =>
        var values := ColumnTreeToJsonRows(items);
        if values.Failure? {
          return values;
        }
        r := SplitArm(offsets, values.value);
      case Map(offsets, keys, values) =>
        var ks := ColumnTreeToJsonRows(keys);
        if ks.Failure? {
          return ks;
        }
        var vs := ColumnTreeToJsonRows(values);
        if vs.Failure? {
          return vs;
        }
        r := SplitArm(offsets, Entries(ks.value, vs.value));
      case _ =>
        r := ToJsonRows(tree);
    }
  }

  /** The Struct arm: objects filled field by field in place, then nulls interleaved. */
  method StructArm(tree: ColumnTree) returns (r: Result<seq<Json>, string>)
    requires tree.Struct?
    ensures r == StructRows(tree)
    decreases tree, 0
  {
    if tree.notNull.Some? && tree.numElements != |tree.notNull.value| {
      return Failure(AssertEqFailed);
    }
    var count := if tree.notNull.None? then tree.numElements else NonZero(tree.notNull.value);
    var objects := new seq<Entry>[count](_ => []);
    ghost var start := objects[..];
    assert start == EmptyObjects(count);
    var k := 0;
    while k < |tree.elements|
      invariant 0 <= k <= |tree.elements| && objects.Length == count
      invariant FillFields(tree, start, 0) == FillFields(tree, objects[..], k)
    {
      assert tree.elements[k] in tree.elements;
      var rows := ColumnTreeToJsonRows(tree.elements[k].tree);
      if rows.Failure? {
        return Failure(rows.error);
      }
      InsertColumnInPlace(objects, tree.elements[k].name, rows.value);
      k := k + 1;
    }
    var filled := objects[..];
    if tree.notNull.None? {
      return Success(seq(|filled|, i requires 0 <= i < |filled| => JObject(filled[i])));
    }
    r := InterleaveNulls(tree.notNull.value, filled);
  }

  /** `object.insert(name, subvalue)` on each object zipped with a field's rows. */
  method InsertColumnInPlace(objects: array<seq<Entry>>, name: string, rows: seq<Json>)
    modifies objects
    ensures objects[..] == InsertColumn(old(objects[..]), name, rows)
  {
    ghost var before := objects[..];
    var i := 0;
    while i < objects.Length && i < |rows|
      invariant 0 <= i <= objects.Length && i <= |rows|
      invariant forall j :: 0 <= j < i ==> objects[j] == Insert(before[j], name, rows[j])
      invariant forall j :: i <= j < objects.Length ==> objects[j] == before[j]
    {
      objects[i] := Insert(objects[i], name, rows[i]);
      i := i + 1;
    }
  }

  /** The loop over `not_null`: `Null` for a zero byte, the next object otherwise, and a panic when the objects run out or are left over. */
  method InterleaveNulls(bits: seq<Arrow.byte>, objects: seq<seq<Entry>>) returns (r: Result<seq<Json>, string>)
    ensures r == InterleaveFrom(bits, objects, 0, 0, [])
  {
    var values: seq<Json> := [];
    var used := 0;
    var i := 0;
    while i < |bits|
      invariant 0 <= i <= |bits| && 0 <= used <= |objects|
      invariant InterleaveFrom(bits, objects, 0, 0, []) == InterleaveFrom(bits, objects, i, used, values)
    {
      if bits[i] == 0 {
        values := values + [JNull];
      } else {
        if used == |objects| {
          return Failure(TooShort);
        }
        values := values + [JObject(objects[used])];
        used := used + 1;
      }
      i := i + 1;
    }
    if used < |objects| {
      return Failure(TooLong);
    }
    r := Success(values);
  }

  /** The splitting loops of the List and Map arms. */
  method SplitArm(offsets: seq<Option<nat>>, values: seq<Json>) returns (r: Result<seq<Json>, string>)
    ensures r == SplitRows(offsets, values)
  {
    var arrays: seq<Option<seq<Json>>> := [];
    var nextSplit: Option<nat> := None;
    var rest := offsets;
    while rest != [] && rest[0].None?
      invariant Leading(Splitter([], None, offsets)) == Leading(Splitter(arrays, None, rest))
    {
      arrays := arrays + [None];
      rest := rest[1..];
    }
    if rest != [] {
      nextSplit := Some(rest[0].value);
      rest := rest[1..];
    }
    ghost var lead := Splitter(arrays, nextSplit, rest);
    assert lead == Leading(Splitter([], None, offsets));
    var i := 0;
    while i < |values|
      invariant 0 <= i <= |values|
      invariant Feed(lead, values, 0) == Feed(Splitter(arrays, nextSplit, rest), values, i)
    {
      ghost var before := Splitter(arrays, nextSplit, rest);
      while nextSplit == Some(i)
        invariant PullSplits(before, i) == PullSplits(Splitter(arrays, nextSplit, rest), i)
        decreases |rest|, if nextSplit == Some(i) then 1 else 0
      {
        if rest == [] {
          arrays := arrays + [Some([])];
          nextSplit := None;
        } else if rest[0].None? {
          arrays := arrays + [None];
          rest := rest[1..];
        } else {
          arrays := arrays + [Some([])];
          nextSplit := Some(rest[0].value);
          rest := rest[1..];
        }
      }
      if arrays == [] || arrays[|arrays| - 1].None? {
        return Failure(UnwrapNone);
      }
      var last := |arrays| - 1;
      arrays := arrays[..last] + [Some(arrays[last].value + [values[i]])];
      i := i + 1;
    }
    while nextSplit.Some?
      invariant Fill(Splitter(arrays, nextSplit, rest)) == Fill(Feed(lead, values, 0).value)
      decreases |rest|, if nextSplit.Some? then 1 else 0
    {
      arrays := arrays + [None];
      if rest == [] {
        nextSplit := None;
      } else {
        nextSplit := rest[0];
        rest := rest[1..];
      }
    }
    r := Success(Rendered(arrays));
  }

  // ----- properties: scalar arms -----

  /** A Boolean column: a byte is `true` iff it is non-zero, and a missing value is `Null`. */
  lemma BooleanRows(bytes: seq<Option<Arrow.byte>>)
    ensures ToJsonRows(Boolean(bytes)).Success?
    ensures |ToJsonRows(Boolean(bytes)).value| == |bytes|
    ensures forall i :: 0 <= i < |bytes| ==>
      ToJsonRows(Boolean(bytes)).value[i] == if bytes[i].None? then JNull else JBool(bytes[i].value != 0)
  {
  }

  // ----- properties: structures -----

  lemma NonZeroStep(bits: seq<Arrow.byte>, i: nat)
    requires i < |bits|
    ensures NonZero(bits[..i + 1]) == NonZero(bits[..i]) + (if bits[i] != 0 then 1 else 0)
  {
    assert bits[..i + 1][..i] == bits[..i];
  }

  lemma {:induction false} NonZeroPrefix(bits: seq<Arrow.byte>, i: nat)
    requires i <= |bits|
    ensures NonZero(bits[..i]) <= NonZero(bits)
    decreases |bits| - i
  {
    if i < |bits| {
      NonZeroStep(bits, i);
      NonZeroPrefix(bits, i + 1);
    } else {
      assert bits[..i] == bits;
    }
  }

  /**
   * The rows of a structure with `not_null` bytes, by position: `Null` for a
   * zero byte, else the object whose index is the number of non-zero bytes
   * before it.
   */
  function Interleaved(bits: seq<Arrow.byte>, objects: seq<seq<Entry>>): (r: seq<Json>)
    ensures |r| == |bits|
  {
    seq(|bits|, j requires 0 <= j < |bits| =>
      if bits[j] == 0 || NonZero(bits[..j]) >= |objects| then JNull else JObject(objects[NonZero(bits[..j])]))
  }

  /**
   * With exactly one object per non-zero byte, the loop from byte `i` never
   * panics and appends the rows from `i` on.
   */
  lemma {:induction false} InterleaveExact(bits: seq<Arrow.byte>, objects: seq<seq<Entry>>, i: nat, acc: seq<Json>)
    requires |objects| == NonZero(bits) && i <= |bits|
    ensures NonZero(bits[..i]) <= |objects|
    ensures InterleaveFrom(bits, objects, i, NonZero(bits[..i]), acc) == Success(acc + Interleaved(bits, objects)[i..])
    decreases |bits| - i
  {
    NonZeroPrefix(bits, i);
    if i == |bits| {
      assert bits[..i] == bits;
      assert acc + Interleaved(bits, objects)[i..] == acc;
    } else {
      NonZeroStep(bits, i);
      NonZeroPrefix(bits, i + 1);
      var x := Interleaved(bits, objects)[i];
      InterleaveExact(bits, objects, i + 1, acc + [x]);
      assert acc + [x] + Interleaved(bits, objects)[i + 1..] == acc + Interleaved(bits, objects)[i..];
    }
  }

  /** A non-zero byte always has its object: the objects are exactly as many as the non-zero bytes. */
  lemma InterleavedObjects(bits: seq<Arrow.byte>, objects: seq<seq<Entry>>, j: nat)
    requires |objects| == NonZero(bits) && j < |bits| && bits[j] != 0
    ensures NonZero(bits[..j]) < |objects| && Interleaved(bits, objects)[j] == JObject(objects[NonZero(bits[..j])])
  {
    NonZeroStep(bits, j);
    NonZeroPrefix(bits, j + 1);
  }

  /**
   * A structure with `not_null` bytes whose count matches: exactly one value
   * per byte, `Null` iff the byte is zero, the objects consumed in order; the
   * "too short" and "too long" panics cannot happen.
   */
  lemma StructWithNulls(tree: ColumnTree)
    requires tree.Struct? && tree.notNull.Some? && tree.numElements == |tree.notNull.value|
    requires FillFields(tree, EmptyObjects(NonZero(tree.notNull.value)), 0).Success?
    ensures StructRows(tree) == Success(Interleaved(tree.notNull.value, FillFields(tree, EmptyObjects(NonZero(tree.notNull.value)), 0).value))
    ensures forall j :: 0 <= j < |tree.notNull.value| ==>
      (StructRows(tree).value[j] == JNull <==> tree.notNull.value[j] == 0)
  {
    var bits := tree.notNull.value;
    var objects := FillFields(tree, EmptyObjects(NonZero(bits)), 0).value;
    InterleaveExact(bits, objects, 0, []);
    assert bits[..0] == [];
    assert [] + Interleaved(bits, objects)[0..] == Interleaved(bits, objects);
    forall j | 0 <= j < |bits| && bits[j] != 0
      ensures Interleaved(bits, objects)[j] != JNull
    {
      InterleavedObjects(bits, objects, j);
    }
  }

  /** `assert_eq!(num_elements, not_null.len())` fails on a mismatch. */
  lemma StructCountMismatch(tree: ColumnTree)
    requires tree.Struct? && tree.notNull.Some? && tree.numElements != |tree.notNull.value|
    ensures ToJsonRows(tree) == Failure(AssertEqFailed)
  {
  }

  /** Inserting a key the object does not have appends it. */
  lemma {:induction false} InsertFresh(obj: seq<Entry>, key: string, value: Json)
    requires forall j :: 0 <= j < |obj| ==> obj[j].key != key
    ensures Insert(obj, key, value) == obj + [Entry(key, value)]
    decreases |obj|
  {
    if obj != [] {
      InsertFresh(obj[1..], key, value);
      assert obj == [obj[0]] + obj[1..];
    }
  }

  /** The entries object `i` has once the first `k` fields are inserted. */
  function ObjectRow(owner: ColumnTree, rows: seq<seq<Json>>, i: nat, k: nat): (r: seq<Entry>)
    requires owner.Struct? && |rows| == |owner.elements| && k <= |rows|
    requires forall j :: 0 <= j < k ==> i < |rows[j]|
    ensures |r| == k
  {
    seq(k, j requires 0 <= j < k => Entry(owner.elements[j].name, rows[j][i]))
  }

  predicate DistinctNames(elements: seq<NamedTree>) {
    forall a, b :: 0 <= a < b < |elements| ==> elements[a].name != elements[b].name
  }

  lemma {:induction false} FillFieldsObjects(owner: ColumnTree, rows: seq<seq<Json>>, objects: seq<seq<Entry>>, k: nat)
    requires owner.Struct? && |rows| == |owner.elements| && k <= |rows| && DistinctNames(owner.elements)
    requires forall j :: 0 <= j < |rows| ==> ToJsonRows(owner.elements[j].tree) == Success(rows[j])
    requires forall j :: 0 <= j < |rows| ==> |objects| <= |rows[j]|
    requires forall i :: 0 <= i < |objects| ==> objects[i] == ObjectRow(owner, rows, i, k)
    ensures FillFields(owner, objects, k).Success?
    ensures forall i :: 0 <= i < |objects| ==> FillFields(owner, objects, k).value[i] == ObjectRow(owner, rows, i, |rows|)
    decreases |rows| - k
  {
    if k < |rows| {
      var next := InsertColumn(objects, owner.elements[k].name, rows[k]);
      InsertColumnRows(owner, rows, objects, k);
      FillFieldsStep(owner, objects, k, rows[k]);
      FillFieldsObjects(owner, rows, next, k + 1);
    }
  }

  /** Inserting field `k`'s column into the objects holding the first `k` fields gives the objects holding `k + 1`. */
  lemma InsertColumnRows(owner: ColumnTree, rows: seq<seq<Json>>, objects: seq<seq<Entry>>, k: nat)
    requires owner.Struct? && |rows| == |owner.elements| && k < |rows| && DistinctNames(owner.elements)
    requires forall j :: 0 <= j < |rows| ==> |objects| <= |rows[j]|
    requires forall i :: 0 <= i < |objects| ==> objects[i] == ObjectRow(owner, rows, i, k)
    ensures forall i :: 0 <= i < |objects| ==>
      InsertColumn(objects, owner.elements[k].name, rows[k])[i] == ObjectRow(owner, rows, i, k + 1)
  {
    var name := owner.elements[k].name;
    var next := InsertColumn(objects, name, rows[k]);
    forall i | 0 <= i < |objects|
      ensures next[i] == ObjectRow(owner, rows, i, k + 1)
    {
      assert next[i] == Insert(objects[i], name, rows[k][i]);
      ObjectRowStep(owner, rows, i, k);
    }
  }

  /** Field `k`, whose column renders to `column`, is inserted into every object before the later fields. */
  lemma FillFieldsStep(owner: ColumnTree, objects: seq<seq<Entry>>, k: nat, column: seq<Json>)
    requires owner.Struct? && k < |owner.elements| && ToJsonRows(owner.elements[k].tree) == Success(column)
    ensures FillFields(owner, objects, k) == FillFields(owner, InsertColumn(objects, owner.elements[k].name, column), k + 1)
  {
  }

  /** Inserting field `k` into object `i` after the first `k` fields appends it. */
  lemma ObjectRowStep(owner: ColumnTree, rows: seq<seq<Json>>, i: nat, k: nat)
    requires owner.Struct? && |rows| == |owner.elements| && k < |rows| && DistinctNames(owner.elements)
    requires forall j :: 0 <= j <= k ==> i < |rows[j]|
    ensures Insert(ObjectRow(owner, rows, i, k), owner.elements[k].name, rows[k][i]) == ObjectRow(owner, rows, i, k + 1)
  {
    var name := owner.elements[k].name;
    InsertFresh(ObjectRow(owner, rows, i, k), name, rows[k][i]);
    assert ObjectRow(owner, rows, i, k + 1) == ObjectRow(owner, rows, i, k) + [Entry(name, rows[k][i])];
  }

  /**
   * A structure without `not_null`: `num_elements` objects, object `i`
   * holding every field, in the order of the fields, with the field's row `i`
   * (when the field names are distinct and every field has enough rows).
   */
  lemma StructWithoutNulls(tree: ColumnTree, rows: seq<seq<Json>>)
    requires tree.Struct? && tree.notNull.None? && DistinctNames(tree.elements) && |rows| == |tree.elements|
    requires forall j :: 0 <= j < |rows| ==> ToJsonRows(tree.elements[j].tree) == Success(rows[j]) && tree.numElements <= |rows[j]|
    ensures StructRows(tree).Success? && |StructRows(tree).value| == tree.numElements
    ensures forall i :: 0 <= i < tree.numElements ==>
      StructRows(tree).value[i] == JObject(seq(|rows|, j requires 0 <= j < |rows| => Entry(tree.elements[j].name, rows[j][i])))
  {
    var start := EmptyObjects(tree.numElements);
    FillFieldsObjects(tree, rows, start, 0);
  }

  // ----- properties: lists and maps -----

  /** The pushes of the splitting loops only append rows or extend the last open list: a `Null` row stays `Null`. */
  predicate KeepsNulls(a: seq<Option<seq<Json>>>, b: seq<Option<seq<Json>>>) {
    |a| <= |b| && forall j :: 0 <= j < |a| && a[j].None? ==> b[j].None?
  }

  lemma {:induction false} PullSplitsKeepsNulls(s: Splitter, i: nat)
    ensures KeepsNulls(s.arrays, PullSplits(s, i).arrays)
    decreases |s.offsets|, if s.nextSplit == Some(i) then 1 else 0
  {
    if s.nextSplit == Some(i) && s.offsets != [] {
      if s.offsets[0].None? {
        PullSplitsKeepsNulls(s.(arrays := s.arrays + [None], offsets := s.offsets[1..]), i);
      } else {
        PullSplitsKeepsNulls(Splitter(s.arrays + [Some([])], Some(s.offsets[0].value), s.offsets[1..]), i);
      }
    }
  }

  lemma {:induction false} FeedKeepsNulls(s: Splitter, values: seq<Json>, i: nat)
    requires Feed(s, values, i).Success?
    ensures KeepsNulls(s.arrays, Feed(s, values, i).value.arrays)
    decreases |values| - i
  {
    if i < |values| {
      PullSplitsKeepsNulls(s, i);
      var p := Push(PullSplits(s, i), values[i]);
      FeedKeepsNulls(p.value, values, i + 1);
    }
  }

  lemma {:induction false} FillKeepsNulls(s: Splitter)
    ensures KeepsNulls(s.arrays, Fill(s))
    decreases |s.offsets|, if s.nextSplit.Some? then 1 else 0
  {
    if s.nextSplit.Some? {
      if s.offsets == [] {
        FillKeepsNulls(Splitter(s.arrays + [None], None, []));
      } else {
        FillKeepsNulls(Splitter(s.arrays + [None], s.offsets[0], s.offsets[1..]));
      }
    }
  }

  /** The first loop pushes one `Null` per leading null offset and takes the next offset as the first split. */
  lemma {:induction false} LeadingNullOffsets(arrays: seq<Option<seq<Json>>>, p: nat, first: nat, rest: seq<Option<nat>>)
    ensures Leading(Splitter(arrays, None, seq(p, _ => None) + [Some(first)] + rest)) ==
      Splitter(arrays + seq(p, _ => None), Some(first), rest)
    decreases p
  {
    var offsets: seq<Option<nat>> := seq(p, _ => None) + [Some(first)] + rest;
    if p > 0 {
      assert offsets[1..] == seq(p - 1, _ => None) + [Some(first)] + rest;
      LeadingNullOffsets(arrays + [None], p - 1, first, rest);
      assert arrays + [None] + seq(p - 1, _ => None) == arrays + seq(p, _ => None);
    } else {
      assert offsets[1..] == rest;
    }
  }

  /** Leading null offsets come out as `Null` rows before the first list. */
  lemma LeadingNullRows(offsets: seq<Option<nat>>, p: nat, first: nat, rest: seq<Option<nat>>, values: seq<Json>)
    requires offsets == seq(p, _ => None) + [Some(first)] + rest
    requires SplitRows(offsets, values).Success?
    ensures |SplitRows(offsets, values).value| >= p
    ensures forall j :: 0 <= j < p ==> SplitRows(offsets, values).value[j] == JNull
  {
    LeadingNullOffsets([], p, first, rest);
    var lead := Leading(Splitter([], None, offsets));
    assert lead.arrays == seq(p, _ => None);
    FeedKeepsNulls(lead, values, 0);
    FillKeepsNulls(Feed(lead, values, 0).value);
  }

  /**
   * Once the values are exhausted, a pending split pushes a `Null` row, and so
   * does each non-null offset after it; the first null offset or the end of
   * the offsets stops the filling.
   */
  lemma {:induction false} FillPending(arrays: seq<Option<seq<Json>>>, split: nat, q: nat, rest: seq<Option<nat>>)
    requires rest == [] || rest[0].None?
    ensures Fill(Splitter(arrays, Some(split), seq(q, _ => Some(split)) + rest)) == arrays + seq(q + 1, _ => None)
    decreases q
  {
    var offsets := seq(q, _ => Some(split)) + rest;
    if q > 0 {
      assert offsets[0] == Some(split);
      assert offsets[1..] == seq(q - 1, _ => Some(split)) + rest;
      FillPending(arrays + [None], split, q - 1, rest);
      assert arrays + [None] + seq(q, _ => None) == arrays + seq(q + 1, _ => None);
    } else if rest == [] {
      assert offsets == [];
    } else {
      assert offsets[0] == None;
      assert Fill(Splitter(arrays + [None], None, offsets[1..])) == arrays + [None];
    }
  }

  /** Every item of every list the split builds is one of the values. */
  predicate Within(arrays: seq<Option<seq<Json>>>, values: seq<Json>) {
    forall j, x :: 0 <= j < |arrays| && arrays[j].Some? && x in arrays[j].value ==> x in values
  }

  lemma {:induction false} PullSplitsWithin(s: Splitter, i: nat, values: seq<Json>)
    requires Within(s.arrays, values)
    ensures Within(PullSplits(s, i).arrays, values)
    decreases |s.offsets|, if s.nextSplit == Some(i) then 1 else 0
  {
    if s.nextSplit == Some(i) && s.offsets != [] {
      if s.offsets[0].None? {
        PullSplitsWithin(s.(arrays := s.arrays + [None], offsets := s.offsets[1..]), i, values);
      } else {
        PullSplitsWithin(Splitter(s.arrays + [Some([])], Some(s.offsets[0].value), s.offsets[1..]), i, values);
      }
    }
  }

  lemma {:induction false} FeedWithin(s: Splitter, values: seq<Json>, i: nat)
    requires Within(s.arrays, values) && Feed(s, values, i).Success?
    ensures Within(Feed(s, values, i).value.arrays, values)
    decreases |values| - i
  {
    if i < |values| {
      var pulled := PullSplits(s, i);
      PullSplitsWithin(s, i, values);
      var p := Push(pulled, values[i]);
      var last := |pulled.arrays| - 1;
      assert forall x :: x in pulled.arrays[last].value + [values[i]] ==> x in pulled.arrays[last].value || x == values[i];
      FeedWithin(p.value, values, i + 1);
    }
  }

  lemma {:induction false} FillWithin(s: Splitter, values: seq<Json>)
    requires Within(s.arrays, values)
    ensures Within(Fill(s), values)
    decreases |s.offsets|, if s.nextSplit.Some? then 1 else 0
  {
    if s.nextSplit.Some? {
      if s.offsets == [] {
        FillWithin(Splitter(s.arrays + [None], None, []), values);
      } else {
        FillWithin(Splitter(s.arrays + [None], s.offsets[0], s.offsets[1..]), values);
      }
    }
  }

  /** Every row of a split is `Null` or an array of some of the values. */
  lemma {:induction false} SplitRowsWithin(offsets: seq<Option<nat>>, values: seq<Json>)
    requires SplitRows(offsets, values).Success?
    ensures forall r :: r in SplitRows(offsets, values).value ==>
      r == JNull || (r.JArray? && forall x :: x in r.items ==> x in values)
  {
    var lead := Leading(Splitter([], None, offsets));
    LeadingWithin(Splitter([], None, offsets), values);
    FeedWithin(lead, values, 0);
    FillWithin(Feed(lead, values, 0).value, values);
  }

  lemma {:induction false} LeadingWithin(s: Splitter, values: seq<Json>)
    requires s.nextSplit.None? && Within(s.arrays, values)
    ensures Within(Leading(s).arrays, values)
    decreases |s.offsets|
  {
    if s.offsets != [] && s.offsets[0].None? {
      LeadingWithin(s.(arrays := s.arrays + [None], offsets := s.offsets[1..]), values);
    }
  }

  /** Every row of a map is `Null` or an array of objects with exactly the keys `key` and `value`. */
  lemma MapRowsAreEntries(tree: ColumnTree)
    requires tree.Map? && ToJsonRows(tree).Success?
    ensures forall r :: r in ToJsonRows(tree).value ==>
      r == JNull || (r.JArray? && forall x :: x in r.items ==>
        x.JObject? && |x.entries| == 2 && x.entries[0].key == "key" && x.entries[1].key == "value")
  {
    var ks := ToJsonRows(tree.keys).value;
    var vs := ToJsonRows(tree.values).value;
    SplitRowsWithin(tree.offsets, Entries(ks, vs));
  }

  // ----- properties: the list layout round trip -----

  /** The elements of consecutive lists, flattened: the child column of a list column. */
  function Concat(rows: seq<seq<Json>>): seq<Json> {
    if rows == [] then [] else Concat(rows[..|rows| - 1]) + rows[|rows| - 1]
  }

  /** The offsets stream of lists that are all present: the start of each list. */
  function Starts(rows: seq<seq<Json>>): (r: seq<Option<nat>>)
    ensures |r| == |rows|
  {
    seq(|rows|, k requires 0 <= k < |rows| => Some(|Concat(rows[..k])|))
  }

  /** Lists pushed as open lists. */
  function Opened(rows: seq<seq<Json>>): (r: seq<Option<seq<Json>>>)
    ensures |r| == |rows|
  {
    seq(|rows|, k requires 0 <= k < |rows| => Some(rows[k]))
  }

  lemma ConcatStep(rows: seq<seq<Json>>, k: nat)
    requires k < |rows|
    ensures Concat(rows[..k + 1]) == Concat(rows[..k]) + rows[k]
  {
    assert rows[..k + 1][..k] == rows[..k];
  }

  /** The lists before list `k` are a prefix of the flattened elements. */
  lemma {:induction false} ConcatPrefix(rows: seq<seq<Json>>, k: nat)
    requires k <= |rows|
    ensures |Concat(rows[..k])| <= |Concat(rows)| && Concat(rows)[..|Concat(rows[..k])|] == Concat(rows[..k])
    decreases |rows| - k
  {
    if k == |rows| {
      assert rows[..k] == rows;
    } else {
      ConcatStep(rows, k);
      ConcatPrefix(rows, k + 1);
      var a, b := Concat(rows[..k]), Concat(rows[..k + 1]);
      assert Concat(rows)[..|a|] == b[..|a|];
    }
  }

  /** List `k` is the slice of the flattened elements between its start and the next list's start. */
  lemma ConcatSlice(rows: seq<seq<Json>>, k: nat)
    requires k < |rows|
    ensures |Concat(rows[..k + 1])| == |Concat(rows[..k])| + |rows[k]| <= |Concat(rows)|
    ensures Concat(rows)[|Concat(rows[..k])|..|Concat(rows[..k + 1])|] == rows[k]
  {
    ConcatStep(rows, k);
    ConcatPrefix(rows, k + 1);
    var a, b := Concat(rows[..k]), Concat(rows[..k + 1]);
    assert Concat(rows)[|a|..|b|] == b[|a|..|b|];
  }

  /** A push appends to the last list when that list is open. */
  lemma PushOnto(arrays: seq<Option<seq<Json>>>, xs: seq<Json>, next: Option<nat>, offsets: seq<Option<nat>>, v: Json)
    ensures Push(Splitter(arrays + [Some(xs)], next, offsets), v) == Success(Splitter(arrays + [Some(xs + [v])], next, offsets))
    ensures xs == [] ==> Push(Splitter(arrays + [Some(xs)], next, offsets), v) == Success(Splitter(arrays + [Some([v])], next, offsets))
  {
    assert (arrays + [Some(xs)])[..|arrays|] == arrays;
    if xs == [] {
      assert xs + [v] == [v];
    }
  }

  /** Values strictly before the next split go into the last open list, one by one. */
  lemma {:induction false} FeedRun(arrays: seq<Option<seq<Json>>>, xs: seq<Json>, next: Option<nat>, offsets: seq<Option<nat>>,
                                   values: seq<Json>, i: nat, end: nat)
    requires i <= end <= |values|
    requires next.None? || next.value >= end
    ensures Feed(Splitter(arrays + [Some(xs)], next, offsets), values, i) ==
      Feed(Splitter(arrays + [Some(xs + values[i..end])], next, offsets), values, end)
    decreases end - i
  {
    if i == end {
      assert xs + values[i..end] == xs;
    } else {
      var s := Splitter(arrays + [Some(xs)], next, offsets);
      assert PullSplits(s, i) == s;
      PushOnto(arrays, xs, next, offsets, values[i]);
      FeedRun(arrays, xs + [values[i]], next, offsets, values, i + 1, end);
      assert xs + [values[i]] + values[i + 1..end] == xs + values[i..end];
    }
  }

  /** Before list `k` is opened: the earlier lists pushed, the split at its start, the later starts to pull. */
  function Before(rows: seq<seq<Json>>, k: nat): Splitter
    requires k < |rows|
  {
    Splitter(Opened(rows[..k]), Some(|Concat(rows[..k])|), Starts(rows)[k + 1..])
  }

  /** List `k` just opened (empty), with the split at the start of the next list pending, if any. */
  function Opening(rows: seq<seq<Json>>, k: nat): Splitter
    requires k < |rows|
  {
    var arrays := Opened(rows[..k]) + [Some([])];
    if k + 1 < |rows| then Splitter(arrays, Some(|Concat(rows[..k + 1])|), Starts(rows)[k + 2..])
    else Splitter(arrays, None, [])
  }

  /** At the start of a non-empty list, pulling splits opens that list and nothing else. */
  lemma PullAtStart(rows: seq<seq<Json>>, k: nat)
    requires k < |rows| && rows[k] != []
    ensures PullSplits(Before(rows, k), |Concat(rows[..k])|) == Opening(rows, k)
  {
    ConcatStep(rows, k);
    if k + 1 < |rows| {
      assert Starts(rows)[k + 1..][0] == Some(|Concat(rows[..k + 1])|);
      assert Starts(rows)[k + 1..][1..] == Starts(rows)[k + 2..];
    } else {
      assert Starts(rows)[k + 1..] == [];
    }
  }

  /** Feeding the elements of a non-empty list `k` from its start leaves it complete in the last slot. */
  lemma OpenList(rows: seq<seq<Json>>, k: nat)
    requires k < |rows| && rows[k] != []
    ensures |Concat(rows[..k + 1])| <= |Concat(rows)|
    ensures Feed(Before(rows, k), Concat(rows), |Concat(rows[..k])|) ==
      Feed(Opening(rows, k).(arrays := Opened(rows[..k + 1])), Concat(rows), |Concat(rows[..k + 1])|)
  {
    var values := Concat(rows);
    var st, en := |Concat(rows[..k])|, |Concat(rows[..k + 1])|;
    var pulled := Opening(rows, k);
    ConcatSlice(rows, k);
    FirstPush(rows, k);
    FeedRun(Opened(rows[..k]), [values[st]], pulled.nextSplit, pulled.offsets, values, st + 1, en);
    OpenedStep(rows, k, values[st], values[st + 1..en]);
  }

  /** The first element of list `k` is pushed into the list just opened at its start. */
  lemma FirstPush(rows: seq<seq<Json>>, k: nat)
    requires k < |rows| && rows[k] != []
    ensures |Concat(rows[..k])| < |Concat(rows)|
    ensures Feed(Before(rows, k), Concat(rows), |Concat(rows[..k])|) ==
      Feed(Opening(rows, k).(arrays := Opened(rows[..k]) + [Some([Concat(rows)[|Concat(rows[..k])|]])]),
           Concat(rows), |Concat(rows[..k])| + 1)
  {
    ConcatSlice(rows, k);
    PullAtStart(rows, k);
    var pulled := Opening(rows, k);
    assert pulled == Splitter(Opened(rows[..k]) + [Some([])], pulled.nextSplit, pulled.offsets);
    PushOnto(Opened(rows[..k]), [], pulled.nextSplit, pulled.offsets, Concat(rows)[|Concat(rows[..k])|]);
  }

  /** Closing list `k` with its elements extends the open lists by one. */
  lemma OpenedStep(rows: seq<seq<Json>>, k: nat, first: Json, rest: seq<Json>)
    requires k < |rows| && [first] + rest == rows[k]
    ensures Opened(rows[..k]) + [Some([first] + rest)] == Opened(rows[..k + 1])
  {
  }

  /**
   * From the start of list `k` on (all lists non-empty), each list is opened
   * at its start and receives exactly its elements; after the last one no
   * split is pending.
   */
  lemma {:induction false} FeedRows(rows: seq<seq<Json>>, k: nat)
    requires k < |rows| && forall j :: 0 <= j < |rows| ==> rows[j] != []
    ensures Feed(Before(rows, k), Concat(rows), |Concat(rows[..k])|) == Success(Splitter(Opened(rows), None, []))
    decreases |rows| - k
  {
    OpenList(rows, k);
    if k + 1 < |rows| {
      assert Opening(rows, k).(arrays := Opened(rows[..k + 1])) == Before(rows, k + 1);
      FeedRows(rows, k + 1);
    } else {
      assert rows[..k + 1] == rows;
    }
  }

  /**
   * Lists that are all present and non-empty, laid out as a stream of start
   * offsets over their flattened elements, come back as those lists.
   */
  lemma ListRoundTrip(rows: seq<seq<Json>>)
    requires forall j :: 0 <= j < |rows| ==> rows[j] != []
    ensures SplitRows(Starts(rows), Concat(rows)) == Success(seq(|rows|, k requires 0 <= k < |rows| => JArray(rows[k])))
  {
    var fed := Feed(Leading(Splitter([], None, Starts(rows))), Concat(rows), 0);
    if rows != [] {
      LeadingStarts(rows);
      FeedRows(rows, 0);
    }
    assert fed == Success(Splitter(Opened(rows), None, []));
    RenderOpened(rows);
  }

  /** The first start offset is 0 and becomes the first split. */
  lemma LeadingStarts(rows: seq<seq<Json>>)
    requires rows != []
    ensures Leading(Splitter([], None, Starts(rows))) == Before(rows, 0) && |Concat(rows[..0])| == 0
  {
    assert rows[..0] == [];
    assert Opened(rows[..0]) == [];
  }

  /** Open lists with no split pending render as arrays, one per list. */
  lemma RenderOpened(rows: seq<seq<Json>>)
    ensures Rendered(Fill(Splitter(Opened(rows), None, []))) == seq(|rows|, k requires 0 <= k < |rows| => JArray(rows[k]))
  {
    assert Fill(Splitter(Opened(rows), None, [])) == Opened(rows);
  }

  /**
   * A last list that is empty comes out as `Null`, and a null list after it
   * is dropped: the lists `[[7], [], null]` give two rows, `[[7], null]`.
   */
  lemma TrailingEmptyListExample()
    ensures SplitRows([Some(0), Some(1)], [JNumber(7)]) == Success([JArray([JNumber(7)]), JNull])
    ensures SplitRows([Some(0), Some(1), None], [JNumber(7)]) == Success([JArray([JNumber(7)]), JNull])
  {
    var v := [JNumber(7)];
    var start := Splitter([], Some(0), [Some(1)]);
    assert Leading(Splitter([], None, [Some(0), Some(1)])) == start;
    assert PullSplits(start, 0) == Splitter([Some([])], Some(1), []);
    PushOnto([], [], Some(1), [], JNumber(7));
    assert [] + [Some([JNumber(7)])] == [Some(v)];
    assert Feed(start, v, 0) == Feed(Splitter([Some(v)], Some(1), []), v, 1);
    assert Fill(Splitter([Some(v)], Some(1), [])) == [Some(v), None];
    assert Rendered([Some(v), None]) == [JArray(v), JNull];
    var start2 := Splitter([], Some(0), [Some(1), None]);
    assert Leading(Splitter([], None, [Some(0), Some(1), None])) == start2;
    assert PullSplits(start2, 0) == Splitter([Some([])], Some(1), [None]);
    PushOnto([], [], Some(1), [None], JNumber(7));
    assert [] + [Some([JNumber(7)])] == [Some(v)];
    assert Feed(start2, v, 0) == Feed(Splitter([Some(v)], Some(1), [None]), v, 1);
    assert Fill(Splitter([Some(v)], Some(1), [None])) == [Some(v), None];
  }

  /** A null offset pulled at a split is pushed before the list that the split opens. */
  lemma NullOffsetOrderExample()
    ensures SplitRows([Some(0), None, Some(1)], [JNumber(1), JNumber(2)]) ==
      Success([JNull, JArray([JNumber(1)]), JArray([JNumber(2)])])
  {
    var v := [JNumber(1), JNumber(2)];
    var start := Splitter([], Some(0), [None, Some(1)]);
    assert Leading(Splitter([], None, [Some(0), None, Some(1)])) == start;
    assert PullSplits(start, 0) == Splitter([None, Some([])], Some(1), []);
    var s1 := Splitter([None, Some([JNumber(1)])], Some(1), []);
    assert Splitter([None, Some([])], Some(1), []) == Splitter([None] + [Some([])], Some(1), []);
    PushOnto([None], [], Some(1), [], JNumber(1));
    assert [None] + [Some([JNumber(1)])] == s1.arrays;
    assert Feed(start, v, 0) == Feed(s1, v, 1);
    assert PullSplits(s1, 1) == Splitter([None, Some([JNumber(1)]), Some([])], None, []);
    assert [None, Some([JNumber(1)]), Some([])] == [None, Some([JNumber(1)])] + [Some([])];
    var s2 := Splitter([None, Some([JNumber(1)]), Some([JNumber(2)])], None, []);
    PushOnto([None, Some([JNumber(1)])], [], None, [], JNumber(2));
    assert [None, Some([JNumber(1)])] + [Some([JNumber(2)])] == s2.arrays;
    assert Feed(s1, v, 1) == Feed(s2, v, 2);
    assert Fill(s2) == s2.arrays;
    assert Rendered(s2.arrays) == [JNull, JArray([JNumber(1)]), JArray([JNumber(2)])];
  }
}
