/**
 * `RowIterator`: the rows of a stream of record batches, one at a time. Each
 * batch is decoded into a buffer the iterator reuses; `index` is the cursor
 * in that buffer and `decodedItems` the count the last decode returned.
 * A record batch is the struct column it converts to, so decoding one is
 * `Engine.Decode` of that column into the resized buffer.
 */
module RowIterators {
  import opened Wrappers
  import opened Arrow
  import opened Rows
  import Engine

  /** `Vec::resize(n, fill)`: keeps the first `n` slots and appends copies of `fill` up to `n`. */
  function Resize(buffer: seq<Value>, n: nat, fill: Value): (r: seq<Value>)
    ensures |r| == n
    ensures forall i :: 0 <= i < n && i < |buffer| ==> r[i] == buffer[i]
    ensures forall i :: |buffer| <= i < n ==> r[i] == fill
  {
    if n <= |buffer| then buffer[..n] else buffer + seq(n - |buffer|, _ => fill)
  }

  lemma ResizeTyped(buffer: seq<Value>, n: nat, t: RustType)
    requires Typed(buffer, t)
    ensures Typed(Resize(buffer, n, Default(t)), t)
  {
    DefaultHasType(t);
  }

  /** The iterator's fields: the batches the reader has not yielded yet, the buffer, the cursor and the decoded count. */
  datatype Cursor = Cursor(reader: seq<Array>, batch: seq<Value>, index: nat, decodedItems: nat)

  /**
   * What `read_batch` returns: `Ok(true)` when the reader is exhausted,
   * `Ok(false)` after a batch, the decode error, or the panic raised while decoding.
   */
  datatype BatchRead = Ended | Loaded | Failed(error: DeserializationError) | Aborted(message: string)

  /** What `next` does: yields a row, returns `None`, or panics. */
  datatype Step = Yielded(row: Value) | Finished | Crashed(message: string)

  const DecodeErrorMessage: string :=
    "ArRowDeserialize::read_from_array() call from RowIterator::next() returns a deserialization error"

  /**
   * `read_batch`: the cursor goes back to 0 whatever happens; a batch resizes
   * the buffer to its row count and sets the decoded count to what decoding
   * returned; an exhausted reader leaves the buffer and the count alone.
   */
  function ReadBatchStep(t: RustType, c: Cursor): (r: (Cursor, BatchRead))
    requires Deserializable(t) && Typed(c.batch, t)
    ensures r.0.index == 0 && Typed(r.0.batch, t)
    ensures r.1 == Ended <==> c.reader == []
    ensures r.1 == Ended ==> r.0 == c.(index := 0)
    ensures c.reader != [] ==> r.0.reader == c.reader[1..] && |r.0.batch| == Len(c.reader[0])
    ensures r.1 == Loaded ==>
      (ResizeTyped(c.batch, Len(c.reader[0]), t);
       Engine.Decode(t, c.reader[0], Resize(c.batch, Len(c.reader[0]), Default(t))).outcome == Ok(r.0.decodedItems))
    ensures r.1.Failed? ==> r.0.decodedItems == c.decodedItems
  {
    if c.reader == [] then (c.(index := 0), Ended)
    else
      var src := c.reader[0];
      ResizeTyped(c.batch, Len(src), t);
      var d := Engine.Decode(t, src, Resize(c.batch, Len(src), Default(t)));
      var next := Cursor(c.reader[1..], d.slots, 0, c.decodedItems);
      match d.outcome
      case Ok(n) => (next.(decodedItems := n), Loaded)
      case Err(e) => (next, Failed(e))
      case Panic(m) => (next, Aborted(m))
  }

  /** `self.batch.get(self.index)` cloned, and `self.index += 1`. */
  function Fetch(c: Cursor): (r: (Cursor, Step))
    ensures r.0 == c.(index := c.index + 1)
    ensures r.1.Yielded? <==> c.index < |c.batch|
    ensures r.1.Yielded? ==> r.1.row == c.batch[c.index]
    ensures !r.1.Yielded? ==> r.1 == Finished
  {
    (c.(index := c.index + 1), if c.index < |c.batch| then Yielded(c.batch[c.index]) else Finished)
  }

  /**
   * `next`: a batch is pulled only when the cursor equals the decoded count;
   * a decode error there is a panic, the end of the reader is `None`.
   */
  function NextStep(t: RustType, c: Cursor): (r: (Cursor, Step))
    requires Deserializable(t) && Typed(c.batch, t)
    ensures Typed(r.0.batch, t)
  {
    if c.index == c.decodedItems then
      var (c1, read) := ReadBatchStep(t, c);
      match read
      case Ended => (c1, Finished)
      case Failed(_) => (c1, Crashed(DecodeErrorMessage))
      case Aborted(m) => (c1, Crashed(m))
      case Loaded => Fetch(c1)
    else Fetch(c)
  }

  /** What `RowIterator::new` returns: the iterator, the error of the first batch, or a panic inside decoding. */
  datatype Opened = Opened(cursor: Cursor) | Refused(error: DeserializationError) | OpenPanicked(message: string)

  /** `RowIterator::new` pulls and decodes the first batch at once, so a decode error comes back from `new`. */
  function Open(t: RustType, reader: seq<Array>): (r: Opened)
    requires Deserializable(t)
    ensures r.Opened? ==> r.cursor.index == 0 && Typed(r.cursor.batch, t)
    ensures r.Opened? && reader == [] ==> r.cursor == Cursor([], [], 0, 0)
    ensures r.Refused? <==>
      (reader != [] &&
       (DefaultsTyped(t, Len(reader[0]));
        Engine.Decode(t, reader[0], Defaults(t, Len(reader[0]))).outcome.Err?))
  {
    var (c, read) := ReadBatchStep(t, Cursor(reader, [], 0, 0));
    assert reader != [] ==> Resize([], Len(reader[0]), Default(t)) == Defaults(t, Len(reader[0]));
    match read
    case Failed(e) => Refused(e)
    case Aborted(m) => OpenPanicked(m)
    case _ => Opened(c)
  }

  /** The iterator as a Rust object: the reader, the reused buffer, the cursor and the decoded count. */
  class RowIterator {
    const t: RustType
    var reader: seq<Array>
    var batch: seq<Value>
    var index: nat
    var decodedItems: nat

    function State(): Cursor
      reads this
    {
      Cursor(reader, batch, index, decodedItems)
    }

    ghost predicate Valid()
      reads this
    {
      Deserializable(t) && Typed(batch, t)
    }

    /** The struct literal in `new`, before the first batch is read. */
    constructor (t: RustType, reader: seq<Array>)
      requires Deserializable(t)
      ensures this.t == t && State() == Cursor(reader, [], 0, 0) && Valid()
    {
      this.t := t;
      this.reader := reader;
      batch := [];
      index := 0;
      decodedItems := 0;
    }

    method ReadBatch() returns (r: BatchRead)
      requires Valid()
      modifies this
      ensures Valid() && (State(), r) == ReadBatchStep(t, old(State()))
    {
      index := 0;
      if reader == [] {
        return Ended;
      }
      var src := reader[0];
      reader := reader[1..];
      ResizeTyped(batch, Len(src), t);
      batch := Resize(batch, Len(src), Default(t));
      var d := Engine.Decode(t, src, batch);
      batch := d.slots;
      match d.outcome
      case Ok(n) =>
        decodedItems := n;
        r := Loaded;
      case Err(e) =>
        r := Failed(e);
      case Panic(m) =>
        r := Aborted(m);
    }

    method Next() returns (s: Step)
      requires Valid()
      modifies this
      ensures Valid() && (State(), s) == NextStep(t, old(State()))
    {
      if index == decodedItems {
        var read := ReadBatch();
        match read
        case Ended =>
          return Finished;
        case Failed(_) =>
          return Crashed(DecodeErrorMessage);
        case Aborted(m) =>
          return Crashed(m);
        case Loaded =>
      }
      s := if index < |batch| then Yielded(batch[index]) else Finished;
      index := index + 1;
    }
  }

  /** `RowIterator::new`. */
  method New(t: RustType, reader: seq<Array>) returns (r: Result<RowIterator, Opened>)
    requires Deserializable(t)
    ensures r.Success? ==> fresh(r.value) && r.value.Valid() && r.value.t == t && Open(t, reader) == Opened(r.value.State())
    ensures r.Failure? ==> r.error == Open(t, reader) && !r.error.Opened?
  {
    var it := new RowIterator(t, reader);
    var read := it.ReadBatch();
    assert reader != [] ==> Resize([], Len(reader[0]), Default(t)) == Defaults(t, Len(reader[0]));
    match read
    case Failed(e) =>
      return Failure(Refused(e));
    case Aborted(m) =>
      return Failure(OpenPanicked(m));
    case _ =>
      return Success(it);
  }

  // ----- properties -----

  /** Away from a batch boundary `next` yields the row under the cursor and never touches the reader. */
  lemma NextWithinBatch(t: RustType, c: Cursor)
    requires Deserializable(t) && Typed(c.batch, t)
    requires c.index != c.decodedItems && c.index < |c.batch|
    ensures NextStep(t, c) == (c.(index := c.index + 1), Yielded(c.batch[c.index]))
  {
  }

  /**
   * Not fused: once the reader is exhausted `next` returns `None` but resets
   * the cursor to 0 over the old buffer, so the following call yields that
   * buffer's first row again.
   */
  lemma NotFused(t: RustType, c: Cursor)
    requires Deserializable(t) && Typed(c.batch, t)
    requires c.reader == [] && c.index == c.decodedItems && c.decodedItems > 0 && |c.batch| > 0
    ensures NextStep(t, c).1 == Finished
    ensures NextStep(t, NextStep(t, c).0).1 == Yielded(c.batch[0])
  {
    var c1 := NextStep(t, c).0;
    assert c1 == c.(index := 0);
    NextWithinBatch(t, c1);
  }

  /**
   * Past the decoded count and the buffer (after an empty batch) `next`
   * returns `None` and moves the cursor further away, so no later batch is
   * ever pulled.
   */
  lemma StallsPastEmptyBatch(t: RustType, c: Cursor)
    requires Deserializable(t) && Typed(c.batch, t)
    requires c.index > c.decodedItems && c.index >= |c.batch|
    ensures NextStep(t, c) == (c.(index := c.index + 1), Finished)
    ensures NextStep(t, c).0.index > NextStep(t, c).0.decodedItems
  {
  }

  /** An empty batch: `next` returns `None` and leaves the cursor past the decoded count. */
  lemma EmptyBatchEnds(t: RustType, c: Cursor)
    requires Deserializable(t) && Typed(c.batch, t)
    requires c.index == c.decodedItems && c.reader != [] && Len(c.reader[0]) == 0
    requires Engine.Decode(t, c.reader[0], Resize(c.batch, 0, Default(t))).outcome == Ok(0)
    ensures NextStep(t, c).1 == Finished
    ensures NextStep(t, c).0.index == 1 && NextStep(t, c).0.decodedItems == 0 && NextStep(t, c).0.batch == []
  {
  }

  /** What repeated calls to `next` yield up to its first `None`, and the iterator after it. */
  datatype Drained = Drained(rows: seq<Value>, rest: Cursor) | DrainCrashed(message: string)

  /** Rows yielded before the ones a later drain yields. */
  function PrependRows(rows: seq<Value>, d: Drained): Drained {
    match d
    case Drained(later, rest) => Drained(rows + later, rest)
    case DrainCrashed(_) => d
  }

  /** What `next` yields, called until its first `None`, from cursor `c`. */
  function Drain(t: RustType, c: Cursor): (r: Drained)
    requires Deserializable(t) && Typed(c.batch, t)
    ensures r.Drained? ==> Typed(r.rest.batch, t) && |r.rest.reader| <= |c.reader|
    decreases |c.reader|, if c.index <= |c.batch| then |c.batch| - c.index else 0
  {
    var (c1, step) := NextStep(t, c);
    match step
    case Finished => Drained([], c1)
    case Crashed(m) => DrainCrashed(m)
    case Yielded(v) =>
      assert if c.index == c.decodedItems then |c1.reader| < |c.reader|
        else c1.reader == c.reader && c1.batch == c.batch && c.index < |c.batch| && c1.index == c.index + 1;
      PrependRows([v], Drain(t, c1))
  }

  /** A call to `next` that yields `v` puts `v` in front of what the later calls yield. */
  lemma DrainAfterYield(t: RustType, c: Cursor, c1: Cursor, v: Value)
    requires Deserializable(t) && Typed(c.batch, t)
    requires NextStep(t, c) == (c1, Yielded(v))
    ensures Typed(c1.batch, t) && Drain(t, c) == PrependRows([v], Drain(t, c1))
  {
  }

  /** The rows of the batches, one batch after another. */
  function Flatten(rowsList: seq<seq<Value>>): (r: seq<Value>)
    ensures r == [] <==> forall i :: 0 <= i < |rowsList| ==> rowsList[i] == []
  {
    if rowsList == [] then [] else rowsList[0] + Flatten(rowsList[1..])
  }

  /** A batch whose decode into any typed buffer of its length returns its length and fills the buffer with `rows`. */
  ghost predicate DecodesTo(t: RustType, src: Array, rows: seq<Value>)
    requires Deserializable(t)
  {
    Len(src) == |rows| && 0 < |rows| &&
    forall buffer :: Typed(buffer, t) && |buffer| == |rows| ==>
      Engine.Decode(t, src, buffer) == Decoded(Ok(|rows|), rows)
  }

  ghost predicate AllDecode(t: RustType, reader: seq<Array>, rowsList: seq<seq<Value>>)
    requires Deserializable(t)
  {
    |reader| == |rowsList| && forall i :: 0 <= i < |reader| ==> DecodesTo(t, reader[i], rowsList[i])
  }

  lemma PrependTwice(a: seq<Value>, b: seq<Value>, d: Drained)
    ensures PrependRows(a, PrependRows(b, d)) == PrependRows(a + b, d)
  {
    if d.Drained? {
      assert a + (b + d.rows) == (a + b) + d.rows;
    }
  }

  /** Within a batch the rest of the buffer comes out in order before the next batch is pulled. */
  lemma {:induction false} DrainBatch(t: RustType, c: Cursor)
    requires Deserializable(t) && Typed(c.batch, t)
    requires c.index <= c.decodedItems == |c.batch|
    ensures Drain(t, c) == PrependRows(c.batch[c.index..], Drain(t, c.(index := c.decodedItems)))
    decreases |c.batch| - c.index
  {
    if c.index < c.decodedItems {
      NextWithinBatch(t, c);
      var c1 := c.(index := c.index + 1);
      DrainAfterYield(t, c, c1, c.batch[c.index]);
      DrainBatch(t, c1);
      PrependTwice([c.batch[c.index]], c.batch[c.index + 1..], Drain(t, c.(index := c.decodedItems)));
      assert c.batch[c.index..] == [c.batch[c.index]] + c.batch[c.index + 1..];
    } else {
      assert c.batch[c.index..] == [];
    }
  }

  /** The first batch of a reader whose batches all decode: it decodes, and so do the others. */
  lemma FirstDecodes(t: RustType, reader: seq<Array>, rowsList: seq<seq<Value>>)
    requires Deserializable(t) && reader != [] && AllDecode(t, reader, rowsList)
    ensures DecodesTo(t, reader[0], rowsList[0])
    ensures AllDecode(t, reader[1..], rowsList[1..])
  {
    forall i | 0 <= i < |reader| - 1 ensures DecodesTo(t, reader[1..][i], rowsList[1..][i]) {
      assert DecodesTo(t, reader[i + 1], rowsList[i + 1]);
    }
  }

  /** `read_batch` on a batch that decodes to `rows`: the buffer becomes `rows` and the decoded count their number. */
  lemma LoadBatch(t: RustType, c: Cursor, rows: seq<Value>)
    requires Deserializable(t) && Typed(c.batch, t)
    requires c.reader != [] && DecodesTo(t, c.reader[0], rows)
    ensures ReadBatchStep(t, c) == (Cursor(c.reader[1..], rows, 0, |rows|), Loaded)
  {
    ResizeTyped(c.batch, Len(c.reader[0]), t);
    var buffer := Resize(c.batch, Len(c.reader[0]), Default(t));
    assert Engine.Decode(t, c.reader[0], buffer) == Decoded(Ok(|rows|), rows);
  }

  /** At a batch boundary a batch that decodes to `rows` is pulled and its first row yielded. */
  lemma PullBatch(t: RustType, c: Cursor, rowsList: seq<seq<Value>>)
    requires Deserializable(t) && Typed(c.batch, t)
    requires c.index == c.decodedItems && c.reader != [] && AllDecode(t, c.reader, rowsList)
    ensures |rowsList[0]| > 0 && Typed(rowsList[0], t)
    ensures NextStep(t, c) == (Cursor(c.reader[1..], rowsList[0], 1, |rowsList[0]|), Yielded(rowsList[0][0]))
    ensures AllDecode(t, c.reader[1..], rowsList[1..])
  {
    FirstDecodes(t, c.reader, rowsList);
    LoadBatch(t, c, rowsList[0]);
  }

  /**
   * At a batch boundary, when every remaining batch decodes to a non-empty
   * run of rows, the iterator yields those runs concatenated and then `None`.
   */
  lemma {:induction false} DrainYieldsEveryBatch(t: RustType, c: Cursor, rowsList: seq<seq<Value>>)
    requires Deserializable(t) && Typed(c.batch, t)
    requires c.index == c.decodedItems
    requires AllDecode(t, c.reader, rowsList)
    ensures Drain(t, c).Drained? && Drain(t, c).rows == Flatten(rowsList)
    decreases |c.reader|
  {
    if c.reader == [] {
      assert NextStep(t, c) == (c.(index := 0), Finished);
      assert rowsList == [];
    } else {
      var c2 := DrainOneBatch(t, c, rowsList);
      DrainYieldsEveryBatch(t, c2, rowsList[1..]);
      assert Flatten(rowsList) == rowsList[0] + Flatten(rowsList[1..]);
    }
  }

  /** At a batch boundary the next batch's rows all come out before the iterator is back at a boundary. */
  lemma DrainOneBatch(t: RustType, c: Cursor, rowsList: seq<seq<Value>>) returns (c2: Cursor)
    requires Deserializable(t) && Typed(c.batch, t)
    requires c.index == c.decodedItems && c.reader != []
    requires AllDecode(t, c.reader, rowsList)
    ensures Typed(c2.batch, t) && c2.index == c2.decodedItems && c2.reader == c.reader[1..]
    ensures AllDecode(t, c2.reader, rowsList[1..])
    ensures Drain(t, c) == PrependRows(rowsList[0], Drain(t, c2))
  {
    var rows := rowsList[0];
    PullBatch(t, c, rowsList);
    var c1 := Cursor(c.reader[1..], rows, 1, |rows|);
    c2 := c1.(index := |rows|);
    DrainAfterYield(t, c, c1, rows[0]);
    DrainBatch(t, c1);
    PrependFirst(rows, Drain(t, c), Drain(t, c1), Drain(t, c2));
  }

  /** The first row prepended to the rest of a run is the whole run prepended. */
  lemma PrependFirst(rows: seq<Value>, d: Drained, d1: Drained, d2: Drained)
    requires |rows| > 0
    requires d == PrependRows([rows[0]], d1) && d1 == PrependRows(rows[1..], d2)
    ensures d == PrependRows(rows, d2)
  {
    PrependTwice([rows[0]], rows[1..], d2);
    assert rows == [rows[0]] + rows[1..];
  }

  /**
   * The rows a fresh iterator yields depend only on the rows the batches
   * hold, not on how the reader cut them into batches.
   */
  lemma SameRowsForAnyBatching(t: RustType, readerA: seq<Array>, rowsA: seq<seq<Value>>,
                               readerB: seq<Array>, rowsB: seq<seq<Value>>)
    requires Deserializable(t)
    requires AllDecode(t, readerA, rowsA) && AllDecode(t, readerB, rowsB)
    requires Flatten(rowsA) == Flatten(rowsB)
    ensures Drain(t, Cursor(readerA, [], 0, 0)).Drained? && Drain(t, Cursor(readerB, [], 0, 0)).Drained?
    ensures Drain(t, Cursor(readerA, [], 0, 0)).rows == Drain(t, Cursor(readerB, [], 0, 0)).rows
  {
    DrainYieldsEveryBatch(t, Cursor(readerA, [], 0, 0), rowsA);
    DrainYieldsEveryBatch(t, Cursor(readerB, [], 0, 0), rowsB);
  }
}
