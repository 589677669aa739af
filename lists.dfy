/**
 * Rebuilding Rust vectors from a list column (`read_list_from_array`,
 * `read_list_of_options_from_array`, `build_list_item`): the child column is
 * decoded into a flat buffer of elements, then each row takes the next
 * `offset - previous_offset` elements of that buffer.
 */
module Lists {
  import opened Wrappers
  import opened Rows
  import ArrayIterators

  /** `offsets.next().unwrap_or(0)`: the first offset. */
  function Start(offsets: seq<nat>): nat {
    if |offsets| == 0 then 0 else offsets[0]
  }

  /** The offsets left once the first is taken: one per list. */
  function Tail(offsets: seq<nat>): seq<nat> {
    if |offsets| == 0 then [] else offsets[1..]
  }

  /** `num_lists`: the number of lists of a column without a bitmap. */
  function RowCount(offsets: seq<nat>): nat {
    |Tail(offsets)|
  }

  /** `range.len()` of `previous_offset..offset`: empty when the offsets decrease. */
  function Span(previous: nat, offset: nat): nat {
    if offset >= previous then offset - previous else 0
  }

  /** The number of elements taken by the lists before list `i`. */
  function Consumed(offsets: seq<nat>, i: nat): nat
    requires i <= RowCount(offsets)
  {
    if i == 0 then 0 else Consumed(offsets, i - 1) + Span(offsets[i - 1], offsets[i])
  }

  /** List `r` ends within the `available` elements. */
  predicate Fits(offsets: seq<nat>, available: nat, r: nat)
    requires r < RowCount(offsets)
  {
    Consumed(offsets, r + 1) <= available
  }

  /**
   * The first list that runs past the end of the elements (`List too short`),
   * or `m` when the first `m` lists all fit.
   */
  function FirstShort(offsets: seq<nat>, available: nat, m: nat): (k: nat)
    requires m <= RowCount(offsets)
    ensures k <= m
    ensures forall r :: 0 <= r < k ==> Fits(offsets, available, r)
    ensures k < m ==> !Fits(offsets, available, k)
  {
    if m == 0 then 0
    else
      var k := FirstShort(offsets, available, m - 1);
      if k < m - 1 then k
      else if Consumed(offsets, m) > available then m - 1
      else m
  }

  /** The elements of list `i`. */
  function Items(offsets: seq<nat>, elements: seq<Value>, i: nat): seq<Value>
    requires i < RowCount(offsets) && Fits(offsets, |elements|, i)
  {
    elements[Consumed(offsets, i)..Consumed(offsets, i + 1)]
  }

  /** What a list becomes in its slot: a vector, or `Option<Vec<_>>` with `None` for a null list. */
  function Wrap(items: seq<Value>, optional: bool, isNull: bool): Value {
    if !optional then ListVal(items)
    else if isNull then OptVal(None)
    else OptVal(Some(ListVal(items)))
  }

  /** Whether list `i` is null under a validity bitmap (a clear bit). */
  predicate NullRow(mask: Option<seq<bool>>, i: nat) {
    mask.Some? && i < |mask.value| && !mask.value[i]
  }

  /**
   * The split of the decoded elements into lists. More lists than slots is
   * `MismatchedLength` before any write. A list that runs past the elements
   * panics after the earlier lists are written; elements left over after the
   * last list panic; otherwise the count is the number of lists.
   * With `optional`, a null list becomes `None` and still consumes its range.
   */
  function ListSplit(offsets: seq<nat>, elements: seq<Value>, mask: Option<seq<bool>>, optional: bool, view: seq<Value>): Decoded {
    var n := RowCount(offsets);
    if n > |view| then Decoded(Err(MismatchedLength(n, |view|)), view)
    else
      var k := FirstShort(offsets, |elements|, n);
      var slots := seq(|view|, i requires 0 <= i < |view| =>
        if i < k then Wrap(Items(offsets, elements, i), optional, NullRow(mask, i)) else view[i]);
      var outcome :=
        if k < n then Panic("List too short")
        else if Consumed(offsets, n) < |elements| then Panic("List too long")
        else Ok(n);
      Decoded(outcome, slots)
  }

  /**
   * `build_list_item`: pulls `count` elements from position `pos`, or `None`
   * when the elements run out first (`List too short`).
   */
  method BuildListItem(elements: seq<Value>, pos: nat, count: nat) returns (items: Option<seq<Value>>)
    requires pos <= |elements|
    ensures items.None? <==> pos + count > |elements|
    ensures items.Some? ==> items.value == elements[pos..pos + count]
  {
    var built: seq<Value> := [];
    var j := 0;
    while j < count
      invariant 0 <= j <= count
      invariant pos + j <= |elements|
      invariant built == elements[pos..pos + j]
    {
      if pos + j >= |elements| {
        return None;
      }
      built := built + [elements[pos + j]];
      j := j + 1;
    }
    return Some(built);
  }

  /** `FirstShort` is the first list that does not fit. */
  lemma FirstShortIs(offsets: seq<nat>, available: nat, m: nat, i: nat)
    requires i <= m <= RowCount(offsets)
    requires forall q :: 0 <= q < i ==> Fits(offsets, available, q)
    requires i < m ==> !Fits(offsets, available, i)
    ensures FirstShort(offsets, available, m) == i
  {
  }

  /** The loop over the offsets, proved against `ListSplit`. */
  method SplitLists(offsets: seq<nat>, elements: seq<Value>, mask: Option<seq<bool>>, optional: bool, dst: array<Value>)
    returns (r: Outcome)
    modifies dst
    ensures Decoded(r, dst[..]) == ListSplit(offsets, elements, mask, optional, old(dst[..]))
  {
    ghost var view := dst[..];
    var n := RowCount(offsets);
    if n > dst.Length {
      return Err(MismatchedLength(n, dst.Length));
    }
    var previous := Start(offsets);
    var pos := 0;
    var i := 0;
    while i < n
      invariant 0 <= i <= n
      invariant |offsets| > 0 ==> previous == offsets[i]
      invariant pos == Consumed(offsets, i) && pos <= |elements|
      invariant forall q :: 0 <= q < i ==> Fits(offsets, |elements|, q)
      invariant dst[..] == Written(offsets, elements, mask, optional, view, i)
    {
      var offset := offsets[i + 1];
      var count := Span(previous, offset);
      assert Consumed(offsets, i + 1) == pos + count;
      var items := BuildListItem(elements, pos, count);
      if items.None? {
        assert !Fits(offsets, |elements|, i);
        FirstShortIs(offsets, |elements|, n, i);
        r := Panic("List too short");
        return;
      }
      assert Fits(offsets, |elements|, i) && items.value == Items(offsets, elements, i);
      WrittenStep(offsets, elements, mask, optional, view, i);
      previous := offset;
      pos := pos + count;
      dst[i] := Wrap(items.value, optional, NullRow(mask, i));
      i := i + 1;
    }
    FirstShortIs(offsets, |elements|, n, n);
    if pos < |elements| {
      r := Panic("List too long");
    } else {
      r := Ok(n);
    }
  }

  /** The slots once the first `k` lists, which all fit, are written over `view`. */
  function Written(offsets: seq<nat>, elements: seq<Value>, mask: Option<seq<bool>>, optional: bool,
                   view: seq<Value>, k: nat): (slots: seq<Value>)
    requires k <= RowCount(offsets) && k <= |view|
    requires forall q :: 0 <= q < k ==> Fits(offsets, |elements|, q)
    ensures |slots| == |view|
    ensures k == FirstShort(offsets, |elements|, RowCount(offsets)) && RowCount(offsets) <= |view| ==>
      slots == ListSplit(offsets, elements, mask, optional, view).slots
  {
    seq(|view|, q requires 0 <= q < |view| =>
      if q < k then Wrap(Items(offsets, elements, q), optional, NullRow(mask, q)) else view[q])
  }

  /** Writing list `k` into slot `k` extends the written prefix by one. */
  lemma WrittenStep(offsets: seq<nat>, elements: seq<Value>, mask: Option<seq<bool>>, optional: bool,
                    view: seq<Value>, k: nat)
    requires k < RowCount(offsets) && k < |view|
    requires forall q :: 0 <= q <= k ==> Fits(offsets, |elements|, q)
    ensures Written(offsets, elements, mask, optional, view, k)[k := Wrap(Items(offsets, elements, k), optional, NullRow(mask, k))]
      == Written(offsets, elements, mask, optional, view, k + 1)
  {
  }

  /** Arrow's list layout: offsets never decrease, start at zero and end at the element count. */
  predicate WellFormed(offsets: seq<nat>, elementCount: nat) {
    |offsets| > 0 && offsets[0] == 0 && offsets[|offsets| - 1] == elementCount &&
    forall i :: 0 < i < |offsets| ==> offsets[i - 1] <= offsets[i]
  }

  /** With non-decreasing offsets, the lists before list `i` take exactly `offsets[i] - offsets[0]` elements. */
  lemma {:induction false} ConsumedIsOffset(offsets: seq<nat>, i: nat)
    requires |offsets| > 0 && i <= RowCount(offsets)
    requires forall q :: 0 < q < |offsets| ==> offsets[q - 1] <= offsets[q]
    ensures offsets[0] <= offsets[i] && Consumed(offsets, i) == offsets[i] - offsets[0]
  {
    if i > 0 {
      ConsumedIsOffset(offsets, i - 1);
    }
  }

  /** List `i` fits and holds exactly the elements `offsets[i]..offsets[i+1]`. */
  predicate ItemsAreRange(offsets: seq<nat>, elements: seq<Value>, i: nat)
    requires i < RowCount(offsets)
  {
    Fits(offsets, |elements|, i) && offsets[i] <= offsets[i + 1] <= |elements| &&
    Items(offsets, elements, i) == elements[offsets[i]..offsets[i + 1]]
  }

  /** On a well-formed list column every list fits, and list `i` holds the elements `offsets[i]..offsets[i+1]`. */
  lemma WellFormedItems(offsets: seq<nat>, elements: seq<Value>)
    requires WellFormed(offsets, |elements|)
    ensures FirstShort(offsets, |elements|, RowCount(offsets)) == RowCount(offsets)
    ensures Consumed(offsets, RowCount(offsets)) == |elements|
    ensures forall i :: 0 <= i < RowCount(offsets) ==> ItemsAreRange(offsets, elements, i)
  {
    var n := RowCount(offsets);
    forall q | 0 <= q <= n
      ensures Consumed(offsets, q) == offsets[q]
    {
      ConsumedIsOffset(offsets, q);
    }
    forall q | 0 <= q < n
      ensures Fits(offsets, |elements|, q) && ItemsAreRange(offsets, elements, q)
    {
      OffsetsMonotone(offsets, q + 1, n);
      assert Consumed(offsets, q + 1) == offsets[q + 1];
    }
    FirstShortIs(offsets, |elements|, n, n);
  }

  /**
   * On a well-formed list column whose lists fit in the destination, the
   * split succeeds with one slot per list, and list `i` holds exactly the
   * elements `offsets[i]..offsets[i+1]`.
   */
  lemma WellFormedSplit(offsets: seq<nat>, elements: seq<Value>, mask: Option<seq<bool>>, optional: bool, view: seq<Value>)
    requires WellFormed(offsets, |elements|)
    requires RowCount(offsets) <= |view|
    ensures ListSplit(offsets, elements, mask, optional, view).outcome == Ok(RowCount(offsets))
    ensures forall i :: 0 <= i < RowCount(offsets) ==> SlotIsRange(ListSplit(offsets, elements, mask, optional, view).slots, offsets, elements, mask, optional, i)
    ensures forall i :: RowCount(offsets) <= i < |view| ==> ListSplit(offsets, elements, mask, optional, view).slots[i] == view[i]
  {
    WellFormedItems(offsets, elements);
    var d := ListSplit(offsets, elements, mask, optional, view);
    forall i | 0 <= i < RowCount(offsets)
      ensures SlotIsRange(d.slots, offsets, elements, mask, optional, i)
    {
      assert ItemsAreRange(offsets, elements, i);
    }
  }

  /** Slot `i` holds list `i`, built from the elements `offsets[i]..offsets[i+1]`. */
  predicate SlotIsRange(slots: seq<Value>, offsets: seq<nat>, elements: seq<Value>, mask: Option<seq<bool>>, optional: bool, i: nat)
    requires i < |slots| && i + 1 < |offsets|
  {
    offsets[i] <= offsets[i + 1] <= |elements| &&
    slots[i] == Wrap(elements[offsets[i]..offsets[i + 1]], optional, NullRow(mask, i))
  }

  lemma {:induction false} OffsetsMonotone(offsets: seq<nat>, a: nat, b: nat)
    requires a <= b < |offsets|
    requires forall q :: 0 < q < |offsets| ==> offsets[q - 1] <= offsets[q]
    ensures offsets[a] <= offsets[b]
    decreases b - a
  {
    if a < b {
      OffsetsMonotone(offsets, a + 1, b);
    }
  }

  /** Non-decreasing offsets from zero that end past the elements make a list run short. */
  lemma TooFewElements(offsets: seq<nat>, elements: seq<Value>, mask: Option<seq<bool>>, optional: bool, view: seq<Value>)
    requires |offsets| > 0 && offsets[0] == 0 && offsets[|offsets| - 1] > |elements|
    requires forall i :: 0 < i < |offsets| ==> offsets[i - 1] <= offsets[i]
    requires RowCount(offsets) <= |view|
    ensures ListSplit(offsets, elements, mask, optional, view).outcome == Panic("List too short")
  {
    ConsumedIsOffset(offsets, RowCount(offsets));
  }

  /** Non-decreasing offsets from zero that end before the last element leave elements over. */
  lemma TooManyElements(offsets: seq<nat>, elements: seq<Value>, mask: Option<seq<bool>>, optional: bool, view: seq<Value>)
    requires |offsets| > 0 && offsets[0] == 0 && offsets[|offsets| - 1] < |elements|
    requires forall i :: 0 < i < |offsets| ==> offsets[i - 1] <= offsets[i]
    requires RowCount(offsets) <= |view|
    ensures ListSplit(offsets, elements, mask, optional, view).outcome == Panic("List too long")
  {
    var n := RowCount(offsets);
    forall q | 0 <= q <= n
      ensures Consumed(offsets, q) == offsets[q]
    {
      ConsumedIsOffset(offsets, q);
    }
    var k := FirstShort(offsets, |elements|, n);
    if k < n {
      OffsetsMonotone(offsets, k + 1, n);
    }
  }

  /** More lists than destination slots is reported before anything is written. */
  lemma LengthCheckedFirst(offsets: seq<nat>, elements: seq<Value>, mask: Option<seq<bool>>, optional: bool, view: seq<Value>)
    requires RowCount(offsets) > |view|
    ensures ListSplit(offsets, elements, mask, optional, view) == Decoded(Err(MismatchedLength(RowCount(offsets), |view|)), view)
  {
  }

  // ---- `read_list_of_options_from_array` as written ----

  /**
   * The loop of `read_list_of_options_from_array` over the items of a
   * `NullableValuesIterator` of the offsets: `None` writes `None` and keeps
   * `previous_offset`; `Some(offset)` takes `offset - previous_offset`
   * elements. Returns the lists written, the elements consumed, and whether
   * a list ran past the elements.
   */
  function AsWrittenRows(items: seq<Option<nat>>, previous: nat, elements: seq<Value>, pos: nat): (r: (seq<Value>, nat, bool))
    requires pos <= |elements|
    ensures pos <= r.1 <= |elements|
    ensures |r.0| <= |items|
    ensures !r.2 ==> |r.0| == |items|
    ensures forall i :: 0 <= i < |r.0| ==> (r.0[i] == OptVal(None) <==> items[i].None?)
    decreases |items|
  {
    if items == [] then ([], pos, false)
    else match items[0]
      case None =>
        var rest := AsWrittenRows(items[1..], previous, elements, pos);
        ([OptVal(None)] + rest.0, rest.1, rest.2)
      case Some(offset) =>
        var count := Span(previous, offset);
        if pos + count > |elements| then ([], pos, true)
        else
          var rest := AsWrittenRows(items[1..], offset, elements, pos + count);
          ([OptVal(Some(ListVal(elements[pos..pos + count])))] + rest.0, rest.1, rest.2)
  }

  /**
   * `read_list_of_options_from_array` as written: the offsets after the first
   * are zipped with the bitmap by `NullableValuesIterator`, so that a set
   * (valid) bit yields `None` and a clear (null) bit consumes an offset, and
   * `num_lists` is the bitmap's length.
   */
  function AsWrittenOptionList(offsets: seq<nat>, bits: Option<seq<bool>>, elements: seq<Value>, view: seq<Value>): (d: Decoded)
    ensures |d.slots| == |view|
    ensures d.outcome.Err? ==> d.slots == view
  {
    var stream := ArrayIterators.NullableItems(Tail(offsets), bits);
    var numLists := ArrayIterators.Remaining(Tail(offsets), bits);
    if numLists > |view| then Decoded(Err(MismatchedLength(numLists, |view|)), view)
    else
      var rows := AsWrittenRows(stream.items, Start(offsets), elements, 0);
      var written := rows.0;
      var slots := seq(|view|, i requires 0 <= i < |view| => if i < |written| then written[i] else view[i]);
      var outcome :=
        if rows.2 then Panic("List too short")
        else if stream.panicked then Panic("more 'false' bits in nulls() than there are values")
        else if rows.1 < |elements| then Panic("List too long")
        else Ok(numLists);
      Decoded(outcome, slots)
  }

  /** The offset a list after the first `j` starts from: `previous_offset` once `j` lists are taken. */
  function Previous(offsets: seq<nat>, j: nat): nat {
    if j < |offsets| then offsets[j] else 0
  }

  /** The items of a `NullableValuesIterator` over the offsets of a column without a bitmap. */
  function Present(offsets: seq<nat>): (r: seq<Option<nat>>)
    ensures |r| == RowCount(offsets)
    ensures forall i :: 0 <= i < |r| ==> r[i] == Some(offsets[i + 1])
  {
    var tail := Tail(offsets);
    seq(|tail|, i requires 0 <= i < |tail| => Some(tail[i]))
  }

  /** What the loop as written returns from list `j` on, over a stream of present items, when it agrees with the split. */
  predicate AgreesFrom(offsets: seq<nat>, elements: seq<Value>, items: seq<Option<nat>>, j: nat, k: nat)
    requires k == FirstShort(offsets, |elements|, RowCount(offsets))
    requires j <= k && Consumed(offsets, j) <= |elements|
  {
    var rows := AsWrittenRows(items, Previous(offsets, j), elements, Consumed(offsets, j));
    && (rows.2 <==> k < RowCount(offsets))
    && |rows.0| == k - j
    && (forall i :: 0 <= i < k - j ==> rows.0[i] == OptVal(Some(ListVal(Items(offsets, elements, j + i)))))
    && (!rows.2 ==> rows.1 == Consumed(offsets, RowCount(offsets)))
  }

  /**
   * On the stream of a column without a bitmap, the loop as written from
   * list `j` on takes the lists `j..` that the split takes, stops at the same
   * short list, and consumes the same elements.
   */
  lemma {:induction false} AsWrittenRowsPresent(offsets: seq<nat>, elements: seq<Value>, items: seq<Option<nat>>, j: nat, k: nat)
    requires k == FirstShort(offsets, |elements|, RowCount(offsets))
    requires j <= k && Consumed(offsets, j) <= |elements|
    requires |items| == RowCount(offsets) - j
    requires forall i :: 0 <= i < |items| ==> items[i] == Some(offsets[j + i + 1])
    ensures AgreesFrom(offsets, elements, items, j, k)
    decreases |items|
  {
    if items != [] {
      assert Consumed(offsets, j + 1) == Consumed(offsets, j) + Span(offsets[j], offsets[j + 1]);
      if Fits(offsets, |elements|, j) {
        assert j < k;
        AsWrittenRowsPresent(offsets, elements, items[1..], j + 1, k);
        AsWrittenRowsTake(offsets, elements, items, j, k);
      } else {
        assert k == j;
        assert Previous(offsets, j) == offsets[j];
      }
    }
  }

  /** One list taken by the loop as written, when the lists after it agree with the split. */
  lemma AsWrittenRowsTake(offsets: seq<nat>, elements: seq<Value>, items: seq<Option<nat>>, j: nat, k: nat)
    requires k == FirstShort(offsets, |elements|, RowCount(offsets))
    requires j < k && Consumed(offsets, j + 1) <= |elements|
    requires |items| == RowCount(offsets) - j
    requires items[0] == Some(offsets[j + 1])
    requires AgreesFrom(offsets, elements, items[1..], j + 1, k)
    ensures AgreesFrom(offsets, elements, items, j, k)
  {
    var pos := Consumed(offsets, j);
    var count := Span(offsets[j], offsets[j + 1]);
    assert Consumed(offsets, j + 1) == pos + count;
    assert Previous(offsets, j) == offsets[j];
    assert Previous(offsets, j + 1) == offsets[j + 1];
    var rest := AsWrittenRows(items[1..], offsets[j + 1], elements, pos + count);
    var row := OptVal(Some(ListVal(elements[pos..pos + count])));
    var rows := AsWrittenRows(items, offsets[j], elements, pos);
    assert rows == ([row] + rest.0, rest.1, rest.2);
    forall i | 0 <= i < k - j
      ensures rows.0[i] == OptVal(Some(ListVal(Items(offsets, elements, j + i))))
    {
      if i > 0 {
        assert rows.0[i] == rest.0[i - 1];
        assert j + i == (j + 1) + (i - 1);
      }
    }
  }

  /**
   * Without a bitmap, `read_list_of_options_from_array` as written decodes
   * exactly what the corrected split decodes: the discrepancy needs a bitmap.
   */
  lemma AsWrittenWithoutBitmap(offsets: seq<nat>, elements: seq<Value>, view: seq<Value>)
    ensures AsWrittenOptionList(offsets, None, elements, view) == ListSplit(offsets, elements, None, true, view)
  {
    var n := RowCount(offsets);
    ArrayIterators.NoBitmapYieldsValues(Tail(offsets));
    assert ArrayIterators.NullableItems(Tail(offsets), None).items == Present(offsets);
    if n <= |view| {
      var k := FirstShort(offsets, |elements|, n);
      AsWrittenRowsPresent(offsets, elements, Present(offsets), 0, k);
      assert AgreesFrom(offsets, elements, Present(offsets), 0, k);
      assert Previous(offsets, 0) == Start(offsets);
    }
  }

  const ExampleElements: seq<Value> := [IntVal(1), IntVal(2), IntVal(3), IntVal(4), IntVal(5)]

  /**
   * The lists `[[1, 2], None, [3, 4, 5]]` in Arrow's layout: offsets
   * `[0, 2, 2, 5]` and the bitmap `[valid, null, valid]`. As written the
   * valid lists become `None`, the null one takes the offset `2`, and the
   * three elements left over abort the decode.
   */
  lemma NullableListExample(view: seq<Value>)
    requires |view| == 3
    ensures AsWrittenOptionList([0, 2, 2, 5], Some([true, false, true]), ExampleElements, view).outcome == Panic("List too long")
  {
    var offsets: seq<nat> := [0, 2, 2, 5];
    var tail: seq<nat> := [2, 2, 5];
    assert Tail(offsets) == tail;
    ArrayIterators.BitmapItems(tail, [true, false, true]);
    ArrayIterators.BitmapPanicIff(tail, [true, false, true]);
    var stream := ArrayIterators.NullableItems(tail, Some([true, false, true]));
    assert [true, false, true][..1] == [true];
    assert stream.items == [None, Some(2), None];
    var single: seq<Option<nat>> := [None];
    assert single[1..] == [];
    assert AsWrittenRows(single, 2, ExampleElements, 2).1 == 2;
    assert !AsWrittenRows(single, 2, ExampleElements, 2).2;
    assert AsWrittenRows([Some(2), None], 0, ExampleElements, 0).1 == 2;
    assert AsWrittenRows(stream.items, 0, ExampleElements, 0).1 == 2;
  }

  /** The corrected split of the same column yields the three rows. */
  lemma NullableListSplitExample(view: seq<Value>)
    requires |view| == 3
    ensures ListSplit([0, 2, 2, 5], ExampleElements, Some([true, false, true]), true, view) ==
      Decoded(Ok(3), [OptVal(Some(ListVal([IntVal(1), IntVal(2)]))), OptVal(None), OptVal(Some(ListVal([IntVal(3), IntVal(4), IntVal(5)])))])
  {
    WellFormedSplit([0, 2, 2, 5], ExampleElements, Some([true, false, true]), true, view);
    assert ExampleElements[0..2] == [IntVal(1), IntVal(2)];
    assert ExampleElements[2..5] == [IntVal(3), IntVal(4), IntVal(5)];
  }
}
