/**
 * The two iterator helpers the decoders are built on: `NotNullArrayIter`, a
 * cursor over an array that has no validity bitmap, and
 * `NullableValuesIterator`, which threads absent/present bits through a
 * stream of values.
 */
module ArrayIterators {
  import opened Wrappers

  /** `NotNullArrayIter`: the values of an array without a validity bitmap, and a cursor. */
  class NotNullArrayIter<T> {
    const values: seq<T>
    var index: nat

    constructor (values: seq<T>)
      ensures this.values == values && index == 0
    {
      this.values := values;
      index := 0;
    }

    /** `NotNullArrayIter::new`: no iterator at all when the array has a bitmap, whatever its bits. */
    static method New(nulls: Option<seq<bool>>, values: seq<T>) returns (r: Option<NotNullArrayIter<T>>)
      ensures r.None? <==> nulls.Some?
      ensures r.Some? ==> fresh(r.value) && r.value.values == values && r.value.index == 0
    {
      if nulls.Some? {
        r := None;
      } else {
        var it := new NotNullArrayIter(values);
        r := Some(it);
      }
    }

    /** `next`: `value(index)` and advance, or `None` once the cursor reached the length. */
    method Next() returns (r: Option<T>)
      modifies this
      ensures old(index) >= |values| ==> r.None? && index == old(index)
      ensures old(index) < |values| ==> r == Some(values[old(index)]) && index == old(index) + 1
    {
      if index >= |values| {
        return None;
      }
      r := Some(values[index]);
      index := index + 1;
    }
  }

  /**
   * Drains a fresh `NotNullArrayIter`: nothing when the array has a bitmap,
   * otherwise `value(0)`, …, `value(len - 1)` in order, after which the
   * iterator keeps answering `None`.
   */
  method CollectNotNull<T>(nulls: Option<seq<bool>>, values: seq<T>) returns (r: Option<seq<T>>)
    ensures r.None? <==> nulls.Some?
    ensures r.Some? ==> r.value == values
  {
    var made := NotNullArrayIter.New(nulls, values);
    if made.None? {
      return None;
    }
    var it := made.value;
    var acc: seq<T> := [];
    var x := it.Next();
    while x.Some?
      invariant it.values == values && it.index <= |values|
      invariant x.Some? ==> it.index >= 1 && acc == values[..it.index - 1] && x.value == values[it.index - 1]
      invariant x.None? ==> it.index == |values| && acc == values
      decreases |values| - it.index, x.Some?
    {
      acc := acc + [x.value];
      x := it.Next();
    }
    var again := it.Next();
    assert again.None?;
    r := Some(acc);
  }

  /** One answer of `NullableValuesIterator::next`. */
  datatype Step<T> =
    | Yield(item: Option<T>)
    /** `expect("more 'false' bits in nulls() than there are values")` panicked. */
    | Exhausted
    | End

  /** Everything a fresh `NullableValuesIterator` yields before ending or panicking. */
  datatype Drained<T> = Drained(items: seq<Option<T>>, panicked: bool)

  /**
   * `NullableValuesIterator`: the values not yet consumed and, when present,
   * the bits not yet consumed. A `true` bit stands for an absent item.
   */
  class NullableValuesIterator<T> {
    var values: seq<T>
    var nulls: Option<seq<bool>>

    constructor (values: seq<T>, nulls: Option<seq<bool>>)
      ensures this.values == values && this.nulls == nulls
    {
      this.values := values;
      this.nulls := nulls;
    }

    /** `len()`: the number of bits left when there is a bitmap, else the number of values left. */
    function Len(): nat
      reads this
    {
      Remaining(values, nulls)
    }

    /** `next`: one step of the iteration, as `Advance` describes it. */
    method Next() returns (r: Step<T>)
      modifies this
      ensures Advanced(r, values, nulls) == Advance(old(values), old(nulls))
    {
      match nulls {
        case None =>
          if values == [] {
            r := End;
          } else {
            r := Yield(Some(values[0]));
            values := values[1..];
          }
        case Some(bits) =>
          if bits == [] {
            r := End;
          } else if !bits[0] {
            nulls := Some(bits[1..]);
            if values == [] {
              r := Exhausted;
            } else {
              r := Yield(Some(values[0]));
              values := values[1..];
            }
          } else {
            nulls := Some(bits[1..]);
            r := Yield(None);
          }
      }
    }
  }

  /** The answer of one `next` call, with the values and bits left afterwards. */
  datatype Advanced<T> = Advanced(step: Step<T>, values: seq<T>, nulls: Option<seq<bool>>)

  /** What drives the iteration: the number of bits left, or of values left when there is no bitmap. */
  function Remaining<T>(values: seq<T>, nulls: Option<seq<bool>>): nat {
    if nulls.None? then |values| else |nulls.value|
  }

  /**
   * One step of `NullableValuesIterator::next`. Without a bitmap: the next
   * value, or the end. With one: a `false` bit consumes a value (a panic when
   * there is none left), a `true` bit yields `None` without consuming, and
   * the end of the bitmap ends the iteration.
   */
  function Advance<T>(values: seq<T>, nulls: Option<seq<bool>>): (a: Advanced<T>)
    ensures a.step.Yield? ==> Remaining(a.values, a.nulls) < Remaining(values, nulls)
    ensures a.step.Yield? && a.step.item.Some? ==> values != [] && a.step.item.value == values[0] && a.values == values[1..]
    ensures a.step.Yield? && a.step.item.None? ==> nulls.Some? && nulls.value != [] && nulls.value[0] && a.values == values
    ensures a.step.Exhausted? <==> nulls.Some? && nulls.value != [] && !nulls.value[0] && values == []
    ensures a.step.End? <==> Remaining(values, nulls) == 0
  {
    match nulls
    case None =>
      if values == [] then Advanced(End, values, nulls)
      else Advanced(Yield(Some(values[0])), values[1..], nulls)
    case Some(bits) =>
      if bits == [] then Advanced(End, values, nulls)
      else if !bits[0] then
        if values == [] then Advanced(Exhausted, values, Some(bits[1..]))
        else Advanced(Yield(Some(values[0])), values[1..], Some(bits[1..]))
      else Advanced(Yield(None), values, Some(bits[1..]))
  }

  /** The whole output of a `NullableValuesIterator` started on `values` and `nulls`. */
  function NullableItems<T>(values: seq<T>, nulls: Option<seq<bool>>): (r: Drained<T>)
    ensures |r.items| <= Remaining(values, nulls)
    decreases Remaining(values, nulls)
  {
    var a := Advance(values, nulls);
    match a.step
    case End => Drained([], false)
    case Exhausted => Drained([], true)
    case Yield(item) =>
      var rest := NullableItems(a.values, a.nulls);
      Drained([item] + rest.items, rest.panicked)
  }

  /** Drains a fresh `NullableValuesIterator` by calling `next` until it ends or panics. */
  method CollectNullable<T>(values: seq<T>, nulls: Option<seq<bool>>) returns (r: Drained<T>)
    ensures r == NullableItems(values, nulls)
  {
    var it := new NullableValuesIterator(values, nulls);
    var acc: seq<Option<T>> := [];
    while true
      invariant NullableItems(values, nulls) ==
        Drained(acc + NullableItems(it.values, it.nulls).items, NullableItems(it.values, it.nulls).panicked)
      decreases Remaining(it.values, it.nulls)
    {
      ItemsStep(acc, it.values, it.nulls);
      var step := it.Next();
      match step {
        case End =>
          return Drained(acc, false);
        case Exhausted =>
          return Drained(acc, true);
        case Yield(item) =>
          acc := acc + [item];
      }
    }
  }

  /** One step of the iteration seen from the items gathered so far. */
  lemma ItemsStep<T>(acc: seq<Option<T>>, values: seq<T>, nulls: Option<seq<bool>>)
    ensures Advance(values, nulls).step.End? ==> NullableItems(values, nulls) == Drained([], false)
    ensures Advance(values, nulls).step.Exhausted? ==> NullableItems(values, nulls) == Drained([], true)
    ensures Advance(values, nulls).step.Yield? ==>
      var a := Advance(values, nulls);
      var rest := NullableItems(a.values, a.nulls);
      acc + NullableItems(values, nulls).items == (acc + [a.step.item]) + rest.items
      && NullableItems(values, nulls).panicked == rest.panicked
  {
    var a := Advance(values, nulls);
    var d := NullableItems(values, nulls);
    match a.step {
      case End =>
        assert d == Drained([], false);
      case Exhausted =>
        assert d == Drained([], true);
      case Yield(item) =>
        var rest := NullableItems(a.values, a.nulls);
        assert d == Drained([item] + rest.items, rest.panicked);
        assert acc + ([item] + rest.items) == (acc + [item]) + rest.items;
    }
  }

  /** The number of `false` bits, i.e. of values a bitmap asks for. */
  function FalseCount(bits: seq<bool>): nat {
    if bits == [] then 0 else (if bits[0] then 0 else 1) + FalseCount(bits[1..])
  }

  /** Without a bitmap the iterator yields exactly the values, each wrapped in `Some`. */
  lemma {:induction false} NoBitmapYieldsValues<T>(values: seq<T>)
    ensures NullableItems(values, None) == Drained(seq(|values|, i requires 0 <= i < |values| => Some(values[i])), false)
    decreases |values|
  {
    if values != [] {
      NoBitmapYieldsValues(values[1..]);
    }
  }

  /** With a bitmap, the iterator panics exactly when the bitmap asks for more values than there are. */
  lemma {:induction false} BitmapPanicIff<T>(values: seq<T>, bits: seq<bool>)
    ensures NullableItems(values, Some(bits)).panicked <==> FalseCount(bits) > |values|
    decreases |bits|
  {
    if bits != [] {
      if !bits[0] {
        if values != [] {
          BitmapPanicIff(values[1..], bits[1..]);
        } else {
          assert FalseCount(bits) >= 1;
        }
      } else {
        BitmapPanicIff(values, bits[1..]);
      }
    }
  }

  /**
   * With a bitmap and enough values, one item per bit: `None` for a `true`
   * bit, and for a `false` bit the next unconsumed value.
   */
  lemma {:induction false} BitmapItems<T>(values: seq<T>, bits: seq<bool>)
    requires FalseCount(bits) <= |values|
    ensures |NullableItems(values, Some(bits)).items| == |bits|
    ensures forall i :: 0 <= i < |bits| && bits[i] ==> NullableItems(values, Some(bits)).items[i] == None
    ensures forall i :: 0 <= i < |bits| && !bits[i] ==>
      FalseCount(bits[..i]) < |values| && NullableItems(values, Some(bits)).items[i] == Some(values[FalseCount(bits[..i])])
    decreases |bits|
  {
    if bits != [] {
      var items := NullableItems(values, Some(bits)).items;
      var rest := if bits[0] then values else values[1..];
      BitmapItems(rest, bits[1..]);
      var later := NullableItems(rest, Some(bits[1..])).items;
      assert items == [if bits[0] then None else Some(values[0])] + later;
      forall i | 0 < i < |bits|
        ensures bits[i] ==> items[i] == None
        ensures !bits[i] ==> FalseCount(bits[..i]) < |values| && items[i] == Some(values[FalseCount(bits[..i])])
      {
        FalseCountPrefix(bits, i);
      }
      assert bits[..0] == [];
    }
  }

  /** Counting the `false` bits of a prefix one bit at a time from the front. */
  lemma FalseCountPrefix(bits: seq<bool>, i: nat)
    requires 0 < i <= |bits|
    ensures FalseCount(bits[..i]) == (if bits[0] then 0 else 1) + FalseCount(bits[1..][..i - 1])
  {
    assert bits[..i][1..] == bits[1..][..i - 1];
  }

  /** `len()` of a fresh iterator is the number of items it yields, when it does not panic. */
  lemma {:induction false} LenIsItemCount<T>(values: seq<T>, nulls: Option<seq<bool>>)
    requires !NullableItems(values, nulls).panicked
    ensures |NullableItems(values, nulls).items| == if nulls.None? then |values| else |nulls.value|
  {
    if nulls.None? {
      NoBitmapYieldsValues(values);
    } else {
      BitmapPanicIff(values, nulls.value);
      BitmapItems(values, nulls.value);
    }
  }
}
