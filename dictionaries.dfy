/**
 * Dictionary lookups (`read_from_dictionary_array`,
 * `read_options_from_dictionary_array`) once the dictionary's values are
 * decoded: each key selects a decoded value, and a key past the end of the
 * dictionary is an error.
 */
module Dictionaries {
  import opened Wrappers
  import opened Arrow
  import opened Rows
  import Targets

  /** The value a key selects: `deserialized_values.get(key)`, or `DictionaryOverflow{key, len, data_type}`. */
  function Lookup(key: nat, decoded: seq<Value>, dt: DataType): (r: Result<Value, DeserializationError>)
    ensures r.Success? <==> key < |decoded|
    ensures r.Success? ==> r.value == decoded[key]
    ensures r.Failure? ==> r.error == DictionaryOverflow(key, |decoded|, dt)
  {
    if key < |decoded| then Success(decoded[key]) else Failure(DictionaryOverflow(key, |decoded|, dt))
  }

  /** One lookup per key, in key order. */
  function LookupCells(keys: seq<nat>, decoded: seq<Value>, dt: DataType): (cells: seq<Result<Value, DeserializationError>>)
    ensures |cells| == |keys|
  {
    seq(|keys|, i requires 0 <= i < |keys| => Lookup(keys[i], decoded, dt))
  }

  /**
   * The zip of the bitmap with the keys: a set bit (`not_null`) looks the key
   * up and wraps it in `Some`, a clear bit gives `None`.
   */
  function OptionLookupCells(bits: seq<bool>, keys: seq<nat>, decoded: seq<Value>, dt: DataType)
    : (cells: seq<Result<Value, DeserializationError>>)
    ensures |cells| == Targets.Min(|bits|, |keys|)
  {
    seq(Targets.Min(|bits|, |keys|), i requires 0 <= i < Targets.Min(|bits|, |keys|) =>
      if bits[i] then
        var v := Lookup(keys[i], decoded, dt);
        if v.Success? then Success(OptVal(Some(v.value))) else Failure(v.error)
      else Success(OptVal(None)))
  }

  /** The lookup loop of `read_from_dictionary_array`, which returns `src.len()`. */
  function LookupWrite(a: Array, decoded: seq<Value>, view: seq<Value>): (d: Decoded)
    requires IsDictionary(a)
    ensures |d.slots| == |view| && !d.outcome.Panic?
    ensures d.outcome.Ok? ==> d.outcome.count == Len(a)
  {
    Targets.ZipWrite(LookupCells(a.data.keys, decoded, a.dataType), view, Len(a))
  }

  /** The lookup loop of `read_options_from_dictionary_array` when the keys have a bitmap. */
  function OptionLookupWrite(a: Array, decoded: seq<Value>, view: seq<Value>): (d: Decoded)
    requires IsDictionary(a) && a.nulls.Some?
    ensures |d.slots| == |view| && !d.outcome.Panic?
    ensures d.outcome.Ok? ==> d.outcome.count == Len(a)
  {
    Targets.ZipWrite(OptionLookupCells(a.nulls.value, a.data.keys, decoded, a.dataType), view, Len(a))
  }

  /**
   * With every key in range, slot `i` becomes a copy of the decoded value
   * its key selects for `i < min(src.len, dst.len)`, later slots are left
   * unchanged, and the count is `src.len()`.
   */
  lemma LookupContract(a: Array, decoded: seq<Value>, view: seq<Value>)
    requires IsDictionary(a)
    requires forall i :: 0 <= i < |a.data.keys| ==> a.data.keys[i] < |decoded|
    ensures LookupWrite(a, decoded, view).outcome == Ok(Len(a))
    ensures forall i :: 0 <= i < Targets.Min(Len(a), |view|) ==>
      LookupWrite(a, decoded, view).slots[i] == decoded[a.data.keys[i]]
    ensures forall i :: Targets.Min(Len(a), |view|) <= i < |view| ==> LookupWrite(a, decoded, view).slots[i] == view[i]
  {
    Targets.ZipWriteSucceeds(LookupCells(a.data.keys, decoded, a.dataType), view, Len(a));
  }

  /** The first key past the end of the dictionary stops the loop with `DictionaryOverflow`. */
  lemma LookupOverflow(a: Array, decoded: seq<Value>, view: seq<Value>, k: nat)
    requires IsDictionary(a)
    requires k < Targets.Min(Len(a), |view|) && a.data.keys[k] >= |decoded|
    requires forall i :: 0 <= i < k ==> a.data.keys[i] < |decoded|
    ensures LookupWrite(a, decoded, view).outcome == Err(DictionaryOverflow(a.data.keys[k], |decoded|, a.dataType))
  {
    Targets.ZipWriteFails(LookupCells(a.data.keys, decoded, a.dataType), view, Len(a), k);
  }

  /** With a bitmap, a clear bit gives `None` and a set bit `Some` of the selected value. */
  lemma OptionLookupContract(a: Array, decoded: seq<Value>, view: seq<Value>)
    requires IsDictionary(a) && a.nulls.Some?
    requires forall i :: 0 <= i < |a.data.keys| ==> a.data.keys[i] < |decoded|
    ensures OptionLookupWrite(a, decoded, view).outcome == Ok(Len(a))
    ensures forall i :: 0 <= i < Targets.Min(Targets.Min(|a.nulls.value|, Len(a)), |view|) ==>
      OptionLookupWrite(a, decoded, view).slots[i] ==
        if a.nulls.value[i] then OptVal(Some(decoded[a.data.keys[i]])) else OptVal(None)
  {
    Targets.ZipWriteSucceeds(OptionLookupCells(a.nulls.value, a.data.keys, decoded, a.dataType), view, Len(a));
  }
}
