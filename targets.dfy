/**
 * Destinations of the decoders (`DeserializationTarget`): the loop shared by
 * every leaf decoder, which zips the source rows with the destination slots
 * and stops at the first failed conversion, and the `MultiMap` field
 * projection through which a record decoder hands one field of every slot to
 * the decoder of that field.
 */
module Targets {
  import opened Wrappers
  import opened Rows

  function Min(a: nat, b: nat): nat {
    if a <= b then a else b
  }

  /** The index of the first failed conversion among the first `m` cells, or `m`. */
  function FirstFailure(cells: seq<Result<Value, DeserializationError>>, m: nat): (k: nat)
    requires m <= |cells|
    ensures k <= m
    ensures forall i :: 0 <= i < k ==> cells[i].Success?
    ensures k < m ==> cells[k].Failure?
  {
    if m == 0 then 0
    else
      var k := FirstFailure(cells, m - 1);
      if k < m - 1 then k
      else if cells[m - 1].Failure? then m - 1
      else m
  }

  /**
   * `for (s, d) in src.zip(dst.iter_mut()) { *d = cast(s)? } Ok(src.len())`:
   * `cells[i]` is the conversion of source row `i`; `count` is `src.len()`.
   */
  function ZipWrite(cells: seq<Result<Value, DeserializationError>>, view: seq<Value>, count: nat): (d: Decoded)
    ensures |d.slots| == |view| && !d.outcome.Panic?
    ensures d.outcome.Ok? ==> d.outcome.count == count
    ensures forall i :: Min(|cells|, |view|) <= i < |view| ==> d.slots[i] == view[i]
  {
    var m := Min(|cells|, |view|);
    var k := FirstFailure(cells, m);
    var slots := seq(|view|, i requires 0 <= i < |view| => if i < k then cells[i].value else view[i]);
    if k < m then Decoded(Err(cells[k].error), slots) else Decoded(Ok(count), slots)
  }

  /** The zip-write loop over a destination array. */
  method WriteCells(cells: seq<Result<Value, DeserializationError>>, dst: array<Value>, count: nat) returns (r: Outcome)
    modifies dst
    ensures Decoded(r, dst[..]) == ZipWrite(cells, old(dst[..]), count)
  {
    var m := Min(|cells|, dst.Length);
    var i := 0;
    while i < m
      invariant 0 <= i <= m
      invariant FirstFailure(cells, i) == i
      invariant forall j :: 0 <= j < i ==> dst[j] == cells[j].value
      invariant forall j :: i <= j < dst.Length ==> dst[j] == old(dst[j])
    {
      if cells[i].Failure? {
        return Err(cells[i].error);
      }
      dst[i] := cells[i].value;
      i := i + 1;
    }
    r := Ok(count);
  }

  /**
   * When every conversion within reach succeeds, the first `min(src.len, dst.len)`
   * slots receive the converted rows, later slots are left unchanged, and the
   * count is `src.len()`.
   */
  lemma ZipWriteSucceeds(cells: seq<Result<Value, DeserializationError>>, view: seq<Value>, count: nat)
    requires forall i :: 0 <= i < Min(|cells|, |view|) ==> cells[i].Success?
    ensures ZipWrite(cells, view, count).outcome == Ok(count)
    ensures |ZipWrite(cells, view, count).slots| == |view|
    ensures forall i :: 0 <= i < Min(|cells|, |view|) ==> ZipWrite(cells, view, count).slots[i] == cells[i].value
    ensures forall i :: Min(|cells|, |view|) <= i < |view| ==> ZipWrite(cells, view, count).slots[i] == view[i]
  {
  }

  /**
   * The first failed conversion within reach is the error returned; the
   * slots before it are written and the others are left unchanged.
   */
  lemma ZipWriteFails(cells: seq<Result<Value, DeserializationError>>, view: seq<Value>, count: nat, k: nat)
    requires k < Min(|cells|, |view|) && cells[k].Failure?
    requires forall i :: 0 <= i < k ==> cells[i].Success?
    ensures ZipWrite(cells, view, count).outcome == Err(cells[k].error)
    ensures |ZipWrite(cells, view, count).slots| == |view|
    ensures forall i :: 0 <= i < k ==> ZipWrite(cells, view, count).slots[i] == cells[i].value
    ensures forall i :: k <= i < |view| ==> ZipWrite(cells, view, count).slots[i] == view[i]
  {
  }

  // ----- the `MultiMap` projection -----

  /**
   * The closure of a `MultiMap`: `|s| &mut s.field_k` in the generated
   * `read_from_array`, and `|s| &mut unsafe { s.as_mut().unwrap_unchecked() }.field_k`
   * in the generated `read_options_from_array`.
   */
  datatype Lens = FieldOf(k: nat) | FieldOfSome(k: nat)

  /** Whether the closure can reach into a slot (a slot of the right shape). */
  predicate Focusable(slot: Value, lens: Lens) {
    match lens
    case FieldOf(k) => slot.RecordVal? && k < |slot.fields|
    case FieldOfSome(k) =>
      slot.OptVal? && slot.opt.Some? && slot.opt.value.RecordVal? && k < |slot.opt.value.fields|
  }

  /** The field the closure yields for a slot. */
  function Get(slot: Value, lens: Lens): Value
    requires Focusable(slot, lens)
  {
    match lens
    case FieldOf(k) => slot.fields[k]
    case FieldOfSome(k) => slot.opt.value.fields[k]
  }

  /** The slot after its field was written through the closure. */
  function Put(slot: Value, lens: Lens, v: Value): (r: Value)
    requires Focusable(slot, lens)
    ensures Focusable(r, lens)
  {
    match lens
    case FieldOf(k) => RecordVal(slot.fields[k := v])
    case FieldOfSome(k) => OptVal(Some(RecordVal(slot.opt.value.fields[k := v])))
  }

  predicate AllFocusable(view: seq<Value>, lens: Lens) {
    forall i :: 0 <= i < |view| ==> Focusable(view[i], lens)
  }

  /** What `MultiMap { iter: view, f }` yields: `f` applied to each slot of its base, in order. */
  function Project(view: seq<Value>, lens: Lens): (p: seq<Value>)
    requires AllFocusable(view, lens)
    ensures |p| == |view|
    ensures forall i :: 0 <= i < |view| ==> p[i] == Get(view[i], lens)
  {
    seq(|view|, i requires 0 <= i < |view| => Get(view[i], lens))
  }

  /** The base after a decoder wrote `p` through the projection. */
  function Embed(view: seq<Value>, lens: Lens, p: seq<Value>): (r: seq<Value>)
    requires AllFocusable(view, lens) && |p| == |view|
    ensures |r| == |view| && AllFocusable(r, lens)
    ensures forall i :: 0 <= i < |view| ==> r[i] == Put(view[i], lens, p[i])
  {
    seq(|view|, i requires 0 <= i < |view| => Put(view[i], lens, p[i]))
  }

  /** Writing a field back and reading it again gives what was written. */
  lemma GetPut(slot: Value, lens: Lens, v: Value)
    requires Focusable(slot, lens)
    ensures Get(Put(slot, lens, v), lens) == v
  {
  }

  /** Writing back what was read changes nothing. */
  lemma PutGet(slot: Value, lens: Lens)
    requires Focusable(slot, lens)
    ensures Put(slot, lens, Get(slot, lens)) == slot
  {
    match lens
    case FieldOf(k) =>
      assert slot.fields[k := slot.fields[k]] == slot.fields;
    case FieldOfSome(k) =>
      assert slot.opt.value.fields[k := slot.opt.value.fields[k]] == slot.opt.value.fields;
  }

  /** Writing through the projection touches that field only: the other fields keep their values. */
  lemma PutOtherField(slot: Value, k: nat, j: nat, v: Value)
    requires Focusable(slot, FieldOf(k)) && j < |slot.fields| && j != k
    ensures Put(slot, FieldOf(k), v).fields[j] == slot.fields[j]
  {
  }

  /** A projection of a base written through the same projection is what was written. */
  lemma ProjectEmbed(view: seq<Value>, lens: Lens, p: seq<Value>)
    requires AllFocusable(view, lens) && |p| == |view|
    ensures Project(Embed(view, lens, p), lens) == p
  {
    var e := Embed(view, lens, p);
    forall i | 0 <= i < |view| ensures Project(e, lens)[i] == p[i] {
      GetPut(view[i], lens, p[i]);
    }
  }

  /** Writing the projection back unchanged leaves the base unchanged. */
  lemma EmbedProject(view: seq<Value>, lens: Lens)
    requires AllFocusable(view, lens)
    ensures Embed(view, lens, Project(view, lens)) == view
  {
    var e := Embed(view, lens, Project(view, lens));
    forall i | 0 <= i < |view| ensures e[i] == view[i] {
      PutGet(view[i], lens);
    }
  }

  /** Copies one field of every slot out of the base into a fresh buffer (the projection's view). */
  method ProjectInto(dst: array<Value>, lens: Lens) returns (p: array<Value>)
    requires AllFocusable(dst[..], lens)
    ensures fresh(p) && p[..] == Project(dst[..], lens)
  {
    p := new Value[dst.Length];
    var i := 0;
    while i < dst.Length
      invariant 0 <= i <= dst.Length
      invariant forall j :: 0 <= j < i ==> p[j] == Get(dst[j], lens)
    {
      p[i] := Get(dst[i], lens);
      i := i + 1;
    }
    assert p[..] == Project(dst[..], lens);
  }

  /** Writes the buffer back through the projection, one slot at a time. */
  method EmbedFrom(dst: array<Value>, lens: Lens, p: array<Value>)
    requires AllFocusable(dst[..], lens) && p.Length == dst.Length && p != dst
    modifies dst
    ensures dst[..] == Embed(old(dst[..]), lens, p[..])
  {
    var i := 0;
    while i < dst.Length
      invariant 0 <= i <= dst.Length
      invariant forall j :: 0 <= j < i ==> dst[j] == Put(old(dst[j]), lens, p[j])
      invariant forall j :: i <= j < dst.Length ==> dst[j] == old(dst[j])
    {
      dst[i] := Put(dst[i], lens, p[i]);
      i := i + 1;
    }
  }
}
