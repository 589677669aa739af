/**
 * The pieces of the `read_from_array` / `read_options_from_array` that
 * `#[derive(ArRowDeserialize)]` generates for a structure: the prefill loop
 * over the destination, and the per-field projections (`MultiMap`) through
 * which each field column is decoded.
 */
module Records {
  import opened Wrappers
  import opened Rows
  import opened Targets

  /** Whether the prefill loop overwrites slot `i`: every slot without a bitmap, else the slots whose bit is `resetWhen`. */
  predicate Resets(nulls: Option<seq<bool>>, resetWhen: bool, i: nat) {
    nulls.None? || (i < |nulls.value| && nulls.value[i] == resetWhen)
  }

  /**
   * The prefill loop: `for struct_ in dst.iter_mut()` without a bitmap,
   * `for (struct_, b) in dst.iter_mut().zip(nulls)` with one.
   */
  function Prefill(view: seq<Value>, nulls: Option<seq<bool>>, resetWhen: bool, fill: Value): (r: seq<Value>)
    ensures |r| == |view|
  {
    seq(|view|, i requires 0 <= i < |view| => if Resets(nulls, resetWhen, i) then fill else view[i])
  }

  method PrefillSlots(dst: array<Value>, nulls: Option<seq<bool>>, resetWhen: bool, fill: Value)
    modifies dst
    ensures dst[..] == Prefill(old(dst[..]), nulls, resetWhen, fill)
  {
    var i := 0;
    while i < dst.Length
      invariant 0 <= i <= dst.Length
      invariant forall j :: 0 <= j < i ==> dst[j] == if Resets(nulls, resetWhen, j) then fill else old(dst[j])
      invariant forall j :: i <= j < dst.Length ==> dst[j] == old(dst[j])
    {
      if Resets(nulls, resetWhen, i) {
        dst[i] := fill;
      }
      i := i + 1;
    }
  }

  /**
   * The last step of the corrected `Option` decoder: a row the bitmap marks
   * null becomes `None`.
   */
  function MaskNulls(slots: seq<Value>, nulls: Option<seq<bool>>): (r: seq<Value>)
    ensures |r| == |slots|
  {
    seq(|slots|, i requires 0 <= i < |slots| =>
      if nulls.Some? && i < |nulls.value| && !nulls.value[i] then OptVal(None) else slots[i])
  }

  method MaskNullSlots(dst: array<Value>, nulls: Option<seq<bool>>)
    modifies dst
    ensures dst[..] == MaskNulls(old(dst[..]), nulls)
  {
    var i := 0;
    while i < dst.Length
      invariant 0 <= i <= dst.Length
      invariant forall j :: 0 <= j < i ==>
        dst[j] == if nulls.Some? && j < |nulls.value| && !nulls.value[j] then OptVal(None) else old(dst[j])
      invariant forall j :: i <= j < dst.Length ==> dst[j] == old(dst[j])
    {
      if nulls.Some? && i < |nulls.value| && !nulls.value[i] {
        dst[i] := OptVal(None);
      }
      i := i + 1;
    }
  }

  /** The closure of the `MultiMap` for field `k`: `struct_.field_k`, or `struct_.as_mut().unwrap_unchecked().field_k`. */
  function FieldLens(optional: bool, k: nat): Lens {
    if optional then FieldOfSome(k) else FieldOf(k)
  }

  /** A slot holds a record of type `t`, inside `Some` for an `Option` decoder. */
  predicate RecordSlot(v: Value, t: RustType, optional: bool) {
    if optional then v.OptVal? && v.opt.Some? && HasType(v.opt.value, t) else HasType(v, t)
  }

  predicate AllRecords(view: seq<Value>, t: RustType, optional: bool) {
    forall i :: 0 <= i < |view| ==> RecordSlot(view[i], t, optional)
  }

  /** Over slots that hold records, the projection for field `k` can be taken. */
  lemma RecordsFocusable(view: seq<Value>, t: RustType, optional: bool, k: nat)
    requires t.StructT? && k < |t.fields| && AllRecords(view, t, optional)
    ensures AllFocusable(view, FieldLens(optional, k))
  {
    forall i | 0 <= i < |view|
      ensures Focusable(view[i], FieldLens(optional, k))
    {
      assert RecordSlot(view[i], t, optional);
    }
  }

  /**
   * Over slots that hold records, the projection for field `k` can be taken
   * and yields values of the field's type.
   */
  lemma ProjectTyped(view: seq<Value>, t: RustType, optional: bool, k: nat)
    requires t.StructT? && k < |t.fields| && AllRecords(view, t, optional)
    ensures AllFocusable(view, FieldLens(optional, k))
    ensures Typed(Project(view, FieldLens(optional, k)), t.fields[k].ty)
  {
    RecordsFocusable(view, t, optional, k);
    forall i | 0 <= i < |view|
      ensures HasType(Project(view, FieldLens(optional, k))[i], t.fields[k].ty)
    {
      assert RecordSlot(view[i], t, optional);
    }
  }

  /** Writing values of the field's type through the projection keeps every slot a record of type `t`. */
  lemma EmbedTyped(view: seq<Value>, t: RustType, optional: bool, k: nat, p: seq<Value>)
    requires t.StructT? && k < |t.fields| && AllRecords(view, t, optional)
    requires |p| == |view| && Typed(p, t.fields[k].ty)
    ensures AllFocusable(view, FieldLens(optional, k))
    ensures AllRecords(Embed(view, FieldLens(optional, k), p), t, optional)
  {
    ProjectTyped(view, t, optional, k);
    var e := Embed(view, FieldLens(optional, k), p);
    forall i | 0 <= i < |view|
      ensures RecordSlot(e[i], t, optional)
    {
      assert RecordSlot(view[i], t, optional);
      var r := if optional then view[i].opt.value else view[i];
      var r' := if optional then e[i].opt.value else e[i];
      assert r'.fields == r.fields[k := p[i]];
      assert forall j :: 0 <= j < |t.fields| ==> HasType(r'.fields[j], t.fields[j].ty);
    }
  }

  /** Field `k` of every slot: the projection the decoder of field `k` sees. */
  function FieldColumn(view: seq<Value>, t: RustType, optional: bool, k: nat): (c: seq<Value>)
    requires t.StructT? && k < |t.fields| && AllRecords(view, t, optional)
    ensures |c| == |view|
  {
    RecordsFocusable(view, t, optional, k);
    Project(view, FieldLens(optional, k))
  }

  /**
   * Writing field `k` through the projection changes field `k` of every slot
   * to what was written and leaves every other field as it was.
   */
  lemma FieldColumnAfterEmbed(view: seq<Value>, t: RustType, optional: bool, k: nat, j: nat, p: seq<Value>)
    requires t.StructT? && k < |t.fields| && j < |t.fields| && AllRecords(view, t, optional)
    requires |p| == |view| && Typed(p, t.fields[k].ty)
    ensures AllFocusable(view, FieldLens(optional, k))
    ensures AllRecords(Embed(view, FieldLens(optional, k), p), t, optional)
    ensures FieldColumn(Embed(view, FieldLens(optional, k), p), t, optional, j) ==
      if j == k then p else FieldColumn(view, t, optional, j)
  {
    EmbedTyped(view, t, optional, k, p);
    var e := Embed(view, FieldLens(optional, k), p);
    var c := FieldColumn(e, t, optional, j);
    ProjectTyped(view, t, optional, j);
    if j == k {
      ProjectEmbed(view, FieldLens(optional, k), p);
    } else {
      forall i | 0 <= i < |view|
        ensures c[i] == FieldColumn(view, t, optional, j)[i]
      {
        assert RecordSlot(view[i], t, optional);
      }
    }
  }

  /**
   * The non-`Option` prefill (`if b { *struct_ = Default::default() }`)
   * resets the rows whose bit is set (the valid rows) and keeps the null
   * ones; the slots stay records of the structure's type.
   */
  lemma RecordPrefill(view: seq<Value>, t: RustType, nulls: Option<seq<bool>>)
    requires t.StructT? && Typed(view, t)
    ensures AllRecords(Prefill(view, nulls, true, Default(t)), t, false)
    ensures forall i :: 0 <= i < |view| && Resets(nulls, true, i) ==> Prefill(view, nulls, true, Default(t))[i] == Default(t)
    ensures forall i :: 0 <= i < |view| && !Resets(nulls, true, i) ==> Prefill(view, nulls, true, Default(t))[i] == view[i]
  {
    DefaultHasType(t);
  }

  /**
   * The corrected `Option` prefill: every slot becomes `Some(Default::default())`
   * whatever the bitmap (null rows are masked once the fields are written),
   * so every projection can be taken.
   */
  function OptionPrefill(view: seq<Value>, t: RustType): (r: seq<Value>)
    ensures |r| == |view| && AllRecords(r, t, true)
  {
    DefaultHasType(t);
    Prefill(view, None, false, OptVal(Some(Default(t))))
  }

  /**
   * The `Option` prefill as written (`if !b { *struct_ = Some(Default::default()) }`)
   * fills the null rows with `Some` and leaves the valid rows as they were.
   * A valid row that held `None` stays `None`, and the projection
   * `unwrap_unchecked()` is then applied to `None`.
   */
  lemma OptionPrefillAsWritten(view: seq<Value>, t: RustType, nulls: seq<bool>)
    requires t.StructT?
    ensures forall i :: 0 <= i < |view| && i < |nulls| && nulls[i] ==>
      Prefill(view, Some(nulls), false, OptVal(Some(Default(t))))[i] == view[i]
    ensures forall i :: 0 <= i < |view| && i < |nulls| && !nulls[i] ==>
      Prefill(view, Some(nulls), false, OptVal(Some(Default(t))))[i] == OptVal(Some(Default(t)))
  {
  }

  const OneField: RustType := StructT("Row", [FieldDecl("a", I64T)])

  /**
   * A one-row destination holding `None`, decoded from a struct column whose
   * only row is valid: the as-written prefill leaves the slot `None`, a
   * well-typed slot that the field projection cannot reach.
   */
  lemma OptionPrefillUnsoundExample()
    ensures Typed([OptVal(None)], OptionT(OneField))
    ensures !AllFocusable(Prefill([OptVal(None)], Some([true]), false, OptVal(Some(Default(OneField)))), FieldOfSome(0))
    ensures AllFocusable(OptionPrefill([OptVal(None)], OneField), FieldOfSome(0))
  {
    var r := Prefill([OptVal(None)], Some([true]), false, OptVal(Some(Default(OneField))));
    assert r[0] == OptVal(None);
    ProjectTyped(OptionPrefill([OptVal(None)], OneField), OneField, true, 0);
  }
}
