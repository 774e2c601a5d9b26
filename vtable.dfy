/**
 * Virtual method tables: one slot per method name, a method overriding
 * an inherited one taking over the inherited slot, and the LLVM text of
 * the table as an `i8*` array.
 */
module Vtables {
  import opened Wrappers
  import opened CGTypes
  import opened CodegenUtils

  type Ident = string

  /** The implementing function of a slot and its LLVM signature. */
  datatype VTableEntry = VTableEntry(realIdent: Ident, retType: CGType, argTypes: seq<CGType>)

  /** `VTableEntry::as_ptr`: the function pointer type, `ret (args)*`. */
  function AsPtr(e: VTableEntry): Option<string>
  {
    var ret :- UserType(e.retType);
    var args :- UserTypes(e.argTypes);
    Some(ret + " (" + Join(args, ",") + ")*")
  }

  /** `VTableEntry::as_i8_ptr`: the function cast to `i8*`. */
  function AsI8Ptr(e: VTableEntry): Option<string>
  {
    var p :- AsPtr(e);
    Some("i8* bitcast (" + p + " @" + e.realIdent + " to i8*)")
  }

  /** The `i8*` text of each entry, in slot order. */
  function EntriesText(fs: seq<VTableEntry>): (r: Option<seq<string>>)
    ensures r.Some? <==> forall i :: 0 <= i < |fs| ==> AsI8Ptr(fs[i]).Some?
    ensures r.Some? ==> |r.value| == |fs| && forall i :: 0 <= i < |fs| ==> r.value[i] == AsI8Ptr(fs[i]).value
    decreases |fs|
  {
    if |fs| == 0 then Some([])
    else
      var h :- AsI8Ptr(fs[0]);
      var rest :- EntriesText(fs[1..]);
      Some([h] + rest)
  }

  /** An entry has a pointer type exactly when neither its result nor an argument is the null type. */
  lemma AsPtrDefined(e: VTableEntry)
    ensures AsPtr(e).Some? <==> e.retType.t != TNull && forall i :: 0 <= i < |e.argTypes| ==> e.argTypes[i].t != TNull
    ensures AsI8Ptr(e).Some? <==> AsPtr(e).Some?
  {
    PointerTypes(e.retType);
    forall i | 0 <= i < |e.argTypes| {
      PointerTypes(e.argTypes[i]);
    }
  }

  class VTable {
    var fs: seq<VTableEntry>
    var idxs: map<Ident, nat>

    /** Each name owns a distinct valid slot, and there are as many names as slots. */
    ghost predicate Valid()
      reads this
    {
      (forall x :: x in idxs ==> idxs[x] < |fs|) &&
      (forall x, y :: x in idxs && y in idxs && x != y ==> idxs[x] != idxs[y]) &&
      |idxs.Keys| == |fs|
    }

    constructor ()
      ensures fs == [] && idxs == map[]
      ensures Valid()
    {
      fs := [];
      idxs := map[];
    }

    function Size(): nat
      reads this
    {
      |fs|
    }

    /** The entry in the slot of a name. */
    function Lookup(x: Ident): Option<VTableEntry>
      requires Valid()
      reads this
    {
      if x in idxs then Some(fs[idxs[x]]) else None
    }

    /**
     * `set_func`: a new name gets the next slot; a known name, an
     * inherited method being overridden, keeps its slot and only the
     * entry in it changes.
     */
    method SetFunc(x: Ident, f: VTableEntry)
      requires Valid()
      modifies this
      ensures Valid()
      ensures x in old(idxs) ==> idxs == old(idxs) && fs == old(fs)[old(idxs)[x] := f]
      ensures x !in old(idxs) ==> idxs == old(idxs)[x := |old(fs)|] && fs == old(fs) + [f]
      ensures Size() == old(Size()) + (if x in old(idxs) then 0 else 1)
      ensures Lookup(x) == Some(f)
      ensures forall y :: y != x ==> Lookup(y) == old(Lookup(y))
      ensures forall y :: y in old(idxs) ==> y in idxs && idxs[y] == old(idxs)[y]
    {
      if x in idxs {
        fs := fs[idxs[x] := f];
      } else {
        assert idxs[x := |fs|].Keys == idxs.Keys + {x};
        idxs := idxs[x := |fs|];
        fs := fs + [f];
      }
    }

    /** `to_i8_arr`: the entries in slot order, as an LLVM array of `i8*`. */
    function ToI8Arr(): Option<string>
      reads this
    {
      var items :- EntriesText(fs);
      Some("[" + Join(items, ",") + "]")
    }
  }

  /**
   * Building a subclass's table: its methods are set in order on a copy
   * of the superclass's table. Every inherited name keeps its slot, every
   * method of the subclass is present, and names it does not define keep
   * their inherited entries.
   */
  method SetFuncs(vt: VTable, ms: seq<(Ident, VTableEntry)>)
    requires vt.Valid()
    modifies vt
    ensures vt.Valid()
    ensures forall y :: y in old(vt.idxs) ==> y in vt.idxs && vt.idxs[y] == old(vt.idxs)[y]
    ensures forall k :: 0 <= k < |ms| ==> ms[k].0 in vt.idxs
    ensures forall y :: (forall k :: 0 <= k < |ms| ==> ms[k].0 != y) ==> vt.Lookup(y) == old(vt.Lookup(y))
    ensures |old(vt.fs)| <= vt.Size()
  {
    var i := 0;
    while i < |ms|
      invariant 0 <= i <= |ms|
      invariant vt.Valid()
      invariant forall y :: y in old(vt.idxs) ==> y in vt.idxs && vt.idxs[y] == old(vt.idxs)[y]
      invariant forall k :: 0 <= k < i ==> ms[k].0 in vt.idxs
      invariant forall y :: (forall k :: 0 <= k < i ==> ms[k].0 != y) ==> vt.Lookup(y) == old(vt.Lookup(y))
      invariant |old(vt.fs)| <= vt.Size()
    {
      vt.SetFunc(ms[i].0, ms[i].1);
      i := i + 1;
    }
  }

  /** The text of one more entry is the old text and the entry's own. */
  lemma {:induction false} EntriesTextSnoc(fs: seq<VTableEntry>, f: VTableEntry)
    requires EntriesText(fs).Some? && AsI8Ptr(f).Some?
    ensures EntriesText(fs + [f]) == Some(EntriesText(fs).value + [AsI8Ptr(f).value])
    decreases |fs|
  {
    if |fs| == 0 {
      assert fs == [] && fs + [f] == [f] && [f][1..] == [];
      assert EntriesText(fs) == Some([]);
      var x := AsI8Ptr(f).value;
      assert [f][0] == f;
      assert EntriesText([f]) == Some([x] + EntriesText([]).value);
      assert [x] + [] == [x] && [] + [x] == [x];
      assert EntriesText(fs + [f]) == Some([x]);
    } else {
      var h := AsI8Ptr(fs[0]).value;
      var rest := EntriesText(fs[1..]).value;
      assert EntriesText(fs).value == [h] + rest;
      assert (fs + [f])[0] == fs[0] && (fs + [f])[1..] == fs[1..] + [f];
      EntriesTextSnoc(fs[1..], f);
      assert EntriesText(fs + [f]) == Some([h] + (rest + [AsI8Ptr(f).value]));
      assert [h] + (rest + [AsI8Ptr(f).value]) == [h] + rest + [AsI8Ptr(f).value];
    }
  }

  /** A new slot's entry is appended to the array text after a comma. */
  lemma AppendExtendsText(fs: seq<VTableEntry>, f: VTableEntry)
    requires |fs| > 0 && EntriesText(fs).Some? && AsI8Ptr(f).Some?
    ensures EntriesText(fs + [f]).Some?
    ensures Join(EntriesText(fs + [f]).value, ",") == Join(EntriesText(fs).value, ",") + "," + AsI8Ptr(f).value
  {
    EntriesTextSnoc(fs, f);
    JoinSnoc(EntriesText(fs).value, AsI8Ptr(f).value, ",");
  }
}
