/**
 * What the code generator records about a class: its number, its
 * superclass, the types of the fields it declares itself and where each
 * field lives in the class's LLVM struct.
 */
module ClassLayout {
  import opened Wrappers
  import opened CGTypes

  type Ident = string

  /** One member of a class's LLVM struct. */
  datatype Slot = VtablePtr | SuperObject(id: ClassId) | Field(t: CGType)

  /**
   * The struct a class is declared as: a root class begins with its
   * vtable pointer, a subclass with the struct of its superclass, and the
   * class's own fields follow in declaration order.
   */
  function StructSlots(superId: Option<ClassId>, fields: seq<CGType>): seq<Slot>
  {
    [if superId.Some? then SuperObject(superId.value) else VtablePtr] +
      seq(|fields|, i requires 0 <= i < |fields| => Field(fields[i]))
  }

  class ClassData {
    const id: ClassId
    var superId: Option<ClassId>
    const ident: Ident
    var fields: seq<CGType>
    var fieldIds: map<Ident, nat>

    /** Every field name points at its own entry of `fields`. */
    ghost predicate Valid()
      reads this
    {
      (forall x :: x in fieldIds ==> fieldIds[x] < |fields|) &&
      (forall x, y :: x in fieldIds && y in fieldIds && x != y ==> fieldIds[x] != fieldIds[y])
    }

    constructor (id: ClassId, ident: Ident)
      ensures this.id == id && this.ident == ident
      ensures superId == None && fields == [] && fieldIds == map[]
      ensures Valid()
    {
      this.id := id;
      this.ident := ident;
      superId := None;
      fields := [];
      fieldIds := map[];
    }

    method SetSuper(s: ClassId)
      modifies this
      ensures superId == Some(s)
      ensures fields == old(fields) && fieldIds == old(fieldIds)
    {
      superId := Some(s);
    }

    /** `get_super`; None is the panic of a class without a superclass. */
    function GetSuper(): Option<ClassId>
      reads this
    {
      superId
    }

    predicate HasField(x: Ident)
      reads this
    {
      x in fieldIds
    }

    /** `get_fields`: the names, in the hash map's order, which the model leaves unspecified. */
    function GetFields(): set<Ident>
      reads this
    {
      fieldIds.Keys
    }

    /** `add_field`: the field gets the next index; a repeated name is rebound to the new one. */
    method AddField(x: Ident, t: CGType)
      requires Valid()
      modifies this
      ensures Valid()
      ensures fields == old(fields) + [t] && fieldIds == old(fieldIds)[x := |old(fields)|]
      ensures superId == old(superId)
      ensures HasField(x) && GetFieldType(x) == Some(t)
      ensures forall y :: y != x && y in old(fieldIds) ==> GetFieldType(y) == old(GetFieldType(y))
    {
      fieldIds := fieldIds[x := |fields|];
      fields := fields + [t];
    }

    /** `get_field_idx`; None is the panic of an unknown field. */
    function GetFieldIdx(x: Ident): Option<nat>
      reads this
    {
      if x in fieldIds then Some(fieldIds[x]) else None
    }

    /** `get_field_type`. */
    function GetFieldType(x: Ident): (r: Option<CGType>)
      requires Valid()
      reads this
      ensures r.Some? <==> x in fieldIds
      ensures r.Some? ==> r.value in fields
    {
      var i :- GetFieldIdx(x);
      Some(fields[i])
    }

    /** `get_field_id` as written: the index is shifted only past a superclass's struct. */
    function FieldIdAsWritten(x: Ident): (r: Option<nat>)
      reads this
      ensures r.Some? <==> x in fieldIds
      ensures r == Some(0) <==> superId.None? && GetFieldIdx(x) == Some(0)
    {
      var i :- GetFieldIdx(x);
      Some(if superId.Some? then i + 1 else i)
    }

    /** `get_field_id` shifting past whatever heads the struct: the vtable pointer or the superclass. */
    function GetFieldId(x: Ident): (r: Option<nat>)
      reads this
      ensures r.Some? <==> x in fieldIds
      ensures r.Some? ==> r.value >= 1
    {
      var i :- GetFieldIdx(x);
      Some(i + 1)
    }
  }

  // ---------------------------------------------------------------------
  // Properties

  /** The lookups agree with one another: a field is known to all of them or to none. */
  lemma Lookups(cd: ClassData, x: Ident)
    requires cd.Valid()
    ensures cd.HasField(x) <==> x in cd.GetFields()
    ensures cd.GetFieldIdx(x).Some? <==> cd.HasField(x)
    ensures cd.GetFieldType(x).Some? <==> cd.HasField(x)
    ensures cd.GetFieldId(x).Some? <==> cd.HasField(x)
    ensures cd.GetSuper().Some? <==> cd.superId.Some?
  {
  }

  /** The corrected id of every field addresses that field's own slot of the struct, of its type. */
  lemma FieldIdAddressesField(cd: ClassData, x: Ident)
    requires cd.Valid() && cd.HasField(x)
    ensures var slots := StructSlots(cd.superId, cd.fields);
            cd.GetFieldId(x).value < |slots| &&
            slots[cd.GetFieldId(x).value] == Field(cd.GetFieldType(x).value)
  {
  }

  /** Distinct fields never share a slot. */
  lemma DistinctFieldsDistinctIds(cd: ClassData, x: Ident, y: Ident)
    requires cd.Valid() && cd.HasField(x) && cd.HasField(y) && x != y
    ensures cd.GetFieldId(x) != cd.GetFieldId(y)
    ensures cd.FieldIdAsWritten(x) != cd.FieldIdAsWritten(y)
  {
  }

  /** For a subclass the id as written is the corrected one. */
  lemma SubclassIdsAgree(cd: ClassData, x: Ident)
    requires cd.superId.Some?
    ensures cd.FieldIdAsWritten(x) == cd.GetFieldId(x)
  {
  }

  /**
   * As written, the first field of a root class is given slot 0, which
   * holds the class's vtable pointer.
   */
  lemma RootFirstFieldHitsVtable(cd: ClassData, x: Ident)
    requires cd.Valid() && cd.superId.None? && x in cd.fieldIds && cd.fieldIds[x] == 0
    ensures cd.FieldIdAsWritten(x) == Some(0)
    ensures StructSlots(cd.superId, cd.fields)[0] == VtablePtr
    ensures StructSlots(cd.superId, cd.fields)[cd.FieldIdAsWritten(x).value] != Field(cd.GetFieldType(x).value)
  {
  }
}
