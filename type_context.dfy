/**
 * The scoped type environment of the type checkers: every name maps to
 * its type and to whether it was bound in the current scope. A new scope
 * is a copy in which no binding is local, so an inner declaration may
 * shadow an outer one but not one of its own scope.
 */
module TypeContexts {
  import opened Wrappers
  import opened LatteAst
  import opened TypeErrors

  /** A binding: the declared type, and whether the current scope made it. */
  datatype Binding = Binding(t: Type, local: bool)

  /** The bindings a new scope starts from: the same names and types, none of them local. */
  function Demote(idents: map<Ident, Binding>): (r: map<Ident, Binding>)
    ensures r.Keys == idents.Keys
    ensures forall x :: x in r ==> r[x].t == idents[x].t && !r[x].local
  {
    map x | x in idents :: Binding(idents[x].t, false)
  }

  /** The type bound to `x`, if any. */
  function TypeOf(idents: map<Ident, Binding>, x: Ident): (r: Option<Type>)
    ensures r.Some? <==> x in idents
    ensures r.Some? ==> r.value == idents[x].t
  {
    if x in idents then Some(idents[x].t) else None
  }

  /** `x` was bound in the current scope; an unbound name is not local. */
  predicate LocalIn(idents: map<Ident, Binding>, x: Ident)
  {
    x in idents && idents[x].local
  }

  /** Opening a scope hides no name and changes no type, and leaves nothing local. */
  lemma DemoteKeepsTypes(idents: map<Ident, Binding>, x: Ident)
    ensures TypeOf(Demote(idents), x) == TypeOf(idents, x)
    ensures !LocalIn(Demote(idents), x)
  {
  }

  /** Opening a scope inside a fresh scope opens the same scope. */
  lemma DemoteIdempotent(idents: map<Ident, Binding>)
    ensures Demote(Demote(idents)) == Demote(idents)
  {
  }

  /**
   * In a new scope every name may be declared again: the new binding
   * shadows the outer one, and the other names keep their types.
   */
  lemma ShadowInNewScope(idents: map<Ident, Binding>, x: Ident, t: Type, y: Ident)
    ensures !LocalIn(Demote(idents), x)
    ensures TypeOf(Demote(idents)[x := Binding(t, true)], x) == Some(t)
    ensures LocalIn(Demote(idents)[x := Binding(t, true)], x)
    ensures y != x ==> TypeOf(Demote(idents)[x := Binding(t, true)], y) == TypeOf(idents, y)
  {
  }

  /** What checking does to a scope: the verdict, and the bindings afterwards. */
  datatype Checked = Checked(r: Result<(), TypeError>, idents: map<Ident, Binding>)

  class TypeContext {
    var idents: map<Ident, Binding>
    var retType: Type

    /** `TypeContext::new`: no bindings, and the return type of a procedure. */
    constructor ()
      ensures idents == map[] && retType == TVoid
    {
      idents := map[];
      retType := TVoid;
    }

    /**
     * `_new_scope`, the context `in_new_scope` hands to its closure: a
     * fresh copy, so nothing done in the scope reaches this context.
     */
    method NewScope() returns (c: TypeContext)
      ensures fresh(c)
      ensures c.idents == Demote(idents) && c.retType == retType
    {
      c := new TypeContext();
      c.idents := Demote(idents);
      c.retType := retType;
    }

    /** `in_function_scope`: a new scope with the function's return type. */
    method FunctionScope(ret: Type) returns (c: TypeContext)
      ensures fresh(c)
      ensures c.idents == Demote(idents) && c.retType == ret
    {
      c := NewScope();
      c.retType := ret;
    }

    /** `get`: the type bound to `x`, or None when `x` is unbound. */
    function Get(x: Ident): (r: Option<Type>)
      reads this
      ensures r.Some? <==> x in idents
      ensures r.Some? ==> r.value == idents[x].t
    {
      TypeOf(idents, x)
    }

    /** `is_local`: false for an unbound name. */
    predicate IsLocal(x: Ident)
      reads this
      ensures IsLocal(x) <==> x in idents && idents[x].local
    {
      LocalIn(idents, x)
    }

    /** `set`: binds or rebinds `x` in the current scope. */
    method Set(x: Ident, t: Type)
      modifies this
      ensures idents == old(idents)[x := Binding(t, true)] && retType == old(retType)
      ensures Get(x) == Some(t) && IsLocal(x)
      ensures forall y :: y != x ==> Get(y) == old(Get(y)) && (IsLocal(y) <==> old(IsLocal(y)))
    {
      idents := idents[x := Binding(t, true)];
    }
  }
}
