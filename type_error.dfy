/**
 * Type errors: what went wrong, and the stack of places it was found in,
 * innermost first. Each enclosing construct that reports an error adds
 * itself to the stack and leaves the error itself alone.
 */
module TypeErrors {
  import opened Wrappers
  import opened LatteAst

  datatype ErrorKind =
    | InvalidType(expected: Type, actual: Type)
    | NonDeclarable(t: Type)
    | InexistentType(t: Type)
    | NoOperator(op: Operator, lhs: Type, rhs: Type)
    | NoMain
    | InvalidMainType
    | Undefined(ident: Ident)
    | AlreadyDefined(ident: Ident)
    | NotAFunction(callee: FieldGet)
    | InvalidCallArgNum(expectedNum: nat, actualNum: nat)
    | InvalidCallArgType(index: nat, expectedArg: Type, actualArg: Type)
    | NameAlreadyDefined(cls: Ident)
    | FieldAlreadyDefined(inClass: Ident, field: Ident)
    | VarOverride(name: Ident)
    | InvalidOverride(member: Ident, expectedType: Type, actualType: Type)
    | NotAnObject(obj: Ident)

  /** The constructs an error can be reported inside; each stands for the text it is displayed as. */
  datatype Place =
    | InClassFields(cname: Ident)
    | InClass(cname: Ident)
    | InSignature(fname: Ident)
    | InFunc(fname: Ident)
    | InVar(v: Var)
    | InStmt(s: Stmt)
    | InDecl(d: VarDecl)
    | InExpr(e: Expr)
    | InField(g: FieldGet)
    | InDef(def: Def)

  datatype TypeError = TypeError(kind: ErrorKind, stack: seq<Place>)

  /** A fresh error, not yet inside anything. */
  function Fail<T>(k: ErrorKind): (r: Result<T, TypeError>)
    ensures r.Err? && r.error.kind == k && r.error.stack == []
  {
    Err(TypeError(k, []))
  }

  /** `TypeError::wrapped`: one more place on the stack, the error unchanged. */
  function Wrapped(e: TypeError, p: Place): (r: TypeError)
    ensures r.kind == e.kind
    ensures |r.stack| == |e.stack| + 1 && r.stack[..|e.stack|] == e.stack && r.stack[|e.stack|] == p
  {
    TypeError(e.kind, e.stack + [p])
  }

  /** `map_err(|e| e.wrapped(p))`: success passes through untouched. */
  function WrapErr<T>(r: Result<T, TypeError>, p: Place): (w: Result<T, TypeError>)
    ensures w.Ok? <==> r.Ok?
    ensures w.Ok? ==> w.value == r.value
    ensures w.Err? ==> w.error == Wrapped(r.error, p)
  {
    match r
    case Ok(v) => Ok(v)
    case Err(e) => Err(Wrapped(e, p))
  }

  /** Wrapping twice records both places, innermost first. */
  lemma WrapTwice(e: TypeError, p: Place, q: Place)
    ensures Wrapped(Wrapped(e, p), q).stack == e.stack + [p, q]
    ensures Wrapped(Wrapped(e, p), q).kind == e.kind
  {
  }
}
