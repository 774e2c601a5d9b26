/**
 * The Latte syntax tree shared by the static analyses, the optimiser and
 * the code generator, and the table of built-in functions.
 *
 * The Rust files of the middle end were written against different
 * revisions of the tree; this is the union of them: the statement forms
 * `SEmpty` and `SFor`, loop and branch bodies that are single statements,
 * declarators that carry their type, `ENew`, `ENewArray`, `LNull` with an
 * optional class name and the array type `TArray`. A revision whose
 * branches hold a statement list `ss` is represented by `SBlock(ss)`.
 */
module LatteAst {
  import opened Wrappers

  type Ident = string

  /** Rust's `i32`. */
  newtype i32 = x: int | -0x8000_0000 <= x < 0x8000_0000

  predicate InI32(x: int) { -0x8000_0000 <= x < 0x8000_0000 }

  datatype Type =
    | TInt
    | TString
    | TBool
    | TVoid
    | TFunc(params: seq<Type>, ret: Type)
    | TObject(cname: Ident)
    | TNull
    | TArray(elem: Type)

  datatype Operator =
    | OpAdd | OpSub | OpMul | OpDiv | OpMod
    | OpLess | OpGreater | OpLessE | OpGreaterE
    | OpEq | OpNEq
    | OpAnd | OpOr

  datatype Lit =
    | LInt(n: i32)
    | LTrue
    | LFalse
    | LString(s: string)
    | LNull(cls: Option<Ident>)

  /** `a.b.c`: a name followed by an optional chain of field names. */
  datatype FieldGet = FieldGet(ident: Ident, field: Option<FieldGet>)

  datatype Expr =
    | EVar(v: FieldGet)
    | ELit(lit: Lit)
    | ECall(callee: FieldGet, args: seq<Expr>)
    | ENeg(e: Expr)
    | ENot(e: Expr)
    | EBinOp(lhs: Expr, op: Operator, rhs: Expr)
    | ENew(t: Type)
    | ENewArray(t: Type, size: Expr)

  datatype VarDecl =
    | Init(t: Type, ident: Ident, init: Expr)
    | NoInit(t: Type, ident: Ident)

  datatype Stmt =
    | SEmpty
    | SBlock(stmts: seq<Stmt>)
    | SDecl(t: Type, decls: seq<VarDecl>)
    | SAssign(target: FieldGet, value: Expr)
    | SInc(target: FieldGet)
    | SDec(target: FieldGet)
    | SReturnE(e: Expr)
    | SReturn
    | SExpr(e: Expr)
    | SIf(cond: Expr, body: Stmt)
    | SIfElse(cond: Expr, thenS: Stmt, elseS: Stmt)
    | SWhile(cond: Expr, body: Stmt)
    | SFor(t: Type, ident: Ident, iter: Expr, body: Stmt)

  datatype Var = Var(t: Type, ident: Ident)

  datatype Func = Func(ident: Ident, args: seq<Var>, retType: Type, body: seq<Stmt>)

  datatype Class = Class(name: Ident, superclass: Option<Ident>, vars: seq<Var>, methods: seq<Func>)

  datatype Def = DClass(c: Class) | DFunc(f: Func)

  datatype Program = Program(defs: seq<Def>)

  datatype BuiltinFunc = BuiltinFunc(ident: Ident, args: seq<Type>, retType: Type)

  /** The declared types of a parameter list, in declaration order. */
  function ParamTypes(vs: seq<Var>): (r: seq<Type>)
    ensures |r| == |vs|
    ensures forall i :: 0 <= i < |vs| ==> r[i] == VarType(vs[i])
  {
    seq(|vs|, i requires 0 <= i < |vs| => vs[i].t)
  }

  /** `Var::get_type`: the declared type. */
  function VarType(v: Var): Type
  {
    v.t
  }

  /** `Func::get_type`: a function type over the parameter types and the return type. */
  function FuncType(f: Func): (r: Type)
    ensures r.TFunc? && r.ret == f.retType
    ensures |r.params| == |f.args|
    ensures forall i :: 0 <= i < |f.args| ==> r.params[i] == VarType(f.args[i])
  {
    TFunc(ParamTypes(f.args), f.retType)
  }

  /** `BuiltinFunc::get_type`. */
  function BuiltinType(b: BuiltinFunc): (r: Type)
    ensures r.TFunc? && r.params == b.args && r.ret == b.retType
  {
    TFunc(b.args, b.retType)
  }

  /** `get_builtin_functions`: the runtime library visible to every program. */
  function Builtins(): seq<BuiltinFunc>
  {
    [ BuiltinFunc("printInt", [TInt], TVoid),
      BuiltinFunc("printString", [TString], TVoid),
      BuiltinFunc("error", [], TVoid),
      BuiltinFunc("readInt", [], TInt),
      BuiltinFunc("readString", [], TString) ]
  }

  /** The names of a builtin table, in order. */
  function BuiltinNames(bs: seq<BuiltinFunc>): (r: seq<Ident>)
    ensures |r| == |bs| && forall i :: 0 <= i < |bs| ==> r[i] == bs[i].ident
  {
    seq(|bs|, i requires 0 <= i < |bs| => bs[i].ident)
  }

  /**
   * The table holds five functions with pairwise distinct names; only
   * readInt and readString return a value, and only printInt and
   * printString take an argument.
   */
  lemma BuiltinsTable()
    ensures |Builtins()| == 5
    ensures BuiltinNames(Builtins()) == ["printInt", "printString", "error", "readInt", "readString"]
    ensures forall i, j :: 0 <= i < j < 5 ==> Builtins()[i].ident != Builtins()[j].ident
    ensures forall i :: 0 <= i < 5 ==> (Builtins()[i].retType != TVoid <==> i >= 3)
    ensures forall i :: 0 <= i < 5 ==> (|Builtins()[i].args| == 1 <==> i < 2) && |Builtins()[i].args| <= 1
    ensures BuiltinType(Builtins()[0]) == TFunc([TInt], TVoid)
    ensures BuiltinType(Builtins()[1]) == TFunc([TString], TVoid)
    ensures BuiltinType(Builtins()[2]) == TFunc([], TVoid)
    ensures BuiltinType(Builtins()[3]) == TFunc([], TInt)
    ensures BuiltinType(Builtins()[4]) == TFunc([], TString)
  {
  }
}
