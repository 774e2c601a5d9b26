/**
 * The first type checker of the Latte compiler (`types.rs`), written
 * before classes existed: a program is a list of functions, every type
 * comparison is exact equality, there are no builtins and no check for
 * `main`. All function types are put in scope before any body is
 * checked. The checker shares the scoped environment, the error
 * datatype and the name, literal and `+` rules of the later checker.
 */
module OldTypeCheck {
  import opened Wrappers
  import opened LatteAst
  import opened TypeContexts
  import opened TypeErrors
  import opened TypeCheck

  // ---------------------------------------------------------------------
  // The syntax of this revision

  /** A bare name: this revision has no field access. */
  predicate Plain(g: FieldGet)
  {
    g.field.None?
  }

  /** Expressions of this revision: no `new`, no `null`, no `%`, callees and variables are bare names. */
  predicate OldExpr(e: Expr)
    decreases e
  {
    match e
    case EVar(g) => Plain(g)
    case ELit(l) => !l.LNull?
    case ECall(g, args) => Plain(g) && forall i :: 0 <= i < |args| ==> OldExpr(args[i])
    case ENeg(a) => OldExpr(a)
    case ENot(a) => OldExpr(a)
    case EBinOp(l, op, r) => op != OpMod && OldExpr(l) && OldExpr(r)
    case ENew(_) => false
    case ENewArray(_, _) => false
  }

  predicate OldDecl(d: VarDecl)
  {
    d.Init? ==> OldExpr(d.init)
  }

  /**
   * Statements of this revision: the branches of `if`, `if-else` and
   * `while` are statement lists, written here as blocks; there is no
   * empty statement and no `for`.
   */
  predicate OldStmt(s: Stmt)
    decreases s
  {
    match s
    case SEmpty => false
    case SBlock(ss) => forall i :: 0 <= i < |ss| ==> OldStmt(ss[i])
    case SDecl(_, ds) => forall i :: 0 <= i < |ds| ==> OldDecl(ds[i])
    case SAssign(g, e) => Plain(g) && OldExpr(e)
    case SInc(g) => Plain(g)
    case SDec(g) => Plain(g)
    case SReturnE(e) => OldExpr(e)
    case SReturn => true
    case SExpr(e) => OldExpr(e)
    case SIf(e, b) => OldExpr(e) && b.SBlock? && forall i :: 0 <= i < |b.stmts| ==> OldStmt(b.stmts[i])
    case SWhile(e, b) => OldExpr(e) && b.SBlock? && forall i :: 0 <= i < |b.stmts| ==> OldStmt(b.stmts[i])
    case SIfElse(e, a, b) =>
      && OldExpr(e) && a.SBlock? && b.SBlock?
      && (forall i :: 0 <= i < |a.stmts| ==> OldStmt(a.stmts[i]))
      && (forall i :: 0 <= i < |b.stmts| ==> OldStmt(b.stmts[i]))
    case SFor(_, _, _, _) => false
  }

  predicate OldStmts(ss: seq<Stmt>)
  {
    forall i :: 0 <= i < |ss| ==> OldStmt(ss[i])
  }

  /** A program of this revision holds functions only. */
  predicate OldProgram(p: Program)
  {
    forall i :: 0 <= i < |p.defs| ==> p.defs[i].DFunc? && OldStmts(p.defs[i].f.body)
  }

  // ---------------------------------------------------------------------
  // Expressions

  /** `expect_type`: exact equality, with no subtyping. */
  function ExpectExact(expected: Type, actual: Type): (r: Result<Type, TypeError>)
    ensures r.Ok? <==> expected == actual
    ensures r.Ok? ==> r.value == expected
    ensures r.Err? ==> r.error == TypeError(InvalidType(expected, actual), [])
  {
    if expected == actual then Ok(expected) else Fail(InvalidType(expected, actual))
  }

  /** The operator rules of this revision's `Expr::check_types`. */
  function BinOpTypeOld(op: Operator, lt: Type, rt: Type): Result<Type, TypeError>
  {
    match op
    case OpAdd => AddTypes(lt, rt)
    case OpAnd => (var a :- ExpectExact(TBool, lt); var b :- ExpectExact(TBool, rt); Ok(TBool))
    case OpOr => (var a :- ExpectExact(TBool, lt); var b :- ExpectExact(TBool, rt); Ok(TBool))
    case _ =>
      var a :- ExpectExact(TInt, lt);
      var b :- ExpectExact(TInt, rt);
      if op == OpSub || op == OpMul || op == OpDiv then Ok(TInt) else Ok(TBool)
  }

  /** `Expr::check_types` of this revision; an error is placed inside the expression. */
  function ExprTypeOld(idents: map<Ident, Binding>, e: Expr): Result<Type, TypeError>
    requires OldExpr(e)
    decreases e, 0, 0
  {
    WrapErr(
      match e
      case EVar(g) => IdentType(idents, g.ident)
      case ELit(l) => Ok(LitType(l))
      case ECall(g, args) => CallTypeOld(idents, g.ident, args)
      case ENeg(a) => (var t :- ExprTypeOld(idents, a); ExpectExact(TInt, t))
      case ENot(a) => (var t :- ExprTypeOld(idents, a); ExpectExact(TBool, t))
      case EBinOp(l, op, r) =>
        (var lt :- ExprTypeOld(idents, l);
         var rt :- ExprTypeOld(idents, r);
         BinOpTypeOld(op, lt, rt))
      case _ => Ok(TVoid),
      InExpr(e))
  }

  /** `check_call_types`: the name must be bound to a function with as many parameters as there are arguments. */
  function CallTypeOld(idents: map<Ident, Binding>, f: Ident, args: seq<Expr>): Result<Type, TypeError>
    requires forall i :: 0 <= i < |args| ==> OldExpr(args[i])
    decreases args, 1, 0
  {
    var ft :- IdentType(idents, f);
    if !ft.TFunc? then Fail(NotAFunction(FieldGet(f, None)))
    else if |args| != |ft.params| then Fail(InvalidCallArgNum(|ft.params|, |args|))
    else
      var ok :- CheckArgsOld(idents, ft.params, args, 0);
      Ok(ft.ret)
  }

  /** The argument loop, left to right from argument `i`: each type must equal its parameter's. */
  function CheckArgsOld(idents: map<Ident, Binding>, params: seq<Type>, args: seq<Expr>, i: nat): Result<(), TypeError>
    requires |params| == |args| && i <= |args|
    requires forall j :: 0 <= j < |args| ==> OldExpr(args[j])
    decreases args, 0, |args| - i
  {
    if i == |args| then Ok(())
    else
      var actual :- ExprTypeOld(idents, args[i]);
      if actual != params[i] then Fail(InvalidCallArgType(i, params[i], actual))
      else CheckArgsOld(idents, params, args, i + 1)
  }

  /**
   * The operators take the same operand types and give the same result
   * types as in the later checker; `==` and `!=` too compare only ints.
   */
  lemma BinOpTypingOld(idents: map<Ident, Binding>, l: Expr, op: Operator, r: Expr, lt: Type, rt: Type)
    requires OldExpr(l) && OldExpr(r) && op != OpMod
    requires ExprTypeOld(idents, l) == Ok(lt) && ExprTypeOld(idents, r) == Ok(rt)
    ensures ExprTypeOld(idents, EBinOp(l, op, r)).Ok? <==> OperandsFit(op, lt, rt)
    ensures OperandsFit(op, lt, rt) ==> ExprTypeOld(idents, EBinOp(l, op, r)).value == ResultType(op, lt)
  {
    BinOpTypeOldTable(op, lt, rt);
    assert ExprTypeOld(idents, EBinOp(l, op, r)) == WrapErr(BinOpTypeOld(op, lt, rt), InExpr(EBinOp(l, op, r)));
  }

  /** Apart from `%`, which this revision does not know, the operator rules agree with the later table. */
  lemma BinOpTypeOldTable(op: Operator, lt: Type, rt: Type)
    requires op != OpMod
    ensures BinOpTypeOld(op, lt, rt).Ok? <==> OperandsFit(op, lt, rt)
    ensures OperandsFit(op, lt, rt) ==> BinOpTypeOld(op, lt, rt).value == ResultType(op, lt)
  {
  }

  /** The argument has a type, and it is exactly the parameter's type. */
  predicate ArgMatches(idents: map<Ident, Binding>, param: Type, arg: Expr)
    requires OldExpr(arg)
  {
    ExprTypeOld(idents, arg) == Ok(param)
  }

  lemma {:induction false} CheckArgsOldSpec(idents: map<Ident, Binding>, params: seq<Type>, args: seq<Expr>, i: nat)
    requires |params| == |args| && i <= |args|
    requires forall j :: 0 <= j < |args| ==> OldExpr(args[j])
    ensures CheckArgsOld(idents, params, args, i).Ok? <==>
      forall j :: i <= j < |args| ==> ArgMatches(idents, params[j], args[j])
    decreases |args| - i
  {
    if i < |args| {
      CheckArgsOldStep(idents, params, args, i);
      if ArgMatches(idents, params[i], args[i]) {
        CheckArgsOldSpec(idents, params, args, i + 1);
      }
    }
  }

  /** One argument: a match moves on to the next, a mismatch fails. */
  lemma CheckArgsOldStep(idents: map<Ident, Binding>, params: seq<Type>, args: seq<Expr>, i: nat)
    requires |params| == |args| && i < |args|
    requires forall j :: 0 <= j < |args| ==> OldExpr(args[j])
    ensures ArgMatches(idents, params[i], args[i]) ==>
      CheckArgsOld(idents, params, args, i) == CheckArgsOld(idents, params, args, i + 1)
    ensures !ArgMatches(idents, params[i], args[i]) ==> CheckArgsOld(idents, params, args, i).Err?
  {
  }

  /**
   * A call is typed exactly when the name is bound to a function whose
   * parameter types the arguments have, in number and one by one; the
   * call then has the function's return type.
   */
  lemma CallTypingOld(idents: map<Ident, Binding>, f: Ident, args: seq<Expr>)
    requires forall j :: 0 <= j < |args| ==> OldExpr(args[j])
    ensures var ft := TypeOf(idents, f);
      && (CallTypeOld(idents, f, args).Ok? <==>
            ft.Some? && ft.value.TFunc? && |ft.value.params| == |args|
            && forall j :: 0 <= j < |args| ==> ArgMatches(idents, ft.value.params[j], args[j]))
      && (CallTypeOld(idents, f, args).Ok? ==> CallTypeOld(idents, f, args).value == ft.value.ret)
      && (ft.Some? && !ft.value.TFunc? ==> CallTypeOld(idents, f, args) == Fail(NotAFunction(FieldGet(f, None))))
      && (ft.Some? && ft.value.TFunc? && |args| != |ft.value.params| ==>
            CallTypeOld(idents, f, args) == Fail(InvalidCallArgNum(|ft.value.params|, |args|)))
  {
    var ft := TypeOf(idents, f);
    if ft.Some? && ft.value.TFunc? && |args| == |ft.value.params| {
      CheckArgsOldSpec(idents, ft.value.params, args, 0);
    }
  }

  // ---------------------------------------------------------------------
  // Statements

  /** `introduce_name`: fails exactly when the name is local to the current scope; otherwise binds it there. */
  function IntroduceSpec(idents: map<Ident, Binding>, x: Ident, t: Type): (c: Checked)
    ensures c.r.Ok? <==> !LocalIn(idents, x)
    ensures c.r.Ok? ==> TypeOf(c.idents, x) == Some(t) && LocalIn(c.idents, x)
    ensures c.r.Ok? ==> forall y :: y != x ==> TypeOf(c.idents, y) == TypeOf(idents, y) && (LocalIn(c.idents, y) <==> LocalIn(idents, y))
    ensures c.r.Err? ==> c.idents == idents && c.r.error == TypeError(AlreadyDefined(x), [])
  {
    if LocalIn(idents, x) then Checked(Fail(AlreadyDefined(x)), idents)
    else Checked(Ok(()), idents[x := Binding(t, true)])
  }

  /** `VarDecl::introduce_var`: the initialiser must have exactly the declared type. */
  function DeclSpecOld(idents: map<Ident, Binding>, t: Type, d: VarDecl): Checked
    requires OldDecl(d)
  {
    var c :=
      match d
      case NoInit(_, x) => IntroduceSpec(idents, x, t)
      case Init(_, x, e) =>
        (match ExprTypeOld(idents, e)
         case Err(err) => Checked(Err(err), idents)
         case Ok(et) =>
           if et != t then Checked(Fail(InvalidType(t, et)), idents)
           else IntroduceSpec(idents, x, t));
    Checked(WrapErr(c.r, InDecl(d)), c.idents)
  }

  function DeclsSpecOld(idents: map<Ident, Binding>, t: Type, ds: seq<VarDecl>): Checked
    requires forall i :: 0 <= i < |ds| ==> OldDecl(ds[i])
    decreases |ds|
  {
    if |ds| == 0 then Checked(Ok(()), idents)
    else
      var c := DeclSpecOld(idents, t, ds[0]);
      if c.r.Err? then c else DeclsSpecOld(c.idents, t, ds[1..])
  }

  /** A condition must have exactly the type bool. */
  function CondSpecOld(idents: map<Ident, Binding>, e: Expr): Result<(), TypeError>
    requires OldExpr(e)
  {
    var et :- ExprTypeOld(idents, e);
    var ok :- ExpectExact(TBool, et);
    Ok(())
  }

  /** Assignment, `++`, `--`, the returns and expression statements: they only read the scope. */
  function SimpleStmtSpecOld(idents: map<Ident, Binding>, ret: Type, s: Stmt): Result<(), TypeError>
    requires OldStmt(s)
  {
    match s
    case SAssign(g, e) =>
      var it :- IdentType(idents, g.ident);
      var et :- ExprTypeOld(idents, e);
      var ok :- ExpectExact(it, et);
      Ok(())
    case SInc(g) =>
      var it :- IdentType(idents, g.ident);
      var ok :- ExpectExact(TInt, it);
      Ok(())
    case SDec(g) =>
      var it :- IdentType(idents, g.ident);
      var ok :- ExpectExact(TInt, it);
      Ok(())
    case SReturnE(e) =>
      var et :- ExprTypeOld(idents, e);
      var ok :- ExpectExact(ret, et);
      Ok(())
    case SReturn =>
      var ok :- ExpectExact(ret, TVoid);
      Ok(())
    case SExpr(e) =>
      var et :- ExprTypeOld(idents, e);
      Ok(())
    case _ => Ok(())
  }

  /** `Stmt::check_types` of this revision: a block and every branch body are checked in a new scope. */
  function StmtSpecOld(idents: map<Ident, Binding>, ret: Type, s: Stmt): Checked
    requires OldStmt(s)
    decreases s, 1
  {
    var c :=
      match s
      case SBlock(ss) => Checked(StmtsSpecOld(Demote(idents), ret, ss).r, idents)
      case SDecl(t, ds) => DeclsSpecOld(idents, t, ds)
      case SIf(e, b) =>
        if CondSpecOld(idents, e).Err? then Checked(CondSpecOld(idents, e), idents)
        else Checked(StmtsSpecOld(Demote(idents), ret, b.stmts).r, idents)
      case SWhile(e, b) =>
        if CondSpecOld(idents, e).Err? then Checked(CondSpecOld(idents, e), idents)
        else Checked(StmtsSpecOld(Demote(idents), ret, b.stmts).r, idents)
      case SIfElse(e, a, b) =>
        if CondSpecOld(idents, e).Err? then Checked(CondSpecOld(idents, e), idents)
        else if StmtsSpecOld(Demote(idents), ret, a.stmts).r.Err? then Checked(StmtsSpecOld(Demote(idents), ret, a.stmts).r, idents)
        else Checked(StmtsSpecOld(Demote(idents), ret, b.stmts).r, idents)
      case _ => Checked(SimpleStmtSpecOld(idents, ret, s), idents);
    Checked(WrapErr(c.r, InStmt(s)), c.idents)
  }

  /** `Vec<Stmt>::check_types`: in order, in one scope, stopping at the first error. */
  function StmtsSpecOld(idents: map<Ident, Binding>, ret: Type, ss: seq<Stmt>): Checked
    requires OldStmts(ss)
    decreases ss, 0
  {
    if |ss| == 0 then Checked(Ok(()), idents)
    else
      var c := StmtSpecOld(idents, ret, ss[0]);
      if c.r.Err? then c else StmtsSpecOld(c.idents, ret, ss[1..])
  }

  method IntroduceName(x: Ident, t: Type, ctx: TypeContext) returns (r: Result<(), TypeError>)
    modifies ctx
    ensures Checked(r, ctx.idents) == IntroduceSpec(old(ctx.idents), x, t)
    ensures ctx.retType == old(ctx.retType)
  {
    if ctx.IsLocal(x) {
      r := Fail(AlreadyDefined(x));
    } else {
      ctx.Set(x, t);
      r := Ok(());
    }
  }

  method IntroduceVar(d: VarDecl, t: Type, ctx: TypeContext) returns (r: Result<(), TypeError>)
    requires OldDecl(d)
    modifies ctx
    ensures Checked(r, ctx.idents) == DeclSpecOld(old(ctx.idents), t, d)
    ensures ctx.retType == old(ctx.retType)
  {
    match d {
      case NoInit(_, x) =>
        r := IntroduceName(x, t, ctx);
      case Init(_, x, e) =>
        var et := ExprTypeOld(ctx.idents, e);
        if et.Err? {
          r := Err(et.error);
        } else if et.value != t {
          r := Fail(InvalidType(t, et.value));
        } else {
          r := IntroduceName(x, t, ctx);
        }
    }
    r := WrapErr(r, InDecl(d));
  }

  method IntroduceVars(ds: seq<VarDecl>, t: Type, ctx: TypeContext) returns (r: Result<(), TypeError>)
    requires forall i :: 0 <= i < |ds| ==> OldDecl(ds[i])
    modifies ctx
    ensures Checked(r, ctx.idents) == DeclsSpecOld(old(ctx.idents), t, ds)
    ensures ctx.retType == old(ctx.retType)
  {
    var i := 0;
    while i < |ds|
      invariant 0 <= i <= |ds|
      invariant ctx.retType == old(ctx.retType)
      invariant DeclsSpecOld(old(ctx.idents), t, ds) == DeclsSpecOld(ctx.idents, t, ds[i..])
    {
      assert ds[i..][0] == ds[i] && ds[i..][1..] == ds[i + 1..];
      r := IntroduceVar(ds[i], t, ctx);
      if r.Err? {
        return;
      }
      i := i + 1;
    }
    r := Ok(());
  }

  method CheckStmtOld(s: Stmt, ctx: TypeContext) returns (r: Result<(), TypeError>)
    requires OldStmt(s)
    modifies ctx
    ensures Checked(r, ctx.idents) == StmtSpecOld(old(ctx.idents), ctx.retType, s)
    ensures ctx.retType == old(ctx.retType)
    decreases s, 1
  {
    match s {
      case SBlock(ss) =>
        r := CheckInNewScopeOld(ss, ctx);
      case SDecl(t, ds) =>
        r := IntroduceVars(ds, t, ctx);
      case SIf(e, b) =>
        r := CondSpecOld(ctx.idents, e);
        if r.Ok? {
          r := CheckInNewScopeOld(b.stmts, ctx);
        }
      case SWhile(e, b) =>
        r := CondSpecOld(ctx.idents, e);
        if r.Ok? {
          r := CheckInNewScopeOld(b.stmts, ctx);
        }
      case SIfElse(e, a, b) =>
        r := CondSpecOld(ctx.idents, e);
        if r.Ok? {
          r := CheckInNewScopeOld(a.stmts, ctx);
          if r.Ok? {
            r := CheckInNewScopeOld(b.stmts, ctx);
          }
        }
      case SAssign(_, _) =>
        r := SimpleStmtSpecOld(ctx.idents, ctx.retType, s);
      case SInc(_) =>
        r := SimpleStmtSpecOld(ctx.idents, ctx.retType, s);
      case SDec(_) =>
        r := SimpleStmtSpecOld(ctx.idents, ctx.retType, s);
      case SReturnE(_) =>
        r := SimpleStmtSpecOld(ctx.idents, ctx.retType, s);
      case SReturn =>
        r := SimpleStmtSpecOld(ctx.idents, ctx.retType, s);
      case SExpr(_) =>
        r := SimpleStmtSpecOld(ctx.idents, ctx.retType, s);
    }
    r := WrapErr(r, InStmt(s));
  }

  /** `let mut new_ctx = ctx.new_scope(); stmts.check_types(&mut new_ctx)`: the context is left as it was. */
  method CheckInNewScopeOld(ss: seq<Stmt>, ctx: TypeContext) returns (r: Result<(), TypeError>)
    requires OldStmts(ss)
    ensures r == StmtsSpecOld(Demote(ctx.idents), ctx.retType, ss).r
    decreases ss, 2
  {
    var inner := ctx.NewScope();
    r := CheckStmtsOld(ss, inner);
  }

  method CheckStmtsOld(ss: seq<Stmt>, ctx: TypeContext) returns (r: Result<(), TypeError>)
    requires OldStmts(ss)
    modifies ctx
    ensures Checked(r, ctx.idents) == StmtsSpecOld(old(ctx.idents), ctx.retType, ss)
    ensures ctx.retType == old(ctx.retType)
    decreases ss, 0
  {
    var i := 0;
    while i < |ss|
      invariant 0 <= i <= |ss|
      invariant ctx.retType == old(ctx.retType)
      invariant StmtsSpecOld(old(ctx.idents), ctx.retType, ss) == StmtsSpecOld(ctx.idents, ctx.retType, ss[i..])
    {
      assert ss[i..][0] == ss[i] && ss[i..][1..] == ss[i + 1..];
      r := CheckStmtOld(ss[i], ctx);
      if r.Err? {
        return;
      }
      i := i + 1;
    }
    r := Ok(());
  }

  /**
   * Only a declaration changes the scope; a block or a branch body
   * leaves it exactly as it was, so what it declares is gone afterwards.
   */
  lemma StmtScopeOld(idents: map<Ident, Binding>, ret: Type, s: Stmt)
    requires OldStmt(s) && !s.SDecl?
    ensures StmtSpecOld(idents, ret, s).idents == idents
  {
  }

  /** A declaration that passes binds each of its names, with the declared type, in the current scope. */
  lemma {:induction false} DeclsBindOld(idents: map<Ident, Binding>, t: Type, ds: seq<VarDecl>)
    requires forall i :: 0 <= i < |ds| ==> OldDecl(ds[i])
    ensures DeclsSpecOld(idents, t, ds).r.Ok? ==>
      forall i :: 0 <= i < |ds| ==>
        LocalIn(DeclsSpecOld(idents, t, ds).idents, ds[i].ident) && TypeOf(DeclsSpecOld(idents, t, ds).idents, ds[i].ident) == Some(t)
    decreases |ds|
  {
    if |ds| > 0 {
      var c := DeclSpecOld(idents, t, ds[0]);
      if c.r.Ok? {
        DeclsBindOld(c.idents, t, ds[1..]);
        assert forall i :: 1 <= i < |ds| ==> ds[1..][i - 1] == ds[i];
        DeclsKeepLocal(c.idents, t, ds[1..], ds[0].ident);
      }
    }
  }

  /** What is local stays bound, with the same type, through later declarations that pass. */
  lemma {:induction false} DeclsKeepLocal(idents: map<Ident, Binding>, t: Type, ds: seq<VarDecl>, x: Ident)
    requires forall i :: 0 <= i < |ds| ==> OldDecl(ds[i])
    requires LocalIn(idents, x)
    ensures DeclsSpecOld(idents, t, ds).r.Ok? ==>
      LocalIn(DeclsSpecOld(idents, t, ds).idents, x) && TypeOf(DeclsSpecOld(idents, t, ds).idents, x) == TypeOf(idents, x)
    decreases |ds|
  {
    if |ds| > 0 {
      var c := DeclSpecOld(idents, t, ds[0]);
      if c.r.Ok? {
        DeclsKeepLocal(c.idents, t, ds[1..], x);
      }
    }
  }

  // ---------------------------------------------------------------------
  // Functions and programs

  /** The parameters are introduced one by one into the function's scope. */
  function ParamsSpec(idents: map<Ident, Binding>, vs: seq<Var>): Checked
    decreases |vs|
  {
    if |vs| == 0 then Checked(Ok(()), idents)
    else
      var c := IntroduceSpec(idents, vs[0].ident, vs[0].t);
      if c.r.Err? then c else ParamsSpec(c.idents, vs[1..])
  }

  /** `Def::check_types`: parameters, then the body, in a function scope; an error is placed inside the definition. */
  function FuncSpecOld(idents: map<Ident, Binding>, f: Func): Result<(), TypeError>
    requires OldStmts(f.body)
  {
    var a := ParamsSpec(Demote(idents), f.args);
    WrapErr(if a.r.Err? then a.r else StmtsSpecOld(a.idents, f.retType, f.body).r, InDef(DFunc(f)))
  }

  method IntroduceParams(vs: seq<Var>, ctx: TypeContext) returns (r: Result<(), TypeError>)
    modifies ctx
    ensures Checked(r, ctx.idents) == ParamsSpec(old(ctx.idents), vs)
    ensures ctx.retType == old(ctx.retType)
  {
    var i := 0;
    while i < |vs|
      invariant 0 <= i <= |vs|
      invariant ctx.retType == old(ctx.retType)
      invariant ParamsSpec(old(ctx.idents), vs) == ParamsSpec(ctx.idents, vs[i..])
    {
      assert vs[i..][0] == vs[i] && vs[i..][1..] == vs[i + 1..];
      r := IntroduceName(vs[i].ident, vs[i].t, ctx);
      if r.Err? {
        return;
      }
      i := i + 1;
    }
    r := Ok(());
  }

  method CheckFuncOld(f: Func, ctx: TypeContext) returns (r: Result<(), TypeError>)
    requires OldStmts(f.body)
    ensures r == FuncSpecOld(ctx.idents, f)
  {
    var fctx := ctx.FunctionScope(f.retType);
    r := IntroduceParams(f.args, fctx);
    if r.Ok? {
      r := CheckStmtsOld(f.body, fctx);
    }
    r := WrapErr(r, InDef(DFunc(f)));
  }

  /** The scope the bodies are checked in: every function's name set to its type, later ones overwriting earlier ones. */
  function ProgramEnv(idents: map<Ident, Binding>, fs: seq<Func>): map<Ident, Binding>
    decreases |fs|
  {
    if |fs| == 0 then idents
    else ProgramEnv(idents[fs[0].ident := Binding(FuncType(fs[0]), true)], fs[1..])
  }

  /**
   * Every function is in scope when any body is checked, so functions
   * may call each other whatever their order. A name declared twice is
   * not reported: the last declaration's type wins.
   */
  lemma {:induction false} ProgramEnvBinds(idents: map<Ident, Binding>, fs: seq<Func>, i: nat)
    requires i < |fs|
    ensures fs[i].ident in ProgramEnv(idents, fs)
    ensures (forall j :: i < j < |fs| ==> fs[j].ident != fs[i].ident) ==>
      ProgramEnv(idents, fs)[fs[i].ident] == Binding(FuncType(fs[i]), true)
    decreases |fs|
  {
    var next := idents[fs[0].ident := Binding(FuncType(fs[0]), true)];
    if i > 0 {
      assert fs[1..][i - 1] == fs[i];
      ProgramEnvBinds(next, fs[1..], i - 1);
      assert forall j :: i - 1 < j < |fs| - 1 ==> fs[1..][j] == fs[j + 1];
    } else {
      ProgramEnvKeeps(next, fs[1..], fs[0].ident);
    }
  }

  /** A name no later function declares keeps its binding. */
  lemma {:induction false} ProgramEnvKeeps(idents: map<Ident, Binding>, fs: seq<Func>, x: Ident)
    requires x in idents
    ensures x in ProgramEnv(idents, fs)
    ensures (forall j :: 0 <= j < |fs| ==> fs[j].ident != x) ==> ProgramEnv(idents, fs)[x] == idents[x]
    decreases |fs|
  {
    if |fs| > 0 {
      ProgramEnvKeeps(idents[fs[0].ident := Binding(FuncType(fs[0]), true)], fs[1..], x);
      assert forall j :: 0 <= j < |fs| - 1 ==> fs[1..][j] == fs[j + 1];
    }
  }

  /** The functions of a program of this revision. */
  function Funcs(p: Program): (r: seq<Func>)
    requires OldProgram(p)
    ensures |r| == |p.defs| && forall i :: 0 <= i < |p.defs| ==> p.defs[i] == DFunc(r[i])
  {
    seq(|p.defs|, i requires 0 <= i < |p.defs| && p.defs[i].DFunc? => p.defs[i].f)
  }

  /**
   * `Program::check_types`: every function's type is set in a new scope
   * first, then every definition is checked in that scope, stopping at
   * the first error.
   */
  method CheckProgramOld(p: Program, ctx: TypeContext) returns (r: Result<(), TypeError>)
    requires OldProgram(p)
    ensures r.Ok? <==> forall i :: 0 <= i < |p.defs| ==> FuncSpecOld(ProgramEnv(Demote(ctx.idents), Funcs(p)), Funcs(p)[i]).Ok?
    ensures r.Err? ==> exists i :: 0 <= i < |p.defs| && r == FuncSpecOld(ProgramEnv(Demote(ctx.idents), Funcs(p)), Funcs(p)[i]) &&
                                   forall k :: 0 <= k < i ==> FuncSpecOld(ProgramEnv(Demote(ctx.idents), Funcs(p)), Funcs(p)[k]).Ok?
  {
    var fs := Funcs(p);
    var env := ctx.NewScope();
    DeclareFuncsOld(fs, env);
    var i := 0;
    while i < |fs|
      invariant 0 <= i <= |fs|
      invariant env.idents == ProgramEnv(Demote(ctx.idents), fs)
      invariant forall k :: 0 <= k < i ==> FuncSpecOld(env.idents, fs[k]).Ok?
    {
      r := CheckFuncOld(fs[i], env);
      if r.Err? {
        return;
      }
      i := i + 1;
    }
    r := Ok(());
  }

  /** The first pass: every function's name is set to its type, in order. */
  method DeclareFuncsOld(fs: seq<Func>, env: TypeContext)
    modifies env
    ensures env.idents == ProgramEnv(old(env.idents), fs)
  {
    var i := 0;
    while i < |fs|
      invariant 0 <= i <= |fs|
      invariant ProgramEnv(old(env.idents), fs) == ProgramEnv(env.idents, fs[i..])
    {
      assert fs[i..][0] == fs[i] && fs[i..][1..] == fs[i + 1..];
      env.Set(fs[i].ident, FuncType(fs[i]));
      i := i + 1;
    }
    assert fs[i..] == [];
  }

  /** `check_types`: a program is checked from an empty context. */
  method CheckTypes(p: Program) returns (r: Result<(), TypeError>)
    requires OldProgram(p)
    ensures r.Ok? <==> forall i :: 0 <= i < |p.defs| ==> FuncSpecOld(ProgramEnv(map[], Funcs(p)), Funcs(p)[i]).Ok?
  {
    var ctx := new TypeContext();
    r := CheckProgramOld(p, ctx);
  }
}
