/**
 * The type checker of the middle end: types of expressions, the checking
 * of statements against a scoped environment, class declarations with
 * field and method overriding, and the program-level pass that registers
 * builtins, classes and functions before any body is checked.
 *
 * The class operations of the environment (registering a class, looking
 * up a field through the superclass chain, subclassing, and the scopes
 * that see a class's fields) are kept in a class table beside the
 * bindings; superclass chains are followed at most `|classes|` links.
 */
module TypeCheck {
  import opened Wrappers
  import opened LatteAst
  import opened TypeContexts
  import opened TypeErrors

  // ---------------------------------------------------------------------
  // The syntax of this revision

  /** The expressions this checker knows: there is no `new` yet. */
  predicate ExprInRevision(e: Expr)
    decreases e
  {
    match e
    case ECall(_, args) => forall i :: 0 <= i < |args| ==> ExprInRevision(args[i])
    case ENeg(a) => ExprInRevision(a)
    case ENot(a) => ExprInRevision(a)
    case EBinOp(l, _, r) => ExprInRevision(l) && ExprInRevision(r)
    case ENew(_) => false
    case ENewArray(_, _) => false
    case _ => true
  }

  predicate DeclInRevision(d: VarDecl)
  {
    d.Init? ==> ExprInRevision(d.init)
  }

  /** The statements this checker knows: there is no `for` yet. */
  predicate StmtInRevision(s: Stmt)
    decreases s
  {
    match s
    case SBlock(ss) => forall i :: 0 <= i < |ss| ==> StmtInRevision(ss[i])
    case SDecl(_, ds) => forall i :: 0 <= i < |ds| ==> DeclInRevision(ds[i])
    case SAssign(_, e) => ExprInRevision(e)
    case SReturnE(e) => ExprInRevision(e)
    case SExpr(e) => ExprInRevision(e)
    case SIf(c, b) => ExprInRevision(c) && StmtInRevision(b)
    case SWhile(c, b) => ExprInRevision(c) && StmtInRevision(b)
    case SIfElse(c, a, b) => ExprInRevision(c) && StmtInRevision(a) && StmtInRevision(b)
    case SFor(_, _, _, _) => false
    case _ => true
  }

  predicate StmtsInRevision(ss: seq<Stmt>)
  {
    forall i :: 0 <= i < |ss| ==> StmtInRevision(ss[i])
  }

  predicate FuncInRevision(f: Func)
  {
    StmtsInRevision(f.body)
  }

  predicate DefInRevision(d: Def)
  {
    match d
    case DFunc(f) => FuncInRevision(f)
    case DClass(c) => forall i :: 0 <= i < |c.methods| ==> FuncInRevision(c.methods[i])
  }

  // ---------------------------------------------------------------------
  // The class table

  /** A registered class: its superclass and the types of its fields and methods. */
  datatype ClassInfo = ClassInfo(superclass: Option<Ident>, fields: map<Ident, Type>)

  type Classes = map<Ident, ClassInfo>

  /** `get_field_type`: the member's type in `c` or in its nearest ancestor that has one. */
  function FieldType(classes: Classes, c: Ident, f: Ident, fuel: nat): Option<Type>
    decreases fuel
  {
    if c !in classes then None
    else if f in classes[c].fields then Some(classes[c].fields[f])
    else if classes[c].superclass.Some? && fuel > 0 then FieldType(classes, classes[c].superclass.value, f, fuel - 1)
    else None
  }

  /** `is_subclass_of`: `sup` is `sub` or one of its ancestors. */
  predicate IsSubclassOf(classes: Classes, sub: Ident, sup: Ident, fuel: nat)
    decreases fuel
  {
    sub == sup
    || (sub in classes && classes[sub].superclass.Some? && fuel > 0
        && IsSubclassOf(classes, classes[sub].superclass.value, sup, fuel - 1))
  }

  /** The members visible inside class `c`, inherited ones included, none of them local. */
  function ClassScope(classes: Classes, c: Ident, fuel: nat): map<Ident, Binding>
    decreases fuel
  {
    if c !in classes then map[]
    else
      var own := map f | f in classes[c].fields :: Binding(classes[c].fields[f], false);
      if classes[c].superclass.Some? && fuel > 0 then ClassScope(classes, classes[c].superclass.value, fuel - 1) + own
      else own
  }

  /** A class scope binds exactly the members `get_field_type` finds, with the same types. */
  lemma {:induction false} ClassScopeFieldType(classes: Classes, c: Ident, f: Ident, fuel: nat)
    ensures TypeOf(ClassScope(classes, c, fuel), f) == FieldType(classes, c, f, fuel)
    ensures !LocalIn(ClassScope(classes, c, fuel), f)
    decreases fuel
  {
    if c in classes && classes[c].superclass.Some? && fuel > 0 {
      ClassScopeFieldType(classes, classes[c].superclass.value, f, fuel - 1);
    }
  }

  /** Walking more links never loses a member found with fewer. */
  lemma {:induction false} FieldTypeMoreFuel(classes: Classes, c: Ident, f: Ident, a: nat, b: nat)
    requires a <= b && FieldType(classes, c, f, a).Some?
    ensures FieldType(classes, c, f, b) == FieldType(classes, c, f, a)
    decreases a
  {
    if f !in classes[c].fields {
      FieldTypeMoreFuel(classes, classes[c].superclass.value, f, a - 1, b - 1);
    }
  }

  /** An object of a subclass has every member of its superclass, possibly redefined. */
  lemma {:induction false} SubclassHasMembers(classes: Classes, sub: Ident, sup: Ident, n: nat, f: Ident, m: nat)
    requires IsSubclassOf(classes, sub, sup, n) && FieldType(classes, sup, f, m).Some?
    ensures FieldType(classes, sub, f, n + m).Some?
    decreases n
  {
    if sub == sup {
      FieldTypeMoreFuel(classes, sub, f, m, n + m);
    } else if f !in classes[sub].fields {
      SubclassHasMembers(classes, classes[sub].superclass.value, sup, n - 1, f, m);
    }
  }

  // ---------------------------------------------------------------------
  // Types

  predicate ValidType(classes: Classes, t: Type)
  {
    t.TObject? ==> t.cname in classes
  }

  /** `expect_valid_type`: an object type must name a registered class. */
  function ExpectValidType(classes: Classes, t: Type): (r: Result<(), TypeError>)
    ensures r.Ok? <==> ValidType(classes, t)
    ensures r.Err? ==> r.error == TypeError(InexistentType(t), [])
  {
    if t.TObject? && t.cname !in classes then Fail(InexistentType(t)) else Ok(())
  }

  predicate Declarable(t: Type)
  {
    t.TInt? || t.TString? || t.TBool? || t.TObject?
  }

  /** `expect_declarable_type`: a valid int, string, boolean or object type. */
  function ExpectDeclarableType(classes: Classes, t: Type): (r: Result<(), TypeError>)
    ensures r.Ok? <==> ValidType(classes, t) && Declarable(t)
    ensures r.Err? && ValidType(classes, t) ==> r.error == TypeError(NonDeclarable(t), [])
  {
    var _ :- ExpectValidType(classes, t);
    if Declarable(t) then Ok(()) else Fail(NonDeclarable(t))
  }

  /** `conforms_lsp`: a subclass object, or null, stands for an object. */
  predicate ConformsLsp(classes: Classes, expected: Type, actual: Type)
  {
    match (expected, actual)
    case (TObject(sup), TObject(sub)) => IsSubclassOf(classes, sub, sup, |classes|)
    case (TObject(_), TNull) => true
    case _ => false
  }

  /** `expect_type`: on success the expected type. */
  function ExpectType(classes: Classes, expected: Type, actual: Type): (r: Result<Type, TypeError>)
    ensures r.Ok? ==> r.value == expected
    ensures r.Err? ==> r.error == TypeError(InvalidType(expected, actual), [])
  {
    if expected == actual || ConformsLsp(classes, expected, actual) then Ok(expected)
    else Fail(InvalidType(expected, actual))
  }

  /**
   * A value fits where another type is expected exactly when the types
   * are equal, or an object is expected and the value is null or an
   * object of a subclass; for any other expected type only equality fits.
   */
  lemma ExpectTypeSpec(classes: Classes, expected: Type, actual: Type)
    ensures ExpectType(classes, expected, actual).Ok? <==>
      expected == actual
      || (expected.TObject? && (actual.TNull?
          || (actual.TObject? && IsSubclassOf(classes, actual.cname, expected.cname, |classes|))))
    ensures !expected.TObject? ==> (ExpectType(classes, expected, actual).Ok? <==> expected == actual)
  {
  }

  // ---------------------------------------------------------------------
  // Expressions

  function LitType(l: Lit): Type
  {
    match l
    case LInt(_) => TInt
    case LTrue => TBool
    case LFalse => TBool
    case LString(_) => TString
    case LNull(_) => TNull
  }

  /** A name's type: `Ident::check_types`. */
  function IdentType(idents: map<Ident, Binding>, x: Ident): (r: Result<Type, TypeError>)
    ensures r.Ok? <==> x in idents
    ensures r.Ok? ==> r.value == idents[x].t
    ensures r.Err? ==> r.error == TypeError(Undefined(x), [])
  {
    match TypeOf(idents, x)
    case Some(t) => Ok(t)
    case None => Fail(Undefined(x))
  }

  /** `FieldGet::check_types`: `a.b.c` looks `b.c` up among the members of `a`'s class. */
  function FieldGetType(idents: map<Ident, Binding>, classes: Classes, g: FieldGet): Result<Type, TypeError>
    decreases g
  {
    WrapErr(
      match g.field
      case None => IdentType(idents, g.ident)
      case Some(f) =>
        (match IdentType(idents, g.ident)
         case Err(e) => Err(e)
         case Ok(t) =>
           if t.TObject? then FieldGetType(ClassScope(classes, t.cname, |classes|), classes, f)
           else Fail(NotAnObject(g.ident))),
      InField(g))
  }

  /** `check_add_types`: `+` adds two ints or concatenates two strings. */
  function AddTypes(lt: Type, rt: Type): (r: Result<Type, TypeError>)
    ensures r.Ok? <==> lt == rt && (lt == TInt || lt == TString)
    ensures r.Ok? ==> r.value == lt
  {
    if (lt != TInt && lt != TString) || lt != rt then Fail(NoOperator(OpAdd, lt, rt)) else Ok(lt)
  }

  /** The operator rules of `Expr::check_types`, given the operand types. */
  function BinOpType(classes: Classes, op: Operator, lt: Type, rt: Type): Result<Type, TypeError>
  {
    match op
    case OpAdd => AddTypes(lt, rt)
    case OpAnd =>
      var a :- ExpectType(classes, TBool, lt); var b :- ExpectType(classes, TBool, rt); Ok(TBool)
    case OpOr =>
      var a :- ExpectType(classes, TBool, lt); var b :- ExpectType(classes, TBool, rt); Ok(TBool)
    case _ =>
      var a :- ExpectType(classes, TInt, lt);
      var b :- ExpectType(classes, TInt, rt);
      if op == OpSub || op == OpMul || op == OpDiv || op == OpMod then Ok(TInt) else Ok(TBool)
  }

  /** `Expr::check_types`. */
  function ExprType(idents: map<Ident, Binding>, classes: Classes, e: Expr): (r: Result<Type, TypeError>)
    requires ExprInRevision(e)
    ensures r.Err? ==> |r.error.stack| > 0 && r.error.stack[|r.error.stack| - 1] == InExpr(e)
    decreases e, 0, 0
  {
    WrapErr(
      match e
      case EVar(g) => FieldGetType(idents, classes, g)
      case ELit(l) => Ok(LitType(l))
      case ECall(callee, args) => CallType(idents, classes, callee, args)
      case ENeg(a) => (var t :- ExprType(idents, classes, a); ExpectType(classes, TInt, t))
      case ENot(a) => (var t :- ExprType(idents, classes, a); ExpectType(classes, TBool, t))
      case EBinOp(l, op, r) =>
        (var lt :- ExprType(idents, classes, l);
         var rt :- ExprType(idents, classes, r);
         BinOpType(classes, op, lt, rt)),
      InExpr(e))
  }

  /** `check_call_types`: the callee must be a function of as many parameters as there are arguments. */
  function CallType(idents: map<Ident, Binding>, classes: Classes, callee: FieldGet, args: seq<Expr>): Result<Type, TypeError>
    requires forall i :: 0 <= i < |args| ==> ExprInRevision(args[i])
    decreases args, 1, 0
  {
    var ft :- FieldGetType(idents, classes, callee);
    if !ft.TFunc? then Fail(NotAFunction(callee))
    else if |args| != |ft.params| then Fail(InvalidCallArgNum(|ft.params|, |args|))
    else
      var ok :- CheckArgs(idents, classes, ft.params, args, 0);
      Ok(ft.ret)
  }

  /** The argument loop of `check_call_types`, from argument `i` on, left to right. */
  function CheckArgs(idents: map<Ident, Binding>, classes: Classes, params: seq<Type>, args: seq<Expr>, i: nat)
    : Result<(), TypeError>
    requires |params| == |args| && i <= |args|
    requires forall j :: 0 <= j < |args| ==> ExprInRevision(args[j])
    decreases args, 0, |args| - i
  {
    if i == |args| then Ok(())
    else
      var actual :- ExprType(idents, classes, args[i]);
      if ExpectType(classes, params[i], actual).Err? then Fail(InvalidCallArgType(i, params[i], actual))
      else CheckArgs(idents, classes, params, args, i + 1)
  }

  /** Reference table of the binary operators: which operand types they accept. */
  predicate OperandsFit(op: Operator, lt: Type, rt: Type)
  {
    match op
    case OpAdd => lt == rt && (lt == TInt || lt == TString)
    case OpAnd => lt == TBool && rt == TBool
    case OpOr => lt == TBool && rt == TBool
    case _ => lt == TInt && rt == TInt
  }

  /** Reference table of the binary operators: the type of the result. */
  function ResultType(op: Operator, lt: Type): Type
  {
    match op
    case OpAdd => lt
    case OpSub => TInt
    case OpMul => TInt
    case OpDiv => TInt
    case OpMod => TInt
    case _ => TBool
  }

  /**
   * `+` takes two ints or two strings; the other arithmetic operators
   * and the comparisons, `==` and `!=` included, take two ints; `&&` and
   * `||` take two booleans.
   */
  lemma BinOpTyping(idents: map<Ident, Binding>, classes: Classes, l: Expr, op: Operator, r: Expr, lt: Type, rt: Type)
    requires ExprInRevision(l) && ExprInRevision(r)
    requires ExprType(idents, classes, l) == Ok(lt) && ExprType(idents, classes, r) == Ok(rt)
    ensures ExprType(idents, classes, EBinOp(l, op, r)).Ok? <==> OperandsFit(op, lt, rt)
    ensures OperandsFit(op, lt, rt) ==> ExprType(idents, classes, EBinOp(l, op, r)).value == ResultType(op, lt)
  {
    BinOpTypeTable(classes, op, lt, rt);
    assert ExprType(idents, classes, EBinOp(l, op, r)) == WrapErr(BinOpType(classes, op, lt, rt), InExpr(EBinOp(l, op, r)));
  }

  /** The operator rules agree with the reference table, whatever the class table. */
  lemma BinOpTypeTable(classes: Classes, op: Operator, lt: Type, rt: Type)
    ensures BinOpType(classes, op, lt, rt).Ok? <==> OperandsFit(op, lt, rt)
    ensures OperandsFit(op, lt, rt) ==> BinOpType(classes, op, lt, rt).value == ResultType(op, lt)
  {
    ExpectTypeSpec(classes, TBool, lt);
    ExpectTypeSpec(classes, TBool, rt);
    ExpectTypeSpec(classes, TInt, lt);
    ExpectTypeSpec(classes, TInt, rt);
  }

  /** Negation needs an int and `!` a boolean; each gives back its operand's type. */
  lemma UnaryTyping(idents: map<Ident, Binding>, classes: Classes, a: Expr, t: Type)
    requires ExprInRevision(a) && ExprType(idents, classes, a) == Ok(t)
    ensures ExprType(idents, classes, ENeg(a)).Ok? <==> t == TInt
    ensures ExprType(idents, classes, ENot(a)).Ok? <==> t == TBool
    ensures ExprType(idents, classes, ENeg(a)).Ok? ==> ExprType(idents, classes, ENeg(a)).value == TInt
    ensures ExprType(idents, classes, ENot(a)).Ok? ==> ExprType(idents, classes, ENot(a)).value == TBool
  {
    ExpectTypeSpec(classes, TInt, t);
    ExpectTypeSpec(classes, TBool, t);
    assert ExprType(idents, classes, ENeg(a)) == WrapErr(ExpectType(classes, TInt, t), InExpr(ENeg(a)));
    assert ExprType(idents, classes, ENot(a)) == WrapErr(ExpectType(classes, TBool, t), InExpr(ENot(a)));
  }

  /** The argument has a type, and it fits the parameter's type. */
  predicate ArgFits(idents: map<Ident, Binding>, classes: Classes, param: Type, arg: Expr)
    requires ExprInRevision(arg)
  {
    ExprType(idents, classes, arg).Ok? && ExpectType(classes, param, ExprType(idents, classes, arg).value).Ok?
  }

  /** Every argument has a type that fits its parameter. */
  predicate ArgsFit(idents: map<Ident, Binding>, classes: Classes, params: seq<Type>, args: seq<Expr>)
    requires forall j :: 0 <= j < |args| ==> ExprInRevision(args[j])
  {
    |params| == |args| && forall j :: 0 <= j < |args| ==> ArgFits(idents, classes, params[j], args[j])
  }

  lemma {:induction false} CheckArgsSpec(idents: map<Ident, Binding>, classes: Classes, params: seq<Type>, args: seq<Expr>, i: nat)
    requires |params| == |args| && i <= |args|
    requires forall j :: 0 <= j < |args| ==> ExprInRevision(args[j])
    ensures CheckArgs(idents, classes, params, args, i).Ok? <==>
      forall j :: i <= j < |args| ==> ArgFits(idents, classes, params[j], args[j])
    decreases |args| - i
  {
    if i < |args| {
      CheckArgsStep(idents, classes, params, args, i);
      if ArgFits(idents, classes, params[i], args[i]) {
        CheckArgsSpec(idents, classes, params, args, i + 1);
      }
    }
  }

  /** One argument: one that fits moves on to the next, one that does not fails. */
  lemma CheckArgsStep(idents: map<Ident, Binding>, classes: Classes, params: seq<Type>, args: seq<Expr>, i: nat)
    requires |params| == |args| && i < |args|
    requires forall j :: 0 <= j < |args| ==> ExprInRevision(args[j])
    ensures ArgFits(idents, classes, params[i], args[i]) ==>
      CheckArgs(idents, classes, params, args, i) == CheckArgs(idents, classes, params, args, i + 1)
    ensures !ArgFits(idents, classes, params[i], args[i]) ==> CheckArgs(idents, classes, params, args, i).Err?
  {
  }

  /**
   * A call is typed exactly when its callee is a function whose
   * parameters the arguments fit one by one; its type is the function's
   * return type. A callee that is no function, or a wrong argument count,
   * is reported as such.
   */
  lemma CallTyping(idents: map<Ident, Binding>, classes: Classes, callee: FieldGet, args: seq<Expr>)
    requires forall j :: 0 <= j < |args| ==> ExprInRevision(args[j])
    ensures var ft := FieldGetType(idents, classes, callee);
      && (CallType(idents, classes, callee, args).Ok? <==>
            ft.Ok? && ft.value.TFunc? && ArgsFit(idents, classes, ft.value.params, args))
      && (CallType(idents, classes, callee, args).Ok? ==> CallType(idents, classes, callee, args).value == ft.value.ret)
      && (ft.Ok? && !ft.value.TFunc? ==> CallType(idents, classes, callee, args) == Fail(NotAFunction(callee)))
      && (ft.Ok? && ft.value.TFunc? && |args| != |ft.value.params| ==>
            CallType(idents, classes, callee, args) == Fail(InvalidCallArgNum(|ft.value.params|, |args|)))
  {
    var ft := FieldGetType(idents, classes, callee);
    if ft.Ok? && ft.value.TFunc? && |args| == |ft.value.params| {
      CheckArgsSpec(idents, classes, ft.value.params, args, 0);
    }
  }

  /** A plain name has its bound type; `a.f` needs `a` to be an object and types `f` inside its class. */
  lemma FieldGetTyping(idents: map<Ident, Binding>, classes: Classes, x: Ident, f: FieldGet)
    ensures FieldGetType(idents, classes, FieldGet(x, None)).Ok? <==> x in idents
    ensures FieldGetType(idents, classes, FieldGet(x, None)).Ok? ==>
      FieldGetType(idents, classes, FieldGet(x, None)).value == idents[x].t
    ensures FieldGetType(idents, classes, FieldGet(x, Some(f))).Ok? ==> x in idents && idents[x].t.TObject?
    ensures x in idents && idents[x].t.TObject? ==>
      FieldGetType(idents, classes, FieldGet(x, Some(f))).Ok? ==
      FieldGetType(ClassScope(classes, idents[x].t.cname, |classes|), classes, f).Ok?
  {
  }

  // ---------------------------------------------------------------------
  // Statements

  /** `add_ident`: the type must be valid and the name not yet declared in this scope. */
  function AddIdentSpec(idents: map<Ident, Binding>, classes: Classes, x: Ident, t: Type): (c: Checked)
    ensures c.r.Ok? <==> ValidType(classes, t) && !LocalIn(idents, x)
    ensures c.r.Ok? ==> c.idents == idents[x := Binding(t, true)]
    ensures c.r.Err? ==> c.idents == idents
    ensures c.r.Err? && ValidType(classes, t) ==> c.r.error == TypeError(AlreadyDefined(x), [])
  {
    match ExpectValidType(classes, t)
    case Err(e) => Checked(Err(e), idents)
    case Ok(_) =>
      if LocalIn(idents, x) then Checked(Fail(AlreadyDefined(x)), idents)
      else Checked(Ok(()), idents[x := Binding(t, true)])
  }

  /** `VarDecl::check_types`: the initialiser must fit the declared type before the name is added. */
  function DeclSpec(idents: map<Ident, Binding>, classes: Classes, d: VarDecl): Checked
    requires DeclInRevision(d)
  {
    var c :=
      match d
      case NoInit(t, x) => AddIdentSpec(idents, classes, x, t)
      case Init(t, x, e) =>
        (match ExprType(idents, classes, e)
         case Err(err) => Checked(Err(err), idents)
         case Ok(et) =>
           if ExpectType(classes, t, et).Err? then Checked(Err(ExpectType(classes, t, et).error), idents)
           else AddIdentSpec(idents, classes, x, t));
    Checked(WrapErr(c.r, InDecl(d)), c.idents)
  }

  /** The declarator loop of a declaration statement, stopping at the first error. */
  function DeclsSpec(idents: map<Ident, Binding>, classes: Classes, ds: seq<VarDecl>): Checked
    requires forall i :: 0 <= i < |ds| ==> DeclInRevision(ds[i])
    decreases |ds|
  {
    if |ds| == 0 then Checked(Ok(()), idents)
    else
      var c := DeclSpec(idents, classes, ds[0]);
      if c.r.Err? then c else DeclsSpec(c.idents, classes, ds[1..])
  }

  /** A condition must be a boolean. */
  function CondSpec(idents: map<Ident, Binding>, classes: Classes, e: Expr): Result<(), TypeError>
    requires ExprInRevision(e)
  {
    var et :- ExprType(idents, classes, e);
    var ok :- ExpectType(classes, TBool, et);
    Ok(())
  }

  /** The statements that only read the scope: assignment, `++`, `--`, the returns and expression statements. */
  function SimpleStmtSpec(idents: map<Ident, Binding>, ret: Type, classes: Classes, s: Stmt): Result<(), TypeError>
    requires StmtInRevision(s)
  {
    match s
    case SAssign(g, e) =>
      var it :- FieldGetType(idents, classes, g);
      var et :- ExprType(idents, classes, e);
      var ok :- ExpectType(classes, it, et);
      Ok(())
    case SInc(g) =>
      var it :- FieldGetType(idents, classes, g);
      var ok :- ExpectType(classes, TInt, it);
      Ok(())
    case SDec(g) =>
      var it :- FieldGetType(idents, classes, g);
      var ok :- ExpectType(classes, TInt, it);
      Ok(())
    case SReturnE(e) =>
      var et :- ExprType(idents, classes, e);
      var ok :- ExpectType(classes, ret, et);
      Ok(())
    case SReturn =>
      var ok :- ExpectType(classes, ret, TVoid);
      Ok(())
    case SExpr(e) =>
      var et :- ExprType(idents, classes, e);
      Ok(())
    case _ => Ok(())
  }

  /** `Stmt::check_types`: blocks and branch bodies are checked in a new scope. */
  function StmtSpec(idents: map<Ident, Binding>, ret: Type, classes: Classes, s: Stmt): (r: Checked)
    requires StmtInRevision(s)
    decreases s, 1
  {
    var c :=
      match s
      case SEmpty => Checked(Ok(()), idents)
      case SBlock(ss) => Checked(StmtsSpec(Demote(idents), ret, classes, ss).r, idents)
      case SDecl(t, ds) =>
        if ExpectDeclarableType(classes, t).Err? then Checked(ExpectDeclarableType(classes, t), idents)
        else DeclsSpec(idents, classes, ds)
      case SIf(e, b) =>
        if CondSpec(idents, classes, e).Err? then Checked(CondSpec(idents, classes, e), idents)
        else Checked(StmtSpec(Demote(idents), ret, classes, b).r, idents)
      case SWhile(e, b) =>
        if CondSpec(idents, classes, e).Err? then Checked(CondSpec(idents, classes, e), idents)
        else Checked(StmtSpec(Demote(idents), ret, classes, b).r, idents)
      case SIfElse(e, a, b) =>
        if CondSpec(idents, classes, e).Err? then Checked(CondSpec(idents, classes, e), idents)
        else if StmtSpec(Demote(idents), ret, classes, a).r.Err? then Checked(StmtSpec(Demote(idents), ret, classes, a).r, idents)
        else Checked(StmtSpec(Demote(idents), ret, classes, b).r, idents)
      case _ => Checked(SimpleStmtSpec(idents, ret, classes, s), idents);
    Checked(WrapErr(c.r, InStmt(s)), c.idents)
  }

  /** `Vec<Stmt>::check_types`: in order, in one scope, stopping at the first error. */
  function StmtsSpec(idents: map<Ident, Binding>, ret: Type, classes: Classes, ss: seq<Stmt>): Checked
    requires StmtsInRevision(ss)
    decreases ss, 0
  {
    if |ss| == 0 then Checked(Ok(()), idents)
    else
      var c := StmtSpec(idents, ret, classes, ss[0]);
      if c.r.Err? then c else StmtsSpec(c.idents, ret, classes, ss[1..])
  }

  /** `add_ident` on the context. */
  method AddIdent(x: Ident, t: Type, ctx: TypeContext, classes: Classes) returns (r: Result<(), TypeError>)
    modifies ctx
    ensures Checked(r, ctx.idents) == AddIdentSpec(old(ctx.idents), classes, x, t)
    ensures ctx.retType == old(ctx.retType)
  {
    r := ExpectValidType(classes, t);
    if r.Err? {
      return;
    }
    if ctx.IsLocal(x) {
      r := Fail(AlreadyDefined(x));
    } else {
      ctx.Set(x, t);
    }
  }

  method CheckDecl(d: VarDecl, ctx: TypeContext, classes: Classes) returns (r: Result<(), TypeError>)
    requires DeclInRevision(d)
    modifies ctx
    ensures Checked(r, ctx.idents) == DeclSpec(old(ctx.idents), classes, d)
    ensures ctx.retType == old(ctx.retType)
  {
    match d {
      case NoInit(t, x) =>
        r := AddIdent(x, t, ctx, classes);
      case Init(t, x, e) =>
        var et := ExprType(ctx.idents, classes, e);
        if et.Err? {
          r := Err(et.error);
        } else {
          var ex := ExpectType(classes, t, et.value);
          if ex.Err? {
            r := Err(ex.error);
          } else {
            r := AddIdent(x, t, ctx, classes);
          }
        }
    }
    r := WrapErr(r, InDecl(d));
  }

  method CheckDecls(ds: seq<VarDecl>, ctx: TypeContext, classes: Classes) returns (r: Result<(), TypeError>)
    requires forall i :: 0 <= i < |ds| ==> DeclInRevision(ds[i])
    modifies ctx
    ensures Checked(r, ctx.idents) == DeclsSpec(old(ctx.idents), classes, ds)
    ensures ctx.retType == old(ctx.retType)
  {
    var i := 0;
    while i < |ds|
      invariant 0 <= i <= |ds|
      invariant ctx.retType == old(ctx.retType)
      invariant DeclsSpec(old(ctx.idents), classes, ds) == DeclsSpec(ctx.idents, classes, ds[i..])
    {
      assert ds[i..][0] == ds[i] && ds[i..][1..] == ds[i + 1..];
      r := CheckDecl(ds[i], ctx, classes);
      if r.Err? {
        return;
      }
      i := i + 1;
    }
    r := Ok(());
  }

  method CheckStmt(s: Stmt, ctx: TypeContext, classes: Classes) returns (r: Result<(), TypeError>)
    requires StmtInRevision(s)
    modifies ctx
    ensures Checked(r, ctx.idents) == StmtSpec(old(ctx.idents), ctx.retType, classes, s)
    ensures ctx.retType == old(ctx.retType)
    decreases s, 1
  {
    match s {
      case SEmpty =>
        r := Ok(());
      case SBlock(ss) =>
        var inner := ctx.NewScope();
        r := CheckStmts(ss, inner, classes);
      case SDecl(t, ds) =>
        r := ExpectDeclarableType(classes, t);
        if r.Ok? {
          r := CheckDecls(ds, ctx, classes);
        }
      case SIf(e, b) =>
        r := CondSpec(ctx.idents, classes, e);
        if r.Ok? {
          r := CheckInNewScope(b, ctx, classes);
        }
      case SWhile(e, b) =>
        r := CondSpec(ctx.idents, classes, e);
        if r.Ok? {
          r := CheckInNewScope(b, ctx, classes);
        }
      case SIfElse(e, a, b) =>
        r := CondSpec(ctx.idents, classes, e);
        if r.Ok? {
          r := CheckInNewScope(a, ctx, classes);
          if r.Ok? {
            r := CheckInNewScope(b, ctx, classes);
          }
        }
      case _ =>
        r := SimpleStmtSpec(ctx.idents, ctx.retType, classes, s);
    }
    r := WrapErr(r, InStmt(s));
  }

  /** `ctx.in_new_scope(|ctx| s.check_types(ctx))`: the context itself is left as it was. */
  method CheckInNewScope(s: Stmt, ctx: TypeContext, classes: Classes) returns (r: Result<(), TypeError>)
    requires StmtInRevision(s)
    ensures r == StmtSpec(Demote(ctx.idents), ctx.retType, classes, s).r
    decreases s, 2
  {
    var inner := ctx.NewScope();
    r := CheckStmt(s, inner, classes);
  }

  method CheckStmts(ss: seq<Stmt>, ctx: TypeContext, classes: Classes) returns (r: Result<(), TypeError>)
    requires StmtsInRevision(ss)
    modifies ctx
    ensures Checked(r, ctx.idents) == StmtsSpec(old(ctx.idents), ctx.retType, classes, ss)
    ensures ctx.retType == old(ctx.retType)
    decreases ss, 0
  {
    var i := 0;
    while i < |ss|
      invariant 0 <= i <= |ss|
      invariant ctx.retType == old(ctx.retType)
      invariant StmtsSpec(old(ctx.idents), ctx.retType, classes, ss) == StmtsSpec(ctx.idents, ctx.retType, classes, ss[i..])
    {
      assert ss[i..][0] == ss[i] && ss[i..][1..] == ss[i + 1..];
      r := CheckStmt(ss[i], ctx, classes);
      if r.Err? {
        return;
      }
      i := i + 1;
    }
    r := Ok(());
  }

  /**
   * A declaration statement passes only when its names are pairwise
   * distinct and none was declared in the current scope before; each
   * name is then bound in the scope with its declared type. Outer names
   * may be shadowed.
   */
  lemma {:induction false} DeclsBind(idents: map<Ident, Binding>, classes: Classes, ds: seq<VarDecl>)
    requires forall i :: 0 <= i < |ds| ==> DeclInRevision(ds[i])
    requires DeclsSpec(idents, classes, ds).r.Ok?
    ensures forall i, j :: 0 <= i < j < |ds| ==> ds[i].ident != ds[j].ident
    ensures forall i :: 0 <= i < |ds| ==> !LocalIn(idents, ds[i].ident)
    ensures forall i :: 0 <= i < |ds| ==>
      ds[i].ident in DeclsSpec(idents, classes, ds).idents
      && DeclsSpec(idents, classes, ds).idents[ds[i].ident] == Binding(ds[i].t, true)
    decreases |ds|
  {
    if |ds| > 0 {
      var c := DeclSpec(idents, classes, ds[0]);
      assert c.r.Ok? && c.idents == idents[ds[0].ident := Binding(ds[0].t, true)];
      var rest := ds[1..];
      DeclsBind(c.idents, classes, rest);
      DeclsKeepOthers(c.idents, classes, rest, ds[0].ident);
      assert forall i :: 1 <= i < |ds| ==> ds[i] == rest[i - 1];
    }
  }

  /** A name a declaration statement does not declare keeps its binding. */
  lemma {:induction false} DeclsKeepOthers(idents: map<Ident, Binding>, classes: Classes, ds: seq<VarDecl>, x: Ident)
    requires forall i :: 0 <= i < |ds| ==> DeclInRevision(ds[i])
    requires DeclsSpec(idents, classes, ds).r.Ok?
    requires forall i :: 0 <= i < |ds| ==> ds[i].ident != x
    ensures TypeOf(DeclsSpec(idents, classes, ds).idents, x) == TypeOf(idents, x)
    ensures LocalIn(DeclsSpec(idents, classes, ds).idents, x) <==> LocalIn(idents, x)
    decreases |ds|
  {
    if |ds| > 0 {
      var c := DeclSpec(idents, classes, ds[0]);
      assert c.idents == idents[ds[0].ident := Binding(ds[0].t, true)];
      assert forall i :: 0 <= i < |ds| - 1 ==> ds[1..][i] == ds[i + 1];
      DeclsKeepOthers(c.idents, classes, ds[1..], x);
    }
  }

  /**
   * `after` differs from `before` only by bindings of the current scope:
   * no name disappears, and a binding that changes or appears is local.
   */
  predicate OnlyLocalChanges(before: map<Ident, Binding>, after: map<Ident, Binding>)
  {
    (forall x :: x in before ==> x in after && (after[x] == before[x] || after[x].local))
    && (forall x :: x in after && x !in before ==> after[x].local)
  }

  lemma OnlyLocalChangesTrans(a: map<Ident, Binding>, b: map<Ident, Binding>, c: map<Ident, Binding>)
    requires OnlyLocalChanges(a, b) && OnlyLocalChanges(b, c)
    ensures OnlyLocalChanges(a, c)
  {
  }

  lemma {:induction false} DeclsOnlyLocal(idents: map<Ident, Binding>, classes: Classes, ds: seq<VarDecl>)
    requires forall i :: 0 <= i < |ds| ==> DeclInRevision(ds[i])
    ensures OnlyLocalChanges(idents, DeclsSpec(idents, classes, ds).idents)
    decreases |ds|
  {
    if |ds| > 0 {
      var c := DeclSpec(idents, classes, ds[0]);
      if c.r.Ok? {
        DeclsOnlyLocal(c.idents, classes, ds[1..]);
        OnlyLocalChangesTrans(idents, c.idents, DeclsSpec(c.idents, classes, ds[1..]).idents);
      }
    }
  }

  /**
   * Only a declaration changes the scope it is checked in: blocks and the
   * bodies of `if` and `while` are checked in a new scope whose bindings
   * are dropped afterwards.
   */
  lemma StmtScope(idents: map<Ident, Binding>, ret: Type, classes: Classes, s: Stmt)
    requires StmtInRevision(s)
    ensures !s.SDecl? ==> StmtSpec(idents, ret, classes, s).idents == idents
    ensures s.SDecl? ==> OnlyLocalChanges(idents, StmtSpec(idents, ret, classes, s).idents)
  {
    if s.SDecl? && ExpectDeclarableType(classes, s.t).Ok? {
      DeclsOnlyLocal(idents, classes, s.decls);
    }
  }

  /** A statement that fails reports itself as the outermost place of the error. */
  lemma StmtErrorPlace(idents: map<Ident, Binding>, ret: Type, classes: Classes, s: Stmt)
    requires StmtInRevision(s)
    ensures StmtSpec(idents, ret, classes, s).r.Err? ==>
      var st := StmtSpec(idents, ret, classes, s).r.error.stack; |st| > 0 && st[|st| - 1] == InStmt(s)
  {
  }

  /** Checking a statement list never alters or removes a binding of an enclosing scope. */
  lemma {:induction false} StmtsOnlyLocal(idents: map<Ident, Binding>, ret: Type, classes: Classes, ss: seq<Stmt>)
    requires StmtsInRevision(ss)
    ensures OnlyLocalChanges(idents, StmtsSpec(idents, ret, classes, ss).idents)
    decreases |ss|
  {
    if |ss| > 0 {
      var c := StmtSpec(idents, ret, classes, ss[0]);
      StmtScope(idents, ret, classes, ss[0]);
      if c.r.Ok? {
        StmtsOnlyLocal(c.idents, ret, classes, ss[1..]);
        OnlyLocalChangesTrans(idents, c.idents, StmtsSpec(c.idents, ret, classes, ss[1..]).idents);
      }
    }
  }

  /** A `return e;` passes only when `e` fits the return type. */
  lemma ReturnTyping(idents: map<Ident, Binding>, ret: Type, classes: Classes, e: Expr)
    requires ExprInRevision(e)
    ensures SimpleStmtSpec(idents, ret, classes, SReturnE(e)).Ok? <==>
      ExprType(idents, classes, e).Ok? && ExpectType(classes, ret, ExprType(idents, classes, e).value).Ok?
  {
    var et := ExprType(idents, classes, e);
    if et.Ok? {
      var ok := ExpectType(classes, ret, et.value);
      assert SimpleStmtSpec(idents, ret, classes, SReturnE(e)).Ok? == ok.Ok?;
    } else {
      assert SimpleStmtSpec(idents, ret, classes, SReturnE(e)).Err?;
    }
  }

  /** A bare `return;` passes only in a void function. */
  lemma VoidReturnTyping(idents: map<Ident, Binding>, ret: Type, classes: Classes)
    ensures SimpleStmtSpec(idents, ret, classes, SReturn).Ok? <==> ret == TVoid
  {
    assert SimpleStmtSpec(idents, ret, classes, SReturn).Ok? == ExpectType(classes, ret, TVoid).Ok?;
  }

  /** The verdict on a statement that only reads the scope is that of its rule. */
  lemma SimpleStmtVerdict(idents: map<Ident, Binding>, ret: Type, classes: Classes, s: Stmt)
    requires StmtInRevision(s)
    requires s.SAssign? || s.SInc? || s.SDec? || s.SReturnE? || s.SReturn? || s.SExpr?
    ensures StmtSpec(idents, ret, classes, s).r.Ok? <==> SimpleStmtSpec(idents, ret, classes, s).Ok?
  {
  }

  // ---------------------------------------------------------------------
  // Parameters, fields and functions

  /** `Var::check_types`: a declarable type, then the name is added to the scope. */
  function VarSpec(idents: map<Ident, Binding>, classes: Classes, v: Var): Checked
  {
    var c :=
      if ExpectDeclarableType(classes, v.t).Err? then Checked(ExpectDeclarableType(classes, v.t), idents)
      else AddIdentSpec(idents, classes, v.ident, v.t);
    Checked(WrapErr(c.r, InVar(v)), c.idents)
  }

  /** A parameter or field list, in order, stopping at the first error. */
  function VarsSpec(idents: map<Ident, Binding>, classes: Classes, vs: seq<Var>): Checked
    decreases |vs|
  {
    if |vs| == 0 then Checked(Ok(()), idents)
    else
      var c := VarSpec(idents, classes, vs[0]);
      if c.r.Err? then c else VarsSpec(c.idents, classes, vs[1..])
  }

  /** A parameter list passes only when its names are pairwise distinct and its types declarable. */
  lemma {:induction false} VarsDistinct(idents: map<Ident, Binding>, classes: Classes, vs: seq<Var>)
    requires forall i :: 0 <= i < |vs| ==> !LocalIn(idents, vs[i].ident)
    ensures VarsSpec(idents, classes, vs).r.Ok? <==>
      (forall i, j :: 0 <= i < j < |vs| ==> vs[i].ident != vs[j].ident)
      && (forall i :: 0 <= i < |vs| ==> ValidType(classes, vs[i].t) && Declarable(vs[i].t))
    decreases |vs|
  {
    if |vs| > 0 {
      var c := VarSpec(idents, classes, vs[0]);
      assert forall i :: 1 <= i < |vs| ==> vs[1..][i - 1] == vs[i];
      if c.r.Ok? {
        assert c.idents == idents[vs[0].ident := Binding(vs[0].t, true)];
        if forall i :: 1 <= i < |vs| ==> vs[i].ident != vs[0].ident {
          VarsDistinct(c.idents, classes, vs[1..]);
        } else {
          var i :| 1 <= i < |vs| && vs[i].ident == vs[0].ident;
          VarsFailOnRepeat(c.idents, classes, vs[1..], i - 1);
        }
      }
    }
  }

  /** Declaring a name already local in the scope fails, wherever in the list it comes. */
  lemma {:induction false} VarsFailOnRepeat(idents: map<Ident, Binding>, classes: Classes, vs: seq<Var>, k: nat)
    requires k < |vs| && LocalIn(idents, vs[k].ident)
    ensures VarsSpec(idents, classes, vs).r.Err?
    decreases |vs|
  {
    var c := VarSpec(idents, classes, vs[0]);
    if c.r.Ok? && k > 0 {
      assert vs[1..][k - 1] == vs[k];
      VarsFailOnRepeat(c.idents, classes, vs[1..], k - 1);
    }
  }

  method CheckVar(v: Var, ctx: TypeContext, classes: Classes) returns (r: Result<(), TypeError>)
    modifies ctx
    ensures Checked(r, ctx.idents) == VarSpec(old(ctx.idents), classes, v)
    ensures ctx.retType == old(ctx.retType)
  {
    r := ExpectDeclarableType(classes, v.t);
    if r.Ok? {
      r := AddIdent(v.ident, v.t, ctx, classes);
    }
    r := WrapErr(r, InVar(v));
  }

  method CheckVars(vs: seq<Var>, ctx: TypeContext, classes: Classes) returns (r: Result<(), TypeError>)
    modifies ctx
    ensures Checked(r, ctx.idents) == VarsSpec(old(ctx.idents), classes, vs)
    ensures ctx.retType == old(ctx.retType)
  {
    var i := 0;
    while i < |vs|
      invariant 0 <= i <= |vs|
      invariant ctx.retType == old(ctx.retType)
      invariant VarsSpec(old(ctx.idents), classes, vs) == VarsSpec(ctx.idents, classes, vs[i..])
    {
      assert vs[i..][0] == vs[i] && vs[i..][1..] == vs[i + 1..];
      r := CheckVar(vs[i], ctx, classes);
      if r.Err? {
        return;
      }
      i := i + 1;
    }
    r := Ok(());
  }

  /** `Func::check_types`: parameters, then the body, in a new scope with the function's return type. */
  function FuncSpec(idents: map<Ident, Binding>, classes: Classes, f: Func): Result<(), TypeError>
    requires FuncInRevision(f)
  {
    var a := VarsSpec(Demote(idents), classes, f.args);
    WrapErr(if a.r.Err? then a.r else StmtsSpec(a.idents, f.retType, classes, f.body).r, InFunc(f.ident))
  }

  method CheckFunc(f: Func, ctx: TypeContext, classes: Classes) returns (r: Result<(), TypeError>)
    requires FuncInRevision(f)
    ensures r == FuncSpec(ctx.idents, classes, f)
  {
    var fctx := ctx.FunctionScope(f.retType);
    r := CheckVars(f.args, fctx, classes);
    if r.Ok? {
      r := CheckStmts(f.body, fctx, classes);
    }
    r := WrapErr(r, InFunc(f.ident));
  }

  /** `Func::check_signature`: a valid return type, and parameters declarable in a new scope. */
  function SignatureSpec(idents: map<Ident, Binding>, classes: Classes, f: Func): Result<(), TypeError>
  {
    WrapErr(
      if ExpectValidType(classes, f.retType).Err? then ExpectValidType(classes, f.retType)
      else VarsSpec(Demote(idents), classes, f.args).r,
      InSignature(f.ident))
  }

  method CheckSignature(f: Func, ctx: TypeContext, classes: Classes) returns (r: Result<(), TypeError>)
    ensures r == SignatureSpec(ctx.idents, classes, f)
  {
    r := ExpectValidType(classes, f.retType);
    if r.Ok? {
      var inner := ctx.NewScope();
      r := CheckVars(f.args, inner, classes);
    }
    r := WrapErr(r, InSignature(f.ident));
  }

  /** A signature passes exactly when the return type is valid and the parameters are distinct and declarable. */
  lemma SignatureRule(idents: map<Ident, Binding>, classes: Classes, f: Func)
    ensures SignatureSpec(idents, classes, f).Ok? <==>
      ValidType(classes, f.retType)
      && (forall i, j :: 0 <= i < j < |f.args| ==> f.args[i].ident != f.args[j].ident)
      && (forall i :: 0 <= i < |f.args| ==> ValidType(classes, f.args[i].t) && Declarable(f.args[i].t))
  {
    VarsDistinct(Demote(idents), classes, f.args);
  }

  // ---------------------------------------------------------------------
  // Classes

  /** The field rule of `check_fields`: no field may reuse a member name of the superclass chain. */
  function VarOverrides(classes: Classes, sup: Ident, vs: seq<Var>): Result<(), TypeError>
    decreases |vs|
  {
    if |vs| == 0 then Ok(())
    else if FieldType(classes, sup, vs[0].ident, |classes|).Some? then Fail(VarOverride(vs[0].ident))
    else VarOverrides(classes, sup, vs[1..])
  }

  /** The method rule of `check_fields`: an inherited member may be redefined only with the same type. */
  function MethodOverrides(classes: Classes, sup: Ident, ms: seq<Func>): Result<(), TypeError>
    decreases |ms|
  {
    if |ms| == 0 then Ok(())
    else
      match FieldType(classes, sup, ms[0].ident, |classes|)
      case Some(actual) =>
        if actual != FuncType(ms[0]) then Fail(InvalidOverride(ms[0].ident, FuncType(ms[0]), actual))
        else MethodOverrides(classes, sup, ms[1..])
      case None => MethodOverrides(classes, sup, ms[1..])
  }

  lemma {:induction false} VarOverridesSpec(classes: Classes, sup: Ident, vs: seq<Var>)
    ensures VarOverrides(classes, sup, vs).Ok? <==>
      forall i :: 0 <= i < |vs| ==> FieldType(classes, sup, vs[i].ident, |classes|).None?
    decreases |vs|
  {
    if |vs| > 0 {
      VarOverridesSpec(classes, sup, vs[1..]);
      assert forall i :: 1 <= i < |vs| ==> vs[1..][i - 1] == vs[i];
    }
  }

  lemma {:induction false} MethodOverridesSpec(classes: Classes, sup: Ident, ms: seq<Func>)
    ensures MethodOverrides(classes, sup, ms).Ok? <==>
      forall i :: 0 <= i < |ms| ==> FieldType(classes, sup, ms[i].ident, |classes|) in {None, Some(FuncType(ms[i]))}
    decreases |ms|
  {
    if |ms| > 0 {
      MethodOverridesSpec(classes, sup, ms[1..]);
      assert forall i :: 1 <= i < |ms| ==> ms[1..][i - 1] == ms[i];
    }
  }

  /** The signatures of a class's methods, in order. */
  function SignaturesSpec(idents: map<Ident, Binding>, classes: Classes, ms: seq<Func>): Result<(), TypeError>
    decreases |ms|
  {
    if |ms| == 0 then Ok(())
    else
      var ok :- SignatureSpec(idents, classes, ms[0]);
      SignaturesSpec(idents, classes, ms[1..])
  }

  /** The checks of `check_fields`, before the error is placed in the class. */
  function ClassFieldsBody(idents: map<Ident, Binding>, classes: Classes, c: Class): Result<(), TypeError>
  {
    var fields :- VarsSpec(Demote(idents), classes, c.vars).r;
    var sigs :- SignaturesSpec(idents, classes, c.methods);
    match c.superclass
    case None => Ok(())
    case Some(sup) =>
      var vars :- VarOverrides(classes, sup, c.vars);
      MethodOverrides(classes, sup, c.methods)
  }

  /** `Class::check_fields`: fields, method signatures, then the override rules. */
  function ClassFieldsSpec(idents: map<Ident, Binding>, classes: Classes, c: Class): Result<(), TypeError>
  {
    WrapErr(ClassFieldsBody(idents, classes, c), InClassFields(c.name))
  }

  /**
   * A class that passes redefines no inherited member as a field, and
   * redefines an inherited member as a method only with the same type.
   */
  lemma OverrideRules(idents: map<Ident, Binding>, classes: Classes, c: Class)
    requires ClassFieldsSpec(idents, classes, c).Ok? && c.superclass.Some?
    ensures forall i :: 0 <= i < |c.vars| ==>
      FieldType(classes, c.superclass.value, c.vars[i].ident, |classes|).None?
    ensures forall i :: 0 <= i < |c.methods| ==>
      FieldType(classes, c.superclass.value, c.methods[i].ident, |classes|) in {None, Some(FuncType(c.methods[i]))}
  {
    VarOverridesSpec(classes, c.superclass.value, c.vars);
    MethodOverridesSpec(classes, c.superclass.value, c.methods);
  }

  /** The loop over the method signatures in `check_fields`. */
  method CheckSignatures(ms: seq<Func>, ctx: TypeContext, classes: Classes) returns (r: Result<(), TypeError>)
    ensures r == SignaturesSpec(ctx.idents, classes, ms)
  {
    var i := 0;
    while i < |ms|
      invariant 0 <= i <= |ms|
      invariant SignaturesSpec(ctx.idents, classes, ms) == SignaturesSpec(ctx.idents, classes, ms[i..])
    {
      SignaturesStep(ctx.idents, classes, ms, i);
      r := CheckSignature(ms[i], ctx, classes);
      if r.Err? {
        return;
      }
      i := i + 1;
    }
    r := Ok(());
  }

  lemma SignaturesStep(idents: map<Ident, Binding>, classes: Classes, ms: seq<Func>, i: nat)
    requires i < |ms|
    ensures SignaturesSpec(idents, classes, ms[i..]) ==
      (var s := SignatureSpec(idents, classes, ms[i]);
       if s.Err? then Err(s.error) else SignaturesSpec(idents, classes, ms[i + 1..]))
  {
    assert ms[i..][0] == ms[i] && ms[i..][1..] == ms[i + 1..];
  }

  method CheckClassFields(c: Class, ctx: TypeContext, classes: Classes) returns (r: Result<(), TypeError>)
    ensures r == ClassFieldsSpec(ctx.idents, classes, c)
  {
    var inner := ctx.NewScope();
    r := CheckVars(c.vars, inner, classes);
    assert r == VarsSpec(Demote(ctx.idents), classes, c.vars).r;
    if r.Ok? {
      r := CheckSignatures(c.methods, ctx, classes);
      assert r == SignaturesSpec(ctx.idents, classes, c.methods);
    }
    if r.Ok? && c.superclass.Some? {
      r := VarOverrides(classes, c.superclass.value, c.vars);
      if r.Ok? {
        r := MethodOverrides(classes, c.superclass.value, c.methods);
      }
    }
    assert r.Ok? ==> r.value == ();
    assert r == ClassFieldsBody(ctx.idents, classes, c);
    r := WrapErr(r, InClassFields(c.name));
  }

  /** `in_class_scope(name, true, ..)`: a new scope that also sees the members of the class and its ancestors. */
  function ClassBodyScope(idents: map<Ident, Binding>, classes: Classes, cname: Ident): map<Ident, Binding>
  {
    Demote(idents) + ClassScope(classes, cname, |classes|)
  }

  /** Inside a class body nothing is local yet, and a member of the class shadows an outer name. */
  lemma ClassBodyScopeSees(idents: map<Ident, Binding>, classes: Classes, cname: Ident, x: Ident)
    ensures !LocalIn(ClassBodyScope(idents, classes, cname), x)
    ensures TypeOf(ClassBodyScope(idents, classes, cname), x) ==
      (match FieldType(classes, cname, x, |classes|)
       case Some(t) => Some(t)
       case None => TypeOf(idents, x))
  {
    ClassScopeFieldType(classes, cname, x, |classes|);
  }

  /** The methods of a class body, each in its own function scope. */
  function MethodsSpec(scope: map<Ident, Binding>, classes: Classes, ms: seq<Func>): Result<(), TypeError>
    requires forall i :: 0 <= i < |ms| ==> FuncInRevision(ms[i])
    decreases |ms|
  {
    if |ms| == 0 then Ok(())
    else
      var ok :- FuncSpec(Demote(scope), classes, ms[0]);
      MethodsSpec(scope, classes, ms[1..])
  }

  lemma MethodsStep(scope: map<Ident, Binding>, classes: Classes, ms: seq<Func>, i: nat)
    requires i < |ms| && forall j :: 0 <= j < |ms| ==> FuncInRevision(ms[j])
    ensures MethodsSpec(scope, classes, ms[i..]) ==
      (var f := FuncSpec(Demote(scope), classes, ms[i]);
       if f.Err? then Err(f.error) else MethodsSpec(scope, classes, ms[i + 1..]))
  {
    assert ms[i..][0] == ms[i] && ms[i..][1..] == ms[i + 1..];
  }

  /** `Class::check_types`: every method, inside the class's scope. */
  function ClassSpec(idents: map<Ident, Binding>, classes: Classes, c: Class): Result<(), TypeError>
    requires forall i :: 0 <= i < |c.methods| ==> FuncInRevision(c.methods[i])
  {
    WrapErr(MethodsSpec(ClassBodyScope(idents, classes, c.name), classes, c.methods), InClass(c.name))
  }

  method CheckClass(c: Class, ctx: TypeContext, classes: Classes) returns (r: Result<(), TypeError>)
    requires forall i :: 0 <= i < |c.methods| ==> FuncInRevision(c.methods[i])
    ensures r == ClassSpec(ctx.idents, classes, c)
  {
    var cctx := new TypeContext();
    cctx.idents := ClassBodyScope(ctx.idents, classes, c.name);
    cctx.retType := ctx.retType;
    r := CheckMethods(c.methods, cctx, classes);
    r := WrapErr(r, InClass(c.name));
  }

  /** The methods of a class in order, each in a function scope of the class body, stopping at the first error. */
  method CheckMethods(ms: seq<Func>, cctx: TypeContext, classes: Classes) returns (r: Result<(), TypeError>)
    requires forall i :: 0 <= i < |ms| ==> FuncInRevision(ms[i])
    ensures r == MethodsSpec(cctx.idents, classes, ms)
  {
    var i := 0;
    while i < |ms|
      invariant 0 <= i <= |ms|
      invariant MethodsSpec(cctx.idents, classes, ms) == MethodsSpec(cctx.idents, classes, ms[i..])
    {
      MethodsStep(cctx.idents, classes, ms, i);
      var fctx := cctx.FunctionScope(ms[i].retType);
      r := CheckFunc(ms[i], fctx, classes);
      if r.Err? {
        return;
      }
      i := i + 1;
    }
    r := Ok(());
  }

  /** The fields of a class as members, with their types. */
  function VarMembers(vs: seq<Var>): (r: seq<(Ident, Type)>)
    ensures |r| == |vs| && forall i :: 0 <= i < |vs| ==> r[i] == (vs[i].ident, VarType(vs[i]))
  {
    seq(|vs|, i requires 0 <= i < |vs| => (vs[i].ident, VarType(vs[i])))
  }

  /** The methods of a class as members, with their function types. */
  function MethodMembers(ms: seq<Func>): (r: seq<(Ident, Type)>)
    ensures |r| == |ms| && forall i :: 0 <= i < |ms| ==> r[i] == (ms[i].ident, FuncType(ms[i]))
  {
    seq(|ms|, i requires 0 <= i < |ms| => (ms[i].ident, FuncType(ms[i])))
  }

  /** A class's members in declaration order, fields first. */
  function Members(c: Class): seq<(Ident, Type)>
  {
    VarMembers(c.vars) + MethodMembers(c.methods)
  }

  /** The member table of `add_class`, filled in order; a repeated name is an error. */
  function CollectMembers(cname: Ident, fields: map<Ident, Type>, ms: seq<(Ident, Type)>): Result<map<Ident, Type>, TypeError>
    decreases |ms|
  {
    if |ms| == 0 then Ok(fields)
    else if ms[0].0 in fields then Fail(FieldAlreadyDefined(cname, ms[0].0))
    else CollectMembers(cname, fields[ms[0].0 := ms[0].1], ms[1..])
  }

  /** The member table is built exactly when no member name repeats or clashes with one already present. */
  lemma {:induction false} CollectMembersOk(cname: Ident, fields: map<Ident, Type>, ms: seq<(Ident, Type)>)
    ensures CollectMembers(cname, fields, ms).Ok? <==>
      (forall i, j :: 0 <= i < j < |ms| ==> ms[i].0 != ms[j].0) && (forall i :: 0 <= i < |ms| ==> ms[i].0 !in fields)
    decreases |ms|
  {
    if |ms| > 0 {
      var rest := ms[1..];
      assert forall i :: 1 <= i < |ms| ==> ms[i] == rest[i - 1];
      if ms[0].0 !in fields {
        CollectMembersOk(cname, fields[ms[0].0 := ms[0].1], rest);
      }
    }
  }

  /** A built member table keeps what was present and maps each member, and nothing else, to its type. */
  lemma {:induction false} CollectMembersContents(cname: Ident, fields: map<Ident, Type>, ms: seq<(Ident, Type)>)
    ensures CollectMembers(cname, fields, ms).Ok? ==>
      var t := CollectMembers(cname, fields, ms).value;
      (forall i :: 0 <= i < |ms| ==> ms[i].0 in t && t[ms[i].0] == ms[i].1)
      && (forall x :: x in fields ==> x in t && t[x] == fields[x])
      && (forall x :: x in t ==> x in fields || exists i :: 0 <= i < |ms| && ms[i].0 == x)
    decreases |ms|
  {
    if |ms| > 0 && ms[0].0 !in fields {
      var rest := ms[1..];
      assert forall i :: 1 <= i < |ms| ==> ms[i] == rest[i - 1];
      CollectMembersContents(cname, fields[ms[0].0 := ms[0].1], rest);
      CollectMembersOk(cname, fields[ms[0].0 := ms[0].1], rest);
      if CollectMembers(cname, fields, ms).Ok? {
        var t := CollectMembers(cname, fields, ms).value;
        forall x | x in t ensures x in fields || exists i :: 0 <= i < |ms| && ms[i].0 == x {
          if x !in fields && x != ms[0].0 {
            var i :| 0 <= i < |rest| && rest[i].0 == x;
            assert ms[i + 1].0 == x;
          }
        }
      }
    }
  }

  /** Filling the table from two lists in turn fills it from their concatenation. */
  lemma {:induction false} CollectAppend(cname: Ident, fields: map<Ident, Type>, a: seq<(Ident, Type)>, b: seq<(Ident, Type)>)
    ensures CollectMembers(cname, fields, a + b) ==
      (match CollectMembers(cname, fields, a)
       case Ok(g) => CollectMembers(cname, g, b)
       case Err(e) => Err(e))
    decreases |a|
  {
    if |a| > 0 {
      assert (a + b)[0] == a[0] && (a + b)[1..] == a[1..] + b;
      if a[0].0 !in fields {
        CollectAppend(cname, fields[a[0].0 := a[0].1], a[1..], b);
      }
    } else {
      assert a + b == b;
    }
  }

  /** `add_class`: the class's name must be free; its member table goes into the class table. */
  function AddClassSpec(idents: map<Ident, Binding>, classes: Classes, c: Class): Result<Classes, TypeError>
  {
    if TypeOf(idents, c.name).Some? then Fail(NameAlreadyDefined(c.name))
    else
      var fields :- CollectMembers(c.name, map[], Members(c));
      Ok(classes[c.name := ClassInfo(c.superclass, fields)])
  }

  /** The loop over the fields in `add_class`. */
  method CollectVars(cname: Ident, vs: seq<Var>, fields: map<Ident, Type>) returns (r: Result<map<Ident, Type>, TypeError>)
    ensures r == CollectMembers(cname, fields, VarMembers(vs))
  {
    var ms := VarMembers(vs);
    var acc := fields;
    var i := 0;
    while i < |vs|
      invariant 0 <= i <= |vs|
      invariant CollectMembers(cname, fields, ms) == CollectMembers(cname, acc, ms[i..])
    {
      assert ms[i..][0] == ms[i] && ms[i..][1..] == ms[i + 1..];
      if vs[i].ident in acc {
        return Fail(FieldAlreadyDefined(cname, vs[i].ident));
      }
      acc := acc[vs[i].ident := VarType(vs[i])];
      i := i + 1;
    }
    r := Ok(acc);
  }

  /** The loop over the methods in `add_class`. */
  method CollectMethods(cname: Ident, fs: seq<Func>, fields: map<Ident, Type>) returns (r: Result<map<Ident, Type>, TypeError>)
    ensures r == CollectMembers(cname, fields, MethodMembers(fs))
  {
    var ms := MethodMembers(fs);
    var acc := fields;
    var i := 0;
    while i < |fs|
      invariant 0 <= i <= |fs|
      invariant CollectMembers(cname, fields, ms) == CollectMembers(cname, acc, ms[i..])
    {
      assert ms[i..][0] == ms[i] && ms[i..][1..] == ms[i + 1..];
      if fs[i].ident in acc {
        return Fail(FieldAlreadyDefined(cname, fs[i].ident));
      }
      acc := acc[fs[i].ident := FuncType(fs[i])];
      i := i + 1;
    }
    r := Ok(acc);
  }

  method AddClass(c: Class, ctx: TypeContext, classes: Classes) returns (r: Result<(), TypeError>, classes': Classes)
    ensures r.Ok? <==> AddClassSpec(ctx.idents, classes, c).Ok?
    ensures r.Ok? ==> classes' == AddClassSpec(ctx.idents, classes, c).value
    ensures r.Err? ==> r.error == AddClassSpec(ctx.idents, classes, c).error && classes' == classes
  {
    classes' := classes;
    if ctx.Get(c.name).Some? {
      r := Fail(NameAlreadyDefined(c.name));
      return;
    }
    CollectAppend(c.name, map[], VarMembers(c.vars), MethodMembers(c.methods));
    var fields := CollectVars(c.name, c.vars, map[]);
    if fields.Err? {
      r := Err(fields.error);
      return;
    }
    fields := CollectMethods(c.name, c.methods, fields.value);
    if fields.Err? {
      r := Err(fields.error);
      return;
    }
    classes' := classes[c.name := ClassInfo(c.superclass, fields.value)];
    r := Ok(());
  }

  // ---------------------------------------------------------------------
  // Programs

  /** The classes of a program, in order. */
  function ClassesOf(defs: seq<Def>): (r: seq<Class>)
    ensures forall c :: c in r <==> DClass(c) in defs
    decreases |defs|
  {
    if |defs| == 0 then []
    else
      var init := defs[..|defs| - 1];
      assert forall d :: d in defs <==> d in init || d == defs[|defs| - 1];
      ClassesOf(init) + (match defs[|defs| - 1] case DClass(c) => [c] case DFunc(_) => [])
  }

  /** The functions of a program, in order. */
  function FuncsOf(defs: seq<Def>): (r: seq<Func>)
    ensures forall f :: f in r <==> DFunc(f) in defs
    decreases |defs|
  {
    if |defs| == 0 then []
    else
      var init := defs[..|defs| - 1];
      assert forall d :: d in defs <==> d in init || d == defs[|defs| - 1];
      FuncsOf(init) + (match defs[|defs| - 1] case DFunc(f) => [f] case DClass(_) => [])
  }

  /** `divide_definitions`: the classes and the functions, each in program order. */
  method DivideDefinitions(defs: seq<Def>) returns (cs: seq<Class>, fs: seq<Func>)
    ensures cs == ClassesOf(defs) && fs == FuncsOf(defs)
  {
    cs, fs := [], [];
    var i := 0;
    while i < |defs|
      invariant 0 <= i <= |defs|
      invariant cs == ClassesOf(defs[..i]) && fs == FuncsOf(defs[..i])
    {
      assert defs[..i + 1][..i] == defs[..i];
      match defs[i] {
        case DClass(c) => cs := cs + [c];
        case DFunc(f) => fs := fs + [f];
      }
      i := i + 1;
    }
    assert defs[..i] == defs;
  }

  /** Binding names one after another in the current scope, stopping at the first error. */
  function BindAll(idents: map<Ident, Binding>, classes: Classes, xs: seq<(Ident, Type)>): Checked
    decreases |xs|
  {
    if |xs| == 0 then Checked(Ok(()), idents)
    else
      var c := AddIdentSpec(idents, classes, xs[0].0, xs[0].1);
      if c.r.Err? then c else BindAll(c.idents, classes, xs[1..])
  }

  /**
   * After a run of bindings succeeds every name has its type and is local,
   * what was local already is untouched, and no other name appeared.
   */
  lemma {:induction false} BindAllSpec(idents: map<Ident, Binding>, classes: Classes, xs: seq<(Ident, Type)>)
    ensures BindAll(idents, classes, xs).r.Ok? ==>
      var after := BindAll(idents, classes, xs).idents;
      (forall i :: 0 <= i < |xs| ==> xs[i].0 in after && after[xs[i].0] == Binding(xs[i].1, true))
      && (forall x :: LocalIn(idents, x) ==> x in after && after[x] == idents[x])
      && (forall x :: x in after ==> x in idents || exists i :: 0 <= i < |xs| && xs[i].0 == x)
    decreases |xs|
  {
    if |xs| > 0 {
      var c := AddIdentSpec(idents, classes, xs[0].0, xs[0].1);
      if c.r.Ok? {
        var rest := xs[1..];
        BindAllSpec(c.idents, classes, rest);
        assert forall i :: 1 <= i < |xs| ==> xs[i] == rest[i - 1];
        if BindAll(idents, classes, xs).r.Ok? {
          var after := BindAll(idents, classes, xs).idents;
          assert LocalIn(c.idents, xs[0].0);
          forall x | x in after ensures x in idents || exists i :: 0 <= i < |xs| && xs[i].0 == x {
            if x !in idents && x != xs[0].0 {
              var i :| 0 <= i < |rest| && rest[i].0 == x;
              assert xs[i + 1].0 == x;
            }
          }
        }
      }
    }
  }

  /** The builtin functions as bindings. */
  function BuiltinBindings(bs: seq<BuiltinFunc>): (r: seq<(Ident, Type)>)
    ensures |r| == |bs| && forall i :: 0 <= i < |bs| ==> r[i] == (bs[i].ident, BuiltinType(bs[i]))
  {
    seq(|bs|, i requires 0 <= i < |bs| => (bs[i].ident, BuiltinType(bs[i])))
  }

  /** The first loop of `Program::check_types`: every builtin is added to the scope. */
  method AddBuiltins(ctx: TypeContext, classes: Classes) returns (r: Result<(), TypeError>)
    modifies ctx
    ensures Checked(r, ctx.idents) == BindAll(old(ctx.idents), classes, BuiltinBindings(Builtins()))
  {
    var bs := Builtins();
    var xs := BuiltinBindings(bs);
    var i := 0;
    while i < |bs|
      invariant 0 <= i <= |bs|
      invariant BindAll(old(ctx.idents), classes, xs) == BindAll(ctx.idents, classes, xs[i..])
    {
      assert xs[i..][0] == xs[i] && xs[i..][1..] == xs[i + 1..];
      r := AddIdent(bs[i].ident, BuiltinType(bs[i]), ctx, classes);
      if r.Err? {
        return;
      }
      i := i + 1;
    }
    r := Ok(());
  }

  /** The names of a list of classes. */
  function ClassNames(cs: seq<Class>): set<Ident>
  {
    set c | c in cs :: c.name
  }

  /** The entry `add_class` makes for one class: its superclass and member table, or the error. */
  function ClassEntry(idents: map<Ident, Binding>, c: Class): Result<ClassInfo, TypeError>
  {
    if TypeOf(idents, c.name).Some? then Fail(NameAlreadyDefined(c.name))
    else
      var fields :- CollectMembers(c.name, map[], Members(c));
      Ok(ClassInfo(c.superclass, fields))
  }

  /** The class table after adding the classes in order; a later class of the same name replaces an earlier one. */
  function ClassTable(idents: map<Ident, Binding>, cs: seq<Class>): Classes
    decreases |cs|
  {
    if |cs| == 0 then map[]
    else
      var table := ClassTable(idents, cs[..|cs| - 1]);
      var e := ClassEntry(idents, cs[|cs| - 1]);
      if e.Ok? then table[cs[|cs| - 1].name := e.value] else table
  }

  /** No later class in the list has the same name as the `j`-th. */
  predicate LastOfName(cs: seq<Class>, j: int)
    requires 0 <= j < |cs|
  {
    forall k :: j < k < |cs| ==> cs[k].name != cs[j].name
  }

  /** Each class that is the last of its name is in the table with its superclass and member table. */
  predicate ClassEntriesOk(classes: Classes, cs: seq<Class>)
  {
    forall j :: 0 <= j < |cs| && LastOfName(cs, j) ==>
      CollectMembers(cs[j].name, map[], Members(cs[j])).Ok? && cs[j].name in classes &&
      classes[cs[j].name] == ClassInfo(cs[j].superclass, CollectMembers(cs[j].name, map[], Members(cs[j])).value)
  }

  /** When every class has an entry, the table built in order has exactly the classes' names as keys. */
  lemma {:induction false} ClassTableKeys(idents: map<Ident, Binding>, cs: seq<Class>)
    requires forall k :: 0 <= k < |cs| ==> ClassEntry(idents, cs[k]).Ok?
    ensures ClassTable(idents, cs).Keys == ClassNames(cs)
    decreases |cs|
  {
    if |cs| > 0 {
      var n := |cs| - 1;
      var init := cs[..n];
      assert forall k :: 0 <= k < |init| ==> init[k] == cs[k];
      ClassTableKeys(idents, init);
      assert ClassEntry(idents, cs[n]).Ok?;
      assert ClassTable(idents, cs) == ClassTable(idents, init)[cs[n].name := ClassEntry(idents, cs[n]).value];
      assert forall c :: c in cs <==> c in init || c == cs[n];
      assert ClassNames(cs) == ClassNames(init) + {cs[n].name};
    }
  }

  /** ... and each name maps to the entry of the last class of that name. */
  lemma {:induction false} ClassTableEntries(idents: map<Ident, Binding>, cs: seq<Class>, j: int)
    requires forall k :: 0 <= k < |cs| ==> ClassEntry(idents, cs[k]).Ok?
    requires 0 <= j < |cs| && LastOfName(cs, j)
    ensures cs[j].name in ClassTable(idents, cs)
    ensures ClassTable(idents, cs)[cs[j].name] == ClassEntry(idents, cs[j]).value
    decreases |cs|
  {
    var n := |cs| - 1;
    var init := cs[..n];
    assert ClassEntry(idents, cs[n]).Ok?;
    assert ClassTable(idents, cs) == ClassTable(idents, init)[cs[n].name := ClassEntry(idents, cs[n]).value];
    if j < n {
      assert cs[n].name != cs[j].name;
      assert forall k :: 0 <= k < |init| ==> init[k] == cs[k];
      assert LastOfName(init, j);
      ClassTableEntries(idents, init, j);
    }
  }

  /**
   * The second loop of `Program::check_types`: every class and its member
   * table go into the class table, stopping at the first class that fails.
   */
  method AddClasses(cs: seq<Class>, ctx: TypeContext) returns (r: Result<(), TypeError>, classes: Classes)
    ensures r.Ok? <==> forall k :: 0 <= k < |cs| ==> ClassEntry(ctx.idents, cs[k]).Ok?
    ensures r.Ok? ==> classes == ClassTable(ctx.idents, cs)
    ensures r.Ok? ==> classes.Keys == ClassNames(cs) && ClassEntriesOk(classes, cs)
    ensures r.Ok? ==> forall c :: c in cs ==> TypeOf(ctx.idents, c.name).None? && CollectMembers(c.name, map[], Members(c)).Ok?
    ensures r.Err? ==> exists j :: 0 <= j < |cs| && ClassEntry(ctx.idents, cs[j]) == Err(r.error) &&
                                   forall k :: 0 <= k < j ==> ClassEntry(ctx.idents, cs[k]).Ok?
  {
    classes := map[];
    var i := 0;
    while i < |cs|
      invariant 0 <= i <= |cs|
      invariant forall k :: 0 <= k < i ==> ClassEntry(ctx.idents, cs[k]).Ok?
      invariant classes == ClassTable(ctx.idents, cs[..i])
    {
      assert cs[..i + 1][..i] == cs[..i] && cs[..i + 1][i] == cs[i];
      r, classes := AddClass(cs[i], ctx, classes);
      if r.Err? {
        return;
      }
      i := i + 1;
    }
    assert cs[..i] == cs;
    r := Ok(());
    ClassTableKeys(ctx.idents, cs);
    forall j | 0 <= j < |cs| && LastOfName(cs, j)
      ensures CollectMembers(cs[j].name, map[], Members(cs[j])).Ok? && cs[j].name in classes &&
              classes[cs[j].name] == ClassInfo(cs[j].superclass, CollectMembers(cs[j].name, map[], Members(cs[j])).value)
    {
      ClassTableEntries(ctx.idents, cs, j);
    }
    forall c | c in cs
      ensures TypeOf(ctx.idents, c.name).None? && CollectMembers(c.name, map[], Members(c)).Ok?
    {
      var k :| 0 <= k < |cs| && cs[k] == c;
      assert ClassEntry(ctx.idents, cs[k]).Ok?;
    }
  }

  /** The third loop: the fields and signatures of every class, stopping at the first error. */
  method CheckAllClassFields(cs: seq<Class>, ctx: TypeContext, classes: Classes) returns (r: Result<(), TypeError>)
    ensures r.Ok? <==> forall j :: 0 <= j < |cs| ==> ClassFieldsSpec(ctx.idents, classes, cs[j]).Ok?
    ensures r.Err? ==> exists j :: 0 <= j < |cs| && r == ClassFieldsSpec(ctx.idents, classes, cs[j]) &&
                                   forall k :: 0 <= k < j ==> ClassFieldsSpec(ctx.idents, classes, cs[k]).Ok?
  {
    var i := 0;
    while i < |cs|
      invariant 0 <= i <= |cs|
      invariant forall k :: 0 <= k < i ==> ClassFieldsSpec(ctx.idents, classes, cs[k]).Ok?
    {
      r := CheckClassFields(cs[i], ctx, classes);
      if r.Err? {
        return;
      }
      i := i + 1;
    }
    r := Ok(());
  }

  /** One step of the fourth loop: the function's signature is checked and its name bound to its type. */
  function FuncDeclSpec(idents: map<Ident, Binding>, classes: Classes, f: Func): Checked
  {
    var sig := SignatureSpec(idents, classes, f);
    if sig.Err? then Checked(sig, idents) else AddIdentSpec(idents, classes, f.ident, FuncType(f))
  }

  /** The fourth loop of `Program::check_types`, over all functions. */
  function FuncDeclsSpec(idents: map<Ident, Binding>, classes: Classes, fs: seq<Func>): Checked
    decreases |fs|
  {
    if |fs| == 0 then Checked(Ok(()), idents)
    else
      var c := FuncDeclSpec(idents, classes, fs[0]);
      if c.r.Err? then c else FuncDeclsSpec(c.idents, classes, fs[1..])
  }

  /** When every signature passes, declaring the functions binds each one's name to its type. */
  lemma {:induction false} FuncDeclsBind(idents: map<Ident, Binding>, classes: Classes, fs: seq<Func>)
    ensures FuncDeclsSpec(idents, classes, fs).r.Ok? ==>
      FuncDeclsSpec(idents, classes, fs) == BindAll(idents, classes, MethodMembers(fs))
    ensures FuncDeclsSpec(idents, classes, fs).r.Ok? ==> forall i :: 0 <= i < |fs| ==> ValidType(classes, fs[i].retType)
    decreases |fs|
  {
    if |fs| > 0 {
      var ms := MethodMembers(fs);
      assert ms[1..] == MethodMembers(fs[1..]);
      SignatureRule(idents, classes, fs[0]);
      var c := FuncDeclSpec(idents, classes, fs[0]);
      FuncDeclsBind(c.idents, classes, fs[1..]);
      assert forall i :: 1 <= i < |fs| ==> fs[i] == fs[1..][i - 1];
    }
  }

  method DeclareFunction(f: Func, ctx: TypeContext, classes: Classes) returns (r: Result<(), TypeError>)
    modifies ctx
    ensures Checked(r, ctx.idents) == FuncDeclSpec(old(ctx.idents), classes, f)
  {
    r := CheckSignature(f, ctx, classes);
    if r.Ok? {
      r := AddIdent(f.ident, FuncType(f), ctx, classes);
    }
  }

  method DeclareFunctions(fs: seq<Func>, ctx: TypeContext, classes: Classes) returns (r: Result<(), TypeError>)
    modifies ctx
    ensures Checked(r, ctx.idents) == FuncDeclsSpec(old(ctx.idents), classes, fs)
  {
    var i := 0;
    while i < |fs|
      invariant 0 <= i <= |fs|
      invariant FuncDeclsSpec(old(ctx.idents), classes, fs) == FuncDeclsSpec(ctx.idents, classes, fs[i..])
    {
      FuncDeclsStep(ctx.idents, classes, fs, i);
      r := DeclareFunction(fs[i], ctx, classes);
      if r.Err? {
        return;
      }
      i := i + 1;
    }
    r := Ok(());
  }

  lemma FuncDeclsStep(idents: map<Ident, Binding>, classes: Classes, fs: seq<Func>, i: nat)
    requires i < |fs|
    ensures FuncDeclsSpec(idents, classes, fs[i..]) ==
      (var c := FuncDeclSpec(idents, classes, fs[i]);
       if c.r.Err? then c else FuncDeclsSpec(c.idents, classes, fs[i + 1..]))
  {
    assert fs[i..][0] == fs[i] && fs[i..][1..] == fs[i + 1..];
  }

  /** `Def::check_types`: a class body or a function body, with no place of its own. */
  function DefSpec(idents: map<Ident, Binding>, classes: Classes, d: Def): Result<(), TypeError>
    requires DefInRevision(d)
  {
    match d
    case DClass(c) => ClassSpec(idents, classes, c)
    case DFunc(f) => FuncSpec(idents, classes, f)
  }

  method CheckDef(d: Def, ctx: TypeContext, classes: Classes) returns (r: Result<(), TypeError>)
    requires DefInRevision(d)
    ensures r == DefSpec(ctx.idents, classes, d)
  {
    match d
    case DClass(c) => r := CheckClass(c, ctx, classes);
    case DFunc(f) => r := CheckFunc(f, ctx, classes);
  }

  /** The fifth loop: every definition in program order, stopping at the first error. */
  method CheckDefs(defs: seq<Def>, ctx: TypeContext, classes: Classes) returns (r: Result<(), TypeError>)
    requires forall i :: 0 <= i < |defs| ==> DefInRevision(defs[i])
    ensures r.Ok? <==> forall j :: 0 <= j < |defs| ==> DefSpec(ctx.idents, classes, defs[j]).Ok?
    ensures r.Err? ==> exists j :: 0 <= j < |defs| && r == DefSpec(ctx.idents, classes, defs[j]) &&
                                   forall k :: 0 <= k < j ==> DefSpec(ctx.idents, classes, defs[k]).Ok?
  {
    var i := 0;
    while i < |defs|
      invariant 0 <= i <= |defs|
      invariant forall k :: 0 <= k < i ==> DefSpec(ctx.idents, classes, defs[k]).Ok?
    {
      r := CheckDef(defs[i], ctx, classes);
      if r.Err? {
        return;
      }
      i := i + 1;
    }
    r := Ok(());
  }

  /** `check_main_function`: `main` must be bound, to a function of no arguments returning int. */
  method CheckMain(ctx: TypeContext) returns (r: Result<(), TypeError>)
    ensures r.Ok? <==> ctx.Get("main") == Some(TFunc([], TInt))
    ensures r.Err? ==> r.error == TypeError(if ctx.Get("main").None? then NoMain else InvalidMainType, [])
  {
    var t := ctx.Get("main");
    if t.None? {
      r := Fail(NoMain);
    } else if t.value != TFunc([], TInt) {
      r := Fail(InvalidMainType);
    } else {
      r := Ok(());
    }
  }

  /** The override rules of `check_fields`, stated on the final class table. */
  predicate OverridesRespected(classes: Classes, c: Class)
  {
    c.superclass.Some? ==>
      (forall i :: 0 <= i < |c.vars| ==> FieldType(classes, c.superclass.value, c.vars[i].ident, |classes|).None?)
      && (forall i :: 0 <= i < |c.methods| ==>
            FieldType(classes, c.superclass.value, c.methods[i].ident, |classes|) in {None, Some(FuncType(c.methods[i]))})
  }

  /** Every class is in the table, with distinct member names and respected overrides. */
  predicate ClassTableOk(classes: Classes, cs: seq<Class>)
  {
    classes.Keys == ClassNames(cs)
    && forall c :: c in cs ==> CollectMembers(c.name, map[], Members(c)).Ok? && OverridesRespected(classes, c)
  }

  /** The builtins and the functions are bound to their types, and no other name was added to `start`. */
  predicate ScopeOk(start: map<Ident, Binding>, final: map<Ident, Binding>, fs: seq<Func>)
  {
    (forall b :: b in Builtins() ==> TypeOf(final, b.ident) == Some(BuiltinType(b)))
    && (forall f :: f in fs ==> TypeOf(final, f.ident) == Some(FuncType(f)))
    && (forall x :: x in final ==>
          x in start || (exists b :: b in Builtins() && b.ident == x) || (exists f :: f in fs && f.ident == x))
  }

  /** Every definition passes in the final scope. */
  predicate DefsOk(idents: map<Ident, Binding>, classes: Classes, defs: seq<Def>)
  {
    forall i :: 0 <= i < |defs| ==> DefInRevision(defs[i]) && DefSpec(idents, classes, defs[i]).Ok?
  }

  lemma ClassTableFacts(idents: map<Ident, Binding>, classes: Classes, cs: seq<Class>)
    requires classes.Keys == ClassNames(cs)
    requires forall c :: c in cs ==> CollectMembers(c.name, map[], Members(c)).Ok?
    requires forall j :: 0 <= j < |cs| ==> ClassFieldsSpec(idents, classes, cs[j]).Ok?
    ensures ClassTableOk(classes, cs)
  {
    forall c | c in cs ensures OverridesRespected(classes, c) {
      var j :| 0 <= j < |cs| && cs[j] == c;
      if c.superclass.Some? {
        OverrideRules(idents, classes, c);
      }
    }
  }

  /**
   * `Program::check_types`. A program that passes has every builtin and
   * every function bound to its type when the bodies are checked (so
   * functions may call each other in any order), every class in the class
   * table with distinct member names and respected overrides, every
   * definition checked against that final scope, and a `main` of type
   * `() -> int`; the scope gained no names but the builtins and functions.
   */
  method CheckProgram(p: Program, ctx: TypeContext) returns (r: Result<(), TypeError>, classes: Classes)
    requires forall i :: 0 <= i < |p.defs| ==> DefInRevision(p.defs[i])
    modifies ctx
    ensures r.Ok? ==> ScopeOk(old(ctx.idents), ctx.idents, FuncsOf(p.defs))
    ensures r.Ok? ==> ClassTableOk(classes, ClassesOf(p.defs))
    ensures r.Ok? ==> ClassEntriesOk(classes, ClassesOf(p.defs))
    ensures r.Ok? ==> DefsOk(ctx.idents, classes, p.defs)
    ensures r.Ok? ==> ctx.Get("main") == Some(TFunc([], TInt))
  {
    classes := map[];
    r := AddBuiltins(ctx, classes);
    if r.Err? {
      return;
    }
    ghost var withBuiltins := ctx.idents;
    var cs, fs := DivideDefinitions(p.defs);
    r, classes := AddClasses(cs, ctx);
    if r.Err? {
      return;
    }
    r := CheckAllClassFields(cs, ctx, classes);
    if r.Err? {
      return;
    }
    ClassTableFacts(ctx.idents, classes, cs);
    r := DeclareFunctions(fs, ctx, classes);
    if r.Err? {
      return;
    }
    r := CheckDefs(p.defs, ctx, classes);
    if r.Err? {
      return;
    }
    r := CheckMain(ctx);
    if r.Err? {
      return;
    }
    ProgramScope(old(ctx.idents), withBuiltins, ctx.idents, classes, fs);
  }

  /** The builtins, added first, are local and so survive the functions' declarations. */
  lemma BuiltinsBound(start: map<Ident, Binding>, withBuiltins: map<Ident, Binding>, final: map<Ident, Binding>,
                      classes: Classes, fs: seq<Func>)
    requires BindAll(start, map[], BuiltinBindings(Builtins())).r.Ok?
    requires BindAll(start, map[], BuiltinBindings(Builtins())).idents == withBuiltins
    requires FuncDeclsSpec(withBuiltins, classes, fs).r.Ok? && FuncDeclsSpec(withBuiltins, classes, fs).idents == final
    ensures forall b :: b in Builtins() ==> TypeOf(final, b.ident) == Some(BuiltinType(b))
  {
    var bs := BuiltinBindings(Builtins());
    BindAllSpec(start, map[], bs);
    FuncDeclsBind(withBuiltins, classes, fs);
    BindAllSpec(withBuiltins, classes, MethodMembers(fs));
    forall b | b in Builtins() ensures TypeOf(final, b.ident) == Some(BuiltinType(b)) {
      var i :| 0 <= i < |Builtins()| && Builtins()[i] == b;
      assert bs[i].0 == b.ident && LocalIn(withBuiltins, b.ident);
    }
  }

  /** Every function declared is bound to its type. */
  lemma FunctionsBound(withBuiltins: map<Ident, Binding>, final: map<Ident, Binding>, classes: Classes, fs: seq<Func>)
    requires FuncDeclsSpec(withBuiltins, classes, fs).r.Ok? && FuncDeclsSpec(withBuiltins, classes, fs).idents == final
    ensures forall f :: f in fs ==> TypeOf(final, f.ident) == Some(FuncType(f))
  {
    var ms := MethodMembers(fs);
    FuncDeclsBind(withBuiltins, classes, fs);
    BindAllSpec(withBuiltins, classes, ms);
    forall f | f in fs ensures TypeOf(final, f.ident) == Some(FuncType(f)) {
      var i :| 0 <= i < |fs| && fs[i] == f;
      assert ms[i] == (f.ident, FuncType(f));
    }
  }

  /** No name but a builtin's or a function's was added. */
  lemma NoOtherNames(start: map<Ident, Binding>, withBuiltins: map<Ident, Binding>, final: map<Ident, Binding>,
                     classes: Classes, fs: seq<Func>)
    requires BindAll(start, map[], BuiltinBindings(Builtins())).r.Ok?
    requires BindAll(start, map[], BuiltinBindings(Builtins())).idents == withBuiltins
    requires FuncDeclsSpec(withBuiltins, classes, fs).r.Ok? && FuncDeclsSpec(withBuiltins, classes, fs).idents == final
    ensures forall x :: x in final ==>
      x in start || (exists b :: b in Builtins() && b.ident == x) || (exists f :: f in fs && f.ident == x)
  {
    var bs := BuiltinBindings(Builtins());
    var ms := MethodMembers(fs);
    BindAllSpec(start, map[], bs);
    FuncDeclsBind(withBuiltins, classes, fs);
    BindAllSpec(withBuiltins, classes, ms);
    forall x | x in final
      ensures x in start || (exists b :: b in Builtins() && b.ident == x) || (exists f :: f in fs && f.ident == x)
    {
      if x !in withBuiltins {
        var i :| 0 <= i < |ms| && ms[i].0 == x;
        assert fs[i] in fs;
      } else if x !in start {
        var i :| 0 <= i < |bs| && bs[i].0 == x;
        assert Builtins()[i] in Builtins();
      }
    }
  }

  /** How the scope of a program that passes was built: builtins first, then the functions. */
  lemma ProgramScope(start: map<Ident, Binding>, withBuiltins: map<Ident, Binding>, final: map<Ident, Binding>,
                     classes: Classes, fs: seq<Func>)
    requires BindAll(start, map[], BuiltinBindings(Builtins())).r.Ok?
    requires BindAll(start, map[], BuiltinBindings(Builtins())).idents == withBuiltins
    requires FuncDeclsSpec(withBuiltins, classes, fs).r.Ok? && FuncDeclsSpec(withBuiltins, classes, fs).idents == final
    ensures ScopeOk(start, final, fs)
  {
    BuiltinsBound(start, withBuiltins, final, classes, fs);
    FunctionsBound(withBuiltins, final, classes, fs);
    NoOtherNames(start, withBuiltins, final, classes, fs);
  }

  /** `main` is not the name of a builtin. */
  lemma MainNotBuiltin()
    ensures forall b :: b in Builtins() ==> b.ident != "main"
  {
    BuiltinsTable();
    forall b | b in Builtins() ensures b.ident != "main" {
      var i :| 0 <= i < |Builtins()| && Builtins()[i] == b;
      assert BuiltinNames(Builtins())[i] == b.ident;
    }
  }

  /** In a scope built from nothing, a `main` of type `() -> int` is a function of the program. */
  lemma MainIsAFunction(final: map<Ident, Binding>, fs: seq<Func>)
    requires ScopeOk(map[], final, fs)
    requires TypeOf(final, "main") == Some(TFunc([], TInt))
    ensures exists f :: f in fs && f.ident == "main" && f.args == [] && f.retType == TInt
  {
    MainNotBuiltin();
    var f :| f in fs && f.ident == "main";
    assert FuncType(f) == TFunc([], TInt);
  }

  /**
   * `run`: a program checked in a new scope of an empty context. A
   * program that passes has a function `main` with no parameters that
   * returns int.
   */
  method Run(p: Program) returns (r: Result<(), TypeError>)
    requires forall i :: 0 <= i < |p.defs| ==> DefInRevision(p.defs[i])
    ensures r.Ok? ==> exists f :: f in FuncsOf(p.defs) && f.ident == "main" && f.args == [] && f.retType == TInt
  {
    var ctx := new TypeContext();
    var scope := ctx.NewScope();
    var classes;
    r, classes := CheckProgram(p, scope);
    if r.Ok? {
      MainIsAFunction(scope.idents, FuncsOf(p.defs));
    }
  }
}
