/**
 * The Latte optimiser: constant folding and boolean simplification of
 * expressions, and removal of dead code from statement lists.
 *
 * A panic of the Rust code is `None`: folding an `i32` operation whose
 * result does not fit (overflow checks on, as in a debug build, and
 * always for `i32::MIN / -1` and `i32::MIN % -1`), and the
 * `unreachable!()` arms reached only by ill-typed operands.
 */
module Optimizer {
  import opened Wrappers
  import opened LatteAst
  import opened ReturnCheck
  import opened StringLits

  // ---------------------------------------------------------------------
  // i32 arithmetic as Rust performs it

  /** The value when it fits in an `i32`; otherwise the overflow panic. */
  function CheckedI32(x: int): (r: Option<i32>)
    ensures r.Some? <==> InI32(x)
    ensures r.Some? ==> r.value as int == x
  {
    if InI32(x) then Some(x as i32) else None
  }

  function Abs(x: int): nat
  {
    if x < 0 then -x else x
  }

  /** Rust's `/`: the quotient rounded toward zero. */
  function TruncDiv(a: int, b: int): int
    requires b != 0
  {
    var q := Abs(a) / Abs(b);
    if (a < 0) == (b < 0) then q else -q
  }

  /** Rust's `%`: the remainder has the sign of the dividend. */
  function TruncRem(a: int, b: int): int
    requires b != 0
  {
    var m := Abs(a) % Abs(b);
    if a < 0 then -m else m
  }

  /** Quotient and remainder recompose the dividend, and the remainder is smaller than the divisor. */
  lemma TruncDivRem(a: int, b: int)
    requires b != 0
    ensures b * TruncDiv(a, b) + TruncRem(a, b) == a
    ensures Abs(TruncRem(a, b)) < Abs(b)
    ensures TruncRem(a, b) == 0 || (TruncRem(a, b) < 0 <==> a < 0)
  {
    var q := Abs(a) / Abs(b);
    var m := Abs(a) % Abs(b);
    assert Abs(b) * q + m == Abs(a);
    if a < 0 && b < 0 {
      assert b * q == -(Abs(b) * q);
    } else if a < 0 {
      assert b * -q == -(Abs(b) * q);
    } else if b < 0 {
      assert b * -q == Abs(b) * q;
    }
  }

  /** `to_lit`. */
  function BoolLit(b: bool): (r: Lit)
    ensures r == LTrue || r == LFalse
    ensures r == LTrue <==> b
  {
    if b then LTrue else LFalse
  }

  /**
   * The operator applied to two folded `i32` literals; None is the
   * overflow panic, or the `unreachable!()` of `&&` and `||`.
   */
  function IntOp(op: Operator, x: i32, y: i32): Option<Lit>
    requires (op == OpDiv || op == OpMod) ==> y != 0
  {
    match op
    case OpAdd => var n :- CheckedI32(x as int + y as int); Some(LInt(n))
    case OpSub => var n :- CheckedI32(x as int - y as int); Some(LInt(n))
    case OpMul => var n :- CheckedI32(x as int * y as int); Some(LInt(n))
    case OpDiv => var n :- CheckedI32(TruncDiv(x as int, y as int)); Some(LInt(n))
    case OpMod =>
      if x == -0x8000_0000 && y == -1 then None
      else var n :- CheckedI32(TruncRem(x as int, y as int)); Some(LInt(n))
    case OpLess => Some(BoolLit(x < y))
    case OpLessE => Some(BoolLit(x <= y))
    case OpGreater => Some(BoolLit(x > y))
    case OpGreaterE => Some(BoolLit(x >= y))
    case OpEq => Some(BoolLit(x == y))
    case OpNEq => Some(BoolLit(x != y))
    case _ => None
  }

  /** Two folded boolean literals; the other operators are `unreachable!()`. */
  function BoolOp(op: Operator, x: bool, y: bool): Option<bool>
  {
    match op
    case OpEq => Some(x == y)
    case OpNEq => Some(x != y)
    case OpAnd => Some(x && y)
    case OpOr => Some(x || y)
    case _ => None
  }

  predicate IsIntLit(e: Expr)
  {
    e.ELit? && e.lit.LInt?
  }

  predicate IsBoolLit(e: Expr)
  {
    e == ELit(LTrue) || e == ELit(LFalse)
  }

  predicate IsStrLit(e: Expr)
  {
    e.ELit? && e.lit.LString?
  }

  /** `to_bool`, only ever applied to a boolean literal. */
  function ToBool(e: Expr): (r: bool)
    requires IsBoolLit(e)
    ensures ELit(BoolLit(r)) == e
  {
    e == ELit(LTrue)
  }

  /** `is_safe_op`: an int fold unless it divides by the literal 0. */
  predicate IsSafeOp(op: Operator, rhs: Expr)
  {
    if rhs == ELit(LInt(0)) then op != OpDiv && op != OpMod else true
  }

  /** `is_safe_str_op`: string literals are only compared, never concatenated, at compile time. */
  predicate IsSafeStrOp(op: Operator)
  {
    op == OpEq || op == OpNEq
  }

  // ---------------------------------------------------------------------
  // Expressions

  /** `Expr::optimize`. */
  function OptExpr(e: Expr): Option<Expr>
    decreases e
  {
    match e
    case ENeg(a) =>
      var a' :- OptExpr(a);
      OptNeg(a')
    case ENot(a) =>
      var a' :- OptExpr(a);
      Some(OptNot(a'))
    case EBinOp(l, op, r) =>
      var l' :- OptExpr(l);
      var r' :- OptExpr(r);
      OptBinOp(l', op, r')
    case ECall(g, args) =>
      var args' :- OptExprs(args);
      Some(ECall(g, args'))
    case _ => Some(e)
  }

  /** Call arguments, optimised in order. */
  function OptExprs(es: seq<Expr>): (r: Option<seq<Expr>>)
    ensures r.Some? ==> |r.value| == |es|
    ensures r.Some? <==> forall i :: 0 <= i < |es| ==> OptExpr(es[i]).Some?
    ensures r.Some? ==> forall i :: 0 <= i < |es| ==> OptExpr(es[i]) == Some(r.value[i])
    decreases es
  {
    if |es| == 0 then Some([])
    else
      var e :- OptExpr(es[0]);
      var rest :- OptExprs(es[1..]);
      assert forall i :: 1 <= i < |es| ==> es[1..][i - 1] == es[i];
      Some([e] + rest)
  }

  /** `-` of an optimised operand: an int literal is negated, the panic being overflow at `i32::MIN`. */
  function OptNeg(a: Expr): Option<Expr>
  {
    if IsIntLit(a) then
      var n :- CheckedI32(-(a.lit.n as int));
      Some(ELit(LInt(n)))
    else Some(ENeg(a))
  }

  /** `!` of an optimised operand: a boolean literal is flipped. */
  function OptNot(a: Expr): Expr
  {
    if IsBoolLit(a) then ELit(BoolLit(!ToBool(a))) else ENot(a)
  }

  /** The binary-operator rules, applied to operands that are already optimised. */
  function OptBinOp(l: Expr, op: Operator, r: Expr): Option<Expr>
  {
    if IsIntLit(l) && IsIntLit(r) && IsSafeOp(op, r) then
      var n :- IntOp(op, l.lit.n, r.lit.n);
      Some(ELit(n))
    else if IsBoolLit(l) && IsBoolLit(r) then
      var b :- BoolOp(op, ToBool(l), ToBool(r));
      Some(ELit(BoolLit(b)))
    else if IsBoolLit(l) then
      BoolLeft(ToBool(l), op, r)
    else if IsStrLit(l) && IsStrLit(r) && IsSafeStrOp(op) then
      Some(ELit(BoolLit(if op == OpEq then l.lit.s == r.lit.s else l.lit.s != r.lit.s)))
    else
      Some(EBinOp(l, op, r))
  }

  /** A boolean literal on the left of a non-literal operand. */
  function BoolLeft(b: bool, op: Operator, r: Expr): Option<Expr>
  {
    match op
    case OpEq => Some(if b then r else ENot(r))
    case OpNEq => Some(if b then ENot(r) else r)
    case OpAnd => Some(if b then r else ELit(LFalse))
    case OpOr => Some(if b then ELit(LTrue) else r)
    case _ => None
  }

  // ---------------------------------------------------------------------
  // What an expression means

  datatype Value = VInt(n: i32) | VBool(b: bool) | VStr(s: string)

  function LitValue(l: Lit): Option<Value>
  {
    match l
    case LInt(n) => Some(VInt(n))
    case LTrue => Some(VBool(true))
    case LFalse => Some(VBool(false))
    case LString(s) => Some(VStr(s))
    case LNull(_) => None
  }

  predicate SameKind(a: Value, c: Value)
  {
    (a.VInt? && c.VInt?) || (a.VBool? && c.VBool?) || (a.VStr? && c.VStr?)
  }

  /**
   * A strict operator on two values: int arithmetic whose exact result
   * fits in 32 bits, division rounding toward zero, `+` on strings as
   * concatenation, and equality on values of one kind, strings compared
   * by content (the generated code instead compares the addresses of
   * string structs freshly allocated for each literal).
   */
  function Apply(op: Operator, a: Value, c: Value): Option<Value>
  {
    match op
    case OpEq => if SameKind(a, c) then Some(VBool(a == c)) else None
    case OpNEq => if SameKind(a, c) then Some(VBool(a != c)) else None
    case OpAdd =>
      if a.VInt? && c.VInt? then var n :- CheckedI32(a.n as int + c.n as int); Some(VInt(n))
      else if a.VStr? && c.VStr? then Some(VStr(a.s + c.s))
      else None
    case OpSub =>
      if a.VInt? && c.VInt? then var n :- CheckedI32(a.n as int - c.n as int); Some(VInt(n)) else None
    case OpMul =>
      if a.VInt? && c.VInt? then var n :- CheckedI32(a.n as int * c.n as int); Some(VInt(n)) else None
    case OpDiv =>
      if a.VInt? && c.VInt? && c.n != 0 then
        var n :- CheckedI32(TruncDiv(a.n as int, c.n as int)); Some(VInt(n))
      else None
    case OpMod =>
      if a.VInt? && c.VInt? && c.n != 0 then
        var n :- CheckedI32(TruncRem(a.n as int, c.n as int)); Some(VInt(n))
      else None
    case OpLess => if a.VInt? && c.VInt? then Some(VBool(a.n < c.n)) else None
    case OpLessE => if a.VInt? && c.VInt? then Some(VBool(a.n <= c.n)) else None
    case OpGreater => if a.VInt? && c.VInt? then Some(VBool(a.n > c.n)) else None
    case OpGreaterE => if a.VInt? && c.VInt? then Some(VBool(a.n >= c.n)) else None
    case _ => None
  }

  /**
   * Reference semantics of the expressions the optimiser rewrites, over
   * an environment of plain variables; `&&` and `||` evaluate their right
   * operand only when the left one does not decide. Calls, field access,
   * `new` and `null` have no value here.
   */
  function Eval(env: map<Ident, Value>, e: Expr): Option<Value>
    decreases e
  {
    match e
    case ELit(l) => LitValue(l)
    case EVar(g) => if g.field.None? && g.ident in env then Some(env[g.ident]) else None
    case ENeg(a) => NegValue(Eval(env, a))
    case ENot(a) => NotValue(Eval(env, a))
    case EBinOp(l, op, r) =>
      var a :- Eval(env, l);
      if op == OpAnd || op == OpOr then
        if !a.VBool? then None
        else if a.b == (op == OpOr) then Some(a)
        else var c :- Eval(env, r); if c.VBool? then Some(c) else None
      else
        var c :- Eval(env, r);
        Apply(op, a, c)
    case _ => None
  }

  /** Integer negation, which fails on a non-int or when the result leaves the 32-bit range. */
  function NegValue(v: Option<Value>): Option<Value>
  {
    var x :- v;
    if x.VInt? then var n :- CheckedI32(-(x.n as int)); Some(VInt(n)) else None
  }

  /** Boolean negation, which fails on a non-boolean. */
  function NotValue(v: Option<Value>): Option<Value>
  {
    var x :- v;
    if x.VBool? then Some(VBool(!x.b)) else None
  }

  /** Folding two int literals gives the value the operation has. */
  lemma IntFoldSound(x: i32, op: Operator, y: i32)
    requires (op == OpDiv || op == OpMod) ==> y != 0
    requires IntOp(op, x, y).Some?
    ensures LitValue(IntOp(op, x, y).value) == Apply(op, VInt(x), VInt(y))
  {
  }

  /** Folding two boolean literals gives the value the operation has. */
  lemma BoolFoldSound(env: map<Ident, Value>, x: bool, op: Operator, y: bool)
    requires BoolOp(op, x, y).Some?
    ensures Some(VBool(BoolOp(op, x, y).value)) == Eval(env, EBinOp(ELit(BoolLit(x)), op, ELit(BoolLit(y))))
  {
  }

  /** The rules for a boolean literal on the left keep every value the operation has. */
  lemma BoolLeftSound(env: map<Ident, Value>, b: bool, op: Operator, r: Expr)
    requires BoolLeft(b, op, r).Some? && Eval(env, EBinOp(ELit(BoolLit(b)), op, r)).Some?
    ensures Eval(env, BoolLeft(b, op, r).value) == Eval(env, EBinOp(ELit(BoolLit(b)), op, r))
  {
  }

  /** One binary-operator rewrite keeps every value the operation has. */
  lemma OptBinOpSound(env: map<Ident, Value>, l: Expr, op: Operator, r: Expr)
    requires OptBinOp(l, op, r).Some? && Eval(env, EBinOp(l, op, r)).Some?
    ensures Eval(env, OptBinOp(l, op, r).value) == Eval(env, EBinOp(l, op, r))
  {
    if IsIntLit(l) && IsIntLit(r) && IsSafeOp(op, r) {
      IntFoldSound(l.lit.n, op, r.lit.n);
    } else if IsBoolLit(l) && IsBoolLit(r) {
      BoolFoldSound(env, ToBool(l), op, ToBool(r));
    } else if IsBoolLit(l) {
      BoolLeftSound(env, ToBool(l), op, r);
    }
  }

  /** Operands with the same values give the operation the same value; the right one matters only when evaluated. */
  lemma EvalCongruence(env: map<Ident, Value>, l: Expr, op: Operator, r: Expr, l': Expr, r': Expr)
    requires Eval(env, l') == Eval(env, l)
    requires Eval(env, r).Some? ==> Eval(env, r') == Eval(env, r)
    requires Eval(env, EBinOp(l, op, r)).Some?
    ensures Eval(env, EBinOp(l', op, r')) == Eval(env, EBinOp(l, op, r))
  {
  }

  /** Folding a negation keeps its value. */
  lemma NegSound(env: map<Ident, Value>, a: Expr)
    requires OptNeg(a).Some? && Eval(env, ENeg(a)).Some?
    ensures Eval(env, OptNeg(a).value) == Eval(env, ENeg(a))
  {
  }

  /** Folding a boolean negation keeps its value. */
  lemma NotSound(env: map<Ident, Value>, a: Expr)
    requires Eval(env, ENot(a)).Some?
    ensures Eval(env, OptNot(a)) == Eval(env, ENot(a))
  {
  }

  /**
   * Folding is sound: when the optimiser succeeds on an expression that
   * has a value, the optimised expression has the same value.
   */
  lemma {:induction false} OptimisationSound(env: map<Ident, Value>, e: Expr)
    requires OptExpr(e).Some? && Eval(env, e).Some?
    ensures Eval(env, OptExpr(e).value) == Eval(env, e)
    decreases e
  {
    match e
    case ENeg(a) =>
      OptimisationSound(env, a);
      NegStep(env, a);
    case ENot(a) =>
      OptimisationSound(env, a);
      NotStep(env, a);
    case EBinOp(l, op, r) =>
      OptimisationSound(env, l);
      if Eval(env, r).Some? {
        OptimisationSound(env, r);
      }
      BinOpStep(env, l, op, r);
    case _ =>
  }

  lemma NegStep(env: map<Ident, Value>, a: Expr)
    requires OptExpr(ENeg(a)).Some? && Eval(env, ENeg(a)).Some? && OptExpr(a).Some?
    requires Eval(env, OptExpr(a).value) == Eval(env, a)
    ensures Eval(env, OptExpr(ENeg(a)).value) == Eval(env, ENeg(a))
  {
    var a' := OptExpr(a).value;
    assert OptExpr(ENeg(a)) == OptNeg(a');
    NegCongruence(env, a, a');
    NegSound(env, a');
  }

  lemma NegCongruence(env: map<Ident, Value>, a: Expr, a': Expr)
    requires Eval(env, a') == Eval(env, a)
    ensures Eval(env, ENeg(a')) == Eval(env, ENeg(a))
  {
  }

  lemma NotStep(env: map<Ident, Value>, a: Expr)
    requires OptExpr(ENot(a)).Some? && Eval(env, ENot(a)).Some? && OptExpr(a).Some?
    requires Eval(env, OptExpr(a).value) == Eval(env, a)
    ensures Eval(env, OptExpr(ENot(a)).value) == Eval(env, ENot(a))
  {
    var a' := OptExpr(a).value;
    assert OptExpr(ENot(a)) == Some(OptNot(a'));
    assert Eval(env, ENot(a')) == Eval(env, ENot(a));
    NotSound(env, a');
  }

  lemma BinOpStep(env: map<Ident, Value>, l: Expr, op: Operator, r: Expr)
    requires OptExpr(EBinOp(l, op, r)).Some? && Eval(env, EBinOp(l, op, r)).Some?
    requires OptExpr(l).Some? && OptExpr(r).Some?
    requires Eval(env, OptExpr(l).value) == Eval(env, l)
    requires Eval(env, r).Some? ==> Eval(env, OptExpr(r).value) == Eval(env, r)
    ensures Eval(env, OptExpr(EBinOp(l, op, r)).value) == Eval(env, EBinOp(l, op, r))
  {
    var l', r' := OptExpr(l).value, OptExpr(r).value;
    assert OptExpr(EBinOp(l, op, r)) == OptBinOp(l', op, r');
    EvalCongruence(env, l, op, r, l', r');
    OptBinOpSound(env, l', op, r');
  }

  /** Division and modulo by the literal 0 are left for the program to perform. */
  lemma NoFoldByZero(x: i32, op: Operator)
    requires op == OpDiv || op == OpMod
    ensures OptBinOp(ELit(LInt(x)), op, ELit(LInt(0))) == Some(EBinOp(ELit(LInt(x)), op, ELit(LInt(0))))
  {
  }

  /** A boolean literal on the left absorbs or passes on the right operand. */
  lemma BoolOnTheLeft(r: Expr)
    requires !IsBoolLit(r)
    ensures OptBinOp(ELit(LTrue), OpAnd, r) == Some(r) && OptBinOp(ELit(LFalse), OpAnd, r) == Some(ELit(LFalse))
    ensures OptBinOp(ELit(LTrue), OpOr, r) == Some(ELit(LTrue)) && OptBinOp(ELit(LFalse), OpOr, r) == Some(r)
    ensures OptBinOp(ELit(LTrue), OpEq, r) == Some(r) && OptBinOp(ELit(LFalse), OpEq, r) == Some(ENot(r))
    ensures OptBinOp(ELit(LTrue), OpNEq, r) == Some(ENot(r)) && OptBinOp(ELit(LFalse), OpNEq, r) == Some(r)
  {
  }

  /** Only `==` and `!=` fold two string literals; `+` keeps them for the runtime. */
  lemma StringFolding(s: string, t: string, op: Operator)
    ensures IsSafeStrOp(op) ==> OptBinOp(ELit(LString(s)), op, ELit(LString(t))) == Some(ELit(BoolLit((s == t) == (op == OpEq))))
    ensures !IsSafeStrOp(op) ==> OptBinOp(ELit(LString(s)), op, ELit(LString(t))) == Some(EBinOp(ELit(LString(s)), op, ELit(LString(t))))
  {
  }

  // ---------------------------------------------------------------------
  // Statements

  /** The optimised block around a statement list. */
  function BlockOf(ss: seq<Stmt>): (r: Stmt)
    ensures |ss| == 0 <==> r == SEmpty
    ensures |ss| == 1 && ss[0].SBlock? ==> r == ss[0]
    ensures (|ss| == 1 && !ss[0].SBlock?) || |ss| > 1 ==> r == SBlock(ss)
  {
    if |ss| == 1 then
      match ss[0]
      case SBlock(inner) => SBlock(inner)
      case _ => SBlock(ss)
    else if |ss| == 0 then SEmpty
    else SBlock(ss)
  }

  /** The optimised `{ s }` when `s` optimises to `s'`. */
  function Single(s': Stmt): Stmt
  {
    BlockOf(if s'.SEmpty? then [] else [s'])
  }

  function Prepend<T>(p: seq<T>, o: Option<seq<T>>): (r: Option<seq<T>>)
    ensures r.Some? <==> o.Some?
    ensures r.Some? ==> r.value == p + o.value
  {
    match o
    case None => None
    case Some(x) => Some(p + x)
  }

  lemma PrependFacts<T>(p: seq<T>, q: seq<T>, o: Option<seq<T>>)
    ensures Prepend([], o) == o
    ensures Prepend(p, Some([])) == Some(p)
    ensures Prepend(p, Prepend(q, o)) == Prepend(p + q, o)
  {
    if o.Some? {
      assert [] + o.value == o.value;
      assert p + (q + o.value) == (p + q) + o.value;
    }
    assert p + [] == p;
  }

  /** `VarDecl::optimize`. */
  function OptDecl(d: VarDecl): Option<VarDecl>
  {
    match d
    case Init(t, x, e) => var e' :- OptExpr(e); Some(Init(t, x, e'))
    case NoInit(_, _) => Some(d)
  }

  function OptDecls(ds: seq<VarDecl>): (r: Option<seq<VarDecl>>)
    ensures r.Some? ==> |r.value| == |ds|
    ensures r.Some? ==> forall i :: 0 <= i < |ds| ==> OptDecl(ds[i]) == Some(r.value[i])
    decreases |ds|
  {
    if |ds| == 0 then Some([])
    else
      var d :- OptDecl(ds[0]);
      var rest :- OptDecls(ds[1..]);
      assert forall i :: 1 <= i < |ds| ==> ds[1..][i - 1] == ds[i];
      Some([d] + rest)
  }

  /** `Stmt::optimize`, as a function of the statement. */
  function OptStmt(s: Stmt): Option<Stmt>
    decreases s
  {
    match s
    case SBlock(ss) => var ss' :- OptStmts(ss); Some(BlockOf(ss'))
    case SDecl(t, ds) => var ds' :- OptDecls(ds); Some(SDecl(t, ds'))
    case SAssign(g, e) => var e' :- OptExpr(e); Some(SAssign(g, e'))
    case SReturnE(e) => var e' :- OptExpr(e); Some(SReturnE(e'))
    case SExpr(e) => var e' :- OptExpr(e); Some(SExpr(e'))
    case SIf(e, b) =>
      var c :- OptExpr(e);
      if c == ELit(LTrue) then var b' :- OptStmt(b); Some(Single(b'))
      else if c == ELit(LFalse) then Some(SEmpty)
      else var b' :- OptStmt(b); Some(SIf(c, b'))
    case SIfElse(e, a, b) =>
      var c :- OptExpr(e);
      if c == ELit(LTrue) then var a' :- OptStmt(a); Some(Single(a'))
      else if c == ELit(LFalse) then var b' :- OptStmt(b); Some(Single(b'))
      else
        var a' :- OptStmt(a);
        var b' :- OptStmt(b);
        Some(SIfElse(c, a', b'))
    case SWhile(e, b) =>
      var c :- OptExpr(e);
      if c == ELit(LFalse) then Some(SEmpty)
      else var b' :- OptStmt(b); Some(SWhile(c, b'))
    case SFor(t, x, e, b) =>
      var e' :- OptExpr(e);
      var b' :- OptStmt(b);
      Some(SFor(t, x, e', b'))
    case _ => Some(s)
  }

  /**
   * `Vec<Stmt>::optimize`, as a function of the list: each statement is
   * optimised, an empty one is dropped, and nothing after the first
   * optimised statement that returns is kept (or optimised).
   */
  function OptStmts(ss: seq<Stmt>): (r: Option<seq<Stmt>>)
    ensures r.Some? ==> |r.value| <= |ss|
    ensures r.Some? ==> forall i :: 0 <= i < |r.value| ==> !r.value[i].SEmpty?
    ensures r.Some? ==> forall i :: 0 <= i < |r.value| - 1 ==> !StmtReturns(r.value[i])
    decreases ss
  {
    if |ss| == 0 then Some([])
    else
      var s :- OptStmt(ss[0]);
      var kept := if s.SEmpty? then [] else [s];
      if StmtReturns(s) then Some(kept) else Prepend(kept, OptStmts(ss[1..]))
  }

  /** The branch `SBlock(vec![s]).optimize()` of a decided `if` is `Single` of the optimised `s`. */
  lemma SingleIsBlock(s: Stmt)
    ensures OptStmt(SBlock([s])) == (var s' :- OptStmt(s); Some(Single(s')))
  {
    assert [s][0] == s && [s][1..] == [];
    if OptStmt(s).Some? {
      var s' := OptStmt(s).value;
      var kept := if s'.SEmpty? then [] else [s'];
      PrependFacts(kept, [], None);
      assert OptStmts([s]) == Some(kept);
    }
  }

  /** Reference: every statement of a list optimised, or None if any panics. */
  function OptEach(ss: seq<Stmt>): (r: Option<seq<Stmt>>)
    ensures r.Some? ==> |r.value| == |ss|
    ensures r.Some? ==> forall i :: 0 <= i < |ss| ==> OptStmt(ss[i]) == Some(r.value[i])
    decreases |ss|
  {
    if |ss| == 0 then Some([])
    else
      var s :- OptStmt(ss[0]);
      var rest :- OptEach(ss[1..]);
      assert forall i :: 1 <= i < |ss| ==> ss[1..][i - 1] == ss[i];
      Some([s] + rest)
  }

  /** The list without its empty statements, in order. */
  function DropEmpty(ss: seq<Stmt>): (r: seq<Stmt>)
    ensures |r| <= |ss|
    ensures forall i :: 0 <= i < |r| ==> !r[i].SEmpty? && r[i] in ss
    ensures forall i :: 0 <= i < |ss| && !ss[i].SEmpty? ==> ss[i] in r
    decreases |ss|
  {
    if |ss| == 0 then []
    else
      assert forall i :: 1 <= i < |ss| ==> ss[1..][i - 1] == ss[i];
      (if ss[0].SEmpty? then [] else [ss[0]]) + DropEmpty(ss[1..])
  }

  /**
   * `k` statements are kept before the cut: none of the first `k - 1`
   * returns, and the cut falls short of the end only right after a
   * statement that returns.
   */
  predicate CutAt(os: seq<Stmt>, k: int)
  {
    0 <= k <= |os| &&
    (forall j :: 0 <= j < k - 1 ==> !StmtReturns(os[j])) &&
    (k < |os| ==> k > 0 && StmtReturns(os[k - 1]))
  }

  /** A cut in the tail of a list whose head does not return is a cut one further in the list. */
  lemma CutStep(os: seq<Stmt>, k: int)
    requires |os| > 0 && !StmtReturns(os[0]) && CutAt(os[1..], k)
    ensures CutAt(os, k + 1)
    ensures DropEmpty(os[..k + 1]) == (if os[0].SEmpty? then [] else [os[0]]) + DropEmpty(os[1..][..k])
  {
    assert os[..k + 1][0] == os[0] && os[..k + 1][1..] == os[1..][..k];
    forall j | 0 <= j < k
      ensures !StmtReturns(os[j])
    {
      if j > 0 { assert os[j] == os[1..][j - 1]; }
    }
    if k + 1 < |os| {
      assert os[k] == os[1..][k - 1];
    }
  }

  /**
   * The list optimiser keeps, in order, the non-empty optimised
   * statements up to and including the first that returns.
   */
  lemma {:induction false} OptStmtsShape(ss: seq<Stmt>, os: seq<Stmt>)
    requires OptEach(ss) == Some(os)
    ensures exists k :: CutAt(os, k) && OptStmts(ss) == Some(DropEmpty(os[..k]))
    decreases |ss|
  {
    if |ss| == 0 {
      assert CutAt(os, 0) && OptStmts(ss) == Some(DropEmpty(os[..0]));
    } else {
      var o0 := os[0];
      var kept := if o0.SEmpty? then [] else [o0];
      assert OptStmt(ss[0]) == Some(o0);
      if StmtReturns(o0) {
        assert DropEmpty(os[..1]) == kept by {
          assert os[..1][0] == o0 && os[..1][1..] == [];
        }
        assert CutAt(os, 1);
        assert OptStmts(ss) == Some(DropEmpty(os[..1]));
      } else {
        assert OptEach(ss[1..]) == Some(os[1..]);
        OptStmtsShape(ss[1..], os[1..]);
        var k :| CutAt(os[1..], k) && OptStmts(ss[1..]) == Some(DropEmpty(os[1..][..k]));
        CutStep(os, k);
        assert OptStmts(ss) == Prepend(kept, OptStmts(ss[1..]));
      }
    }
  }

  /** The optimised list returns exactly when some statement up to the cut does. */
  lemma {:induction false} OptStmtsReturn(ss: seq<Stmt>)
    requires OptStmts(ss).Some?
    ensures StmtsReturn(OptStmts(ss).value) <==>
            exists i :: 0 <= i < |ss| && OptStmt(ss[i]).Some? && StmtReturns(OptStmt(ss[i]).value)
    ensures forall i :: 0 <= i < |OptStmts(ss).value| - 1 ==> !StmtReturns(OptStmts(ss).value[i])
    decreases |ss|
  {
    if |ss| > 0 {
      var s := OptStmt(ss[0]).value;
      var kept := if s.SEmpty? then [] else [s];
      if StmtReturns(s) {
        assert StmtsReturn(kept) by {
          assert kept[0] == s;
        }
      } else {
        OptStmtsReturn(ss[1..]);
        var rest := OptStmts(ss[1..]).value;
        var r := kept + rest;
        assert OptStmts(ss).value == r;
        if kept == [] {
          assert r == rest;
        } else {
          assert r[0] == s && r[1..] == rest;
        }
        assert forall i :: 1 <= i < |ss| ==> ss[1..][i - 1] == ss[i];
        if exists i :: 0 <= i < |ss| && OptStmt(ss[i]).Some? && StmtReturns(OptStmt(ss[i]).value) {
          var i :| 0 <= i < |ss| && OptStmt(ss[i]).Some? && StmtReturns(OptStmt(ss[i]).value);
          assert i > 0 && ss[1..][i - 1] == ss[i];
        }
        assert forall i :: 0 <= i < |r| - 1 ==> !StmtReturns(r[i]) by {
          forall i | 0 <= i < |r| - 1 ensures !StmtReturns(r[i]) {
            if kept != [] && i > 0 { assert r[i] == rest[i - 1]; }
            if kept == [] { assert r[i] == rest[i]; }
          }
        }
      }
    }
  }

  /** Optimising a statement that returns on every path gives one that still does. */
  lemma {:induction false} OptStmtKeepsReturn(s: Stmt)
    requires OptStmt(s).Some? && StmtReturns(s)
    ensures StmtReturns(OptStmt(s).value)
    decreases s
  {
    match s
    case SBlock(ss) =>
      OptStmtsKeepReturn(ss);
      var ss' := OptStmts(ss).value;
      if |ss'| == 1 {
        assert StmtsReturn(ss') == StmtReturns(ss'[0]);
      }
    case SIfElse(e, a, b) =>
      var c := OptExpr(e).value;
      if c != ELit(LFalse) {
        OptStmtKeepsReturn(a);
        var a' := OptStmt(a).value;
        assert StmtReturns(Single(a')) by {
          assert StmtsReturn([a']) == StmtReturns(a');
        }
      }
      if c != ELit(LTrue) {
        OptStmtKeepsReturn(b);
        var b' := OptStmt(b).value;
        assert StmtReturns(Single(b')) by {
          assert StmtsReturn([b']) == StmtReturns(b');
        }
      }
    case _ =>
  }

  /** A list with a returning statement still returns after optimisation. */
  lemma {:induction false} OptStmtsKeepReturn(ss: seq<Stmt>)
    requires OptStmts(ss).Some? && StmtsReturn(ss)
    ensures StmtsReturn(OptStmts(ss).value)
    decreases ss
  {
    var s := OptStmt(ss[0]).value;
    var kept := if s.SEmpty? then [] else [s];
    if StmtReturns(ss[0]) {
      OptStmtKeepsReturn(ss[0]);
    }
    if StmtReturns(s) {
      assert kept[0] == s;
    } else {
      OptStmtsKeepReturn(ss[1..]);
      var rest := OptStmts(ss[1..]).value;
      if kept == [] {
        assert kept + rest == rest;
      } else {
        assert (kept + rest)[1..] == rest;
      }
    }
  }

  /** String constants: an optimised expression holds only literals of the original. */
  lemma {:induction false} OptExprStrings(e: Expr)
    requires OptExpr(e).Some?
    ensures ExprStrings(OptExpr(e).value) <= ExprStrings(e)
    decreases e
  {
    match e
    case ENeg(a) => OptExprStrings(a);
    case ENot(a) => OptExprStrings(a);
    case EBinOp(l, op, r) =>
      OptExprStrings(l);
      OptExprStrings(r);
    case ECall(g, args) => OptExprsStrings(args);
    case _ =>
  }

  lemma {:induction false} OptExprsStrings(es: seq<Expr>)
    requires OptExprs(es).Some?
    ensures ExprsStrings(OptExprs(es).value) <= ExprsStrings(es)
    decreases es
  {
    if |es| > 0 {
      OptExprStrings(es[0]);
      OptExprsStrings(es[1..]);
      var r := OptExprs(es).value;
      assert r[0] == OptExpr(es[0]).value && r[1..] == OptExprs(es[1..]).value;
    }
  }

  lemma {:induction false} OptDeclsStrings(ds: seq<VarDecl>)
    requires OptDecls(ds).Some?
    ensures DeclsStrings(OptDecls(ds).value) <= DeclsStrings(ds)
    decreases |ds|
  {
    if |ds| > 0 {
      if ds[0].Init? {
        OptExprStrings(ds[0].init);
      }
      OptDeclsStrings(ds[1..]);
      var r := OptDecls(ds).value;
      assert r[0] == OptDecl(ds[0]).value && r[1..] == OptDecls(ds[1..]).value;
    }
  }

  lemma SingleStrings(s': Stmt)
    ensures StmtStrings(Single(s')) == StmtStrings(s')
  {
    if !s'.SEmpty? {
      assert StmtsStrings([s']) == StmtStrings(s') + StmtsStrings([]);
    }
  }

  lemma {:induction false} OptStmtStrings(s: Stmt)
    requires OptStmt(s).Some?
    ensures StmtStrings(OptStmt(s).value) <= StmtStrings(s)
    decreases s
  {
    match s
    case SBlock(ss) =>
      OptStmtsStrings(ss);
      var ss' := OptStmts(ss).value;
      if |ss'| == 1 {
        assert StmtsStrings(ss') == StmtStrings(ss'[0]) + StmtsStrings([]);
      }
    case SDecl(_, ds) => OptDeclsStrings(ds);
    case SAssign(_, e) => OptExprStrings(e);
    case SReturnE(e) => OptExprStrings(e);
    case SExpr(e) => OptExprStrings(e);
    case SIf(e, b) =>
      OptExprStrings(e);
      if OptStmt(b).Some? {
        OptStmtStrings(b);
        SingleStrings(OptStmt(b).value);
      }
    case SIfElse(e, a, b) =>
      OptExprStrings(e);
      if OptStmt(a).Some? {
        OptStmtStrings(a);
        SingleStrings(OptStmt(a).value);
      }
      if OptStmt(b).Some? {
        OptStmtStrings(b);
        SingleStrings(OptStmt(b).value);
      }
    case SWhile(e, b) =>
      OptExprStrings(e);
      if OptStmt(b).Some? {
        OptStmtStrings(b);
      }
    case SFor(_, _, e, b) =>
      OptExprStrings(e);
      OptStmtStrings(b);
    case _ =>
  }

  lemma {:induction false} OptStmtsStrings(ss: seq<Stmt>)
    requires OptStmts(ss).Some?
    ensures StmtsStrings(OptStmts(ss).value) <= StmtsStrings(ss)
    decreases ss
  {
    if |ss| > 0 {
      var s := OptStmt(ss[0]).value;
      var kept := if s.SEmpty? then [] else [s];
      OptStmtStrings(ss[0]);
      var rest := if StmtReturns(s) then [] else OptStmts(ss[1..]).value;
      if !StmtReturns(s) {
        OptStmtsStrings(ss[1..]);
      }
      assert OptStmts(ss).value == kept + rest;
      if kept == [] {
        assert kept + rest == rest;
      } else {
        assert (kept + rest)[0] == s && (kept + rest)[1..] == rest;
      }
    }
  }

  // ---------------------------------------------------------------------
  // Functions, classes, definitions, programs

  /** `Func::optimize`: only the body changes. */
  function OptFunc(f: Func): (r: Option<Func>)
    ensures r.Some? <==> OptStmts(f.body).Some?
    ensures r.Some? ==> r.value.ident == f.ident && r.value.args == f.args && r.value.retType == f.retType
  {
    var body :- OptStmts(f.body);
    Some(f.(body := body))
  }

  function OptFuncs(fs: seq<Func>): (r: Option<seq<Func>>)
    ensures r.Some? ==> |r.value| == |fs|
    ensures r.Some? ==> forall i :: 0 <= i < |fs| ==> OptFunc(fs[i]) == Some(r.value[i])
    decreases |fs|
  {
    if |fs| == 0 then Some([])
    else
      var f :- OptFunc(fs[0]);
      var rest :- OptFuncs(fs[1..]);
      assert forall i :: 1 <= i < |fs| ==> fs[1..][i - 1] == fs[i];
      Some([f] + rest)
  }

  /** `Class::optimize`: every method optimised, in order; name, superclass and fields kept. */
  function OptClass(c: Class): (r: Option<Class>)
    ensures r.Some? ==> r.value.name == c.name && r.value.superclass == c.superclass && r.value.vars == c.vars
    ensures r.Some? ==> |r.value.methods| == |c.methods|
    ensures r.Some? ==> forall i :: 0 <= i < |c.methods| ==> OptFunc(c.methods[i]) == Some(r.value.methods[i])
  {
    var ms :- OptFuncs(c.methods);
    Some(c.(methods := ms))
  }

  /** `Def::optimize`: a function is optimised, a class is returned as it is. */
  function OptDef(d: Def): (r: Option<Def>)
    ensures r.Some? ==> (r.value.DFunc? <==> d.DFunc?)
    ensures d.DClass? ==> r == Some(d)
  {
    match d
    case DFunc(f) => var g :- OptFunc(f); Some(DFunc(g))
    case DClass(_) => Some(d)
  }

  /** `run`, definition by definition. */
  function OptDefs(ds: seq<Def>): (r: Option<seq<Def>>)
    ensures r.Some? ==> |r.value| == |ds|
    decreases |ds|
  {
    if |ds| == 0 then Some([])
    else
      var d :- OptDef(ds[0]);
      var rest :- OptDefs(ds[1..]);
      Some([d] + rest)
  }

  /**
   * `run` succeeds when every definition can be optimised, keeps their
   * number and order, and optimises each one on its own.
   */
  lemma {:induction false} OptDefsSpec(ds: seq<Def>)
    ensures OptDefs(ds).Some? <==> forall i :: 0 <= i < |ds| ==> OptDef(ds[i]).Some?
    ensures OptDefs(ds).Some? ==> forall i :: 0 <= i < |ds| ==> OptDef(ds[i]) == Some(OptDefs(ds).value[i])
    decreases |ds|
  {
    if |ds| > 0 {
      OptDefsSpec(ds[1..]);
      assert forall i :: 1 <= i < |ds| ==> ds[1..][i - 1] == ds[i];
    }
  }

  /** A program that passed the return check still passes it after optimisation. */
  lemma ReturnCheckPreserved(ds: seq<Def>)
    requires CheckDefs(ds).Ok? && OptDefs(ds).Some?
    ensures CheckDefs(OptDefs(ds).value).Ok?
  {
    var ds' := OptDefs(ds).value;
    OptDefsSpec(ds);
    RunOkIff(ds);
    RunOkIff(ds');
    forall i | 0 <= i < |ds| && ds[i].DFunc?
      ensures FuncReturns(ds'[i].f)
    {
      var f := ds[i].f;
      assert FuncReturns(f);
      if f.retType != TVoid {
        OptStmtsKeepReturn(f.body);
      }
    }
  }

  /** Classes come out of `run` untouched: their method bodies keep dead code and unfolded constants. */
  lemma ClassesUntouched(ds: seq<Def>, i: nat)
    requires OptDefs(ds).Some? && i < |ds| && ds[i].DClass?
    ensures OptDefs(ds).value[i] == ds[i]
  {
    OptDefsSpec(ds);
    assert OptDef(ds[i]) == Some(OptDefs(ds).value[i]);
  }

  /** Optimisation never adds a string constant to the program. */
  lemma {:induction false} NoNewStrings(ds: seq<Def>)
    requires OptDefs(ds).Some?
    ensures DefsStrings(OptDefs(ds).value) <= DefsStrings(ds)
    decreases |ds|
  {
    if |ds| > 0 {
      if ds[0].DFunc? {
        OptStmtsStrings(ds[0].f.body);
      }
      NoNewStrings(ds[1..]);
      var r := OptDefs(ds).value;
      assert r[0] == OptDef(ds[0]).value && r[1..] == OptDefs(ds[1..]).value;
    }
  }

  /** A function that the return check rejects may pass it once a constant condition is folded. */
  lemma FoldingCanMakeAReturn()
    ensures !FuncReturns(Func("f", [], TInt, [SIf(ELit(LTrue), SReturnE(ELit(LInt(1))))]))
    ensures OptFunc(Func("f", [], TInt, [SIf(ELit(LTrue), SReturnE(ELit(LInt(1))))])) ==
            Some(Func("f", [], TInt, [SBlock([SReturnE(ELit(LInt(1)))])]))
    ensures FuncReturns(Func("f", [], TInt, [SBlock([SReturnE(ELit(LInt(1)))])]))
  {
    var s := SIf(ELit(LTrue), SReturnE(ELit(LInt(1))));
    assert OptStmt(s) == Some(SBlock([SReturnE(ELit(LInt(1)))]));
    assert [s][1..] == [];
  }

  // ---------------------------------------------------------------------
  // The passes that hold a loop, and the ones that call them

  /** `Vec<Stmt>::optimize`: pushes each kept statement, and stops after the first that returns. */
  method OptimizeStmts(ss: seq<Stmt>) returns (r: Option<seq<Stmt>>)
    ensures r == OptStmts(ss)
    decreases ss
  {
    var res: seq<Stmt> := [];
    var i := 0;
    assert ss[0..] == ss;
    PrependFacts(res, [], OptStmts(ss));
    while i < |ss|
      invariant 0 <= i <= |ss|
      invariant OptStmts(ss) == Prepend(res, OptStmts(ss[i..]))
    {
      assert ss[i..][0] == ss[i] && ss[i..][1..] == ss[i + 1..];
      var stmt :- OptimizeStmt(ss[i]);
      var hasReturn := StmtReturns(stmt);
      ghost var prev, kept := res, if stmt.SEmpty? then [] else [stmt];
      if !stmt.SEmpty? {
        res := res + [stmt];
      }
      assert res == prev + kept;
      if hasReturn {
        return Some(res);
      }
      PrependFacts(prev, kept, OptStmts(ss[i + 1..]));
      i := i + 1;
    }
    PrependFacts(res, [], None);
    return Some(res);
  }

  /** `Stmt::optimize`. */
  method OptimizeStmt(s: Stmt) returns (r: Option<Stmt>)
    ensures r == OptStmt(s)
    decreases s
  {
    match s {
      case SBlock(ss) =>
        var ss' :- OptimizeStmts(ss);
        r := Some(BlockOf(ss'));
      case SDecl(t, ds) =>
        var ds' :- OptDecls(ds);
        r := Some(SDecl(t, ds'));
      case SAssign(g, e) =>
        var e' :- OptExpr(e);
        r := Some(SAssign(g, e'));
      case SReturnE(e) =>
        var e' :- OptExpr(e);
        r := Some(SReturnE(e'));
      case SExpr(e) =>
        var e' :- OptExpr(e);
        r := Some(SExpr(e'));
      case SIf(e, b) =>
        var c :- OptExpr(e);
        if c == ELit(LTrue) {
          var b' :- OptimizeStmt(b);
          r := Some(Single(b'));
        } else if c == ELit(LFalse) {
          r := Some(SEmpty);
        } else {
          var b' :- OptimizeStmt(b);
          r := Some(SIf(c, b'));
        }
      case SIfElse(e, a, b) =>
        var c :- OptExpr(e);
        if c == ELit(LTrue) {
          var a' :- OptimizeStmt(a);
          r := Some(Single(a'));
        } else if c == ELit(LFalse) {
          var b' :- OptimizeStmt(b);
          r := Some(Single(b'));
        } else {
          var a' :- OptimizeStmt(a);
          var b' :- OptimizeStmt(b);
          r := Some(SIfElse(c, a', b'));
        }
      case SWhile(e, b) =>
        var c :- OptExpr(e);
        if c == ELit(LFalse) {
          r := Some(SEmpty);
        } else {
          var b' :- OptimizeStmt(b);
          r := Some(SWhile(c, b'));
        }
      case SFor(t, x, e, b) =>
        var e' :- OptExpr(e);
        var b' :- OptimizeStmt(b);
        r := Some(SFor(t, x, e', b'));
      case SEmpty => r := Some(s);
      case SInc(_) => r := Some(s);
      case SDec(_) => r := Some(s);
      case SReturn => r := Some(s);
    }
  }

  /** `Func::optimize`. */
  method OptimizeFunc(f: Func) returns (r: Option<Func>)
    ensures r == OptFunc(f)
  {
    var body :- OptimizeStmts(f.body);
    r := Some(f.(body := body));
  }

  /** `Class::optimize`. */
  method OptimizeClass(c: Class) returns (r: Option<Class>)
    ensures r == OptClass(c)
  {
    var ms: seq<Func> := [];
    var i := 0;
    assert c.methods[0..] == c.methods;
    PrependFacts(ms, [], OptFuncs(c.methods));
    while i < |c.methods|
      invariant 0 <= i <= |c.methods|
      invariant OptFuncs(c.methods) == Prepend(ms, OptFuncs(c.methods[i..]))
    {
      assert c.methods[i..][0] == c.methods[i] && c.methods[i..][1..] == c.methods[i + 1..];
      var f :- OptimizeFunc(c.methods[i]);
      PrependFacts(ms, [f], OptFuncs(c.methods[i + 1..]));
      ms := ms + [f];
      i := i + 1;
    }
    PrependFacts(ms, [], None);
    r := Some(c.(methods := ms));
  }

  /** `Def::optimize`. */
  method OptimizeDef(d: Def) returns (r: Option<Def>)
    ensures r == OptDef(d)
  {
    match d {
      case DFunc(f) =>
        var g :- OptimizeFunc(f);
        r := Some(DFunc(g));
      case DClass(_) =>
        r := Some(d);
    }
  }

  /** `optimization::run`. */
  method Run(p: Program) returns (r: Option<Program>)
    ensures r.Some? <==> OptDefs(p.defs).Some?
    ensures r.Some? ==> r.value == Program(OptDefs(p.defs).value)
  {
    var ds: seq<Def> := [];
    var i := 0;
    assert p.defs[0..] == p.defs;
    PrependFacts(ds, [], OptDefs(p.defs));
    while i < |p.defs|
      invariant 0 <= i <= |p.defs|
      invariant OptDefs(p.defs) == Prepend(ds, OptDefs(p.defs[i..]))
    {
      assert p.defs[i..][0] == p.defs[i] && p.defs[i..][1..] == p.defs[i + 1..];
      var d :- OptimizeDef(p.defs[i]);
      PrependFacts(ds, [d], OptDefs(p.defs[i + 1..]));
      ds := ds + [d];
      i := i + 1;
    }
    PrependFacts(ds, [], None);
    r := Some(Program(ds));
  }
}
