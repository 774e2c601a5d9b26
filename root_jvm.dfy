/**
 * The older Instant JVM backend (src/jvm.rs). It works on the source tree
 * itself: `+` and `*` have their operands exchanged when the right one
 * needs more stack, `-` and `/` are never reordered, and only expression
 * statements are optimised. Variables take local slots 0, 1, ... in order
 * of first assignment, so the first one shares slot 0 with `main`'s
 * argument array, which `main` never reads.
 */
module RootJvm {
  import opened Wrappers
  import opened Decimal
  import opened InstantAst
  import opened Jasmin
  import Sem = InstantSemantics
  import J = InstantJvm

  // ---------------------------------------------------------------------
  // Stack size and its optimisation

  /** `stack_size_expr`. */
  function StackSizeExpr(e: Expr): (n: int)
    ensures n >= 1
  {
    match e
    case BinOp(l, _, r) => Max(StackSizeExpr(l), StackSizeExpr(r) + 1)
    case _ => 1
  }

  /** `b` is `a` with the operands of some `+` and `*` operations exchanged, and nothing else changed. */
  predicate SwapOnly(a: Expr, b: Expr)
  {
    match a
    case BinOp(l, op, r) =>
      b.BinOp? && b.op == op &&
      ((SwapOnly(l, b.lhs) && SwapOnly(r, b.rhs)) ||
       ((op == Add || op == Mul) && SwapOnly(l, b.rhs) && SwapOnly(r, b.lhs)))
    case _ => b == a
  }

  /** Every `+` and `*` has its deeper operand on the left. */
  predicate CommutedBalanced(e: Expr)
  {
    match e
    case BinOp(l, op, r) =>
      ((op == Add || op == Mul) ==> StackSizeExpr(l) >= StackSizeExpr(r)) &&
      CommutedBalanced(l) && CommutedBalanced(r)
    case _ => true
  }

  /**
   * `optimize_stack_size`: both operands are optimised; a `+` or `*` whose
   * right operand needs strictly more stack has its operands exchanged.
   * Returns the rewritten tree and its stack size.
   */
  function OptimizeStackSize(e: Expr): (r: (Expr, int))
    ensures r.1 == StackSizeExpr(r.0)
    ensures r.1 <= StackSizeExpr(e)
    ensures SwapOnly(e, r.0)
    ensures CommutedBalanced(r.0)
  {
    match e
    case Const(_) => (e, 1)
    case Ident(_) => (e, 1)
    case BinOp(l, op, r) =>
      var (l1, lsize) := OptimizeStackSize(l);
      var (r1, rsize) := OptimizeStackSize(r);
      if (op == Add || op == Mul) && rsize > lsize then (BinOp(r1, op, l1), Max(rsize, lsize + 1))
      else (BinOp(l1, op, r1), Max(lsize, rsize + 1))
  }

  /** Exchanging the operands of `+` and `*` does not change any value. */
  lemma {:induction false} SwapOnlyEval(a: Expr, b: Expr, env: Sem.Env)
    requires SwapOnly(a, b)
    ensures Sem.Eval(b, env) == Sem.Eval(a, env)
    decreases a
  {
    match a
    case Const(_) =>
    case Ident(_) =>
    case BinOp(l, op, r) =>
      if SwapOnly(l, b.lhs) && SwapOnly(r, b.rhs) {
        SwapOnlyEval(l, b.lhs, env);
        SwapOnlyEval(r, b.rhs, env);
      } else {
        SwapOnlyEval(l, b.rhs, env);
        SwapOnlyEval(r, b.lhs, env);
        var x := Sem.Eval(l, env);
        var y := Sem.Eval(r, env);
        if x.Some? && y.Some? {
          Commutes(op, x.value, y.value);
        }
      }
  }

  /** `optimize` rewrites expression statements only; assignments keep their right-hand side as written. */
  function OptimizeStmt(s: Stmt): Stmt
  {
    match s
    case Assign(_, _) => s
    case ExprStmt(e) => ExprStmt(OptimizeStackSize(e).0)
  }

  method Optimize(prog: array<Stmt>)
    modifies prog
    ensures forall i :: 0 <= i < prog.Length ==> prog[i] == OptimizeStmt(old(prog[i]))
  {
    var i := 0;
    while i < prog.Length
      invariant 0 <= i <= prog.Length
      invariant forall k :: 0 <= k < i ==> prog[k] == OptimizeStmt(old(prog[k]))
      invariant forall k :: i <= k < prog.Length ==> prog[k] == old(prog[k])
    {
      if prog[i].ExprStmt? {
        var e := prog[i].e;
        prog[i] := ExprStmt(OptimizeStackSize(e).0);
      }
      i := i + 1;
    }
  }

  function OptimizeAll(ss: seq<Stmt>): (r: seq<Stmt>)
    ensures |r| == |ss|
  {
    seq(|ss|, i requires 0 <= i < |ss| => OptimizeStmt(ss[i]))
  }

  /** Optimising a statement keeps what it does. */
  lemma OptimizeStmtKeepsRun(s: Stmt, env: Sem.Env)
    ensures Sem.RunStmt(OptimizeStmt(s), env) == Sem.RunStmt(s, env)
  {
    if s.ExprStmt? {
      SwapOnlyEval(s.e, OptimizeStackSize(s.e).0, env);
    }
  }

  /** Optimising a program keeps its output. */
  lemma {:induction false} OptimizeAllKeepsRun(ss: seq<Stmt>, env: Sem.Env)
    ensures Sem.RunStmts(OptimizeAll(ss), env) == Sem.RunStmts(ss, env)
    decreases |ss|
  {
    if |ss| > 0 {
      var opt := OptimizeAll(ss);
      assert opt[0] == OptimizeStmt(ss[0]) && opt[1..] == OptimizeAll(ss[1..]);
      OptimizeStmtKeepsRun(ss[0], env);
      var r0 := Sem.RunStmt(ss[0], env);
      if r0.Some? {
        OptimizeAllKeepsRun(ss[1..], r0.value.0);
      }
    }
  }

  // ---------------------------------------------------------------------
  // Instruction selection

  /** `push_int`: `iconst` for 0 to 5, `ldc` for everything else. */
  function PushInt(x: i32): (i: Instr)
    ensures Encodable(i)
    ensures i.Iconst? <==> 0 <= x <= 5 && !i.Bipush?
  {
    if 0 <= x <= 5 then Iconst(x) else Ldc(x)
  }

  /** The push chosen for a constant exists in the JVM and pushes that constant; only 0 to 5 get `iconst`. */
  lemma PushIntSpec(x: i32, f: Frame)
    ensures Encodable(PushInt(x))
    ensures Step(PushInt(x), f) == Some(Push(f, IntV(x)))
    ensures PushInt(x).Iconst? <==> 0 <= x <= 5
    ensures !PushInt(x).Bipush?
  {
  }

  /** `push_val`: the short form for slots up to 3; an unknown name panics. */
  function PushVal(vars: J.Vars, x: string): Option<Instr>
  {
    if x !in vars then None
    else if vars[x] <= 3 then Some(IloadShort(vars[x]))
    else Some(Iload(vars[x]))
  }

  /** `pop_val`, alike. */
  function PopVal(vars: J.Vars, x: string): Option<Instr>
  {
    if x !in vars then None
    else if vars[x] <= 3 then Some(IstoreShort(vars[x]))
    else Some(Istore(vars[x]))
  }

  /** A load or store of a known name exists in the JVM, and takes the short form exactly for slots up to 3. */
  lemma SlotInstrSpec(vars: J.Vars, x: string)
    ensures PushVal(vars, x).Some? <==> x in vars
    ensures PopVal(vars, x).Some? <==> x in vars
    ensures x in vars ==> Encodable(PushVal(vars, x).value) && Encodable(PopVal(vars, x).value)
    ensures x in vars ==> (PushVal(vars, x).value.IloadShort? <==> vars[x] <= 3)
    ensures x in vars ==> (PopVal(vars, x).value.IstoreShort? <==> vars[x] <= 3)
  {
  }

  /** `compile_assign`'s insertion: a name seen for the first time gets slot `vars.len()`. */
  function WithVar(vars: J.Vars, x: string): J.Vars
  {
    if x in vars then vars else vars[x := |vars|]
  }

  /** `compile_expr`: both operands, then the operator. */
  function ExprCode(e: Expr, vars: J.Vars): Option<seq<Instr>>
  {
    match e
    case Const(v) => Some([PushInt(v)])
    case Ident(x) => (match PushVal(vars, x) case None => None case Some(i) => Some([i]))
    case BinOp(l, op, r) =>
      (match ExprCode(l, vars)
       case None => None
       case Some(cl) =>
         (match ExprCode(r, vars)
          case None => None
          case Some(cr) => Some(cl + (cr + [OpInstr(op)]))))
  }

  /** `compile_stmt`: an assignment evaluates, then gives the name a slot and stores; an expression is printed. */
  function StmtCode(s: Stmt, vars: J.Vars): Option<(seq<Instr>, J.Vars)>
  {
    match s
    case Assign(x, e) =>
      (match ExprCode(e, vars)
       case None => None
       case Some(c) =>
         var v := WithVar(vars, x);
         (match PopVal(v, x) case None => None case Some(st) => Some((c + [st], v))))
    case ExprStmt(e) =>
      (match ExprCode(e, vars)
       case None => None
       case Some(c) => Some((c + J.PrintCode, vars)))
  }

  function StmtsCode(ss: seq<Stmt>, vars: J.Vars): Option<(seq<Instr>, J.Vars)>
    decreases |ss|
  {
    if |ss| == 0 then Some(([], vars))
    else
      var r0 := StmtCode(ss[0], vars);
      J.JoinCode(r0, if r0.Some? then StmtsCode(ss[1..], r0.value.1) else None)
  }

  // ---------------------------------------------------------------------
  // The code computes what the program means

  /** Slots are 0 to one less than the number of names, one per name. */
  predicate SlotsOk(vars: J.Vars)
  {
    (forall x :: x in vars ==> vars[x] < |vars|) &&
    (forall x, y :: x in vars && y in vars && x != y ==> vars[x] != vars[y])
  }

  lemma {:induction false} ExprCorrect(e: Expr, vars: J.Vars, env: Sem.Env, f: Frame)
    requires J.Agree(env, vars, f.locals)
    requires ExprCode(e, vars).Some?
    ensures Exec(ExprCode(e, vars).value, f) ==
            match Sem.Eval(e, env)
            case None => None
            case Some(v) => Some(Push(f, IntV(v)))
    decreases e
  {
    match e
    case Const(v) =>
      assert [PushInt(v)][1..] == [];
    case Ident(x) =>
      assert [PushVal(vars, x).value][1..] == [];
    case BinOp(l, op, r) =>
      var cl := ExprCode(l, vars).value;
      var cr := ExprCode(r, vars).value;
      ExecAppend(cl, cr + [OpInstr(op)], f);
      ExprCorrect(l, vars, env, f);
      if Sem.Eval(l, env).Some? {
        var g := Push(f, IntV(Sem.Eval(l, env).value));
        ExecAppend(cr, [OpInstr(op)], g);
        ExprCorrect(r, vars, env, g);
        if Sem.Eval(r, env).Some? {
          ExecOp(op, f, Sem.Eval(l, env).value, Sem.Eval(r, env).value);
        }
      }
  }

  lemma WithVarSlots(vars: J.Vars, x: string)
    requires SlotsOk(vars)
    ensures var vs := WithVar(vars, x);
            SlotsOk(vs) && x in vs && vs.Keys == vars.Keys + {x} && |vars| <= |vs| &&
            (forall y :: y in vars ==> vs[y] == vars[y]) &&
            (forall y :: y in vs && y != x ==> vs[y] != vs[x])
  {
    if x !in vars {
      var vs := vars[x := |vars|];
      assert |vs| == |vars| + 1;
      forall y | y in vs
        ensures vs[y] < |vs|
      {
      }
      forall y, z | y in vs && z in vs && y != z
        ensures vs[y] != vs[z]
      {
        if y != x && z != x {
          assert vs[y] == vars[y] && vs[z] == vars[z];
        }
      }
    }
  }

  lemma AgreeStore(x: string, vars: J.Vars, env: Sem.Env, locals: map<nat, Value>, v: i32)
    requires J.Agree(env, vars, locals) && SlotsOk(vars)
    ensures var vs := WithVar(vars, x);
            J.Agree(env[x := v], vs, locals[vs[x] := IntV(v)])
  {
    var vs := WithVar(vars, x);
    var k := vs[x];
    var env1 := env[x := v];
    var locals1 := locals[k := IntV(v)];
    forall y | y in vars && y != x
      ensures vars[y] != k
    {
      if x !in vars {
        assert vars[y] < |vars| == k;
      }
    }
    forall y | y in vs
      ensures vs[y] in locals1 && locals1[vs[y]] == IntV(env1[y])
    {
      if y != x {
        assert vs[y] == vars[y];
      }
    }
  }

  lemma ExecPopVal(vs: J.Vars, x: string, f: Frame, v: i32)
    requires x in vs
    ensures Exec([PopVal(vs, x).value], Push(f, IntV(v))) == Some(f.(locals := f.locals[vs[x] := IntV(v)]))
  {
    var pf := Push(f, IntV(v));
    assert pf.stack[..|pf.stack| - 1] == f.stack;
    assert [PopVal(vs, x).value][1..] == [];
  }

  lemma AssignCorrect(x: string, e: Expr, vars: J.Vars, env: Sem.Env, f: Frame)
    requires J.Agree(env, vars, f.locals) && SlotsOk(vars)
    requires StmtCode(Assign(x, e), vars).Some?
    ensures J.Simulates(Exec(StmtCode(Assign(x, e), vars).value.0, f), f, Sem.RunStmt(Assign(x, e), env),
                        StmtCode(Assign(x, e), vars).value.1)
  {
    var c := ExprCode(e, vars).value;
    var vs := WithVar(vars, x);
    var st := PopVal(vs, x).value;
    assert StmtCode(Assign(x, e), vars).value == (c + [st], vs);
    ExprCorrect(e, vars, env, f);
    ExecAppend(c, [st], f);
    var ev := Sem.Eval(e, env);
    if ev.Some? {
      assert Exec(c, f) == Some(Push(f, IntV(ev.value)));
      ExecPopVal(vs, x, f, ev.value);
      AgreeStore(x, vars, env, f.locals, ev.value);
      assert Sem.RunStmt(Assign(x, e), env) == Some((env[x := ev.value], []));
    } else {
      assert Exec(c, f) == None;
    }
  }

  lemma PrintCorrect(e: Expr, vars: J.Vars, env: Sem.Env, f: Frame)
    requires J.Agree(env, vars, f.locals)
    requires ExprCode(e, vars).Some?
    ensures J.Simulates(Exec(ExprCode(e, vars).value + J.PrintCode, f), f, Sem.RunStmt(ExprStmt(e), env), vars)
  {
    var c := ExprCode(e, vars).value;
    ExprCorrect(e, vars, env, f);
    ExecAppend(c, J.PrintCode, f);
    if Sem.Eval(e, env).Some? {
      J.ExecPrint(f, Sem.Eval(e, env).value);
    }
  }

  lemma StmtCorrect(s: Stmt, vars: J.Vars, env: Sem.Env, f: Frame)
    requires J.Agree(env, vars, f.locals) && SlotsOk(vars)
    requires StmtCode(s, vars).Some?
    ensures SlotsOk(StmtCode(s, vars).value.1)
    ensures J.Simulates(Exec(StmtCode(s, vars).value.0, f), f, Sem.RunStmt(s, env), StmtCode(s, vars).value.1)
  {
    match s
    case Assign(x, e) =>
      AssignCorrect(x, e, vars, env, f);
      WithVarSlots(vars, x);
    case ExprStmt(e) =>
      PrintCorrect(e, vars, env, f);
  }

  lemma {:induction false} StmtsCorrect(ss: seq<Stmt>, vars: J.Vars, env: Sem.Env, f: Frame)
    requires J.Agree(env, vars, f.locals) && SlotsOk(vars)
    requires StmtsCode(ss, vars).Some?
    ensures J.Simulates(Exec(StmtsCode(ss, vars).value.0, f), f, Sem.RunStmts(ss, env), StmtsCode(ss, vars).value.1)
    decreases |ss|
  {
    if |ss| > 0 {
      var (c0, v0) := StmtCode(ss[0], vars).value;
      var (c1, v1) := StmtsCode(ss[1..], v0).value;
      assert StmtsCode(ss, vars).value == (c0 + c1, v1);
      StmtCorrect(ss[0], vars, env, f);
      ExecAppend(c0, c1, f);
      var x0 := Exec(c0, f);
      var r0 := Sem.RunStmt(ss[0], env);
      var x1 := if x0.Some? then Exec(c1, x0.value) else None;
      var r1 := if r0.Some? then Sem.RunStmts(ss[1..], r0.value.0) else None;
      if x0.Some? && r0.Some? {
        StmtsCorrect(ss[1..], v0, r0.value.0, x0.value);
      }
      J.SimulatesThen(f, x0, r0, v0, x1, r1, v1);
    }
  }

  /**
   * Although the first variable overwrites `main`'s argument array in slot
   * 0, the optimised and compiled program prints exactly what the Instant
   * program prints, and faults exactly when it has no meaning.
   */
  lemma ProgramCorrect(p: Program)
    requires StmtsCode(OptimizeAll(p.stmts), map[]).Some?
    ensures var code := StmtsCode(OptimizeAll(p.stmts), map[]).value.0;
            (Exec(code, Entry()).Some? <==> Sem.Run(p).Some?) &&
            (Sem.Run(p).Some? ==> Exec(code, Entry()).value.printed == Sem.Run(p).value)
  {
    OptimizeAllKeepsRun(p.stmts, map[]);
    StmtsCorrect(OptimizeAll(p.stmts), map[], map[], Entry());
  }

  /** The collision itself: after `x = 1;` slot 0 holds 1, no longer the argument array. */
  lemma ArgsSlotOverwritten(x: string)
    ensures StmtsCode([Assign(x, Const(1))], map[]).Some?
    ensures var code := StmtsCode([Assign(x, Const(1))], map[]).value.0;
            Exec(code, Entry()).Some? && 0 in Exec(code, Entry()).value.locals &&
            Exec(code, Entry()).value.locals[0] == IntV(1)
  {
    var none: J.Vars := map[];
    var vs := WithVar(none, x);
    assert vs[x] == 0;
    var store := PopVal(vs, x).value;
    assert store == IstoreShort(0);
    var c := [PushInt(1)];
    assert StmtCode(Assign(x, Const(1)), none) == Some((c + [store], vs));
    assert StmtsCode([Assign(x, Const(1))][1..], vs) == Some(([], vs));
    assert (c + [store]) + [] == c + [store];
    ExecAppend(c, [store], Entry());
    assert c[1..] == [];
    ExecPopVal(vs, x, Entry(), 1);
  }

  // ---------------------------------------------------------------------
  // When compilation panics

  /** Exchanging operands keeps the names read. */
  lemma {:induction false} SwapOnlyReads(a: Expr, b: Expr, x: string)
    requires SwapOnly(a, b)
    ensures x in Reads(b) <==> x in Reads(a)
    decreases a
  {
    match a
    case Const(_) =>
    case Ident(_) =>
    case BinOp(l, op, r) =>
      if SwapOnly(l, b.lhs) && SwapOnly(r, b.rhs) {
        SwapOnlyReads(l, b.lhs, x);
        SwapOnlyReads(r, b.rhs, x);
      } else {
        SwapOnlyReads(l, b.rhs, x);
        SwapOnlyReads(r, b.lhs, x);
      }
  }

  lemma {:induction false} OptimizeAllDefined(ss: seq<Stmt>, defined: set<string>)
    ensures DefinedBeforeUse(OptimizeAll(ss), defined) <==> DefinedBeforeUse(ss, defined)
    decreases |ss|
  {
    if |ss| > 0 {
      var opt := OptimizeAll(ss);
      assert opt[0] == OptimizeStmt(ss[0]) && opt[1..] == OptimizeAll(ss[1..]);
      forall x
        ensures x in Reads(opt[0].e) <==> x in Reads(ss[0].e)
      {
        if ss[0].ExprStmt? {
          SwapOnlyReads(ss[0].e, opt[0].e, x);
        }
      }
      OptimizeAllDefined(ss[1..], defined + (if ss[0].Assign? then {ss[0].name} else {}));
    }
  }

  lemma {:induction false} ExprCodeDefined(e: Expr, vars: J.Vars)
    ensures ExprCode(e, vars).Some? <==> forall x :: x in Reads(e) ==> x in vars
    decreases e
  {
    match e
    case Const(_) =>
    case Ident(_) =>
    case BinOp(l, _, r) =>
      ExprCodeDefined(l, vars);
      ExprCodeDefined(r, vars);
  }

  lemma StmtCodeKeys(s: Stmt, vars: J.Vars)
    requires StmtCode(s, vars).Some?
    ensures StmtCode(s, vars).value.1.Keys == vars.Keys + (if s.Assign? then {s.name} else {})
  {
  }

  lemma StmtsCodeCons(ss: seq<Stmt>, vars: J.Vars)
    requires |ss| > 0
    ensures StmtsCode(ss, vars).Some? <==>
            StmtCode(ss[0], vars).Some? && StmtsCode(ss[1..], StmtCode(ss[0], vars).value.1).Some?
  {
  }

  lemma {:induction false} StmtsCodeDefined(ss: seq<Stmt>, vars: J.Vars)
    ensures StmtsCode(ss, vars).Some? <==> DefinedBeforeUse(ss, vars.Keys)
    decreases |ss|
  {
    if |ss| > 0 {
      var own := forall x :: x in Reads(ss[0].e) ==> x in vars.Keys;
      ExprCodeDefined(ss[0].e, vars);
      StmtsCodeCons(ss, vars);
      assert StmtCode(ss[0], vars).Some? == own;
      if own {
        var v0 := StmtCode(ss[0], vars).value.1;
        StmtCodeKeys(ss[0], vars);
        StmtsCodeDefined(ss[1..], v0);
      }
    }
  }

  /** The optimised program compiles without a panic exactly when it reads no name before assigning it. */
  lemma NoPanic(p: Program)
    ensures StmtsCode(OptimizeAll(p.stmts), map[]).Some? <==> DefinedBeforeUse(p.stmts, {})
  {
    OptimizeAllDefined(p.stmts, {});
    StmtsCodeDefined(OptimizeAll(p.stmts), map[]);
    var none: J.Vars := map[];
    assert none.Keys == {};
  }

  // ---------------------------------------------------------------------
  // Limits

  /** The greatest stack size of a statement, 0 for none. */
  function MaxStackSize(ss: seq<Stmt>): (r: int)
    ensures r >= 0
    ensures forall i :: 0 <= i < |ss| ==> StackSizeExpr(ss[i].e) <= r
    ensures |ss| > 0 ==> exists i :: 0 <= i < |ss| && r == StackSizeExpr(ss[i].e)
    decreases |ss|
  {
    if |ss| == 0 then 0
    else
      var rest := MaxStackSize(ss[1..]);
      assert forall i :: 1 <= i < |ss| ==> ss[i] == ss[1..][i - 1];
      assert |ss| > 1 ==> exists i :: 1 <= i < |ss| && rest == StackSizeExpr(ss[i].e);
      Max(StackSizeExpr(ss[0].e), rest)
  }

  /** `.limit stack`: at least 2, for printing. */
  function StackLimit(ss: seq<Stmt>): int
  {
    Max(2, MaxStackSize(ss))
  }

  lemma {:induction false} ExprDepth(e: Expr, vars: J.Vars)
    requires ExprCode(e, vars).Some?
    ensures Peak(ExprCode(e, vars).value) == StackSizeExpr(e)
    ensures Net(ExprCode(e, vars).value) == 1
    decreases e
  {
    match e
    case Const(v) =>
      DepthOne(PushInt(v));
    case Ident(x) =>
      DepthOne(PushVal(vars, x).value);
    case BinOp(l, op, r) =>
      ExprDepth(l, vars);
      ExprDepth(r, vars);
      assert J.OpCode(op, false) == [OpInstr(op)];
      J.BinOpDepth(ExprCode(l, vars).value, ExprCode(r, vars).value, op, false);
  }

  lemma StmtDepth(s: Stmt, vars: J.Vars)
    requires StmtCode(s, vars).Some?
    ensures Peak(StmtCode(s, vars).value.0) <= Max(2, StackSizeExpr(s.e))
    ensures Net(StmtCode(s, vars).value.0) == 0
  {
    var c := ExprCode(s.e, vars).value;
    var tail := if s.Assign? then [PopVal(WithVar(vars, s.name), s.name).value] else J.PrintCode;
    assert StmtCode(s, vars).value.0 == c + tail;
    ExprDepth(s.e, vars);
    if s.Assign? {
      DepthOne(PopVal(WithVar(vars, s.name), s.name).value);
    } else {
      J.PrintDepth();
    }
    PeakAppend(c, tail);
  }

  lemma {:induction false} StmtsDepth(ss: seq<Stmt>, vars: J.Vars)
    requires StmtsCode(ss, vars).Some?
    ensures Peak(StmtsCode(ss, vars).value.0) <= StackLimit(ss)
    ensures Net(StmtsCode(ss, vars).value.0) == 0
    decreases |ss|
  {
    if |ss| > 0 {
      var (c0, v0) := StmtCode(ss[0], vars).value;
      var c1 := StmtsCode(ss[1..], v0).value.0;
      assert StmtsCode(ss, vars).value.0 == c0 + c1;
      StmtDepth(ss[0], vars);
      StmtsDepth(ss[1..], v0);
      assert MaxStackSize(ss) == Max(StackSizeExpr(ss[0].e), MaxStackSize(ss[1..]));
      BalancedThen(c0, c1, Max(2, StackSizeExpr(ss[0].e)), StackLimit(ss[1..]));
    }
  }

  /** The operand stack never grows past `.limit stack`. */
  lemma StackWithinLimit(ss: seq<Stmt>)
    requires StmtsCode(ss, map[]).Some?
    ensures var code := StmtsCode(ss, map[]).value.0;
            forall k :: 0 <= k <= |code| ==> Net(code[..k]) <= StackLimit(ss)
  {
    var code := StmtsCode(ss, map[]).value.0;
    StmtsDepth(ss, map[]);
    forall k | 0 <= k <= |code|
      ensures Net(code[..k]) <= StackLimit(ss)
    {
      PeakBoundsPrefix(code, k);
    }
  }

  lemma {:induction false} ExprSlots(e: Expr, vars: J.Vars)
    requires SlotsOk(vars) && ExprCode(e, vars).Some?
    ensures SlotsWithin(ExprCode(e, vars).value, |vars|)
    decreases e
  {
    match e
    case Const(_) =>
    case Ident(_) =>
    case BinOp(l, op, r) =>
      ExprSlots(l, vars);
      ExprSlots(r, vars);
      SlotsWithinAppend(ExprCode(r, vars).value, [OpInstr(op)], |vars|);
      SlotsWithinAppend(ExprCode(l, vars).value, ExprCode(r, vars).value + [OpInstr(op)], |vars|);
  }

  lemma AssignSlots(x: string, e: Expr, vars: J.Vars)
    requires SlotsOk(vars) && ExprCode(e, vars).Some?
    ensures var vs := WithVar(vars, x);
            SlotsOk(vs) && vs.Keys == vars.Keys + {x} && |vars| <= |vs| &&
            SlotsWithin(ExprCode(e, vars).value + [PopVal(vs, x).value], |vs|)
  {
    var c := ExprCode(e, vars).value;
    var vs := WithVar(vars, x);
    ExprSlots(e, vars);
    WithVarSlots(vars, x);
    SlotsWithinMono(c, |vars|, |vs|);
    assert SlotOf(PopVal(vs, x).value) == vs[x] <= |vs|;
    SlotsWithinAppend(c, [PopVal(vs, x).value], |vs|);
  }

  lemma StmtSlots(s: Stmt, vars: J.Vars)
    requires SlotsOk(vars) && StmtCode(s, vars).Some?
    ensures var (code, vs) := StmtCode(s, vars).value;
            SlotsOk(vs) && vs.Keys == vars.Keys + (if s.Assign? then {s.name} else {}) &&
            |vars| <= |vs| && SlotsWithin(code, |vs|)
  {
    match s
    case Assign(x, e) =>
      AssignSlots(x, e, vars);
    case ExprStmt(e) =>
      ExprSlots(e, vars);
      SlotsWithinAppend(ExprCode(e, vars).value, J.PrintCode, |vars|);
  }

  lemma {:induction false} StmtsSlots(ss: seq<Stmt>, vars: J.Vars)
    requires SlotsOk(vars) && StmtsCode(ss, vars).Some?
    ensures var (code, vs) := StmtsCode(ss, vars).value;
            SlotsOk(vs) && vs.Keys == vars.Keys + Assigned(ss) && |vars| <= |vs| && SlotsWithin(code, |vs|)
    decreases |ss|
  {
    if |ss| > 0 {
      var (c0, v0) := StmtCode(ss[0], vars).value;
      var (c1, v1) := StmtsCode(ss[1..], v0).value;
      assert StmtsCode(ss, vars).value == (c0 + c1, v1);
      StmtSlots(ss[0], vars);
      StmtsSlots(ss[1..], v0);
      J.SlotsThen(vars, v0, v1, c0, c1, if ss[0].Assign? then {ss[0].name} else {}, Assigned(ss[1..]));
    }
  }

  /** Every slot the code touches is below `.limit locals`, the number of names plus one. */
  lemma LocalsWithinLimit(ss: seq<Stmt>)
    requires StmtsCode(ss, map[]).Some?
    ensures SlotsWithin(StmtsCode(ss, map[]).value.0, |Assigned(ss)|)
  {
    var vs := StmtsCode(ss, map[]).value.1;
    StmtsSlots(ss, map[]);
    assert vs.Keys == Assigned(ss);
    assert |vs| == |vs.Keys|;
  }

  // ---------------------------------------------------------------------
  // The emitted text

  /** `create_prelude`: the class is always named `Instant`. */
  function PreludeLines(stackLimit: int, localsLimit: int): seq<string>
  {
    [".class public Instant",
     ".super java/lang/Object",
     "",
     ".method public <init>()V",
     "aload_0",
     "invokenonvirtual java/lang/Object/<init>()V",
     "return",
     ".end method",
     "",
     ".method public static main([Ljava/lang/String;)V",
     ".limit stack  " + IntToString(stackLimit),
     ".limit locals " + IntToString(localsLimit)]
  }

  /** The Jasmin file for a program, one string per line; None when compilation panics. */
  function ProgramLines(ss: seq<Stmt>): Option<seq<string>>
  {
    var compiled := StmtsCode(ss, map[]);
    if compiled.None? then None
    else Some(PreludeLines(StackLimit(ss), |Assigned(ss)| + 1) + Texts(compiled.value.0) + J.EndLines)
  }

  /** `variable_count`. */
  method VariableCount(ss: seq<Stmt>) returns (n: nat)
    ensures n == |Assigned(ss)|
  {
    var names: set<string> := {};
    var i := 0;
    while i < |ss|
      invariant 0 <= i <= |ss|
      invariant names == Assigned(ss[..i])
    {
      AssignedAppend(ss[..i], [ss[i]]);
      assert ss[..i + 1] == ss[..i] + [ss[i]];
      if ss[i].Assign? {
        names := names + {ss[i].name};
      }
      i := i + 1;
    }
    assert ss[..|ss|] == ss;
    n := |names|;
  }

  /** `compile_stmt` with `compile_assign`: the statement's text and the slots afterwards; false is a panic. */
  method CompileStmt(s: Stmt, vars: J.Vars) returns (ok: bool, vars1: J.Vars, lines: seq<string>)
    ensures ok == StmtCode(s, vars).Some?
    ensures ok ==> vars1 == StmtCode(s, vars).value.1 && lines == Texts(StmtCode(s, vars).value.0)
  {
    var code := ExprCode(s.e, vars);
    if code.None? {
      return false, vars, [];
    }
    match s
    case Assign(x, _) =>
      vars1 := vars;
      if x !in vars1 {
        var idx := |vars1|;
        vars1 := vars1[x := idx];
      }
      var st := PopVal(vars1, x);
      lines := Texts(code.value + [st.value]);
      ok := true;
    case ExprStmt(_) =>
      vars1 := vars;
      lines := Texts(code.value + J.PrintCode);
      ok := true;
  }

  lemma StmtsCodeUnfold(ss: seq<Stmt>, i: nat, vars: J.Vars)
    requires i < |ss|
    ensures StmtsCode(ss[i..], vars) ==
            J.JoinCode(StmtCode(ss[i], vars),
                       if StmtCode(ss[i], vars).Some? then StmtsCode(ss[i + 1..], StmtCode(ss[i], vars).value.1) else None)
  {
    assert ss[i..][0] == ss[i] && ss[i..][1..] == ss[i + 1..];
  }

  /** `compile`: the prelude, every statement in order with the slots so far, then the end of `main`. */
  method Compile(ss: seq<Stmt>) returns (r: Option<seq<string>>)
    ensures r == ProgramLines(ss)
  {
    var count := VariableCount(ss);
    var prelude := PreludeLines(StackLimit(ss), count + 1);
    var out := prelude;
    var vars: J.Vars := map[];
    ghost var code: seq<Instr> := [];
    var i := 0;
    assert ss[0..] == ss;
    J.JoinCodeEmpty(vars, StmtsCode(ss, vars));
    assert prelude + Texts([]) == prelude;
    while i < |ss|
      invariant 0 <= i <= |ss|
      invariant StmtsCode(ss, map[]) == J.JoinCode(Some((code, vars)), StmtsCode(ss[i..], vars))
      invariant out == prelude + Texts(code)
    {
      StmtsCodeUnfold(ss, i, vars);
      var ok, vars1, lines := CompileStmt(ss[i], vars);
      if !ok {
        return None;
      }
      var c := StmtCode(ss[i], vars).value.0;
      J.JoinCodeAssoc(code, vars, StmtCode(ss[i], vars), StmtsCode(ss[i + 1..], vars1));
      TextsAppend(code, c);
      J.AppendAssoc2(prelude, Texts(code), Texts(c));
      out := out + lines;
      vars := vars1;
      code := code + c;
      i := i + 1;
    }
    assert StmtsCode(ss[|ss|..], vars) == Some(([], vars));
    assert code + [] == code;
    r := Some(out + J.EndLines);
  }
}
