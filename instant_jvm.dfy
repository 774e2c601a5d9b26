/**
 * The Instant JVM backend (instant/src/jvm.rs). The program is copied into
 * a tree whose operations carry a `reversed` flag; every expression is
 * rewritten so that the deeper operand is evaluated first, which lowers
 * the operand stack the JVM needs, and the flag records the swap so that
 * `-` and `/` get a `swap` before the operator. Variables live in local
 * slots 1, 2, ... in order of first assignment; slot 0 holds `main`'s
 * argument array.
 */
module InstantJvm {
  import opened Wrappers
  import opened Decimal
  import opened InstantAst
  import opened Jasmin
  import Sem = InstantSemantics

  datatype JExpr =
    | JConst(val: i32)
    | JIdent(name: string)
    | JBinOp(lhs: JExpr, op: Operator, rhs: JExpr, reversed: bool)

  datatype JStmt = JAssign(name: string, e: JExpr) | JExprStmt(e: JExpr)

  /** The source expression a tree stands for: a reversed operation has its operands the other way round. */
  function Source(j: JExpr): Expr
  {
    match j
    case JConst(v) => Const(v)
    case JIdent(x) => Ident(x)
    case JBinOp(l, op, r, rev) => if rev then BinOp(Source(r), op, Source(l)) else BinOp(Source(l), op, Source(r))
  }

  function SourceStmt(s: JStmt): Stmt
  {
    match s
    case JAssign(x, e) => Assign(x, Source(e))
    case JExprStmt(e) => ExprStmt(Source(e))
  }

  function SourceStmts(ss: seq<JStmt>): (r: seq<Stmt>)
    ensures |r| == |ss|
    decreases |ss|
  {
    if |ss| == 0 then [] else [SourceStmt(ss[0])] + SourceStmts(ss[1..])
  }

  /** No operation is marked as swapped. */
  predicate NoneReversed(j: JExpr)
  {
    match j
    case JBinOp(l, _, r, rev) => !rev && NoneReversed(l) && NoneReversed(r)
    case _ => true
  }

  // ---------------------------------------------------------------------
  // prepare_ast

  /** `expr_to_jvm`: the same tree, nothing marked as swapped. */
  function PrepareExpr(e: Expr): (j: JExpr)
    ensures Source(j) == e && NoneReversed(j)
  {
    match e
    case Const(v) => JConst(v)
    case Ident(x) => JIdent(x)
    case BinOp(l, op, r) => JBinOp(PrepareExpr(l), op, PrepareExpr(r), false)
  }

  function PrepareStmt(s: Stmt): (r: JStmt)
    ensures SourceStmt(r) == s && NoneReversed(r.e)
  {
    match s
    case Assign(x, e) => JAssign(x, PrepareExpr(e))
    case ExprStmt(e) => JExprStmt(PrepareExpr(e))
  }

  /** `prepare_ast`: one prepared statement per source statement, in order. */
  function PrepareAst(p: Program): (r: seq<JStmt>)
    ensures |r| == |p.stmts|
    ensures forall i :: 0 <= i < |r| ==> SourceStmt(r[i]) == p.stmts[i] && NoneReversed(r[i].e)
  {
    seq(|p.stmts|, i requires 0 <= i < |p.stmts| => PrepareStmt(p.stmts[i]))
  }

  // ---------------------------------------------------------------------
  // Stack size and its optimisation

  /** `stack_size`: the operand stack an expression needs, evaluating the left operand first. */
  function StackSize(j: JExpr): (n: int)
    ensures n >= 1
  {
    match j
    case JBinOp(l, _, r, _) => Max(StackSize(l), StackSize(r) + 1)
    case _ => 1
  }

  /** Every operation has its deeper operand on the left. */
  predicate Balanced(j: JExpr)
  {
    match j
    case JBinOp(l, _, r, _) => StackSize(l) >= StackSize(r) && Balanced(l) && Balanced(r)
    case _ => true
  }

  /** Every operation marked as swapped has a strictly deeper left operand: a swap is made only when it pays. */
  predicate SwapsJustified(j: JExpr)
  {
    match j
    case JBinOp(l, _, r, rev) => (rev ==> StackSize(l) > StackSize(r)) && SwapsJustified(l) && SwapsJustified(r)
    case _ => true
  }

  /**
   * `optimize_stack_size`: optimise both operands, then swap them when the
   * right one needs strictly more stack, marking the operation as reversed.
   * Returns the rewritten tree and its stack size.
   */
  function OptimizeStackSize(j: JExpr): (r: (JExpr, int))
    ensures r.1 == StackSize(r.0)
    ensures r.1 <= StackSize(j)
    ensures Balanced(r.0)
    ensures NoneReversed(j) ==> Source(r.0) == Source(j) && SwapsJustified(r.0)
  {
    match j
    case JBinOp(l, op, r, rev) =>
      var (l1, lsize) := OptimizeStackSize(l);
      var (r1, rsize) := OptimizeStackSize(r);
      if rsize > lsize then (JBinOp(r1, op, l1, true), Max(rsize, lsize + 1))
      else (JBinOp(l1, op, r1, rev), Max(lsize, rsize + 1))
    case _ => (j, 1)
  }

  function OptimizeStmt(s: JStmt): JStmt
  {
    match s
    case JAssign(x, e) => JAssign(x, OptimizeStackSize(e).0)
    case JExprStmt(e) => JExprStmt(OptimizeStackSize(e).0)
  }

  /** `optimize`: every statement's expression, assignments included, is rewritten in place. */
  method Optimize(prog: array<JStmt>)
    modifies prog
    ensures forall i :: 0 <= i < prog.Length ==> prog[i] == OptimizeStmt(old(prog[i]))
  {
    var i := 0;
    while i < prog.Length
      invariant 0 <= i <= prog.Length
      invariant forall k :: 0 <= k < i ==> prog[k] == OptimizeStmt(old(prog[k]))
      invariant forall k :: i <= k < prog.Length ==> prog[k] == old(prog[k])
    {
      prog[i] := OptimizeStmt(prog[i]);
      i := i + 1;
    }
  }

  /** What `optimize` leaves in the array, as a sequence. */
  function OptimizeAll(ss: seq<JStmt>): (r: seq<JStmt>)
    ensures |r| == |ss|
  {
    seq(|ss|, i requires 0 <= i < |ss| => OptimizeStmt(ss[i]))
  }

  /** Preparing and optimising a program keeps its meaning: the statements still stand for the source. */
  lemma {:induction false} PipelineKeepsSource(p: Program)
    ensures SourceStmts(OptimizeAll(PrepareAst(p))) == p.stmts
  {
    var ss := OptimizeAll(PrepareAst(p));
    forall i | 0 <= i < |ss|
      ensures SourceStmt(ss[i]) == p.stmts[i]
    {
      var e := PrepareAst(p)[i].e;
      assert NoneReversed(e);
    }
    SourceStmtsIndex(ss);
  }

  lemma {:induction false} SourceStmtsIndex(ss: seq<JStmt>)
    ensures forall i :: 0 <= i < |ss| ==> SourceStmts(ss)[i] == SourceStmt(ss[i])
    decreases |ss|
  {
    if |ss| > 0 {
      SourceStmtsIndex(ss[1..]);
      forall i | 0 < i < |ss|
        ensures SourceStmts(ss)[i] == SourceStmt(ss[i])
      {
        assert SourceStmts(ss)[i] == SourceStmts(ss[1..])[i - 1];
      }
    }
  }

  // ---------------------------------------------------------------------
  // Instruction selection

  /** `i32::compile`: the shortest push for a constant. */
  function PushInt(x: i32): (i: Instr)
    ensures Encodable(i)
    ensures i.Iconst? <==> 0 <= x <= 5
    ensures i.Bipush? <==> 6 <= x <= 127
  {
    if 0 <= x <= 5 then Iconst(x) else if 6 <= x <= 127 then Bipush(x) else Ldc(x)
  }

  /** The push chosen for a constant exists in the JVM, pushes that constant, and is the shortest form that can. */
  lemma PushIntSpec(x: i32, f: Frame)
    ensures Encodable(PushInt(x))
    ensures Step(PushInt(x), f) == Some(Push(f, IntV(x)))
    ensures PushInt(x).Iconst? <==> 0 <= x <= 5
    ensures PushInt(x).Bipush? <==> 6 <= x <= 127
  {
  }

  type Vars = map<string, nat>

  /** `load_var`: the short form for slots up to 3; an unknown name panics. */
  function LoadInstr(vars: Vars, x: string): Option<Instr>
  {
    if x !in vars then None
    else if vars[x] <= 3 then Some(IloadShort(vars[x]))
    else Some(Iload(vars[x]))
  }

  /** `store_var`, alike. */
  function StoreInstr(vars: Vars, x: string): Option<Instr>
  {
    if x !in vars then None
    else if vars[x] <= 3 then Some(IstoreShort(vars[x]))
    else Some(Istore(vars[x]))
  }

  /** A load or store of a known name exists in the JVM, and takes the short form exactly for slots up to 3. */
  lemma SlotInstrSpec(vars: Vars, x: string)
    ensures LoadInstr(vars, x).Some? <==> x in vars
    ensures StoreInstr(vars, x).Some? <==> x in vars
    ensures x in vars ==> Encodable(LoadInstr(vars, x).value) && Encodable(StoreInstr(vars, x).value)
    ensures x in vars ==> (LoadInstr(vars, x).value.IloadShort? <==> vars[x] <= 3)
    ensures x in vars ==> (StoreInstr(vars, x).value.IstoreShort? <==> vars[x] <= 3)
  {
  }

  /** `add_var`: a name seen for the first time gets the next slot after those in use. */
  function WithVar(vars: Vars, x: string): Vars
  {
    if x in vars then vars else vars[x := |vars| + 1]
  }

  /** The operator, with a `swap` first when the operands of `-` or `/` were exchanged. */
  function OpCode(op: Operator, rev: bool): seq<Instr>
  {
    (if rev && op != Add && op != Mul then [Swap] else []) + [OpInstr(op)]
  }

  /** `Expr::compile`: both operands, then the operator; None is the panic of an unknown name. */
  function ExprCode(j: JExpr, vars: Vars): Option<seq<Instr>>
  {
    match j
    case JConst(v) => Some([PushInt(v)])
    case JIdent(x) => (match LoadInstr(vars, x) case None => None case Some(i) => Some([i]))
    case JBinOp(l, op, r, rev) =>
      (match ExprCode(l, vars)
       case None => None
       case Some(cl) =>
         (match ExprCode(r, vars)
          case None => None
          case Some(cr) => Some(cl + (cr + OpCode(op, rev)))))
  }

  /** The lines that print the int on top of the stack. */
  const PrintCode: seq<Instr> := [GetOut, Swap, PrintInt]

  /**
   * `Stmt::compile`: an assignment evaluates its expression with the
   * variables as they were, then gives the name a slot and stores into it;
   * an expression statement prints its value.
   */
  function StmtCode(s: JStmt, vars: Vars): Option<(seq<Instr>, Vars)>
  {
    match s
    case JAssign(x, e) =>
      (match ExprCode(e, vars)
       case None => None
       case Some(c) =>
         var v := WithVar(vars, x);
         (match StoreInstr(v, x) case None => None case Some(st) => Some((c + [st], v))))
    case JExprStmt(e) =>
      (match ExprCode(e, vars)
       case None => None
       case Some(c) => Some((c + PrintCode, vars)))
  }

  /** Code for a first part followed by code for the rest, compiled with the slots the first part leaves. */
  function JoinCode(r0: Option<(seq<Instr>, Vars)>, r1: Option<(seq<Instr>, Vars)>): Option<(seq<Instr>, Vars)>
  {
    match r0
    case None => None
    case Some((c0, _)) =>
      match r1
      case None => None
      case Some((c1, v1)) => Some((c0 + c1, v1))
  }

  function StmtsCode(ss: seq<JStmt>, vars: Vars): Option<(seq<Instr>, Vars)>
    decreases |ss|
  {
    if |ss| == 0 then Some(([], vars))
    else
      var r0 := StmtCode(ss[0], vars);
      JoinCode(r0, if r0.Some? then StmtsCode(ss[1..], r0.value.1) else None)
  }

  // ---------------------------------------------------------------------
  // The code computes what the program means

  /** The locals hold the values of the bound names, each in its own slot. */
  predicate Agree(env: Sem.Env, vars: Vars, locals: map<nat, Value>)
  {
    env.Keys == vars.Keys &&
    forall x :: x in vars ==> vars[x] in locals && locals[vars[x]] == IntV(env[x])
  }

  /** Slots are 1 to the number of names, one per name: slot 0 stays `main`'s argument. */
  predicate SlotsOk(vars: Vars)
  {
    (forall x :: x in vars ==> 1 <= vars[x] <= |vars|) &&
    (forall x, y :: x in vars && y in vars && x != y ==> vars[x] != vars[y])
  }

  /** An operator after its two operands: a `swap` undoes an exchange, and `+` and `*` do not care. */
  lemma ExecOpCode(op: Operator, rev: bool, f: Frame, a: i32, b: i32)
    ensures Exec(OpCode(op, rev), Push(Push(f, IntV(a)), IntV(b))) ==
            match (if rev then ApplyOp(op, b, a) else ApplyOp(op, a, b))
            case None => None
            case Some(v) => Some(Push(f, IntV(v)))
  {
    if rev && op != Add && op != Mul {
      assert OpCode(op, rev) == [Swap, OpInstr(op)];
      ExecSwapOp(op, f, a, b);
    } else {
      assert OpCode(op, rev) == [OpInstr(op)];
      ExecOp(op, f, a, b);
      if rev {
        Commutes(op, a, b);
      }
    }
  }

  /** The value of an operation whose tree may have its operands exchanged. */
  lemma EvalBinOp(l: JExpr, op: Operator, r: JExpr, rev: bool, env: Sem.Env)
    ensures Sem.Eval(Source(JBinOp(l, op, r, rev)), env) ==
            match Sem.Eval(Source(l), env)
            case None => None
            case Some(a) =>
              match Sem.Eval(Source(r), env)
              case None => None
              case Some(b) => if rev then ApplyOp(op, b, a) else ApplyOp(op, a, b)
  {
  }

  /**
   * The code of an expression leaves the value of its source expression on
   * top of the stack and changes nothing else, or faults exactly when that
   * value does not exist (a division by zero).
   */
  lemma {:induction false} ExprCorrect(j: JExpr, vars: Vars, env: Sem.Env, f: Frame)
    requires Agree(env, vars, f.locals)
    requires ExprCode(j, vars).Some?
    ensures Exec(ExprCode(j, vars).value, f) ==
            match Sem.Eval(Source(j), env)
            case None => None
            case Some(v) => Some(Push(f, IntV(v)))
    decreases j
  {
    match j
    case JConst(v) =>
      assert [PushInt(v)][1..] == [];
    case JIdent(x) =>
      assert [LoadInstr(vars, x).value][1..] == [];
    case JBinOp(l, op, r, rev) =>
      var cl := ExprCode(l, vars).value;
      var cr := ExprCode(r, vars).value;
      ExecAppend(cl, cr + OpCode(op, rev), f);
      ExprCorrect(l, vars, env, f);
      EvalBinOp(l, op, r, rev, env);
      if Sem.Eval(Source(l), env).Some? {
        var g := Push(f, IntV(Sem.Eval(Source(l), env).value));
        ExecAppend(cr, OpCode(op, rev), g);
        ExprCorrect(r, vars, env, g);
        if Sem.Eval(Source(r), env).Some? {
          ExecOpCode(op, rev, f, Sem.Eval(Source(l), env).value, Sem.Eval(Source(r), env).value);
        }
      }
  }

  /** Printing: `getstatic`, `swap`, `println` take the int off the stack and print it. */
  lemma ExecPrint(f: Frame, v: i32)
    ensures Exec(PrintCode, Push(f, IntV(v))) == Some(f.(printed := f.printed + [v]))
  {
    var g := Push(Push(f, IntV(v)), Stream);
    var h := Push(Push(f, Stream), IntV(v));
    assert g.stack == f.stack + [IntV(v), Stream];
    assert g.stack[..|g.stack| - 2] + [g.stack[|g.stack| - 1], g.stack[|g.stack| - 2]] == h.stack;
    assert h.stack[..|h.stack| - 2] == f.stack;
    assert PrintCode[1..] == [Swap, PrintInt] && PrintCode[1..][1..] == [PrintInt];
  }

  /** A name keeps its slot, a new name gets a fresh one, and the slots stay distinct. */
  lemma WithVarSlots(vars: Vars, x: string)
    requires SlotsOk(vars)
    ensures var vs := WithVar(vars, x);
            SlotsOk(vs) && x in vs && vs.Keys == vars.Keys + {x} &&
            (forall y :: y in vars ==> vs[y] == vars[y]) &&
            (forall y :: y in vs && y != x ==> vs[y] != vs[x])
  {
    if x !in vars {
      var vs := vars[x := |vars| + 1];
      assert |vs| == |vars| + 1;
      forall y | y in vs
        ensures 1 <= vs[y] <= |vs|
      {
      }
      forall y, z | y in vs && z in vs && y != z
        ensures vs[y] != vs[z]
      {
        if y != x && z != x {
          assert vs[y] == vars[y] && vs[z] == vars[z];
        }
      }
    }
  }


  /** A store takes the int off the stack into its slot. */
  lemma ExecStoreInstr(vs: Vars, x: string, f: Frame, v: i32)
    requires x in vs
    ensures Exec([StoreInstr(vs, x).value], Push(f, IntV(v))) == Some(f.(locals := f.locals[vs[x] := IntV(v)]))
  {
    var pf := Push(f, IntV(v));
    assert pf.stack[..|pf.stack| - 1] == f.stack;
    assert [StoreInstr(vs, x).value][1..] == [];
  }

  /** Storing the value of an assignment keeps the locals in agreement with the new bindings. */
  lemma AgreeStore(x: string, vars: Vars, env: Sem.Env, locals: map<nat, Value>, v: i32)
    requires Agree(env, vars, locals) && SlotsOk(vars)
    ensures var vs := WithVar(vars, x);
            Agree(env[x := v], vs, locals[vs[x] := IntV(v)])
  {
    var vs := WithVar(vars, x);
    var k := vs[x];
    var env1 := env[x := v];
    var locals1 := locals[k := IntV(v)];
    forall y | y in vars && y != x
      ensures vars[y] != k
    {
      if x !in vars {
        assert vars[y] <= |vars| < k;
      }
    }
    forall y | y in vs
      ensures vs[y] in locals1 && locals1[vs[y]] == IntV(env1[y])
    {
      if y != x {
        assert vs[y] == vars[y];
      }
    }
  }

  /** An assignment: the value goes to the name's slot, the stack and the output are as before. */
  lemma AssignCorrect(x: string, e: JExpr, vars: Vars, env: Sem.Env, f: Frame)
    requires Agree(env, vars, f.locals) && SlotsOk(vars)
    requires StmtCode(JAssign(x, e), vars).Some?
    ensures var (code, vs) := StmtCode(JAssign(x, e), vars).value;
            var run := Sem.RunStmt(Assign(x, Source(e)), env);
            (Exec(code, f).Some? <==> run.Some?) &&
            (run.Some? ==>
               Exec(code, f).value.stack == f.stack &&
               Exec(code, f).value.printed == f.printed + run.value.1 &&
               Agree(run.value.0, vs, Exec(code, f).value.locals))
  {
    var c := ExprCode(e, vars).value;
    var vs := WithVar(vars, x);
    var st := StoreInstr(vs, x).value;
    assert StmtCode(JAssign(x, e), vars).value == (c + [st], vs);
    ExprCorrect(e, vars, env, f);
    ExecAppend(c, [st], f);
    var ev := Sem.Eval(Source(e), env);
    if ev.Some? {
      assert Exec(c, f) == Some(Push(f, IntV(ev.value)));
      ExecStoreInstr(vs, x, f, ev.value);
      AgreeStore(x, vars, env, f.locals, ev.value);
      assert Sem.RunStmt(Assign(x, Source(e)), env) == Some((env[x := ev.value], []));
    } else {
      assert Exec(c, f) == None;
    }
  }

  /** An expression statement: the value is printed, the stack and the locals are as before. */
  lemma PrintCorrect(e: JExpr, vars: Vars, env: Sem.Env, f: Frame)
    requires Agree(env, vars, f.locals)
    requires ExprCode(e, vars).Some?
    ensures var code := ExprCode(e, vars).value + PrintCode;
            var ev := Sem.Eval(Source(e), env);
            (Exec(code, f).Some? <==> ev.Some?) &&
            (ev.Some? ==> Exec(code, f) == Some(f.(printed := f.printed + [ev.value])))
  {
    var c := ExprCode(e, vars).value;
    ExprCorrect(e, vars, env, f);
    ExecAppend(c, PrintCode, f);
    if Sem.Eval(Source(e), env).Some? {
      ExecPrint(f, Sem.Eval(Source(e), env).value);
    }
  }

  /**
   * Code run from `f` simulates a run of the source: it faults exactly when
   * the source has no meaning, and otherwise leaves the stack as it was,
   * adds the source's output and keeps the bindings in their slots.
   */
  predicate Simulates(exec: Option<Frame>, f: Frame, run: Option<(Sem.Env, seq<i32>)>, vs: Vars)
  {
    (exec.Some? <==> run.Some?) &&
    (run.Some? ==>
       exec.value.stack == f.stack &&
       exec.value.printed == f.printed + run.value.1 &&
       Agree(run.value.0, vs, exec.value.locals))
  }

  /** A statement's code simulates the statement, and the slots stay one per name. */
  lemma StmtCorrect(s: JStmt, vars: Vars, env: Sem.Env, f: Frame)
    requires Agree(env, vars, f.locals) && SlotsOk(vars)
    requires StmtCode(s, vars).Some?
    ensures SlotsOk(StmtCode(s, vars).value.1)
    ensures Simulates(Exec(StmtCode(s, vars).value.0, f), f, Sem.RunStmt(SourceStmt(s), env), StmtCode(s, vars).value.1)
  {
    match s
    case JAssign(x, e) =>
      AssignCorrect(x, e, vars, env, f);
      WithVarSlots(vars, x);
    case JExprStmt(e) =>
      PrintCorrect(e, vars, env, f);
  }

  /** Whole statement lists: the code prints what the program prints, and faults exactly when the program has no meaning. */
  /** Simulation composes: a statement, then the rest from where it left off. */
  lemma SimulatesThen(f: Frame, x0: Option<Frame>, r0: Option<(Sem.Env, seq<i32>)>, v0: Vars,
                      x1: Option<Frame>, r1: Option<(Sem.Env, seq<i32>)>, v1: Vars)
    requires Simulates(x0, f, r0, v0)
    requires x0.Some? && r0.Some? ==> Simulates(x1, x0.value, r1, v1)
    ensures Simulates(if x0.None? then None else x1, f, Sem.Then(r0, r1), v1)
  {
    if x0.Some? && r0.Some? && r1.Some? {
      assert f.printed + r0.value.1 + r1.value.1 == f.printed + (r0.value.1 + r1.value.1);
    }
  }

  lemma {:induction false} StmtsCorrect(ss: seq<JStmt>, vars: Vars, env: Sem.Env, f: Frame)
    requires Agree(env, vars, f.locals) && SlotsOk(vars)
    requires StmtsCode(ss, vars).Some?
    ensures Simulates(Exec(StmtsCode(ss, vars).value.0, f), f, Sem.RunStmts(SourceStmts(ss), env), StmtsCode(ss, vars).value.1)
    decreases |ss|
  {
    if |ss| > 0 {
      var (c0, v0) := StmtCode(ss[0], vars).value;
      var (c1, v1) := StmtsCode(ss[1..], v0).value;
      assert StmtsCode(ss, vars).value == (c0 + c1, v1);
      var src := SourceStmts(ss);
      assert src[0] == SourceStmt(ss[0]) && src[1..] == SourceStmts(ss[1..]);
      StmtCorrect(ss[0], vars, env, f);
      ExecAppend(c0, c1, f);
      var x0 := Exec(c0, f);
      var r0 := Sem.RunStmt(src[0], env);
      var x1 := if x0.Some? then Exec(c1, x0.value) else None;
      var r1 := if r0.Some? then Sem.RunStmts(src[1..], r0.value.0) else None;
      if x0.Some? && r0.Some? {
        StmtsCorrect(ss[1..], v0, r0.value.0, x0.value);
      }
      SimulatesThen(f, x0, r0, v0, x1, r1, v1);
    }
  }

  /** The statements of a program after `prepare_ast` and `optimize`, as `compile` receives them. */
  function Compiled(p: Program): seq<JStmt>
  {
    OptimizeAll(PrepareAst(p))
  }

  /**
   * The compiled program, run from `main`'s entry frame, prints exactly
   * what the Instant program prints, and faults (a division by zero)
   * exactly when the program has no meaning.
   */
  lemma ProgramCorrect(p: Program)
    requires StmtsCode(Compiled(p), map[]).Some?
    ensures var code := StmtsCode(Compiled(p), map[]).value.0;
            (Exec(code, Entry()).Some? <==> Sem.Run(p).Some?) &&
            (Sem.Run(p).Some? ==> Exec(code, Entry()).value.printed == Sem.Run(p).value)
  {
    PipelineKeepsSource(p);
    StmtsCorrect(Compiled(p), map[], map[], Entry());
  }

  // ---------------------------------------------------------------------
  // The compiler panics exactly on a read before assignment

  /** The code of an expression exists exactly when every name it reads has a slot. */
  lemma {:induction false} ExprCodeDefined(j: JExpr, vars: Vars)
    ensures ExprCode(j, vars).Some? <==> forall x :: x in Reads(Source(j)) ==> x in vars
    decreases j
  {
    match j
    case JConst(_) =>
    case JIdent(_) =>
    case JBinOp(l, _, r, _) =>
      ExprCodeDefined(l, vars);
      ExprCodeDefined(r, vars);
  }

  /** A statement's code gives slots to the names there were, and to the name it assigns. */
  lemma StmtCodeKeys(s: JStmt, vars: Vars)
    requires StmtCode(s, vars).Some?
    ensures StmtCode(s, vars).value.1.Keys == vars.Keys + (if s.JAssign? then {s.name} else {})
  {
  }

  /** A list's code exists when the first statement's does and the rest's does, from the slots it leaves. */
  lemma StmtsCodeCons(ss: seq<JStmt>, vars: Vars)
    requires |ss| > 0
    ensures StmtsCode(ss, vars).Some? <==>
            StmtCode(ss[0], vars).Some? && StmtsCode(ss[1..], StmtCode(ss[0], vars).value.1).Some?
  {
  }

  lemma {:induction false} StmtsCodeDefined(ss: seq<JStmt>, vars: Vars)
    ensures StmtsCode(ss, vars).Some? <==> DefinedBeforeUse(SourceStmts(ss), vars.Keys)
    decreases |ss|
  {
    if |ss| > 0 {
      var src := SourceStmts(ss);
      assert src[0] == SourceStmt(ss[0]) && src[1..] == SourceStmts(ss[1..]);
      var own := forall x :: x in Reads(src[0].e) ==> x in vars.Keys;
      var added := if src[0].Assign? then {src[0].name} else {};
      ExprCodeDefined(ss[0].e, vars);
      StmtsCodeCons(ss, vars);
      assert StmtCode(ss[0], vars).Some? == own;
      if own {
        var v0 := StmtCode(ss[0], vars).value.1;
        StmtCodeKeys(ss[0], vars);
        StmtsCodeDefined(ss[1..], v0);
      }
    }
  }

  /** Hence the whole pipeline panics exactly when the source reads a name before assigning it. */
  lemma NoPanic(p: Program)
    ensures StmtsCode(Compiled(p), map[]).Some? <==> DefinedBeforeUse(p.stmts, {})
  {
    PipelineKeepsSource(p);
    StmtsCodeDefined(Compiled(p), map[]);
    var none: Vars := map[];
    assert none.Keys == {};
  }
  // ---------------------------------------------------------------------
  // The limits in the prelude

  /** The greatest stack size of a statement, 0 for none (`max().unwrap_or(0)`). */
  function MaxStackSize(ss: seq<JStmt>): (r: int)
    ensures r >= 0
    ensures forall i :: 0 <= i < |ss| ==> StackSize(ss[i].e) <= r
    ensures |ss| > 0 ==> exists i :: 0 <= i < |ss| && r == StackSize(ss[i].e)
    decreases |ss|
  {
    if |ss| == 0 then 0
    else
      var rest := MaxStackSize(ss[1..]);
      assert forall i :: 1 <= i < |ss| ==> ss[i] == ss[1..][i - 1];
      assert |ss| > 1 ==> exists i :: 1 <= i < |ss| && rest == StackSize(ss[i].e);
      Max(StackSize(ss[0].e), rest)
  }

  /** `.limit stack`: at least 2, for printing. */
  function StackLimit(ss: seq<JStmt>): int
  {
    Max(2, MaxStackSize(ss))
  }

  /** The names the statements assign. */
  function JAssigned(ss: seq<JStmt>): set<string>
    decreases |ss|
  {
    if |ss| == 0 then {}
    else (if ss[0].JAssign? then {ss[0].name} else {}) + JAssigned(ss[1..])
  }

  lemma {:induction false} JAssignedAppend(a: seq<JStmt>, b: seq<JStmt>)
    ensures JAssigned(a + b) == JAssigned(a) + JAssigned(b)
    decreases |a|
  {
    if |a| == 0 {
      assert a + b == b;
    } else {
      assert (a + b)[0] == a[0] && (a + b)[1..] == a[1..] + b;
      JAssignedAppend(a[1..], b);
    }
  }

  /** `variable_count`: the number of distinct names assigned. */
  method VariableCount(ss: seq<JStmt>) returns (n: nat)
    ensures n == |JAssigned(ss)|
  {
    var names: set<string> := {};
    var i := 0;
    while i < |ss|
      invariant 0 <= i <= |ss|
      invariant names == JAssigned(ss[..i])
    {
      JAssignedAppend(ss[..i], [ss[i]]);
      assert ss[..i + 1] == ss[..i] + [ss[i]];
      if ss[i].JAssign? {
        names := names + {ss[i].name};
      }
      i := i + 1;
    }
    assert ss[..|ss|] == ss;
    n := |names|;
  }

  /** The code of an expression reaches exactly its `stack_size` and leaves one value. */
  lemma {:induction false} ExprDepth(j: JExpr, vars: Vars)
    requires ExprCode(j, vars).Some?
    ensures Peak(ExprCode(j, vars).value) == StackSize(j)
    ensures Net(ExprCode(j, vars).value) == 1
    decreases j
  {
    match j
    case JConst(v) =>
      DepthOne(PushInt(v));
    case JIdent(x) =>
      DepthOne(LoadInstr(vars, x).value);
    case JBinOp(l, op, r, rev) =>
      ExprDepth(l, vars);
      ExprDepth(r, vars);
      BinOpDepth(ExprCode(l, vars).value, ExprCode(r, vars).value, op, rev);
  }

  /** Two operands, each leaving one value, then the operator: the right operand is computed one slot higher. */
  lemma BinOpDepth(cl: seq<Instr>, cr: seq<Instr>, op: Operator, rev: bool)
    requires Net(cl) == 1 && Net(cr) == 1 && Peak(cr) >= 1
    ensures Peak(cl + (cr + OpCode(op, rev))) == Max(Peak(cl), Peak(cr) + 1)
    ensures Net(cl + (cr + OpCode(op, rev))) == 1
  {
    var oc := OpCode(op, rev);
    OpCodeDepth(op, rev);
    PeakAppend(cr, oc);
    PeakAppend(cl, cr + oc);
  }

  lemma OpCodeDepth(op: Operator, rev: bool)
    ensures Peak(OpCode(op, rev)) == 0 && Net(OpCode(op, rev)) == -1
  {
    DepthOne(OpInstr(op));
    if rev && op != Add && op != Mul {
      DepthOne(Swap);
      PeakAppend([Swap], [OpInstr(op)]);
    } else {
      assert OpCode(op, rev) == [OpInstr(op)];
    }
  }

  lemma PrintDepth()
    ensures Peak(PrintCode) == 1 && Net(PrintCode) == -1
  {
    DepthOne(GetOut);
    DepthOne(Swap);
    DepthOne(PrintInt);
    PeakAppend([Swap], [PrintInt]);
    PeakAppend([GetOut], [Swap, PrintInt]);
    assert PrintCode == [GetOut] + ([Swap] + [PrintInt]);
  }

  /** A statement needs its expression's stack, and two slots to print; it leaves the stack as it was. */
  lemma StmtDepth(s: JStmt, vars: Vars)
    requires StmtCode(s, vars).Some?
    ensures Peak(StmtCode(s, vars).value.0) <= Max(2, StackSize(s.e))
    ensures Net(StmtCode(s, vars).value.0) == 0
  {
    var c := ExprCode(s.e, vars).value;
    var tail := if s.JAssign? then [StoreInstr(WithVar(vars, s.name), s.name).value] else PrintCode;
    assert StmtCode(s, vars).value.0 == c + tail;
    ExprDepth(s.e, vars);
    TailDepth(s, vars);
    PeakAppend(c, tail);
  }

  lemma TailDepth(s: JStmt, vars: Vars)
    requires s.JAssign? ==> StoreInstr(WithVar(vars, s.name), s.name).Some?
    ensures var tail := if s.JAssign? then [StoreInstr(WithVar(vars, s.name), s.name).value] else PrintCode;
            Net(tail) == -1 && Peak(tail) <= 1 && (s.JExprStmt? ==> Peak(tail) == 1)
  {
    if s.JAssign? {
      DepthOne(StoreInstr(WithVar(vars, s.name), s.name).value);
    } else {
      PrintDepth();
    }
  }

  lemma {:induction false} StmtsDepth(ss: seq<JStmt>, vars: Vars)
    requires StmtsCode(ss, vars).Some?
    ensures Peak(StmtsCode(ss, vars).value.0) <= StackLimit(ss)
    ensures Net(StmtsCode(ss, vars).value.0) == 0
    decreases |ss|
  {
    if |ss| > 0 {
      var (c0, v0) := StmtCode(ss[0], vars).value;
      var c1 := StmtsCode(ss[1..], v0).value.0;
      assert StmtsCode(ss, vars).value.0 == c0 + c1;
      StmtDepth(ss[0], vars);
      StmtsDepth(ss[1..], v0);
      assert MaxStackSize(ss) == Max(StackSize(ss[0].e), MaxStackSize(ss[1..]));
      BalancedThen(c0, c1, Max(2, StackSize(ss[0].e)), StackLimit(ss[1..]));
    }
  }

  /** The operand stack never grows past `.limit stack`, at any point of `main`. */
  lemma StackWithinLimit(ss: seq<JStmt>)
    requires StmtsCode(ss, map[]).Some?
    ensures var code := StmtsCode(ss, map[]).value.0;
            forall k :: 0 <= k <= |code| ==> Net(code[..k]) <= StackLimit(ss)
  {
    var code := StmtsCode(ss, map[]).value.0;
    StmtsDepth(ss, map[]);
    forall k | 0 <= k <= |code|
      ensures Net(code[..k]) <= StackLimit(ss)
    {
      PeakBoundsPrefix(code, k);
    }
  }

  /** An expression touches only the slots of its names. */
  lemma {:induction false} ExprSlots(j: JExpr, vars: Vars)
    requires SlotsOk(vars) && ExprCode(j, vars).Some?
    ensures SlotsWithin(ExprCode(j, vars).value, |vars|)
    decreases j
  {
    match j
    case JConst(_) =>
    case JIdent(_) =>
    case JBinOp(l, op, r, rev) =>
      ExprSlots(l, vars);
      ExprSlots(r, vars);
      SlotsWithinAppend(ExprCode(r, vars).value, OpCode(op, rev), |vars|);
      SlotsWithinAppend(ExprCode(l, vars).value, ExprCode(r, vars).value + OpCode(op, rev), |vars|);
  }

  lemma AssignSlots(x: string, e: JExpr, vars: Vars)
    requires SlotsOk(vars) && ExprCode(e, vars).Some?
    ensures var vs := WithVar(vars, x);
            SlotsOk(vs) && vs.Keys == vars.Keys + {x} && |vars| <= |vs| &&
            SlotsWithin(ExprCode(e, vars).value + [StoreInstr(vs, x).value], |vs|)
  {
    var c := ExprCode(e, vars).value;
    var vs := WithVar(vars, x);
    ExprSlots(e, vars);
    WithVarSlots(vars, x);
    if x !in vars {
      assert |vs| == |vars| + 1;
    }
    SlotsWithinMono(c, |vars|, |vs|);
    assert SlotOf(StoreInstr(vs, x).value) == vs[x] <= |vs|;
    SlotsWithinAppend(c, [StoreInstr(vs, x).value], |vs|);
  }

  lemma StmtSlots(s: JStmt, vars: Vars)
    requires SlotsOk(vars) && StmtCode(s, vars).Some?
    ensures var (code, vs) := StmtCode(s, vars).value;
            SlotsOk(vs) && vs.Keys == vars.Keys + (if s.JAssign? then {s.name} else {}) &&
            |vars| <= |vs| && SlotsWithin(code, |vs|)
  {
    match s
    case JAssign(x, e) =>
      AssignSlots(x, e, vars);
    case JExprStmt(e) =>
      ExprSlots(e, vars);
      SlotsWithinAppend(ExprCode(e, vars).value, PrintCode, |vars|);
  }

  /** Slot facts compose: a statement, then the rest with the slots it leaves. */
  lemma SlotsThen(vars: Vars, v0: Vars, v1: Vars, c0: seq<Instr>, c1: seq<Instr>, a0: set<string>, a1: set<string>)
    requires v0.Keys == vars.Keys + a0 && v1.Keys == v0.Keys + a1
    requires |vars| <= |v0| <= |v1|
    requires SlotsWithin(c0, |v0|) && SlotsWithin(c1, |v1|)
    ensures v1.Keys == vars.Keys + (a0 + a1) && |vars| <= |v1| && SlotsWithin(c0 + c1, |v1|)
  {
    SlotsWithinMono(c0, |v0|, |v1|);
    SlotsWithinAppend(c0, c1, |v1|);
  }

  lemma {:induction false} StmtsSlots(ss: seq<JStmt>, vars: Vars)
    requires SlotsOk(vars) && StmtsCode(ss, vars).Some?
    ensures var (code, vs) := StmtsCode(ss, vars).value;
            SlotsOk(vs) && vs.Keys == vars.Keys + JAssigned(ss) && |vars| <= |vs| && SlotsWithin(code, |vs|)
    decreases |ss|
  {
    if |ss| > 0 {
      var (c0, v0) := StmtCode(ss[0], vars).value;
      var (c1, v1) := StmtsCode(ss[1..], v0).value;
      assert StmtsCode(ss, vars).value == (c0 + c1, v1);
      StmtSlots(ss[0], vars);
      StmtsSlots(ss[1..], v0);
      SlotsThen(vars, v0, v1, c0, c1, if ss[0].JAssign? then {ss[0].name} else {}, JAssigned(ss[1..]));
    }
  }

  /** Every slot the code touches is below `.limit locals`: one per assigned name, plus `main`'s argument. */
  lemma LocalsWithinLimit(ss: seq<JStmt>)
    requires StmtsCode(ss, map[]).Some?
    ensures SlotsWithin(StmtsCode(ss, map[]).value.0, |JAssigned(ss)|)
  {
    var vs := StmtsCode(ss, map[]).value.1;
    StmtsSlots(ss, map[]);
    assert vs.Keys == JAssigned(ss);
    assert |vs| == |vs.Keys|;
  }
  // ---------------------------------------------------------------------
  // The emitted text

  /** `create_prelude`: the class header, the constructor and the head of `main` with its limits. */
  function PreludeLines(className: string, stackLimit: int, localsLimit: int): seq<string>
  {
    [".class public " + className,
     ".super java/lang/Object",
     "",
     ".method public <init>()V",
     "aload_0",
     "invokenonvirtual java/lang/Object/<init>()V",
     "return",
     ".end method",
     "",
     ".method public static main([Ljava/lang/String;)V",
     ".limit stack  " + IntToString(stackLimit),
     ".limit locals " + IntToString(localsLimit)]
  }

  /** `create_end`. */
  const EndLines: seq<string> := ["return", ".end method"]

  /** The Jasmin file for a program, one string per line; None when compilation panics. */
  function ProgramLines(ss: seq<JStmt>, className: string): Option<seq<string>>
  {
    var compiled := StmtsCode(ss, map[]);
    if compiled.None? then None
    else Some(PreludeLines(className, StackLimit(ss), |JAssigned(ss)| + 1) + Texts(compiled.value.0) + EndLines)
  }

  /** Joining code is associative. */
  lemma JoinCodeAssoc(code: seq<Instr>, vars: Vars, r: Option<(seq<Instr>, Vars)>, rest: Option<(seq<Instr>, Vars)>)
    requires r.Some?
    ensures JoinCode(Some((code, vars)), JoinCode(r, rest)) == JoinCode(Some((code + r.value.0, r.value.1)), rest)
  {
    if rest.Some? {
      assert code + (r.value.0 + rest.value.0) == code + r.value.0 + rest.value.0;
    }
  }

  lemma JoinCodeEmpty(vars: Vars, r: Option<(seq<Instr>, Vars)>)
    ensures JoinCode(Some(([], vars)), r) == r
  {
    if r.Some? {
      assert [] + r.value.0 == r.value.0;
    }
  }

  lemma StmtsCodeUnfold(ss: seq<JStmt>, i: nat, vars: Vars)
    requires i < |ss|
    ensures StmtsCode(ss[i..], vars) ==
            JoinCode(StmtCode(ss[i], vars),
                     if StmtCode(ss[i], vars).Some? then StmtsCode(ss[i + 1..], StmtCode(ss[i], vars).value.1) else None)
  {
    assert ss[i..][0] == ss[i] && ss[i..][1..] == ss[i + 1..];
  }

  /** `JVMContext`: the slots given so far and the text written so far. */
  class JvmContext {
    var vars: Vars
    var out: seq<string>

    constructor()
      ensures vars == map[] && out == []
    {
      vars := map[];
      out := [];
    }

    /** Writes lines of text. */
    method Write(lines: seq<string>)
      modifies this
      ensures out == old(out) + lines && vars == old(vars)
    {
      out := out + lines;
    }

    method Emit(i: Instr)
      modifies this
      ensures out == old(out) + [InstrText(i)] && vars == old(vars)
    {
      out := out + [InstrText(i)];
    }

    /** `add_var`. */
    method AddVar(name: string)
      modifies this
      ensures vars == WithVar(old(vars), name) && out == old(out)
    {
      if name !in vars {
        var idx := |vars| + 1;
        vars := vars[name := idx];
      }
    }

    /** `load_var`; false is the panic on an unknown name. */
    method LoadVar(name: string) returns (ok: bool)
      modifies this
      ensures vars == old(vars)
      ensures ok == LoadInstr(vars, name).Some?
      ensures out == old(out) + (if ok then [InstrText(LoadInstr(vars, name).value)] else [])
    {
      if name !in vars {
        return false;
      }
      var idx := vars[name];
      if idx <= 3 {
        Emit(IloadShort(idx));
      } else {
        Emit(Iload(idx));
      }
      ok := true;
    }

    /** `store_var`, alike. */
    method StoreVar(name: string) returns (ok: bool)
      modifies this
      ensures vars == old(vars)
      ensures ok == StoreInstr(vars, name).Some?
      ensures out == old(out) + (if ok then [InstrText(StoreInstr(vars, name).value)] else [])
    {
      if name !in vars {
        return false;
      }
      var idx := vars[name];
      if idx <= 3 {
        Emit(IstoreShort(idx));
      } else {
        Emit(Istore(idx));
      }
      ok := true;
    }

    /** `Expr::compile`: writes the expression's code, or reports the panic. */
    method CompileExpr(j: JExpr) returns (ok: bool)
      modifies this
      ensures vars == old(vars)
      ensures ok == ExprCode(j, vars).Some?
      ensures ok ==> out == old(out) + Texts(ExprCode(j, vars).value)
      decreases j
    {
      match j
      case JConst(v) =>
        Emit(PushInt(v));
        TextsOne(PushInt(v));
        ok := true;
      case JIdent(x) =>
        ok := LoadVar(x);
        if ok {
          TextsOne(LoadInstr(vars, x).value);
        }
      case JBinOp(l, op, r, rev) =>
        ghost var start := out;
        ok := CompileExpr(l);
        if !ok {
          return;
        }
        ok := CompileExpr(r);
        if !ok {
          return;
        }
        CompileOp(op, rev);
        var cl := ExprCode(l, vars).value;
        var cr := ExprCode(r, vars).value;
        TextsAppend(cr, OpCode(op, rev));
        TextsAppend(cl, cr + OpCode(op, rev));
        AppendAssoc3(start, Texts(cl), Texts(cr), Texts(OpCode(op, rev)));
    }

    /** `Operator::compile`, after a `swap` when the operands of `-` or `/` were exchanged. */
    method CompileOp(op: Operator, rev: bool)
      modifies this
      ensures vars == old(vars) && out == old(out) + Texts(OpCode(op, rev))
    {
      OpCodeText(op, rev);
      if rev && op != Add && op != Mul {
        Emit(Swap);
      }
      Emit(OpInstr(op));
    }

    /** `Stmt::compile`: writes the statement's code and gives an assigned name its slot. */
    method CompileStmt(s: JStmt) returns (ok: bool)
      modifies this
      ensures ok == StmtCode(s, old(vars)).Some?
      ensures ok ==> vars == StmtCode(s, old(vars)).value.1 &&
                     out == old(out) + Texts(StmtCode(s, old(vars)).value.0)
    {
      ok := CompileExpr(s.e);
      if !ok {
        return;
      }
      var c := ExprCode(s.e, vars).value;
      ghost var afterExpr := out;
      match s
      case JAssign(x, _) =>
        AddVar(x);
        ok := StoreVar(x);
        TextsOne(StoreInstr(vars, x).value);
        TextsAppend(c, [StoreInstr(vars, x).value]);
      case JExprStmt(_) =>
        Emit(GetOut);
        Emit(Swap);
        Emit(PrintInt);
        PrintText();
        TextsAppend(c, PrintCode);
        assert out == afterExpr + Texts(PrintCode);
    }

    /** The loop of `compile` over the statements, in order; false is a panic. */
    method CompileStmts(ss: seq<JStmt>) returns (ok: bool)
      modifies this
      ensures ok == StmtsCode(ss, old(vars)).Some?
      ensures ok ==> vars == StmtsCode(ss, old(vars)).value.1 &&
                     out == old(out) + Texts(StmtsCode(ss, old(vars)).value.0)
    {
      ghost var code: seq<Instr> := [];
      var i := 0;
      assert ss[0..] == ss;
      JoinCodeEmpty(vars, StmtsCode(ss, vars));
      assert old(out) + Texts([]) == old(out);
      while i < |ss|
        invariant 0 <= i <= |ss|
        invariant StmtsCode(ss, old(vars)) == JoinCode(Some((code, vars)), StmtsCode(ss[i..], vars))
        invariant out == old(out) + Texts(code)
      {
        ghost var before := vars;
        StmtsCodeUnfold(ss, i, before);
        ok := CompileStmt(ss[i]);
        if !ok {
          return;
        }
        var c := StmtCode(ss[i], before).value.0;
        JoinCodeAssoc(code, before, StmtCode(ss[i], before), StmtsCode(ss[i + 1..], vars));
        TextsAppend(code, c);
        AppendAssoc2(old(out), Texts(code), Texts(c));
        code := code + c;
        i := i + 1;
      }
      assert StmtsCode(ss[|ss|..], vars) == Some(([], vars));
      assert code + [] == code;
      ok := true;
    }
  }

  lemma EmptyAppend<T>(s: seq<T>)
    ensures [] + s == s
  {
  }

  lemma AppendAssoc2<T>(s: seq<T>, a: seq<T>, b: seq<T>)
    ensures s + a + b == s + (a + b)
  {
  }

  lemma AppendAssoc3<T>(s: seq<T>, a: seq<T>, b: seq<T>, c: seq<T>)
    ensures s + a + b + c == s + (a + (b + c))
  {
  }

  lemma TextsOne(i: Instr)
    ensures Texts([i]) == [InstrText(i)]
  {
    assert [i][1..] == [];
  }

  lemma OpCodeText(op: Operator, rev: bool)
    ensures Texts(OpCode(op, rev)) ==
            (if rev && op != Add && op != Mul then [InstrText(Swap)] else []) + [InstrText(OpInstr(op))]
  {
    TextsOne(OpInstr(op));
    if rev && op != Add && op != Mul {
      TextsOne(Swap);
      TextsAppend([Swap], [OpInstr(op)]);
    } else {
      assert OpCode(op, rev) == [OpInstr(op)];
    }
  }

  lemma PrintText()
    ensures Texts(PrintCode) == [InstrText(GetOut), InstrText(Swap), InstrText(PrintInt)]
  {
    TextsOne(GetOut);
    TextsOne(Swap);
    TextsOne(PrintInt);
    TextsAppend([Swap], [PrintInt]);
    TextsAppend([GetOut], [Swap, PrintInt]);
    assert PrintCode == [GetOut] + [Swap, PrintInt];
  }

  /**
   * `compile`: the prelude, then every statement, then the end of `main`.
   * The text written is the program's Jasmin file, or None when a read of
   * an unassigned name panics.
   */
  method Compile(ss: seq<JStmt>, className: string) returns (r: Option<seq<string>>)
    ensures r == ProgramLines(ss, className)
  {
    var ctx := new JvmContext();
    var count := VariableCount(ss);
    var prelude := PreludeLines(className, StackLimit(ss), count + 1);
    ctx.Write(prelude);
    EmptyAppend(prelude);
    var ok := ctx.CompileStmts(ss);
    if !ok {
      return None;
    }
    ctx.Write(EndLines);
    r := Some(ctx.out);
  }
}
