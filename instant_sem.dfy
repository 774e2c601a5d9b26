/**
 * What an Instant program means: statements run in order, an assignment
 * binds its name to the value of its expression, an expression statement
 * prints its value. Arithmetic is the JVM's 32-bit arithmetic; reading an
 * unassigned name or dividing by zero has no value.
 */
module InstantSemantics {
  import opened Wrappers
  import opened InstantAst
  import opened Jasmin

  type Env = map<string, i32>

  function Eval(e: Expr, env: Env): Option<i32>
  {
    match e
    case Const(v) => Some(v)
    case Ident(x) => if x in env then Some(env[x]) else None
    case BinOp(l, op, r) =>
      match Eval(l, env)
      case None => None
      case Some(a) =>
        match Eval(r, env)
        case None => None
        case Some(b) => ApplyOp(op, a, b)
  }

  /** One statement: the new bindings and the values it prints. */
  function RunStmt(s: Stmt, env: Env): Option<(Env, seq<i32>)>
  {
    match s
    case Assign(x, e) =>
      (match Eval(e, env)
       case None => None
       case Some(v) => Some((env[x := v], [])))
    case ExprStmt(e) =>
      (match Eval(e, env)
       case None => None
       case Some(v) => Some((env, [v])))
  }

  /** A first run followed by a second: the later bindings and both outputs, in order. */
  function Then(r0: Option<(Env, seq<i32>)>, r1: Option<(Env, seq<i32>)>): Option<(Env, seq<i32>)>
  {
    match r0
    case None => None
    case Some((_, out0)) =>
      match r1
      case None => None
      case Some((env1, out1)) => Some((env1, out0 + out1))
  }

  /** The statements in order, each from the bindings the one before leaves: the final bindings and everything printed. */
  function RunStmts(ss: seq<Stmt>, env: Env): Option<(Env, seq<i32>)>
    decreases |ss|
  {
    if |ss| == 0 then Some((env, []))
    else
      var r0 := RunStmt(ss[0], env);
      Then(r0, if r0.Some? then RunStmts(ss[1..], r0.value.0) else None)
  }

  /** A program's output, from no bindings. */
  function Run(p: Program): Option<seq<i32>>
  {
    match RunStmts(p.stmts, map[])
    case None => None
    case Some((_, out)) => Some(out)
  }

  /** An expression has a value only if every name it reads is bound. */
  lemma {:induction false} EvalNeedsNames(e: Expr, env: Env)
    requires Eval(e, env).Some?
    ensures forall i :: 0 <= i < |Reads(e)| ==> Reads(e)[i] in env
    decreases e
  {
    match e
    case Const(_) =>
    case Ident(_) =>
    case BinOp(l, _, r) =>
      EvalNeedsNames(l, env);
      EvalNeedsNames(r, env);
      forall i | 0 <= i < |Reads(e)|
        ensures Reads(e)[i] in env
      {
        if i >= |Reads(l)| {
          assert Reads(e)[i] == Reads(r)[i - |Reads(l)|];
        }
      }
  }
}
