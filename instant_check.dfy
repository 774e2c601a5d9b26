/**
 * The Instant front end's check that every variable is assigned before it
 * is read (helpers.rs). As written, an assignment puts its name in the set
 * of known variables before its right-hand side is checked, so `x = x;`
 * passes the check and then makes both JVM backends panic. The corrected
 * check accepts exactly the programs the backends compile.
 */
module InstantCheck {
  import W = Wrappers
  import opened InstantAst
  import Sem = InstantSemantics
  import J = InstantJvm
  import R = RootJvm

  type VarSet = set<string>

  /** `Expr::check_vars`: the left operand before the right; the first unknown name is the error. */
  function CheckExpr(e: Expr, vars: VarSet): W.Result<(), string>
  {
    match e
    case BinOp(l, _, r) =>
      (match CheckExpr(l, vars)
       case Err(x) => W.Err(x)
       case Ok(_) => CheckExpr(r, vars))
    case Ident(x) => if x !in vars then W.Err(x) else W.Ok(())
    case Const(_) => W.Ok(())
  }

  /** `x` is the first name of `names`, left to right, that is not in `vars`. */
  predicate FirstMissing(names: seq<string>, vars: VarSet, x: string)
  {
    exists k :: 0 <= k < |names| && names[k] == x && x !in vars &&
      forall i :: 0 <= i < k ==> names[i] in vars
  }

  /** The check passes exactly when every name read is known, and otherwise reports the leftmost unknown one. */
  lemma {:induction false} CheckExprSpec(e: Expr, vars: VarSet)
    ensures CheckExpr(e, vars).Ok? <==> forall x :: x in Reads(e) ==> x in vars
    ensures CheckExpr(e, vars).Err? ==> FirstMissing(Reads(e), vars, CheckExpr(e, vars).error)
    decreases e
  {
    match e
    case Const(_) =>
    case Ident(x) =>
      if x !in vars {
        assert Reads(e)[0] == x;
      }
    case BinOp(l, _, r) =>
      CheckExprSpec(l, vars);
      CheckExprSpec(r, vars);
      var rl, rr := Reads(l), Reads(r);
      assert Reads(e) == rl + rr;
      var res := CheckExpr(e, vars);
      if CheckExpr(l, vars).Err? {
        var k :| 0 <= k < |rl| && rl[k] == res.error && res.error !in vars &&
                 forall i :: 0 <= i < k ==> rl[i] in vars;
        assert (rl + rr)[k] == rl[k];
        assert forall i :: 0 <= i < k ==> (rl + rr)[i] == rl[i];
      } else if res.Err? {
        var k :| 0 <= k < |rr| && rr[k] == res.error && res.error !in vars &&
                 forall i :: 0 <= i < k ==> rr[i] in vars;
        var n := |rl| + k;
        assert (rl + rr)[n] == rr[k];
        forall i | 0 <= i < n
          ensures (rl + rr)[i] in vars
        {
          if i < |rl| {
            assert (rl + rr)[i] == rl[i] && rl[i] in Reads(l);
          } else {
            assert (rl + rr)[i] == rr[i - |rl|];
          }
        }
      }
  }

  /**
   * `Stmt::check_vars` as written: an assignment's name joins the set
   * before its right-hand side is checked. Returns the outcome and the set
   * afterwards.
   */
  function CheckStmt(s: Stmt, vars: VarSet): (W.Result<(), string>, VarSet)
  {
    match s
    case Assign(x, e) => (CheckExpr(e, vars + {x}), vars + {x})
    case ExprStmt(e) => (CheckExpr(e, vars), vars)
  }

  /** `Program::check_vars`: the statements in order, stopping at the first error. */
  function CheckStmts(ss: seq<Stmt>, vars: VarSet): W.Result<(), string>
    decreases |ss|
  {
    if |ss| == 0 then W.Ok(())
    else
      var (r, v) := CheckStmt(ss[0], vars);
      if r.Err? then r else CheckStmts(ss[1..], v)
  }

  /** `check_vars`, from no known names. */
  method CheckVars(p: Program) returns (r: W.Result<(), string>)
    ensures r == CheckStmts(p.stmts, {})
  {
    var vars: VarSet := {};
    var i := 0;
    while i < |p.stmts|
      invariant 0 <= i <= |p.stmts|
      invariant CheckStmts(p.stmts, {}) == CheckStmts(p.stmts[i..], vars)
    {
      assert p.stmts[i..][0] == p.stmts[i] && p.stmts[i..][1..] == p.stmts[i + 1..];
      var s := p.stmts[i];
      if s.Assign? {
        vars := vars + {s.name};
      }
      var res := CheckExpr(s.e, vars);
      if res.Err? {
        return res;
      }
      i := i + 1;
    }
    return W.Ok(());
  }

  /** What the check as written demands: each statement reads only names known before it or the one it assigns. */
  predicate DefinedThroughUse(ss: seq<Stmt>, defined: VarSet)
    decreases |ss|
  {
    |ss| == 0 ||
    (var known := defined + (if ss[0].Assign? then {ss[0].name} else {});
     (forall x :: x in Reads(ss[0].e) ==> x in known) && DefinedThroughUse(ss[1..], known))
  }

  lemma {:induction false} CheckStmtsSpec(ss: seq<Stmt>, vars: VarSet)
    ensures CheckStmts(ss, vars).Ok? <==> DefinedThroughUse(ss, vars)
    decreases |ss|
  {
    if |ss| > 0 {
      var v := CheckStmt(ss[0], vars).1;
      assert v == vars + (if ss[0].Assign? then {ss[0].name} else {});
      CheckExprSpec(ss[0].e, v);
      CheckStmtsSpec(ss[1..], v);
    }
  }

  /** The check as written accepts every program that assigns before it reads, and more. */
  lemma {:induction false} DefinedBeforeUseIsStricter(ss: seq<Stmt>, d: VarSet, d1: VarSet)
    requires DefinedBeforeUse(ss, d) && d <= d1
    ensures DefinedThroughUse(ss, d1)
    decreases |ss|
  {
    if |ss| > 0 {
      var added := if ss[0].Assign? then {ss[0].name} else {};
      DefinedBeforeUseIsStricter(ss[1..], d + added, d1 + added);
    }
  }

  /** The corrected statement check: the right-hand side first, then the name joins the set. */
  function CheckStmtFixed(s: Stmt, vars: VarSet): (W.Result<(), string>, VarSet)
  {
    match s
    case Assign(x, e) => (CheckExpr(e, vars), vars + {x})
    case ExprStmt(e) => (CheckExpr(e, vars), vars)
  }

  function CheckStmtsFixed(ss: seq<Stmt>, vars: VarSet): W.Result<(), string>
    decreases |ss|
  {
    if |ss| == 0 then W.Ok(())
    else
      var (r, v) := CheckStmtFixed(ss[0], vars);
      if r.Err? then r else CheckStmtsFixed(ss[1..], v)
  }

  lemma {:induction false} CheckStmtsFixedSpec(ss: seq<Stmt>, vars: VarSet)
    ensures CheckStmtsFixed(ss, vars).Ok? <==> DefinedBeforeUse(ss, vars)
    decreases |ss|
  {
    if |ss| > 0 {
      var v := CheckStmtFixed(ss[0], vars).1;
      assert v == vars + (if ss[0].Assign? then {ss[0].name} else {});
      CheckExprSpec(ss[0].e, vars);
      CheckStmtsFixedSpec(ss[1..], v);
    }
  }

  /**
   * The corrected check passes exactly the programs both backends compile
   * without a panic, and for those the newer backend's code prints what the
   * program means.
   */
  lemma FixedCheckMatchesBackends(p: Program)
    ensures CheckStmtsFixed(p.stmts, {}).Ok? <==> J.StmtsCode(J.Compiled(p), map[]).Some?
    ensures CheckStmtsFixed(p.stmts, {}).Ok? <==> R.StmtsCode(R.OptimizeAll(p.stmts), map[]).Some?
  {
    CheckStmtsFixedSpec(p.stmts, {});
    J.NoPanic(p);
    R.NoPanic(p);
  }

  /** The check as written passes `x = x;`, which has no meaning and makes both backends panic. */
  lemma SelfReadPasses()
    ensures var p := Program([Assign("x", Ident("x"))]);
            CheckStmts(p.stmts, {}).Ok? && CheckStmtsFixed(p.stmts, {}) == W.Err("x") &&
            Sem.Run(p).None? &&
            J.StmtsCode(J.Compiled(p), map[]).None? &&
            R.StmtsCode(R.OptimizeAll(p.stmts), map[]).None?
  {
    var p := Program([Assign("x", Ident("x"))]);
    assert Reads(Ident("x")) == ["x"];
    assert !DefinedBeforeUse(p.stmts, {});
    J.NoPanic(p);
    R.NoPanic(p);
    var none: VarSet := {};
    assert CheckStmt(p.stmts[0], none).0 == W.Ok(());
    assert p.stmts[1..] == [];
  }
}
