/**
 * Return-path analysis: `HasReturn` for statements, statement lists and
 * functions, and the pass that rejects the first function or method
 * that may end without returning a value.
 */
module ReturnCheck {
  import opened Wrappers
  import opened LatteAst

  /** `Stmt::has_return`. */
  predicate StmtReturns(s: Stmt)
    decreases s, 1
  {
    match s
    case SReturn => true
    case SReturnE(_) => true
    case SBlock(ss) => StmtsReturn(ss)
    case SIfElse(_, a, b) => StmtReturns(a) && StmtReturns(b)
    case _ => false
  }

  /** `Vec<Stmt>::has_return`: some statement of the list returns. */
  predicate StmtsReturn(ss: seq<Stmt>)
    decreases ss, 0
  {
    |ss| > 0 && (StmtReturns(ss[0]) || StmtsReturn(ss[1..]))
  }

  /** `Func::has_return`: void functions need no return statement. */
  predicate FuncReturns(f: Func)
  {
    f.retType == TVoid || StmtsReturn(f.body)
  }

  /**
   * Reference definition: control may reach the end of `s` when nothing
   * is known about conditions, so either branch may be taken and a loop
   * may run any number of times, including zero.
   */
  predicate MayFallThrough(s: Stmt)
    decreases s, 1
  {
    match s
    case SReturn => false
    case SReturnE(_) => false
    case SBlock(ss) => AllMayFallThrough(ss)
    case SIfElse(_, a, b) => MayFallThrough(a) || MayFallThrough(b)
    case _ => true
  }

  /** Control may pass through every statement of a sequence. */
  predicate AllMayFallThrough(ss: seq<Stmt>)
    decreases ss, 0
  {
    forall i :: 0 <= i < |ss| ==> MayFallThrough(ss[i])
  }

  /** A statement returns exactly when no path falls through it. */
  lemma {:induction false} StmtReturnsIffNoFallThrough(s: Stmt)
    ensures StmtReturns(s) <==> !MayFallThrough(s)
    decreases s, 1
  {
    match s
    case SBlock(ss) => StmtsReturnIffNoFallThrough(ss);
    case SIfElse(_, a, b) =>
      StmtReturnsIffNoFallThrough(a);
      StmtReturnsIffNoFallThrough(b);
    case _ =>
  }

  /** A list returns exactly when some statement of it stops every path. */
  lemma {:induction false} StmtsReturnIffNoFallThrough(ss: seq<Stmt>)
    ensures StmtsReturn(ss) <==> !AllMayFallThrough(ss)
    decreases ss, 0
  {
    if |ss| > 0 {
      StmtReturnsIffNoFallThrough(ss[0]);
      StmtsReturnIffNoFallThrough(ss[1..]);
      assert forall i :: 1 <= i < |ss| ==> ss[1..][i - 1] == ss[i];
    }
  }

  /** A list returns exactly when one of its statements returns. */
  lemma {:induction false} StmtsReturnIffSome(ss: seq<Stmt>)
    ensures StmtsReturn(ss) <==> exists i :: 0 <= i < |ss| && StmtReturns(ss[i])
  {
    if |ss| > 0 {
      StmtsReturnIffSome(ss[1..]);
      if StmtsReturn(ss[1..]) {
        var i :| 0 <= i < |ss[1..]| && StmtReturns(ss[1..][i]);
        assert StmtReturns(ss[i + 1]);
      }
      if exists i :: 0 <= i < |ss| && StmtReturns(ss[i]) {
        var i :| 0 <= i < |ss| && StmtReturns(ss[i]);
        if i > 0 {
          assert StmtReturns(ss[1..][i - 1]);
        }
      }
    }
  }

  /** `ReturnError`: the offending function, and its class for a method. */
  datatype ReturnError = ReturnError(cls: Option<Ident>, func: Ident)

  /** The first method of a class that may end without returning. */
  function CheckMethods(cname: Ident, ms: seq<Func>): (r: Result<(), ReturnError>)
  {
    if |ms| == 0 then Ok(())
    else if !FuncReturns(ms[0]) then Err(ReturnError(Some(cname), ms[0].ident))
    else CheckMethods(cname, ms[1..])
  }

  /** One definition: a function, or every method of a class. */
  function CheckDef(d: Def): Result<(), ReturnError>
  {
    match d
    case DFunc(f) => if FuncReturns(f) then Ok(()) else Err(ReturnError(None, f.ident))
    case DClass(c) => CheckMethods(c.name, c.methods)
  }

  /** `return_check::run` over a list of definitions, stopping at the first error. */
  function CheckDefs(defs: seq<Def>): Result<(), ReturnError>
  {
    if |defs| == 0 then Ok(())
    else if CheckDef(defs[0]).Err? then CheckDef(defs[0])
    else CheckDefs(defs[1..])
  }

  /** `return_check::run`. */
  function Run(p: Program): Result<(), ReturnError>
  {
    CheckDefs(p.defs)
  }

  /** Every routine the pass inspects: top-level functions and all methods. */
  predicate AllReturn(defs: seq<Def>)
  {
    forall i :: 0 <= i < |defs| ==>
      match defs[i]
      case DFunc(f) => FuncReturns(f)
      case DClass(c) => forall j :: 0 <= j < |c.methods| ==> FuncReturns(c.methods[j])
  }

  /** A class passes exactly when all its methods return; otherwise the first offender is named. */
  lemma {:induction false} CheckMethodsSpec(cname: Ident, ms: seq<Func>)
    ensures CheckMethods(cname, ms).Ok? <==> forall j :: 0 <= j < |ms| ==> FuncReturns(ms[j])
    ensures CheckMethods(cname, ms).Err? ==>
      exists j :: 0 <= j < |ms| && !FuncReturns(ms[j])
        && (forall k :: 0 <= k < j ==> FuncReturns(ms[k]))
        && CheckMethods(cname, ms).error == ReturnError(Some(cname), ms[j].ident)
  {
    if |ms| > 0 && FuncReturns(ms[0]) {
      CheckMethodsSpec(cname, ms[1..]);
      assert forall j :: 1 <= j < |ms| ==> ms[1..][j - 1] == ms[j];
      if CheckMethods(cname, ms).Err? {
        var j :| 0 <= j < |ms[1..]| && !FuncReturns(ms[1..][j])
          && (forall k :: 0 <= k < j ==> FuncReturns(ms[1..][k]))
          && CheckMethods(cname, ms[1..]).error == ReturnError(Some(cname), ms[1..][j].ident);
        assert forall k :: 0 <= k < j + 1 ==> FuncReturns(ms[k]) by {
          forall k | 0 <= k < j + 1 ensures FuncReturns(ms[k]) {
            if k > 0 { assert ms[k] == ms[1..][k - 1]; }
          }
        }
      }
    }
  }

  /** The pass succeeds exactly when every function and every method returns on all paths. */
  lemma {:induction false} RunOkIff(defs: seq<Def>)
    ensures CheckDefs(defs).Ok? <==> AllReturn(defs)
  {
    if |defs| > 0 {
      RunOkIff(defs[1..]);
      match defs[0]
      case DFunc(f) =>
      case DClass(c) => CheckMethodsSpec(c.name, c.methods);
      assert forall i :: 1 <= i < |defs| ==> defs[1..][i - 1] == defs[i];
    }
  }

  /**
   * A failure reports the first offending definition in program order, and
   * only a method error names a class.
   */
  lemma {:induction false} RunReportsFirst(defs: seq<Def>)
    requires CheckDefs(defs).Err?
    ensures exists i :: (0 <= i < |defs| && AllReturn(defs[..i])
      && CheckDef(defs[i]).Err? && CheckDefs(defs) == CheckDef(defs[i]))
    ensures CheckDefs(defs).error.cls.Some? <==>
      exists i :: (0 <= i < |defs| && defs[i].DClass? && CheckDefs(defs) == CheckDef(defs[i]))
  {
    if CheckDef(defs[0]).Err? {
      assert AllReturn(defs[..0]);
      if defs[0].DClass? {
        CheckMethodsSpec(defs[0].c.name, defs[0].c.methods);
      } else {
        forall i | 0 <= i < |defs| && defs[i].DClass? && CheckDefs(defs) == CheckDef(defs[i])
          ensures false
        {
          var c := defs[i].c;
          CheckMethodsSpec(c.name, c.methods);
        }
      }
    } else {
      RunReportsFirst(defs[1..]);
      var i :| 0 <= i < |defs[1..]| && AllReturn(defs[1..][..i])
        && CheckDef(defs[1..][i]).Err? && CheckDefs(defs[1..]) == CheckDef(defs[1..][i]);
      RunOkIff([defs[0]]);
      assert defs[..i + 1] == [defs[0]] + defs[1..][..i];
      assert AllReturn(defs[..i + 1]);
      assert defs[i + 1] == defs[1..][i];
      if CheckDefs(defs).error.cls.Some? {
        assert defs[1..][i].DClass?;
      } else {
        forall k | 0 <= k < |defs| && defs[k].DClass? && CheckDefs(defs) == CheckDef(defs[k])
          ensures false
        {
          var c := defs[k].c;
          CheckMethodsSpec(c.name, c.methods);
        }
      }
    }
  }
}
