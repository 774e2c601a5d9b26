/**
 * Collection of the string constants a Latte program needs
 * (`collect_string_lit`): every string literal in the bodies of
 * functions and methods, and the empty string for each string variable
 * declared without an initialiser. The traversal threads one mutable
 * set through the tree.
 */
module StringLits {
  import opened LatteAst

  // ---------------------------------------------------------------------
  // What is collected

  function LitStrings(l: Lit): (r: set<string>)
    ensures r == if l.LString? then {l.s} else {}
  {
    match l
    case LString(s) => {s}
    case _ => {}
  }

  /** Literals under calls, negations and operators; names, callees and `new` contribute nothing. */
  function ExprStrings(e: Expr): set<string>
    decreases e
  {
    match e
    case ELit(l) => LitStrings(l)
    case ECall(_, args) => ExprsStrings(args)
    case ENeg(a) => ExprStrings(a)
    case ENot(a) => ExprStrings(a)
    case EBinOp(l, _, r) => ExprStrings(l) + ExprStrings(r)
    case _ => {}
  }

  function ExprsStrings(es: seq<Expr>): set<string>
    decreases es
  {
    if |es| == 0 then {} else ExprStrings(es[0]) + ExprsStrings(es[1..])
  }

  /** An initialiser's literals; a string declared without one stands for the empty string. */
  function DeclStrings(d: VarDecl): set<string>
  {
    match d
    case Init(_, _, e) => ExprStrings(e)
    case NoInit(t, _) => if t == TString then {""} else {}
  }

  function DeclsStrings(ds: seq<VarDecl>): set<string>
    decreases |ds|
  {
    if |ds| == 0 then {} else DeclStrings(ds[0]) + DeclsStrings(ds[1..])
  }

  /** Conditions, values and bodies; assignment targets, `++`, `--`, `return;` and `;` contribute nothing. */
  function StmtStrings(s: Stmt): set<string>
    decreases s
  {
    match s
    case SIf(e, b) => ExprStrings(e) + StmtStrings(b)
    case SWhile(e, b) => ExprStrings(e) + StmtStrings(b)
    case SBlock(ss) => StmtsStrings(ss)
    case SDecl(_, ds) => DeclsStrings(ds)
    case SAssign(_, e) => ExprStrings(e)
    case SReturnE(e) => ExprStrings(e)
    case SExpr(e) => ExprStrings(e)
    case SIfElse(e, a, b) => ExprStrings(e) + StmtStrings(a) + StmtStrings(b)
    case SFor(_, _, e, b) => ExprStrings(e) + StmtStrings(b)
    case _ => {}
  }

  function StmtsStrings(ss: seq<Stmt>): set<string>
    decreases ss
  {
    if |ss| == 0 then {} else StmtStrings(ss[0]) + StmtsStrings(ss[1..])
  }

  function FuncStrings(f: Func): set<string>
  {
    StmtsStrings(f.body)
  }

  /** Only the methods of a class are traversed, never its field declarations. */
  function MethodsStrings(ms: seq<Func>): set<string>
    decreases |ms|
  {
    if |ms| == 0 then {} else FuncStrings(ms[0]) + MethodsStrings(ms[1..])
  }

  function DefStrings(d: Def): set<string>
  {
    match d
    case DClass(c) => MethodsStrings(c.methods)
    case DFunc(f) => FuncStrings(f)
  }

  function DefsStrings(ds: seq<Def>): set<string>
    decreases |ds|
  {
    if |ds| == 0 then {} else DefStrings(ds[0]) + DefsStrings(ds[1..])
  }

  // ---------------------------------------------------------------------
  // The traversal

  /** The `&mut HashSet<String>` the traversal inserts into. */
  class Collector {
    var res: set<string>

    constructor ()
      ensures res == {}
    {
      res := {};
    }

    method Lit(l: Lit)
      modifies this
      ensures res == old(res) + LitStrings(l)
    {
      if l.LString? {
        res := res + {l.s};
      }
    }

    method Expr(e: Expr)
      modifies this
      ensures res == old(res) + ExprStrings(e)
      decreases e
    {
      match e {
        case ELit(l) => Lit(l);
        case ECall(_, args) => Exprs(args);
        case ENeg(a) => Expr(a);
        case ENot(a) => Expr(a);
        case EBinOp(l, _, r) =>
          Expr(l);
          Expr(r);
        case _ =>
      }
    }

    method Exprs(es: seq<Expr>)
      modifies this
      ensures res == old(res) + ExprsStrings(es)
      decreases es
    {
      var i := 0;
      while i < |es|
        invariant 0 <= i <= |es|
        invariant old(res) + ExprsStrings(es) == res + ExprsStrings(es[i..])
      {
        assert es[i..][0] == es[i] && es[i..][1..] == es[i + 1..];
        Expr(es[i]);
        i := i + 1;
      }
    }

    method Decl(d: VarDecl)
      modifies this
      ensures res == old(res) + DeclStrings(d)
    {
      if d.Init? {
        Expr(d.init);
      }
      if d.NoInit? && d.t == TString {
        res := res + {""};
      }
    }

    method Decls(ds: seq<VarDecl>)
      modifies this
      ensures res == old(res) + DeclsStrings(ds)
    {
      var i := 0;
      while i < |ds|
        invariant 0 <= i <= |ds|
        invariant old(res) + DeclsStrings(ds) == res + DeclsStrings(ds[i..])
      {
        assert ds[i..][0] == ds[i] && ds[i..][1..] == ds[i + 1..];
        Decl(ds[i]);
        i := i + 1;
      }
    }

    method Stmt(s: Stmt)
      modifies this
      ensures res == old(res) + StmtStrings(s)
      decreases s
    {
      match s {
        case SIf(e, b) =>
          Expr(e);
          Stmt(b);
        case SWhile(e, b) =>
          Expr(e);
          Stmt(b);
        case SBlock(ss) => Stmts(ss);
        case SDecl(_, ds) => Decls(ds);
        case SAssign(_, e) => Expr(e);
        case SReturnE(e) => Expr(e);
        case SExpr(e) => Expr(e);
        case SIfElse(e, a, b) =>
          Expr(e);
          Stmt(a);
          Stmt(b);
        case SFor(_, _, e, b) =>
          Expr(e);
          Stmt(b);
        case _ =>
      }
    }

    method Stmts(ss: seq<Stmt>)
      modifies this
      ensures res == old(res) + StmtsStrings(ss)
      decreases ss
    {
      var i := 0;
      while i < |ss|
        invariant 0 <= i <= |ss|
        invariant old(res) + StmtsStrings(ss) == res + StmtsStrings(ss[i..])
      {
        assert ss[i..][0] == ss[i] && ss[i..][1..] == ss[i + 1..];
        Stmt(ss[i]);
        i := i + 1;
      }
    }

    method Func(f: Func)
      modifies this
      ensures res == old(res) + FuncStrings(f)
    {
      Stmts(f.body);
    }

    method Class(c: Class)
      modifies this
      ensures res == old(res) + MethodsStrings(c.methods)
    {
      var i := 0;
      while i < |c.methods|
        invariant 0 <= i <= |c.methods|
        invariant old(res) + MethodsStrings(c.methods) == res + MethodsStrings(c.methods[i..])
      {
        assert c.methods[i..][0] == c.methods[i] && c.methods[i..][1..] == c.methods[i + 1..];
        Func(c.methods[i]);
        i := i + 1;
      }
    }

    method Def(d: Def)
      modifies this
      ensures res == old(res) + DefStrings(d)
    {
      match d {
        case DClass(c) => Class(c);
        case DFunc(f) => Func(f);
      }
    }

    method Program(p: Program)
      modifies this
      ensures res == old(res) + DefsStrings(p.defs)
    {
      var i := 0;
      while i < |p.defs|
        invariant 0 <= i <= |p.defs|
        invariant old(res) + DefsStrings(p.defs) == res + DefsStrings(p.defs[i..])
      {
        assert p.defs[i..][0] == p.defs[i] && p.defs[i..][1..] == p.defs[i + 1..];
        Def(p.defs[i]);
        i := i + 1;
      }
    }
  }

  /** `collect_string_lit`: the traversal from an empty set. */
  method CollectStringLit(p: Program) returns (res: set<string>)
    ensures res == DefsStrings(p.defs)
  {
    var c := new Collector();
    c.Program(p);
    res := c.res;
  }

  // ---------------------------------------------------------------------
  // Properties

  /** The strings of a list of definitions are those of its parts, whatever the split. */
  lemma {:induction false} DefsStringsAppend(a: seq<Def>, b: seq<Def>)
    ensures DefsStrings(a + b) == DefsStrings(a) + DefsStrings(b)
    decreases |a|
  {
    if |a| == 0 {
      assert a + b == b;
    } else {
      assert (a + b)[0] == a[0] && (a + b)[1..] == a[1..] + b;
      DefsStringsAppend(a[1..], b);
    }
  }

  /**
   * The result is a set: neither the order of the definitions nor a
   * repeated definition changes it.
   */
  lemma OrderAndRepetitionIrrelevant(a: seq<Def>, b: seq<Def>)
    ensures DefsStrings(a + b) == DefsStrings(b + a)
    ensures DefsStrings(a + a) == DefsStrings(a)
  {
    DefsStringsAppend(a, b);
    DefsStringsAppend(b, a);
    DefsStringsAppend(a, a);
  }

  /** A literal in a function's body is collected, wherever the function stands in the program. */
  lemma {:induction false} FuncStringsCollected(ds: seq<Def>, i: nat)
    requires i < |ds| && ds[i].DFunc?
    ensures FuncStrings(ds[i].f) <= DefsStrings(ds)
    decreases |ds|
  {
    if i > 0 {
      assert ds[1..][i - 1] == ds[i];
      FuncStringsCollected(ds[1..], i - 1);
    }
  }

  /** A class's field declarations never contribute: only its methods are traversed. */
  lemma FieldsIgnored(c: Class, vars: seq<Var>)
    ensures DefStrings(DClass(c)) == DefStrings(DClass(c.(vars := vars)))
  {
  }

  /** Every literal in a method body of a class is collected. */
  lemma {:induction false} MethodStringsCollected(ms: seq<Func>, i: nat)
    requires i < |ms|
    ensures FuncStrings(ms[i]) <= MethodsStrings(ms)
    decreases |ms|
  {
    if i > 0 {
      assert ms[1..][i - 1] == ms[i];
      MethodStringsCollected(ms[1..], i - 1);
    }
  }

  /** A string variable declared without an initialiser brings in the empty string; other types bring nothing. */
  lemma UninitialisedString(t: Type, x: Ident)
    ensures StmtStrings(SDecl(t, [NoInit(t, x)])) == if t == TString then {""} else {}
  {
    assert DeclsStrings([NoInit(t, x)]) == DeclStrings(NoInit(t, x)) + DeclsStrings([]);
  }
}
