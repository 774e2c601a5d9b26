/**
 * The Instant language: a program is a list of statements, each an
 * assignment `x = e` or an expression whose value is printed; expressions
 * are 32-bit constants, variables and the four arithmetic operators. The
 * `Display` implementations print a program back as source text.
 */
module InstantAst {
  import opened Decimal

  newtype i32 = x: int | -0x8000_0000 <= x < 0x8000_0000

  datatype Operator = Add | Sub | Mul | Div

  datatype Expr =
    | Const(val: i32)
    | Ident(name: string)
    | BinOp(lhs: Expr, op: Operator, rhs: Expr)

  datatype Stmt = Assign(name: string, e: Expr) | ExprStmt(e: Expr)

  datatype Program = Program(stmts: seq<Stmt>)

  /** `Display for Operator`. */
  function OpChar(op: Operator): char
  {
    match op
    case Add => '+'
    case Sub => '-'
    case Mul => '*'
    case Div => '/'
  }

  /** `Display for Expr`: constants in decimal, names verbatim, every operation in parentheses. */
  function ExprText(e: Expr): string
  {
    match e
    case Const(v) => IntToString(v as int)
    case Ident(x) => x
    case BinOp(l, op, r) => "(" + ExprText(l) + " " + [OpChar(op)] + " " + ExprText(r) + ")"
  }

  /** `Display for Stmt`. */
  function StmtText(s: Stmt): string
  {
    match s
    case Assign(x, e) => x + " = " + ExprText(e)
    case ExprStmt(e) => ExprText(e)
  }

  /** `Display for Program`: every statement followed by `;` and a newline. */
  function StmtsText(ss: seq<Stmt>): string
    decreases |ss|
  {
    if |ss| == 0 then "" else StmtText(ss[0]) + ";\n" + StmtsText(ss[1..])
  }

  function ProgramText(p: Program): string
  {
    StmtsText(p.stmts)
  }

  /** The names read by an expression, left to right. */
  function Reads(e: Expr): seq<string>
  {
    match e
    case Const(_) => []
    case Ident(x) => [x]
    case BinOp(l, _, r) => Reads(l) + Reads(r)
  }

  /** The names assigned by a list of statements. */
  function Assigned(ss: seq<Stmt>): set<string>
    decreases |ss|
  {
    if |ss| == 0 then {}
    else (if ss[0].Assign? then {ss[0].name} else {}) + Assigned(ss[1..])
  }

  /** The printed statements follow one another: the text of a list is the texts of its parts. */
  lemma {:induction false} StmtsTextAppend(a: seq<Stmt>, b: seq<Stmt>)
    ensures StmtsText(a + b) == StmtsText(a) + StmtsText(b)
    decreases |a|
  {
    if |a| == 0 {
      assert a + b == b;
    } else {
      assert (a + b)[0] == a[0] && (a + b)[1..] == a[1..] + b;
      StmtsTextAppend(a[1..], b);
    }
  }

  lemma {:induction false} AssignedAppend(a: seq<Stmt>, b: seq<Stmt>)
    ensures Assigned(a + b) == Assigned(a) + Assigned(b)
    decreases |a|
  {
    if |a| == 0 {
      assert a + b == b;
    } else {
      assert (a + b)[0] == a[0] && (a + b)[1..] == a[1..] + b;
      AssignedAppend(a[1..], b);
    }
  }

  /** A name is assigned exactly when some statement assigns it. */
  lemma {:induction false} AssignedSpec(ss: seq<Stmt>, x: string)
    ensures x in Assigned(ss) <==> exists i :: 0 <= i < |ss| && ss[i] == Assign(x, ss[i].e)
    decreases |ss|
  {
    if |ss| > 0 {
      AssignedSpec(ss[1..], x);
      if x in Assigned(ss[1..]) {
        var i :| 0 <= i < |ss[1..]| && ss[1..][i] == Assign(x, ss[1..][i].e);
        assert ss[i + 1] == Assign(x, ss[i + 1].e);
      }
      if exists i :: 0 <= i < |ss| && ss[i] == Assign(x, ss[i].e) {
        var i :| 0 <= i < |ss| && ss[i] == Assign(x, ss[i].e);
        if i > 0 {
          assert ss[1..][i - 1] == Assign(x, ss[1..][i - 1].e);
        }
      }
    }
  }
  /**
   * Every name a statement reads was assigned by an earlier statement, or
   * is in `defined` to begin with: no variable is read before it has a value.
   */
  predicate DefinedBeforeUse(ss: seq<Stmt>, defined: set<string>)
    decreases |ss|
  {
    |ss| == 0 ||
    ((forall x :: x in Reads(ss[0].e) ==> x in defined) &&
     DefinedBeforeUse(ss[1..], defined + (if ss[0].Assign? then {ss[0].name} else {})))
  }
}
