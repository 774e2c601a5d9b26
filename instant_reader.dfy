/**
 * A reader for the text the Instant printer produces: the printed form is
 * fully parenthesised, so it reads back without precedence rules. Reading
 * the printed text gives back the program, which pins down what the
 * printer emits: nothing lost, nothing ambiguous.
 */
module InstantReader {
  import opened Wrappers
  import opened Decimal
  import opened InstantAst
  import InstantParser

  /** Every name is one the identifier scanner accepts whole. */
  predicate WellFormed(e: Expr)
  {
    match e
    case Const(_) => true
    case Ident(x) => InstantParser.ValidIdent(x)
    case BinOp(l, _, r) => WellFormed(l) && WellFormed(r)
  }

  predicate WellFormedStmt(s: Stmt)
  {
    match s
    case Assign(x, e) => InstantParser.ValidIdent(x) && WellFormed(e)
    case ExprStmt(e) => WellFormed(e)
  }

  /** Text that cannot continue a name or a number just before it. */
  predicate Boundary(t: string)
  {
    |t| == 0 || !InstantParser.IsIdentChar(t[0])
  }

  function OpOf(c: char): Option<Operator>
  {
    if c == '+' then Some(Add)
    else if c == '-' then Some(Sub)
    else if c == '*' then Some(Mul)
    else if c == '/' then Some(Div)
    else None
  }

  /** The length of the leading run of digits. */
  function DigitRun(s: string): (n: nat)
    ensures n <= |s|
    decreases |s|
  {
    if |s| == 0 || !IsDigit(s[0]) then 0 else 1 + DigitRun(s[1..])
  }

  lemma {:induction false} DigitRunDigits(s: string)
    ensures forall i :: 0 <= i < DigitRun(s) ==> IsDigit(s[i])
    decreases |s|
  {
    if |s| > 0 && IsDigit(s[0]) {
      DigitRunDigits(s[1..]);
      forall i | 0 < i < DigitRun(s)
        ensures IsDigit(s[i])
      {
        assert s[i] == s[1..][i - 1];
      }
    }
  }

  /** A natural number: at least one digit, the whole run of them. */
  function ReadNat(s: string): (r: Option<(nat, string)>)
    ensures r.Some? ==> |r.value.1| < |s|
  {
    var n := DigitRun(s);
    if n == 0 then None
    else
      DigitRunDigits(s);
      Some((DigitsValue(s[..n]), s[n..]))
  }

  function ToConst(x: int): Option<Expr>
  {
    if -0x8000_0000 <= x < 0x8000_0000 then Some(Const(x as i32)) else None
  }

  /** One expression at the start of the text, and what is left after it. */
  function ReadExpr(s: string): (r: Option<(Expr, string)>)
    ensures r.Some? ==> |r.value.1| < |s|
    decreases |s|
  {
    if |s| == 0 then None
    else if s[0] == '(' then
      (match ReadExpr(s[1..])
       case None => None
       case Some((l, t)) =>
         if |t| < 3 || t[0] != ' ' || OpOf(t[1]).None? || t[2] != ' ' then None
         else
           (match ReadExpr(t[3..])
            case None => None
            case Some((r, u)) =>
              if |u| == 0 || u[0] != ')' then None
              else Some((BinOp(l, OpOf(t[1]).value, r), u[1..]))))
    else if s[0] == '-' then
      (match ReadNat(s[1..])
       case None => None
       case Some((n, t)) => (match ToConst(-(n as int)) case None => None case Some(c) => Some((c, t))))
    else if IsDigit(s[0]) then
      (match ReadNat(s)
       case None => None
       case Some((n, t)) => (match ToConst(n) case None => None case Some(c) => Some((c, t))))
    else
      (match InstantParser.ScanIdent(s)
       case Error(_, _) => None
       case Done(t, x) => Some((Ident(x), t)))
  }

  /** One statement: a name followed by ` = ` is an assignment, anything else an expression. */
  function ReadStmt(s: string): (r: Option<(Stmt, string)>)
    ensures r.Some? ==> |r.value.1| < |s|
  {
    var id := InstantParser.ScanIdent(s);
    if id.Done? && |id.rest| >= 3 && id.rest[..3] == " = " then
      match ReadExpr(id.rest[3..])
      case None => None
      case Some((e, u)) => Some((Assign(id.out, e), u))
    else
      match ReadExpr(s)
      case None => None
      case Some((e, u)) => Some((ExprStmt(e), u))
  }

  /** Statements, each followed by `;` and a newline, up to the end of the text. */
  function ReadStmts(s: string): Option<seq<Stmt>>
    decreases |s|
  {
    if |s| == 0 then Some([])
    else
      match ReadStmt(s)
      case None => None
      case Some((st, t)) =>
        if |t| < 2 || t[0] != ';' || t[1] != '\n' then None
        else
          match ReadStmts(t[2..])
          case None => None
          case Some(rest) => Some([st] + rest)
  }

  function ReadProgram(s: string): Option<Program>
  {
    match ReadStmts(s)
    case None => None
    case Some(ss) => Some(Program(ss))
  }

  // ---------------------------------------------------------------------
  // Round trip

  /** The digits of a number followed by a non-digit read back as that number. */
  lemma ReadNatText(n: nat, t: string)
    requires Boundary(t)
    ensures ReadNat(NatToString(n) + t) == Some((n, t))
  {
    var d := NatToString(n);
    var s := d + t;
    DigitRunIs(s, |d|);
    assert s[..|d|] == d && s[|d|..] == t;
    NatToStringValue(n);
  }

  lemma {:induction false} DigitRunIs(s: string, k: nat)
    requires k <= |s|
    requires forall i :: 0 <= i < k ==> IsDigit(s[i])
    requires k < |s| ==> !IsDigit(s[k])
    ensures DigitRun(s) == k
    decreases |s|
  {
    if k > 0 {
      forall i | 0 <= i < k - 1
        ensures IsDigit(s[1..][i])
      {
        assert s[1..][i] == s[i + 1];
      }
      if k - 1 < |s[1..]| {
        assert s[1..][k - 1] == s[k];
      }
      DigitRunIs(s[1..], k - 1);
    }
  }

  lemma ReadConst(v: i32, t: string)
    requires Boundary(t)
    ensures ReadExpr(ExprText(Const(v)) + t) == Some((Const(v), t))
  {
    if v < 0 {
      ReadNegative(v, t);
    } else {
      var s := NatToString(v as int) + t;
      ReadNatText(v as int, t);
      assert IsDigit(s[0]);
      assert ToConst(v as int) == Some(Const(v));
    }
  }

  lemma ReadNegative(v: i32, t: string)
    requires Boundary(t) && v < 0
    ensures ReadExpr(ExprText(Const(v)) + t) == Some((Const(v), t))
  {
    var n := -(v as int);
    var d := NatToString(n) + t;
    var s := "-" + d;
    assert ExprText(Const(v)) + t == s;
    ReadNatText(n, t);
    assert s[0] == '-' && s[1..] == d;
    assert ToConst(-n) == Some(Const(v));
  }

  /** Reading the printed expression, followed by a boundary, gives the expression back. */
  lemma {:induction false} ExprRoundTrip(e: Expr, t: string)
    requires WellFormed(e) && Boundary(t)
    ensures ReadExpr(ExprText(e) + t) == Some((e, t))
    decreases e
  {
    match e
    case Const(v) => ReadConst(v, t);
    case Ident(x) =>
      InstantParser.ScanValidIdent(x, t);
    case BinOp(l, op, r) =>
      var tail := ")" + t;
      var mid := " " + [OpChar(op)] + " " + ExprText(r) + tail;
      ExprRoundTrip(l, mid);
      ExprRoundTrip(r, tail);
      ReadBinOp(l, op, r, t);
  }

  /** The text of an operation splits after its opening parenthesis and after its left operand. */
  lemma BinOpText(l: Expr, op: Operator, r: Expr, t: string)
    ensures var mid := " " + [OpChar(op)] + " " + ExprText(r) + (")" + t);
            var s := ExprText(BinOp(l, op, r)) + t;
            s[0] == '(' && s[1..] == ExprText(l) + mid &&
            mid[0] == ' ' && mid[1] == OpChar(op) && mid[2] == ' ' && mid[3..] == ExprText(r) + (")" + t)
  {
    var L, c, R := ExprText(l), [OpChar(op)], ExprText(r);
    var t1 := ")" + t;
    var t2 := R + t1;
    var t3 := " " + t2;
    var t4 := c + t3;
    var t5 := " " + t4;
    Assoc((((("(" + L) + " ") + c) + " ") + R, ")", t);
    Assoc(((("(" + L) + " ") + c) + " ", R, t1);
    Assoc((("(" + L) + " ") + c, " ", t2);
    Assoc(("(" + L) + " ", c, t3);
    Assoc("(" + L, " ", t4);
    Assoc("(", L, t5);
    Assoc((" " + c) + " ", R, t1);
    Assoc(" " + c, " ", t2);
    Assoc(" ", c, t3);
  }

  lemma Assoc(a: string, b: string, c: string)
    ensures (a + b) + c == a + (b + c)
  {
  }

  /** Reading an operation, given that each operand reads back. */
  lemma ReadBinOp(l: Expr, op: Operator, r: Expr, t: string)
    requires ReadExpr(ExprText(l) + (" " + [OpChar(op)] + " " + ExprText(r) + (")" + t))) ==
             Some((l, " " + [OpChar(op)] + " " + ExprText(r) + (")" + t)))
    requires ReadExpr(ExprText(r) + (")" + t)) == Some((r, ")" + t))
    ensures ReadExpr(ExprText(BinOp(l, op, r)) + t) == Some((BinOp(l, op, r), t))
  {
    BinOpText(l, op, r, t);
    assert OpOf(OpChar(op)) == Some(op);
    var tail := ")" + t;
    assert tail[0] == ')' && tail[1..] == t;
  }

  /** An expression never begins with a name followed by ` = `. */
  lemma NotAssignment(e: Expr, t: string)
    requires WellFormed(e) && Boundary(t) && (|t| == 0 || t[0] == ';')
    ensures var s := ExprText(e) + t;
            InstantParser.ScanIdent(s).Done? ==>
              var u := InstantParser.ScanIdent(s).rest;
              !(|u| >= 3 && u[..3] == " = ")
  {
    var s := ExprText(e) + t;
    match e
    case Const(v) =>
      if v < 0 {
        assert s[0] == '-';
      } else {
        assert s[0] == NatToString(v as int)[0];
      }
    case Ident(x) =>
      InstantParser.ScanValidIdent(x, t);
    case BinOp(_, _, _) =>
      assert s[0] == '(';
  }

  lemma StmtRoundTrip(st: Stmt, t: string)
    requires WellFormedStmt(st) && |t| > 0 && t[0] == ';'
    ensures ReadStmt(StmtText(st) + t) == Some((st, t))
  {
    match st
    case Assign(x, e) =>
      var E := ExprText(e);
      var u := " = " + E + t;
      assert StmtText(st) + t == x + u;
      InstantParser.ScanValidIdent(x, u);
      assert u[..3] == " = " && u[3..] == E + t;
      ExprRoundTrip(e, t);
    case ExprStmt(e) =>
      NotAssignment(e, t);
      ExprRoundTrip(e, t);
  }

  lemma {:induction false} StmtsRoundTrip(ss: seq<Stmt>)
    requires forall i :: 0 <= i < |ss| ==> WellFormedStmt(ss[i])
    ensures ReadStmts(StmtsText(ss)) == Some(ss)
    decreases |ss|
  {
    if |ss| > 0 {
      var rest := StmtsText(ss[1..]);
      var t := ";\n" + rest;
      assert StmtsText(ss) == StmtText(ss[0]) + t;
      StmtRoundTrip(ss[0], t);
      assert t[0] == ';' && t[1] == '\n' && t[2..] == rest;
      StmtsRoundTrip(ss[1..]);
      assert [ss[0]] + ss[1..] == ss;
    }
  }

  /** `Display for Program` loses nothing: the printed program reads back as itself. */
  lemma ProgramRoundTrip(p: Program)
    requires forall i :: 0 <= i < |p.stmts| ==> WellFormedStmt(p.stmts[i])
    ensures ReadProgram(ProgramText(p)) == Some(p)
  {
    StmtsRoundTrip(p.stmts);
  }

  /** Hence distinct well-formed programs print differently. */
  lemma PrintInjective(p: Program, q: Program)
    requires forall i :: 0 <= i < |p.stmts| ==> WellFormedStmt(p.stmts[i])
    requires forall i :: 0 <= i < |q.stmts| ==> WellFormedStmt(q.stmts[i])
    requires ProgramText(p) == ProgramText(q)
    ensures p == q
  {
    ProgramRoundTrip(p);
    ProgramRoundTrip(q);
  }
}
