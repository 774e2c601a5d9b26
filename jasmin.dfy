/**
 * The Jasmin instructions both Instant JVM backends emit, the text of
 * each, and what the JVM does with them (section 6.5 of The Java Virtual
 * Machine Specification): `iconst_<i>`, `bipush`, `ldc`, `iload`,
 * `istore`, 32-bit `iadd`/`isub`/`imul`/`idiv`, `swap`, and printing an
 * int through `System.out`.
 */
module Jasmin {
  import opened Wrappers
  import opened Decimal
  import opened InstantAst

  datatype Instr =
    | Iconst(n: i32)
    | Bipush(n: i32)
    | Ldc(n: i32)
    | IloadShort(slot: nat)
    | Iload(slot: nat)
    | IstoreShort(slot: nat)
    | Istore(slot: nat)
    | Iadd | Isub | Imul | Idiv
    | Swap
    | GetOut
    | PrintInt

  /** The line of Jasmin source for an instruction. */
  function InstrText(i: Instr): string
  {
    match i
    case Iconst(n) => "iconst_" + IntToString(n as int)
    case Bipush(n) => "bipush " + IntToString(n as int)
    case Ldc(n) => "ldc " + IntToString(n as int)
    case IloadShort(s) => "iload_" + NatToString(s)
    case Iload(s) => "iload " + NatToString(s)
    case IstoreShort(s) => "istore_" + NatToString(s)
    case Istore(s) => "istore " + NatToString(s)
    case Iadd => "iadd"
    case Isub => "isub"
    case Imul => "imul"
    case Idiv => "idiv"
    case Swap => "swap"
    case GetOut => "getstatic java/lang/System/out Ljava/io/PrintStream;"
    case PrintInt => "invokevirtual java/io/PrintStream/println(I)V"
  }

  function Texts(code: seq<Instr>): (r: seq<string>)
    ensures |r| == |code|
    decreases |code|
  {
    if |code| == 0 then [] else [InstrText(code[0])] + Texts(code[1..])
  }

  /**
   * The operand limits of the JVM's short and byte forms: `iconst_<i>`
   * exists for -1 to 5, `bipush` takes a signed byte, and `iload_<n>` and
   * `istore_<n>` exist for slots 0 to 3.
   */
  predicate Encodable(i: Instr)
  {
    match i
    case Iconst(n) => -1 <= n <= 5
    case Bipush(n) => -128 <= n <= 127
    case IloadShort(s) => s <= 3
    case IstoreShort(s) => s <= 3
    case _ => true
  }

  /** The instruction of an operator. */
  function OpInstr(op: Operator): Instr
  {
    match op
    case Add => Iadd
    case Sub => Isub
    case Mul => Imul
    case Div => Idiv
  }

  // ---------------------------------------------------------------------
  // 32-bit arithmetic

  /** The low 32 bits, as a signed value. */
  function Wrap(x: int): i32
  {
    ((x + 0x8000_0000) % 0x1_0000_0000 - 0x8000_0000) as i32
  }

  /** Division rounding towards zero. */
  function TruncDiv(a: int, b: int): int
    requires b != 0
  {
    var q := (if a < 0 then -a else a) / (if b < 0 then -b else b);
    if (a < 0) != (b < 0) then -q else q
  }

  /** An operator on two ints; None is the `ArithmeticException` of a division by zero. */
  function ApplyOp(op: Operator, a: i32, b: i32): Option<i32>
  {
    match op
    case Add => Some(Wrap(a as int + b as int))
    case Sub => Some(Wrap(a as int - b as int))
    case Mul => Some(Wrap(a as int * b as int))
    case Div => if b == 0 then None else Some(Wrap(TruncDiv(a as int, b as int)))
  }

  /** Wrapped addition and multiplication do not depend on the order of the operands. */
  lemma Commutes(op: Operator, a: i32, b: i32)
    requires op == Add || op == Mul
    ensures ApplyOp(op, a, b) == ApplyOp(op, b, a)
  {
    if op == Mul {
      assert a as int * b as int == b as int * a as int;
    }
  }

  // ---------------------------------------------------------------------
  // The machine

  /** An operand or local: an int, the `System.out` stream, or `main`'s argument array. */
  datatype Value = IntV(v: i32) | Stream | Args

  datatype Frame = Frame(stack: seq<Value>, locals: map<nat, Value>, printed: seq<i32>)

  /** The frame `main` starts in: an empty stack and the argument array in slot 0. */
  function Entry(): Frame
  {
    Frame([], map[0 := Args], [])
  }

  function Push(f: Frame, v: Value): Frame
  {
    f.(stack := f.stack + [v])
  }

  /** One instruction; None is a fault (a verify error or an exception). */
  function Step(i: Instr, f: Frame): Option<Frame>
  {
    var st := f.stack;
    match i
    case Iconst(n) => Some(Push(f, IntV(n)))
    case Bipush(n) => Some(Push(f, IntV(n)))
    case Ldc(n) => Some(Push(f, IntV(n)))
    case IloadShort(s) => if s in f.locals && f.locals[s].IntV? then Some(Push(f, f.locals[s])) else None
    case Iload(s) => if s in f.locals && f.locals[s].IntV? then Some(Push(f, f.locals[s])) else None
    case IstoreShort(s) =>
      if |st| >= 1 && st[|st| - 1].IntV? then Some(f.(stack := st[..|st| - 1], locals := f.locals[s := st[|st| - 1]]))
      else None
    case Istore(s) =>
      if |st| >= 1 && st[|st| - 1].IntV? then Some(f.(stack := st[..|st| - 1], locals := f.locals[s := st[|st| - 1]]))
      else None
    case Swap =>
      if |st| >= 2 then Some(f.(stack := st[..|st| - 2] + [st[|st| - 1], st[|st| - 2]])) else None
    case GetOut => Some(Push(f, Stream))
    case PrintInt =>
      if |st| >= 2 && st[|st| - 1].IntV? && st[|st| - 2] == Stream
      then Some(f.(stack := st[..|st| - 2], printed := f.printed + [st[|st| - 1].v]))
      else None
    case _ =>
      var op := if i == Iadd then Add else if i == Isub then Sub else if i == Imul then Mul else Div;
      if |st| >= 2 && st[|st| - 2].IntV? && st[|st| - 1].IntV? then
        match ApplyOp(op, st[|st| - 2].v, st[|st| - 1].v)
        case None => None
        case Some(r) => Some(f.(stack := st[..|st| - 2] + [IntV(r)]))
      else None
  }

  function Exec(code: seq<Instr>, f: Frame): Option<Frame>
    decreases |code|
  {
    if |code| == 0 then Some(f)
    else
      match Step(code[0], f)
      case None => None
      case Some(g) => Exec(code[1..], g)
  }

  /** Running two pieces of code is running the first, then the second from where it left off. */
  lemma {:induction false} ExecAppend(a: seq<Instr>, b: seq<Instr>, f: Frame)
    ensures Exec(a + b, f) == match Exec(a, f) case None => None case Some(g) => Exec(b, g)
    decreases |a|
  {
    if |a| == 0 {
      assert a + b == b;
    } else {
      assert (a + b)[0] == a[0] && (a + b)[1..] == a[1..] + b;
      match Step(a[0], f)
      case None =>
      case Some(g) => ExecAppend(a[1..], b, g);
    }
  }

  /** An operator applied to the two ints on top of the stack. */
  lemma ExecOp(op: Operator, f: Frame, a: i32, b: i32)
    ensures Exec([OpInstr(op)], Push(Push(f, IntV(a)), IntV(b))) ==
            match ApplyOp(op, a, b) case None => None case Some(r) => Some(Push(f, IntV(r)))
  {
    var g := Push(Push(f, IntV(a)), IntV(b));
    assert g.stack[..|g.stack| - 2] == f.stack;
    assert [OpInstr(op)][1..] == [];
  }

  /** `swap` and then an operator: the operator sees the two ints in the other order. */
  lemma ExecSwapOp(op: Operator, f: Frame, a: i32, b: i32)
    ensures Exec([Swap, OpInstr(op)], Push(Push(f, IntV(a)), IntV(b))) ==
            match ApplyOp(op, b, a) case None => None case Some(r) => Some(Push(f, IntV(r)))
  {
    var g := Push(Push(f, IntV(a)), IntV(b));
    var h := Push(Push(f, IntV(b)), IntV(a));
    assert g.stack == f.stack + [IntV(a), IntV(b)];
    assert g.stack[..|g.stack| - 2] == f.stack;
    assert g.stack[..|g.stack| - 2] + [g.stack[|g.stack| - 1], g.stack[|g.stack| - 2]] == h.stack;
    assert Step(Swap, g) == Some(h);
    assert [Swap, OpInstr(op)][1..] == [OpInstr(op)];
    ExecOp(op, f, b, a);
  }

  // ---------------------------------------------------------------------
  // Stack depth

  /** How an instruction changes the depth of the operand stack. */
  function Delta(i: Instr): int
  {
    match i
    case Iconst(_) => 1
    case Bipush(_) => 1
    case Ldc(_) => 1
    case IloadShort(_) => 1
    case Iload(_) => 1
    case GetOut => 1
    case Swap => 0
    case PrintInt => -2
    case _ => -1
  }

  function Net(code: seq<Instr>): int
    decreases |code|
  {
    if |code| == 0 then 0 else Delta(code[0]) + Net(code[1..])
  }

  function Max(a: int, b: int): int
  {
    if a >= b then a else b
  }

  /** The greatest depth the stack reaches above where it started, as the class verifier computes it. */
  function Peak(code: seq<Instr>): (r: int)
    ensures r >= 0
    decreases |code|
  {
    if |code| == 0 then 0 else Max(0, Delta(code[0]) + Peak(code[1..]))
  }

  lemma {:induction false} PeakAppend(a: seq<Instr>, b: seq<Instr>)
    ensures Peak(a + b) == Max(Peak(a), Net(a) + Peak(b))
    ensures Net(a + b) == Net(a) + Net(b)
    decreases |a|
  {
    if |a| == 0 {
      assert a + b == b;
    } else {
      assert (a + b)[0] == a[0] && (a + b)[1..] == a[1..] + b;
      PeakAppend(a[1..], b);
    }
  }

  /** Two stack-neutral pieces in a row stay within the larger of their bounds. */
  lemma BalancedThen(c0: seq<Instr>, c1: seq<Instr>, lim0: int, lim1: int)
    requires Peak(c0) <= lim0 && Net(c0) == 0 && Peak(c1) <= lim1 && Net(c1) == 0
    ensures Peak(c0 + c1) <= Max(lim0, lim1) && Net(c0 + c1) == 0
  {
    PeakAppend(c0, c1);
  }

  /** The depth analysis agrees with the machine: an instruction that runs changes the depth by its delta. */
  lemma StepDepth(i: Instr, f: Frame)
    requires Step(i, f).Some?
    ensures |Step(i, f).value.stack| == |f.stack| + Delta(i)
  {
  }

  lemma {:induction false} ExecDepth(code: seq<Instr>, f: Frame)
    requires Exec(code, f).Some?
    ensures |Exec(code, f).value.stack| == |f.stack| + Net(code)
    decreases |code|
  {
    if |code| > 0 {
      var g := Step(code[0], f).value;
      StepDepth(code[0], f);
      ExecDepth(code[1..], g);
    }
  }

  lemma {:induction false} TextsAppend(a: seq<Instr>, b: seq<Instr>)
    ensures Texts(a + b) == Texts(a) + Texts(b)
    decreases |a|
  {
    if |a| == 0 {
      assert a + b == b;
    } else {
      assert (a + b)[0] == a[0] && (a + b)[1..] == a[1..] + b;
      TextsAppend(a[1..], b);
    }
  }
  /** `Peak` is an upper bound on the depth after every prefix of the code. */
  lemma {:induction false} PeakBoundsPrefix(code: seq<Instr>, k: nat)
    requires k <= |code|
    ensures Net(code[..k]) <= Peak(code)
    decreases |code|
  {
    if k > 0 {
      assert code[..k][0] == code[0] && code[..k][1..] == code[1..][..k - 1];
      PeakBoundsPrefix(code[1..], k - 1);
    }
  }

  // ---------------------------------------------------------------------
  // Local variable slots

  /** The local slot an instruction reads or writes; 0 for the others. */
  function SlotOf(i: Instr): nat
  {
    match i
    case IloadShort(s) => s
    case Iload(s) => s
    case IstoreShort(s) => s
    case Istore(s) => s
    case _ => 0
  }

  /** No instruction touches a slot above `n`. */
  predicate SlotsWithin(code: seq<Instr>, n: nat)
  {
    forall i :: 0 <= i < |code| ==> SlotOf(code[i]) <= n
  }

  lemma SlotsWithinAppend(a: seq<Instr>, b: seq<Instr>, n: nat)
    requires SlotsWithin(a, n) && SlotsWithin(b, n)
    ensures SlotsWithin(a + b, n)
  {
    forall i | 0 <= i < |a + b|
      ensures SlotOf((a + b)[i]) <= n
    {
      if i >= |a| {
        assert (a + b)[i] == b[i - |a|];
      }
    }
  }

  lemma SlotsWithinMono(code: seq<Instr>, n: nat, m: nat)
    requires SlotsWithin(code, n) && n <= m
    ensures SlotsWithin(code, m)
  {
  }

  /** The depth of a single instruction. */
  lemma DepthOne(i: Instr)
    ensures Peak([i]) == Max(0, Delta(i)) && Net([i]) == Delta(i)
  {
    assert [i][1..] == [];
  }
}
