/**
 * The LLVM text buffer of the Latte code generator: the lines emitted so
 * far and the counters that name registers, labels and string constants.
 */
module CodeGen {
  import opened Wrappers
  import LatteAst
  import opened CGTypes
  import opened Decimal
  import opened CodegenUtils

  /** An operand: a register, an integer constant or `null`. */
  datatype Val = Reg(n: int) | Int(x: LatteAst.i32) | Null

  /** The register a void call pretends to return. */
  const DummyReg: int := -100

  function RegName(n: int): string
  {
    "r_" + IntToString(n)
  }

  function LabelName(n: int): string
  {
    "label_" + IntToString(n)
  }

  function StrConstName(n: int): string
  {
    ".str_const_" + IntToString(n)
  }

  function ValText(v: Val): string
  {
    match v
    case Reg(n) => "%" + RegName(n)
    case Int(x) => IntToString(x as int)
    case Null => "null"
  }

  /** The body of a line assigning `rhs` to register `n`. */
  function AssignText(n: int, rhs: string): string
  {
    "%" + RegName(n) + " = " + rhs
  }

  /** The instruction of a binary operator; None is the `unreachable!()` of `!=`, `&&` and `||`. */
  function OpInstr(op: LatteAst.Operator): Option<string>
  {
    match op
    case OpAdd => Some("add")
    case OpSub => Some("sub")
    case OpMul => Some("mul")
    case OpDiv => Some("sdiv")
    case OpMod => Some("srem")
    case OpEq => Some("icmp eq")
    case OpLess => Some("icmp slt")
    case OpLessE => Some("icmp sle")
    case OpGreater => Some("icmp sgt")
    case OpGreaterE => Some("icmp sge")
    case _ => None
  }

  /** The arguments of a call, each as its type and value. */
  function ArgsText(args: seq<(Val, CGType)>): Option<string>
  {
    var ts :- UserTypes(seq(|args|, i requires 0 <= i < |args| => args[i].1));
    Some(Join(seq(|args|, i requires 0 <= i < |args| => ts[i] + " " + ValText(args[i].0)), ","))
  }

  function CallText(ret: CGType, name: string, args: seq<(Val, CGType)>): Option<string>
  {
    var r :- UserType(ret);
    var a :- ArgsText(args);
    Some("call " + r + " " + name + "(" + a + ")")
  }

  function DeclareLine(ret: CGType, name: string, args: seq<CGType>): Option<string>
  {
    var r :- UserType(ret);
    var a :- UserTypes(args);
    Some("declare " + r + " @" + name + "(" + Join(a, ",") + ")")
  }

  /** The runtime functions every module declares. */
  function InternalFunctions(): seq<(CGType, string, seq<CGType>)>
  {
    [ (StrT(), "._concatenate", [StrT(), StrT()]),
      (StrT(), "._alloc_str", []),
      (VoidT(), "._retain_str", [StrT()]),
      (VoidT(), "._release_str", [StrT()]),
      (VoidT(), "._init_str_arr", [ArrT(TString)]),
      (PtrT(), "malloc", [IntT()]) ]
  }

  predicate AllDeclarable(fs: seq<(CGType, string, seq<CGType>)>)
  {
    forall i :: 0 <= i < |fs| ==> DeclareLine(fs[i].0, fs[i].1, fs[i].2).Some?
  }

  lemma InternalFunctionsDeclarable()
    ensures AllDeclarable(InternalFunctions())
  {
    var fs := InternalFunctions();
    forall i | 0 <= i < |fs|
      ensures DeclareLine(fs[i].0, fs[i].1, fs[i].2).Some?
    {
      PointerTypes(fs[i].0);
    }
  }

  function DeclareLines(fs: seq<(CGType, string, seq<CGType>)>): seq<string>
    requires AllDeclarable(fs)
  {
    seq(|fs|, i requires 0 <= i < |fs| => DeclareLine(fs[i].0, fs[i].1, fs[i].2).value)
  }

  lemma DeclareLinesSnoc(fs: seq<(CGType, string, seq<CGType>)>, i: nat)
    requires AllDeclarable(fs) && i < |fs|
    ensures AllDeclarable(fs[..i]) && AllDeclarable(fs[..i + 1])
    ensures DeclareLines(fs[..i + 1]) == DeclareLines(fs[..i]) + [DeclareLine(fs[i].0, fs[i].1, fs[i].2).value]
  {
  }

  function Header(): seq<string>
  {
    ["%string_t = type { i32, i8*, i1 }", "", "; " + "internal functions"]
  }

  /** What a new generator holds: the string type, a blank, a comment, the declarations and a blank. */
  function Prelude(): seq<string>
  {
    InternalFunctionsDeclarable();
    Header() + DeclareLines(InternalFunctions()) + [""]
  }

  /** The call releasing a string: `@._release_str` on one `%string_t*` argument. */
  function ReleaseCall(v: Val): string
  {
    var c := CallText(VoidT(), "@._release_str", [(v, StrT())]);
    if c.Some? then c.value else ""
  }

  /** The instruction line of a release. */
  function ReleaseLine(v: Val): string
  {
    "\t" + ReleaseCall(v)
  }

  /** A load of a value of type `t` from `addr`. */
  function LoadText(t: CGType, addr: Val): Option<string>
  {
    var u :- UserType(t);
    Some("load " + u + ", " + u + "* " + ValText(addr))
  }

  /** The instruction line loading into register `n`; None for the null type, which has no user type. */
  function LoadLine(n: int, t: CGType, addr: Val): Option<string>
  {
    var l :- LoadText(t, addr);
    Some("\t" + AssignText(n, l))
  }

  /** Releasing a string is always renderable. */
  lemma ReleaseCallText(v: Val)
    ensures CallText(VoidT(), "@._release_str", [(v, StrT())]) == Some(ReleaseCall(v))
  {
    var args := [(v, StrT())];
    assert seq(|args|, i requires 0 <= i < |args| => args[i].1) == [StrT()];
    assert UserTypes([StrT()]).Some?;
  }

  /** The body of a string constant as `add_string_constant` writes it: the unpadded escapes of the UTF-8 bytes and `\00`. */
  function StringConstantBody(s: string): string
  {
    StringToHex(Utf8(s)) + "\\00"
  }

  /** `add_string_constant`'s line, declaring an array of the byte length plus one. */
  function StringConstantLine(n: int, s: string): string
  {
    ConstantDecl(n, s, StringConstantBody(s))
  }

  /** The body with two-digit escapes, as the corrected `char_to_hex` would write it. */
  function FixedStringConstantBody(s: string): string
  {
    StringToHexPadded(Utf8(s)) + "\\00"
  }

  /** The line the corrected escape would give. */
  function FixedStringConstantLine(n: int, s: string): string
  {
    ConstantDecl(n, s, FixedStringConstantBody(s))
  }

  function ConstantDecl(n: int, s: string, body: string): string
  {
    "@" + StrConstName(n) + " = private unnamed_addr constant [" + IntToString(|Utf8(s)| + 1) +
      " x i8] c\"" + body + "\""
  }

  class CodeGenerator {
    var out: seq<string>
    var lastReg: int
    var lastLabel: int
    var lastStrConst: int
    var currentLabel: int

    /** The counters only count up from zero. */
    ghost predicate Valid()
      reads this
    {
      lastReg >= 0 && lastLabel >= 0 && lastStrConst >= 0
    }

    /** `new`: the counters at zero, no current label, and the prelude emitted. */
    constructor ()
      ensures Valid()
      ensures out == Prelude() && |out| == 10
      ensures lastReg == 0 && lastLabel == 0 && lastStrConst == 0 && currentLabel == -1
    {
      out := [];
      lastReg := 0;
      lastLabel := 0;
      lastStrConst := 0;
      currentLabel := -1;
      new;
      AddLineNoIndent(Header()[0]);
      AddEmptyLine();
      AddComment("internal functions");
      var fs := InternalFunctions();
      InternalFunctionsDeclarable();
      assert out == Header();
      assert DeclareLines(fs[..0]) == [];
      var i := 0;
      while i < |fs|
        invariant 0 <= i <= |fs|
        invariant lastReg == 0 && lastLabel == 0 && lastStrConst == 0 && currentLabel == -1
        invariant out == Header() + DeclareLines(fs[..i])
      {
        DeclareLinesSnoc(fs, i);
        AddFuncDeclare(fs[i].0, fs[i].1, fs[i].2);
        i := i + 1;
      }
      AddEmptyLine();
      assert fs[..i] == fs;
    }

    method AddLine(s: string)
      modifies this
      ensures out == old(out) + ["\t" + s]
      ensures lastReg == old(lastReg) && lastLabel == old(lastLabel)
      ensures lastStrConst == old(lastStrConst) && currentLabel == old(currentLabel)
    {
      out := out + ["\t" + s];
    }

    method AddLineNoIndent(s: string)
      modifies this
      ensures out == old(out) + [s]
      ensures lastReg == old(lastReg) && lastLabel == old(lastLabel)
      ensures lastStrConst == old(lastStrConst) && currentLabel == old(currentLabel)
    {
      out := out + [s];
    }

    method AddComment(s: string)
      modifies this
      ensures out == old(out) + ["; " + s]
      ensures lastReg == old(lastReg) && lastLabel == old(lastLabel)
      ensures lastStrConst == old(lastStrConst) && currentLabel == old(currentLabel)
    {
      AddLineNoIndent("; " + s);
    }

    method AddEmptyLine()
      modifies this
      ensures out == old(out) + [""]
      ensures lastReg == old(lastReg) && lastLabel == old(lastLabel)
      ensures lastStrConst == old(lastStrConst) && currentLabel == old(currentLabel)
    {
      out := out + [""];
    }

    method AddFuncDeclare(ret: CGType, name: string, args: seq<CGType>)
      requires DeclareLine(ret, name, args).Some?
      modifies this
      ensures out == old(out) + [DeclareLine(ret, name, args).value]
      ensures lastReg == old(lastReg) && lastLabel == old(lastLabel)
      ensures lastStrConst == old(lastStrConst) && currentLabel == old(currentLabel)
    {
      AddLineNoIndent(DeclareLine(ret, name, args).value);
    }

    /** `reset`: register and label numbering start again; nothing else changes. */
    method Reset()
      requires Valid()
      modifies this
      ensures Valid()
      ensures lastReg == 0 && lastLabel == 0
      ensures out == old(out) && lastStrConst == old(lastStrConst) && currentLabel == old(currentLabel)
    {
      lastReg := 0;
      lastLabel := 0;
    }

    /** `next_reg`: a register never handed out since the last reset, and never the dummy one. */
    method NextReg() returns (r: int)
      requires Valid()
      modifies this
      ensures Valid()
      ensures r == old(lastReg) + 1 && lastReg == r && r > 0 && r != DummyReg
      ensures out == old(out) && lastLabel == old(lastLabel)
      ensures lastStrConst == old(lastStrConst) && currentLabel == old(currentLabel)
    {
      lastReg := lastReg + 1;
      r := lastReg;
    }

    /** `new_reg`: one indented line assigning `rhs` to a fresh register, which is returned. */
    method NewReg(rhs: string) returns (v: Val)
      requires Valid()
      modifies this
      ensures Valid()
      ensures lastReg == old(lastReg) + 1 && v == Reg(lastReg)
      ensures out == old(out) + ["\t" + AssignText(lastReg, rhs)]
      ensures lastLabel == old(lastLabel) && lastStrConst == old(lastStrConst)
      ensures currentLabel == old(currentLabel)
    {
      var r := NextReg();
      AddLine(AssignText(r, rhs));
      v := Reg(r);
    }

    method NextLabel() returns (l: int)
      requires Valid()
      modifies this
      ensures Valid()
      ensures l == old(lastLabel) + 1 && lastLabel == l
      ensures out == old(out) && lastReg == old(lastReg)
      ensures lastStrConst == old(lastStrConst) && currentLabel == old(currentLabel)
    {
      lastLabel := lastLabel + 1;
      l := lastLabel;
    }

    /** `add_label`: an unindented `label_N:` line, and `N` becomes the current label. */
    method AddLabel(l: int)
      modifies this
      ensures out == old(out) + [LabelName(l) + ":"] && currentLabel == l
      ensures lastReg == old(lastReg) && lastLabel == old(lastLabel) && lastStrConst == old(lastStrConst)
    {
      AddLineNoIndent(LabelName(l) + ":");
      currentLabel := l;
    }

    /**
     * `add_call`: a void call is a plain line and yields the dummy
     * register without using one; any other call assigns a fresh
     * register. None is the panic of a null type, before anything is emitted.
     */
    method AddCall(ret: CGType, name: string, args: seq<(Val, CGType)>) returns (r: Option<Val>)
      requires Valid()
      modifies this
      ensures Valid()
      ensures lastLabel == old(lastLabel) && lastStrConst == old(lastStrConst)
      ensures currentLabel == old(currentLabel)
      ensures CallText(ret, name, args).None? ==> r.None? && out == old(out) && lastReg == old(lastReg)
      ensures CallText(ret, name, args).Some? && ret == VoidT() ==>
                r == Some(Reg(DummyReg)) && lastReg == old(lastReg) &&
                out == old(out) + ["\t" + CallText(ret, name, args).value]
      ensures CallText(ret, name, args).Some? && ret != VoidT() ==>
                r == Some(Reg(old(lastReg) + 1)) && lastReg == old(lastReg) + 1 &&
                out == old(out) + ["\t" + AssignText(lastReg, CallText(ret, name, args).value)]
    {
      var text := CallText(ret, name, args);
      if text.None? {
        return None;
      }
      if ret == VoidT() {
        AddLine(text.value);
        r := Some(Reg(DummyReg));
      } else {
        var v := NewReg(text.value);
        r := Some(v);
      }
    }

    /** `add_op`: `<instr> <type> <lhs>, <rhs>` into a fresh register; None for the unreachable operators. */
    method AddOp(t: CGType, lhs: Val, op: LatteAst.Operator, rhs: Val) returns (r: Option<Val>)
      requires Valid()
      modifies this
      ensures Valid()
      ensures lastLabel == old(lastLabel) && lastStrConst == old(lastStrConst)
      ensures currentLabel == old(currentLabel)
      ensures OpInstr(op).None? || UserType(t).None? ==> r.None? && out == old(out) && lastReg == old(lastReg)
      ensures OpInstr(op).Some? && UserType(t).Some? ==>
                r == Some(Reg(old(lastReg) + 1)) && lastReg == old(lastReg) + 1 &&
                out == old(out) + ["\t" + AssignText(lastReg, OpInstr(op).value + " " +
                                   UserType(t).value + " " + ValText(lhs) + ", " + ValText(rhs))]
    {
      var instr := OpInstr(op);
      var ty := UserType(t);
      if instr.None? || ty.None? {
        return None;
      }
      var v := NewReg(instr.value + " " + ty.value + " " + ValText(lhs) + ", " + ValText(rhs));
      r := Some(v);
    }

    /** `release_string`: one void call, no register used. */
    method ReleaseString(v: Val)
      requires Valid()
      modifies this
      ensures Valid()
      ensures out == old(out) + [ReleaseLine(v)]
      ensures lastReg == old(lastReg) && lastLabel == old(lastLabel)
      ensures lastStrConst == old(lastStrConst) && currentLabel == old(currentLabel)
    {
      ReleaseCallText(v);
      var _ := AddCall(VoidT(), "@._release_str", [(v, StrT())]);
    }

    /** `add_load`: the value at `addr` in a fresh register. */
    method AddLoad(addr: Val, t: CGType) returns (v: Val)
      requires Valid() && t.t != TNull
      modifies this
      ensures Valid()
      ensures lastReg == old(lastReg) + 1 && v == Reg(lastReg)
      ensures LoadLine(lastReg, t, addr).Some? && out == old(out) + [LoadLine(lastReg, t, addr).value]
      ensures lastLabel == old(lastLabel) && lastStrConst == old(lastStrConst)
      ensures currentLabel == old(currentLabel)
    {
      PointerTypes(t);
      v := NewReg(LoadText(t, addr).value);
    }

    /** `add_string_constant`: the next constant number and one line declaring it. */
    method AddStringConstant(s: string) returns (c: int)
      requires Valid()
      modifies this
      ensures Valid()
      ensures lastStrConst == old(lastStrConst) + 1 && c == lastStrConst
      ensures out == old(out) + [StringConstantLine(c, s)]
      ensures lastReg == old(lastReg) && lastLabel == old(lastLabel) && currentLabel == old(currentLabel)
    {
      lastStrConst := lastStrConst + 1;
      c := lastStrConst;
      AddLineNoIndent(StringConstantLine(c, s));
    }
  }

  // ---------------------------------------------------------------------
  // Properties

  /** Exactly `!=`, `&&` and `||` have no instruction, and distinct operators get distinct ones. */
  lemma OpInstrSpec(a: LatteAst.Operator, b: LatteAst.Operator)
    ensures OpInstr(a).None? <==> a == LatteAst.OpNEq || a == LatteAst.OpAnd || a == LatteAst.OpOr
    ensures OpInstr(a).Some? && OpInstr(a) == OpInstr(b) ==> a == b
  {
  }

  /** Distinct registers have distinct names, so a real register never reads as the dummy one. */
  lemma RegisterNamesDistinct(a: int, b: int)
    requires a != b
    ensures RegName(a) != RegName(b)
    ensures ValText(Reg(a)) != ValText(Reg(b))
  {
    assert ValText(Reg(a))[1..] == RegName(a);
    assert ValText(Reg(b))[1..] == RegName(b);
    if RegName(a) == RegName(b) {
      assert RegName(a)[2..] == IntToString(a);
      assert RegName(b)[2..] == IntToString(b);
      IntToStringInjective(a, b);
    }
  }

  /** Distinct labels have distinct names. */
  lemma LabelNamesDistinct(a: int, b: int)
    requires a != b
    ensures LabelName(a) != LabelName(b)
  {
    if LabelName(a) == LabelName(b) {
      assert LabelName(a)[6..] == IntToString(a);
      assert LabelName(b)[6..] == IntToString(b);
      IntToStringInjective(a, b);
    }
  }

  /**
   * With the corrected escape a string constant holds exactly the
   * string's bytes and a zero byte: as many bytes as the array length it
   * declares.
   */
  lemma StringConstantHoldsString(s: string)
    ensures LlvmUnescape(Utf8(FixedStringConstantBody(s))) == Utf8(s) + [0 as byte]
    ensures |LlvmUnescape(Utf8(FixedStringConstantBody(s)))| == |Utf8(s)| + 1
  {
    var bs := Utf8(s);
    Utf8Append(StringToHexPadded(bs), "\\00");
    PaddedText(bs);
    PaddedText([0 as byte]);
    PaddedThenNul(bs);
    assert Utf8(FixedStringConstantBody(s)) == PaddedBytes(bs) + PaddedBytes([0 as byte]);
  }

  /**
   * As written, the constant for a newline does not fit its type:
   * `c"\A\00"` reads as the three bytes `\`, `A` and 0, while the line
   * declares an array of two (`[2 x i8]`); the corrected body reads as the
   * two bytes 10 and 0.
   */
  lemma NewlineConstantMisread()
    ensures StringConstantBody("\n") == "\\A\\00"
    ensures LlvmUnescape(Utf8(StringConstantBody("\n"))) == [92 as byte, 65 as byte, 0 as byte]
    ensures |Utf8("\n")| + 1 == 2
    ensures LlvmUnescape(Utf8(FixedStringConstantBody("\n"))) == [10 as byte, 0 as byte]
  {
    AsciiBytes("\n");
    assert Utf8("\n") == [10 as byte];
    NewlineEscapeMisread();
    var body := "\\A\\00";
    AsciiBytes(body);
    var bs := Utf8(body);
    assert bs == [92 as byte, 65 as byte, 92 as byte, 48 as byte, 48 as byte];
    assert LlvmUnescape(bs[2..]) == [0 as byte] + LlvmUnescape(bs[5..]);
    assert LlvmUnescape(bs[1..]) == [65 as byte] + LlvmUnescape(bs[2..]);
    assert LlvmUnescape(bs) == [92 as byte] + LlvmUnescape(bs[1..]);
    StringConstantHoldsString("\n");
    assert Utf8("\n") + [0 as byte] == [10 as byte, 0 as byte];
  }

  /** A new generator's buffer has ten lines: type, blank, comment, six declarations, blank. */
  lemma PreludeShape()
    ensures |Prelude()| == 10
    ensures Prelude()[0] == "%string_t = type { i32, i8*, i1 }" && Prelude()[1] == "" && Prelude()[9] == ""
    ensures Prelude()[2] == "; internal functions"
  {
  }
}
