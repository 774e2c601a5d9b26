/**
 * The code generator's context: variable addresses, the string values a
 * scope must release, and scopes that restore all of it on exit while
 * keeping the code emitted inside them.
 */
module CodegenContext {
  import opened Wrappers
  import opened CGTypes
  import opened CodeGen

  type Ident = string

  /** What a scope saves and restores. */
  datatype ScopeState = ScopeState(
    vars: map<Ident, (int, CGType)>,
    stringTmps: seq<Val>,
    localStringTmps: seq<Val>,
    stringVars: seq<int>,
    localStringVars: seq<int>)

  /**
   * The context operations a closure passed to `in_new_scope` is made of
   * here, a nested scope included.
   */
  datatype Action =
    | SetVar(x: Ident, addr: int, t: CGType)
    | AddStringTmp(v: Val)
    | ReleaseLocal
    | ReleaseAll
    | NewScope(body: seq<Action>)

  /** The effect of one operation on the saved part of the context. */
  function Apply(st: ScopeState, a: Action): ScopeState
  {
    match a
    case SetVar(x, addr, t) =>
      if t == StrT() then
        st.(vars := st.vars[x := (addr, t)],
            stringVars := st.stringVars + [addr],
            localStringVars := st.localStringVars + [addr])
      else st.(vars := st.vars[x := (addr, t)])
    case AddStringTmp(v) =>
      st.(stringTmps := st.stringTmps + [v], localStringTmps := st.localStringTmps + [v])
    case _ => st
  }

  function ApplyAll(st: ScopeState, acts: seq<Action>): ScopeState
    decreases |acts|
  {
    if |acts| == 0 then st else ApplyAll(Apply(st, acts[0]), acts[1..])
  }

  lemma ApplyAllSnoc(st: ScopeState, acts: seq<Action>, a: Action)
    ensures ApplyAll(st, acts + [a]) == Apply(ApplyAll(st, acts), a)
    decreases |acts|
  {
    if |acts| == 0 {
      assert acts + [a] == [a];
    } else {
      assert (acts + [a])[0] == acts[0] && (acts + [a])[1..] == acts[1..] + [a];
      ApplyAllSnoc(Apply(st, acts[0]), acts[1..], a);
    }
  }

  /** What running operations leaves: the saved state, the lines emitted and the last register used. */
  datatype Outcome = Outcome(st: ScopeState, code: seq<string>, last: int)

  /**
   * The effect of one operation, code included. A nested scope runs its
   * body with both local lists empty, keeps the code the body emitted and
   * restores the state it started from.
   */
  function Effect(st: ScopeState, last: int, a: Action): (r: Outcome)
    ensures r.st == Apply(st, a)
    ensures r.last >= last
    decreases a, 0
  {
    match a
    case SetVar(_, _, _) => Outcome(Apply(st, a), [], last)
    case AddStringTmp(_) => Outcome(Apply(st, a), [], last)
    case ReleaseLocal =>
      Outcome(st, ReleaseTmpsLines(st.localStringTmps) + ReleaseVarsLines(st.localStringVars, last),
              last + |st.localStringVars|)
    case ReleaseAll =>
      Outcome(st, ReleaseTmpsLines(st.stringTmps) + ReleaseVarsLines(st.stringVars, last),
              last + |st.stringVars|)
    case NewScope(body) =>
      var inner := EffectAll(st.(localStringTmps := [], localStringVars := []), last, body);
      Outcome(st, inner.code, inner.last)
  }

  /** The effect of a closure: its operations in order, their code concatenated. */
  function EffectAll(st: ScopeState, last: int, acts: seq<Action>): (r: Outcome)
    ensures r.st == ApplyAll(st, acts)
    ensures r.last >= last
    decreases acts, 1
  {
    if |acts| == 0 then Outcome(st, [], last)
    else
      var first := Effect(st, last, acts[0]);
      var rest := EffectAll(first.st, first.last, acts[1..]);
      Outcome(rest.st, first.code + rest.code, rest.last)
  }

  lemma {:induction false} EffectAllSnoc(st: ScopeState, last: int, acts: seq<Action>, a: Action)
    ensures EffectAll(st, last, acts + [a]).code ==
            EffectAll(st, last, acts).code + Effect(EffectAll(st, last, acts).st, EffectAll(st, last, acts).last, a).code
    ensures EffectAll(st, last, acts + [a]).last ==
            Effect(EffectAll(st, last, acts).st, EffectAll(st, last, acts).last, a).last
    decreases |acts|
  {
    if |acts| == 0 {
      assert acts + [a] == [a];
      assert [a][1..] == [];
    } else {
      assert (acts + [a])[0] == acts[0] && (acts + [a])[1..] == acts[1..] + [a];
      var first := Effect(st, last, acts[0]);
      var rest := EffectAll(first.st, first.last, acts[1..]);
      var e := Effect(rest.st, rest.last, a);
      EffectAllSnoc(first.st, first.last, acts[1..], a);
      assert EffectAll(st, last, acts) == Outcome(rest.st, first.code + rest.code, rest.last);
      assert EffectAll(st, last, acts + [a]).code == first.code + (rest.code + e.code);
      AppendAssoc(first.code, rest.code, e.code);
    }
  }

  /** The temporaries a closure registers itself, outside any nested scope. */
  function TmpsAdded(acts: seq<Action>): seq<Val>
    decreases |acts|
  {
    if |acts| == 0 then []
    else (if acts[0].AddStringTmp? then [acts[0].v] else []) + TmpsAdded(acts[1..])
  }

  /** The string variables a closure declares itself, outside any nested scope. */
  function VarsAdded(acts: seq<Action>): seq<int>
    decreases |acts|
  {
    if |acts| == 0 then []
    else (if acts[0].SetVar? && acts[0].t == StrT() then [acts[0].addr] else []) + VarsAdded(acts[1..])
  }

  /** One release line per temporary. */
  function ReleaseTmpsLines(vs: seq<Val>): (r: seq<string>)
    ensures |r| == |vs|
    decreases |vs|
  {
    if |vs| == 0 then [] else [ReleaseLine(vs[0])] + ReleaseTmpsLines(vs[1..])
  }

  /** One instruction of releasing string variables. */
  datatype ReleaseStep = LoadStr(reg: int, addr: int) | ReleaseReg(reg: int)

  function StepLine(st: ReleaseStep): string
  {
    match st
    case LoadStr(n, addr) => LoadLine(n, StrT(), Reg(addr)).value
    case ReleaseReg(n) => ReleaseLine(Reg(n))
  }

  /** The line of each element, in order. */
  function MapLines<T>(ss: seq<T>, line: T -> string): (r: seq<string>)
    ensures |r| == |ss|
  {
    seq(|ss|, i requires 0 <= i < |ss| => line(ss[i]))
  }

  function StepLines(ss: seq<ReleaseStep>): (r: seq<string>)
    ensures |r| == |ss|
  {
    MapLines(ss, StepLine)
  }

  /** Per variable, a load of its value into the next register and a release of that register. */
  function VarSteps(addrs: seq<int>, last: int): (r: seq<ReleaseStep>)
    ensures |r| == 2 * |addrs|
    decreases |addrs|
  {
    if |addrs| == 0 then []
    else [LoadStr(last + 1, addrs[0]), ReleaseReg(last + 1)] + VarSteps(addrs[1..], last + 1)
  }

  function ReleaseVarsLines(addrs: seq<int>, last: int): (r: seq<string>)
    ensures |r| == 2 * |addrs|
  {
    StepLines(VarSteps(addrs, last))
  }

  lemma MapLinesAppend<T>(a: seq<T>, b: seq<T>, line: T -> string)
    ensures MapLines(a + b, line) == MapLines(a, line) + MapLines(b, line)
  {
  }

  lemma MapLinesPair<T>(x: T, y: T, line: T -> string)
    ensures MapLines([x, y], line) == [line(x), line(y)]
  {
  }

  lemma AppendAssoc(a: seq<string>, b: seq<string>, c: seq<string>)
    ensures (a + b) + c == a + (b + c)
  {
  }

  lemma AppendPair(a: seq<string>, x: string, y: string)
    ensures (a + [x]) + [y] == a + [x, y]
  {
  }

  lemma ReleaseTmpsUnfold(vs: seq<Val>)
    requires |vs| > 0
    ensures ReleaseTmpsLines(vs) == [ReleaseLine(vs[0])] + ReleaseTmpsLines(vs[1..])
  {
  }

  lemma ReleaseVarsUnfold(addrs: seq<int>, last: int)
    requires |addrs| > 0
    ensures ReleaseVarsLines(addrs, last) ==
            [StepLine(LoadStr(last + 1, addrs[0])), StepLine(ReleaseReg(last + 1))] + ReleaseVarsLines(addrs[1..], last + 1)
  {
    var two := [LoadStr(last + 1, addrs[0]), ReleaseReg(last + 1)];
    assert VarSteps(addrs, last) == two + VarSteps(addrs[1..], last + 1);
    MapLinesAppend(two, VarSteps(addrs[1..], last + 1), StepLine);
    MapLinesPair(LoadStr(last + 1, addrs[0]), ReleaseReg(last + 1), StepLine);
  }

  class Context {
    var vars: map<Ident, (int, CGType)>
    var funcRetTypes: map<Ident, CGType>
    var stringLits: map<string, int>
    var stringTmps: seq<Val>
    var localStringTmps: seq<Val>
    var stringVars: seq<int>
    var localStringVars: seq<int>
    const cg: CodeGenerator

    ghost predicate Valid()
      reads this, cg
    {
      cg.Valid()
    }

    function State(): ScopeState
      reads this
    {
      ScopeState(vars, stringTmps, localStringTmps, stringVars, localStringVars)
    }

    /** `new`: nothing bound or tracked, and a fresh code generator. */
    constructor (funcRetTypes: map<Ident, CGType>)
      ensures Valid() && fresh(cg)
      ensures State() == ScopeState(map[], [], [], [], []) && stringLits == map[]
      ensures this.funcRetTypes == funcRetTypes
      ensures cg.out == Prelude()
    {
      vars := map[];
      this.funcRetTypes := funcRetTypes;
      stringLits := map[];
      stringTmps := [];
      localStringTmps := [];
      stringVars := [];
      localStringVars := [];
      cg := new CodeGenerator();
    }

    /** `get_var`; None is the panic of an unbound name. */
    function GetVar(x: Ident): Option<(int, CGType)>
      reads this
    {
      if x in vars then Some(vars[x]) else None
    }

    /** `get_ret_type`; None is the panic of an unknown function. */
    function GetRetType(f: Ident): Option<CGType>
      reads this
    {
      if f in funcRetTypes then Some(funcRetTypes[f]) else None
    }

    /** `get_str_const`; None is the panic of an unregistered literal. */
    function GetStrConst(s: string): Option<int>
      reads this
    {
      if s in stringLits then Some(stringLits[s]) else None
    }

    method SetStrConst(s: string, c: int)
      modifies this
      ensures stringLits == old(stringLits)[s := c] && GetStrConst(s) == Some(c)
      ensures State() == old(State())
    {
      stringLits := stringLits[s := c];
    }

    /** `set_var`: binds the name; a string variable is also tracked for release, in both lists. */
    method SetVar(x: Ident, addr: int, t: CGType)
      modifies this
      ensures State() == Apply(old(State()), Action.SetVar(x, addr, t))
      ensures GetVar(x) == Some((addr, t))
      ensures stringLits == old(stringLits)
    {
      vars := vars[x := (addr, t)];
      if t == New(TString) {
        stringVars := stringVars + [addr];
        localStringVars := localStringVars + [addr];
      }
    }

    /** `add_string_tmp`: the value is tracked in both lists of temporaries. */
    method AddStringTmp(v: Val)
      modifies this
      ensures State() == Apply(old(State()), Action.AddStringTmp(v))
      ensures stringLits == old(stringLits)
    {
      stringTmps := stringTmps + [v];
      localStringTmps := localStringTmps + [v];
    }

    method ReleaseStringTmps(vs: seq<Val>)
      requires Valid()
      modifies cg
      ensures Valid()
      ensures cg.out == old(cg.out) + ReleaseTmpsLines(vs) && cg.lastReg == old(cg.lastReg)
    {
      var i := 0;
      while i < |vs|
        invariant 0 <= i <= |vs|
        invariant Valid() && cg.lastReg == old(cg.lastReg)
        invariant cg.out + ReleaseTmpsLines(vs[i..]) == old(cg.out) + ReleaseTmpsLines(vs)
      {
        ghost var before := cg.out;
        ghost var tail := ReleaseTmpsLines(vs[i + 1..]);
        ReleaseTmpsUnfold(vs[i..]);
        assert vs[i..][0] == vs[i] && vs[i..][1..] == vs[i + 1..];
        cg.ReleaseString(vs[i]);
        AppendAssoc(before, [ReleaseLine(vs[i])], tail);
        i := i + 1;
      }
    }

    method ReleaseStringVars(addrs: seq<int>)
      requires Valid()
      modifies cg
      ensures Valid()
      ensures cg.out == old(cg.out) + ReleaseVarsLines(addrs, old(cg.lastReg))
      ensures cg.lastReg == old(cg.lastReg) + |addrs|
    {
      var i := 0;
      while i < |addrs|
        invariant 0 <= i <= |addrs|
        invariant Valid() && cg.lastReg == old(cg.lastReg) + i
        invariant cg.out + ReleaseVarsLines(addrs[i..], cg.lastReg) ==
                  old(cg.out) + ReleaseVarsLines(addrs, old(cg.lastReg))
      {
        ghost var before := cg.out;
        ghost var last := cg.lastReg;
        ReleaseStringVar(addrs[i]);
        ReleaseVarsStep(addrs, i, last, before, old(cg.out) + ReleaseVarsLines(addrs, old(cg.lastReg)));
        i := i + 1;
      }
    }

    /** One string variable: its value loaded into a fresh register, then released. */
    method ReleaseStringVar(addr: int)
      requires Valid()
      modifies cg
      ensures Valid() && cg.lastReg == old(cg.lastReg) + 1
      ensures LoadLine(cg.lastReg, StrT(), Reg(addr)).Some?
      ensures cg.out == (old(cg.out) + [LoadLine(cg.lastReg, StrT(), Reg(addr)).value]) + [ReleaseLine(Reg(cg.lastReg))]
    {
      ghost var before := cg.out;
      var v := cg.AddLoad(Reg(addr), StrT());
      ghost var l1 := LoadLine(cg.lastReg, StrT(), Reg(addr)).value;
      assert cg.out == before + [l1];
      cg.ReleaseString(v);
    }

    /**
     * `release_local_strings`: one release per temporary and a load and a
     * release per string variable of the current scope.
     */
    method ReleaseLocalStrings()
      requires Valid()
      modifies cg
      ensures Valid()
      ensures cg.out == old(cg.out) + ReleaseTmpsLines(localStringTmps) +
                        ReleaseVarsLines(localStringVars, old(cg.lastReg))
      ensures cg.lastReg == old(cg.lastReg) + |localStringVars|
    {
      ReleaseStringTmps(localStringTmps);
      ReleaseStringVars(localStringVars);
    }

    /** `release_all_strings`: the same over everything tracked in enclosing scopes too. */
    method ReleaseAllStrings()
      requires Valid()
      modifies cg
      ensures Valid()
      ensures cg.out == old(cg.out) + ReleaseTmpsLines(stringTmps) +
                        ReleaseVarsLines(stringVars, old(cg.lastReg))
      ensures cg.lastReg == old(cg.lastReg) + |stringVars|
    {
      ReleaseStringTmps(stringTmps);
      ReleaseStringVars(stringVars);
    }

    /** One operation of a closure. */
    method Do(a: Action)
      requires Valid()
      modifies this, cg
      ensures Valid()
      ensures State() == Apply(old(State()), a)
      ensures cg.out == old(cg.out) + Effect(old(State()), old(cg.lastReg), a).code
      ensures cg.lastReg == Effect(old(State()), old(cg.lastReg), a).last
      decreases a, 0
    {
      match a {
        case SetVar(x, addr, t) => SetVar(x, addr, t);
        case AddStringTmp(v) => AddStringTmp(v);
        case ReleaseLocal =>
          ReleaseLocalStrings();
          AppendAssoc(old(cg.out), ReleaseTmpsLines(localStringTmps), ReleaseVarsLines(localStringVars, old(cg.lastReg)));
        case ReleaseAll =>
          ReleaseAllStrings();
          AppendAssoc(old(cg.out), ReleaseTmpsLines(stringTmps), ReleaseVarsLines(stringVars, old(cg.lastReg)));
        case NewScope(body) => InNewScope(body);
      }
    }

    /** A closure: its operations in order. */
    method Run(acts: seq<Action>)
      requires Valid()
      modifies this, cg
      ensures Valid()
      ensures State() == ApplyAll(old(State()), acts)
      ensures cg.out == old(cg.out) + EffectAll(old(State()), old(cg.lastReg), acts).code
      ensures cg.lastReg == EffectAll(old(State()), old(cg.lastReg), acts).last
      decreases acts, 1
    {
      var i := 0;
      while i < |acts|
        invariant 0 <= i <= |acts|
        invariant Valid()
        invariant State() == ApplyAll(old(State()), acts[..i])
        invariant cg.out == old(cg.out) + EffectAll(old(State()), old(cg.lastReg), acts[..i]).code
        invariant cg.lastReg == EffectAll(old(State()), old(cg.lastReg), acts[..i]).last
      {
        ghost var before := cg.out;
        ghost var done := EffectAll(old(State()), old(cg.lastReg), acts[..i]);
        ApplyAllSnoc(old(State()), acts[..i], acts[i]);
        EffectAllSnoc(old(State()), old(cg.lastReg), acts[..i], acts[i]);
        assert acts[..i + 1] == acts[..i] + [acts[i]];
        Do(acts[i]);
        AppendAssoc(old(cg.out), done.code, Effect(done.st, done.last, acts[i]).code);
        i := i + 1;
      }
      assert acts[..i] == acts;
    }

    /**
     * `in_new_scope`: the closure runs with both local lists empty;
     * afterwards the variables and all four lists are as they were, and
     * the code it emitted stays.
     */
    method InNewScope(body: seq<Action>)
      requires Valid()
      modifies this, cg
      ensures Valid()
      ensures State() == old(State())
      ensures cg.out == old(cg.out) + Effect(old(State()), old(cg.lastReg), NewScope(body)).code
      ensures cg.lastReg == Effect(old(State()), old(cg.lastReg), NewScope(body)).last
      decreases body, 2
    {
      var saved := State();
      localStringTmps := [];
      localStringVars := [];
      Run(body);
      localStringVars := saved.localStringVars;
      stringVars := saved.stringVars;
      localStringTmps := saved.localStringTmps;
      stringTmps := saved.stringTmps;
      vars := saved.vars;
    }
  }

  // ---------------------------------------------------------------------
  // Properties

  /**
   * The `k`-th variable is loaded into register `last + k + 1` and that
   * register is released: every load gets a fresh register of its own.
   */
  lemma {:induction false} ReleaseVarsRegisters(addrs: seq<int>, last: int, k: nat)
    requires k < |addrs|
    ensures VarSteps(addrs, last)[2 * k] == LoadStr(last + k + 1, addrs[k])
    ensures VarSteps(addrs, last)[2 * k + 1] == ReleaseReg(last + k + 1)
    decreases |addrs|
  {
    if k > 0 {
      ReleaseVarsRegisters(addrs[1..], last + 1, k - 1);
      assert addrs[1..][k - 1] == addrs[k];
    }
  }

  /** Hence the emitted lines: each variable's load line, then the release of that register. */
  lemma ReleaseVarsText(addrs: seq<int>, last: int, k: nat)
    requires k < |addrs|
    ensures ReleaseVarsLines(addrs, last)[2 * k] == LoadLine(last + k + 1, StrT(), Reg(addrs[k])).value
    ensures ReleaseVarsLines(addrs, last)[2 * k + 1] == ReleaseLine(Reg(last + k + 1))
  {
    ReleaseVarsLineAt(addrs, last, 2 * k);
    ReleaseVarsLineAt(addrs, last, 2 * k + 1);
    ReleaseVarsRegisters(addrs, last, k);
    LoadStrLine(last + k + 1, addrs[k]);
  }

  /** One more variable released: the text still adds up to the whole. */
  lemma ReleaseVarsStep(addrs: seq<int>, i: nat, last: int, before: seq<string>, total: seq<string>)
    requires i < |addrs|
    requires before + ReleaseVarsLines(addrs[i..], last) == total
    ensures LoadLine(last + 1, StrT(), Reg(addrs[i])).Some?
    ensures ((before + [LoadLine(last + 1, StrT(), Reg(addrs[i])).value]) + [ReleaseLine(Reg(last + 1))]) +
            ReleaseVarsLines(addrs[i + 1..], last + 1) == total
  {
    LoadStrLine(last + 1, addrs[i]);
    var l1 := StepLine(LoadStr(last + 1, addrs[i]));
    var l2 := StepLine(ReleaseReg(last + 1));
    var tail := ReleaseVarsLines(addrs[i + 1..], last + 1);
    ReleaseVarsUnfold(addrs[i..], last);
    assert addrs[i..][0] == addrs[i] && addrs[i..][1..] == addrs[i + 1..];
    AppendPair(before, l1, l2);
    AppendAssoc(before, [l1, l2], tail);
  }

  lemma ReleaseVarsLineAt(addrs: seq<int>, last: int, j: nat)
    requires j < 2 * |addrs|
    ensures ReleaseVarsLines(addrs, last)[j] == StepLine(VarSteps(addrs, last)[j])
  {
  }

  lemma LoadStrLine(n: int, addr: int)
    ensures LoadLine(n, StrT(), Reg(addr)).Some?
    ensures StepLine(LoadStr(n, addr)) == LoadLine(n, StrT(), Reg(addr)).value
  {
  }

  /** A string variable is tracked for release; any other is only bound. */
  lemma SetVarTracksStrings(st: ScopeState, x: Ident, addr: int, t: CGType)
    ensures Apply(st, SetVar(x, addr, t)).vars == st.vars[x := (addr, t)]
    ensures t == StrT() ==> Apply(st, SetVar(x, addr, t)).stringVars == st.stringVars + [addr] &&
                            Apply(st, SetVar(x, addr, t)).localStringVars == st.localStringVars + [addr]
    ensures t != StrT() ==> Apply(st, SetVar(x, addr, t)).stringVars == st.stringVars &&
                            Apply(st, SetVar(x, addr, t)).localStringVars == st.localStringVars
    ensures Apply(st, SetVar(x, addr, t)).stringTmps == st.stringTmps
  {
  }

  /** A closure's own registrations are appended to the local lists it starts with. */
  lemma {:induction false} LocalsAdded(st: ScopeState, acts: seq<Action>)
    ensures ApplyAll(st, acts).localStringTmps == st.localStringTmps + TmpsAdded(acts)
    ensures ApplyAll(st, acts).localStringVars == st.localStringVars + VarsAdded(acts)
    decreases |acts|
  {
    if |acts| > 0 {
      var next := Apply(st, acts[0]);
      LocalsAdded(next, acts[1..]);
      if acts[0].AddStringTmp? {
        assert next.localStringTmps == st.localStringTmps + [acts[0].v];
      }
      if acts[0].SetVar? && acts[0].t == StrT() {
        assert next.localStringVars == st.localStringVars + [acts[0].addr];
      }
    }
  }

  /**
   * `release_local_strings` at the end of a nested scope releases exactly
   * the temporaries and string variables that scope's own body registered,
   * none of the enclosing scope's, and the enclosing state comes back.
   */
  lemma ScopeReleasesOwnStrings(st: ScopeState, last: int, pre: seq<Action>)
    ensures var inner := EffectAll(st.(localStringTmps := [], localStringVars := []), last, pre);
            Effect(st, last, NewScope(pre + [ReleaseLocal])).code ==
              inner.code + (ReleaseTmpsLines(TmpsAdded(pre)) + ReleaseVarsLines(VarsAdded(pre), inner.last))
    ensures Effect(st, last, NewScope(pre + [ReleaseLocal])).st == st
  {
    var cleared := st.(localStringTmps := [], localStringVars := []);
    var inner := EffectAll(cleared, last, pre);
    EffectAllSnoc(cleared, last, pre, ReleaseLocal);
    LocalsAdded(cleared, pre);
    assert inner.st.localStringTmps == TmpsAdded(pre) by {
      assert [] + TmpsAdded(pre) == TmpsAdded(pre);
    }
    assert inner.st.localStringVars == VarsAdded(pre) by {
      assert [] + VarsAdded(pre) == VarsAdded(pre);
    }
    assert Effect(st, last, NewScope(pre + [ReleaseLocal])).code == EffectAll(cleared, last, pre + [ReleaseLocal]).code;
  }

  /** Operations only ever add to the tracked lists; nothing is dropped before the scope ends. */
  lemma {:induction false} ListsOnlyGrow(st: ScopeState, acts: seq<Action>)
    ensures st.stringTmps <= ApplyAll(st, acts).stringTmps
    ensures st.stringVars <= ApplyAll(st, acts).stringVars
    ensures st.localStringTmps <= ApplyAll(st, acts).localStringTmps
    ensures st.localStringVars <= ApplyAll(st, acts).localStringVars
    ensures st.vars.Keys <= ApplyAll(st, acts).vars.Keys
    decreases |acts|
  {
    if |acts| > 0 {
      ListsOnlyGrow(Apply(st, acts[0]), acts[1..]);
    }
  }
}
