/**
 Comparisons and unary minus.
 */
module LuaCompare {
  import opened LuaVm
  import opened LuaRun
  import opened LuaCodegen
  import opened LuaFrame
  import opened LuaExit
  import opened LuaMeaning
  import opened LuaRegisters
  import opened LuaOperands
  import opened LuaNot
  import opened LuaCompose
  import opened LuaOperators
  import opened LuaArith
  import opened Wrappers

  // ----- comparisons -----

  lemma PlainAppend(c: Ctx, st: State, i: Instr)
    requires st.here == [] && st.tt == [] && st.ff == [] && Frame(c, st) && ListsOk(st)
    ensures Frame(c, Appended(st, i)) && ListsOk(Appended(st, i))
  {
    hide Frame;
    AppendedFrame(c, st, i);
  }

  function CompareState(st: State, test: Instr): State {
    Appended(Appended(Discharged(st), test), JMP(NO_JUMP))
  }

  lemma CompareStateOk(c: Ctx, st: State, test: Instr)
    requires CtxOk(c) && ListsOk(st) && Frame(c, st) && EndsWell(st.code) && TestsJump(st.code)
    requires st.tt == [] && st.ff == [] && test.COMPARE?
    ensures var st' := CompareState(st, test);
      && Frame(c, st') && ListsOk(st') && EndsWell(st'.code) && TestsJump(st'.code)
      && |st'.code| == |st.code| + 2 && st'.code[|st.code|] == test && st'.code[|st.code| + 1] == JMP(NO_JUMP)
      && st'.code[..|st.code|] == Discharged(st).code
  {
    DischargedOk(st);
    DischargedFrame(c, st);
    hide Frame, ListsOk, Discharged, Continues, CtxOk, EndsWell, TestsJump;
    var d := Discharged(st);
    DischargedSets(st);
    PlainAppend(c, d, test);
    PlainAppend(c, Appended(d, test), JMP(NO_JUMP));
    assert (d.code + [test] + [JMP(NO_JUMP)])[..|st.code|] == d.code;
    AppendedTest(d.code, test);
  }

  lemma DischargedSets(st: State)
    ensures var d := Discharged(st); d.here == [] && d.tt == st.tt && d.ff == st.ff && |d.code| == |st.code|
  {
  }

  lemma AppendedTest(code: seq<Instr>, test: Instr)
    requires EndsWell(code) && TestsJump(code)
    ensures EndsWell(code + [test] + [JMP(NO_JUMP)]) && TestsJump(code + [test] + [JMP(NO_JUMP)])
  {
    var code' := code + [test] + [JMP(NO_JUMP)];
    forall i | 0 <= i < |code'| - 1 && IsTest(code'[i]) ensures code'[i + 1].JMP? {
      if i < |code| { assert code'[i] == code[i]; }
    }
  }

  lemma CompareConsts(st: State, test: Instr, k: seq<Value>)
    requires ListsOk(st) && ConstsOk(st.code, k) && ConstOk(test, |k|)
    ensures ConstsOk(CompareState(st, test).code, k)
  {
    DischargedConsts(st, k);
    var code := CompareState(st, test).code;
    forall i | 0 <= i < |code| ensures ConstOk(code[i], |k|) {
      if i < |st.code| { assert code[i] == Discharged(st).code[i] && ConstOk(Discharged(st).code[i], |k|); }
    }
  }

  // A comparison and its jump have been emitted.
  lemma CompareEmitted(m: Sem, c: Ctx, fs: Fs, k: Kind, test: Instr)
    requires Building(c, fs, Bare(k)) && Settles(k) && test.COMPARE? && ConstOk(test, |fs.k|)
    ensures var (f, js) := CondJump(fs, test); var d := Bare(VJmp(|f.code| - 1));
      && Building(c, f, d) && |f.code| >= 2 && f.code[|f.code| - 2] == test && f == fs.(code := f.code, jpc := [])
      && forall at, r :: IsEntry(c, at) && RunFrom(m, fs.k, c, State(fs.code, fs.jpc, [], []), at, r) != Stuck ==>
           RunFrom(m, f.k, c, BodyState(f, d), at, r) ==
           Forgotten(RunFrom(m, fs.k, c, State(fs.code, fs.jpc, [], []), at, r), |fs.code|)
  {
    var st := StateOf(fs, Bare(k));
    var (f, js) := CondJump(fs, test);
    var d := Bare(VJmp(|f.code| - 1));
    CompareIs(fs, k, test);
    CompareBuilding(c, fs, k, test);
    BuildingParts(c, fs, Bare(k));
    hide Building, ListsOk, CompareState, CondJump, Discharged, BodyState, RunFrom, ConstsOk, CtxOk, Frame, EndsWell,
      IsEntry;
    forall at, r | IsEntry(c, at) && RunFrom(m, fs.k, c, st, at, r) != Stuck
      ensures RunFrom(m, fs.k, c, Discharged(st), at, r) == Forgotten(RunFrom(m, fs.k, c, st, at, r), |fs.code|)
    {
      DischargedRun(m, fs.k, c, st, at, r);
    }
  }

  lemma CompareIs(fs: Fs, k: Kind, test: Instr)
    requires test.COMPARE?
    ensures var (f, js) := CondJump(fs, test); var st := StateOf(fs, Bare(k)); var d := Bare(VJmp(|f.code| - 1));
      && StateOf(f, d) == CompareState(st, test) && |f.code| == |fs.code| + 2
      && BodyState(f, d) == Discharged(st) && f == fs.(code := f.code, jpc := [])
      && f.code[|f.code| - 2] == test
  {
    var (f, js) := CondJump(fs, test);
    var st := StateOf(fs, Bare(k));
    assert Discharged(st).code == Patched(fs.code, fs.jpc, |fs.code|, NO_REG, |fs.code|);
    hide Patched;
    assert f.code[..|fs.code|] == Discharged(st).code;
  }

  lemma CompareBuilding(c: Ctx, fs: Fs, k: Kind, test: Instr)
    requires Building(c, fs, Bare(k)) && test.COMPARE? && ConstOk(test, |fs.k|)
    ensures var (f, js) := CondJump(fs, test); Building(c, f, Bare(VJmp(|f.code| - 1)))
  {
    var st := StateOf(fs, Bare(k));
    CompareStateOk(c, st, test);
    CompareConsts(st, test, fs.k);
    CompareIs(fs, k, test);
    assert |c.code| <= |fs.code|;
    hide ListsOk, Frame, ConstsOk, CtxOk, TestsJump, EndsWell, CompareState, CondJump, Discharged, Body;
  }

  function CompareInstr(op: CompareOp, cond: bool, o1: RK, o2: RK): Instr {
    if !cond && op != EQ then COMPARE(op, true, o2, o1) else COMPARE(op, cond, o1, o2)
  }

  // The operators that are comparisons
  predicate IsCompare(bop: BinOp, op: CompareOp, cond: bool) {
    match bop
    case OpEq => op == EQ && cond
    case OpNe => op == EQ && !cond
    case OpLt => op == LT && cond
    case OpLe => op == LE && cond
    case OpGt => op == LT && !cond
    case OpGe => op == LE && !cond
    case _ => false
  }

  lemma CompareValueAt(m: Sem, a: Ctx, fs: Fs, bop: BinOp, op: CompareOp, cond: bool, k1: Kind, k2: Kind, f: Fs,
      d: Desc,
                       at: int, r: Regs, va: Result, vb: Result)
    requires OperandKind(fs, k1) && OperandKind(fs, k2) && PairGives(m, a, fs, k1, k2, at, r, va, vb) &&
      IsCompare(bop, op, cond)
    requires f.k == fs.k && |f.code| >= 2 && d == Bare(VJmp(|f.code| - 1))
    requires f.code[|f.code| - 2] == CompareInstr(op, cond, Operand(Bare(k1)), Operand(Bare(k2)))
    requires var o := RunFrom(m, fs.k, a, State(fs.code, fs.jpc, [], []), at, r);
      IsEntry(a, at) && o != Stuck ==> RunFrom(m, f.k, a, BodyState(f, d), at, r) == Forgotten(o, |fs.code|)
    ensures Gives(m, a, f, d, NO_REG, at, r, ExitWith(Both(m, bop, va, vb), None))
  {
    var o := RunFrom(m, fs.k, a, State(fs.code, fs.jpc, [], []), at, r);
    if o.Fall? {
      OperandValue(m, fs, k1, o.r);
      OperandValue(m, fs, k2, o.r);
    }
    hide RunFrom;
  }

  // `codecomp` frees the right operand first, and that is the order of the registers.
  lemma CompareFreed(a: Ctx, fs: Fs, d: Desc, fs': Fs, k1: Kind, k2: Kind)
    requires Ready(a, fs, d) && d == Bare(k1) && Ready(CtxOf(fs), fs', Bare(k2)) && fs'.nactvar == fs.nactvar
    ensures FreeExp(FreeExp(fs', Bare(k2)), Bare(k1)) == fs'.(freereg := a.base)
    ensures OnTop(fs', k2) && OnTop(FreeExp(fs', Bare(k2)), k1)
  {
    hide Building;
  }

  lemma CodeCompIs(fs: Fs, op: CompareOp, cond: bool, d: Desc, d': Desc)
    requires Exp2RK(fs, d) == (fs, d)
    ensures var (f2, e2) := Exp2RK(fs, d');
      var (f4, js) := CondJump(FreeExp(FreeExp(f2, e2), d), CompareInstr(op, cond, Operand(d), Operand(e2)));
      CodeComp(fs, op, cond, d, d') == (f4, Bare(VJmp(|f4.code| - 1)))
  {
    hide Exp2RK, CondJump, FreeExp;
  }

  // The code of a comparison of two operands
  lemma CompareOperands(m: Sem, a: Ctx, fs: Fs, bop: BinOp, op: CompareOp, cond: bool, k1: Kind, k2: Kind)
    requires Operands(a, fs, k1, k2) && IsCompare(bop, op, cond) && Settles(k1)
    ensures var (f4, js) := CondJump(fs.(freereg := a.base),
      CompareInstr(op, cond, Operand(Bare(k1)), Operand(Bare(k2))));
      var d4 := Bare(VJmp(|f4.code| - 1));
      && Stage(a, f4, d4) && f4.k == fs.k && f4.nactvar == fs.nactvar
      && forall at, r, va, vb :: PairGives(m, a, fs, k1, k2, at, r, va, vb) ==>
           Gives(m, a, f4, d4, NO_REG, at, r, ExitWith(Both(m, bop, va, vb), None))
  {
    hide Building, CondJump, Operands, RunFrom, PairGives, Gives, BodyState;
    OperandsFacts(a, fs, k1, k2);
    var i := CompareInstr(op, cond, Operand(Bare(k1)), Operand(Bare(k2)));
    OperandValue(m, fs, k1, map[]);
    OperandValue(m, fs, k2, map[]);
    BuildingIgnoresRegs(a, fs, Bare(k1), a.base);
    var f3 := fs.(freereg := a.base);
    CompareEmitted(m, a, f3, k1, i);
    var (f4, js) := CondJump(f3, i);
    var d4 := Bare(VJmp(|f4.code| - 1));
    forall at, r, va, vb | PairGives(m, a, fs, k1, k2, at, r, va, vb)
      ensures Gives(m, a, f4, d4, NO_REG, at, r, ExitWith(Both(m, bop, va, vb), None))
    {
      CompareValueAt(m, a, fs, bop, op, cond, k1, k2, f4, d4, at, r, va, vb);
    }
  }

  lemma CodeCompOk(m: Sem, a: Ctx, fs: Fs, bop: BinOp, op: CompareOp, cond: bool, d: Desc, fs': Fs, d': Desc)
    requires Ready(a, fs, d) && Stage(CtxOf(fs), fs', d') && KPrefix(fs.k, fs'.k) && fs'.nactvar == fs.nactvar &&
      IsCompare(bop, op, cond)
    ensures var (f4, d4) := CodeComp(fs', op, cond, d, d');
      && Stage(a, f4, d4) && KPrefix(fs'.k, f4.k) && f4.nactvar == fs.nactvar
      && forall at, r, y, z :: InTurn(m, a, fs, d, fs', d', at, r, y, z) ==>
           Gives(m, a, f4, d4, NO_REG, at, r, Combined(m, bop, false, y, z))
  {
    hide Building, Gives, GivesAfter, Exp2RK, PairGives, PairWaits, CondJump, FreeExp, CodeComp, Idle;
    var (f2, e2) := Exp2RK(fs', d');
    ReadyKind(a, fs, d, fs');
    Exp2RKSame(fs', d.k);
    RightReady(m, a, fs, d, fs', d');
    Exp2RKOk(m, CtxOf(fs), fs', d');
    LeftReady(m, a, fs, d, f2, e2);
    CompareFreed(a, fs, d, f2, d.k, e2.k);
    CodeCompIs(fs', op, cond, d, d');
    CompareOperands(m, a, f2, bop, op, cond, d.k, e2.k);
    var (f4, d4) := CodeComp(fs', op, cond, d, d');
    ReadySettled(CtxOf(fs), f2, e2);
    hide Stage, Operands, Ready;
    forall at, r, y, z | InTurn(m, a, fs, d, fs', d', at, r, y, z)
      ensures Gives(m, a, f4, d4, NO_REG, at, r, Combined(m, bop, false, y, z))
    {
      var z' := Operated(z, Idle(fs', d'));
      if y.Ended? { RightGives(m, a, fs, fs', d', r, y.waiting, z); }
      PairAfter(m, a, fs, d, f2, e2, at, r, y, z');
      OperatedValue(z, Idle(fs', d'));
    }
  }

  lemma ReadyKind(c: Ctx, fs: Fs, d: Desc, fs': Fs)
    requires Ready(c, fs, d) && KPrefix(fs.k, fs'.k)
    ensures d == Bare(d.k) && OperandKind(fs', d.k) && Settles(d.k) && Left(c, fs, d)
  {
    assert KindOk(c, fs, d);
    hide Building;
  }

  lemma ReadySettled(c: Ctx, fs: Fs, d: Desc)
    requires Ready(c, fs, d)
    ensures Building(c, fs, d) && Settles(d.k)
  {
    hide Building;
  }

  // ----- unary minus -----

  // The operand in a register
  lemma MinusReady(m: Sem, c: Ctx, fs: Fs, d: Desc)
    requires Stage(c, fs, d) && MinusOk(fs, d) && !IsNumeral(d)
    ensures var (fs1, d1) := MinusOperand(fs, d); var (f2, d2) := Exp2RK(fs1, d1);
      && !IsNumeral(d1) && Ready(c, f2, d2) && d2.k.VNonReloc? && f2.nactvar == fs.nactvar && KPrefix(fs.k, f2.k)
      && forall at, r, y :: Gives(m, c, fs, d, NO_REG, at, r, y) ==> exists w ::
        Gives(m, c, f2, d2, NO_REG, at, r, ExitWith(ValueOf(y), w))
  {
    var (fs1, d1) := MinusOperand(fs, d);
    var (f2, d2) := Exp2RK(fs1, d1);
    hide Building, Gives, Exp2RK, Exp2AnyReg, Idle, Ready;
    MinusIsReady(m, c, fs, d);
    forall at, r, y | Gives(m, c, fs, d, NO_REG, at, r, y)
      ensures exists w :: Gives(m, c, f2, d2, NO_REG, at, r, ExitWith(ValueOf(y), w))
    {
      if d.k.VK? {
        Exp2AnyRegGives(m, c, fs, d, at, r, y);
        assert ExitWith(ValueOf(y), None) == Operated(y, InRegister(d));
      } else {
        Exp2RKGives(m, c, fs, d, at, r, y);
        ReadyEnds(m, c, f2, d2, at, r, Operated(y, Idle(fs, d)));
        OperatedValue(y, Idle(fs, d));
        assert ExitWith(ValueOf(y), WaitingOf(Operated(y, Idle(fs, d)))) == Operated(y, Idle(fs, d));
      }
    }
  }

  lemma MinusIsReady(m: Sem, c: Ctx, fs: Fs, d: Desc)
    requires Stage(c, fs, d) && MinusOk(fs, d) && !IsNumeral(d)
    ensures var (fs1, d1) := MinusOperand(fs, d); var (f2, d2) := Exp2RK(fs1, d1);
      && !IsNumeral(d1) && Ready(c, f2, d2) && d2.k.VNonReloc? && f2.nactvar == fs.nactvar && KPrefix(fs.k, f2.k)
      && (d.k.VK? ==> f2 == fs1 && d2 == d1)
  {
    var (fs1, d1) := MinusOperand(fs, d);
    hide Building, Gives, Exp2RK, Exp2AnyReg;
    if d.k.VK? {
      Exp2AnyRegOk(m, c, fs, d);
      Exp2RKSame(fs1, d1.k);
      assert d1 == Bare(d1.k);
    } else {
      Exp2RKOk(m, c, fs, d);
    }
  }

  // An operand does not leave by a list.
  lemma ReadyEnds(m: Sem, c: Ctx, fs: Fs, d: Desc, at: int, r: Regs, y: Exit)
    requires Ready(c, fs, d) && d.k.VNonReloc? && Gives(m, c, fs, d, NO_REG, at, r, y)
    ensures !y.Gone?
  {
    BuildingParts(c, fs, d);
    assert BodyState(fs, d) == StateOf(fs, d);
    hide Building, RunFrom;
    NoLeave(m, fs.k, c, StateOf(fs, d), at, r);
  }

  lemma MinusOkay(m: Sem, c: Ctx, fs: Fs, d: Desc)
    requires Stage(c, fs, d) && MinusOk(fs, d)
    ensures var (f3, d3) := Prefix(m, fs, OpMinus, d);
      && Stage(c, f3, d3) && KPrefix(fs.k, f3.k) && f3.nactvar == fs.nactvar
      && forall at, r, y ::
        Gives(m, c, fs, d, NO_REG, at, r, y) ==> Gives(m, c, f3, d3, NO_REG, at, r, Minus(m, fs, d, y, r))
  {
    hide Building, Exp2RK, Emit, RunFrom, Gives, Exp2AnyReg, MinusOf;
    if IsNumeral(d) {
      MinusFolded(m, c, fs, d);
    } else {
      MinusReady(m, c, fs, d);
      var (fs1, d1) := MinusOperand(fs, d);
      var (f2, d2) := Exp2RK(fs1, d1);
      assert d2 == Bare(d2.k) && RKCode(Operand(d2)) == d2.k.reg;
      var i := MINUS(0, d2.k.reg);
      assert FreeExp(f2, d2) == f2.(freereg := c.base);
      BuildingIgnoresRegs(c, f2, d2, c.base);
      var f0 := f2.(freereg := c.base);
      RelocEmitted(m, c, f0, d2, i);
      var f3 := Emit(f0, i);
      var d3 := Bare(VReloc(|f3.code| - 1));
      assert Prefix(m, fs, OpMinus, d) == (f3, d3);
      RelocStates(f0, d2, i);
      forall at, r, y | Gives(m, c, fs, d, NO_REG, at, r, y)
        ensures Gives(m, c, f3, d3, NO_REG, at, r, Minus(m, fs, d, y, r))
      {
        var w :| Gives(m, c, f2, d2, NO_REG, at, r, ExitWith(ValueOf(y), w));
        MinusValue(m, c, f2, d2, f3, d3, at, r, ValueOf(y), w);
      }
    }
  }

  lemma MinusFolded(m: Sem, c: Ctx, fs: Fs, d: Desc)
    requires Stage(c, fs, d) && IsNumeral(d)
    ensures var (f3, d3) := Prefix(m, fs, OpMinus, d);
      && Stage(c, f3, d3) && KPrefix(fs.k, f3.k) && f3.nactvar == fs.nactvar
      && forall at, r, y ::
        Gives(m, c, fs, d, NO_REG, at, r, y) ==> Gives(m, c, f3, d3, NO_REG, at, r, Minus(m, fs, d, y, r))
  {
    hide ListsOk, Frame, ConstsOk, CtxOk, TestsJump, EndsWell, RunFrom;
    forall at, r { NoLeave(m, fs.k, c, BodyState(fs, d), at, r); }
  }

  lemma MinusValue(m: Sem, c: Ctx, fs: Fs, d: Desc, f3: Fs, d3: Desc, at: int, r: Regs, v: Result, w: Option<Value>)
    requires d.k.VNonReloc? && d == Bare(d.k) && Gives(m, c, fs, d, NO_REG, at, r, ExitWith(v, w))
    requires f3.k == fs.k && |f3.code| > 0 && d3 == Bare(VReloc(|f3.code| - 1)) &&
      f3.code[|f3.code| - 1] == MINUS(0, d.k.reg)
    requires var o := RunFrom(m, fs.k, c, BodyState(fs, d), at, r);
      IsEntry(c, at) && o != Stuck ==> RunFrom(m, f3.k, c, BodyState(f3, d3), at, r) == Forgotten(o, |fs.code|)
    ensures Gives(m, c, f3, d3, NO_REG, at, r, ExitWith(MinusOf(m, v), None))
  {
    hide RunFrom;
  }

  // A literal has become a constant, and the instruction names the register of its index.
  lemma MinusWrong(m: Sem, c: Ctx, fs: Fs, d: Desc)
    requires Stage(c, fs, d) && !MinusOk(fs, d)
    ensures var (f3, d3) := Prefix(m, fs, OpMinus, d);
      && Stage(c, f3, d3) && KPrefix(fs.k, f3.k) && f3.nactvar == fs.nactvar
      && forall at, r, y :: Gives(m, c, fs, d, NO_REG, at, r, y) && LowRegs(fs.code) ==>
           Gives(m, c, f3, d3, NO_REG, at, r, Minus(m, fs, d, y, r))
  {
    hide Building, Exp2RK, Emit, RunFrom, Gives, Exp2AnyReg, LowRegs, AddK;
    MinusConstant(m, c, fs, d);
    var (f2, d2) := Exp2RK(fs, d);
    var i := MINUS(0, RKCode(Operand(d2)));
    RelocEmitted(m, c, f2, d2, i);
    var f3 := Emit(f2, i);
    var d3 := Bare(VReloc(|f3.code| - 1));
    assert Prefix(m, fs, OpMinus, d) == (f3, d3);
    RelocStates(f2, d2, i);
    forall at, r, y | Gives(m, c, fs, d, NO_REG, at, r, y) && LowRegs(fs.code)
      ensures Gives(m, c, f3, d3, NO_REG, at, r, Minus(m, fs, d, y, r))
    {
      Exp2RKGives(m, c, fs, d, at, r, y);
      LowRunFrom(m, f2.k, c, StateOf(f2, d2), at, r);
      ConstantEnds(m, c, f2, d2, at, r, y);
      WrongValue(m, c, f2, d2, f3, d3, at, r, y);
    }
  }

  lemma MinusConstant(m: Sem, c: Ctx, fs: Fs, d: Desc)
    requires Stage(c, fs, d) && !MinusOk(fs, d)
    ensures var (f2, d2) := Exp2RK(fs, d);
      && MinusOperand(fs, d) == (fs, d) && !IsNumeral(d) && Idle(fs, d) && f2.code == fs.code &&
        f2.freereg == fs.freereg == c.base
      && Ready(c, f2, d2) && d2 == Bare(d2.k) && d2.k.VK? && f2.nactvar == fs.nactvar && KPrefix(fs.k, f2.k)
      && FreeExp(f2, d2) == f2 && RKCode(Operand(d2)) == MinusRegister(fs, d)
  {
    hide Building, Exp2AnyReg, Gives, AddK, IndexOf;
    if d.k.VK? {
      Exp2AnyRegOk(m, c, fs, d);
      var (fs1, d1) := Exp2AnyReg(fs, d);
      assert d1 == Bare(d1.k);
      Exp2RKSame(fs1, d1.k);
    } else {
      Exp2RKOk(m, c, fs, d);
      Exp2ValOk(m, c, fs, d);
      var (fs1, d1) := Exp2Val(fs, d);
      if ConstantOf(d1.k).None? || |fs1.k| > MAXINDEXRK { RegisterOperand(m, c, fs1, d1); }
      if HasJumps(d) { ValRegister(m, c, fs, d); }
      if ConstantOf(d1.k).Some? { AddKPrefix(fs1, ConstantOf(d1.k).value); }
    }
  }

  lemma RegisterOperand(m: Sem, c: Ctx, fs: Fs, d: Desc)
    requires Building(c, fs, d) && d.t == [] && d.f == [] && (d.k.VNonReloc? || Stage(c, fs, d))
    ensures Exp2AnyReg(fs, d).1.k.VNonReloc?
  {
    hide Building, Exp2NextReg;
    if !d.k.VNonReloc? { Exp2AnyRegOk(m, c, fs, d); }
  }

  lemma ConstantEnds(m: Sem, c: Ctx, fs: Fs, d: Desc, at: int, r: Regs, y: Exit)
    requires Ready(c, fs, d) && d.k.VK? && Gives(m, c, fs, d, NO_REG, at, r, y)
    ensures !y.Gone?
  {
    BuildingParts(c, fs, d);
    assert BodyState(fs, d) == StateOf(fs, d);
    hide Building, RunFrom;
    NoLeave(m, fs.k, c, StateOf(fs, d), at, r);
  }

  lemma WrongValue(m: Sem, c: Ctx, fs: Fs, d: Desc, f3: Fs, d3: Desc, at: int, r: Regs, y: Exit)
    requires d.k.VK? && d == Bare(d.k) && Gives(m, c, fs, d, NO_REG, at, r, y) && !y.Gone?
    requires KeepsHigh(r, RunFrom(m, fs.k, c, StateOf(fs, d), at, r))
    requires f3.k == fs.k && |f3.code| > 0 && d3 == Bare(VReloc(|f3.code| - 1)) &&
      f3.code[|f3.code| - 1] == MINUS(0, RKCode(Operand(d)))
    requires var o := RunFrom(m, fs.k, c, BodyState(fs, d), at, r);
      IsEntry(c, at) && o != Stuck ==> RunFrom(m, f3.k, c, BodyState(f3, d3), at, r) == Forgotten(o, |fs.code|)
    ensures var z := Get(r, RKCode(Operand(d)));
      Gives(m, c, f3, d3, NO_REG, at, r, if y.Fails? then Fails else ExitWith(ArithValue(m, UNM, z, z), None))
  {
    assert BodyState(fs, d) == StateOf(fs, d);
    hide RunFrom;
  }
}
