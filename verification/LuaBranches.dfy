/**
 `luaK_goiftrue`, `luaK_goiffalse` and `not` as a whole.
 */
module LuaBranches {
  import opened LuaVm
  import opened LuaRun
  import opened LuaCodegen
  import opened LuaFrame
  import opened LuaExit
  import opened LuaMeaning
  import opened LuaRegisters
  import opened LuaOperands
  import opened LuaConditions

  // ----- jumponcond -----

  lemma CondJumpIs(fs: Fs, d: Desc, i: Instr, when: bool)
    requires !i.JMP?
    ensures var (fs1, js) := CondJump(fs, i);
      && js == [|fs.code| + 1] && fs1 == fs.(code := fs1.code, jpc := [])
      && SplitState(fs1, d, !when, js) == Tested(StateOf(fs, d), i, when)
  {
    var (fs1, js) := CondJump(fs, i);
    assert js == [|fs.code| + 1];
    assert fs1.code == Discharged(StateOf(fs, d)).code + [i, JMP(NO_JUMP)];
  }

  // Runs are split by the test `t`.
  ghost predicate AllSplit(m: Sem, c: Ctx, fs: Fs, d: Desc, fs1: Fs, js: seq<int>, cond: bool, t: Test) {
    forall at, r, y :: Gives(m, c, fs, d, NO_REG, at, r, y) ==>
      CondGives(m, c, fs1, SplitState(fs1, d, cond, js), at, r, SplitBy(t, cond, y))
  }

  // A removed NOT: its operand is tested the other way round.
  lemma NotRemoved(m: Sem, c: Ctx, fs: Fs, d: Desc, cond: bool)
    requires Building(c, fs, d) && IsNot(fs, d)
    ensures var (fs1, js) := JumpOnCond(fs, d, !cond);
      SplitOk(m, c, fs, d, fs1, js, cond) && AllSplit(m, c, fs, d, fs1, js, cond, Plainly)
  {
    hide Building, Tested, RunFrom, Sound, CondJump, Gives, KindOk, SplitBy, ConstsOk, Frame, ListsOk, CtxOk, CondFits;
    hide Body, KPrefix, SplitOk;
    BuildingParts(c, fs, d);
    NotThere(c, fs, d);
    BodySound(c, fs, d);
    var i := TEST(fs.code[d.k.pc].b, cond);
    var b := BodyState(fs, d);
    var fs0 := fs.(code := Body(fs.code, d.k));
    BodyDrops(c, fs, d);
    var (fs1, js) := JumpOnCond(fs, d, !cond);
    CondJumpIs(fs0, d, i, !cond);
    assert StateOf(fs0, d) == b;
    TestedSound(c, fs0, b, fs1, i, !cond);
    forall at, r, y | Gives(m, c, fs, d, NO_REG, at, r, y)
      ensures CondGives(m, c, fs1, SplitState(fs1, d, cond, js), at, r, SplitBy(Plainly, cond, y))
    {
      NotBefore(m, c, fs, d, cond, at, r, y);
      TestedSplits(m, c, fs0, b, i, !cond, at, r, SplitBy(Plainly, cond, y));
    }
    assert SplitOk(m, c, fs, d, fs1, js, cond) by { NotSplits(m, c, fs, d, fs0, fs1, js, cond); }
  }

  lemma NotSplits(m: Sem, c: Ctx, fs: Fs, d: Desc, fs0: Fs, fs1: Fs, js: seq<int>, cond: bool)
    requires fs0 == fs.(code := fs0.code) && fs1 == fs0.(code := fs1.code, jpc := [])
    requires Sound(c, fs1, SplitState(fs1, d, cond, js))
    ensures SplitOk(m, c, fs, d, fs1, js, cond)
  {
    hide Sound, SplitState;
  }

  lemma NotThere(c: Ctx, fs: Fs, d: Desc)
    requires IsNot(fs, d) && KindOk(c, fs, d)
    ensures 0 <= d.k.pc < |fs.code| && fs.code[d.k.pc].NOT? && At(fs.code, d.k.pc) == fs.code[d.k.pc]
  {
  }

  lemma BodyDrops(c: Ctx, fs: Fs, d: Desc)
    requires KindOk(c, fs, d) && d.k.VReloc?
    ensures Body(fs.code, d.k) == fs.code[..|fs.code| - 1]
  {
  }

  lemma NotBefore(m: Sem, c: Ctx, fs: Fs, d: Desc, cond: bool, at: int, r: Regs, y: Exit)
    requires IsNot(fs, d) && KindOk(c, fs, d) && Gives(m, c, fs, d, NO_REG, at, r, y)
    ensures IsEntry(c, at)
    ensures BeforeTest(m, c, fs.k, TEST(fs.code[d.k.pc].b, cond), !cond, RunFrom(m, fs.k, c, BodyState(fs, d), at, r),
      r, SplitBy(Plainly, cond, y))
  {
    hide RunFrom;
  }

  // The value goes to a register that is free again at once.
  lemma IntoAnyReg(m: Sem, c: Ctx, fs: Fs, d: Desc)
    requires Stage(c, fs, d) && !d.k.VJmp?
    ensures var (fs2, d2) := Discharge2AnyReg(fs, d); var fs3 := FreeExp(fs2, d2);
      && Building(c, fs3, d2) && d2.k.VNonReloc? && d2.t == d.t && d2.f == d.f
      && fs3.freereg == fs.freereg && fs3.nactvar == fs.nactvar && KPrefix(fs.k, fs3.k)
      && forall at, r, y :: Gives(m, c, fs, d, NO_REG, at, r, y) ==>
           Gives(m, c, fs3, d2, NO_REG, at, r, if d.k.VNonReloc? then y else Consumed(y))
  {
    if !d.k.VNonReloc? {
      BuildingIgnoresRegs(c, fs, d, fs.freereg + 1);
      Discharge2RegOk(m, c, ReserveReg(fs), d, c.base);
      var (fs2, d2) := Discharge2AnyReg(fs, d);
      BuildingIgnoresRegs(c, fs2, d2, fs.freereg);
      hide Building, Discharge2Reg, Gives;
      forall at, r, y | Gives(m, c, fs, d, NO_REG, at, r, y)
        ensures Gives(m, c, FreeExp(fs2, d2), d2, NO_REG, at, r, Consumed(y))
      {
        GivesIgnoresRegs(m, c, fs, d, fs.freereg + 1, NO_REG, at, r, y);
        Discharge2RegGives(m, c, ReserveReg(fs), d, c.base, at, r, y);
        GivesIgnoresRegs(m, c, fs2, d2, fs.freereg, c.base, at, r, Consumed(y));
        GivesAbove(m, c, FreeExp(fs2, d2), d2, c.base, at, r, Consumed(y));
      }
    }
  }

  // A TESTSET that still lacks its register
  lemma ValueTested(m: Sem, c: Ctx, fs: Fs, d: Desc, cond: bool)
    requires Stage(c, fs, d) && !d.k.VJmp? && !IsNot(fs, d)
    ensures var (fs1, js) := JumpOnCond(fs, d, !cond);
      SplitOk(m, c, fs, d, fs1, js, cond) && AllSplit(m, c, fs, d, fs1, js, cond, Carrying)
  {
    IntoAnyReg(m, c, fs, d);
    var (fs2, d2) := Discharge2AnyReg(fs, d);
    var fs3 := FreeExp(fs2, d2);
    var i := TESTSET(NO_REG, d2.k.reg, !cond);
    var (fs1, js) := JumpOnCond(fs, d, !cond);
    assert (fs1, js) == CondJump(fs3, i);
    CondJumpIs(fs3, d2, i, !cond);
    assert SplitState(fs1, d, cond, js) == SplitState(fs1, d2, cond, js);
    BuildingSound(c, fs3, d2);
    assert KPrefix(c.k, fs3.k);
    hide Building, Tested, RunFrom, Sound, CondJump, Gives, Discharge2AnyReg, JumpOnCond, FreeExp, Stage, CondGives;
    TestedSound(c, fs3, StateOf(fs3, d2), fs1, i, !cond);
    forall at, r, y | Gives(m, c, fs, d, NO_REG, at, r, y)
      ensures CondGives(m, c, fs1, SplitState(fs1, d, cond, js), at, r, SplitBy(Carrying, cond, y))
    {
      var y' := if d.k.VNonReloc? then y else Consumed(y);
      assert SplitBy(Carrying, cond, y') == SplitBy(Carrying, cond, y);
      RegisterBefore(m, c, fs3, d2, cond, at, r, y');
      TestedSplits(m, c, fs3, StateOf(fs3, d2), i, !cond, at, r, SplitBy(Carrying, cond, y'));
    }
  }

  lemma RegisterBefore(m: Sem, c: Ctx, fs: Fs, d: Desc, cond: bool, at: int, r: Regs, y: Exit)
    requires d.k.VNonReloc? && Gives(m, c, fs, d, NO_REG, at, r, y)
    ensures IsEntry(c, at)
    ensures BeforeTest(m, c, fs.k, TESTSET(NO_REG, d.k.reg, !cond), !cond, RunFrom(m, fs.k, c, StateOf(fs, d), at, r),
      r, SplitBy(Carrying, cond, y))
  {
    assert BodyState(fs, d) == StateOf(fs, d);
    hide RunFrom;
  }

  // ----- goiftrue and goiffalse -----

  function GoIf(fs: Fs, d: Desc, cond: bool): (Fs, Desc) {
    if cond then GoIfTrue(fs, d) else GoIfFalse(fs, d)
  }

  // The code of a condition, whatever the kind of the expression was
  ghost predicate Condition(c: Ctx, fs: Fs, d: Desc, cond: bool) {
    && Building(c, fs, d.(k := VTrue)) && (if cond then d.t == [] else d.f == [])
    && fs.freereg == c.base && fs.nactvar <= c.base
  }

  // `GoIf` in two parts: the jump, and the other list closed.
  lemma GoIfParts(fs: Fs, d0: Desc, cond: bool, fs1: Fs, js: seq<int>)
    requires var d := DischargeVars(d0);
      (fs1, js) == (if NeverJumps(d.k, cond) then (fs, [])
                    else if AlwaysJumps(d.k, cond) then EmitJump(fs)
                    else if d.k.VJmp? then (if cond then InvertJump(fs, d.k.pc) else fs, [d.k.pc])
                    else JumpOnCond(fs, d, !cond))
    ensures var d := DischargeVars(d0); var (fs', d') := GoIf(fs, d0, cond);
      && StateOf(fs', d') == Closed(SplitState(fs1, d, cond, js), cond)
      && fs' == fs1.(jpc := fs'.jpc)
  {
    hide JumpOnCond, EmitJump, InvertJump;
  }

  lemma ConditionFrom(m: Sem, c: Ctx, fs: Fs, d: Desc, fs1: Fs, js: seq<int>, cond: bool, fs': Fs, d': Desc)
    requires fs.freereg == c.base && fs.nactvar <= c.base && SplitOk(m, c, fs, d, fs1, js, cond)
    requires StateOf(fs', d') == Closed(SplitState(fs1, d, cond, js), cond) && fs' == fs1.(jpc := fs'.jpc)
    ensures Condition(c, fs', d', cond) && KPrefix(fs.k, fs'.k) && fs'.nactvar == fs.nactvar
  {
    CloseOtherOk(c, fs1, SplitState(fs1, d, cond, js), cond);
    hide ListsOk, Frame, ConstsOk, CtxOk, TestsJump, EndsWell, SplitState;
  }

  lemma ConditionGives(m: Sem, c: Ctx, d: Desc, fs1: Fs, js: seq<int>, cond: bool, fs': Fs, d': Desc, at: int, r: Regs,
      z: Exit)
    requires Sound(c, fs1, SplitState(fs1, d, cond, js))
    requires CondGives(m, c, fs1, SplitState(fs1, d, cond, js), at, r, z)
    requires StateOf(fs', d') == Closed(SplitState(fs1, d, cond, js), cond) && fs' == fs1.(jpc := fs'.jpc)
    ensures CondGives(m, c, fs', StateOf(fs', d'), at, r, Closing(cond, z))
  {
    hide RunFrom, SplitState, Closed;
    CloseOther(m, c, fs1, SplitState(fs1, d, cond, js), cond, at, r, z);
  }

  // The code after the test gives the exit of the test.
  lemma GoIfOk(m: Sem, c: Ctx, fs: Fs, d0: Desc, cond: bool)
    requires Stage(c, fs, d0)
    ensures var (fs', d') := GoIf(fs, d0, cond);
      && Condition(c, fs', d', cond) && KPrefix(fs.k, fs'.k) && fs'.nactvar == fs.nactvar
      && forall at, r, y :: Gives(m, c, fs, d0, NO_REG, at, r, y) ==>
           CondGives(m, c, fs', StateOf(fs', d'), at, r, Tests(TestOf(fs, DischargeVars(d0), cond), cond, y))
  {
    var d := DischargeVars(d0);
    DischargeVarsOk(m, c, fs, d0);
    assert Stage(c, fs, d);
    var t := TestOf(fs, d, cond);
    SplitFor(m, c, fs, d, cond);
    var (fs1, js) := SplitOff(fs, d, cond);
    GoIfParts(fs, d0, cond, fs1, js);
    var (fs', d') := GoIf(fs, d0, cond);
    assert Sound(c, fs1, SplitState(fs1, d, cond, js));
    assert fs.freereg == c.base && fs.nactvar <= c.base;
    hide Stage, SplitOff, GoIf, Gives, RunFrom, SplitState, Closed, Sound, Condition, CondGives, TestOf, SplitBy,
      Closing;
    ConditionFrom(m, c, fs, d, fs1, js, cond, fs', d');
    forall at, r, y | Gives(m, c, fs, d0, NO_REG, at, r, y)
      ensures CondGives(m, c, fs', StateOf(fs', d'), at, r, Tests(t, cond, y))
    {
      assert Gives(m, c, fs, d, NO_REG, at, r, y);
      ConditionGives(m, c, d, fs1, js, cond, fs', d', at, r, SplitBy(t, cond, y));
    }
  }

  function SplitOff(fs: Fs, d: Desc, cond: bool): (Fs, seq<int>) {
    if NeverJumps(d.k, cond) then (fs, [])
    else if AlwaysJumps(d.k, cond) then EmitJump(fs)
    else if d.k.VJmp? then (if cond then InvertJump(fs, d.k.pc) else fs, [d.k.pc])
    else JumpOnCond(fs, d, !cond)
  }

  function LiteralOf(fs: Fs, k: Kind): Value {
    match k
    case VTrue => Bool(true)
    case VFalse => Bool(false)
    case VK(i) => Const(fs.k, i)
    case VKNum(n) => Num(n)
    case _ => Nil
  }

  lemma LiteralValue(m: Sem, c: Ctx, fs: Fs, d: Desc, cond: bool)
    requires Stage(c, fs, d) && NeverJumps(d.k, cond)
    ensures forall r :: KindValue(m, fs, d.k, r) == Ok(LiteralOf(fs, d.k))
  {
  }

  lemma SplitLiteral(m: Sem, c: Ctx, fs: Fs, d: Desc, cond: bool)
    requires Stage(c, fs, d) && (AlwaysJumps(d.k, cond) || NeverJumps(d.k, cond))
    ensures var (fs1, js) := SplitOff(fs, d, cond);
      SplitOk(m, c, fs, d, fs1, js, cond) && AllSplit(m, c, fs, d, fs1, js, cond, TestOf(fs, d, cond))
  {
    var (fs1, js) := SplitOff(fs, d, cond);
    if NeverJumps(d.k, cond) {
      NoJump(m, c, fs, d, cond);
      LiteralValue(m, c, fs, d, cond);
    } else {
      LiteralJump(m, c, fs, d, cond);
    }
    hide Building, RunFrom, KindValue, SplitState, SplitOk, SplitBy, Gives, CondGives;
    forall at, r, y | Gives(m, c, fs, d, NO_REG, at, r, y)
      ensures CondGives(m, c, fs1, SplitState(fs1, d, cond, js), at, r, SplitBy(TestOf(fs, d, cond), cond, y))
    {
      if NeverJumps(d.k, cond) {
        NoJumpSplits(m, c, fs, d, cond, LiteralOf(fs, d.k), at, r, y);
      } else {
        LiteralSplits(m, c, fs, d, cond, at, r, y);
      }
    }
  }

  lemma SplitFor(m: Sem, c: Ctx, fs: Fs, d: Desc, cond: bool)
    requires Stage(c, fs, d) && !d.k.VLocal?
    ensures var (fs1, js) := SplitOff(fs, d, cond);
      SplitOk(m, c, fs, d, fs1, js, cond) && AllSplit(m, c, fs, d, fs1, js, cond, TestOf(fs, d, cond))
  {
    hide RunFrom, CondGives, SplitState, SplitOk, Gives, SplitBy;
    if NeverJumps(d.k, cond) || AlwaysJumps(d.k, cond) {
      SplitLiteral(m, c, fs, d, cond);
    } else if d.k.VJmp? {
      CompareSplits(m, c, fs, d, cond);
    } else if IsNot(fs, d) {
      NotRemoved(m, c, fs, d, cond);
    } else {
      ValueTested(m, c, fs, d, cond);
    }
  }
}
