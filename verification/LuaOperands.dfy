/**
 Making an expression an operand: a constant small enough, a local, or the next free
 register.
 */
module LuaOperands {
  import opened LuaVm
  import opened LuaRun
  import opened LuaCodegen
  import opened LuaFrame
  import opened LuaExit
  import opened LuaMeaning
  import opened LuaRegisters
  import opened Wrappers

  // The expression has no register of its own yet.
  ghost predicate Stage(c: Ctx, fs: Fs, d: Desc) {
    && Building(c, fs, d) && fs.nactvar <= c.base && fs.freereg == c.base
    && (d.k.VLocal? || d.k.VNonReloc? ==> d.k.reg < fs.nactvar)
    && (d.k.VK? ==> d.k.info < |fs.k| && !IsFalse(fs.k[d.k.info]))
  }

  // The expression is in register `i`: a local, or the only register above `base`.
  predicate Holds(c: Ctx, fs: Fs, i: nat) {
    if i < fs.nactvar then fs.freereg == c.base else i == c.base && fs.freereg == c.base + 1
  }

  // The expression is an operand.
  ghost predicate Ready(c: Ctx, fs: Fs, d: Desc) {
    && Building(c, fs, d) && d.t == [] && d.f == [] && fs.nactvar <= c.base
    && match d.k
       case VNonReloc(i) => Holds(c, fs, i)
       case VK(i) => i <= MAXINDEXRK && fs.freereg == c.base
       case _ => false
  }

  lemma DischargeVarsOk(m: Sem, c: Ctx, fs: Fs, d: Desc)
    requires Building(c, fs, d)
    ensures Building(c, fs, DischargeVars(d))
    ensures forall x, at, r, y :: Gives(m, c, fs, d, x, at, r, y) <==> Gives(m, c, fs, DischargeVars(d), x, at, r, y)
  {
  }

  lemma GivesAbove(m: Sem, c: Ctx, fs: Fs, d: Desc, x: int, at: int, r: Regs, y: Exit)
    requires Gives(m, c, fs, d, x, at, r, y) && x >= c.base
    ensures Gives(m, c, fs, d, NO_REG, at, r, y)
  {
    hide RunFrom, KindValue;
  }

  lemma BuildingIgnoresRegs(c: Ctx, fs: Fs, d: Desc, n: int)
    requires Building(c, fs, d)
    ensures Building(c, fs.(freereg := n), d)
  {
    hide ListsOk, Frame, ConstsOk, CtxOk, TestsJump;
  }

  lemma GivesIgnoresRegs(m: Sem, c: Ctx, fs: Fs, d: Desc, n: int, x: int, at: int, r: Regs, y: Exit)
    requires Gives(m, c, fs, d, x, at, r, y)
    ensures Gives(m, c, fs.(freereg := n), d, x, at, r, y)
  {
    hide RunFrom;
  }

  lemma Exp2NextRegOk(m: Sem, c: Ctx, fs: Fs, d: Desc)
    requires Stage(c, fs, d)
    ensures var (fs', d') := Exp2NextReg(fs, d);
      && Building(c, fs', d') && d' == Placed(c.base) && fs'.freereg == c.base + 1 && fs'.nactvar == fs.nactvar
      && KPrefix(fs.k, fs'.k) && Exp2NextReg(fs, d) == Exp2Reg(ReserveReg(fs), DischargeVars(d), c.base)
  {
    DischargeVarsOk(m, c, fs, d);
    BuildingIgnoresRegs(c, fs, DischargeVars(d), fs.freereg + 1);
    hide Building, Exp2Reg, Gives;
    Exp2RegOk(m, c, ReserveReg(fs), DischargeVars(d), c.base);
  }

  lemma Exp2NextRegGives(m: Sem, c: Ctx, fs: Fs, d: Desc, at: int, r: Regs, y: Exit)
    requires Stage(c, fs, d) && Gives(m, c, fs, d, NO_REG, at, r, y)
    ensures var (fs', d') := Exp2NextReg(fs, d);
      GivesValue(m, c, fs', d', c.base, at, r, ValueOf(y)) && Gives(m, c, fs', d', NO_REG, at, r, Operated(y, false))
  {
    Exp2NextRegOk(m, c, fs, d);
    DischargeVarsOk(m, c, fs, d);
    var (d0, fs0) := (DischargeVars(d), ReserveReg(fs));
    BuildingIgnoresRegs(c, fs, d0, fs.freereg + 1);
    GivesIgnoresRegs(m, c, fs, d0, fs.freereg + 1, NO_REG, at, r, y);
    hide Exp2Reg, Gives, Exp2NextReg, GivesValue;
    var (fs', d') := Exp2NextReg(fs, d);
    BuildingParts(c, fs', d');
    hide Building;
    Exp2RegGives(m, c, fs0, d0, c.base, at, r, y);
    Exp2RegHere(m, c, fs0, d0, c.base);
    NothingCarried(m, c, fs', d', c.base, at, r, ValueOf(y));
    GivesAbove(m, c, fs', d', c.base, at, r, Operated(y, false));
  }

  // `luaK_exp2anyreg` leaves a local where it is.
  lemma Exp2AnyRegOk(m: Sem, c: Ctx, fs: Fs, d: Desc)
    requires Stage(c, fs, d)
    ensures var (fs', d') := Exp2AnyReg(fs, d);
      && Building(c, fs', d') && d'.k.VNonReloc? && d'.t == [] && d'.f == [] && Holds(c, fs', d'.k.reg)
      && fs'.nactvar == fs.nactvar && KPrefix(fs.k, fs'.k)
  {
    DischargeVarsOk(m, c, fs, d);
    hide Building, Exp2NextReg, Gives;
    Exp2NextRegOk(m, c, fs, DischargeVars(d));
  }

  // The expression is in a register already.
  predicate InRegister(d: Desc) {
    (d.k.VLocal? || d.k.VNonReloc?) && !HasJumps(d)
  }

  lemma Exp2AnyRegGives(m: Sem, c: Ctx, fs: Fs, d: Desc, at: int, r: Regs, y: Exit)
    requires Stage(c, fs, d) && Gives(m, c, fs, d, NO_REG, at, r, y)
    ensures var (fs', d') := Exp2AnyReg(fs, d); Gives(m, c, fs', d', NO_REG, at, r, Operated(y, InRegister(d)))
  {
    DischargeVarsOk(m, c, fs, d);
    hide Building, Exp2NextReg, Gives;
    Exp2NextRegGives(m, c, fs, DischargeVars(d), at, r, y);
  }

  // A constant joins the constants of the function.
  lemma ConstantReady(m: Sem, c: Ctx, fs: Fs, d: Desc, w: Value)
    requires Building(c, fs, d) && ConstantOf(d.k) == Some(w) && |fs.k| <= MAXINDEXRK
    ensures Building(c, AddK(fs, w), d.(k := VK(IndexOf(fs.k, w)))) && IndexOf(fs.k, w) <= MAXINDEXRK
    ensures forall x, at, r, y ::
      Gives(m, c, fs, d, x, at, r, y) ==> Gives(m, c, AddK(fs, w), d.(k := VK(IndexOf(fs.k, w))), x, at, r, y)
  {
    AddKPrefix(fs, w);
    var fs' := AddK(fs, w);
    forall i | 0 <= i < |fs.code| ensures ConstOk(fs.code[i], |fs'.k|) { assert ConstOk(fs.code[i], |fs.k|); }
    hide ListsOk, Frame, CtxOk, TestsJump, AddK, IndexOf, RunFrom;
    forall x, at, r, y | Gives(m, c, fs, d, x, at, r, y)
      ensures Gives(m, c, fs', d.(k := VK(IndexOf(fs.k, w))), x, at, r, y)
    {
      SameRunFrom(m, fs.k, fs'.k, c, StateOf(fs, d), at, r);
    }
  }

  lemma SameRunFrom(m: Sem, k: seq<Value>, k': seq<Value>, c: Ctx, st: State, at: int, r: Regs)
    requires ConstsOk(st.code, k) && KPrefix(k, k')
    ensures RunFrom(m, k', c, st, at, r) == RunFrom(m, k, c, st, at, r)
  {
    hide ConstsOk, KPrefix;
    if at == |c.code| {
      SameRun(m, k, k', st, at, r);
    } else if 0 <= at < |st.code| && st.code[at].JMP? {
      SameJumps(m, k, k', st, at, Jumping(st.code, at, r));
    }
  }

  lemma {:induction false} SameRun(m: Sem, k: seq<Value>, k': seq<Value>, st: State, pc: int, r: Regs)
    requires ConstsOk(st.code, k) && KPrefix(k, k')
    ensures Run(m, k', st, pc, r) == Run(m, k, st, pc, r)
    decreases |st.code| - pc, 1
  {
    if 0 <= pc < |st.code| {
      var i := st.code[pc];
      assert ConstOk(i, |k|);
      hide DestOf, ConstsOk;
      if i.JMP? {
        SameJumps(m, k, k', st, pc, r);
      } else if IsTest(i) {
        SameTaken(m, k, k', i, i, r);
        match Taken(m, k, i, r) {
          case None =>
          case Some(false) => SameRun(m, k, k', st, pc + 2, r);
          case Some(true) =>
            if pc + 1 < |st.code| && st.code[pc + 1].JMP? { SameJumps(m, k, k', st, pc + 1, AfterTest(i, r)); }
        }
      } else {
        SameComputed(m, k, k', i, r);
        match Computed(m, k, i, r) {
          case Error =>
          case Ok(v) => SameRun(m, k, k', st, if i.LOADBOOL? && i.skip then pc + 2 else pc + 1, r[i.a := v]);
        }
      }
    }
  }

  lemma {:induction false} SameJumps(m: Sem, k: seq<Value>, k': seq<Value>, st: State, j: int, r: Regs)
    requires ConstsOk(st.code, k) && KPrefix(k, k') && 0 <= j < |st.code| && st.code[j].JMP?
    ensures Jump(m, k', st, j, r) == Jump(m, k, st, j, r)
    decreases |st.code| - j, 0
  {
    match DestOf(st, j) {
      case To(pc) => SameRun(m, k, k', st, pc, r);
      case _ =>
    }
  }

  // What `luaK_exp2val` leaves: jumps only if none were there.
  lemma Exp2ValOk(m: Sem, c: Ctx, fs: Fs, d: Desc)
    requires Stage(c, fs, d)
    ensures var (fs', d') := Exp2Val(fs, d);
      && Building(c, fs', d') && d'.t == [] && d'.f == [] && fs'.nactvar == fs.nactvar && KPrefix(fs.k, fs'.k)
      && (if d'.k.VNonReloc? then Holds(c, fs', d'.k.reg) else Stage(c, fs', d') && !d'.k.VLocal?)
  {
    DischargeVarsOk(m, c, fs, d);
    hide Building, Exp2AnyReg, Gives;
    Exp2AnyRegOk(m, c, fs, d);
  }

  lemma Exp2ValGives(m: Sem, c: Ctx, fs: Fs, d: Desc, at: int, r: Regs, y: Exit)
    requires Stage(c, fs, d) && Gives(m, c, fs, d, NO_REG, at, r, y)
    ensures var (fs', d') := Exp2Val(fs, d); Gives(m, c, fs', d', NO_REG, at, r, Operated(y, !HasJumps(d)))
  {
    DischargeVarsOk(m, c, fs, d);
    hide Building, Exp2AnyReg, Gives;
    Exp2AnyRegGives(m, c, fs, d, at, r, y);
  }

  lemma Exp2RKOk(m: Sem, c: Ctx, fs: Fs, d: Desc)
    requires Stage(c, fs, d)
    ensures var (fs', d') := Exp2RK(fs, d);
      Ready(c, fs', d') && fs'.nactvar == fs.nactvar && KPrefix(fs.k, fs'.k)
  {
    hide Building, Exp2Val, Exp2Reg, Exp2NextReg, Gives, AddK, IndexOf;
    Exp2ValOk(m, c, fs, d);
    var (fs1, d1) := Exp2Val(fs, d);
    if !d1.k.VNonReloc? { Exp2AnyRegOk(m, c, fs1, d1); }
    if ConstantOf(d1.k).Some? && |fs1.k| <= MAXINDEXRK {
      ConstantReady(m, c, fs1, d1, ConstantOf(d1.k).value);
      AddKPrefix(fs1, ConstantOf(d1.k).value);
    }
  }

  lemma Exp2RKGives(m: Sem, c: Ctx, fs: Fs, d: Desc, at: int, r: Regs, y: Exit)
    requires Stage(c, fs, d) && Gives(m, c, fs, d, NO_REG, at, r, y)
    ensures var (fs', d') := Exp2RK(fs, d); Gives(m, c, fs', d', NO_REG, at, r, Operated(y, Idle(fs, d)))
  {
    Exp2ValOk(m, c, fs, d);
    Exp2ValGives(m, c, fs, d, at, r, y);
    var (fs1, d1) := Exp2Val(fs, d);
    var y1 := Operated(y, !HasJumps(d));
    if !d1.k.VNonReloc? { Exp2AnyRegGives(m, c, fs1, d1, at, r, y1); }
    if ConstantOf(d1.k).Some? && |fs1.k| <= MAXINDEXRK {
      ConstantReady(m, c, fs1, d1, ConstantOf(d1.k).value);
    }
    assert d1.k.VNonReloc? ==> Exp2AnyReg(fs1, d1) == (fs1, d1);
    if HasJumps(d) { ValRegister(m, c, fs, d); }
    hide Building, Exp2Val, Exp2AnyReg, Gives, AddK, IndexOf;
    if !HasJumps(d) { ValSame(fs, d); }
  }

  lemma ValRegister(m: Sem, c: Ctx, fs: Fs, d: Desc)
    requires Stage(c, fs, d) && HasJumps(d)
    ensures Exp2Val(fs, d).1.k.VNonReloc?
  {
    Exp2AnyRegOk(m, c, fs, d);
  }

  lemma ValSame(fs: Fs, d: Desc)
    requires !HasJumps(d)
    ensures Exp2Val(fs, d) == (fs, DischargeVars(d))
  {
  }
}
