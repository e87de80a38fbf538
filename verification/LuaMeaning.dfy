/**
 What an expression descriptor means: running the code emitted for the expression gives its
 value where the descriptor says it is. The operations that put values into registers keep
 this.
 */
module LuaMeaning {
  import opened LuaVm
  import opened LuaRun
  import opened LuaCodegen
  import opened LuaFrame
  import opened LuaExit
  import opened Wrappers

  function StateOf(fs: Fs, d: Desc): State {
    State(fs.code, fs.jpc, d.t, d.f)
  }

  // The code without the last instruction of the expression, where that is not settled yet:
  // the instruction whose register is open, or the comparison with its jump.
  function Body(code: seq<Instr>, k: Kind): seq<Instr> {
    match k
    case VReloc(pc) => if 0 <= pc <= |code| then code[..pc] else code
    case VJmp(pc) => if 0 < pc <= |code| then code[..pc - 1] else code
    case _ => code
  }

  function BodyState(fs: Fs, d: Desc): State {
    State(Body(fs.code, d.k), fs.jpc, d.t, d.f)
  }

  ghost predicate KPrefix(k: seq<Value>, k': seq<Value>) {
    |k| <= |k'| && forall i :: 0 <= i < |k| ==> k'[i] == k[i]
  }

  ghost predicate KindOk(c: Ctx, fs: Fs, d: Desc) {
    match d.k
    case VK(i) => i < |fs.k|
    case VReloc(pc) =>
      |c.code| <= pc == |fs.code| - 1 && HasTarget(fs.code[pc]) && !fs.code[pc].LOADBOOL? && fs.jpc == []
    case VJmp(pc) =>
      && |c.code| < pc == |fs.code| - 1 && fs.code[pc] == JMP(NO_JUMP) && fs.code[pc - 1].COMPARE?
      && fs.jpc == [] && pc !in d.t && pc !in d.f
    case _ => true
  }

  // The code of an expression is well formed.
  ghost predicate Building(c: Ctx, fs: Fs, d: Desc) {
    && CtxOk(c) && ListsOk(StateOf(fs, d)) && Frame(c, StateOf(fs, d))
    && EndsWell(fs.code) && TestsJump(fs.code) && ConstsOk(fs.code, fs.k) && KPrefix(c.k, fs.k) && KindOk(c, fs, d)
  }

  lemma BuildingParts(c: Ctx, fs: Fs, d: Desc)
    requires Building(c, fs, d)
    ensures CtxOk(c) && ListsOk(StateOf(fs, d)) && Frame(c, StateOf(fs, d))
    ensures EndsWell(fs.code) && TestsJump(fs.code) && ConstsOk(fs.code, fs.k) && KPrefix(c.k, fs.k) && KindOk(c, fs, d)
    ensures |c.code| <= |fs.code|
  {
    hide ListsOk, ConstsOk, CtxOk, TestsJump, EndsWell, KindOk, KPrefix;
  }

  // The value of the expression when its code has been run to the end.
  function KindValue(m: Sem, fs: Fs, k: Kind, r: Regs): Result {
    match k
    case VTrue => Ok(Bool(true))
    case VFalse => Ok(Bool(false))
    case VK(i) => Ok(Const(fs.k, i))
    case VKNum(n) => Ok(Num(n))
    case VLocal(i) => Ok(Get(r, i))
    case VNonReloc(i) => Ok(Get(r, i))
    case VReloc(pc) =>
      if 0 <= pc < |fs.code| && HasTarget(fs.code[pc]) then Computed(m, fs.k, fs.code[pc], r) else Error
    case VJmp(pc) =>
      if 0 < pc <= |fs.code| && IsTest(fs.code[pc - 1]) then Truth(Taken(m, fs.k, fs.code[pc - 1], r), true) else Error
  }

  // Registers below `base` are as before, but for register `x`.
  ghost predicate AgreeBut(r: Regs, r': Regs, base: nat, x: int) {
    forall i: nat :: i < base && i != x ==> Get(r', i) == Get(r, i)
  }

  // The run ends as the exit `y` says.
  ghost predicate Fits(m: Sem, fs: Fs, k: Kind, o: Out, base: nat, x: int, r: Regs, y: Exit) {
    match o
    case Stuck => false
    case Fail => y == Fails
    case Leave(b, _, w, r') => y == Gone(b, w) && AgreeBut(r, r', base, x)
    case Fall(r', _, w) => y == ExitWith(KindValue(m, fs, k, r'), w) && AgreeBut(r, r', base, x)
  }

  // Entered at `at` with registers `r`, the code of the expression has the exit `y`.
  ghost predicate Gives(m: Sem, c: Ctx, fs: Fs, d: Desc, x: int, at: int, r: Regs, y: Exit) {
    IsEntry(c, at) && Fits(m, fs, d.k, RunFrom(m, fs.k, c, BodyState(fs, d), at, r), c.base, x, r, y)
  }

  // ----- registers beyond those of the function -----

  // The code writes only registers a function may have.
  ghost predicate LowRegs(code: seq<Instr>) {
    forall i :: 0 <= i < |code| && (HasTarget(code[i]) || code[i].TESTSET?) ==> code[i].a < MAXSTACK
  }

  ghost predicate AgreeHigh(r: Regs, r': Regs) {
    forall i: nat :: i >= BITRK ==> Get(r', i) == Get(r, i)
  }

  ghost predicate KeepsHigh(r: Regs, o: Out) {
    match o
    case Fall(r', _, _) => AgreeHigh(r, r')
    case Leave(_, _, _, r') => AgreeHigh(r, r')
    case _ => true
  }

  lemma {:induction false} LowRun(m: Sem, k: seq<Value>, st: State, pc: int, r: Regs)
    requires LowRegs(st.code)
    ensures KeepsHigh(r, Run(m, k, st, pc, r))
    decreases |st.code| - pc, 1
  {
    if 0 <= pc < |st.code| {
      var i := st.code[pc];
      hide Computed, Taken;
      if i.JMP? {
        LowJump(m, k, st, pc, r);
      } else if IsTest(i) {
        match Taken(m, k, i, r) {
          case None =>
          case Some(false) => LowRun(m, k, st, pc + 2, r);
          case Some(true) =>
            if pc + 1 < |st.code| && st.code[pc + 1].JMP? { LowJump(m, k, st, pc + 1, AfterTest(i, r)); }
        }
      } else {
        match Computed(m, k, i, r) {
          case Error =>
          case Ok(v) => LowRun(m, k, st, if i.LOADBOOL? && i.skip then pc + 2 else pc + 1, r[i.a := v]);
        }
      }
    }
  }

  lemma {:induction false} LowJump(m: Sem, k: seq<Value>, st: State, j: int, r: Regs)
    requires LowRegs(st.code) && 0 <= j < |st.code| && st.code[j].JMP?
    ensures KeepsHigh(r, Jump(m, k, st, j, r))
    decreases |st.code| - j, 0
  {
    match DestOf(st, j) {
      case To(pc) => LowRun(m, k, st, pc, r);
      case _ =>
    }
  }

  lemma LowRunFrom(m: Sem, k: seq<Value>, c: Ctx, st: State, at: int, r: Regs)
    requires LowRegs(st.code)
    ensures KeepsHigh(r, RunFrom(m, k, c, st, at, r))
  {
    if at == |c.code| {
      LowRun(m, k, st, at, r);
    } else if 0 <= at < |st.code| && st.code[at].JMP? {
      LowJump(m, k, st, at, Jumping(st.code, at, r));
    }
  }

  // ----- values -----

  // The same, whatever the jump carries by which the run came to its end.
  ghost predicate GivesValue(m: Sem, c: Ctx, fs: Fs, d: Desc, x: int, at: int, r: Regs, v: Result) {
    IsEntry(c, at) &&
    match RunFrom(m, fs.k, c, BodyState(fs, d), at, r)
    case Stuck => false
    case Fail => v == Error
    case Leave(_, _, _, _) => false
    case Fall(r', _, _) => v == KindValue(m, fs, d.k, r') && AgreeBut(r, r', c.base, x)
  }

  // No jump with a value waits for the next instruction.
  ghost predicate NoValuesHere(fs: Fs) {
    forall j :: j in fs.jpc ==> !ValueJump(fs.code, j)
  }

  lemma NothingCarried(m: Sem, c: Ctx, fs: Fs, d: Desc, x: int, at: int, r: Regs, v: Result)
    requires GivesValue(m, c, fs, d, x, at, r, v) && NoValuesHere(fs) && EndsWell(fs.code) &&
      BodyState(fs, d) == StateOf(fs, d)
    ensures Gives(m, c, fs, d, x, at, r, ExitWith(v, None))
  {
    hide RunFrom;
    RunFromEnds(m, fs.k, c, StateOf(fs, d), at, r);
  }

  // ----- one more instruction -----

  function EmitState(st: State, i: Instr): State {
    Appended(Discharged(st), i)
  }

  lemma EmitOk(c: Ctx, st: State, i: Instr)
    requires CtxOk(c) && ListsOk(st) && Frame(c, st) && !i.JMP?
    requires EndsWell(st.code) && TestsJump(st.code)
    ensures ListsOk(EmitState(st, i)) && Frame(c, EmitState(st, i))
    ensures !IsTest(i) ==> EndsWell(EmitState(st, i).code)
    ensures TestsJump(EmitState(st, i).code)
    ensures |EmitState(st, i).code| == |st.code| + 1 && EmitState(st, i).code[|st.code|] == i
  {
    DischargedOk(st);
    DischargedFrame(c, st);
    hide ListsOk, Frame, Continues;
    AppendedOk(Discharged(st), i);
    AppendedFrame(c, Discharged(st), i);
  }

  lemma DischargedConsts(st: State, k: seq<Value>)
    requires ConstsOk(st.code, k) && ListsOk(st)
    ensures ConstsOk(Discharged(st).code, k)
  {
    forall i | 0 <= i < |st.code| ensures ConstOk(Discharged(st).code[i], |k|) { assert ConstOk(st.code[i], |k|); }
  }

  lemma EmitConsts(st: State, i: Instr, k: seq<Value>, k': seq<Value>)
    requires ConstsOk(st.code, k) && ListsOk(st) && KPrefix(k, k') && ConstOk(i, |k'|)
    ensures ConstsOk(EmitState(st, i).code, k')
  {
    DischargedConsts(st, k);
    forall j | 0 <= j < |st.code| ensures ConstOk(EmitState(st, i).code[j], |k'|) {
      assert ConstOk(Discharged(st).code[j], |k|);
    }
  }

  lemma EmitRun(m: Sem, k: seq<Value>, k': seq<Value>, c: Ctx, st: State, i: Instr, at: int, r: Regs)
    requires CtxOk(c) && ListsOk(st) && Frame(c, st) && EndsWell(st.code) && !i.JMP? && ConstsOk(st.code, k) &&
      KPrefix(k, k')
    requires IsEntry(c, at) && RunFrom(m, k, c, st, at, r) != Stuck
    ensures var o := RunFrom(m, k, c, st, at, r);
      RunFrom(m, k', c, EmitState(st, i), at, r) == if o.Fall? then Run(m, k', EmitState(st, i), |st.code|, o.r) else o
  {
    var st1 := Discharged(st);
    DischargedOk(st);
    DischargedFrame(c, st);
    DischargedConsts(st, k);
    DischargedCode(st);
    assert Extends(k, k', st1);
    hide Continues, ListsOk, ConstsOk, Discharged, CtxOk, Frame, IsEntry, KPrefix, Extends, RunFrom, EndsWell;
    AppendedOk(st1, i);
    DischargedRun(m, k, c, st, at, r);
    WaitsNowhere(st1);
    EntryContinues(m, k, k', c, st1, Appended(st1, i), at, r);
  }

  lemma WaitsNowhere(st: State)
    requires st.here == []
    ensures Waiting(st.code, st.here)
  {
  }

  // ----- the settled part of the code -----

  lemma BodyOk(c: Ctx, fs: Fs, d: Desc)
    requires Building(c, fs, d)
    ensures ListsOk(BodyState(fs, d)) && EndsWell(Body(fs.code, d.k)) && TestsJump(Body(fs.code, d.k))
    ensures |c.code| <= |Body(fs.code, d.k)|
  {
    assert |c.code| <= |fs.code|;
    hide Frame, ConstsOk, KPrefix, CtxOk;
    var st, b := StateOf(fs, d), Body(fs.code, d.k);
    assert forall i :: 0 <= i < |b| ==> b[i] == fs.code[i];
    forall j | j in st.here || j in st.tt || j in st.ff ensures j < |b| && ValueJump(b, j) == ValueJump(fs.code, j) {
    }
    hide HasTarget;
  }

  lemma BodyFrame(c: Ctx, fs: Fs, d: Desc)
    requires Building(c, fs, d)
    ensures Frame(c, BodyState(fs, d)) && ConstsOk(Body(fs.code, d.k), fs.k)
  {
    var b := Body(fs.code, d.k);
    assert forall i :: 0 <= i < |b| ==> b[i] == fs.code[i];
    hide Waiting;
    forall i | 0 <= i < |c.code| && i !in c.here ensures Untouched(c, b, i) {
      assert Untouched(c, fs.code, i);
    }
    forall i | 0 <= i < |b| ensures ConstOk(b[i], |fs.k|) { assert ConstOk(fs.code[i], |fs.k|); }
  }

  // ----- values into registers -----

  predicate Settles(k: Kind) {
    !k.VReloc? && !k.VJmp?
  }

  // The instruction `i` loads the value of the kind `k`.
  ghost predicate Loads(m: Sem, fs: Fs, k: Kind, k': seq<Value>, i: Instr, reg: nat) {
    && HasTarget(i) && i.a == reg && (i.LOADBOOL? ==> !i.skip) && ConstOk(i, |k'|)
    && forall r :: Computed(m, k', i, r) == KindValue(m, fs, k, r)
  }

  lemma LoadBuilding(c: Ctx, fs: Fs, d: Desc, k': seq<Value>, i: Instr, reg: nat)
    requires Building(c, fs, d) && Settles(d.k) && HasTarget(i) && KPrefix(fs.k, k') && ConstOk(i, |k'|)
    ensures Building(c, Emit(fs.(k := k'), i), d.(k := VNonReloc(reg)))
  {
    var st := StateOf(fs, d);
    assert StateOf(Emit(fs.(k := k'), i), d.(k := VNonReloc(reg))) == EmitState(st, i);
    EmitConsts(st, i, fs.k, k');
    hide ListsOk, Frame, ConstsOk, CtxOk, TestsJump, EndsWell, EmitState, Emit;
    EmitOk(c, st, i);
  }

  lemma LoadGives(m: Sem, c: Ctx, fs: Fs, d: Desc, k': seq<Value>, i: Instr, reg: nat, at: int, r: Regs, y: Exit)
    requires Building(c, fs, d) && Settles(d.k) && Loads(m, fs, d.k, k', i, reg) && KPrefix(fs.k, k')
    requires Gives(m, c, fs, d, NO_REG, at, r, y)
    ensures Gives(m, c, Emit(fs.(k := k'), i), d.(k := VNonReloc(reg)), reg, at, r, Consumed(y))
  {
    var st := StateOf(fs, d);
    var fs' := Emit(fs.(k := k'), i);
    assert StateOf(fs', d.(k := VNonReloc(reg))) == EmitState(st, i) && BodyState(fs, d) == st;
    EmitOk(c, st, i);
    hide ListsOk, Frame, ConstsOk, CtxOk, TestsJump, EndsWell, EmitState, Emit, KPrefix, KindOk, RunFrom;
    EmitRun(m, fs.k, k', c, st, i, at, r);
    var o := RunFrom(m, fs.k, c, st, at, r);
    if o.Fall? {
      assert Computed(m, k', i, o.r) == KindValue(m, fs, d.k, o.r);
      LoadRun(m, k', EmitState(st, i), |st.code|, o.r);
    }
  }

  // The last instruction runs and the code ends.
  lemma LoadRun(m: Sem, k: seq<Value>, st: State, n: nat, r: Regs)
    requires |st.code| == n + 1 && HasTarget(st.code[n]) && (st.code[n].LOADBOOL? ==> !st.code[n].skip)
    ensures Run(m, k, st, n, r) ==
      match Computed(m, k, st.code[n], r) { case Error => Fail case Ok(w) => Fall(r[st.code[n].a := w], n + 1, None) }
  {
    match Computed(m, k, st.code[n], r) {
      case Error =>
      case Ok(w) => assert Run(m, k, st, n + 1, r[st.code[n].a := w]) == Fall(r[st.code[n].a := w], n + 1, None);
    }
  }

  // The open register of the last instruction is filled in.
  lemma RelocBuilding(c: Ctx, fs: Fs, d: Desc, reg: nat)
    requires Building(c, fs, d) && d.k.VReloc?
    ensures var (fs', d') := Discharge2Reg(fs, d, reg);
      Building(c, fs', d') && StateOf(fs', d') == Appended(BodyState(fs, d), SetA(fs.code[d.k.pc], reg))
  {
    var (fs', d') := Discharge2Reg(fs, d, reg);
    var i := SetA(fs.code[d.k.pc], reg);
    var b := BodyState(fs, d);
    BodyOk(c, fs, d);
    BodyFrame(c, fs, d);
    assert fs'.code == b.code + [i];
    assert ConstOk(fs.code[d.k.pc], |fs.k|);
    hide ListsOk, Frame, CtxOk, TestsJump, EndsWell;
    AppendedOk(b, i);
    AppendedFrame(c, b, i);
  }

  lemma RelocFacts(c: Ctx, fs: Fs, d: Desc, reg: nat)
    requires Building(c, fs, d) && d.k.VReloc?
    ensures var (fs', d') := Discharge2Reg(fs, d, reg);
      && fs'.k == fs.k && BodyState(fs, d).here == [] && d'.k == VNonReloc(reg)
      && BodyState(fs', d') == Appended(BodyState(fs, d), SetA(fs.code[d.k.pc], reg))
      && Extends(fs.k, fs.k, BodyState(fs, d))
  {
    RelocBuilding(c, fs, d, reg);
    BodyFrame(c, fs, d);
    assert KindOk(c, fs, d);
    hide Frame, ListsOk, CtxOk;
  }

  lemma RelocGives(m: Sem, c: Ctx, fs: Fs, d: Desc, reg: nat, at: int, r: Regs, y: Exit)
    requires Building(c, fs, d) && d.k.VReloc? && Gives(m, c, fs, d, NO_REG, at, r, y)
    ensures var (fs', d') := Discharge2Reg(fs, d, reg); Gives(m, c, fs', d', reg, at, r, Consumed(y))
  {
    hide ListsOk, Frame, ConstsOk, TestsJump, EndsWell, Extends, RunFrom, Building, CtxOk, Continues, Waiting;
    BuildingParts(c, fs, d);
    RelocFacts(c, fs, d, reg);
    var (fs', d') := Discharge2Reg(fs, d, reg);
    var i := SetA(fs.code[d.k.pc], reg);
    var b := BodyState(fs, d);
    BodyOk(c, fs, d);
    BodyFrame(c, fs, d);
    AppendedOk(b, i);
    hide Discharge2Reg, KindOk;
    WaitsNowhere(b);
    EntryContinues(m, fs.k, fs.k, c, b, Appended(b, i), at, r);
    RunFromEnds(m, fs.k, c, b, at, r);
    var o := RunFrom(m, fs.k, c, b, at, r);
    if o.Fall? {
      assert Computed(m, fs.k, i, o.r) == Computed(m, fs.k, fs.code[d.k.pc], o.r);
      LoadRun(m, fs.k, Appended(b, i), |b.code|, o.r);
    }
  }

  lemma RunFromEnds(m: Sem, k: seq<Value>, c: Ctx, st: State, at: int, r: Regs)
    requires EndsWell(st.code)
    ensures EndsAt(st, RunFrom(m, k, c, st, at, r))
  {
    EnterEnds(m, k, st, |c.code|, at, r);
  }
}
