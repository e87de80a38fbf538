/**
 Putting the value of an expression into a register: `discharge2reg`, `exp2reg` and the
 operations on top of them.
 */
module LuaRegisters {
  import opened LuaVm
  import opened LuaRun
  import opened LuaCodegen
  import opened LuaFrame
  import opened LuaExit
  import opened LuaMeaning
  import opened Wrappers

  lemma AddKPrefix(fs: Fs, v: Value)
    ensures KPrefix(fs.k, AddK(fs, v).k) && IndexOf(fs.k, v) < |AddK(fs, v).k| && AddK(fs, v).k[IndexOf(fs.k, v)] == v
    ensures AddK(fs, v) == fs.(k := AddK(fs, v).k)
  {
  }

  // The instruction `discharge2reg` emits for a kind
  function LoadOf(fs: Fs, k: Kind, reg: nat): Instr {
    match k
    case VTrue => LOADBOOL(reg, true, false)
    case VFalse => LOADBOOL(reg, false, false)
    case VK(info) => LOADK(reg, info)
    case VKNum(n) => LOADK(reg, IndexOf(fs.k, Num(n)))
    case VNonReloc(r) => MOVE(reg, r)
    case VLocal(r) => MOVE(reg, r)
    case _ => LOADBOOL(reg, false, false)
  }

  function LoadConsts(fs: Fs, k: Kind): seq<Value> {
    if k.VKNum? then AddK(fs, Num(k.nval)).k else fs.k
  }

  lemma LoadOfLoads(m: Sem, c: Ctx, fs: Fs, d: Desc, reg: nat)
    requires Settles(d.k) && KindOk(c, fs, d)
    ensures KPrefix(fs.k, LoadConsts(fs, d.k)) && Loads(m, fs, d.k, LoadConsts(fs, d.k), LoadOf(fs, d.k, reg), reg)
  {
    if d.k.VKNum? { AddKPrefix(fs, Num(d.k.nval)); }
  }

  // The value is in that register already.
  predicate InPlace(k: Kind, reg: nat) {
    (k.VNonReloc? || k.VLocal?) && k.reg == reg
  }

  lemma Discharge2RegCases(c: Ctx, fs: Fs, d: Desc, reg: nat)
    requires Building(c, fs, d)
    ensures var (fs', d') := Discharge2Reg(fs, d, reg);
      if d.k.VJmp? then fs' == fs && d' == d
      else if InPlace(d.k, reg) then fs' == fs && d' == d.(k := VNonReloc(reg))
      else if d.k.VReloc? then true
      else fs' == Emit(fs.(k := LoadConsts(fs, d.k)), LoadOf(fs, d.k, reg)) && d' == d.(k := VNonReloc(reg))
  {
    if d.k.VKNum? { AddKPrefix(fs, Num(d.k.nval)); }
  }

  lemma Discharge2RegOk(m: Sem, c: Ctx, fs: Fs, d: Desc, reg: nat)
    requires Building(c, fs, d)
    ensures var (fs', d') := Discharge2Reg(fs, d, reg);
      && Building(c, fs', d') && d'.t == d.t && d'.f == d.f && fs'.freereg == fs.freereg && fs'.nactvar == fs.nactvar
      && KPrefix(fs.k, fs'.k)
      && (if d.k.VJmp? then fs' == fs && d' == d else d'.k == VNonReloc(reg))
  {
    Discharge2RegCases(c, fs, d, reg);
    if d.k.VReloc? {
      RelocBuilding(c, fs, d, reg);
    } else if !d.k.VJmp? && !InPlace(d.k, reg) {
      LoadOfLoads(m, c, fs, d, reg);
      LoadBuilding(c, fs, d, LoadConsts(fs, d.k), LoadOf(fs, d.k, reg), reg);
    }
  }

  lemma Discharge2RegGives(m: Sem, c: Ctx, fs: Fs, d: Desc, reg: nat, at: int, r: Regs, y: Exit)
    requires Building(c, fs, d) && Gives(m, c, fs, d, NO_REG, at, r, y)
    ensures var (fs', d') := Discharge2Reg(fs, d, reg);
      Gives(m, c, fs', d', reg, at, r, if d.k.VJmp? || InPlace(d.k, reg) then y else Consumed(y))
  {
    Discharge2RegCases(c, fs, d, reg);
    if d.k.VReloc? {
      RelocGives(m, c, fs, d, reg, at, r, y);
    } else if !d.k.VJmp? && !InPlace(d.k, reg) {
      LoadOfLoads(m, c, fs, d, reg);
      LoadGives(m, c, fs, d, LoadConsts(fs, d.k), LoadOf(fs, d.k, reg), reg, at, r, y);
    }
  }

  // ----- exp2reg -----

  // The jump of a comparison joins the true list.
  function Listed(d: Desc): Desc {
    if d.k.VJmp? then d.(t := d.t + [d.k.pc]) else d
  }

  lemma ListedOk(c: Ctx, fs: Fs, d: Desc)
    requires Building(c, fs, d)
    ensures var st := StateOf(fs, Listed(d)); ListsOk(st) && Frame(c, st)
  {
    if d.k.VJmp? {
      var st, st' := StateOf(fs, d), StateOf(fs, Listed(d));
      var pc := d.k.pc;
      assert forall j :: j in d.t + [pc] <==> j in d.t || j == pc;
      assert !ValueJump(fs.code, pc) && Guarded(fs.code, pc);
      assert ListsOk(st');
      hide ListsOk, ConstsOk, TestsJump, EndsWell;
      assert |c.code| < pc;
      assert Frame(c, st');
    }
  }

  // What the code has computed when only the lists are left to be closed.
  ghost predicate GivesReg(m: Sem, c: Ctx, o: Out, jmp: bool, reg: nat, r: Regs, v: Result) {
    match o
    case Stuck => false
    case Fail => v == Error
    case Leave(b, _, w, r') => v == ValueOf(Gone(b, w)) && AgreeBut(r, r', c.base, reg)
    case Fall(r', _, _) => v == Ok(if jmp then Bool(false) else Get(r', reg)) && AgreeBut(r, r', c.base, reg)
  }

  lemma CompareRun(m: Sem, k: seq<Value>, st: State, n: nat, r: Regs)
    requires |st.code| == n + 2 && st.code[n].COMPARE? && st.code[n + 1].JMP?
    ensures Run(m, k, st, n, r) ==
      match Taken(m, k, st.code[n], r) { case None => Fail
        case Some(b) => if b then Jump(m, k, st, n + 1, r) else Fall(r, n + 2, None) }
  {
  }

  lemma ListedContinues(c: Ctx, fs: Fs, d: Desc)
    requires Building(c, fs, d) && d.k.VJmp?
    ensures Continues(BodyState(fs, d), StateOf(fs, Listed(d)), 0) && ConstsOk(Body(fs.code, d.k), fs.k)
  {
    BodyOk(c, fs, d);
    BodyFrame(c, fs, d);
    var b, st' := BodyState(fs, d), StateOf(fs, Listed(d));
    var pc := d.k.pc;
    assert forall j :: j in d.t + [pc] <==> j in d.t || j == pc;
    assert |b.code| == pc - 1 && fs.jpc == [];
    assert forall i :: 0 <= i < |b.code| ==> b.code[i] == fs.code[i];
    hide ListsOk, ConstsOk, Frame, TestsJump, EndsWell, Building, Body;
    forall i | 0 <= i < |b.code| && b.code[i].JMP?
      ensures SameJump(b, st', i) && Guarded(st'.code, i) == Guarded(b.code, i)
    {
    }
  }

  // The comparison decides: true leaves, false falls through.
  lemma ListedEnd(m: Sem, c: Ctx, fs: Fs, d: Desc, r: Regs)
    requires Building(c, fs, d) && d.k.VJmp?
    ensures Run(m, fs.k, StateOf(fs, Listed(d)), |Body(fs.code, d.k)|, r) ==
      match KindValue(m, fs, d.k, r)
      case Error => Fail
      case Ok(v) => if v == Bool(true) then Leave(true, d.k.pc, None, r) else Fall(r, |fs.code|, None)
    ensures KindValue(m, fs, d.k, r) in {Error, Ok(Bool(true)), Ok(Bool(false))}
  {
    var st' := StateOf(fs, Listed(d));
    var n := d.k.pc - 1;
    assert d.k.pc in Listed(d).t && KindOk(c, fs, d) && |Body(fs.code, d.k)| == n;
    assert DestOf(st', n + 1) == ToTrue && !ValueJump(st'.code, n + 1);
    hide Building, KindOk;
    CompareRun(m, fs.k, st', n, r);
  }

  lemma ListedGives(m: Sem, c: Ctx, fs: Fs, d: Desc, reg: nat, at: int, r: Regs, y: Exit)
    requires Building(c, fs, d) && (d.k.VJmp? || d.k == VNonReloc(reg)) && Gives(m, c, fs, d, reg, at, r, y)
    ensures GivesReg(m, c, RunFrom(m, fs.k, c, StateOf(fs, Listed(d)), at, r), d.k.VJmp?, reg, r, ValueOf(y))
  {
    if d.k.VJmp? {
      var b, st' := BodyState(fs, d), StateOf(fs, Listed(d));
      ListedContinues(c, fs, d);
      BodyOk(c, fs, d);
      BodyFrame(c, fs, d);
      BuildingParts(c, fs, d);
      assert Extends(fs.k, fs.k, b) && KindOk(c, fs, d);
      hide Building, Continues, ConstsOk, RunFrom, KindValue, Extends, ListsOk, Frame, CtxOk, BodyState, KindOk;
      RunFromEnds(m, fs.k, c, b, at, r);
      assert b.here == [] by { BodyLists(c, fs, d); }
      WaitsNowhere(b);
      EntryContinues(m, fs.k, fs.k, c, b, st', at, r);
      var o := RunFrom(m, fs.k, c, b, at, r);
      if o.Fall? {
        BodyLists(c, fs, d);
        assert o.at == |b.code|;
        ListedEnd(m, c, fs, d, o.r);
      }
    }
  }

  lemma BodyLists(c: Ctx, fs: Fs, d: Desc)
    requires KindOk(c, fs, d) && d.k.VJmp?
    ensures BodyState(fs, d).here == [] && BodyState(fs, d).code == Body(fs.code, d.k)
  {
  }

  // ----- the loads of `false` and `true` -----

  function Labelled(st: State, reg: nat, jmp: bool): State {
    var labels := [LOADBOOL(reg, false, true), LOADBOOL(reg, true, false)];
    if jmp then st.(code := st.code + labels)
    else State(st.code + ([JMP(NO_JUMP)] + labels), [|st.code|] + st.here, st.tt, st.ff)
  }

  lemma LabelsCode(fs: Fs, reg: nat)
    requires fs.jpc == []
    ensures Labels(fs, reg) == fs.(code := fs.code + [LOADBOOL(reg, false, true), LOADBOOL(reg, true, false)])
  {
    var f1 := Emit(fs, LOADBOOL(reg, false, true));
    assert f1.code == fs.code + [LOADBOOL(reg, false, true)];
    assert Labels(fs, reg).code == f1.code + [LOADBOOL(reg, true, false)];
  }

  lemma LabelledCode(st: State, reg: nat, jmp: bool)
    ensures var st' := Labelled(st, reg, jmp); var n := |st.code|;
      && |st'.code| == n + (if jmp then 2 else 3)
      && (forall i :: 0 <= i < n ==> st'.code[i] == st.code[i])
      && (!jmp ==> st'.code[n] == JMP(NO_JUMP))
      && st'.code[|st'.code| - 2] == LOADBOOL(reg, false, true) &&
        st'.code[|st'.code| - 1] == LOADBOOL(reg, true, false)
      && (forall j :: j in st'.here <==> j in st.here || (!jmp && j == n))
      && st'.tt == st.tt && st'.ff == st.ff
  {
  }

  lemma LabelledLists(st: State, reg: nat, jmp: bool)
    requires ListsOk(st) && EndsWell(st.code) && TestsJump(st.code)
    ensures ListsOk(Labelled(st, reg, jmp)) && EndsWell(Labelled(st, reg, jmp).code) &&
      TestsJump(Labelled(st, reg, jmp).code)
  {
    LabelledCode(st, reg, jmp);
    var st' := Labelled(st, reg, jmp);
    assert forall j :: 0 <= j <= |st.code| ==> ValueJump(st'.code, j) == ValueJump(st.code, j);
    hide Labelled;
  }

  lemma LabelledContinues(st: State, reg: nat, jmp: bool)
    requires ListsOk(st) && EndsWell(st.code) && (jmp ==> st.here == [])
    ensures Continues(st, Labelled(st, reg, jmp), 0)
  {
    LabelledCode(st, reg, jmp);
    var st' := Labelled(st, reg, jmp);
    hide Labelled;
    forall j | 0 <= j < |st.code| && st.code[j].JMP? && j !in st.here
      ensures SameJump(st, st', j) {}
    assert forall j :: 0 <= j <= |st.code| ==> Guarded(st'.code, j) == Guarded(st.code, j);
  }

  lemma LabelledFrame(c: Ctx, st: State, reg: nat, jmp: bool)
    requires Frame(c, st)
    ensures Frame(c, Labelled(st, reg, jmp))
  {
    LabelledCode(st, reg, jmp);
    var st' := Labelled(st, reg, jmp);
    hide Labelled;
    forall i | 0 <= i < |c.code| && i !in c.here ensures Untouched(c, st'.code, i) {
      assert Untouched(c, st.code, i);
    }
  }

  lemma LabelledEnd(m: Sem, k: seq<Value>, st: State, reg: nat, jmp: bool, at: int, r: Regs)
    requires ListsOk(st) && EndsWell(st.code) && (jmp ==> st.here == []) && (at == |st.code| || at in st.here)
    ensures var o := Enter(m, k, Labelled(st, reg, jmp), |st.code|, at, r);
      o.Fall? && o.r == if jmp then r[reg := Bool(false)] else r
  {
    LabelledCode(st, reg, jmp);
    var st', n := Labelled(st, reg, jmp), |st.code|;
    hide Labelled;
    if at != n {
      assert DestOf(st', at) == ToHere && Jumping(st'.code, at, r) == r;
    } else if jmp {
      assert Run(m, k, st', n, r) == Run(m, k, st', n + 2, r[reg := Bool(false)]);
    } else {
      assert n in st'.here && st'.code[n].JMP? && !Guarded(st'.code, n);
      assert Run(m, k, st', n, r) == Jump(m, k, st', n, r);
    }
  }

  lemma LabelledGives(m: Sem, c: Ctx, fs: Fs, st: State, reg: nat, jmp: bool, at: int, r: Regs, v: Result)
    requires st.code == fs.code && ListsOk(st) && EndsWell(st.code) && ConstsOk(fs.code, fs.k) && CtxOk(c) &&
      Frame(c, st)
    requires (jmp ==> st.here == []) && IsEntry(c, at)
    requires GivesReg(m, c, RunFrom(m, fs.k, c, st, at, r), jmp, reg, r, v)
    ensures GivesReg(m, c, RunFrom(m, fs.k, c, Labelled(st, reg, jmp), at, r), false, reg, r, v)
  {
    LabelledContinues(st, reg, jmp);
    assert Extends(fs.k, fs.k, st) && Waiting(st.code, st.here);
    hide Continues, ConstsOk, RunFrom, Extends, ListsOk, Labelled, CtxOk, Frame, Waiting, IsEntry, EndsWell;
    EntryContinues(m, fs.k, fs.k, c, st, Labelled(st, reg, jmp), at, r);
    RunFromEnds(m, fs.k, c, st, at, r);
    var o := RunFrom(m, fs.k, c, st, at, r);
    if o.Fall? { LabelledEnd(m, fs.k, st, reg, jmp, o.at, o.r); }
  }

  lemma SettledGives(m: Sem, c: Ctx, k: seq<Value>, st: State, reg: nat, pf: int, pt: int, at: int, r: Regs, v: Result)
    requires ListsOk(st) && LabelsOk(st, reg, pf, pt)
    requires GivesReg(m, c, RunFrom(m, k, c, st, at, r), false, reg, r, v)
    ensures GivesReg(m, c, RunFrom(m, k, c, Settled(st, reg, pf, pt), at, r), false, reg, r, v)
    ensures !RunFrom(m, k, c, Settled(st, reg, pf, pt), at, r).Leave?
  {
    hide RunFrom, LabelsOk, ListsOk, Settled;
    SettledEnter(m, k, c, st, reg, pf, pt, at, r);
  }

  // ----- the whole of exp2reg -----

  // The state in which the lists are closed
  function ToSettle(fs: Fs, d: Desc, reg: nat): State {
    var st := StateOf(fs, Listed(d));
    if NeedValue(fs.code, Listed(d).t) || NeedValue(fs.code, Listed(d).f) then Labelled(st, reg, d.k.VJmp?) else st
  }

  function LabelPc(fs: Fs, d: Desc, back: int): int {
    var e := Listed(d);
    if NeedValue(fs.code, e.t) || NeedValue(fs.code, e.f)
    then |fs.code| + (if d.k.VJmp? then 2 else 3) - back else NO_JUMP
  }

  lemma ToSettleOk(c: Ctx, fs: Fs, d: Desc, reg: nat)
    requires Building(c, fs, d)
    ensures var st := ToSettle(fs, d, reg);
      ListsOk(st) && Frame(c, st) && EndsWell(st.code) && TestsJump(st.code)
      && LabelsOk(st, reg, LabelPc(fs, d, 2), LabelPc(fs, d, 1))
  {
    ListedOk(c, fs, d);
    var st := StateOf(fs, Listed(d));
    var jmp := d.k.VJmp?;
    assert jmp ==> st.here == [];
    assert |c.code| <= |st.code|;
    LabelledCode(st, reg, jmp);
    hide ListsOk, Frame, ConstsOk, CtxOk, KindOk, Labelled;
    LabelledLists(st, reg, jmp);
    LabelledFrame(c, st, reg, jmp);
    hide EndsWell, TestsJump;
  }

  lemma ToSettleConsts(c: Ctx, fs: Fs, d: Desc, reg: nat)
    requires Building(c, fs, d)
    ensures ConstsOk(ToSettle(fs, d, reg).code, fs.k)
  {
    LabelledCode(StateOf(fs, Listed(d)), reg, d.k.VJmp?);
    hide Labelled, ListsOk, Frame;
    var code := ToSettle(fs, d, reg).code;
    forall i | 0 <= i < |code| ensures ConstOk(code[i], |fs.k|) {
      if i < |fs.code| { assert code[i] == fs.code[i] && ConstOk(fs.code[i], |fs.k|); }
    }
  }

  function Placed(reg: nat): Desc {
    Desc(VNonReloc(reg), [], [])
  }

  // The jump over the loads, the loads, and the jump back on the list to here
  function WithLabels(fs: Fs, jmp: bool, reg: nat): Fs {
    var (fs2, fj) := if jmp then (fs, []) else EmitJump(fs);
    PatchToHere(Labels(fs2, reg), fj)
  }

  lemma WithLabelsIs(fs: Fs, d: Desc, reg: nat)
    requires d.k.VJmp? ==> fs.jpc == []
    ensures var fs' := WithLabels(fs, d.k.VJmp?, reg);
      StateOf(fs', d) == Labelled(StateOf(fs, d), reg, d.k.VJmp?) && fs' == fs.(code := fs'.code, jpc := fs'.jpc)
  {
    if d.k.VJmp? {
      LabelsCode(fs, reg);
    } else {
      var (fs2, fj) := EmitJump(fs);
      LabelsCode(fs2, reg);
      hide Labels;
      assert fs2.code + [LOADBOOL(reg, false, true), LOADBOOL(reg, true, false)] ==
             fs.code + ([JMP(NO_JUMP)] + [LOADBOOL(reg, false, true), LOADBOOL(reg, true, false)]);
    }
  }

  lemma Exp2RegIs(fs: Fs, d: Desc, reg: nat)
    requires var (fs1, d1) := Discharge2Reg(fs, d, reg); d1.k.VJmp? ==> fs1.jpc == []
    ensures var (fs1, d1) := Discharge2Reg(fs, d, reg); var (fs', d') := Exp2Reg(fs, d, reg);
      && d' == Placed(reg) && fs' == fs1.(code := fs'.code, jpc := fs'.jpc)
      && (if HasJumps(Listed(d1))
          then StateOf(fs', d') == Settled(ToSettle(fs1, d1, reg), reg, LabelPc(fs1, d1, 2), LabelPc(fs1, d1, 1))
          else fs' == fs1)
  {
    hide Discharge2Reg, NeedValue, WithLabels, Labelled, Exp2Reg, Settled, CloseLists;
    var (fs1, d1) := Discharge2Reg(fs, d, reg);
    Exp2RegUnfolds(fs, d, reg);
    var e := Listed(d1);
    if HasJumps(e) {
      if NeedValue(fs1.code, e.t) || NeedValue(fs1.code, e.f) {
        WithLabelsIs(fs1, e, reg);
        LabelledLength(StateOf(fs1, e), reg, d1.k.VJmp?);
        ClosedIsSettled(WithLabels(fs1, d1.k.VJmp?, reg), e, reg, LabelPc(fs1, d1, 2), LabelPc(fs1, d1, 1));
      } else {
        ClosedIsSettled(fs1, e, reg, NO_JUMP, NO_JUMP);
      }
    }
  }

  lemma LabelledLength(st: State, reg: nat, jmp: bool)
    ensures |Labelled(st, reg, jmp).code| == |st.code| + if jmp then 2 else 3
  {
  }

  lemma ClosedIsSettled(fs: Fs, d: Desc, reg: nat, pf: int, pt: int)
    ensures var fs' := CloseLists(fs, d, reg, pf, pt);
      StateOf(fs', Placed(reg)) == Settled(StateOf(fs, d), reg, pf, pt) && fs' == fs.(code := fs'.code)
  {
    hide Patched;
  }

  lemma Exp2RegUnfolds(fs: Fs, d: Desc, reg: nat)
    ensures var (fs1, d1) := Discharge2Reg(fs, d, reg); var e := Listed(d1);
      Exp2Reg(fs, d, reg) ==
      if !HasJumps(e) then (fs1, Placed(reg))
      else if !NeedValue(fs1.code, e.t) && !NeedValue(fs1.code, e.f)
        then (CloseLists(fs1, e, reg, NO_JUMP, NO_JUMP), Placed(reg))
      else var fs3 := WithLabels(fs1, d1.k.VJmp?, reg);
        (CloseLists(fs3, e, reg, |fs3.code| - 2, |fs3.code| - 1), Placed(reg))
  {
    hide Discharge2Reg, NeedValue, CloseLists, Labels;
  }

  lemma Exp2RegOk(m: Sem, c: Ctx, fs: Fs, d: Desc, reg: nat)
    requires Building(c, fs, d)
    ensures var (fs', d') := Exp2Reg(fs, d, reg);
      && Building(c, fs', d') && d' == Placed(reg) && fs'.freereg == fs.freereg && fs'.nactvar == fs.nactvar
      && KPrefix(fs.k, fs'.k)
  {
    Discharge2RegOk(m, c, fs, d, reg);
    Exp2RegIs(fs, d, reg);
    var (fs1, d1) := Discharge2Reg(fs, d, reg);
    var (fs', d') := Exp2Reg(fs, d, reg);
    hide Discharge2Reg, Exp2Reg;
    if HasJumps(Listed(d1)) {
      SettledBuilding(c, fs1, d1, fs', reg);
    } else {
      assert d1.k.VNonReloc? && d1.t == [] && d1.f == [];
      assert d1 == Placed(reg);
    }
  }

  lemma SettledBuilding(c: Ctx, fs: Fs, d: Desc, fs': Fs, reg: nat)
    requires Building(c, fs, d) && fs' == fs.(code := fs'.code, jpc := fs'.jpc)
    requires StateOf(fs', Placed(reg)) == Settled(ToSettle(fs, d, reg), reg, LabelPc(fs, d, 2), LabelPc(fs, d, 1))
    ensures Building(c, fs', Placed(reg))
  {
    ToSettleOk(c, fs, d, reg);
    ToSettleConsts(c, fs, d, reg);
    var st := ToSettle(fs, d, reg);
    var (pf, pt) := (LabelPc(fs, d, 2), LabelPc(fs, d, 1));
    LabelsAfter(c, fs, d, reg);
    hide ToSettle, ListsOk, Frame, ConstsOk, CtxOk, LabelsOk, Settled, LabelPc, EndsWell, TestsJump;
    SettledOk(st, reg, pf, pt);
    SettledFrame(c, st, reg, pf, pt);
    SettledConsts(st, reg, pf, pt, fs.k);
  }

  // The loads stand after the start of the expression.
  lemma LabelsAfter(c: Ctx, fs: Fs, d: Desc, reg: nat)
    requires Building(c, fs, d)
    ensures var st := ToSettle(fs, d, reg); forall j :: j in st.tt || j in st.ff ==>
      ValueJump(st.code, j) || (LabelPc(fs, d, 2) >= |c.code| && LabelPc(fs, d, 1) >= |c.code|)
  {
    BuildingParts(c, fs, d);
    hide Building, ListsOk, Frame, CtxOk, ConstsOk;
  }

  lemma SettledConsts(st: State, reg: nat, pf: int, pt: int, k: seq<Value>)
    requires ListsOk(st) && ConstsOk(st.code, k)
    ensures ConstsOk(Settled(st, reg, pf, pt).code, k)
  {
    SettledCode(st, reg, pf, pt);
    hide Settled;
    forall i | 0 <= i < |st.code| ensures ConstOk(Settled(st, reg, pf, pt).code[i], |k|) {
      assert ConstOk(st.code[i], |k|) && Settled(st, reg, pf, pt).code[i] == SettledAt(st, reg, pf, pt, i);
    }
  }

  lemma Exp2RegGives(m: Sem, c: Ctx, fs: Fs, d: Desc, reg: nat, at: int, r: Regs, y: Exit)
    requires Building(c, fs, d) && Gives(m, c, fs, d, NO_REG, at, r, y)
    ensures var (fs', d') := Exp2Reg(fs, d, reg); GivesValue(m, c, fs', d', reg, at, r, ValueOf(y))
  {
    hide Discharge2Reg, Exp2Reg, RunFrom;
    Discharge2RegOk(m, c, fs, d, reg);
    var (fs1, d1) := Discharge2Reg(fs, d, reg);
    var (fs', d') := Exp2Reg(fs, d, reg);
    if d1.k.VJmp? { JmpHasNoHere(c, fs1, d1); }
    Discharge2RegGives(m, c, fs, d, reg, at, r, y);
    Exp2RegIs(fs, d, reg);
    hide Building, Gives;
    RegGives(m, c, fs1, d1, fs', reg, at, r, if d.k.VJmp? || InPlace(d.k, reg) then y else Consumed(y));
  }

  lemma JmpHasNoHere(c: Ctx, fs: Fs, d: Desc)
    requires Building(c, fs, d) && d.k.VJmp?
    ensures fs.jpc == []
  {
  }

  // The value is in the register, the lists are closed.
  lemma RegGives(m: Sem, c: Ctx, fs1: Fs, d1: Desc, fs': Fs, reg: nat, at: int, r: Regs, y: Exit)
    requires Building(c, fs1, d1) && (d1.k.VJmp? || d1.k == VNonReloc(reg)) && Gives(m, c, fs1, d1, reg, at, r, y)
    requires fs' == fs1.(code := fs'.code, jpc := fs'.jpc)
    requires if HasJumps(Listed(d1))
             then StateOf(fs', Placed(reg)) ==
               Settled(ToSettle(fs1, d1, reg), reg, LabelPc(fs1, d1, 2), LabelPc(fs1, d1, 1))
             else fs' == fs1
    ensures GivesValue(m, c, fs', Placed(reg), reg, at, r, ValueOf(y))
  {
    hide RunFrom, IsEntry;
    ListedGives(m, c, fs1, d1, reg, at, r, y);
    if HasJumps(Listed(d1)) {
      ToSettleGives(m, c, fs1, d1, reg, at, r, ValueOf(y));
      hide ToSettle, Building, LabelPc, Settled, Listed;
    } else {
      BuildingParts(c, fs1, d1);
      RunFromEnds(m, fs1.k, c, StateOf(fs1, d1), at, r);
      assert d1 == Placed(reg);
    }
  }

  lemma JumpNeedsValue(c: Ctx, fs: Fs, d: Desc)
    requires KindOk(c, fs, d) && d.k.VJmp?
    ensures NeedValue(fs.code, Listed(d).t) && fs.jpc == []
  {
    assert d.k.pc in Listed(d).t && !ValueJump(fs.code, d.k.pc);
  }

  lemma ToSettleGives(m: Sem, c: Ctx, fs: Fs, d: Desc, reg: nat, at: int, r: Regs, v: Result)
    requires Building(c, fs, d) && IsEntry(c, at)
    requires GivesReg(m, c, RunFrom(m, fs.k, c, StateOf(fs, Listed(d)), at, r), d.k.VJmp?, reg, r, v)
    requires d.k.VJmp? ==> HasJumps(Listed(d))
    ensures var o := RunFrom(m, fs.k, c, Settled(ToSettle(fs, d, reg), reg, LabelPc(fs, d, 2), LabelPc(fs, d, 1)), at,
      r);
      GivesReg(m, c, o, false, reg, r, v) && !o.Leave?
  {
    hide RunFrom, ListsOk, Frame, ConstsOk, LabelsOk, Settled, Building, Labelled, EndsWell, TestsJump, NeedValue,
      CtxOk;
    ToSettleOk(c, fs, d, reg);
    ListedOk(c, fs, d);
    var st := StateOf(fs, Listed(d));
    BuildingParts(c, fs, d);
    if d.k.VJmp? { JumpNeedsValue(c, fs, d); }
    LabelledGives(m, c, fs, st, reg, d.k.VJmp?, at, r, v);
    SettledGives(m, c, fs.k, ToSettle(fs, d, reg), reg, LabelPc(fs, d, 2), LabelPc(fs, d, 1), at, r, v);
  }

  // ----- what waits after it -----

  // Unless the value was in that register already, no jump with a value waits any more.
  lemma Exp2RegHere(m: Sem, c: Ctx, fs: Fs, d: Desc, reg: nat)
    requires Building(c, fs, d) && !InPlace(d.k, reg)
    ensures NoValuesHere(Exp2Reg(fs, d, reg).0)
  {
    Discharge2RegOk(m, c, fs, d, reg);
    DischargeHere(c, fs, d, reg);
    var (fs1, d1) := Discharge2Reg(fs, d, reg);
    var (fs', d') := Exp2Reg(fs, d, reg);
    Exp2RegIs(fs, d, reg);
    hide Discharge2Reg, Exp2Reg;
    if HasJumps(Listed(d1)) {
      ListedOk(c, fs1, d1);
      ToSettleOk(c, fs1, d1, reg);
      BuildingParts(c, fs1, d1);
      hide Building, ListsOk, Frame, CtxOk, ConstsOk, TestsJump, LabelsOk, Settled, LabelPc;
      SettledHere(fs1, d1, reg, LabelPc(fs1, d1, 2), LabelPc(fs1, d1, 1));
    }
  }

  lemma DischargeHere(c: Ctx, fs: Fs, d: Desc, reg: nat)
    requires Building(c, fs, d) && !InPlace(d.k, reg)
    ensures Discharge2Reg(fs, d, reg).0.jpc == []
  {
    Discharge2RegCases(c, fs, d, reg);
    hide LoadOf, LoadConsts;
  }

  lemma SettledHere(fs: Fs, d: Desc, reg: nat, pf: int, pt: int)
    requires fs.jpc == [] && EndsWell(fs.code) && ListsOk(ToSettle(fs, d, reg))
    ensures var st := Settled(ToSettle(fs, d, reg), reg, pf, pt); forall j :: j in st.here ==> !ValueJump(st.code, j)
  {
    var st := ToSettle(fs, d, reg);
    LabelledCode(StateOf(fs, Listed(d)), reg, d.k.VJmp?);
    hide Labelled;
    forall j | j in st.here ensures !ValueJump(st.code, j) {}
    SettledCode(st, reg, pf, pt);
    hide Settled, ToSettle;
    forall j | j in st.here ensures !ValueJump(Settled(st, reg, pf, pt).code, j) {
      if j > 0 && j <= |st.code| { assert Settled(st, reg, pf, pt).code[j - 1] == SettledAt(st, reg, pf, pt, j - 1); }
    }
  }
}
