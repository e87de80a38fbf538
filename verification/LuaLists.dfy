/**
 The patch lists of a function being compiled: no jump is on two of them or twice on one,
 and every jump on them still waits, whatever the expression.
 */
module LuaLists {
  import opened LuaVm
  import opened LuaCodegen
  import opened LuaExit
  import opened LuaRegisters
  import opened LuaOperators
  import opened LuaCompare
  import opened LuaBranches
  import opened LuaNot

  ghost predicate Once(js: seq<int>) {
    forall x, y :: 0 <= x < y < |js| ==> js[x] != js[y]
  }

  ghost predicate Apart(a: seq<int>, b: seq<int>) {
    forall j :: j in a ==> j !in b
  }

  // A jump without a target
  predicate Open(code: seq<Instr>, j: int) {
    0 <= j < |code| && code[j] == JMP(NO_JUMP)
  }

  ghost predicate AllOpen(code: seq<Instr>, js: seq<int>) {
    forall j :: j in js ==> Open(code, j)
  }

  // The list `js` is well formed, and apart from the jumps to here.
  ghost predicate TidyList(fs: Fs, js: seq<int>) {
    Once(js) && AllOpen(fs.code, js) && Apart(fs.jpc, js)
  }

  ghost predicate Tidy(fs: Fs, d: Desc) {
    && Once(fs.jpc) && AllOpen(fs.code, fs.jpc)
    && TidyList(fs, d.t) && TidyList(fs, d.f) && Apart(d.t, d.f)
    && (d.k.VJmp? ==> Open(fs.code, d.k.pc) && d.k.pc !in fs.jpc && d.k.pc !in d.t && d.k.pc !in d.f)
    && (d.k.VReloc? ==> 0 <= d.k.pc == |fs.code| - 1 && !fs.code[d.k.pc].JMP?)
  }

  // The jumps of an expression, and the jumps to here
  ghost predicate Mine(fs: Fs, d: Desc, j: int) {
    j in fs.jpc || j in d.t || j in d.f || (d.k.VJmp? && j == d.k.pc)
  }

  // From `fs` to `fs'`, the open jumps of others stay open and stay theirs; and there are no
  // new ones: every other open jump is on a list.
  ghost predicate Leaves(fs: Fs, d: Desc, fs': Fs, d': Desc) {
    forall j :: Open(fs.code, j) && !Mine(fs, d, j) <==> Open(fs'.code, j) && !Mine(fs', d', j)
  }

  ghost predicate Goes(fs: Fs, d: Desc, fs': Fs, d': Desc) {
    Tidy(fs', d') && Leaves(fs, d, fs', d')
  }

  lemma GoesOn(fs: Fs, d: Desc, fs1: Fs, d1: Desc, fs2: Fs, d2: Desc)
    requires Leaves(fs, d, fs1, d1) && Goes(fs1, d1, fs2, d2)
    ensures Goes(fs, d, fs2, d2)
  {
  }

  lemma OnceJoined(a: seq<int>, b: seq<int>)
    requires Once(a) && Once(b) && Apart(a, b)
    ensures Once(a + b) && forall j :: j in a + b <==> j in a || j in b
  {
    var c := a + b;
    forall x, y | 0 <= x < y < |c| ensures c[x] != c[y] {
      if y < |a| {
        assert c[x] == a[x] && c[y] == a[y];
      } else if x >= |a| {
        assert c[x] == b[x - |a|] && c[y] == b[y - |a|];
      } else {
        assert c[x] in a && c[y] in b;
      }
    }
  }

  // A kind that owns no jump and no instruction
  predicate Free(k: Kind) {
    !k.VJmp? && !k.VReloc?
  }

  // ----- primitive operations -----

  lemma EmitOpen(fs: Fs, i: Instr)
    requires AllOpen(fs.code, fs.jpc) && !i.JMP?
    ensures forall j :: Open(Emit(fs, i).code, j) <==> Open(fs.code, j) && j !in fs.jpc
  {
    var fs' := Emit(fs, i);
    forall j | Open(fs.code, j) && j !in fs.jpc ensures Open(fs'.code, j) { assert fs'.code[j] == fs.code[j]; }
    forall j | Open(fs'.code, j) ensures Open(fs.code, j) && j !in fs.jpc { assert j < |fs.code|; }
  }

  lemma EmitGoes(fs: Fs, d: Desc, i: Instr, k: Kind)
    requires Tidy(fs, d) && Free(d.k) && !i.JMP? && (Free(k) || k == VReloc(|fs.code|))
    ensures Goes(fs, d, Emit(fs, i), d.(k := k))
  {
    EmitOpen(fs, i);
    hide Patched;
  }

  lemma KindGoes(fs: Fs, d: Desc, k: Kind)
    requires Tidy(fs, d) && !d.k.VJmp? && Free(k)
    ensures Goes(fs, d, fs, d.(k := k))
  {
  }

  // Whatever the kind, the lists stay tidy without it.
  lemma KindTidy(fs: Fs, d: Desc, k: Kind)
    requires Tidy(fs, d) && Free(k)
    ensures Tidy(fs, d.(k := k)) && forall j :: Mine(fs, d.(k := k), j) ==> Mine(fs, d, j)
  {
  }

  // A jump list `js` made for the expression `d`
  ghost predicate Makes(fs: Fs, d: Desc, fs': Fs, js: seq<int>) {
    && Tidy(fs', d.(k := VTrue)) && TidyList(fs', js) && Apart(js, d.t) && Apart(js, d.f)
    && forall j :: Open(fs.code, j) && !Mine(fs, d, j) <==>
      Open(fs'.code, j) && !Mine(fs', d.(k := VTrue), j) && j !in js
  }

  lemma EmitJumpMakes(fs: Fs, d: Desc)
    requires Tidy(fs, d) && Free(d.k)
    ensures var (fs', js) := EmitJump(fs); Makes(fs, d, fs', js)
  {
    var (fs', js) := EmitJump(fs);
    var n := |fs.code|;
    OnceJoined([n], fs.jpc);
    assert forall j :: Open(fs.code, j) ==> Open(fs'.code, j) && j < n;
    assert Open(fs'.code, n);
  }

  lemma CondJumpMakes(fs: Fs, d: Desc, i: Instr)
    requires Tidy(fs, d) && Free(d.k) && !i.JMP?
    ensures var (fs', js) := CondJump(fs, i); Makes(fs, d, fs', js)
  {
    EmitGoes(fs, d, i, d.k);
    hide Emit, EmitJump, Tidy;
    EmitJumpMakes(Emit(fs, i), d);
  }

  // The list joins that of the true or of the false jumps.
  lemma ListMade(fs: Fs, d: Desc, fs': Fs, js: seq<int>, k: Kind)
    requires Makes(fs, d, fs', js) && Free(k)
    ensures Goes(fs, d, fs', Desc(k, d.t, d.f + js)) && Goes(fs, d, fs', Desc(k, d.t + js, d.f))
  {
    OnceJoined(d.f, js);
    OnceJoined(d.t, js);
  }

  // One list of an expression joins the jumps to here.
  lemma HereGoes(fs: Fs, d: Desc)
    requires Tidy(fs, d) && Free(d.k)
    ensures Goes(fs, d, PatchToHere(fs, d.t), d.(t := [])) && Goes(fs, d, PatchToHere(fs, d.f), d.(f := []))
  {
    OnceJoined(fs.jpc, d.t);
    OnceJoined(fs.jpc, d.f);
  }

  // Only the code before the lists' jumps, or their tests, is changed.
  lemma SameJumpsGoes(fs: Fs, d: Desc, fs': Fs)
    requires Tidy(fs, d) && fs' == fs.(code := fs'.code) && |fs'.code| == |fs.code|
    requires forall j :: 0 <= j < |fs.code| ==> fs'.code[j] == fs.code[j] || (!fs.code[j].JMP? && !fs'.code[j].JMP?)
    ensures Goes(fs, d, fs', d)
  {
  }

  // ----- values into registers -----

  lemma Discharge2RegGoes(fs: Fs, d: Desc, reg: nat)
    requires Tidy(fs, d)
    ensures var (fs', d') := Discharge2Reg(fs, d, reg);
      && Goes(fs, d, fs', d') && d'.t == d.t && d'.f == d.f &&
        (if d.k.VJmp? then d' == d && fs' == fs else d'.k == VNonReloc(reg))
  {
    var k := VNonReloc(reg);
    if d.k.VReloc? {
      var fs' := fs.(code := Put(fs.code, d.k.pc, SetA(At(fs.code, d.k.pc), reg)));
      SameJumpsGoes(fs, d, fs');
      KindGoes(fs', d, k);
    } else if !d.k.VJmp? {
      KindGoes(fs, d, k);
      var (fs', d') := Discharge2Reg(fs, d, reg);
      hide Emit, Tidy, Leaves;
      if d.k.VKNum? {
        KGoes(fs, d, Num(d.k.nval));
        EmitGoes(AddK(fs, Num(d.k.nval)), d, LOADK(reg, IndexOf(fs.k, Num(d.k.nval))), k);
        GoesOn(fs, d, AddK(fs, Num(d.k.nval)), d, fs', d');
      } else if fs' != fs {
        EmitGoes(fs, d, DischargeInstr(d.k, reg), k);
      }
    }
  }

  function DischargeInstr(k: Kind, reg: nat): Instr {
    match k
    case VTrue => LOADBOOL(reg, true, false)
    case VFalse => LOADBOOL(reg, false, false)
    case VK(i) => LOADK(reg, i)
    case VLocal(r) => MOVE(reg, r)
    case VNonReloc(r) => MOVE(reg, r)
    case _ => LOADBOOL(reg, false, false)
  }

  lemma KGoes(fs: Fs, d: Desc, v: Value)
    requires Tidy(fs, d)
    ensures Goes(fs, d, AddK(fs, v), d)
  {
  }

  // Registers do not matter to the lists.
  lemma RegsGo(fs: Fs, d: Desc, n: int)
    requires Tidy(fs, d)
    ensures Goes(fs, d, fs.(freereg := n), d)
  {
  }

  // The jump of a comparison joins the true list.
  lemma ListedGoes(fs: Fs, d: Desc, k: Kind)
    requires Tidy(fs, d) && d.k.VJmp? && Free(k)
    ensures Goes(fs, d, fs, Desc(k, d.t + [d.k.pc], d.f))
  {
    OnceJoined(d.t, [d.k.pc]);
  }

  lemma ClosedGoes(fs: Fs, d: Desc, reg: nat, pf: int, pt: int)
    requires Tidy(fs, d) && Free(d.k) && !Open(fs.code, pf) && !Open(fs.code, pt)
    ensures Goes(fs, d, CloseLists(fs, d, reg, pf, pt), Desc(VNonReloc(reg), [], []))
  {
    var fs' := CloseLists(fs, d, reg, pf, pt);
    forall j ensures Open(fs'.code, j) <==> Open(fs.code, j) && j !in d.t && j !in d.f {
    }
  }

  lemma LabelsGo(fs: Fs, d: Desc, reg: nat)
    requires Tidy(fs, d) && Free(d.k)
    ensures var (fs2, fj) := EmitJump(fs); Goes(fs, d, PatchToHere(Labels(fs2, reg), fj), d)
    ensures Goes(fs, d, PatchToHere(Labels(fs, reg), []), d)
  {
    var (fs2, fj) := EmitJump(fs);
    EmitJumpMakes(fs, d);
    EmitOpen(fs2, LOADBOOL(reg, false, true));
    var f3 := Emit(fs2, LOADBOOL(reg, false, true));
    EmitOpen(f3, LOADBOOL(reg, true, false));
    var f4 := Emit(f3, LOADBOOL(reg, true, false));
    assert f4.jpc == [] && fs2.jpc == [];
    assert PatchToHere(f4, fj).jpc == fj;
    LabelsAlone(fs, d, reg);
    hide Emit, EmitJump;
  }

  lemma LabelsAlone(fs: Fs, d: Desc, reg: nat)
    requires Tidy(fs, d) && Free(d.k)
    ensures Goes(fs, d, PatchToHere(Labels(fs, reg), []), d)
  {
    var f3 := Emit(fs, LOADBOOL(reg, false, true));
    EmitGoes(fs, d, LOADBOOL(reg, false, true), d.k);
    EmitGoes(f3, d, LOADBOOL(reg, true, false), d.k);
    var f4 := Emit(f3, LOADBOOL(reg, true, false));
    assert PatchToHere(f4, []) == f4;
    hide Emit, Tidy;
  }

  lemma Exp2RegGoes(fs: Fs, d: Desc, reg: nat)
    requires Tidy(fs, d)
    ensures var (fs', d') := Exp2Reg(fs, d, reg); Goes(fs, d, fs', d') && d' == Placed(reg)
  {
    hide Discharge2Reg, CloseLists, NeedValue, Tidy, Leaves, Exp2Reg, WithLabels;
    var (fs1, d1) := Discharge2Reg(fs, d, reg);
    Discharge2RegGoes(fs, d, reg);
    Exp2RegUnfolds(fs, d, reg);
    SettleGoes(fs1, d1, reg);
    var (fs', d') := Exp2Reg(fs, d, reg);
    GoesOn(fs, d, fs1, d1, fs', d');
  }

  // From the kind to the closed lists
  lemma SettleGoes(fs: Fs, d: Desc, reg: nat)
    requires Tidy(fs, d) && (d.k.VJmp? || d.k == VNonReloc(reg))
    ensures var e := Listed(d); var fs3 := WithLabels(fs, d.k.VJmp?, reg);
      && (!HasJumps(e) ==> Goes(fs, d, fs, Placed(reg)))
      && Goes(fs, d, CloseLists(fs, e, reg, NO_JUMP, NO_JUMP), Placed(reg))
      && Goes(fs, d, CloseLists(fs3, e, reg, |fs3.code| - 2, |fs3.code| - 1), Placed(reg))
  {
    hide Labels, EmitJump, Tidy, Leaves, WithLabels, PatchToHere, CloseLists, Open;
    var k := VNonReloc(reg);
    var e := Listed(d).(k := k);
    if d.k.VJmp? { ListedGoes(fs, d, k); } else { KindGoes(fs, d, k); }
    assert Goes(fs, d, fs, e);
    var fs3 := WithLabels(fs, d.k.VJmp?, reg);
    LabelledGoes(fs, e, d.k.VJmp?, reg);
    NowhereOpen(fs);
    ClosedGoes(fs, e, reg, NO_JUMP, NO_JUMP);
    ClosedGoes(fs3, e, reg, |fs3.code| - 2, |fs3.code| - 1);
    ClosedSame(fs, d, k, reg, NO_JUMP, NO_JUMP);
    ClosedSame(fs3, d, k, reg, |fs3.code| - 2, |fs3.code| - 1);
    var f1, f2 := CloseLists(fs, e, reg, NO_JUMP, NO_JUMP), CloseLists(fs3, e, reg, |fs3.code| - 2, |fs3.code| - 1);
    assert f1 == CloseLists(fs, Listed(d), reg, NO_JUMP, NO_JUMP);
    assert f2 == CloseLists(fs3, Listed(d), reg, |fs3.code| - 2, |fs3.code| - 1);
    GoesOn(fs, d, fs, e, f1, Placed(reg));
    GoesOn(fs, d, fs, e, fs3, e);
    GoesOn(fs, d, fs3, e, f2, Placed(reg));
  }

  lemma LabelledGoes(fs: Fs, d: Desc, jmp: bool, reg: nat)
    requires Tidy(fs, d) && Free(d.k)
    ensures var fs3 := WithLabels(fs, jmp, reg);
      Goes(fs, d, fs3, d) && !Open(fs3.code, |fs3.code| - 2) && !Open(fs3.code, |fs3.code| - 1)
  {
    LabelsGo(fs, d, reg);
    hide Tidy, Leaves, Patched;
  }

  lemma NowhereOpen(fs: Fs)
    ensures !Open(fs.code, NO_JUMP)
  {
  }

  lemma ClosedSame(fs: Fs, d: Desc, k: Kind, reg: nat, pf: int, pt: int)
    ensures CloseLists(fs, Listed(d).(k := k), reg, pf, pt) == CloseLists(fs, Listed(d), reg, pf, pt)
  {
  }

  lemma Discharge2AnyRegGoes(fs: Fs, d: Desc)
    requires Tidy(fs, d)
    ensures var (fs', d') := Discharge2AnyReg(fs, d);
      Goes(fs, d, fs', d') && d'.t == d.t && d'.f == d.f && (!d.k.VJmp? ==> d'.k.VNonReloc?) &&
        (d.k.VJmp? ==> fs'.code == fs.code && d' == d)
  {
    RegsGo(fs, d, fs.freereg + 1);
    hide Tidy, Discharge2Reg, Leaves;
    Discharge2RegGoes(ReserveReg(fs), d, Top(fs));
    var (fs', d') := Discharge2Reg(ReserveReg(fs), d, Top(fs));
    GoesOn(fs, d, ReserveReg(fs), d, fs', d');
    if d.k.VNonReloc? { RegsGo(fs, d, fs.freereg); assert fs.(freereg := fs.freereg) == fs; }
  }

  lemma VarsGo(fs: Fs, d: Desc)
    requires Tidy(fs, d)
    ensures Goes(fs, d, fs, DischargeVars(d)) && DischargeVars(d).t == d.t && DischargeVars(d).f == d.f
  {
  }

  lemma FreeGoes(fs: Fs, d: Desc, e: Desc)
    requires Tidy(fs, d)
    ensures Goes(fs, d, FreeExp(fs, e), d)
  {
    RegsGo(fs, d, fs.freereg - 1);
    RegsGo(fs, d, fs.freereg);
  }

  lemma Exp2NextRegGoes(fs: Fs, d: Desc)
    requires Tidy(fs, d)
    ensures var (fs', d') := Exp2NextReg(fs, d); Goes(fs, d, fs', d') && d'.t == [] && d'.f == [] && d'.k.VNonReloc?
  {
    var d1 := DischargeVars(d);
    VarsGo(fs, d);
    FreeGoes(fs, d1, d1);
    var fs1 := FreeExp(fs, d1);
    RegsGo(fs1, d1, fs1.freereg + 1);
    Exp2RegGoes(ReserveReg(fs1), d1, Top(fs1));
    hide Tidy, Exp2Reg, FreeExp;
  }

  lemma Exp2AnyRegGoes(fs: Fs, d: Desc)
    requires Tidy(fs, d)
    ensures var (fs', d') := Exp2AnyReg(fs, d); Goes(fs, d, fs', d') && d'.t == [] && d'.f == [] && d'.k.VNonReloc?
  {
    var d1 := DischargeVars(d);
    VarsGo(fs, d);
    Exp2NextRegGoes(fs, d1);
    if d1.k.VNonReloc? { Exp2RegGoes(fs, d1, d1.k.reg); }
    hide Tidy, Exp2Reg, Exp2NextReg;
  }

  lemma Exp2ValGoes(fs: Fs, d: Desc)
    requires Tidy(fs, d)
    ensures var (fs', d') := Exp2Val(fs, d); Goes(fs, d, fs', d') && d'.t == [] && d'.f == []
  {
    VarsGo(fs, d);
    Exp2AnyRegGoes(fs, d);
    hide Tidy, Exp2AnyReg;
  }

  lemma Exp2RKGoes(fs: Fs, d: Desc)
    requires Tidy(fs, d)
    ensures var (fs', d') := Exp2RK(fs, d); Goes(fs, d, fs', d') && d'.t == [] && d'.f == [] && Free(d'.k)
  {
    Exp2ValGoes(fs, d);
    var (fs1, d1) := Exp2Val(fs, d);
    Exp2AnyRegGoes(fs1, d1);
    if ConstantOf(d1.k).Some? {
      var v := ConstantOf(d1.k).value;
      KGoes(fs1, d1, v);
      KindGoes(AddK(fs1, v), d1, VK(IndexOf(fs1.k, v)));
    }
    hide Tidy, Exp2AnyReg, Exp2Val, AddK, IndexOf;
  }

  // ----- conditions -----

  lemma NotDropped(fs: Fs, d: Desc)
    requires Tidy(fs, d) && d.k.VReloc?
    ensures Goes(fs, d, fs.(code := fs.code[..|fs.code| - 1]), d.(k := VTrue))
  {
  }

  lemma MakesOn(fs: Fs, d: Desc, fs1: Fs, d1: Desc, fs2: Fs, js: seq<int>)
    requires Leaves(fs, d, fs1, d1) && d1.t == d.t && d1.f == d.f && Makes(fs1, d1, fs2, js)
    ensures Makes(fs, d, fs2, js)
  {
  }

  lemma JumpOnCondMakes(fs: Fs, d: Desc, cond: bool)
    requires Tidy(fs, d) && !d.k.VJmp?
    ensures var (fs', js) := JumpOnCond(fs, d, cond); Makes(fs, d, fs', js)
  {
    var (fs', js) := JumpOnCond(fs, d, cond);
    if IsNot(fs, d) {
      NotDropped(fs, d);
      var fs0 := fs.(code := fs.code[..|fs.code| - 1]);
      var i := TEST(At(fs.code, d.k.pc).b, !cond);
      CondJumpMakes(fs0, d.(k := VTrue), i);
      assert |fs.code| > 0 && (fs', js) == CondJump(fs0, i);
      hide Tidy, CondJump, Makes, Leaves, JumpOnCond;
      MakesOn(fs, d, fs0, d.(k := VTrue), fs', js);
    } else {
      Discharge2AnyRegGoes(fs, d);
      var (fs1, d1) := Discharge2AnyReg(fs, d);
      FreeGoes(fs1, d1, d1);
      var i := TESTSET(NO_REG, d1.k.reg, cond);
      hide Tidy, CondJump, Makes, Leaves, Discharge2AnyReg, FreeExp;
      CondJumpMakes(FreeExp(fs1, d1), d1, i);
      GoesOn(fs, d, fs1, d1, FreeExp(fs1, d1), d1);
      MakesOn(fs, d, FreeExp(fs1, d1), d1, fs', js);
    }
  }

  lemma InvertGoes(fs: Fs, d: Desc, pc: int)
    requires Tidy(fs, d)
    ensures Goes(fs, d, InvertJump(fs, pc), d)
  {
    SameJumpsGoes(fs, d, InvertJump(fs, pc));
  }

  lemma OwnMakes(fs: Fs, d: Desc)
    requires Tidy(fs, d) && d.k.VJmp?
    ensures Makes(fs, d, fs, [d.k.pc])
  {
  }

  lemma NothingMakes(fs: Fs, d: Desc)
    requires Tidy(fs, d) && Free(d.k)
    ensures Makes(fs, d, fs, [])
  {
  }

  lemma SplitOffMakes(fs: Fs, d: Desc, cond: bool)
    requires Tidy(fs, d)
    ensures var (fs', js) := SplitOff(fs, d, cond); Makes(fs, d, fs', js)
  {
    if NeverJumps(d.k, cond) {
      NothingMakes(fs, d);
    } else if AlwaysJumps(d.k, cond) {
      EmitJumpMakes(fs, d);
    } else if d.k.VJmp? {
      if cond {
        InvertGoes(fs, d, d.k.pc);
        OwnMakes(InvertJump(fs, d.k.pc), d);
        MakesOn(fs, d, InvertJump(fs, d.k.pc), d, InvertJump(fs, d.k.pc), [d.k.pc]);
      } else {
        OwnMakes(fs, d);
      }
    } else {
      JumpOnCondMakes(fs, d, !cond);
    }
  }

  lemma GoIfGoes(fs: Fs, d0: Desc, cond: bool)
    requires Tidy(fs, d0)
    ensures var (fs', d') := GoIf(fs, d0, cond);
      Goes(fs, d0, fs', d'.(k := VTrue)) && (if cond then d'.t == [] else d'.f == [])
  {
    var d := DischargeVars(d0);
    VarsGo(fs, d0);
    SplitOffMakes(fs, d, cond);
    var (fs1, js) := SplitOff(fs, d, cond);
    GoIfIs(fs, d0, cond);
    ListMade(fs, d, fs1, js, VTrue);
    var e := if cond then Desc(VTrue, d.t, d.f + js) else Desc(VTrue, d.t + js, d.f);
    HereGoes(fs1, e);
    hide Tidy, SplitOff, GoIf, Makes, Leaves;
    var fs' := if cond then PatchToHere(fs1, e.t) else PatchToHere(fs1, e.f);
    var d' := if cond then e.(t := []) else e.(f := []);
    GoesOn(fs, d, fs1, e, fs', d');
    GoesOn(fs, d0, fs, d, fs', d');
  }

  lemma GoIfIs(fs: Fs, d0: Desc, cond: bool)
    ensures var d := DischargeVars(d0); var (fs1, js) := SplitOff(fs, d, cond);
      GoIf(fs, d0, cond) ==
      if cond then (PatchToHere(fs1, d.t), Desc(d.k, [], d.f + js))
        else (PatchToHere(fs1, d.f), Desc(d.k, d.t + js, []))
  {
    hide EmitJump, JumpOnCond, InvertJump;
    var d := DischargeVars(d0);
    assert d.f + [] == d.f && d.t + [] == d.t;
  }

  // ----- operators -----

  lemma EmitNotGoes(fs: Fs, d: Desc)
    requires Tidy(fs, d) && !d.k.VJmp?
    ensures var (fs', k) := EmitNot(fs, d); Goes(fs, d, fs', d.(k := k)) && k.VReloc?
  {
    Discharge2AnyRegGoes(fs, d);
    var (fs1, d1) := Discharge2AnyReg(fs, d);
    FreeGoes(fs1, d1, d1);
    var f2 := FreeExp(fs1, d1);
    hide Tidy, Discharge2AnyReg, FreeExp, Leaves;
    EmitGoes(f2, d1, NOT(0, d1.k.reg), VReloc(|f2.code|));
    var (fs', k) := EmitNot(fs, d);
    GoesOn(fs, d, fs1, d1, f2, d1);
    GoesOn(fs, d, f2, d1, fs', d.(k := k));
  }

  lemma CodeNotGoes(fs: Fs, d0: Desc)
    requires Tidy(fs, d0)
    ensures var (fs', d') := CodeNot(fs, d0); Goes(fs, d0, fs', d')
  {
    var d := DischargeVars(d0);
    VarsGo(fs, d0);
    var (fs', d') := CodeNot(fs, d0);
    TurnGoes(fs, d);
    var (fs1, k1) := TurnedOf(fs, d);
    var e := d.(k := k1);
    assert fs' == SwapFs(fs1, e) && d' == SwapDesc(e);
    SameJumpsGoes(fs1, e, fs');
    TurnedGoes(fs', e);
    hide Tidy, Leaves, CodeNot, TurnedOf, SwapFs;
    GoesOn(fs, d0, fs, d, fs1, e);
    GoesOn(fs, d0, fs1, e, fs', e);
    GoesOn(fs, d0, fs', e, fs', d');
  }

  lemma TurnGoes(fs: Fs, d: Desc)
    requires Tidy(fs, d) && !d.k.VLocal?
    ensures var (fs1, k1) := TurnedOf(fs, d); Goes(fs, d, fs1, d.(k := k1))
  {
    var (fs1, k1) := TurnedOf(fs, d);
    if d.k.VJmp? {
      InvertGoes(fs, d, d.k.pc);
    } else if d.k.VReloc? || d.k.VNonReloc? {
      EmitNotGoes(fs, d);
    } else {
      KindGoes(fs, d, k1);
    }
  }

  lemma TurnedGoes(fs: Fs, d: Desc)
    requires Tidy(fs, d)
    ensures Goes(fs, d, fs, Desc(d.k, d.f, d.t))
  {
  }

  // An expression that owns nothing
  lemma BareTidy(fs: Fs, d: Desc, k: Kind)
    requires Tidy(fs, d) && Free(k)
    ensures Tidy(fs, Bare(k)) && forall j :: Mine(fs, Bare(k), j) ==> Mine(fs, d, j)
  {
  }

  // The instruction of an operator whose operands own nothing
  lemma OperatorGoes(fs: Fs, k: Kind, i: Instr, n: int)
    requires Tidy(fs, Bare(k)) && Free(k) && !i.JMP?
    ensures var fs' := Emit(fs.(freereg := n), i); Goes(fs, Bare(k), fs', Bare(VReloc(|fs'.code| - 1)))
  {
    RegsGo(fs, Bare(k), n);
    hide Tidy, Leaves;
    EmitGoes(fs.(freereg := n), Bare(k), i, VReloc(|fs.code|));
    var fs' := Emit(fs.(freereg := n), i);
    GoesOn(fs, Bare(k), fs.(freereg := n), Bare(k), fs', Bare(VReloc(|fs'.code| - 1)));
  }

  lemma FreedOnlyRegs(fs: Fs, d: Desc)
    ensures FreeExp(fs, d) == fs.(freereg := FreeExp(fs, d).freereg)
  {
  }

  // The right operand, then a left operand that owns nothing
  lemma OperandsGo(fs: Fs, d1: Desc, d2: Desc)
    requires Tidy(fs, d2) && d1.t == [] && d1.f == [] && Free(d1.k)
    ensures var (f1, e2) := Exp2RK(fs, d2); var (f2, e1) := Exp2RK(f1, d1);
      Goes(fs, d2, f2, Bare(VTrue))
  {
    Exp2RKGoes(fs, d2);
    var (f1, e2) := Exp2RK(fs, d2);
    assert Mine(f1, d1, 0) ==> Mine(f1, Bare(VTrue), 0);
    BareTidy(f1, e2, VTrue);
    assert d1 == Bare(d1.k);
    BareTidy(f1, e2, d1.k);
    Exp2RKGoes(f1, d1);
    var (f2, e1) := Exp2RK(f1, d1);
    hide Exp2RK;
    assert e1 == Bare(e1.k) && e2 == Bare(e2.k);
    KindGoes(f2, e1, VTrue);
  }

  lemma CodeArithGoes(m: Sem, fs: Fs, op: ArithOp, d1: Desc, d2: Desc)
    requires Tidy(fs, d2) && d1.t == [] && d1.f == [] && Free(d1.k)
    ensures var (fs', d') := CodeArith(m, fs, op, d1, d2); Goes(fs, d2, fs', d')
  {
    if Folded(m, op, d1, d2).Some? {
      KindGoes(fs, d2, VKNum(Folded(m, op, d1, d2).value));
    } else {
      OperandsGo(fs, d1, d2);
      var (f1, e2) := Exp2RK(fs, d2);
      var (f2, e1) := Exp2RK(f1, d1);
      BothOnlyRegs(f2, e1, e2);
      var i := ARITH(0, op, Operand(e1), Operand(e2));
      hide Tidy, Leaves, Exp2RK, FreeBoth, Emit;
      OperatorGoes(f2, VTrue, i, FreeBoth(f2, e1, e2).freereg);
      var f3 := Emit(FreeBoth(f2, e1, e2), i);
      GoesOn(fs, d2, f2, Bare(VTrue), f3, Bare(VReloc(|f3.code| - 1)));
    }
  }

  lemma BothOnlyRegs(fs: Fs, d1: Desc, d2: Desc)
    ensures FreeBoth(fs, d1, d2) == fs.(freereg := FreeBoth(fs, d1, d2).freereg)
  {
  }

  lemma PrefixGoes(m: Sem, fs: Fs, op: UnOp, d: Desc)
    requires Tidy(fs, d)
    ensures var (fs', d') := Prefix(m, fs, op, d); Goes(fs, d, fs', d')
  {
    if op == OpNot {
      CodeNotGoes(fs, d);
    } else {
      Exp2AnyRegGoes(fs, d);
      SelfGoes(fs, d);
      var (fs1, d1) := MinusOperand(fs, d);
      MinusGoes(m, fs1, d1);
      hide Tidy, Leaves, Exp2AnyReg, CodeMinus;
      var (fs', d') := Prefix(m, fs, op, d);
      GoesOn(fs, d, fs1, d1, fs', d');
    }
  }

  lemma SelfGoes(fs: Fs, d: Desc)
    requires Tidy(fs, d)
    ensures Goes(fs, d, fs, d)
  {
  }

  lemma MinusGoes(m: Sem, fs: Fs, d: Desc)
    requires Tidy(fs, d)
    ensures var (fs', d') := CodeMinus(m, fs, d); Goes(fs, d, fs', d')
  {
    if IsNumeral(d) {
      KindGoes(fs, d, VKNum(m.num(UNM, d.k.nval, d.k.nval)));
    } else {
      Exp2RKGoes(fs, d);
      var (f1, e) := Exp2RK(fs, d);
      FreedOnlyRegs(f1, e);
      assert e == Bare(e.k);
      hide Tidy, Leaves, Exp2RK, FreeExp, Emit;
      OperatorGoes(f1, e.k, MINUS(0, RKCode(Operand(e))), FreeExp(f1, e).freereg);
      var (fs', d') := CodeMinus(m, fs, d);
      GoesOn(fs, d, f1, e, fs', d');
    }
  }

  lemma CodeCompGoes(fs: Fs, op: CompareOp, cond: bool, d1: Desc, d2: Desc)
    requires Tidy(fs, d2) && d1.t == [] && d1.f == [] && Exp2RK(fs, d1) == (fs, d1)
    ensures var (fs', d') := CodeComp(fs, op, cond, d1, d2); Goes(fs, d2, fs', d')
  {
    Exp2RKGoes(fs, d2);
    CodeCompIs(fs, op, cond, d1, d2);
    var (f1, e2) := Exp2RK(fs, d2);
    FreedOnlyRegs(f1, e2);
    FreedOnlyRegs(FreeExp(f1, e2), d1);
    var f2 := FreeExp(FreeExp(f1, e2), d1);
    RegsGo(f1, e2, f2.freereg);
    assert f2 == f1.(freereg := f2.freereg);
    var i := CompareInstr(op, cond, Operand(d1), Operand(e2));
    hide Tidy, Leaves, Exp2RK, FreeExp, CodeComp;
    GoesOn(fs, d2, f1, e2, f2, e2);
    CompareMakes(f2, e2, i);
    var (fs', d') := CodeComp(fs, op, cond, d1, d2);
    GoesOn(fs, d2, f2, e2, fs', d');
  }

  lemma CompareMakes(fs: Fs, d: Desc, i: Instr)
    requires Tidy(fs, d) && Free(d.k) && d == Bare(d.k) && i.COMPARE?
    ensures var (fs', js) := CondJump(fs, i); Goes(fs, d, fs', Bare(VJmp(|fs'.code| - 1)))
  {
    EmitOpen(fs, i);
    var f1 := Emit(fs, i);
    hide Emit;
    var (fs', js) := CondJump(fs, i);
    assert f1.jpc == [] by { EmitClears(fs, i); }
    assert fs'.code == f1.code + [JMP(NO_JUMP)];
    forall j | Open(f1.code, j) ensures Open(fs'.code, j) && j != |fs'.code| - 1 {}
  }

  lemma EmitClears(fs: Fs, i: Instr)
    ensures Emit(fs, i).jpc == []
  {
  }

  // ----- whole expressions -----

  // A small constant or a register stays as it is.
  predicate Small(k: Kind) {
    k.VNonReloc? || (k.VK? && k.info <= MAXINDEXRK)
  }

  lemma RKSmall(fs: Fs, d: Desc)
    requires Tidy(fs, d)
    ensures Small(Exp2RK(fs, d).1.k)
  {
    var (fs1, d1) := Exp2Val(fs, d);
    Exp2ValGoes(fs, d);
    Exp2AnyRegGoes(fs1, d1);
    if ConstantOf(d1.k).Some? && |fs1.k| <= MAXINDEXRK { ConstantIndex(fs1.k, ConstantOf(d1.k).value); }
    hide Tidy, Exp2AnyReg, Exp2Val;
  }

  lemma ConstantIndex(k: seq<Value>, v: Value)
    requires |k| <= MAXINDEXRK
    ensures IndexOf(k, v) <= MAXINDEXRK
  {
  }

  lemma SmallStays(fs: Fs, d: Desc)
    requires Small(d.k) && d.t == [] && d.f == []
    ensures Exp2RK(fs, d) == (fs, d)
  {
  }

  // What is between two operands: the left one owns its lists.
  lemma InfixGoes(fs: Fs, op: BinOp, d: Desc)
    requires Tidy(fs, d)
    ensures var (fs', e) := Infix(fs, op, d);
      && Goes(fs, d, fs', e.(k := VTrue))
      && (!IsLogic(op) ==> e.t == [] && e.f == [] && Free(e.k) && (!op.OpArith? ==> Small(e.k)))
      && (op == OpAnd ==> e.t == []) && (op == OpOr ==> e.f == [])
  {
    if op == OpAnd {
      GoIfGoes(fs, d, true);
    } else if op == OpOr {
      GoIfGoes(fs, d, false);
    } else if op.OpArith? && IsNumeral(d) {
      KindGoes(fs, d, VTrue);
    } else {
      Exp2RKGoes(fs, d);
      RKSmall(fs, d);
      var (fs', e) := Exp2RK(fs, d);
      hide Tidy, Leaves, Exp2RK;
      KindGoes(fs', e, VTrue);
      GoesOn(fs, d, fs', e, fs', e.(k := VTrue));
    }
  }

  // The right operand is compiled while the lists of the left one wait.
  lemma BesidesGoes(fs: Fs, e: Desc, fs': Fs, d: Desc)
    requires Tidy(fs, e) && Free(e.k) && Goes(fs, Bare(VTrue), fs', d)
    ensures Goes(fs, e, fs', JoinedDesc(d, e.t, e.f))
    ensures (e.f == [] ==> Goes(fs, e, fs', d.(t := d.t + e.t))) && (e.t == [] ==> Goes(fs, e, fs', d.(f := d.f + e.f)))
  {
    assert d.t + [] == d.t && d.f + [] == d.f;
    assert forall j :: j in e.t || j in e.f ==> Open(fs.code, j) && !Mine(fs, Bare(VTrue), j);
    assert forall j :: j in e.t || j in e.f ==> Open(fs'.code, j) && !Mine(fs', d, j);
    OnceJoined(d.t, e.t);
    OnceJoined(d.f, e.f);
    hide Once;
  }

  lemma PosfixGoes(m: Sem, fs: Fs, op: BinOp, e: Desc, fs': Fs, d0: Desc)
    requires Tidy(fs, e.(k := VTrue)) && Goes(fs, Bare(VTrue), fs', d0)
    requires !IsLogic(op) ==> e.t == [] && e.f == [] && Free(e.k) && (!op.OpArith? ==> Small(e.k))
    requires (op == OpAnd ==> e.t == []) && (op == OpOr ==> e.f == [])
    ensures var (f, d) := Posfix(m, fs', op, e, d0); Goes(fs, e.(k := VTrue), f, d)
  {
    if IsLogic(op) {
      VarsGo(fs', d0);
      var d1 := DischargeVars(d0);
      hide Tidy, Leaves;
      GoesOn(fs, Bare(VTrue), fs', d0, fs', d1);
      BesidesGoes(fs, e.(k := VTrue), fs', d1);
    } else {
      var (f, d) := Posfix(m, fs', op, e, d0);
      if !op.OpArith? { SmallStays(fs', e); }
      hide Tidy, Leaves, CodeArith, CodeComp, Exp2RK;
      assert e.(k := VTrue) == Bare(VTrue);
      match op {
        case OpArith(o) => CodeArithGoes(m, fs', o, e, d0);
        case OpEq => CodeCompGoes(fs', EQ, true, e, d0);
        case OpNe => CodeCompGoes(fs', EQ, false, e, d0);
        case OpLt => CodeCompGoes(fs', LT, true, e, d0);
        case OpLe => CodeCompGoes(fs', LE, true, e, d0);
        case OpGt => CodeCompGoes(fs', LT, false, e, d0);
        case OpGe => CodeCompGoes(fs', LE, false, e, d0);
        case _ =>
      }
      GoesOn(fs, Bare(VTrue), fs', d0, f, d);
    }
  }

  // Main result: compiling any expression keeps all lists apart and waiting, and leaves the
  // lists of the expressions around it alone.
  lemma {:induction false} CompileGoes(m: Sem, fs: Fs, e: Expr)
    requires Tidy(fs, Bare(VTrue))
    ensures var (f, d) := Compile(m, fs, e); Goes(fs, Bare(VTrue), f, d)
    decreases e
  {
    var (f, d) := Compile(m, fs, e);
    match e {
      case Unary(op, a) =>
        CompileGoes(m, fs, a);
        var (fs1, d1) := Compile(m, fs, a);
        hide Tidy, Leaves, Prefix;
        PrefixGoes(m, fs1, op, d1);
        GoesOn(fs, Bare(VTrue), fs1, d1, f, d);
      case Binary(op, a, b) =>
        CompileGoes(m, fs, a);
        var (fs1, d1) := Compile(m, fs, a);
        InfixGoes(fs1, op, d1);
        var (fs2, e1) := Infix(fs1, op, d1);
        BareTidy(fs2, e1.(k := VTrue), VTrue);
        CompileGoes(m, fs2, b);
        var (fs3, d2) := Compile(m, fs2, b);
        hide Tidy, Leaves, Infix, Posfix, Free, Small;
        PosfixGoes(m, fs2, op, e1, fs3, d2);
        GoesOn(fs, Bare(VTrue), fs1, d1, fs2, e1.(k := VTrue));
        GoesOn(fs, Bare(VTrue), fs2, e1.(k := VTrue), f, d);
      case String(s) => StringGoes(fs, s);
      case _ =>
    }
  }

  lemma StringGoes(fs: Fs, s: string)
    requires Tidy(fs, Bare(VTrue))
    ensures Goes(fs, Bare(VTrue), AddK(fs, Str(s)), Bare(VK(IndexOf(fs.k, Str(s)))))
  {
    KGoes(fs, Bare(VTrue), Str(s));
    KindGoes(AddK(fs, Str(s)), Bare(VTrue), VK(IndexOf(fs.k, Str(s))));
    hide AddK, IndexOf;
  }
}
