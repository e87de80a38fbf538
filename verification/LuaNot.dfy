/**
 `not`: the value is turned round, and so are the lists, whose jumps no longer carry a
 value.
 */
module LuaNot {
  import opened LuaVm
  import opened LuaRun
  import opened LuaCodegen
  import opened LuaFrame
  import opened LuaExit
  import opened LuaMeaning
  import opened LuaOperands
  import opened LuaBranches
  import opened Wrappers

  // The value is turned round where the code ends, and as it was on the lists.
  function HalfNegated(k: Kind, y: Exit): Exit {
    if y.Ended? then Negated(k, y) else y
  }

  // The jumps change lists, and lose what they carry.
  function Turned(y: Exit): Exit {
    if y.Gone? then Gone(!y.when, None) else y
  }

  lemma NegatedInHalves(k: Kind, y: Exit)
    ensures Turned(HalfNegated(k, y)) == Negated(k, y)
  {
  }

  // ----- the lists -----

  function SwapFs(fs: Fs, d: Desc): Fs {
    fs.(code := Devalued(Devalued(fs.code, d.t), d.f))
  }

  function SwapDesc(d: Desc): Desc {
    Desc(d.k, d.f, d.t)
  }

  lemma SwapBuilding(c: Ctx, fs: Fs, d: Desc)
    requires Building(c, fs, d)
    ensures Building(c, SwapFs(fs, d), SwapDesc(d))
  {
    hide ListsOk, Frame, ConstsOk, CtxOk, TestsJump, EndsWell, Swapped, KindOk, KPrefix;
    var st := StateOf(fs, d);
    assert StateOf(SwapFs(fs, d), SwapDesc(d)) == Swapped(st) by { SwapStates(fs, d); }
    SwapConsts(fs, d);
    SwapKind(c, fs, d);
    SwappedOk(st);
    SwappedFrame(c, st);
  }

  lemma SwapStates(fs: Fs, d: Desc)
    ensures StateOf(SwapFs(fs, d), SwapDesc(d)) == Swapped(StateOf(fs, d)) && SwapFs(fs, d).k == fs.k
  {
  }

  lemma SwapKind(c: Ctx, fs: Fs, d: Desc)
    requires KindOk(c, fs, d) && ListsOk(StateOf(fs, d))
    ensures KindOk(c, SwapFs(fs, d), SwapDesc(d))
  {
    SwappedCode(StateOf(fs, d));
    hide ListsOk, HasTarget;
  }

  lemma SwapConsts(fs: Fs, d: Desc)
    requires ListsOk(StateOf(fs, d)) && ConstsOk(fs.code, fs.k)
    ensures ConstsOk(SwapFs(fs, d).code, fs.k)
  {
    SwappedCode(StateOf(fs, d));
    forall i | 0 <= i < |fs.code| ensures ConstOk(SwapFs(fs, d).code[i], |fs.k|) { assert ConstOk(fs.code[i], |fs.k|); }
  }

  lemma SwapBody(c: Ctx, fs: Fs, d: Desc)
    requires Building(c, fs, d)
    ensures BodyState(SwapFs(fs, d), SwapDesc(d)) == Swapped(BodyState(fs, d))
  {
    assert KindOk(c, fs, d);
    hide Building, KindOk;
    var (a, b) := (Body(SwapFs(fs, d).code, d.k), Swapped(BodyState(fs, d)).code);
    assert |a| == |b|;
    forall i | 0 <= i < |a| ensures a[i] == b[i] {
      assert Body(fs.code, d.k)[i] == fs.code[i];
    }
  }

  lemma SwapValue(m: Sem, c: Ctx, fs: Fs, d: Desc, r: Regs)
    requires Building(c, fs, d)
    ensures KindValue(m, SwapFs(fs, d), d.k, r) == KindValue(m, fs, d.k, r)
  {
    assert KindOk(c, fs, d) && ListsOk(StateOf(fs, d));
    SwappedCode(StateOf(fs, d));
    hide Building;
  }

  lemma SwapGives(m: Sem, c: Ctx, fs: Fs, d: Desc, at: int, r: Regs, y: Exit)
    requires Building(c, fs, d) && Gives(m, c, fs, d, NO_REG, at, r, y)
    ensures Gives(m, c, SwapFs(fs, d), SwapDesc(d), NO_REG, at, r, Turned(y))
  {
    SwapBody(c, fs, d);
    BodyOk(c, fs, d);
    forall r' ensures KindValue(m, SwapFs(fs, d), d.k, r') == KindValue(m, fs, d.k, r') { SwapValue(m, c, fs, d, r'); }
    hide RunFrom, Building, Swapped, SwapFs, KindValue, ListsOk;
    SwappedEnter(m, fs.k, c, BodyState(fs, d), at, r);
    assert SwapFs(fs, d).k == fs.k by { SwapK(fs, d); }
  }

  lemma SwapK(fs: Fs, d: Desc)
    ensures SwapFs(fs, d) == fs.(code := SwapFs(fs, d).code)
  {
  }

  // ----- the value -----

  // Up to the lists, the exits are those of `not`.
  ghost predicate AllHalf(m: Sem, c: Ctx, fs: Fs, d: Desc, fs1: Fs, k: Kind) {
    forall at, r, y :: Gives(m, c, fs, d, NO_REG, at, r, y) ==>
      Gives(m, c, fs1, d.(k := k), NO_REG, at, r, HalfNegated(d.k, y))
  }

  lemma ConstantHalf(m: Sem, c: Ctx, fs: Fs, d: Desc, k: Kind)
    requires Stage(c, fs, d) && (d.k.VTrue? || d.k.VFalse? || d.k.VK? || d.k.VKNum?) &&
      k == (if d.k.VFalse? then VTrue else VFalse)
    ensures Building(c, fs, d.(k := k)) && AllHalf(m, c, fs, d, fs, k)
  {
    hide ListsOk, Frame, ConstsOk, CtxOk, TestsJump, EndsWell, RunFrom;
  }

  // A comparison is turned round by its sense.
  lemma InvertBuilding(c: Ctx, fs: Fs, d: Desc)
    requires Building(c, fs, d) && d.k.VJmp?
    ensures Building(c, InvertJump(fs, d.k.pc), d) && Body(InvertJump(fs, d.k.pc).code, d.k) == Body(fs.code, d.k)
  {
    var pc, fs' := d.k.pc, InvertJump(fs, d.k.pc);
    var (st, st') := (StateOf(fs, d), StateOf(fs', d));
    assert fs'.code == fs.code[pc - 1 := Inverted(fs.code[pc - 1])] && |c.code| < pc;
    assert ConstOk(fs.code[pc - 1], |fs.k|);
    forall i | 0 <= i < |fs.code| ensures ConstOk(fs'.code[i], |fs.k|) { assert ConstOk(fs.code[i], |fs.k|); }
    InvertLists(c, st, st', pc - 1);
    hide ListsOk, Frame, CtxOk;
  }

  lemma InvertLists(c: Ctx, st: State, st': State, x: nat)
    requires ListsOk(st) && Frame(c, st) && |c.code| <= x < |st.code| && st.code[x].COMPARE?
    requires st' == st.(code := st.code[x := Inverted(st.code[x])])
    ensures ListsOk(st') && Frame(c, st')
  {
    assert forall j ::
      0 <= j <= |st.code| ==>
      ValueJump(st'.code, j) == ValueJump(st.code, j) && Guarded(st'.code, j) == Guarded(st.code, j);
    assert forall i :: 0 <= i < |c.code| ==> st'.code[i] == st.code[i];
    forall i | 0 <= i < |c.code| && i !in c.here ensures Untouched(c, st'.code, i) { assert Untouched(c, st.code, i); }
  }

  lemma InvertHalf(m: Sem, c: Ctx, fs: Fs, d: Desc)
    requires Building(c, fs, d) && d.k.VJmp?
    ensures AllHalf(m, c, fs, d, InvertJump(fs, d.k.pc), d.k)
  {
    InvertBuilding(c, fs, d);
    assert KindOk(c, fs, d);
    var fs' := InvertJump(fs, d.k.pc);
    forall r, w
      ensures ExitWith(KindValue(m, fs', d.k, r), w) == HalfNegated(d.k, ExitWith(KindValue(m, fs, d.k, r), w))
    {
    }
    hide Building, RunFrom, KindValue;
  }

  // A NOT whose register is open
  lemma EmitNotHalf(m: Sem, c: Ctx, fs: Fs, d: Desc)
    requires Stage(c, fs, d) && (d.k.VReloc? || d.k.VNonReloc?)
    ensures var (fs1, k1) := EmitNot(fs, d);
      && Building(c, fs1, d.(k := k1)) && fs1.freereg == fs.freereg && fs1.nactvar == fs.nactvar && KPrefix(fs.k, fs1.k)
      && k1.VReloc? && AllHalf(m, c, fs, d, fs1, k1)
  {
    hide Discharge2AnyReg, FreeExp, Building, RunFrom, Emit, HalfNegated, Gives, BodyState;
    IntoAnyReg(m, c, fs, d);
    var (fs2, d2) := Discharge2AnyReg(fs, d);
    var fs3 := FreeExp(fs2, d2);
    var i := NOT(0, d2.k.reg);
    var (fs1, k1) := EmitNot(fs, d);
    assert fs1 == Emit(fs3, i) && k1 == VReloc(|fs1.code| - 1);
    RelocEmitted(m, c, fs3, d2, i);
    RelocStates(fs3, d2, i);
    forall at, r, y | Gives(m, c, fs, d, NO_REG, at, r, y)
      ensures Gives(m, c, fs1, d.(k := k1), NO_REG, at, r, HalfNegated(d.k, y))
    {
      var y' := if d.k.VNonReloc? then y else Consumed(y);
      GivesRuns(m, c, fs3, d2, at, r, y');
      NotHalf(m, c, fs3, d2, fs1, d.(k := k1), at, r, y');
      NotForgets(d.k, d2.k, y);
    }
  }

  lemma GivesRuns(m: Sem, c: Ctx, fs: Fs, d: Desc, at: int, r: Regs, y: Exit)
    requires Gives(m, c, fs, d, NO_REG, at, r, y)
    ensures IsEntry(c, at) && RunFrom(m, fs.k, c, BodyState(fs, d), at, r) != Stuck
  {
    hide RunFrom;
  }

  lemma NotForgets(k: Kind, k': Kind, y: Exit)
    requires (k.VReloc? || k.VNonReloc?) && k'.VNonReloc?
    ensures HalfNegated(k', y) == HalfNegated(k, y) == HalfNegated(k', Consumed(y))
  {
  }

  // An instruction with an open register has been emitted.
  lemma RelocEmitted(m: Sem, c: Ctx, fs: Fs, d: Desc, i: Instr)
    requires Building(c, fs, d) && Settles(d.k) && HasTarget(i) && !i.LOADBOOL? && ConstOk(i, |fs.k|)
    ensures var fs' := Emit(fs, i); var d' := d.(k := VReloc(|fs'.code| - 1));
      && Building(c, fs', d') && fs'.code[|fs'.code| - 1] == i && fs' == fs.(code := fs'.code, jpc := [])
      && forall at, r :: IsEntry(c, at) && RunFrom(m, fs.k, c, BodyState(fs, d), at, r) != Stuck ==>
           RunFrom(m, fs'.k, c, BodyState(fs', d'), at, r) ==
             Forgotten(RunFrom(m, fs.k, c, BodyState(fs, d), at, r), |fs.code|)
  {
    hide ListsOk, Frame, ConstsOk, CtxOk, TestsJump, EndsWell, EmitState, Emit, Continues, Extends, Discharged, RunFrom,
      Building, Body, IsEntry;
    var st := StateOf(fs, d);
    var fs' := Emit(fs, i);
    var d' := d.(k := VReloc(|fs'.code| - 1));
    BuildingParts(c, fs, d);
    RelocStates(fs, d, i);
    RelocBuilt(c, fs, d, i);
    forall at, r | IsEntry(c, at) && RunFrom(m, fs.k, c, st, at, r) != Stuck
      ensures RunFrom(m, fs.k, c, Discharged(st), at, r) == Forgotten(RunFrom(m, fs.k, c, st, at, r), |fs.code|)
    {
      DischargedRun(m, fs.k, c, st, at, r);
    }
  }

  lemma RelocStates(fs: Fs, d: Desc, i: Instr)
    requires Settles(d.k)
    ensures var fs' := Emit(fs, i); var d' := d.(k := VReloc(|fs'.code| - 1));
      && StateOf(fs', d') == EmitState(StateOf(fs, d), i) && BodyState(fs, d) == StateOf(fs, d)
      && BodyState(fs', d') == Discharged(StateOf(fs, d)) && |fs'.code| == |fs.code| + 1 && fs'.code[|fs.code|] == i
      && fs' == fs.(code := fs'.code, jpc := [])
  {
  }

  lemma RelocBuilt(c: Ctx, fs: Fs, d: Desc, i: Instr)
    requires Building(c, fs, d) && Settles(d.k) && HasTarget(i) && !i.LOADBOOL? && ConstOk(i, |fs.k|)
    ensures var fs' := Emit(fs, i); Building(c, fs', d.(k := VReloc(|fs'.code| - 1)))
  {
    hide ListsOk, Frame, ConstsOk, CtxOk, TestsJump, EndsWell, EmitState, Emit, Discharged, Body;
    var st := StateOf(fs, d);
    BuildingParts(c, fs, d);
    RelocStates(fs, d, i);
    PrefixSelf(fs.k);
    EmitConsts(st, i, fs.k, fs.k);
    EmitOk(c, st, i);
  }

  lemma PrefixSelf(k: seq<Value>)
    ensures KPrefix(k, k)
  {
  }

  lemma NotHalf(m: Sem, c: Ctx, fs: Fs, d: Desc, fs': Fs, d': Desc, at: int, r: Regs, y: Exit)
    requires d.k.VNonReloc? && Gives(m, c, fs, d, NO_REG, at, r, y) && fs'.k == fs.k && |fs'.code| > 0
    requires d'.k == VReloc(|fs'.code| - 1) && fs'.code[|fs'.code| - 1] == NOT(0, d.k.reg)
    requires RunFrom(m, fs'.k, c, BodyState(fs', d'), at, r) ==
      Forgotten(RunFrom(m, fs.k, c, BodyState(fs, d), at, r), |fs.code|)
    ensures Gives(m, c, fs', d', NO_REG, at, r, HalfNegated(d.k, y))
  {
    hide RunFrom;
  }

  // ----- codenot -----

  function TurnedOf(fs: Fs, d: Desc): (Fs, Kind) {
    match d.k
    case VFalse => (fs, VTrue)
    case VTrue => (fs, VFalse)
    case VK(_) => (fs, VFalse)
    case VKNum(_) => (fs, VFalse)
    case VJmp(pc) => (InvertJump(fs, pc), d.k)
    case _ => EmitNot(fs, d)
  }

  lemma TurnedOk(m: Sem, c: Ctx, fs: Fs, d: Desc)
    requires Stage(c, fs, d) && !d.k.VLocal?
    ensures var (fs1, k1) := TurnedOf(fs, d);
      && Building(c, fs1, d.(k := k1)) && fs1.freereg == fs.freereg && fs1.nactvar == fs.nactvar && KPrefix(fs.k, fs1.k)
      && !k1.VLocal? && !k1.VNonReloc? && !k1.VK? && AllHalf(m, c, fs, d, fs1, k1)
  {
    hide Gives, AllHalf, EmitNot;
    match d.k {
      case VFalse => ConstantHalf(m, c, fs, d, VTrue);
      case VTrue => ConstantHalf(m, c, fs, d, VFalse);
      case VK(_) => ConstantHalf(m, c, fs, d, VFalse);
      case VKNum(_) => ConstantHalf(m, c, fs, d, VFalse);
      case VJmp(_) => InvertBuilding(c, fs, d); InvertHalf(m, c, fs, d);
      case _ => EmitNotHalf(m, c, fs, d);
    }
  }

  lemma CodeNotOk(m: Sem, c: Ctx, fs: Fs, d: Desc)
    requires Stage(c, fs, d)
    ensures var (fs', d') := CodeNot(fs, d);
      && Stage(c, fs', d') && fs'.nactvar == fs.nactvar && KPrefix(fs.k, fs'.k)
      && forall at, r, y ::
        Gives(m, c, fs, d, NO_REG, at, r, y) ==> Gives(m, c, fs', d', NO_REG, at, r, Negated(d.k, y))
  {
    var d0 := DischargeVars(d);
    DischargeVarsOk(m, c, fs, d);
    assert Stage(c, fs, d0);
    TurnedOk(m, c, fs, d0);
    var (fs1, k1) := TurnedOf(fs, d0);
    var d1 := d0.(k := k1);
    SwapBuilding(c, fs1, d1);
    assert CodeNot(fs, d) == (SwapFs(fs1, d1), SwapDesc(d1));
    SwapK(fs1, d1);
    hide CodeNot, TurnedOf, Building, Gives, SwapFs, Turned, HalfNegated;
    forall at, r, y | Gives(m, c, fs, d, NO_REG, at, r, y)
      ensures Gives(m, c, SwapFs(fs1, d1), SwapDesc(d1), NO_REG, at, r, Negated(d.k, y))
    {
      assert Gives(m, c, fs, d0, NO_REG, at, r, y);
      SwapGives(m, c, fs1, d1, at, r, HalfNegated(d0.k, y));
      NegatedInHalves(d0.k, y);
      assert Negated(d0.k, y) == Negated(d.k, y);
    }
  }
}
