/**
 Arithmetic and comparisons: both operands are evaluated, in order, and the operator finds
 their values where the descriptors say.
 */
module LuaOperators {
  import opened LuaVm
  import opened LuaRun
  import opened LuaCodegen
  import opened LuaFrame
  import opened LuaExit
  import opened LuaMeaning
  import opened LuaRegisters
  import opened LuaOperands
  import opened LuaConditions
  import opened LuaCompose
  import opened Wrappers

  // ----- two expressions -----

  lemma InnerOf(a: Ctx, fs: Fs, d: Desc, fs': Fs, d': Desc)
    requires Building(a, fs, d) && Building(CtxOf(fs), fs', d')
    ensures Inner(CtxOf(fs), StateOf(fs', d'), d.t, d.f) && Inner(CtxOf(fs), BodyState(fs', d'), d.t, d.f)
  {
    var b := CtxOf(fs);
    BodySound(b, fs', d');
    hide Frame, TestsJump, KindOk;
    assert ListsOk(Outer(b, d.t, d.f)) by { assert Outer(b, d.t, d.f) == StateOf(fs, d); }
  }

  // The second expression, with the lists of the first added to its own
  function JoinedDesc(d: Desc, tt: seq<int>, ff: seq<int>): Desc {
    Desc(d.k, d.t + tt, d.f + ff)
  }

  lemma JoinedBuilding(a: Ctx, fs: Fs, d: Desc, fs': Fs, d': Desc)
    requires Building(a, fs, d) && Building(CtxOf(fs), fs', d')
    ensures Building(a, fs', JoinedDesc(d', d.t, d.f))
  {
    var b, st := CtxOf(fs), StateOf(fs', d');
    InnerOf(a, fs, d, fs', d');
    assert StateOf(fs', JoinedDesc(d', d.t, d.f)) == Joined(st, d.t, d.f);
    assert Outer(b, d.t, d.f) == StateOf(fs, d) && |a.code| <= |b.code|;
    JoinedDest(b, st, d.t, d.f);
    JoinedKind(a, fs, d, fs', d');
    hide ListsOk, Frame, ConstsOk, TestsJump, EndsWell, KindOk, Inner, Joined;
    JoinedLists(b, st, d.t, d.f);
    JoinedFrame(a, b, st, d.t, d.f);
  }

  lemma JoinedKind(a: Ctx, fs: Fs, d: Desc, fs': Fs, d': Desc)
    requires Building(a, fs, d) && Building(CtxOf(fs), fs', d')
    ensures KindOk(a, fs', JoinedDesc(d', d.t, d.f))
  {
    assert forall j :: j in d.t || j in d.f ==> j < |fs.code|;
    assert |a.code| <= |fs.code| <= |fs'.code| && KindOk(CtxOf(fs), fs', d');
    hide ListsOk, Frame, ConstsOk, CtxOk, TestsJump, EndsWell;
  }

  // ----- both values -----

  // An operand, or a numeral that is still to become one
  ghost predicate Left(a: Ctx, fs: Fs, d: Desc) {
    Ready(a, fs, d) || (Stage(a, fs, d) && IsNumeral(d))
  }

  ghost predicate PairGives(m: Sem, a: Ctx, fs: Fs, k1: Kind, k2: Kind, at: int, r: Regs, va: Result, vb: Result) {
    IsEntry(a, at) &&
    match RunFrom(m, fs.k, a, State(fs.code, fs.jpc, [], []), at, r)
    case Stuck => false
    case Leave(_, _, _, _) => false
    case Fail => va == Error || vb == Error
    case Fall(r', _, _) =>
      va == KindValue(m, fs, k1, r') && vb == KindValue(m, fs, k2, r') && AgreeBut(r, r', a.base, NO_REG)
  }

  // The code of the pair ends by a jump that carries `w`, if one waits.
  ghost predicate PairWaits(m: Sem, a: Ctx, fs: Fs, at: int, r: Regs, w: Option<Value>) {
    var o := RunFrom(m, fs.k, a, State(fs.code, fs.jpc, [], []), at, r);
    o.Fall? ==> o.w == w
  }

  // A run of the left operand may come to the right one at `at1` with registers `r1`, by a
  // jump that carries `p`.
  ghost predicate Follows(a: Ctx, fs: Fs, r: Regs, at1: int, r1: Regs, p: Option<Value>) {
    && IsEntry(CtxOf(fs), at1) && AgreeBut(r, r1, a.base, NO_REG) && (LowRegs(fs.code) ==> AgreeHigh(r, r1))
    && Carried(fs.code, at1, r1) == p
  }

  // The right operand as compiled, wherever a run comes to it
  ghost predicate GivesAfter(m: Sem, a: Ctx, fs: Fs, fs': Fs, d': Desc, r: Regs, p: Option<Value>, z: Exit) {
    forall at1, r1 :: Follows(a, fs, r, at1, r1, p) ==> Gives(m, CtxOf(fs), fs', d', NO_REG, at1, r1, z)
  }

  // The value of a left operand survives the code of the right one.
  lemma LeftStays(m: Sem, a: Ctx, fs: Fs, d: Desc, fs': Fs, r: Regs, r': Regs)
    requires Left(a, fs, d) && KPrefix(fs.k, fs'.k) && AgreeBut(r, r', CtxOf(fs).base, NO_REG)
    ensures KindValue(m, fs', d.k, r') == KindValue(m, fs, d.k, r)
    ensures Settles(d.k) && d.t == [] && d.f == [] && a.base <= CtxOf(fs).base
  {
    assert KindOk(a, fs, d);
    hide Building;
  }

  lemma NoLeave(m: Sem, k: seq<Value>, c: Ctx, st: State, at: int, r: Regs)
    requires st.tt == [] && st.ff == [] && EndsWell(st.code)
    ensures !RunFrom(m, k, c, st, at, r).Leave?
  {
    RunFromEnds(m, k, c, st, at, r);
  }

  lemma PairFrom(m: Sem, a: Ctx, fs: Fs, d: Desc, fs': Fs, d': Desc, at: int, r: Regs, y: Exit, z: Exit)
    requires Left(a, fs, d) && Building(a, fs, d) && Building(CtxOf(fs), fs', d') && d'.t == [] && d'.f == [] &&
      Settles(d'.k)
    requires Gives(m, a, fs, d, NO_REG, at, r, y) && (y.Ended? ==> GivesAfter(m, a, fs, fs', d', r, y.waiting, z))
    ensures PairGives(m, a, fs', d.k, d'.k, at, r, ValueOf(y), ValueOf(z))
    ensures !y.Gone? && PairWaits(m, a, fs', at, r, WaitingOf(z))
  {
    var b := CtxOf(fs);
    var st := StateOf(fs', d');
    InnerOf(a, fs, d, fs', d');
    LeftStays(m, a, fs, d, fs, r, r);
    assert Joined(st, [], []) == st && st == State(fs'.code, fs'.jpc, [], []) == BodyState(fs', d');
    assert BodyState(fs, d) == StateOf(fs, d) == Outer(b, [], []);
    BuildingParts(a, fs, d);
    BuildingParts(b, fs', d');
    hide Building, Left, Inner, ConstsOk, KindValue, RunFrom, Joined, BodyState, ListsOk, Frame, CtxOk, EndsWell,
      KindOk, TestsJump, IsEntry, KPrefix;
    NoLeave(m, fs.k, a, StateOf(fs, d), at, r);
    var o := RunFrom(m, fs.k, a, StateOf(fs, d), at, r);
    if o.Fall? {
      LeftEnds(m, a, fs, d, at, r);
      assert Follows(a, fs, r, o.at, o.r, y.waiting);
      assert Gives(m, b, fs', d', NO_REG, o.at, o.r, z);
      NoLeave(m, fs'.k, b, st, o.at, o.r);
    }
    JoinedRun(m, a, b, fs'.k, st, [], [], at, r);
    if o.Fall? {
      var o' := RunFrom(m, fs'.k, b, st, o.at, o.r);
      if o'.Fall? { LeftStays(m, a, fs, d, fs', o.r, o'.r); }
    }
  }

  // The left operand ends with its value where the right one begins.
  lemma LeftEnds(m: Sem, a: Ctx, fs: Fs, d: Desc, at: int, r: Regs)
    requires Left(a, fs, d) && EndsWell(fs.code) && RunFrom(m, fs.k, a, StateOf(fs, d), at, r).Fall?
    ensures var o := RunFrom(m, fs.k, a, StateOf(fs, d), at, r);
      && IsEntry(CtxOf(fs), o.at) && o.w == Carried(fs.code, o.at, o.r) && KindValue(m, fs, d.k, o.r).Ok?
      && (LowRegs(fs.code) ==> AgreeHigh(r, o.r))
  {
    hide RunFrom, Building, LowRegs, AgreeHigh;
    RunFromEnds(m, fs.k, a, StateOf(fs, d), at, r);
    if LowRegs(fs.code) { LowRunFrom(m, fs.k, a, StateOf(fs, d), at, r); }
  }

  // ----- operands and their registers -----

  predicate Temp(fs: Fs, k: Kind) {
    k.VNonReloc? && k.reg >= fs.nactvar
  }

  // The temporary registers of two operands are the top of the register stack.
  ghost predicate Stacked(a: Ctx, fs: Fs, k1: Kind, k2: Kind) {
    if Temp(fs, k1) && Temp(fs, k2) then
      fs.freereg == a.base + 2 &&
        ((k1.reg == a.base && k2.reg == a.base + 1) || (k2.reg == a.base && k1.reg == a.base + 1))
    else
      && (Temp(fs, k1) ==> k1.reg == a.base) && (Temp(fs, k2) ==> k2.reg == a.base)
      && fs.freereg == a.base + if Temp(fs, k1) || Temp(fs, k2) then 1 else 0
  }

  predicate OperandKind(fs: Fs, k: Kind) {
    k.VNonReloc? || (k.VK? && k.info < |fs.k| && k.info <= MAXINDEXRK)
  }

  function Bare(k: Kind): Desc {
    Desc(k, [], [])
  }

  // Both operands are there.
  ghost predicate Operands(a: Ctx, fs: Fs, k1: Kind, k2: Kind) {
    && Building(a, fs, Bare(k1)) && OperandKind(fs, k1) && OperandKind(fs, k2) && Stacked(a, fs, k1, k2)
    && fs.nactvar <= a.base
  }

  lemma Exp2RKSame(fs: Fs, k: Kind)
    requires OperandKind(fs, k)
    ensures Exp2RK(fs, Bare(k)) == (fs, Bare(k))
  {
  }

  lemma AnyKind(a: Ctx, fs: Fs, k: Kind, k': Kind)
    requires Building(a, fs, Bare(k)) && Settles(k') && (k'.VK? ==> k'.info < |fs.k|)
    ensures Building(a, fs, Bare(k'))
  {
    hide ListsOk, Frame, ConstsOk, CtxOk, TestsJump, EndsWell;
  }

  // An operand on the left stays what it is.
  lemma LeftReady(m: Sem, a: Ctx, fs: Fs, d: Desc, fs': Fs, d': Desc)
    requires Ready(a, fs, d) && Ready(CtxOf(fs), fs', d') && Building(a, fs', d') && KPrefix(fs.k, fs'.k) &&
      fs'.nactvar == fs.nactvar
    ensures Exp2RK(fs', d) == (fs', d) && Operands(a, fs', d.k, d'.k)
  {
    assert d == Bare(d.k) && d' == Bare(d'.k);
    assert KindOk(a, fs, d) && KindOk(a, fs', d');
    Exp2RKSame(fs', d.k);
    AnyKind(a, fs', d'.k, d.k);
    hide Building, Exp2RK;
  }

  // A numeral on the left becomes a constant, or is loaded above the right operand.
  lemma NumeralConstant(m: Sem, a: Ctx, fs: Fs, d: Desc, fs': Fs, d': Desc)
    requires Stage(a, fs, d) && IsNumeral(d) && Ready(CtxOf(fs), fs', d') && Building(a, fs', d') &&
      fs'.nactvar == fs.nactvar
    requires |fs'.k| <= MAXINDEXRK
    ensures var (fs1, d1) := Exp2RK(fs', d);
      && Operands(a, fs1, d1.k, d'.k) && d1 == Bare(d1.k) && KPrefix(fs'.k, fs1.k) && fs1.nactvar == fs'.nactvar
    ensures forall at, r, va, vb :: PairGives(m, a, fs', d.k, d'.k, at, r, va, vb) ==>
              PairGives(m, a, Exp2RK(fs', d).0, Exp2RK(fs', d).1.k, d'.k, at, r, va, vb)
  {
    var w := Num(d.k.nval);
    AddKPrefix(fs', w);
    var (fs1, d1) := Exp2RK(fs', d);
    assert d' == Bare(d'.k);
    assert fs1 == AddK(fs', w) && d1 == Bare(VK(IndexOf(fs'.k, w)));
    AnyKind(a, fs', d'.k, VKNum(d.k.nval));
    ConstantReady(m, a, fs', Bare(VKNum(d.k.nval)), w);
    assert KindOk(CtxOf(fs), fs', d') && ConstsOk(fs'.code, fs'.k);
    hide Building, Exp2RK, AddK, IndexOf, ConstsOk;
    forall at, r, va, vb | PairGives(m, a, fs', d.k, d'.k, at, r, va, vb)
      ensures PairGives(m, a, fs1, d1.k, d'.k, at, r, va, vb)
    {
      SameRunFrom(m, fs'.k, fs1.k, a, State(fs'.code, fs'.jpc, [], []), at, r);
      hide RunFrom;
    }
  }

  function NumeralLoad(fs: Fs, n: real): Instr {
    LOADK(fs.freereg, IndexOf(fs.k, Num(n)))
  }

  lemma NumeralLoadIs(fs: Fs, d: Desc)
    requires IsNumeral(d) && |fs.k| > MAXINDEXRK && fs.freereg >= 0
    ensures var fs1 := ReserveReg(fs).(k := AddK(fs, Num(d.k.nval)).k);
      Exp2RK(fs, d) == (Emit(fs1, NumeralLoad(fs, d.k.nval)), Placed(fs.freereg))
  {
    AddKPrefix(fs, Num(d.k.nval));
    hide Emit, AddK, IndexOf;
  }

  lemma NumeralLoaded(m: Sem, a: Ctx, fs: Fs, d: Desc, fs': Fs, d': Desc)
    requires Stage(a, fs, d) && IsNumeral(d) && Ready(CtxOf(fs), fs', d') && Building(a, fs', d') &&
      fs'.nactvar == fs.nactvar
    requires |fs'.k| > MAXINDEXRK
    ensures var (fs1, d1) := Exp2RK(fs', d);
      && Operands(a, fs1, d1.k, d'.k) && d1 == Bare(d1.k) && KPrefix(fs'.k, fs1.k) && fs1.nactvar == fs'.nactvar
  {
    var w := Num(d.k.nval);
    var k' := AddK(fs', w).k;
    AddKPrefix(fs', w);
    NumeralLoadIs(fs', d);
    var i := NumeralLoad(fs', d.k.nval);
    AnyKind(a, fs', d'.k, VTrue) by { assert d' == Bare(d'.k); }
    BuildingIgnoresRegs(a, fs', Bare(VTrue), fs'.freereg + 1);
    LoadBuilding(a, ReserveReg(fs'), Bare(VTrue), k', i, fs'.freereg);
    assert KindOk(CtxOf(fs), fs', d');
    hide Building, Exp2RK, AddK, IndexOf;
  }

  lemma NumeralLoadedGives(m: Sem, a: Ctx, fs: Fs, d: Desc, fs': Fs, d': Desc, at: int, r: Regs, va: Result, vb: Result)
    requires Stage(a, fs, d) && IsNumeral(d) && Ready(CtxOf(fs), fs', d') && Building(a, fs', d') &&
      fs'.nactvar == fs.nactvar
    requires |fs'.k| > MAXINDEXRK && PairGives(m, a, fs', d.k, d'.k, at, r, va, vb)
    ensures PairGives(m, a, Exp2RK(fs', d).0, Exp2RK(fs', d).1.k, d'.k, at, r, va, vb)
  {
    var w := Num(d.k.nval);
    var k' := AddK(fs', w).k;
    AddKPrefix(fs', w);
    NumeralLoadIs(fs', d);
    var i := NumeralLoad(fs', d.k.nval);
    var st := State(fs'.code, fs'.jpc, [], []);
    var fs1 := Exp2RK(fs', d).0;
    assert st == StateOf(fs', d') && State(fs1.code, fs1.jpc, [], []) == EmitState(st, i) && fs1.k == k';
    assert Const(k', i.bx) == w && KindOk(CtxOf(fs), fs', d');
    BuildingParts(a, fs', d');
    hide Building, Exp2RK, AddK, IndexOf, ListsOk, ConstsOk, EndsWell, EmitState, Emit, RunFrom, Stage, Discharged,
      Frame, CtxOk;
    LoadPair(m, a, fs', d'.k, k', st, i, w, at, r, va, vb);
  }

  // A constant loaded into a register above the right operand
  lemma LoadPair(m: Sem, a: Ctx, fs: Fs, k2: Kind, k': seq<Value>, st: State, i: Instr, w: Value, at: int, r: Regs,
      va: Result, vb: Result)
    requires CtxOk(a) && ListsOk(st) && Frame(a, st) && EndsWell(st.code) && ConstsOk(st.code, fs.k) &&
      KPrefix(fs.k, k')
    requires st == State(fs.code, fs.jpc, [], []) && i.LOADK? && i.a >= a.base >= 0 && Const(k', i.bx) == w && w.Num?
    requires (k2.VNonReloc? && k2.reg != i.a) || (k2.VK? && k2.info < |fs.k|)
    requires PairGives(m, a, fs, VKNum(w.n), k2, at, r, va, vb)
    ensures PairGives(m, a, fs.(code := EmitState(st, i).code, jpc := [], k := k'), VNonReloc(i.a), k2, at, r, va, vb)
  {
    var f := fs.(code := EmitState(st, i).code, jpc := [], k := k');
    assert EmitState(st, i) == State(f.code, [], [], []);
    hide ListsOk, ConstsOk, EndsWell, EmitState, RunFrom, CtxOk, Frame;
    EmitRun(m, fs.k, k', a, st, i, at, r);
    EmitLast(st, i);
    var o := RunFrom(m, fs.k, a, st, at, r);
    if o.Fall? { LoadRun(m, k', EmitState(st, i), |st.code|, o.r); }
  }

  lemma EmitLast(st: State, i: Instr)
    ensures |EmitState(st, i).code| == |st.code| + 1 && EmitState(st, i).code[|st.code|] == i
  {
  }
}
