/**
 The operators themselves: registers given back, the instruction emitted, its value.
 */
module LuaArith {
  import opened LuaVm
  import opened LuaRun
  import opened LuaCodegen
  import opened LuaFrame
  import opened LuaExit
  import opened LuaMeaning
  import opened LuaOperands
  import opened LuaNot
  import opened LuaCompose
  import opened LuaOperators
  import opened Wrappers

  // The right operand of an expression becomes an operand, then the left one.
  lemma RightReady(m: Sem, a: Ctx, fs: Fs, d: Desc, fs': Fs, d': Desc)
    requires Left(a, fs, d) && Stage(CtxOf(fs), fs', d') && KPrefix(fs.k, fs'.k) && fs'.nactvar == fs.nactvar
    ensures var (f1, e2) := Exp2RK(fs', d');
      && Ready(CtxOf(fs), f1, e2) && Building(a, f1, e2) && KPrefix(fs.k, f1.k) && f1.nactvar == fs.nactvar &&
        e2 == Bare(e2.k)
  {
    hide Exp2RK, Building;
    LeftStays(m, a, fs, d, fs, map[], map[]);
    Exp2RKOk(m, CtxOf(fs), fs', d');
    var (f1, e2) := Exp2RK(fs', d');
    JoinedBuilding(a, fs, d, f1, e2);
    assert JoinedDesc(e2, d.t, d.f) == e2;
  }

  // The two operands, with the value of the pair
  lemma BothReady(m: Sem, a: Ctx, fs: Fs, d: Desc, fs': Fs, d': Desc)
    requires Left(a, fs, d) && Ready(CtxOf(fs), fs', d') && Building(a, fs', d') && KPrefix(fs.k, fs'.k) &&
      fs'.nactvar == fs.nactvar
    ensures var (f2, e1) := Exp2RK(fs', d);
      && Operands(a, f2, e1.k, d'.k) && e1 == Bare(e1.k) && KPrefix(fs'.k, f2.k) && f2.nactvar == fs.nactvar
      && forall at, r, va, vb ::
        PairGives(m, a, fs', d.k, d'.k, at, r, va, vb) ==> PairGives(m, a, f2, e1.k, d'.k, at, r, va, vb)
  {
    var (f2, e1) := Exp2RK(fs', d);
    if Ready(a, fs, d) {
      LeftReady(m, a, fs, d, fs', d');
    } else if |fs'.k| <= MAXINDEXRK {
      NumeralConstant(m, a, fs, d, fs', d');
    } else {
      NumeralLoaded(m, a, fs, d, fs', d');
      hide PairGives, Exp2RK, Ready, Stage, Building, Operands;
      forall at, r, va, vb | PairGives(m, a, fs', d.k, d'.k, at, r, va, vb)
        ensures PairGives(m, a, f2, e1.k, d'.k, at, r, va, vb)
      {
        NumeralLoadedGives(m, a, fs, d, fs', d', at, r, va, vb);
      }
    }
  }

  // What `freereg` asserts: a temporary is freed only when it is the last one.
  predicate OnTop(fs: Fs, k: Kind) {
    Temp(fs, k) ==> k.reg == fs.freereg - 1
  }

  lemma FreedInOrder(a: Ctx, fs: Fs, k1: Kind, k2: Kind)
    requires Operands(a, fs, k1, k2)
    ensures FreeBoth(fs, Bare(k1), Bare(k2)) == fs.(freereg := a.base)
    ensures var (first, second) := if RKCode(Operand(Bare(k1))) > RKCode(Operand(Bare(k2))) then (k1, k2) else (k2, k1);
      OnTop(fs, first) && OnTop(FreeExp(fs, Bare(first)), second)
  {
    hide Building;
  }

  lemma OperandValue(m: Sem, fs: Fs, k: Kind, r: Regs)
    requires OperandKind(fs, k)
    ensures KindValue(m, fs, k, r) == Ok(RKValue(fs.k, Operand(Bare(k)), r))
    ensures forall i: RK :: i == Operand(Bare(k)) && i.K? ==> i.idx < |fs.k|
  {
  }

  lemma OperandsFacts(a: Ctx, fs: Fs, k1: Kind, k2: Kind)
    requires Operands(a, fs, k1, k2)
    ensures Building(a, fs, Bare(k1)) && OperandKind(fs, k1) && OperandKind(fs, k2) && fs.nactvar <= a.base
  {
    hide Building;
  }

  lemma BareBody(fs: Fs, k: Kind)
    requires Settles(k)
    ensures BodyState(fs, Bare(k)) == State(fs.code, fs.jpc, [], [])
  {
  }

  lemma ArithEmitted(m: Sem, a: Ctx, fs: Fs, op: ArithOp, k1: Kind, k2: Kind)
    requires Operands(a, fs, k1, k2)
    ensures var f3 := Emit(FreeBoth(fs, Bare(k1), Bare(k2)), ARITH(0, op, Operand(Bare(k1)), Operand(Bare(k2))));
      var d3 := Bare(VReloc(|f3.code| - 1));
      && Stage(a, f3, d3) && f3.k == fs.k && f3.nactvar == fs.nactvar
      && forall at, r, va, vb :: PairGives(m, a, fs, k1, k2, at, r, va, vb) ==>
           Gives(m, a, f3, d3, NO_REG, at, r, ExitWith(Both(m, OpArith(op), va, vb), None))
  {
    hide Building, Emit, Operands, FreeBoth, Gives, PairGives, RunFrom, BodyState;
    OperandsFacts(a, fs, k1, k2);
    FreedInOrder(a, fs, k1, k2);
    var i := ARITH(0, op, Operand(Bare(k1)), Operand(Bare(k2)));
    OperandValue(m, fs, k1, map[]);
    OperandValue(m, fs, k2, map[]);
    BuildingIgnoresRegs(a, fs, Bare(k1), a.base);
    var fs0 := fs.(freereg := a.base);
    RelocEmitted(m, a, fs0, Bare(k1), i);
    RelocStates(fs0, Bare(k1), i);
    var f3 := Emit(fs0, i);
    var d3 := Bare(VReloc(|f3.code| - 1));
    assert BodyState(fs0, Bare(k1)) == State(fs.code, fs.jpc, [], []) by { BareBody(fs0, k1); }
    forall at, r, va, vb | PairGives(m, a, fs, k1, k2, at, r, va, vb)
      ensures Gives(m, a, f3, d3, NO_REG, at, r, ExitWith(Both(m, OpArith(op), va, vb), None))
    {
      ArithValueAt(m, a, fs, op, k1, k2, f3, d3, at, r, va, vb);
    }
  }

  lemma ArithValueAt(m: Sem, a: Ctx, fs: Fs, op: ArithOp, k1: Kind, k2: Kind, f3: Fs, d3: Desc, at: int, r: Regs,
      va: Result, vb: Result)
    requires OperandKind(fs, k1) && OperandKind(fs, k2) && PairGives(m, a, fs, k1, k2, at, r, va, vb)
    requires f3.k == fs.k && |f3.code| > 0 && d3 == Bare(VReloc(|f3.code| - 1))
    requires f3.code[|f3.code| - 1] == ARITH(0, op, Operand(Bare(k1)), Operand(Bare(k2)))
    requires var o := RunFrom(m, fs.k, a, State(fs.code, fs.jpc, [], []), at, r);
      IsEntry(a, at) && o != Stuck ==> RunFrom(m, f3.k, a, BodyState(f3, d3), at, r) == Forgotten(o, |fs.code|)
    ensures Gives(m, a, f3, d3, NO_REG, at, r, ExitWith(Both(m, OpArith(op), va, vb), None))
  {
    var o := RunFrom(m, fs.k, a, State(fs.code, fs.jpc, [], []), at, r);
    if o.Fall? {
      OperandValue(m, fs, k1, o.r);
      OperandValue(m, fs, k2, o.r);
    }
    hide RunFrom;
  }

  // ----- codearith -----

  lemma FoldedGives(m: Sem, a: Ctx, fs: Fs, op: ArithOp, d1: Desc, d2: Desc, at: int, r: Regs, va: Result, vb: Result,
      w: Option<Value>)
    requires Folded(m, op, d1, d2).Some? && PairGives(m, a, fs, d1.k, d2.k, at, r, va, vb) &&
      PairWaits(m, a, fs, at, r, w)
    ensures Gives(m, a, fs, d1.(k := VKNum(Folded(m, op, d1, d2).value)), NO_REG, at, r,
      ExitWith(Both(m, OpArith(op), va, vb), w))
  {
    var d := d1.(k := VKNum(Folded(m, op, d1, d2).value));
    assert BodyState(fs, d) == State(fs.code, fs.jpc, [], []);
    hide RunFrom;
  }

  lemma RightGives(m: Sem, a: Ctx, fs: Fs, fs': Fs, d': Desc, r: Regs, p: Option<Value>, z: Exit)
    requires Stage(CtxOf(fs), fs', d') && GivesAfter(m, a, fs, fs', d', r, p, z)
    ensures var (f1, e2) := Exp2RK(fs', d'); GivesAfter(m, a, fs, f1, e2, r, p, Operated(z, Idle(fs', d')))
  {
    var (f1, e2) := Exp2RK(fs', d');
    hide Exp2RK, Gives, Stage, Follows, Idle;
    forall at1, r1 | Follows(a, fs, r, at1, r1, p)
      ensures Gives(m, CtxOf(fs), f1, e2, NO_REG, at1, r1, Operated(z, Idle(fs', d')))
    {
      Exp2RKGives(m, CtxOf(fs), fs', d', at1, r1, z);
    }
  }

  // The exits of the left operand, and then of the right one
  ghost predicate InTurn(m: Sem, a: Ctx, fs: Fs, d: Desc, fs': Fs, d': Desc, at: int, r: Regs, y: Exit, z: Exit) {
    Gives(m, a, fs, d, NO_REG, at, r, y) && (y.Ended? ==> GivesAfter(m, a, fs, fs', d', r, y.waiting, z))
  }

  lemma CodeArithOk(m: Sem, a: Ctx, fs: Fs, op: ArithOp, d: Desc, fs': Fs, d': Desc)
    requires Left(a, fs, d) && Stage(CtxOf(fs), fs', d') && KPrefix(fs.k, fs'.k) && fs'.nactvar == fs.nactvar
    ensures var (f3, d3) := CodeArith(m, fs', op, d, d');
      && Stage(a, f3, d3) && KPrefix(fs'.k, f3.k) && f3.nactvar == fs.nactvar
      && forall at, r, y, z :: InTurn(m, a, fs, d, fs', d', at, r, y, z) ==>
           Gives(m, a, f3, d3, NO_REG, at, r, Combined(m, OpArith(op), IsFolded(m, OpArith(op), d, d'), y, z))
  {
    if Folded(m, op, d, d').Some? {
      FoldedOk(m, a, fs, op, d, fs', d');
    } else {
      EmittedOk(m, a, fs, op, d, fs', d');
    }
  }

  lemma FoldedOk(m: Sem, a: Ctx, fs: Fs, op: ArithOp, d: Desc, fs': Fs, d': Desc)
    requires Left(a, fs, d) && Stage(CtxOf(fs), fs', d') && KPrefix(fs.k, fs'.k) && fs'.nactvar == fs.nactvar
    requires Folded(m, op, d, d').Some?
    ensures var (f3, d3) := CodeArith(m, fs', op, d, d');
      && Stage(a, f3, d3) && KPrefix(fs'.k, f3.k) && f3.nactvar == fs.nactvar
      && forall at, r, y, z :: InTurn(m, a, fs, d, fs', d', at, r, y, z) ==>
           Gives(m, a, f3, d3, NO_REG, at, r, Combined(m, OpArith(op), true, y, z))
  {
    var (f3, d3) := CodeArith(m, fs', op, d, d');
    assert f3 == fs' && d3 == Bare(VKNum(Folded(m, op, d, d').value));
    assert Stage(a, fs, d) && d' == Bare(d'.k);
    JoinedBuilding(a, fs, d, fs', d');
    assert JoinedDesc(d', d.t, d.f) == d';
    AnyKind(a, fs', d'.k, d3.k);
    assert CtxOf(fs).base == a.base;
    hide Building, Gives, GivesAfter, CodeArith;
    forall at, r, y, z | InTurn(m, a, fs, d, fs', d', at, r, y, z)
      ensures Gives(m, a, f3, d3, NO_REG, at, r, Combined(m, OpArith(op), true, y, z))
    {
      PairAfter(m, a, fs, d, fs', d', at, r, y, z);
      FoldedGives(m, a, fs', op, d, d', at, r, ValueOf(y), ValueOf(z), WaitingOf(z));
    }
  }

  lemma PairAfter(m: Sem, a: Ctx, fs: Fs, d: Desc, fs': Fs, d': Desc, at: int, r: Regs, y: Exit, z: Exit)
    requires Left(a, fs, d) && Building(CtxOf(fs), fs', d') && d' == Bare(d'.k) && Settles(d'.k)
    requires InTurn(m, a, fs, d, fs', d', at, r, y, z)
    ensures PairGives(m, a, fs', d.k, d'.k, at, r, ValueOf(y), ValueOf(z)) && PairWaits(m, a, fs', at, r, WaitingOf(z))
  {
    hide Building, Gives, PairGives, PairWaits, GivesAfter;
    LeftBuilding(a, fs, d);
    PairFrom(m, a, fs, d, fs', d', at, r, y, z);
  }

  lemma LeftBuilding(a: Ctx, fs: Fs, d: Desc)
    requires Left(a, fs, d)
    ensures Building(a, fs, d)
  {
    hide Building;
  }

  lemma EmittedOk(m: Sem, a: Ctx, fs: Fs, op: ArithOp, d: Desc, fs': Fs, d': Desc)
    requires Left(a, fs, d) && Stage(CtxOf(fs), fs', d') && KPrefix(fs.k, fs'.k) && fs'.nactvar == fs.nactvar
    requires Folded(m, op, d, d').None?
    ensures var (f3, d3) := CodeArith(m, fs', op, d, d');
      && Stage(a, f3, d3) && KPrefix(fs'.k, f3.k) && f3.nactvar == fs.nactvar
      && forall at, r, y, z :: InTurn(m, a, fs, d, fs', d', at, r, y, z) ==>
           Gives(m, a, f3, d3, NO_REG, at, r, Combined(m, OpArith(op), false, y, z))
  {
    hide Building, Gives, GivesAfter, Exp2RK, PairGives, PairWaits, Idle;
    var (f1, e2) := Exp2RK(fs', d');
    RightReady(m, a, fs, d, fs', d');
    Exp2RKOk(m, CtxOf(fs), fs', d');
    var (f2, e1) := Exp2RK(f1, d);
    BothReady(m, a, fs, d, f1, e2);
    ArithEmitted(m, a, f2, op, e1.k, e2.k);
    var (f3, d3) := CodeArith(m, fs', op, d, d');
    hide Stage, Left, CodeArith, Operands;
    forall at, r, y, z | InTurn(m, a, fs, d, fs', d', at, r, y, z)
      ensures Gives(m, a, f3, d3, NO_REG, at, r, Combined(m, OpArith(op), false, y, z))
    {
      var z' := Operated(z, Idle(fs', d'));
      if y.Ended? { RightGives(m, a, fs, fs', d', r, y.waiting, z); }
      PairAfter(m, a, fs, d, f1, e2, at, r, y, z');
      OperatedValue(z, Idle(fs', d'));
    }
  }

  lemma OperatedValue(z: Exit, idle: bool)
    ensures ValueOf(Operated(z, idle)) == ValueOf(z)
  {
  }
}
