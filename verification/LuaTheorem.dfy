/**
 What the machine does with a compiled expression, for every expression and from every state
 of the registers; and exactly when that is right.
 */
module LuaTheorem {
  import opened LuaVm
  import opened LuaRun
  import opened LuaCodegen
  import opened LuaFrame
  import opened LuaExit
  import opened LuaMeaning
  import opened LuaRegisters
  import opened LuaOperands
  import opened LuaCompose
  import opened LuaCompile

  // ----- from runs to the machine -----

  // The machine gets somewhere, in some number of steps, before it goes on from `end`.
  ghost predicate Gets(m: Sem, k: seq<Value>, code: seq<Instr>, end: nat, c: Config, c': Config) {
    exists n: nat :: Reaches(m, k, code, end, c, c', n)
  }

  lemma GetsStep(m: Sem, k: seq<Value>, code: seq<Instr>, end: nat, c: Config, c': Config)
    requires c.Running? && 0 <= c.pc < end <= |code|
    requires Gets(m, k, code, end, Step(m, k, code, c), c')
    ensures Gets(m, k, code, end, c, c')
  {
    var n: nat :| Reaches(m, k, code, end, Step(m, k, code, c), c', n);
    assert Reaches(m, k, code, end, c, c', n + 1);
  }

  lemma GetsHere(m: Sem, k: seq<Value>, code: seq<Instr>, end: nat, c: Config)
    ensures Gets(m, k, code, end, c, c)
  {
    assert Reaches(m, k, code, end, c, c, 0);
  }

  // All jumps of the state have their target.
  predicate AllSet(st: State) {
    st.here == [] && st.tt == [] && st.ff == []
  }

  function EndOf(o: Out, n: int): Config {
    if o.Fall? then Running(n, o.r) else Failed
  }

  lemma {:induction false} RunIsMachine(m: Sem, k: seq<Value>, st: State, code: seq<Instr>, pc: int, r: Regs)
    requires AllSet(st) && st.code <= code && Run(m, k, st, pc, r) != Stuck
    ensures Gets(m, k, code, |st.code|, Running(pc, r), EndOf(Run(m, k, st, pc, r), |st.code|))
    decreases |st.code| - pc
  {
    var o, n := Run(m, k, st, pc, r), |st.code|;
    var end := EndOf(o, n);
    if pc == n {
      GetsHere(m, k, code, n, end);
    } else {
      var i := st.code[pc];
      assert code[pc] == i;
      hide Gets;
      if i.JMP? {
        var to := pc + 1 + i.sbx;
        RunIsMachine(m, k, st, code, to, r);
        assert Step(m, k, code, Running(pc, r)) == Running(to, r);
      } else if IsTest(i) {
        TestIsMachine(m, k, st, code, pc, r);
      } else {
        match Computed(m, k, i, r) {
          case Error => GetsHere(m, k, code, n, Failed);
          case Ok(v) => RunIsMachine(m, k, st, code, if i.LOADBOOL? && i.skip then pc + 2 else pc + 1, r[i.a := v]);
        }
      }
      GetsStep(m, k, code, n, Running(pc, r), end);
    }
  }

  lemma {:induction false} TestIsMachine(m: Sem, k: seq<Value>, st: State, code: seq<Instr>, pc: int, r: Regs)
    requires AllSet(st) && st.code <= code && Run(m, k, st, pc, r) != Stuck && 0 <= pc < |st.code| &&
      IsTest(st.code[pc])
    ensures Gets(m, k, code, |st.code|, Step(m, k, code, Running(pc, r)), EndOf(Run(m, k, st, pc, r), |st.code|))
    decreases |st.code| - pc, 0
  {
    var i := st.code[pc];
    assert code[pc] == i;
    hide Gets;
    match Taken(m, k, i, r) {
      case None => GetsHere(m, k, code, |st.code|, Failed);
      case Some(false) => RunIsMachine(m, k, st, code, pc + 2, r);
      case Some(true) =>
        assert code[pc + 1] == st.code[pc + 1];
        var to := pc + 2 + st.code[pc + 1].sbx;
        RunIsMachine(m, k, st, code, to, AfterTest(i, r));
    }
  }

  // The machine at the start of an expression, or at a jump to it whose test has been made on
  // registers `r`
  function Coming(code: seq<Instr>, start: nat, at: int, r: Regs): Config {
    Running(at, if at == start then r else Jumping(code, at, r))
  }

  lemma EnterIsMachine(m: Sem, k: seq<Value>, st: State, code: seq<Instr>, start: nat, at: int, r: Regs)
    requires AllSet(st) && st.code <= code && Enter(m, k, st, start, at, r) != Stuck
    ensures Gets(m, k, code, |st.code|, Coming(code, start, at, r), EndOf(Enter(m, k, st, start, at, r), |st.code|))
  {
    hide Gets;
    if at == start {
      RunIsMachine(m, k, st, code, at, r);
    } else {
      var r1 := Jumping(st.code, at, r);
      assert code[at] == st.code[at] && Jumping(code, at, r) == r1;
      var to := at + 1 + st.code[at].sbx;
      RunIsMachine(m, k, st, code, to, r1);
      assert Step(m, k, code, Running(at, r1)) == Running(to, r1);
      GetsStep(m, k, code, |st.code|, Running(at, r1), EndOf(Run(m, k, st, to, r1), |st.code|));
    }
  }

  // ----- what the machine leaves in a register -----

  // The machine comes to the last instruction of the code with the value in `reg` and all
  // other registers below `base` unchanged, or it fails for an error.
  ghost predicate Yields(m: Sem, k: seq<Value>, code: seq<Instr>, start: nat, at: int, reg: nat, base: nat, r: Regs,
      v: Result)
    requires |code| > 0
  {
    var (c, end) := (Coming(code, start, at, r), |code| - 1);
    match v
    case Error => Gets(m, k, code, end, c, Failed)
    case Ok(w) => exists r' ::
      Gets(m, k, code, end, c, Running(end, r')) && Get(r', reg) == w && AgreeBut(r, r', base, reg)
  }

  // It leaves one value only.
  lemma YieldsOnce(m: Sem, k: seq<Value>, code: seq<Instr>, start: nat, at: int, reg: nat, base: nat, r: Regs,
      v: Result, w: Result)
    requires |code| > 0 && Yields(m, k, code, start, at, reg, base, r, v) &&
      Yields(m, k, code, start, at, reg, base, r, w)
    ensures v == w
  {
    var c, end := Coming(code, start, at, r), |code| - 1;
    var c1, r1 := Stop(m, k, code, start, at, reg, base, r, v);
    var c2, r2 := Stop(m, k, code, start, at, reg, base, r, w);
    var n1: nat :| Reaches(m, k, code, end, c, c1, n1);
    var n2: nat :| Reaches(m, k, code, end, c, c2, n2);
    StopsOnce(m, k, code, end, c, c1, c2, n1, n2);
  }

  lemma Stop(m: Sem, k: seq<Value>, code: seq<Instr>, start: nat, at: int, reg: nat, base: nat, r: Regs, v: Result)
    returns (c: Config, r': Regs)
    requires |code| > 0 && Yields(m, k, code, start, at, reg, base, r, v)
    ensures Gets(m, k, code, |code| - 1, Coming(code, start, at, r), c) && Stopped(c, |code| - 1)
    ensures if v.Ok? then c == Running(|code| - 1, r') && Get(r', reg) == v.v else c == Failed
  {
    hide Gets;
    match v {
      case Error => c, r' := Failed, r;
      case Ok(w) =>
        r' :| Gets(m, k, code, |code| - 1, Coming(code, start, at, r), Running(|code| - 1, r')) && Get(r', reg) == w;
        c := Running(|code| - 1, r');
    }
  }

  lemma PlacedYields(m: Sem, c: Ctx, fs: Fs, reg: nat, next: Instr, at: int, r: Regs, v: Result)
    requires Building(c, fs, Placed(reg)) && GivesValue(m, c, fs, Placed(reg), reg, at, r, v)
    ensures |Emit(fs, next).code| > 0 && Yields(m, fs.k, Emit(fs, next).code, |c.code|, at, reg, c.base, r, v)
  {
    var st := StateOf(fs, Placed(reg));
    var st' := Discharged(st);
    var code := Emit(fs, next).code;
    DischargedCode(st);
    assert st' == State(st'.code, [], [], []) && code == st'.code + [next] && BodyState(fs, Placed(reg)) == st;
    BuildingParts(c, fs, Placed(reg));
    hide Building, ListsOk, ConstsOk, Discharged, Emit, Gets, Frame, CtxOk, EndsWell, Enter, IsEntry;
    DischargedRun(m, fs.k, c, st, at, r);
    EnterIsMachine(m, fs.k, st', code, |c.code|, at, r);
  }

  // ----- an expression in a register -----

  // Compiling an expression and putting it into the next register (`luaK_exp2nextreg`)
  function CompileToNext(m: Sem, fs: Fs, e: Expr): Fs {
    var (f, d) := Compile(m, fs, e);
    Exp2NextReg(f, d).0
  }

  // The value the compiled expression comes to, and whether it is that of the expression
  function Computes(m: Sem, fs: Fs, e: Expr, at: int, r: Regs): Result {
    ValueOf(ExitOf(m, fs, e, r, Carried(fs.code, at, r)))
  }

  predicate Right(m: Sem, fs: Fs, e: Expr, at: int, r: Regs) {
    Computes(m, fs, e, at, r) == Eval(m, e, r)
  }

  lemma StartBase(fs: Fs)
    requires Start(fs)
    ensures CtxOf(fs).base == fs.freereg && |CtxOf(fs).code| == |fs.code|
  {
  }

  // Main theorem: however a run comes to the code of an expression, from its start or by a
  // jump that waits for it, the machine leaves in the next register exactly what the exit of
  // the expression says, and changes no register below it. So it leaves the value of the
  // expression if and only if the exit has that value.
  lemma ExpressionsAreCompiledCorrectly(m: Sem, fs: Fs, e: Expr, next: Instr, at: int, r: Regs)
    requires Start(fs) && Scoped(e, fs.nactvar) && Steady(m, fs, e) && IsEntry(CtxOf(fs), at)
    ensures var f := CompileToNext(m, fs, e); var code := Emit(f, next).code;
      && f.freereg == fs.freereg + 1 && fs.freereg >= 0 && |code| > 0
      && Yields(m, f.k, code, |fs.code|, at, fs.freereg, fs.freereg, r, Computes(m, fs, e, at, r))
      && (Yields(m, f.k, code, |fs.code|, at, fs.freereg, fs.freereg, r, Eval(m, e, r)) <==> Right(m, fs, e, at, r))
  {
    CompileExact(m, fs, e);
    var c := CtxOf(fs);
    var (f, d) := Compile(m, fs, e);
    StartBase(fs);
    hide Start, Steady, Compile, Stage, Building, Gives, GivesValue, Yields, ExitOf, Eval, IsEntry;
    Exp2NextRegOk(m, c, f, d);
    var (f', d') := Exp2NextReg(f, d);
    var y := ExitOf(m, fs, e, r, Carried(fs.code, at, r));
    assert Gives(m, c, f, d, NO_REG, at, r, y);
    Exp2NextRegGives(m, c, f, d, at, r, y);
    PlacedYields(m, c, f', c.base, next, at, r, ValueOf(y));
    Compared(m, f'.k, Emit(f', next).code, |fs.code|, at, c.base, c.base, r, ValueOf(y), Eval(m, e, r));
  }

  lemma Compared(m: Sem, k: seq<Value>, code: seq<Instr>, start: nat, at: int, reg: nat, base: nat, r: Regs, v: Result,
      w: Result)
    requires |code| > 0 && Yields(m, k, code, start, at, reg, base, r, v)
    ensures Yields(m, k, code, start, at, reg, base, r, w) <==> v == w
  {
    hide Yields;
    if Yields(m, k, code, start, at, reg, base, r, w) { YieldsOnce(m, k, code, start, at, reg, base, r, v, w); }
  }

  // The compiler takes the expression, and a run may come to its code at `at`.
  ghost predicate Compilable(m: Sem, fs: Fs, e: Expr, at: int) {
    Start(fs) && Scoped(e, fs.nactvar) && Steady(m, fs, e) && IsEntry(CtxOf(fs), at)
  }

  // The machine leaves `v` in the next register, and no register below it changed.
  ghost predicate Delivers(m: Sem, fs: Fs, e: Expr, next: Instr, at: int, r: Regs, v: Result) {
    var f := CompileToNext(m, fs, e);
    var code := Emit(f, next).code;
    fs.freereg >= 0 && |code| > 0 && Yields(m, f.k, code, |fs.code|, at, fs.freereg, fs.freereg, r, v)
  }

  // The main theorem, in one equivalence
  lemma DeliversExactly(m: Sem, fs: Fs, e: Expr, next: Instr, at: int, r: Regs, v: Result)
    requires Compilable(m, fs, e, at)
    ensures Delivers(m, fs, e, next, at, r, v) <==> v == Computes(m, fs, e, at, r)
  {
    hide Start, Steady, Scoped, IsEntry, Yields, CompileToNext, Emit, Computes;
    ExpressionsAreCompiledCorrectly(m, fs, e, next, at, r);
    var f := CompileToNext(m, fs, e);
    Compared(m, f.k, Emit(f, next).code, |fs.code|, at, fs.freereg, fs.freereg, r, Computes(m, fs, e, at, r), v);
  }

  // Assigning an expression to a local (`luaK_storevar`)
  function CompileToLocal(m: Sem, fs: Fs, e: Expr, x: nat): Fs {
    var (f, d) := Compile(m, fs, e);
    Exp2Reg(FreeExp(f, d), d, x).0
  }

  // The local gets the value, and no other local changes, even if the expression uses it.
  lemma AssignmentsAreCompiledCorrectly(m: Sem, fs: Fs, e: Expr, x: nat, next: Instr, at: int, r: Regs)
    requires Start(fs) && Scoped(e, fs.nactvar) && Steady(m, fs, e) && x < fs.nactvar && IsEntry(CtxOf(fs), at)
    ensures var f := CompileToLocal(m, fs, e, x); var code := Emit(f, next).code;
      && f.freereg == fs.freereg >= 0 && |code| > 0
      && Yields(m, f.k, code, |fs.code|, at, x, fs.freereg, r, Computes(m, fs, e, at, r))
      && (Yields(m, f.k, code, |fs.code|, at, x, fs.freereg, r, Eval(m, e, r)) <==> Right(m, fs, e, at, r))
  {
    CompileExact(m, fs, e);
    var c := CtxOf(fs);
    var (f, d) := Compile(m, fs, e);
    NoTemporary(c, f, d);
    StartBase(fs);
    hide Start, Steady, Compile, Stage, Building, Gives, GivesValue, Yields, ExitOf, Eval, IsEntry, FreeExp;
    Exp2RegOk(m, c, f, d, x);
    var (f', d') := Exp2Reg(f, d, x);
    var y := ExitOf(m, fs, e, r, Carried(fs.code, at, r));
    assert Gives(m, c, f, d, NO_REG, at, r, y);
    Exp2RegGives(m, c, f, d, x, at, r, y);
    PlacedYields(m, c, f', x, next, at, r, ValueOf(y));
    Compared(m, f'.k, Emit(f', next).code, |fs.code|, at, x, c.base, r, ValueOf(y), Eval(m, e, r));
  }

  lemma NoTemporary(c: Ctx, fs: Fs, d: Desc)
    requires Stage(c, fs, d)
    ensures Building(c, fs, d) && FreeExp(fs, d) == fs && fs.freereg == c.base
  {
    hide Building;
  }
}
