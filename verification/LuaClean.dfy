/**
 Two conditions under which an expression is compiled right for all registers, which one can
 check without running anything: one on the code as it grows, and one on the expression.
 */
module LuaClean {
  import opened LuaVm
  import opened LuaRun
  import opened LuaCodegen
  import opened LuaFrame
  import opened LuaExit
  import opened LuaMeaning
  import opened LuaOperands
  import opened LuaConditions
  import opened LuaBranches
  import opened LuaCompose
  import opened LuaOperators
  import opened LuaCompile
  import opened LuaStray
  import opened LuaTheorem
  import opened Wrappers

  // ----- a condition on the code -----

  // No unconditional jump is made for a literal while a jump with a value waits for it, and no
  // minus stands before a literal `true` or `false`.
  ghost predicate Clean(m: Sem, fs: Fs, e: Expr)
    decreases e
  {
    match e
    case Unary(op, a) => Clean(m, fs, a) && (op == OpMinus ==> MinusOk(Compile(m, fs, a).0, Compile(m, fs, a).1))
    case Binary(op, a, b) =>
      var (fs1, d1) := Compile(m, fs, a);
      && Clean(m, fs, a) && Clean(m, After(m, fs, op, a), b)
      && (IsLogic(op) && AlwaysJumps(d1.k, op == OpAnd) ==> NoValuesHere(fs1))
    case _ => true
  }

  lemma {:induction false} CleanMinuses(m: Sem, fs: Fs, e: Expr)
    requires Clean(m, fs, e)
    ensures MinusesOk(m, fs, e)
    decreases e
  {
    hide Compile, Infix, MinusOk;
    match e {
      case Unary(op, a) => CleanMinuses(m, fs, a);
      case Binary(op, a, b) => CleanMinuses(m, fs, a); CleanMinuses(m, After(m, fs, op, a), b);
      case _ =>
    }
  }

  // Nothing is carried to the end of the code if no jump with a value waits there.
  lemma NothingWaits(m: Sem, fs: Fs, e: Expr, at: int, r: Regs)
    requires Exact(m, fs, e) && IsEntry(CtxOf(fs), at)
    requires var (f, d) := Compile(m, fs, e); BooleanKind(d.k) && NoValuesHere(f)
    ensures WaitingOf(ExitOf(m, fs, e, r, Carried(fs.code, at, r))) == None
  {
    hide Compile, ExitOf, RunFrom, Building, IsEntry;
    var (f, d) := Compile(m, fs, e);
    assert Gives(m, CtxOf(fs), f, d, NO_REG, at, r, ExitOf(m, fs, e, r, Carried(fs.code, at, r)));
    BuildingParts(CtxOf(fs), f, d);
    RunFromEnds(m, f.k, CtxOf(fs), StateOf(f, d), at, r);
    assert BodyState(f, d) == StateOf(f, d);
  }

  // A run that goes on to the right operand of `and` or `or`
  lemma NextAfterTest(m: Sem, fs: Fs, cond: bool, a: Expr, at: int, r: Regs) returns (at1: int, r1: Regs)
    requires Exact(m, fs, a) && IsEntry(CtxOf(fs), at)
    requires TestedLeft(m, fs, if cond then OpAnd else OpOr, a, r, Carried(fs.code, at, r)).Ended?
    ensures var op := if cond then OpAnd else OpOr; var fs2 := After(m, fs, op, a);
      && Start(fs2) && fs2.nactvar == fs.nactvar && fs2.nactvar <= CtxOf(fs).base
      && Follows(CtxOf(fs), fs2, r, at1, r1, TestedLeft(m, fs, op, a, r, Carried(fs.code, at, r)).waiting)
  {
    hide Compile, ExitOf, RunFrom, Building, IsEntry, GoIf, Gives, Condition, Tests, TestOf, Stage, Follows, Start,
      CondFits;
    var c := CtxOf(fs);
    var (fs1, d1) := Compile(m, fs, a);
    InfixIsGoIf(fs1, d1, cond);
    var p := Carried(fs.code, at, r);
    var y := TestedLeft(m, fs, if cond then OpAnd else OpOr, a, r, p);
    assert Gives(m, c, fs1, d1, NO_REG, at, r, ExitOf(m, fs, a, r, p));
    GoIfOk(m, c, fs1, d1, cond);
    var (fs2, e1) := GoIf(fs1, d1, cond);
    assert CondGives(m, c, fs2, StateOf(fs2, e1), at, r, y);
    ConditionStarts(c, fs2, e1, cond);
    var o := RunFrom(m, fs2.k, c, StateOf(fs2, e1), at, r);
    assert o.Fall? by { EndedFalls(c, o, r, y); }
    StartEnds(fs2);
    LogicFollows(m, c, fs2, e1, at, r, y);
    at1, r1 := o.at, o.r;
  }

  lemma EndedFalls(c: Ctx, o: Out, r: Regs, y: Exit)
    requires CondFits(c, o, r, y) && y.Ended?
    ensures o.Fall?
  {
  }

  lemma StartEnds(fs: Fs)
    requires Start(fs)
    ensures EndsWell(fs.code)
  {
  }

  // A run that goes on to the right operand of an operator
  lemma NextAfterOperand(m: Sem, fs: Fs, op: BinOp, a: Expr, at: int, r: Regs) returns (at1: int, r1: Regs)
    requires Exact(m, fs, a) && IsEntry(CtxOf(fs), at) && !IsLogic(op)
    requires ExitOf(m, fs, a, r, Carried(fs.code, at, r)).Fails? == false
    ensures var (fs1, d1) := Compile(m, fs, a); var fs2 := After(m, fs, op, a);
      && Start(fs2) && fs2.nactvar == fs.nactvar && fs2.nactvar <= CtxOf(fs).base
      && Follows(CtxOf(fs), fs2, r, at1, r1,
        WaitingOf(Operated(ExitOf(m, fs, a, r, Carried(fs.code, at, r)), LeftIdle(fs1, op, d1))))
  {
    hide Compile, ExitOf, RunFrom, Building, IsEntry, Infix, Gives, Stage, Start, Left, LeftIdle, Ready;
    var c := CtxOf(fs);
    var (fs1, d1) := Compile(m, fs, a);
    var (fs2, e1) := Infix(fs1, op, d1);
    var x := ExitOf(m, fs, a, r, Carried(fs.code, at, r));
    var y := Operated(x, LeftIdle(fs1, op, d1));
    assert Gives(m, c, fs1, d1, NO_REG, at, r, x);
    InfixLeft(m, c, fs1, op, d1);
    StartAfter(c, fs2, e1);
    StartEnds(fs2);
    assert Gives(m, c, fs2, e1, NO_REG, at, r, y);
    LeftFalls(m, c, fs2, e1, at, r, y);
    LeftEnds(m, c, fs2, e1, at, r);
    var o := RunFrom(m, fs2.k, c, StateOf(fs2, e1), at, r);
    at1, r1 := o.at, o.r;
  }

  lemma LeftFalls(m: Sem, c: Ctx, fs: Fs, d: Desc, at: int, r: Regs, y: Exit)
    requires Left(c, fs, d) && Gives(m, c, fs, d, NO_REG, at, r, y) && !y.Fails? && EndsWell(fs.code)
    ensures var o := RunFrom(m, fs.k, c, StateOf(fs, d), at, r);
      o.Fall? && y == ExitWith(KindValue(m, fs, d.k, o.r), o.w) && AgreeBut(r, o.r, c.base, NO_REG) && IsEntry(c, at)
  {
    assert BodyState(fs, d) == StateOf(fs, d) by { hide Building; }
    hide RunFrom, Building, KindValue;
    NoLeave(m, fs.k, c, StateOf(fs, d), at, r);
  }

  // What is right for the registers the left operand leaves is right for those it began with.
  lemma RightOperand(m: Sem, a: Ctx, fs: Fs, b: Expr, r: Regs, at1: int, r1: Regs, p: Option<Value>)
    requires Follows(a, fs, r, at1, r1, p) && Scoped(b, fs.nactvar) && fs.nactvar <= a.base && MinusesOk(m, fs, b)
    requires Truthful(ExitOf(m, fs, b, r1, Carried(fs.code, at1, r1)), false, Eval(m, b, r1))
    ensures Truthful(ExitOf(m, fs, b, r, p), false, Eval(m, b, r))
  {
    hide ExitOf, Eval, MinusesOk, LowRegs, IsEntry, Truthful;
    assert Agree(r, r1, fs.nactvar);
    ExitDepends(m, fs, b, r, r1, p, fs.nactvar);
    EvalDependsOnLocals(m, b, r, r1, fs.nactvar);
  }

  lemma LogicClean(m: Sem, fs: Fs, cond: bool, a: Expr, b: Expr, r: Regs, p: Option<Value>)
    requires Truthful(ExitOf(m, fs, a, r, p), false, Eval(m, a, r))
    requires var d1 := Compile(m, fs, a).1; AlwaysJumps(d1.k, cond) ==> WaitingOf(ExitOf(m, fs, a, r, p)) == None
    requires var op := if cond then OpAnd else OpOr; var y := TestedLeft(m, fs, op, a, r, p);
      y.Ended? ==> Truthful(ExitOf(m, After(m, fs, op, a), b, r, y.waiting), false, Eval(m, b, r))
    ensures var e := Binary(if cond then OpAnd else OpOr, a, b); Truthful(ExitOf(m, fs, e, r, p), false, Eval(m, e, r))
  {
    KindTells(m, fs, a, r, p);
    hide Compile, ExitOf, GoIf, Tells, Eval;
    var (fs1, d1) := Compile(m, fs, a);
    InfixIsGoIf(fs1, d1, cond);
    ExitLogic(m, fs, cond, a, b, r, p);
    EvalLogic(m, cond, a, b, r);
    var x := ExitOf(m, fs, a, r, p);
    if x.Ended? { TestTells(fs1, d1, cond, x.v); }
  }

  lemma BothClean(m: Sem, fs: Fs, op: BinOp, a: Expr, b: Expr, r: Regs, p: Option<Value>)
    requires !IsLogic(op) && Truthful(ExitOf(m, fs, a, r, p), false, Eval(m, a, r))
    requires var (fs1, d1) := Compile(m, fs, a); var x := ExitOf(m, fs, a, r, p);
      !x.Fails? ==> Truthful(ExitOf(m, After(m, fs, op, a), b, r, WaitingOf(Operated(x, LeftIdle(fs1, op, d1)))), false,
        Eval(m, b, r))
    ensures var e := Binary(op, a, b); Truthful(ExitOf(m, fs, e, r, p), false, Eval(m, e, r))
  {
    hide Compile, ExitOf, Infix, Eval, LeftIdle, IsFolded;
    ExitBoth(m, fs, op, a, b, r, p);
    EvalBoth(m, op, a, b, r);
  }

  lemma EvalBoth(m: Sem, op: BinOp, a: Expr, b: Expr, r: Regs)
    requires !IsLogic(op)
    ensures Eval(m, Binary(op, a, b), r) == Both(m, op, Eval(m, a, r), Eval(m, b, r))
  {
  }

  // Clean expressions are compiled right.
  lemma {:induction false} CleanIsRight(m: Sem, fs: Fs, e: Expr, at: int, r: Regs)
    requires Start(fs) && Scoped(e, fs.nactvar) && Clean(m, fs, e) && IsEntry(CtxOf(fs), at)
    ensures Truthful(ExitOf(m, fs, e, r, Carried(fs.code, at, r)), false, Eval(m, e, r)) && Right(m, fs, e, at, r)
    decreases e
  {
    hide Start, Exact, Compile, IsEntry, MinusOk, Infix, Tests, TestOf, NoValuesHere, Operated, LeftIdle, Combined,
      IsFolded;
    var p := Carried(fs.code, at, r);
    match e {
      case Unary(op, a) =>
        CleanIsRight(m, fs, a, at, r);
      case Binary(op, a, b) =>
        CleanIsRight(m, fs, a, at, r);
        CleanMinuses(m, fs, a);
        CompileExact(m, fs, a);
        var fs2 := After(m, fs, op, a);
        CleanMinuses(m, fs2, b);
        if IsLogic(op) {
          var y := TestedLeft(m, fs, op, a, r, p);
          if y.Ended? {
            var at1, r1 := NextAfterTest(m, fs, op == OpAnd, a, at, r);
            NextEntry(m, fs2, CtxOf(fs), r, at1, r1, y.waiting);
            CleanIsRight(m, fs2, b, at1, r1);
            RightOperand(m, CtxOf(fs), fs2, b, r, at1, r1, y.waiting);
          }
          if AlwaysJumps(Compile(m, fs, a).1.k, op == OpAnd) { NothingWaits(m, fs, a, at, r); }
          LogicClean(m, fs, op == OpAnd, a, b, r, p);
        } else {
          var x := ExitOf(m, fs, a, r, p);
          if !x.Fails? {
            var w := WaitingOf(Operated(x, LeftIdle(Compile(m, fs, a).0, op, Compile(m, fs, a).1)));
            var at1, r1 := NextAfterOperand(m, fs, op, a, at, r);
            NextEntry(m, fs2, CtxOf(fs), r, at1, r1, w);
            CleanIsRight(m, fs2, b, at1, r1);
            RightOperand(m, CtxOf(fs), fs2, b, r, at1, r1, w);
          }
          BothClean(m, fs, op, a, b, r, p);
        }
      case _ =>
    }
  }

  lemma NextEntry(m: Sem, fs: Fs, a: Ctx, r: Regs, at1: int, r1: Regs, p: Option<Value>)
    requires Follows(a, fs, r, at1, r1, p)
    ensures IsEntry(CtxOf(fs), at1)
  {
  }

  // ----- a condition that can be read off the expression -----

  // The expression may be compiled to a constant.
  predicate MayBeConstant(e: Expr) {
    match e
    case Local(_) => false
    case Unary(_, a) => MayBeConstant(a)
    case Binary(OpArith(_), a, b) => MayBeConstant(a) && MayBeConstant(b)
    case Binary(OpAnd, _, b) => MayBeConstant(b)
    case Binary(OpOr, _, b) => MayBeConstant(b)
    case Binary(_, _, _) => false
    case _ => true
  }

  // The expression may be compiled to a literal `true` or `false`.
  predicate MayBeBoolean(e: Expr) {
    match e
    case True => true
    case False => true
    case Unary(OpNot, a) => MayBeConstant(a)
    case Binary(OpAnd, _, b) => MayBeBoolean(b)
    case Binary(OpOr, _, b) => MayBeBoolean(b)
    case _ => false
  }

  // No literal `true` or `false` is the left operand of `and` or `or`, or the operand of a
  // minus.
  predicate Plain(e: Expr) {
    match e
    case Unary(op, a) => Plain(a) && (op == OpMinus ==> !MayBeBoolean(a))
    case Binary(op, a, b) => Plain(a) && Plain(b) && (op == OpAnd || op == OpOr ==> !MayBeBoolean(a))
    case _ => true
  }

  predicate BooleanKind(k: Kind) {
    k.VTrue? || k.VFalse?
  }

  predicate ConstantKind(k: Kind) {
    BooleanKind(k) || k.VK? || k.VKNum?
  }

  lemma MinusKind(m: Sem, fs: Fs, d: Desc)
    ensures var k := Prefix(m, fs, OpMinus, d).1.k; k.VReloc? || (k.VKNum? && d.k.VKNum?)
  {
    hide Exp2RK, Emit, FreeExp, Exp2AnyReg;
    var (fs1, d1) := if d.k.VK? then Exp2AnyReg(fs, d) else (fs, d);
    if d.k.VK? { AnyRegNoNumeral(fs, d); }
  }

  lemma NotKind(fs: Fs, d: Desc)
    ensures var k := CodeNot(fs, d).1.k; BooleanKind(k) ==> ConstantKind(d.k)
    ensures var k := CodeNot(fs, d).1.k; BooleanKind(k) || k.VReloc? || k.VJmp?
  {
    hide Discharge2AnyReg, Emit, FreeExp, Devalued, InvertJump;
  }

  // The kinds a compiled expression can have
  lemma {:induction false} KindOf(m: Sem, fs: Fs, e: Expr)
    ensures var k := Compile(m, fs, e).1.k;
      (ConstantKind(k) ==> MayBeConstant(e)) && (BooleanKind(k) ==> MayBeBoolean(e))
    decreases e
  {
    hide CodeArith, CodeComp, CodeNot, Infix, Prefix;
    match e {
      case Unary(op, a) =>
        KindOf(m, fs, a);
        var (fs1, d1) := Compile(m, fs, a);
        if op == OpNot { NotKind(fs1, d1); PrefixIsNot(m, fs1, d1); } else { MinusKind(m, fs1, d1); }
      case Binary(op, a, b) =>
        KindOf(m, fs, a);
        var (fs1, d1) := Compile(m, fs, a);
        var (fs2, e1) := Infix(fs1, op, d1);
        KindOf(m, fs2, b);
        var (fs3, d2) := Compile(m, fs2, b);
        BinaryKind(m, fs3, op, e1, d2);
        if op.OpArith? { NumeralStays(fs1, op, d1); }
        hide Compile, Posfix;
      case _ =>
    }
  }

  lemma NumeralStays(fs: Fs, op: BinOp, d: Desc)
    requires op.OpArith?
    ensures Infix(fs, op, d).1.k.VKNum? ==> d.k.VKNum?
  {
    if !IsNumeral(d) { RKKind(fs, d); }
    hide Exp2RK;
  }

  lemma RKKind(fs: Fs, d: Desc)
    ensures Exp2RK(fs, d).1.k.VKNum? ==> d.k.VKNum?
  {
    hide Emit, CloseLists, Labels, NeedValue, AddK;
  }

  lemma BinaryKind(m: Sem, fs: Fs, op: BinOp, d1: Desc, d2: Desc)
    ensures var k := Posfix(m, fs, op, d1, d2).1.k;
      match op
      case OpAnd => k == DischargeVars(d2).k
      case OpOr => k == DischargeVars(d2).k
      case OpArith(_) => k.VReloc? || (k.VKNum? && d1.k.VKNum? && d2.k.VKNum?)
      case _ => k.VJmp?
  {
    hide CodeArith, CodeComp;
    match op {
      case OpArith(o) => ArithTells(m, fs, o, d1, d2);
      case OpEq => CompareTells(fs, EQ, true, d1, d2);
      case OpNe => CompareTells(fs, EQ, false, d1, d2);
      case OpLt => CompareTells(fs, LT, true, d1, d2);
      case OpLe => CompareTells(fs, LE, true, d1, d2);
      case OpGt => CompareTells(fs, LT, false, d1, d2);
      case OpGe => CompareTells(fs, LE, false, d1, d2);
      case _ =>
    }
  }

  lemma MinusGetsRegister(c: Ctx, fs: Fs, d: Desc, m: Sem)
    requires Stage(c, fs, d) && !BooleanKind(d.k)
    ensures MinusOk(fs, d)
  {
    hide Building, Exp2AnyReg, Exp2RK, Gives;
    if d.k.VK? {
      Exp2AnyRegOk(m, c, fs, d);
      var (fs1, d1) := Exp2AnyReg(fs, d);
      assert d1 == Bare(d1.k);
      Exp2RKSame(fs1, d1.k);
    } else {
      RegisterKind(c, fs, d, m);
    }
  }

  lemma RegisterKind(c: Ctx, fs: Fs, d: Desc, m: Sem)
    requires Stage(c, fs, d) && !BooleanKind(d.k) && !d.k.VK?
    ensures IsNumeral(d) || Exp2RK(fs, d).1.k.VNonReloc?
  {
    if IsNumeral(d) { return; }
    hide Building, Exp2AnyReg, Gives, ConstantOf, AddK;
    Exp2ValOk(m, c, fs, d);
    var (fs1, d1) := Exp2Val(fs, d);
    ValKind(c, fs, d, m);
    if d1.k.VNonReloc? {
      assert d1 == Bare(d1.k);
      Exp2RKSame(fs1, d1.k);
      RegisterStays(fs1, d1.k);
    } else {
      Exp2AnyRegOk(m, c, fs1, d1);
      assert ConstantOf(d1.k) == None by { NoConstant(d1.k); }
    }
  }

  lemma NoConstant(k: Kind)
    requires k.VReloc? || k.VJmp? || k.VNonReloc?
    ensures ConstantOf(k) == None
  {
  }

  lemma RegisterStays(fs: Fs, k: Kind)
    requires k.VNonReloc?
    ensures Exp2AnyReg(fs, Bare(k)) == (fs, Bare(k)) && ConstantOf(k) == None
  {
  }

  lemma ValKind(c: Ctx, fs: Fs, d: Desc, m: Sem)
    requires Stage(c, fs, d) && !BooleanKind(d.k) && !d.k.VK? && !IsNumeral(d)
    ensures var k := Exp2Val(fs, d).1.k; k.VReloc? || k.VJmp? || k.VNonReloc?
  {
    hide Building, Exp2AnyReg, Gives;
    Exp2AnyRegOk(m, c, fs, d);
  }

  // Expressions that are plain to read are compiled correctly.
  lemma {:induction false} PlainIsClean(m: Sem, fs: Fs, e: Expr)
    requires Start(fs) && Scoped(e, fs.nactvar) && Plain(e)
    ensures Clean(m, fs, e)
    decreases e
  {
    match e {
      case Unary(op, a) =>
        PlainIsClean(m, fs, a);
        CleanMinuses(m, fs, a);
        CompileExact(m, fs, a);
        KindOf(m, fs, a);
        var (fs1, d1) := Compile(m, fs, a);
        hide Start, Compile, MinusOk, Stage, Gives, IsEntry;
        if op == OpMinus { MinusGetsRegister(CtxOf(fs), fs1, d1, m); }
      case Binary(op, a, b) =>
        PlainIsClean(m, fs, a);
        CleanMinuses(m, fs, a);
        CompileExact(m, fs, a);
        KindOf(m, fs, a);
        StartRight(m, fs, op, a);
        PlainIsClean(m, After(m, fs, op, a), b);
        hide Start, Compile, Exact, Infix, After, NoValuesHere;
      case _ =>
    }
  }

  lemma StartRight(m: Sem, fs: Fs, op: BinOp, a: Expr)
    requires Exact(m, fs, a) && (op == OpAnd || op == OpOr ==> !BooleanKind(Compile(m, fs, a).1.k))
    ensures var (fs1, d1) := Compile(m, fs, a); var fs2 := Infix(fs1, op, d1).0; Start(fs2) && fs2.nactvar == fs.nactvar
  {
    var c := CtxOf(fs);
    var (fs1, d1) := Compile(m, fs, a);
    var (fs2, e1) := Infix(fs1, op, d1);
    hide Compile, Gives, Building, Start, CondGives, IsEntry;
    if IsLogic(op) {
      GoIfOk(m, c, fs1, d1, op == OpAnd);
      StartAfter(c, fs2, e1.(k := VTrue));
    } else {
      InfixLeft(m, c, fs1, op, d1);
      StartAfter(c, fs2, e1);
    }
  }
}
