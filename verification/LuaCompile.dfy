/**
 What compiled code computes: a run of the code of any expression ends exactly as its exit
 says.
 */
module LuaCompile {
  import opened LuaVm
  import opened LuaRun
  import opened LuaCodegen
  import opened LuaFrame
  import opened LuaExit
  import opened LuaMeaning
  import opened LuaRegisters
  import opened LuaOperands
  import opened LuaConditions
  import opened LuaBranches
  import opened LuaNot
  import opened LuaCompose
  import opened LuaOperators
  import opened LuaArith
  import opened LuaCompare
  import opened Wrappers

  // A state the parser may be in between two expressions.
  ghost predicate Start(fs: Fs) {
    && EndsWell(fs.code) && TestsJump(fs.code) && Waiting(fs.code, fs.jpc) && ConstsOk(fs.code, fs.k)
    && fs.nactvar <= fs.freereg
  }

  // Every minus gets a register or a numeral for its operand.
  ghost predicate MinusesOk(m: Sem, fs: Fs, e: Expr)
    decreases e
  {
    match e
    case Unary(op, a) => MinusesOk(m, fs, a) && (op == OpMinus ==> MinusOk(Compile(m, fs, a).0, Compile(m, fs, a).1))
    case Binary(op, a, b) => MinusesOk(m, fs, a) && MinusesOk(m, After(m, fs, op, a), b)
    case _ => true
  }

  // The state in which the right operand is compiled
  function After(m: Sem, fs: Fs, op: BinOp, a: Expr): Fs {
    Infix(Compile(m, fs, a).0, op, Compile(m, fs, a).1).0
  }

  // The code of the operands stays within the registers of a function (`luaK_checkstack`).
  ghost predicate WithinStack(m: Sem, fs: Fs, e: Expr)
    decreases e
  {
    match e
    case Unary(op, a) => WithinStack(m, fs, a) && LowRegs(Compile(m, fs, a).0.code)
    case Binary(op, a, b) =>
      WithinStack(m, fs, a) && LowRegs(After(m, fs, op, a).code) && WithinStack(m, After(m, fs, op, a), b)
    case _ => true
  }

  // Where a minus names a register beyond those of the function, nobody writes it.
  ghost predicate Steady(m: Sem, fs: Fs, e: Expr) {
    MinusesOk(m, fs, e) || WithinStack(m, fs, e)
  }

  // Wherever a run comes to the code of the expression, it ends as the exit says.
  ghost predicate Exact(m: Sem, fs: Fs, e: Expr) {
    var (f, d) := Compile(m, fs, e);
    && Stage(CtxOf(fs), f, d) && KPrefix(fs.k, f.k) && f.nactvar == fs.nactvar
    && forall at, r :: IsEntry(CtxOf(fs), at) ==>
         Gives(m, CtxOf(fs), f, d, NO_REG, at, r, ExitOf(m, fs, e, r, Carried(fs.code, at, r)))
  }

  // Only the locals of an expression matter, and the registers a minus may name by mistake.
  lemma {:induction false} ExitDepends(m: Sem, fs: Fs, e: Expr, r: Regs, r': Regs, p: Option<Value>, n: nat)
    requires Scoped(e, n) && Agree(r, r', n) && (MinusesOk(m, fs, e) || AgreeHigh(r, r'))
    ensures ExitOf(m, fs, e, r', p) == ExitOf(m, fs, e, r, p)
    decreases e
  {
    hide Compile, Infix, MinusOk, Combined, Operated, Tests, Negated, LeftIdle, IsFolded, IndexOf;
    match e {
      case Unary(op, a) => ExitDepends(m, fs, a, r, r', p, n);
      case Binary(op, a, b) =>
        ExitDepends(m, fs, a, r, r', p, n);
        var fs2 := After(m, fs, op, a);
        forall q ensures ExitOf(m, fs2, b, r', q) == ExitOf(m, fs2, b, r, q) { ExitDepends(m, fs2, b, r, r', q, n); }
      case _ =>
    }
  }

  // ----- leaves -----

  lemma NothingEmitted(m: Sem, fs: Fs, k': seq<Value>, k: Kind)
    requires Start(fs) && KPrefix(fs.k, k') && Settles(k) && (k.VK? ==> k.info < |k'|)
    ensures var f := fs.(k := k');
      && Building(CtxOf(fs), f, Bare(k))
      && forall at, r :: IsEntry(CtxOf(fs), at) ==>
           RunFrom(m, k', CtxOf(fs), BodyState(f, Bare(k)), at, r) == Fall(r, at, Carried(fs.code, at, r))
  {
    var f := fs.(k := k');
    var st := StateOf(f, Bare(k));
    assert forall i :: 0 <= i < |fs.code| ==> Untouched(CtxOf(fs), st.code, i);
    forall i | 0 <= i < |fs.code| ensures ConstOk(fs.code[i], |k'|) { assert ConstOk(fs.code[i], |fs.k|); }
    assert forall j :: j in fs.jpc ==> DestOf(st, j) == ToHere;
    hide TestsJump;
    forall at, r | IsEntry(CtxOf(fs), at)
      ensures RunFrom(m, k', CtxOf(fs), st, at, r) == Fall(r, at, Carried(fs.code, at, r))
    {
      if at != |fs.code| { assert Jumping(fs.code, at, r) == r; }
    }
  }

  function LeafKind(fs: Fs, e: Expr): Kind {
    match e
    case Local(i) => VLocal(i)
    case True => VTrue
    case False => VFalse
    case Number(n) => VKNum(n)
    case String(s) => VK(IndexOf(fs.k, Str(s)))
    case _ => VTrue
  }

  lemma LeafExact(m: Sem, fs: Fs, e: Expr)
    requires Start(fs) && !e.Unary? && !e.Binary? && Scoped(e, fs.nactvar)
    ensures Exact(m, fs, e)
  {
    hide Building, RunFrom, BodyState, Start, AddK, IndexOf, IsEntry;
    var (f, d) := Compile(m, fs, e);
    if e.String? { AddKPrefix(fs, Str(e.s)); }
    assert f == fs.(k := f.k) && d == Bare(LeafKind(fs, e));
    StartRegs(fs);
    NothingEmitted(m, fs, f.k, d.k);
  }

  lemma StartRegs(fs: Fs)
    requires Start(fs)
    ensures fs.nactvar <= fs.freereg
  {
  }

  // ----- and, or -----

  // The exits of the condition, and then of the right operand
  ghost predicate InOrder(m: Sem, a: Ctx, fs: Fs, e: Desc, fs': Fs, d: Desc, at: int, r: Regs, y: Exit, z: Exit) {
    CondGives(m, a, fs, StateOf(fs, e), at, r, y) && (y.Ended? ==> GivesAfter(m, a, fs, fs', d, r, y.waiting, z))
  }

  lemma LogicGives(m: Sem, a: Ctx, fs: Fs, e: Desc, cond: bool, fs': Fs, d: Desc, at: int, r: Regs, y: Exit, z: Exit)
    requires Condition(a, fs, e, cond) && Building(CtxOf(fs), fs', d) && InOrder(m, a, fs, e, fs', d, at, r, y, z)
    ensures Gives(m, a, fs', JoinedDesc(d, e.t, e.f), NO_REG, at, r, if y.Ended? then z else y)
  {
    var b := CtxOf(fs);
    var e' := e.(k := VTrue);
    InnerOf(a, fs, e', fs', d);
    BodyOk(b, fs', d);
    BodyFrame(b, fs', d);
    BuildingParts(a, fs, e');
    BuildingParts(b, fs', d);
    var st := BodyState(fs', d);
    assert BodyState(fs', JoinedDesc(d, e.t, e.f)) == Joined(st, e.t, e.f);
    assert Outer(b, e.t, e.f) == StateOf(fs, e) && b.base == a.base;
    hide Building, Inner, ConstsOk, RunFrom, KindValue, BodyState, Joined, ListsOk, Frame, CtxOk, EndsWell, KindOk,
      TestsJump, KPrefix, IsEntry;
    var o := RunFrom(m, fs.k, a, StateOf(fs, e), at, r);
    if o.Fall? {
      LogicFollows(m, a, fs, e, at, r, y);
      assert Gives(m, b, fs', d, NO_REG, o.at, o.r, z);
    }
    JoinedRun(m, a, b, fs'.k, st, e.t, e.f, at, r);
    JoinedKindValue(m, fs', d, e.t, e.f);
  }

  lemma LogicFollows(m: Sem, a: Ctx, fs: Fs, e: Desc, at: int, r: Regs, y: Exit)
    requires CondGives(m, a, fs, StateOf(fs, e), at, r, y) && EndsWell(fs.code)
    requires RunFrom(m, fs.k, a, StateOf(fs, e), at, r).Fall?
    ensures var o := RunFrom(m, fs.k, a, StateOf(fs, e), at, r); y.Ended? && Follows(a, fs, r, o.at, o.r, y.waiting)
  {
    hide RunFrom, LowRegs, AgreeHigh;
    RunFromEnds(m, fs.k, a, StateOf(fs, e), at, r);
    if LowRegs(fs.code) { LowRunFrom(m, fs.k, a, StateOf(fs, e), at, r); }
  }

  lemma JoinedKindValue(m: Sem, fs: Fs, d: Desc, tt: seq<int>, ff: seq<int>)
    ensures JoinedDesc(d, tt, ff).k == d.k
  {
  }

  lemma LogicOk(m: Sem, a: Ctx, fs: Fs, e: Desc, cond: bool, fs': Fs, d0: Desc)
    requires Condition(a, fs, e, cond) && Stage(CtxOf(fs), fs', d0) && KPrefix(fs.k, fs'.k) && fs'.nactvar == fs.nactvar
    ensures var (f, d) := Posfix(m, fs', if cond then OpAnd else OpOr, e, d0);
      && Stage(a, f, d) && f == fs'
      && forall at, r, y, z :: InOrder(m, a, fs, e, fs', d0, at, r, y, z) ==>
           Gives(m, a, f, d, NO_REG, at, r, if y.Ended? then z else y)
  {
    hide Building, Gives, CondGives;
    var d1 := DischargeVars(d0);
    DischargeVarsOk(m, CtxOf(fs), fs', d0);
    JoinedBuilding(a, fs, e.(k := VTrue), fs', d1);
    var (f, d) := Posfix(m, fs', if cond then OpAnd else OpOr, e, d0);
    assert d == JoinedDesc(d1, e.t, e.f) by { assert d1.t + [] == d1.t && d1.f + [] == d1.f; }
    forall at, r, y, z | InOrder(m, a, fs, e, fs', d0, at, r, y, z)
      ensures Gives(m, a, f, d, NO_REG, at, r, if y.Ended? then z else y)
    {
      assert InOrder(m, a, fs, e, fs', d1, at, r, y, z);
      LogicGives(m, a, fs, e, cond, fs', d1, at, r, y, z);
    }
  }

  lemma StartAfter(c: Ctx, fs: Fs, d: Desc)
    requires Building(c, fs, d) && fs.nactvar <= fs.freereg
    ensures Start(fs)
  {
    hide Frame, ConstsOk, TestsJump, EndsWell, KindOk;
  }

  // The right operand does not depend on what the left one did to the registers.
  lemma RightExact(m: Sem, a: Ctx, fs: Fs, b: Expr, r: Regs, p: Option<Value>)
    requires Exact(m, fs, b) && Scoped(b, fs.nactvar) && fs.nactvar <= a.base &&
      (MinusesOk(m, fs, b) || LowRegs(fs.code))
    ensures GivesAfter(m, a, fs, Compile(m, fs, b).0, Compile(m, fs, b).1, r, p, ExitOf(m, fs, b, r, p))
  {
    hide Stage, Gives, Compile, ExitOf, MinusesOk, LowRegs, IsEntry;
    var (f, d) := Compile(m, fs, b);
    forall at1, r1 | Follows(a, fs, r, at1, r1, p)
      ensures Gives(m, CtxOf(fs), f, d, NO_REG, at1, r1, ExitOf(m, fs, b, r, p))
    {
      assert Agree(r, r1, fs.nactvar);
      ExitDepends(m, fs, b, r, r1, p, fs.nactvar);
    }
  }

  lemma LogicExact(m: Sem, fs: Fs, cond: bool, a: Expr, b: Expr)
    requires Start(fs) && Exact(m, fs, a) && Scoped(b, fs.nactvar)
    requires var fs2 := After(m, fs, if cond then OpAnd else OpOr, a);
      (MinusesOk(m, fs2, b) || LowRegs(fs2.code)) && (Start(fs2) ==> Exact(m, fs2, b))
    ensures Exact(m, fs, Binary(if cond then OpAnd else OpOr, a, b))
  {
    hide Building, Gives, CondGives, Posfix, GivesAfter, Compile, Stage, GoIf, ExitOf, Start, IsEntry, MinusesOk,
      LowRegs, Condition, TestOf, Tests;
    var c := CtxOf(fs);
    var op := if cond then OpAnd else OpOr;
    var (fs1, d1) := Compile(m, fs, a);
    var (fs2, e1) := GoIf(fs1, d1, cond);
    InfixIsGoIf(fs1, d1, cond);
    GoIfOk(m, c, fs1, d1, cond);
    ConditionStarts(c, fs2, e1, cond);
    assert KPrefix(fs.k, fs2.k) by { PrefixOn(fs.k, fs1.k, fs2.k); }
    var (fs3, d2) := Compile(m, fs2, b);
    LogicOk(m, c, fs2, e1, cond, fs3, d2);
    var (f, d) := Posfix(m, fs3, op, e1, d2);
    CompileLogic(m, fs, cond, a, b);
    PrefixOn(fs.k, fs2.k, fs3.k);
    forall at, r | IsEntry(c, at)
      ensures Gives(m, c, f, d, NO_REG, at, r, ExitOf(m, fs, Binary(op, a, b), r, Carried(fs.code, at, r)))
    {
      var p := Carried(fs.code, at, r);
      var x := ExitOf(m, fs, a, r, p);
      var y := Tests(TestOf(fs1, DischargeVars(d1), cond), cond, x);
      assert Gives(m, c, fs1, d1, NO_REG, at, r, x);
      var z := ExitOf(m, fs2, b, r, WaitingOf(y));
      RightExact(m, c, fs2, b, r, WaitingOf(y));
      ExitLogic(m, fs, cond, a, b, r, p);
      assert InOrder(m, c, fs2, e1, fs3, d2, at, r, y, z);
    }
  }

  lemma PrefixOn(k: seq<Value>, k1: seq<Value>, k2: seq<Value>)
    requires KPrefix(k, k1) && KPrefix(k1, k2)
    ensures KPrefix(k, k2)
  {
  }

  lemma InfixIsGoIf(fs: Fs, d: Desc, cond: bool)
    ensures Infix(fs, if cond then OpAnd else OpOr, d) == GoIf(fs, d, cond)
  {
    hide GoIfTrue, GoIfFalse;
  }

  lemma ConditionStarts(c: Ctx, fs: Fs, d: Desc, cond: bool)
    requires Condition(c, fs, d, cond)
    ensures Start(fs) && fs.nactvar <= c.base
  {
    hide Building;
    StartAfter(c, fs, d.(k := VTrue));
  }

  lemma CompileLogic(m: Sem, fs: Fs, cond: bool, a: Expr, b: Expr)
    ensures var op := if cond then OpAnd else OpOr; var (fs1, d1) := Compile(m, fs, a);
      var (fs2, e1) := GoIf(fs1, d1, cond);
      Compile(m, fs, Binary(op, a, b)) == Posfix(m, Compile(m, fs2, b).0, op, e1, Compile(m, fs2, b).1)
  {
    hide Posfix, GoIfTrue, GoIfFalse;
  }

  lemma ExitLogic(m: Sem, fs: Fs, cond: bool, a: Expr, b: Expr, r: Regs, p: Option<Value>)
    ensures var op := if cond then OpAnd else OpOr; var (fs1, d1) := Compile(m, fs, a);
      var y := Tests(TestOf(fs1, DischargeVars(d1), cond), cond, ExitOf(m, fs, a, r, p));
      ExitOf(m, fs, Binary(op, a, b), r, p) == if y.Ended? then ExitOf(m, GoIf(fs1, d1, cond).0, b, r, y.waiting) else y
  {
    hide GoIfTrue, GoIfFalse, Tests, TestOf, Compile;
  }

  // ----- arithmetic and comparisons -----

  lemma InfixLeft(m: Sem, c: Ctx, fs: Fs, op: BinOp, d: Desc)
    requires Stage(c, fs, d) && !IsLogic(op)
    ensures var (fs2, e1) := Infix(fs, op, d);
      && Left(c, fs2, e1) && (!op.OpArith? ==> Ready(c, fs2, e1)) && KPrefix(fs.k, fs2.k) && fs2.nactvar == fs.nactvar
      && Building(c, fs2, e1) && fs2.nactvar <= fs2.freereg && fs2.nactvar <= c.base
      && forall at, r, y :: Gives(m, c, fs, d, NO_REG, at, r, y) ==>
           Gives(m, c, fs2, e1, NO_REG, at, r, Operated(y, LeftIdle(fs, op, d)))
  {
    hide Building, Gives, Exp2RK, Idle;
    if op.OpArith? && IsNumeral(d) {
    } else {
      Exp2RKOk(m, c, fs, d);
      forall at, r, y | Gives(m, c, fs, d, NO_REG, at, r, y)
        ensures Gives(m, c, Exp2RK(fs, d).0, Exp2RK(fs, d).1, NO_REG, at, r, Operated(y, LeftIdle(fs, op, d)))
      {
        Exp2RKGives(m, c, fs, d, at, r, y);
      }
    }
  }

  lemma BothOk(m: Sem, a: Ctx, fs: Fs, op: BinOp, e: Desc, fs': Fs, d: Desc)
    requires Left(a, fs, e) && (!op.OpArith? ==> Ready(a, fs, e)) && !IsLogic(op)
    requires Stage(CtxOf(fs), fs', d) && KPrefix(fs.k, fs'.k) && fs'.nactvar == fs.nactvar
    ensures var (f3, d3) := Posfix(m, fs', op, e, d);
      && Stage(a, f3, d3) && KPrefix(fs'.k, f3.k) && f3.nactvar == fs.nactvar
      && forall at, r, y, z :: InTurn(m, a, fs, e, fs', d, at, r, y, z) ==>
           Gives(m, a, f3, d3, NO_REG, at, r, Combined(m, op, IsFolded(m, op, e, d), y, z))
  {
    hide Building, Gives, GivesAfter, CodeArith, CodeComp, Left, Ready, Both, InTurn, Combined;
    match op {
      case OpArith(o) => CodeArithOk(m, a, fs, o, e, fs', d);
      case OpEq => CodeCompOk(m, a, fs, op, EQ, true, e, fs', d);
      case OpNe => CodeCompOk(m, a, fs, op, EQ, false, e, fs', d);
      case OpLt => CodeCompOk(m, a, fs, op, LT, true, e, fs', d);
      case OpLe => CodeCompOk(m, a, fs, op, LE, true, e, fs', d);
      case OpGt => CodeCompOk(m, a, fs, op, LT, false, e, fs', d);
      case OpGe => CodeCompOk(m, a, fs, op, LE, false, e, fs', d);
      case _ =>
    }
  }

  lemma BothExact(m: Sem, fs: Fs, op: BinOp, a: Expr, b: Expr)
    requires Start(fs) && Exact(m, fs, a) && Scoped(b, fs.nactvar) && !IsLogic(op)
    requires var fs2 := After(m, fs, op, a);
      (MinusesOk(m, fs2, b) || LowRegs(fs2.code)) && (Start(fs2) ==> Exact(m, fs2, b))
    ensures Exact(m, fs, Binary(op, a, b))
  {
    hide Building, Gives, Compile, Posfix, GivesAfter, Infix, Left, Ready, Stage, ExitOf, Start, IsEntry, MinusesOk,
      LowRegs, Operated, Combined, LeftIdle, IsFolded;
    var c := CtxOf(fs);
    var (fs1, d1) := Compile(m, fs, a);
    var (fs2, e1) := Infix(fs1, op, d1);
    InfixLeft(m, c, fs1, op, d1);
    StartAfter(c, fs2, e1);
    PrefixOn(fs.k, fs1.k, fs2.k);
    var (fs3, d2) := Compile(m, fs2, b);
    BothOk(m, c, fs2, op, e1, fs3, d2);
    var (f, d) := Posfix(m, fs3, op, e1, d2);
    CompileBoth(m, fs, op, a, b);
    PrefixOn(fs.k, fs2.k, fs3.k);
    PrefixOn(fs.k, fs3.k, f.k);
    forall at, r | IsEntry(c, at)
      ensures Gives(m, c, f, d, NO_REG, at, r, ExitOf(m, fs, Binary(op, a, b), r, Carried(fs.code, at, r)))
    {
      var p := Carried(fs.code, at, r);
      var x := ExitOf(m, fs, a, r, p);
      var y := Operated(x, LeftIdle(fs1, op, d1));
      assert Gives(m, c, fs1, d1, NO_REG, at, r, x);
      var z := ExitOf(m, fs2, b, r, WaitingOf(y));
      RightExact(m, c, fs2, b, r, WaitingOf(y));
      ExitBoth(m, fs, op, a, b, r, p);
      assert InTurn(m, c, fs2, e1, fs3, d2, at, r, y, z);
    }
  }

  lemma CompileBoth(m: Sem, fs: Fs, op: BinOp, a: Expr, b: Expr)
    ensures var (fs1, d1) := Compile(m, fs, a); var (fs2, e1) := Infix(fs1, op, d1);
      Compile(m, fs, Binary(op, a, b)) == Posfix(m, Compile(m, fs2, b).0, op, e1, Compile(m, fs2, b).1)
  {
    hide Posfix, Infix;
  }

  lemma ExitBoth(m: Sem, fs: Fs, op: BinOp, a: Expr, b: Expr, r: Regs, p: Option<Value>)
    requires !IsLogic(op)
    ensures var (fs1, d1) := Compile(m, fs, a); var (fs2, e1) := Infix(fs1, op, d1);
      var y := Operated(ExitOf(m, fs, a, r, p), LeftIdle(fs1, op, d1));
      ExitOf(m, fs, Binary(op, a, b), r, p) ==
      Combined(m, op, IsFolded(m, op, e1, Compile(m, fs2, b).1), y, ExitOf(m, fs2, b, r, WaitingOf(y)))
  {
    hide Infix, Compile, Operated, Combined, LeftIdle, IsFolded;
  }

  // ----- unary operators -----

  lemma UnaryExact(m: Sem, fs: Fs, op: UnOp, a: Expr)
    requires Start(fs) && Exact(m, fs, a)
    requires var (fs1, d1) := Compile(m, fs, a); op == OpMinus ==> MinusOk(fs1, d1) || LowRegs(fs1.code)
    ensures Exact(m, fs, Unary(op, a))
  {
    hide Building, Gives, Compile, MinusOk, CodeNot, Stage, Prefix, IsEntry, Start, LowRegs, Negated, Minus, ExitOf;
    var c := CtxOf(fs);
    var (fs1, d1) := Compile(m, fs, a);
    var (f, d) := Prefix(m, fs1, op, d1);
    CompileUnary(m, fs, op, a);
    if op == OpNot {
      CodeNotOk(m, c, fs1, d1);
      PrefixIsNot(m, fs1, d1);
    } else if MinusOk(fs1, d1) {
      MinusOkay(m, c, fs1, d1);
    } else {
      MinusWrong(m, c, fs1, d1);
    }
    PrefixOn(fs.k, fs1.k, f.k);
    forall at, r | IsEntry(c, at)
      ensures Gives(m, c, f, d, NO_REG, at, r, ExitOf(m, fs, Unary(op, a), r, Carried(fs.code, at, r)))
    {
      var p := Carried(fs.code, at, r);
      assert Gives(m, c, fs1, d1, NO_REG, at, r, ExitOf(m, fs, a, r, p));
      ExitUnary(m, fs, op, a, r, p);
    }
  }

  lemma PrefixIsNot(m: Sem, fs: Fs, d: Desc)
    ensures Prefix(m, fs, OpNot, d) == CodeNot(fs, d)
  {
  }

  lemma CompileUnary(m: Sem, fs: Fs, op: UnOp, a: Expr)
    ensures Compile(m, fs, Unary(op, a)) == Prefix(m, Compile(m, fs, a).0, op, Compile(m, fs, a).1)
  {
    hide Prefix;
  }

  lemma ExitUnary(m: Sem, fs: Fs, op: UnOp, a: Expr, r: Regs, p: Option<Value>)
    ensures var (fs1, d1) := Compile(m, fs, a); var x := ExitOf(m, fs, a, r, p);
      ExitOf(m, fs, Unary(op, a), r, p) == if op == OpNot then Negated(d1.k, x) else Minus(m, fs1, d1, x, r)
  {
    hide Compile, Negated, Minus;
  }

  // ----- the theorem -----

  lemma {:induction false} CompileExact(m: Sem, fs: Fs, e: Expr)
    requires Start(fs) && Scoped(e, fs.nactvar) && Steady(m, fs, e)
    ensures Exact(m, fs, e)
    decreases e
  {
    match e {
      case Unary(op, a) =>
        CompileExact(m, fs, a);
        hide Start, Exact, Compile, MinusOk, LowRegs;
        UnaryExact(m, fs, op, a);
      case Binary(op, a, b) =>
        CompileExact(m, fs, a);
        var fs2 := After(m, fs, op, a);
        KeepsLocals(m, fs, op, a);
        if Start(fs2) { CompileExact(m, fs2, b); }
        hide Start, Exact, Compile, LowRegs, After;
        if IsLogic(op) {
          LogicExact(m, fs, op == OpAnd, a, b);
        } else {
          BothExact(m, fs, op, a, b);
        }
      case _ => LeafExact(m, fs, e);
    }
  }

  lemma KeepsLocals(m: Sem, fs: Fs, op: BinOp, a: Expr)
    requires Exact(m, fs, a)
    ensures After(m, fs, op, a).nactvar == fs.nactvar
  {
    hide Compile, Gives, IsEntry;
    var (fs1, d1) := Compile(m, fs, a);
    if IsLogic(op) { LogicLocals(fs1, d1, op == OpAnd); } else { InfixLeft(m, CtxOf(fs), fs1, op, d1); }
  }

  lemma LogicLocals(fs: Fs, d: Desc, cond: bool)
    ensures GoIf(fs, d, cond).0.nactvar == fs.nactvar
  {
  }
}
