/**
 How a compiled expression can go wrong: a run leaves it by a jump that went along with the
 jump of a literal and carries something else than the literal. As long as this happens to no
 operand of an operator, it is the only way, and even then the run takes the right branch.
 */
module LuaStray {
  import opened LuaVm
  import opened LuaRun
  import opened LuaCodegen
  import opened LuaFrame
  import opened LuaExit
  import opened LuaMeaning
  import opened LuaOperands
  import opened LuaConditions
  import opened LuaBranches
  import opened LuaCompose
  import opened LuaCompile
  import opened LuaLists
  import opened LuaTheorem
  import opened Wrappers

  // The exit of the left operand of `and` or `or` once it has been tested
  function TestedLeft(m: Sem, fs: Fs, op: BinOp, a: Expr, r: Regs, p: Option<Value>): Exit {
    var (fs1, d1) := Compile(m, fs, a);
    Tests(TestOf(fs1, DischargeVars(d1), op == OpAnd), op == OpAnd, ExitOf(m, fs, a, r, p))
  }

  // The run leaves by a jump with a value that has joined the jump of a literal, and no `not`
  // has taken the value from it since.
  predicate Stray(m: Sem, fs: Fs, e: Expr, r: Regs, p: Option<Value>)
    decreases e
  {
    match e
    case Binary(op, a, b) =>
      IsLogic(op) &&
      var (x, y) := (ExitOf(m, fs, a, r, p), TestedLeft(m, fs, op, a, r, p));
      if y.Ended? then Stray(m, After(m, fs, op, a), b, r, y.waiting)
      else if x.Gone? then Stray(m, fs, a, r, p)
      else AlwaysJumps(Compile(m, fs, a).1.k, op == OpAnd) && WaitingOf(x).Some?
    case _ => false
  }

  // The run does not leave by such a jump, or the jump carries the literal itself.
  predicate ValueKept(m: Sem, fs: Fs, e: Expr, r: Regs, p: Option<Value>) {
    var x := ExitOf(m, fs, e, r, p);
    !(x.Gone? && Stray(m, fs, e, r, p) && x.carried != Some(Bool(x.when)))
  }

  // The exit of the left operand of an operator once it is an operand
  function OperatedLeft(m: Sem, fs: Fs, op: BinOp, a: Expr, r: Regs, p: Option<Value>): Exit {
    var (fs1, d1) := Compile(m, fs, a);
    Operated(ExitOf(m, fs, a, r, p), LeftIdle(fs1, op, d1))
  }

  // No operand that the run comes to loses its value: the operands of arithmetic, comparisons
  // and minus are not left by such a jump, and minus finds its operand in a register.
  predicate NoneLost(m: Sem, fs: Fs, e: Expr, r: Regs, p: Option<Value>)
    decreases e
  {
    match e
    case Unary(op, a) =>
      NoneLost(m, fs, a, r, p) && (op == OpMinus ==> ValueKept(m, fs, a, r, p) && MinusReaches(m, fs, a, r, p))
    case Binary(op, a, b) =>
      NoneLost(m, fs, a, r, p) &&
      if IsLogic(op) then
        var y := TestedLeft(m, fs, op, a, r, p);
        y.Ended? ==> NoneLost(m, After(m, fs, op, a), b, r, y.waiting)
      else
        var y := OperatedLeft(m, fs, op, a, r, p);
        var fs2 := After(m, fs, op, a);
        ValueKept(m, fs, a, r, p) &&
        (y.Ended? ==> NoneLost(m, fs2, b, r, y.waiting) && ValueKept(m, fs2, b, r, y.waiting))
    case _ => true
  }

  // The operand of a minus can be named by the instruction, if the run comes to it.
  predicate MinusReaches(m: Sem, fs: Fs, a: Expr, r: Regs, p: Option<Value>) {
    var (fs1, d1) := Compile(m, fs, a);
    ExitOf(m, fs, a, r, p).Fails? || MinusOk(fs1, d1)
  }

  // All operands that the run comes to have their values.
  ghost predicate OperandsRight(m: Sem, fs: Fs, e: Expr, r: Regs, p: Option<Value>)
    decreases e
  {
    match e
    case Unary(op, a) =>
      && OperandsRight(m, fs, a, r, p)
      && (op == OpMinus ==> ValueOf(ExitOf(m, fs, a, r, p)) == Eval(m, a, r) && MinusReaches(m, fs, a, r, p))
    case Binary(op, a, b) =>
      OperandsRight(m, fs, a, r, p) &&
      if IsLogic(op) then
        var y := TestedLeft(m, fs, op, a, r, p);
        y.Ended? ==> OperandsRight(m, After(m, fs, op, a), b, r, y.waiting)
      else
        var y := OperatedLeft(m, fs, op, a, r, p);
        var fs2 := After(m, fs, op, a);
        ValueOf(ExitOf(m, fs, a, r, p)) == Eval(m, a, r) &&
        (y.Ended? ==>
          OperandsRight(m, fs2, b, r, y.waiting) && ValueOf(ExitOf(m, fs2, b, r, y.waiting)) == Eval(m, b, r))
    case _ => true
  }

  // ----- what the lists tell of the exit -----

  lemma SplitList(fs: Fs, d: Desc, cond: bool)
    requires !NeverJumps(d.k, cond)
    ensures SplitOff(fs, d, cond).1 != []
  {
    hide Emit, Discharge2AnyReg, FreeExp;
  }

  // The lists of a condition
  lemma ConditionLists(fs: Fs, d0: Desc, cond: bool)
    ensures var d := DischargeVars(d0); var e := GoIf(fs, d0, cond).1;
      if (if cond then d.f else d.t) != [] || !NeverJumps(d.k, cond) then (if cond then e.f else e.t) != [] else true
  {
    GoIfIs(fs, d0, cond);
    var d := DischargeVars(d0);
    if !NeverJumps(d.k, cond) { SplitList(fs, d, cond); }
    hide GoIf, SplitOff;
  }

  // Only an expression with a list is left by one.
  lemma {:induction false} ListsTell(m: Sem, fs: Fs, e: Expr, r: Regs, p: Option<Value>)
    ensures var (f, d) := Compile(m, fs, e); var x := ExitOf(m, fs, e, r, p);
      x.Gone? ==> (if x.when then d.t else d.f) != []
    decreases e
  {
    match e {
      case Unary(op, a) =>
        ListsTell(m, fs, a, r, p);
        CompileUnary(m, fs, op, a);
        ExitUnary(m, fs, op, a, r, p);
        NotLists(m, Compile(m, fs, a).0, Compile(m, fs, a).1);
        hide Compile, ExitOf, Prefix;
      case Binary(op, a, b) =>
        ListsTell(m, fs, a, r, p);
        if IsLogic(op) {
          ListsTell(m, After(m, fs, op, a), b, r, WaitingOf(TestedLeft(m, fs, op, a, r, p)));
          LogicTells(m, fs, op == OpAnd, a, b, r, p);
        } else {
          ExitBoth(m, fs, op, a, b, r, p);
        }
        hide Compile, ExitOf;
      case _ =>
    }
  }

  lemma NotLists(m: Sem, fs: Fs, d: Desc)
    ensures var d' := Prefix(m, fs, OpNot, d).1; d'.t == d.f && d'.f == d.t
  {
    hide InvertJump, EmitNot, Devalued;
  }

  lemma LogicTells(m: Sem, fs: Fs, cond: bool, a: Expr, b: Expr, r: Regs, p: Option<Value>)
    requires var (f, d) := Compile(m, fs, a); var x := ExitOf(m, fs, a, r, p);
      x.Gone? ==> (if x.when then d.t else d.f) != []
    requires var op := if cond then OpAnd else OpOr; var y := TestedLeft(m, fs, op, a, r, p);
      var fs2 := After(m, fs, op, a); var d2 := Compile(m, fs2, b).1; var z := ExitOf(m, fs2, b, r, WaitingOf(y));
      z.Gone? ==> (if z.when then d2.t else d2.f) != []
    ensures var e := Binary(if cond then OpAnd else OpOr, a, b);
      var d := Compile(m, fs, e).1; var x := ExitOf(m, fs, e, r, p);
      x.Gone? ==> (if x.when then d.t else d.f) != []
  {
    hide Compile, ExitOf, GoIf;
    var (fs1, d1) := Compile(m, fs, a);
    InfixIsGoIf(fs1, d1, cond);
    CompileLogic(m, fs, cond, a, b);
    ExitLogic(m, fs, cond, a, b, r, p);
    ConditionLists(fs1, d1, cond);
  }

  // ----- what the kinds tell of the value -----

  // The value is what the kind says.
  predicate Tells(fs: Fs, d: Desc, v: Value) {
    match d.k
    case VTrue => v == Bool(true)
    case VFalse => v == Bool(false)
    case VK(_) => !IsFalse(v)
    case VKNum(n) => v == Num(n)
    case VJmp(_) => v.Bool?
    case VReloc(_) => IsNot(fs, d) ==> v.Bool?
    case _ => true
  }

  lemma {:induction false} KindTells(m: Sem, fs: Fs, e: Expr, r: Regs, p: Option<Value>)
    ensures var (f, d) := Compile(m, fs, e); var x := ExitOf(m, fs, e, r, p); x.Ended? ==> Tells(f, d, x.v)
    decreases e
  {
    match e {
      case Unary(_, a) =>
        KindTells(m, fs, a, r, p);
        hide Compile, ExitOf, Tells;
        UnaryTells(m, fs, e.uop, a, r, p);
      case Binary(op, a, b) =>
        KindTells(m, fs, a, r, p);
        if IsLogic(op) {
          KindTells(m, After(m, fs, op, a), b, r, WaitingOf(TestedLeft(m, fs, op, a, r, p)));
          hide Compile, ExitOf, Tells, TestedLeft, After;
          LogicKindTells(m, fs, op == OpAnd, a, b, r, p);
        } else {
          KindTells(m, After(m, fs, op, a), b, r, WaitingOf(OperatedLeft(m, fs, op, a, r, p)));
          hide Compile, ExitOf, Tells, OperatedLeft, After;
          BothKindTells(m, fs, op, a, b, r, p);
        }
      case _ =>
    }
  }

  lemma UnaryTells(m: Sem, fs: Fs, op: UnOp, a: Expr, r: Regs, p: Option<Value>)
    requires var (f, d) := Compile(m, fs, a); var x := ExitOf(m, fs, a, r, p); x.Ended? ==> Tells(f, d, x.v)
    ensures var e := Unary(op, a); var (f, d) := Compile(m, fs, e); var x := ExitOf(m, fs, e, r, p);
      x.Ended? ==> Tells(f, d, x.v)
  {
    hide Compile, ExitOf, Prefix, Minus, Tells;
    ListsTell(m, fs, a, r, p);
    CompileUnary(m, fs, op, a);
    ExitUnary(m, fs, op, a, r, p);
    var (fs1, d1) := Compile(m, fs, a);
    if op == OpNot { NotTells(m, fs1, d1); } else { MinusTells(m, fs1, d1, ExitOf(m, fs, a, r, p), r); }
  }

  lemma LogicKindTells(m: Sem, fs: Fs, cond: bool, a: Expr, b: Expr, r: Regs, p: Option<Value>)
    requires var op := if cond then OpAnd else OpOr; var fs2 := After(m, fs, op, a); var (f, d) := Compile(m, fs2, b);
      var x := ExitOf(m, fs2, b, r, WaitingOf(TestedLeft(m, fs, op, a, r, p))); x.Ended? ==> Tells(f, d, x.v)
    ensures var e := Binary(if cond then OpAnd else OpOr, a, b); var (f, d) := Compile(m, fs, e);
      var x := ExitOf(m, fs, e, r, p);
      x.Ended? ==> Tells(f, d, x.v)
  {
    hide Compile, ExitOf, Posfix, GoIf, Tells;
    var op := if cond then OpAnd else OpOr;
    var (fs1, d1) := Compile(m, fs, a);
    CompileBoth(m, fs, op, a, b);
    InfixIsGoIf(fs1, d1, cond);
    ExitLogic(m, fs, cond, a, b, r, p);
    var (fs2, e1) := GoIf(fs1, d1, cond);
    var (fs3, d2) := Compile(m, fs2, b);
    LogicKind(m, fs3, op, e1, d2);
    KindOnly(fs3, d2, Posfix(m, fs3, op, e1, d2).1);
  }

  lemma KindOnly(fs: Fs, d: Desc, d': Desc)
    requires d'.k == DischargeVars(d).k
    ensures forall v :: Tells(fs, d, v) ==> Tells(fs, d', v)
  {
  }

  lemma BothKindTells(m: Sem, fs: Fs, op: BinOp, a: Expr, b: Expr, r: Regs, p: Option<Value>)
    requires !IsLogic(op)
    requires var (f, d) := Compile(m, fs, a); var x := ExitOf(m, fs, a, r, p); x.Ended? ==> Tells(f, d, x.v)
    requires var fs2 := After(m, fs, op, a); var (f, d) := Compile(m, fs2, b);
      var x := ExitOf(m, fs2, b, r, WaitingOf(OperatedLeft(m, fs, op, a, r, p))); x.Ended? ==> Tells(f, d, x.v)
    ensures var e := Binary(op, a, b); var (f, d) := Compile(m, fs, e); var x := ExitOf(m, fs, e, r, p);
      x.Ended? ==> Tells(f, d, x.v)
  {
    hide Compile, ExitOf, Posfix, Infix, Tells, Operated, Combined, LeftIdle, IsFolded;
    var y := OperatedLeft(m, fs, op, a, r, p);
    var (fs1, d1) := Compile(m, fs, a);
    var fs2 := After(m, fs, op, a);
    var (fs3, d2) := Compile(m, fs2, b);
    ListsTell(m, fs, a, r, p);
    ListsTell(m, fs2, b, r, WaitingOf(y));
    CompileBoth(m, fs, op, a, b);
    ExitBoth(m, fs, op, a, b, r, p);
    BothTells(m, fs1, op, d1, ExitOf(m, fs, a, r, p), fs3, d2, ExitOf(m, fs2, b, r, WaitingOf(y)));
  }

  lemma NotTells(m: Sem, fs: Fs, d: Desc)
    ensures var (f, d') := Prefix(m, fs, OpNot, d); forall v :: Tells(fs, d, v) ==> Tells(f, d', Bool(IsFalse(v)))
  {
    hide InvertJump, Discharge2AnyReg, Emit, FreeExp, Devalued;
  }

  lemma MinusTells(m: Sem, fs: Fs, d: Desc, x: Exit, r: Regs)
    requires x.Ended? ==> Tells(fs, d, x.v)
    requires x.Gone? ==> (if x.when then d.t else d.f) != []
    ensures var (f, d') := Prefix(m, fs, OpMinus, d); var y := Minus(m, fs, d, x, r); y.Ended? ==> Tells(f, d', y.v)
  {
    hide Exp2RK, FreeExp, Exp2AnyReg, Emit;
    var (fs1, d1) := MinusOperand(fs, d);
    if IsNumeral(d1) {
      if d.k.VK? { AnyRegNoNumeral(fs, d); }
    } else {
      var (f1, e1) := Exp2RK(fs1, d1);
      EmitsLast(FreeExp(f1, e1), MINUS(0, RKCode(Operand(e1))));
    }
  }

  lemma AnyRegNoNumeral(fs: Fs, d: Desc)
    requires d.k.VK?
    ensures !Exp2AnyReg(fs, d).1.k.VKNum?
  {
    hide Emit, CloseLists, Labels, NeedValue;
  }

  lemma EmitsLast(fs: Fs, i: Instr)
    ensures var f := Emit(fs, i); |f.code| > 0 && At(f.code, |f.code| - 1) == i
  {
  }

  lemma LogicKind(m: Sem, fs: Fs, op: BinOp, e: Desc, d: Desc)
    requires IsLogic(op)
    ensures var (f, d') := Posfix(m, fs, op, e, d); f == fs && d'.k == DischargeVars(d).k
  {
  }

  lemma BothTells(m: Sem, fs1: Fs, op: BinOp, d1: Desc, x: Exit, fs3: Fs, d2: Desc, z: Exit)
    requires !IsLogic(op) && (x.Ended? ==> Tells(fs1, d1, x.v)) && (z.Ended? ==> Tells(fs3, d2, z.v))
    requires (x.Gone? ==> (if x.when then d1.t else d1.f) != []) && (z.Gone? ==> (if z.when then d2.t else d2.f) != [])
    ensures var e1 := Infix(fs1, op, d1).1; var (f, d) := Posfix(m, fs3, op, e1, d2);
      var y := Combined(m, op, IsFolded(m, op, e1, d2), Operated(x, LeftIdle(fs1, op, d1)), z);
      y.Ended? ==> Tells(f, d, y.v)
  {
    hide CodeArith, CodeComp, Exp2RK, Idle;
    var e1 := Infix(fs1, op, d1).1;
    match op {
      case OpArith(o) =>
        if IsNumeral(e1) && !IsNumeral(d1) { RKNoNumeral(fs1, d1); }
        ArithTells(m, fs3, o, e1, d2);
      case OpEq => CompareTells(fs3, EQ, true, e1, d2);
      case OpNe => CompareTells(fs3, EQ, false, e1, d2);
      case OpLt => CompareTells(fs3, LT, true, e1, d2);
      case OpLe => CompareTells(fs3, LE, true, e1, d2);
      case OpGt => CompareTells(fs3, LT, false, e1, d2);
      case OpGe => CompareTells(fs3, LE, false, e1, d2);
      case _ =>
    }
  }

  lemma RKNoNumeral(fs: Fs, d: Desc)
    requires !IsNumeral(d)
    ensures !IsNumeral(Exp2RK(fs, d).1)
  {
    hide Emit, CloseLists, Labels, NeedValue, AddK, IndexOf;
  }

  lemma ArithTells(m: Sem, fs: Fs, op: ArithOp, d1: Desc, d2: Desc)
    ensures var (f, d) := CodeArith(m, fs, op, d1, d2);
      match Folded(m, op, d1, d2)
      case Some(n) => d.k == VKNum(n)
      case None => d.k.VReloc? && !IsNot(f, d)
  {
    hide Exp2RK, Emit, FreeBoth;
    if Folded(m, op, d1, d2).None? {
      var (f1, e2) := Exp2RK(fs, d2);
      var (f2, e1) := Exp2RK(f1, d1);
      EmitsLast(FreeBoth(f2, e1, e2), ARITH(0, op, Operand(e1), Operand(e2)));
    }
  }

  lemma CompareTells(fs: Fs, op: CompareOp, cond: bool, d1: Desc, d2: Desc)
    ensures CodeComp(fs, op, cond, d1, d2).1.k.VJmp?
  {
    hide Exp2RK, CondJump, FreeExp;
  }

  // ----- what is kept even where a value is lost -----

  // The exit takes the branch of the value; where it is not stray it has the value, and where
  // it is, the value is the literal.
  ghost predicate Truthful(x: Exit, stray: bool, v: Result) {
    match x
    case Fails => v == Error
    case Ended(u, _) => v == Ok(u) && !stray
    case Gone(b, w) =>
      v.Ok? && IsFalse(v.v) == !b && (if stray then w.Some? && v.v == Bool(b) else v == ValueOf(x))
  }

  lemma {:induction false} TruthIsKept(m: Sem, fs: Fs, e: Expr, r: Regs, p: Option<Value>)
    requires NoneLost(m, fs, e, r, p)
    ensures Truthful(ExitOf(m, fs, e, r, p), Stray(m, fs, e, r, p), Eval(m, e, r))
    decreases e
  {
    match e {
      case Unary(op, a) =>
        hide Compile, ExitOf, Minus, ValueKept, MinusReaches, Truthful, Eval;
        TruthIsKept(m, fs, a, r, p);
        if op == OpMinus { MinusKept(m, fs, a, r, p); } else { NotKept(m, fs, a, r, p); }
      case Binary(op, a, b) =>
        hide Compile, ExitOf, ValueKept, Truthful, Eval, Stray, TestedLeft, OperatedLeft, Tells;
        TruthIsKept(m, fs, a, r, p);
        if IsLogic(op) {
          KindTells(m, fs, a, r, p);
          var y := TestedLeft(m, fs, op, a, r, p);
          if y.Ended? { TruthIsKept(m, After(m, fs, op, a), b, r, y.waiting); }
          LogicTruth(m, fs, op == OpAnd, a, b, r, p);
        } else {
          var y := OperatedLeft(m, fs, op, a, r, p);
          if y.Ended? { TruthIsKept(m, After(m, fs, op, a), b, r, y.waiting); }
          OperatorKept(m, fs, op, a, b, r, p);
        }
      case _ =>
    }
  }

  // Where the truth and the value are kept, the value is right.
  lemma KeptIsRight(m: Sem, fs: Fs, e: Expr, r: Regs, p: Option<Value>)
    requires Truthful(ExitOf(m, fs, e, r, p), Stray(m, fs, e, r, p), Eval(m, e, r))
    ensures ValueKept(m, fs, e, r, p) <==> ValueOf(ExitOf(m, fs, e, r, p)) == Eval(m, e, r)
  {
    hide ExitOf, Stray, Eval;
  }

  lemma NotKept(m: Sem, fs: Fs, a: Expr, r: Regs, p: Option<Value>)
    requires Truthful(ExitOf(m, fs, a, r, p), Stray(m, fs, a, r, p), Eval(m, a, r))
    ensures var e := Unary(OpNot, a); Truthful(ExitOf(m, fs, e, r, p), false, Eval(m, e, r))
  {
    hide Compile, ExitOf, Stray;
    ExitUnary(m, fs, OpNot, a, r, p);
  }

  lemma MinusKept(m: Sem, fs: Fs, a: Expr, r: Regs, p: Option<Value>)
    requires Truthful(ExitOf(m, fs, a, r, p), Stray(m, fs, a, r, p), Eval(m, a, r))
    requires ValueKept(m, fs, a, r, p) && MinusReaches(m, fs, a, r, p)
    ensures var e := Unary(OpMinus, a); Truthful(ExitOf(m, fs, e, r, p), false, Eval(m, e, r))
  {
    hide Compile, ExitOf, Stray, MinusOk;
    KeptIsRight(m, fs, a, r, p);
    ExitUnary(m, fs, OpMinus, a, r, p);
  }

  lemma OperatorKept(m: Sem, fs: Fs, op: BinOp, a: Expr, b: Expr, r: Regs, p: Option<Value>)
    requires !IsLogic(op) && ValueKept(m, fs, a, r, p)
    requires Truthful(ExitOf(m, fs, a, r, p), Stray(m, fs, a, r, p), Eval(m, a, r))
    requires var y := OperatedLeft(m, fs, op, a, r, p); var fs2 := After(m, fs, op, a);
      y.Ended? ==>
        Truthful(ExitOf(m, fs2, b, r, y.waiting), Stray(m, fs2, b, r, y.waiting), Eval(m, b, r)) &&
        ValueKept(m, fs2, b, r, y.waiting)
    ensures var e := Binary(op, a, b); Truthful(ExitOf(m, fs, e, r, p), Stray(m, fs, e, r, p), Eval(m, e, r))
  {
    hide Compile, ExitOf, Infix, IsFolded;
    KeptIsRight(m, fs, a, r, p);
    ListsTell(m, fs, a, r, p);
    var y := OperatedLeft(m, fs, op, a, r, p);
    if y.Ended? { KeptIsRight(m, After(m, fs, op, a), b, r, y.waiting); }
    ExitBoth(m, fs, op, a, b, r, p);
  }

  lemma LogicTruth(m: Sem, fs: Fs, cond: bool, a: Expr, b: Expr, r: Regs, p: Option<Value>)
    requires Truthful(ExitOf(m, fs, a, r, p), Stray(m, fs, a, r, p), Eval(m, a, r))
    requires var (fs1, d1) := Compile(m, fs, a); var x := ExitOf(m, fs, a, r, p); x.Ended? ==> Tells(fs1, d1, x.v)
    requires var op := if cond then OpAnd else OpOr; var y := TestedLeft(m, fs, op, a, r, p);
      var fs2 := After(m, fs, op, a);
      y.Ended? ==> Truthful(ExitOf(m, fs2, b, r, y.waiting), Stray(m, fs2, b, r, y.waiting), Eval(m, b, r))
    ensures var e := Binary(if cond then OpAnd else OpOr, a, b);
      Truthful(ExitOf(m, fs, e, r, p), Stray(m, fs, e, r, p), Eval(m, e, r))
  {
    hide Compile, ExitOf, GoIf, Tells, Stray, Eval;
    var op := if cond then OpAnd else OpOr;
    var (fs1, d1) := Compile(m, fs, a);
    InfixIsGoIf(fs1, d1, cond);
    ExitLogic(m, fs, cond, a, b, r, p);
    StrayLogic(m, fs, op, a, b, r, p);
    EvalLogic(m, cond, a, b, r);
    var x := ExitOf(m, fs, a, r, p);
    if x.Ended? { TestTells(fs1, d1, cond, x.v); }
  }

  // Where a test does not look at the value, the kind decides.
  lemma TestTells(fs: Fs, d: Desc, cond: bool, v: Value)
    requires Tells(fs, d, v)
    ensures match TestOf(fs, DischargeVars(d), cond)
      case Never => IsFalse(v) != cond
      case Always => v == Bool(!cond) && AlwaysJumps(d.k, cond)
      case Plainly => v.Bool?
      case Carrying => true
    ensures AlwaysJumps(d.k, cond) ==> TestOf(fs, DischargeVars(d), cond) == Always
  {
  }

  lemma StrayLogic(m: Sem, fs: Fs, op: BinOp, a: Expr, b: Expr, r: Regs, p: Option<Value>)
    requires IsLogic(op)
    ensures var x := ExitOf(m, fs, a, r, p); var y := TestedLeft(m, fs, op, a, r, p);
      Stray(m, fs, Binary(op, a, b), r, p) <==>
      if y.Ended? then Stray(m, After(m, fs, op, a), b, r, y.waiting)
      else if x.Gone? then Stray(m, fs, a, r, p)
      else AlwaysJumps(Compile(m, fs, a).1.k, op == OpAnd) && WaitingOf(x).Some?
  {
    hide Compile, ExitOf, TestedLeft;
  }

  function Logic(cond: bool, va: Result, vb: Result): Result {
    match va
    case Error => Error
    case Ok(v) => if IsFalse(v) == cond then Ok(v) else vb
  }

  lemma EvalLogic(m: Sem, cond: bool, a: Expr, b: Expr, r: Regs)
    ensures Eval(m, Binary(if cond then OpAnd else OpOr, a, b), r) == Logic(cond, Eval(m, a, r), Eval(m, b, r))
  {
  }

  // The exact condition: where no operand loses its value, the compiled expression has another
  // value than the expression if and only if the run leaves it by a stray jump that does not
  // carry the literal.
  lemma WrongOnlyWhenStray(m: Sem, fs: Fs, e: Expr, r: Regs, p: Option<Value>)
    requires NoneLost(m, fs, e, r, p)
    ensures ValueOf(ExitOf(m, fs, e, r, p)) == Eval(m, e, r) <==> ValueKept(m, fs, e, r, p)
  {
    TruthIsKept(m, fs, e, r, p);
    KeptIsRight(m, fs, e, r, p);
  }

  // It is exact for the operands as well: all of them have their values if and only if none is
  // left by such a jump.
  lemma {:induction false} OperandsRightOnlyWhenNoneLost(m: Sem, fs: Fs, e: Expr, r: Regs, p: Option<Value>)
    ensures OperandsRight(m, fs, e, r, p) <==> NoneLost(m, fs, e, r, p)
    decreases e
  {
    hide Stray, ExitOf, Compile, Eval, ValueKept, MinusReaches, OperatedLeft, TestedLeft, After;
    match e {
      case Unary(_, a) =>
        OperandsRightOnlyWhenNoneLost(m, fs, a, r, p);
        if NoneLost(m, fs, a, r, p) { WrongOnlyWhenStray(m, fs, a, r, p); }
      case Binary(op, a, b) =>
        var y := if IsLogic(op) then TestedLeft(m, fs, op, a, r, p) else OperatedLeft(m, fs, op, a, r, p);
        OperandsRightOnlyWhenNoneLost(m, fs, a, r, p);
        if NoneLost(m, fs, a, r, p) { WrongOnlyWhenStray(m, fs, a, r, p); }
        if y.Ended? {
          OperandsRightOnlyWhenNoneLost(m, After(m, fs, op, a), b, r, y.waiting);
          if NoneLost(m, After(m, fs, op, a), b, r, y.waiting) {
            WrongOnlyWhenStray(m, After(m, fs, op, a), b, r, y.waiting);
          }
        }
      case _ =>
    }
  }

  // The same on the machine
  lemma WrongOnMachineOnlyWhenStray(m: Sem, fs: Fs, e: Expr, next: Instr, at: int, r: Regs)
    requires Compilable(m, fs, e, at) && NoneLost(m, fs, e, r, Carried(fs.code, at, r))
    ensures Delivers(m, fs, e, next, at, r, Eval(m, e, r)) <==> ValueKept(m, fs, e, r, Carried(fs.code, at, r))
  {
    hide Compilable, Delivers, ExitOf, NoneLost, ValueKept, Eval;
    WrongOnlyWhenStray(m, fs, e, r, Carried(fs.code, at, r));
    DeliversExactly(m, fs, e, next, at, r, Eval(m, e, r));
  }

  // ----- conditions -----

  // A test of a truthful exit goes on by the truth of the value.
  lemma TestsTruth(fs: Fs, d: Desc, cond: bool, x: Exit, stray: bool, v: Result)
    requires Truthful(x, stray, v) && (x.Ended? ==> Tells(fs, d, x.v))
    ensures var y := Tests(TestOf(fs, DischargeVars(d), cond), cond, x);
      match v
      case Error => y.Fails?
      case Ok(w) => if IsFalse(w) != cond then y.Ended? else y.Gone? && y.when == !cond
  {
    hide Tells, TestOf;
    if x.Ended? { TestTells(fs, d, cond, x.v); }
  }

  // An expression tested for `cond` (`luaK_goiftrue`, `luaK_goiffalse`): where no operand
  // loses its value the code goes on exactly when the value of the expression asks for it, and
  // otherwise leaves by the list for that, whatever its jumps carry.
  lemma ConditionsAreCompiledCorrectly(m: Sem, fs: Fs, e: Expr, cond: bool, at: int, r: Regs)
    requires Compilable(m, fs, e, at) && NoneLost(m, fs, e, r, Carried(fs.code, at, r))
    ensures var (f, d) := Compile(m, fs, e); var (g, d') := GoIf(f, d, cond);
      var o := RunFrom(m, g.k, CtxOf(fs), StateOf(g, d'), at, r);
      match Eval(m, e, r)
      case Error => o == Fail
      case Ok(v) =>
        if IsFalse(v) != cond then o.Fall? && AgreeBut(r, o.r, CtxOf(fs).base, NO_REG)
        else o.Leave? && o.when == !cond && AgreeBut(r, o.r, CtxOf(fs).base, NO_REG)
  {
    hide Start, Steady, Compile, Gives, ExitOf, Eval, NoneLost, Stray, GoIf, Stage, RunFrom, IsEntry, Tells, Scoped,
      TestOf, Tests, DischargeVars, Carried, Truthful;
    CompileExact(m, fs, e);
    var c := CtxOf(fs);
    var (f, d) := Compile(m, fs, e);
    var p := Carried(fs.code, at, r);
    var x := ExitOf(m, fs, e, r, p);
    TruthIsKept(m, fs, e, r, p);
    KindTells(m, fs, e, r, p);
    TestsTruth(f, d, cond, x, Stray(m, fs, e, r, p), Eval(m, e, r));
    assert Gives(m, c, f, d, NO_REG, at, r, x);
    GoIfOk(m, c, f, d, cond);
    var (g, d') := GoIf(f, d, cond);
    assert CondGives(m, c, g, StateOf(g, d'), at, r, Tests(TestOf(f, DischargeVars(d), cond), cond, x));
  }
}
