/**
 Expressions that are compiled wrong, with the registers for which they are.
 */
module LuaLiterals {
  import opened LuaVm
  import opened LuaRun
  import opened LuaCodegen
  import opened LuaFrame
  import opened LuaExit
  import opened LuaArith
  import opened LuaBranches
  import opened LuaCompose
  import opened LuaCompile
  import opened LuaStray
  import opened LuaTheorem
  import opened LuaClean
  import opened Wrappers

  // ----- a number where `true` should be -----

  // ((1 or false) and true) or false
  function WrongOr(): Expr {
    Binary(OpOr, Binary(OpAnd, Binary(OpOr, Number(1.0), False), True), False)
  }

  // The kind of `a and b` or `a or b` is that of `b`, if `b` is a literal.
  lemma LiteralKind(m: Sem, fs: Fs, cond: bool, a: Expr, lit: bool)
    ensures Compile(m, fs, Binary(if cond then OpAnd else OpOr, a, Literal(lit))).1.k == LiteralKindOf(lit)
  {
    CompileLogic(m, fs, cond, a, Literal(lit));
    hide GoIf;
    var op := if cond then OpAnd else OpOr;
    var (fs2, e1) := GoIf(Compile(m, fs, a).0, Compile(m, fs, a).1, cond);
    LogicKind(m, fs2, op, e1, Compile(m, fs2, Literal(lit)).1);
  }

  function Literal(b: bool): Expr {
    if b then True else False
  }

  function LiteralKindOf(b: bool): Kind {
    if b then VTrue else VFalse
  }

  // After a literal, what waits goes along with its jump, or goes on with it.
  lemma AfterLiteral(m: Sem, fs: Fs, op: BinOp, a: Expr, lit: bool, b: Expr, r: Regs, p: Option<Value>)
    requires IsLogic(op) && Compile(m, fs, a).1.k == LiteralKindOf(lit)
    ensures var cond := op == OpAnd; var x := ExitOf(m, fs, a, r, p);
      TestedLeft(m, fs, op, a, r, p) == Closing(cond, SplitBy(if lit == cond then Never else Always, cond, x))
  {
    hide ExitOf, Compile, Closing, SplitBy;
  }

  lemma FirstOr(m: Sem, fs: Fs, r: Regs, p: Option<Value>)
    ensures ExitOf(m, fs, Binary(OpOr, Number(1.0), False), r, p) == Gone(true, Some(Num(1.0)))
  {
    ExitLogic(m, fs, false, Number(1.0), False, r, p);
    assert Compile(m, fs, Number(1.0)) == (fs, Desc(VKNum(1.0), [], []));
    hide GoIf;
  }

  lemma ThenAnd(m: Sem, fs: Fs, r: Regs, p: Option<Value>)
    ensures ExitOf(m, fs, Binary(OpAnd, Binary(OpOr, Number(1.0), False), True), r, p) ==
      Ended(Bool(true), Some(Num(1.0)))
  {
    var a := Binary(OpOr, Number(1.0), False);
    FirstOr(m, fs, r, p);
    LiteralKind(m, fs, false, Number(1.0), false);
    AfterLiteral(m, fs, OpAnd, a, false, True, r, p);
    ExitLogic(m, fs, true, a, True, r, p);
    hide Compile, GoIf;
  }

  lemma ThenOr(m: Sem, fs: Fs, r: Regs, p: Option<Value>)
    ensures ExitOf(m, fs, WrongOr(), r, p) == Gone(true, Some(Num(1.0)))
  {
    var a := Binary(OpAnd, Binary(OpOr, Number(1.0), False), True);
    ThenAnd(m, fs, r, p);
    LiteralKind(m, fs, true, Binary(OpOr, Number(1.0), False), true);
    AfterLiteral(m, fs, OpOr, a, true, False, r, p);
    ExitLogic(m, fs, false, a, False, r, p);
    hide Compile, GoIf;
  }

  lemma WrongValue(m: Sem, r: Regs, n: nat)
    ensures Eval(m, WrongOr(), r) == Ok(Bool(true)) && Scoped(WrongOr(), n)
  {
    var a := Binary(OpOr, Number(1.0), False);
    assert Scoped(Number(1.0), n) && Scoped(False, n) && Scoped(True, n);
    assert Eval(m, a, r) == Ok(Num(1.0)) && Scoped(a, n);
    assert Eval(m, Binary(OpAnd, a, True), r) == Ok(Bool(true)) && Scoped(Binary(OpAnd, a, True), n);
  }

  // Wherever it is compiled and whatever the registers hold, the machine finds 1 where the
  // value is `true`.
  lemma LiteralsGoWrong(m: Sem, fs: Fs, next: Instr, at: int, r: Regs)
    requires Start(fs) && IsEntry(CtxOf(fs), at)
    ensures Eval(m, WrongOr(), r) == Ok(Bool(true))
    ensures Delivers(m, fs, WrongOr(), next, at, r, Ok(Num(1.0)))
    ensures !Delivers(m, fs, WrongOr(), next, at, r, Ok(Bool(true)))
  {
    hide WrongOr, Delivers, Start, Eval, ExitOf, IsEntry, Scoped, Steady;
    ThenOr(m, fs, r, Carried(fs.code, at, r));
    WrongValue(m, r, fs.nactvar);
    NoMinus(m, fs);
    DeliversExactly(m, fs, WrongOr(), next, at, r, Ok(Num(1.0)));
    DeliversExactly(m, fs, WrongOr(), next, at, r, Ok(Bool(true)));
  }

  lemma NoMinus(m: Sem, fs: Fs)
    ensures Steady(m, fs, WrongOr()) && forall f :: MinusesOk(m, f, WrongOr())
  {
    hide Compile, Infix;
    forall f ensures MinusesOk(m, f, WrongOr()) {
      assert MinusesOk(m, f, Binary(OpOr, Number(1.0), False));
      assert MinusesOk(m, f, Binary(OpAnd, Binary(OpOr, Number(1.0), False), True));
    }
  }

  // `not` takes the number away again: the expression is right for all registers, though it
  // is not clean.
  lemma NotRepairs(m: Sem, fs: Fs, next: Instr, at: int, r: Regs)
    requires Start(fs) && IsEntry(CtxOf(fs), at)
    ensures var e := Unary(OpNot, WrongOr());
      Delivers(m, fs, e, next, at, r, Eval(m, e, r)) && Right(m, fs, e, at, r) && !Clean(m, fs, e)
  {
    hide WrongOr, ExitOf, Compile, Start, IsEntry, Delivers;
    var p := Carried(fs.code, at, r);
    ThenOr(m, fs, r, p);
    WrongValue(m, r, fs.nactvar);
    ExitUnary(m, fs, OpNot, WrongOr(), r, p);
    NoMinus(m, fs);
    assert MinusesOk(m, fs, Unary(OpNot, WrongOr()));
    DeliversExactly(m, fs, Unary(OpNot, WrongOr()), next, at, r, Eval(m, Unary(OpNot, WrongOr()), r));
    if Clean(m, fs, Unary(OpNot, WrongOr())) {
      CleanIsRight(m, fs, WrongOr(), at, r);
      assert false;
    }
  }

  // ----- a false value where `true` should be -----

  // ((x and false) or true) or y
  function LostTruth(x: nat, y: Expr): Expr {
    Binary(OpOr, Binary(OpOr, Binary(OpAnd, Local(x), False), True), y)
  }

  lemma LocalAnd(m: Sem, fs: Fs, x: nat, r: Regs, p: Option<Value>)
    ensures ExitOf(m, fs, Binary(OpAnd, Local(x), False), r, p) ==
      if IsFalse(Get(r, x)) then Gone(false, Some(Get(r, x))) else Ended(Bool(false), None)
  {
    ExitLogic(m, fs, true, Local(x), False, r, p);
    assert Compile(m, fs, Local(x)) == (fs, Desc(VLocal(x), [], []));
    hide GoIf;
  }

  lemma LocalOr(m: Sem, fs: Fs, x: nat, r: Regs, p: Option<Value>)
    ensures ExitOf(m, fs, Binary(OpOr, Binary(OpAnd, Local(x), False), True), r, p) ==
      Ended(Bool(true), if IsFalse(Get(r, x)) then Some(Get(r, x)) else None)
  {
    var a := Binary(OpAnd, Local(x), False);
    LocalAnd(m, fs, x, r, p);
    LiteralKind(m, fs, true, Local(x), false);
    AfterLiteral(m, fs, OpOr, a, false, True, r, p);
    ExitLogic(m, fs, false, a, True, r, p);
    hide Compile, GoIf;
  }

  lemma LostTruthExit(m: Sem, fs: Fs, x: nat, y: Expr, r: Regs, p: Option<Value>)
    ensures ExitOf(m, fs, LostTruth(x, y), r, p) == Gone(true, if IsFalse(Get(r, x)) then Some(Get(r, x)) else None)
    ensures Eval(m, LostTruth(x, y), r) == Ok(Bool(true))
  {
    var a := Binary(OpOr, Binary(OpAnd, Local(x), False), True);
    LocalOr(m, fs, x, r, p);
    LiteralKind(m, fs, false, Binary(OpAnd, Local(x), False), true);
    AfterLiteral(m, fs, OpOr, a, true, y, r, p);
    ExitLogic(m, fs, false, a, y, r, p);
    EvalLogic(m, true, Local(x), False, r);
    EvalLogic(m, false, Binary(OpAnd, Local(x), False), True, r);
    EvalLogic(m, false, a, y, r);
    hide Compile, GoIf, ExitOf, Eval;
  }

  lemma DeliversWhatIsComputed(m: Sem, fs: Fs, e: Expr, next: Instr, at: int, r: Regs)
    ensures Compilable(m, fs, e, at) ==>
      forall v :: Delivers(m, fs, e, next, at, r, v) <==> v == Computes(m, fs, e, at, r)
  {
    hide Delivers, Compilable, Computes;
    if Compilable(m, fs, e, at) {
      forall v ensures Delivers(m, fs, e, next, at, r, v) <==> v == Computes(m, fs, e, at, r) {
        DeliversExactly(m, fs, e, next, at, r, v);
      }
    }
  }

  // Not even the truth of a value is safe: this is right exactly when `x` is true.
  lemma TruthGoesWrong(m: Sem, fs: Fs, x: nat, y: Expr, next: Instr, at: int, r: Regs)
    ensures Eval(m, LostTruth(x, y), r) == Ok(Bool(true))
    ensures Right(m, fs, LostTruth(x, y), at, r) <==> !IsFalse(Get(r, x))
    ensures Compilable(m, fs, LostTruth(x, y), at) ==>
      var v := if IsFalse(Get(r, x)) then Get(r, x) else Bool(true);
      && Delivers(m, fs, LostTruth(x, y), next, at, r, Ok(v))
      && (Delivers(m, fs, LostTruth(x, y), next, at, r, Ok(Bool(true))) <==> !IsFalse(Get(r, x)))
  {
    hide ExitOf, Eval, LostTruth, Delivers, Compilable;
    LostTruthExit(m, fs, x, y, r, Carried(fs.code, at, r));
    DeliversWhatIsComputed(m, fs, LostTruth(x, y), next, at, r);
  }

  // As an operand it takes a condition to the wrong branch.
  lemma BranchGoesWrong(m: Sem, fs: Fs, x: nat, y: Expr, next: Instr, at: int, r: Regs)
    ensures var e := Binary(OpEq, LostTruth(x, y), True);
      && Eval(m, e, r) == Ok(Bool(true)) && (Right(m, fs, e, at, r) <==> !IsFalse(Get(r, x)))
      && (Compilable(m, fs, e, at) ==> Delivers(m, fs, e, next, at, r, Ok(Bool(!IsFalse(Get(r, x))))))
  {
    hide Delivers, Compilable;
    DeliversWhatIsComputed(m, fs, Binary(OpEq, LostTruth(x, y), True), next, at, r);
    var p := Carried(fs.code, at, r);
    LostTruthExit(m, fs, x, y, r, p);
    ExitBoth(m, fs, OpEq, LostTruth(x, y), True, r, p);
    var (fs1, d1) := Compile(m, fs, LostTruth(x, y));
    OperatedValue(ExitOf(m, fs, LostTruth(x, y), r, p), LeftIdle(fs1, OpEq, d1));
    hide LostTruth, Compile, Infix, Operated, LeftIdle;
  }

  // ----- what waits at the start of an expression -----

  // `false and b`, where a jump with a value waits for it: the value comes out instead.
  lemma StartGoesWrong(m: Sem, fs: Fs, b: Expr, next: Instr, at: int, r: Regs)
    ensures var e := Binary(OpAnd, False, b); var p := Carried(fs.code, at, r);
      && Eval(m, e, r) == Ok(Bool(false))
      && (Right(m, fs, e, at, r) <==> p == None || p == Some(Bool(false)))
      && (Compilable(m, fs, e, at) ==>
            Delivers(m, fs, e, next, at, r, Ok(if p.Some? then p.value else Bool(false))))
  {
    hide Delivers, Compilable;
    DeliversWhatIsComputed(m, fs, Binary(OpAnd, False, b), next, at, r);
    var p := Carried(fs.code, at, r);
    assert Compile(m, fs, False) == (fs, Desc(VFalse, [], []));
    AfterLiteral(m, fs, OpAnd, False, false, b, r, p);
    ExitLogic(m, fs, true, False, b, r, p);
    hide GoIf, Compile;
  }

  // ----- a minus before a literal -----

  // A literal among the first constants is taken for a register beyond those of the function:
  // the expression is right exactly when minus makes of what that register holds what it
  // makes of the literal. Later it is right.
  lemma MinusGoesWrong(m: Sem, fs: Fs, lit: bool, next: Instr, at: int, r: Regs)
    ensures var e := Unary(OpMinus, Literal(lit)); var z := Get(r, BITRK + IndexOf(fs.k, Bool(lit)));
      && Eval(m, e, r) == m.other(UNM, Bool(lit), Bool(lit))
      && (Right(m, fs, e, at, r) <==>
            |fs.k| <= MAXINDEXRK ==> ArithValue(m, UNM, z, z) == m.other(UNM, Bool(lit), Bool(lit)))
      && (Compilable(m, fs, e, at) ==>
            Delivers(m, fs, e, next, at, r, if |fs.k| <= MAXINDEXRK then ArithValue(m, UNM, z, z) else Eval(m, e, r)))
  {
    hide Delivers, Compilable, Exp2RK, Compile, IndexOf, MinusOk, Carried;
    DeliversWhatIsComputed(m, fs, Unary(OpMinus, Literal(lit)), next, at, r);
    var p := Carried(fs.code, at, r);
    var d := Desc(LiteralKindOf(lit), [], []);
    LiteralCompiled(m, fs, lit);
    ExitUnary(m, fs, OpMinus, Literal(lit), r, p);
    LiteralOperand(fs, lit);
  }

  lemma LiteralCompiled(m: Sem, fs: Fs, lit: bool)
    ensures Compile(m, fs, Literal(lit)) == (fs, Desc(LiteralKindOf(lit), [], []))
  {
  }

  lemma LiteralOperand(fs: Fs, lit: bool)
    ensures var d := Desc(LiteralKindOf(lit), [], []); MinusOk(fs, d) <==> |fs.k| > MAXINDEXRK
  {
    hide Emit, AddK, IndexOf, CloseLists, Labels;
    var d := Desc(LiteralKindOf(lit), [], []);
    assert Exp2Val(fs, d) == (fs, d);
  }
}
