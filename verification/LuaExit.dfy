/**
 What the code of an expression does, told on the expression itself. A jump with a value may
 still wait when the code of an expression begins. Where the expression then starts with a
 jump of its own, which happens for a literal `true` or `false` that decides an `and` or an
 `or`, the waiting jump goes along with it and takes its value to where the literal should
 go. This module says when that happens, and what value comes out.
 */
module LuaExit {
  import opened LuaVm
  import opened LuaCodegen
  import opened Wrappers

  // How a run of the code of an expression ends: with an error; by a jump of the true or the
  // false list, which may carry a value; or at its end, where the value is `v` and the jump
  // that led there, if one did and it still waits, carries `waiting`.
  datatype Exit = Fails | Gone(when: bool, carried: Option<Value>) | Ended(v: Value, waiting: Option<Value>)

  // The value that is put into a register at last.
  function ValueOf(x: Exit): Result {
    match x
    case Fails => Error
    case Gone(when, None) => Ok(Bool(when))
    case Gone(_, Some(w)) => Ok(w)
    case Ended(v, _) => Ok(v)
  }

  function ExitWith(v: Result, waiting: Option<Value>): Exit {
    match v
    case Error => Fails
    case Ok(w) => Ended(w, waiting)
  }

  // An instruction has been emitted: no jump waits any more.
  function Consumed(x: Exit): Exit {
    if x.Ended? then Ended(x.v, None) else x
  }

  // The operand needs no code: it is a local, or a constant that fits.
  predicate Idle(fs: Fs, d: Desc) {
    && d.t == [] && d.f == []
    && (d.k.VLocal? || d.k.VNonReloc? || (d.k.VK? && d.k.info <= MAXINDEXRK) ||
      (ConstantOf(d.k).Some? && |fs.k| <= MAXINDEXRK))
  }

  // The value has become an operand.
  function Operated(x: Exit, idle: bool): Exit {
    if idle then x else ExitWith(ValueOf(x), None)
  }

  // ----- conditions -----

  // How a test goes on: not at all, always, by a jump without a value, by one with it.
  datatype Test = Never | Always | Plainly | Carrying

  // The removed NOT of `jumponcond`
  predicate IsNot(fs: Fs, d: Desc) {
    d.k.VReloc? && At(fs.code, d.k.pc).NOT?
  }

  // Where a literal is never what is asked for, the jump is unconditional.
  predicate AlwaysJumps(k: Kind, cond: bool) {
    k == if cond then VFalse else VTrue
  }

  predicate NeverJumps(k: Kind, cond: bool) {
    if cond then k.VTrue? || k.VK? || k.VKNum? else k.VFalse?
  }

  function TestOf(fs: Fs, d: Desc, cond: bool): Test {
    if NeverJumps(d.k, cond) then Never
    else if AlwaysJumps(d.k, cond) then Always
    else if d.k.VJmp? || IsNot(fs, d) then Plainly
    else Carrying
  }

  // The test is made where the code of the expression ends, and goes on if the value is
  // `cond`.
  function SplitBy(t: Test, cond: bool, x: Exit): Exit {
    if !x.Ended? then x
    else
      match t
      case Never => Ended(Bool(cond), x.waiting)
      case Always => Gone(!cond, x.waiting)
      case _ =>
        if IsFalse(x.v) != cond then Ended(Bool(cond), None)
        else Gone(!cond, if t.Carrying? then Some(x.v) else None)
  }

  // The jumps of one list go on as well.
  function Closing(cond: bool, x: Exit): Exit {
    if x.Gone? && x.when == cond then Ended(Bool(cond), x.carried) else x
  }

  // The exit of an expression once it is tested for `cond`
  function Tests(t: Test, cond: bool, x: Exit): Exit {
    Closing(cond, SplitBy(t, cond, x))
  }

  // ----- operators -----

  // `not` turns the lists round, and their jumps lose what they carry.
  function Negated(k: Kind, x: Exit): Exit {
    match x
    case Fails => Fails
    case Gone(b, _) => Gone(!b, None)
    case Ended(v, w) => Ended(Bool(IsFalse(v)), if k.VReloc? || k.VNonReloc? || k.VLocal? then None else w)
  }

  function Both(m: Sem, op: BinOp, va: Result, vb: Result): Result {
    if va.Error? || vb.Error? then Error else Apply2(m, op, va.v, vb.v)
  }

  function WaitingOf(x: Exit): Option<Value> {
    if x.Ended? then x.waiting else None
  }

  // Both operands have their values; only a folded operation leaves a jump waiting.
  function Combined(m: Sem, op: BinOp, folded: bool, y: Exit, z: Exit): Exit {
    ExitWith(Both(m, op, ValueOf(y), ValueOf(z)), if folded then WaitingOf(z) else None)
  }

  predicate IsFolded(m: Sem, op: BinOp, d1: Desc, d2: Desc) {
    op.OpArith? && Folded(m, op.op, d1, d2).Some?
  }

  // The left operand needs no code before the right one.
  predicate LeftIdle(fs: Fs, op: BinOp, d: Desc) {
    Idle(fs, d) || (op.OpArith? && IsNumeral(d))
  }

  function MinusOf(m: Sem, v: Result): Result {
    if v.Error? then Error else Apply1(m, OpMinus, v.v)
  }

  // What `luaK_prefix` makes of the operand of a minus before it codes the operator
  function MinusOperand(fs: Fs, d: Desc): (Fs, Desc) {
    if d.k.VK? then Exp2AnyReg(fs, d) else (fs, d)
  }

  // The operand is folded or has become a register. It is neither when a literal `true` or
  // `false` has become a constant operand.
  predicate MinusOk(fs: Fs, d: Desc) {
    var (fs1, d1) := MinusOperand(fs, d);
    IsNumeral(d1) || Exp2RK(fs1, d1).1.k.VNonReloc?
  }

  // The register that the instruction names for a constant operand: one beyond those of the
  // function.
  function MinusRegister(fs: Fs, d: Desc): nat {
    BITRK + match ConstantOf(d.k) { case Some(v) => IndexOf(fs.k, v) case None => 0 }
  }

  function Minus(m: Sem, fs: Fs, d: Desc, x: Exit, r: Regs): Exit {
    if MinusOk(fs, d) then ExitWith(MinusOf(m, ValueOf(x)), if IsNumeral(d) then WaitingOf(x) else None)
    else if x.Fails? then Fails
    else
      var z := Get(r, MinusRegister(fs, d));
      ExitWith(ArithValue(m, UNM, z, z), None)
  }

  predicate IsLogic(op: BinOp) {
    op == OpAnd || op == OpOr
  }

  // The exit of the code of `e` compiled in state `fs`, run on registers `r`; `p` is what the
  // waiting jump carries by which the run came to its start, if there is one.
  function ExitOf(m: Sem, fs: Fs, e: Expr, r: Regs, p: Option<Value>): Exit
    decreases e
  {
    match e
    case Local(i) => Ended(Get(r, i), p)
    case True => Ended(Bool(true), p)
    case False => Ended(Bool(false), p)
    case Number(n) => Ended(Num(n), p)
    case String(s) => Ended(Str(s), p)
    case Unary(op, a) =>
      var (fs1, d1) := Compile(m, fs, a);
      var x := ExitOf(m, fs, a, r, p);
      if op == OpNot then Negated(d1.k, x)
      else Minus(m, fs1, d1, x, r)
    case Binary(op, a, b) =>
      var (fs1, d1) := Compile(m, fs, a);
      var (fs2, e1) := Infix(fs1, op, d1);
      var x := ExitOf(m, fs, a, r, p);
      if IsLogic(op) then
        var y := Tests(TestOf(fs1, DischargeVars(d1), op == OpAnd), op == OpAnd, x);
        if y.Ended? then ExitOf(m, fs2, b, r, y.waiting) else y
      else
        var y := Operated(x, LeftIdle(fs1, op, d1));
        var z := ExitOf(m, fs2, b, r, WaitingOf(y));
        Combined(m, op, IsFolded(m, op, e1, Compile(m, fs2, b).1), y, z)
  }
}
