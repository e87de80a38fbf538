/**
 The language of expressions and the part of the virtual machine its code runs on: an
 evaluator on expressions, and the instructions one step at a time.
 */
module LuaVm {
  import opened Wrappers

  datatype Value = Nil | Bool(b: bool) | Num(n: real) | Str(s: string) | Other(id: int)

  datatype Result = Ok(v: Value) | Error

  datatype ArithOp = ADD | SUB | MUL | DIV | MOD | POW | UNM

  datatype CompareOp = EQ | LT | LE

  // What the machine does not fix: arithmetic on numbers, and everything that needs the
  // types of the operands. `None` is a run-time error.
  datatype Sem = Sem(
    num: (ArithOp, real, real) -> real,
    other: (ArithOp, Value, Value) -> Result,
    less: (Value, Value) -> Option<bool>,
    lessequal: (Value, Value) -> Option<bool>)

  predicate IsFalse(v: Value) {
    v == Nil || v == Bool(false)
  }

  function ArithValue(m: Sem, op: ArithOp, a: Value, b: Value): Result {
    if a.Num? && b.Num? then Ok(Num(m.num(op, a.n, b.n))) else m.other(op, a, b)
  }

  function CompareValue(m: Sem, op: CompareOp, a: Value, b: Value): Option<bool> {
    match op
    case EQ => Some(a == b)
    case LT => m.less(a, b)
    case LE => m.lessequal(a, b)
  }

  // ----- expressions -----

  datatype BinOp =
    | OpArith(op: ArithOp)
    | OpEq | OpNe | OpLt | OpLe | OpGt | OpGe
    | OpAnd | OpOr

  datatype UnOp = OpMinus | OpNot

  datatype Expr =
    | Local(reg: nat)
    | True
    | False
    | Number(n: real)
    | String(s: string)
    | Unary(uop: UnOp, arg: Expr)
    | Binary(bop: BinOp, left: Expr, right: Expr)

  // The registers of a function; those never written hold nil.
  type Regs = map<int, Value>

  function Get(r: Regs, i: int): Value {
    if i in r then r[i] else Nil
  }

  function Truth(o: Option<bool>, sense: bool): Result {
    match o
    case None => Error
    case Some(b) => Ok(Bool(b == sense))
  }

  // The value of an operator on values; `and` and `or` need only one operand.
  function Apply2(m: Sem, op: BinOp, a: Value, b: Value): Result {
    match op
    case OpArith(o) => ArithValue(m, o, a, b)
    case OpEq => Truth(CompareValue(m, EQ, a, b), true)
    case OpNe => Truth(CompareValue(m, EQ, a, b), false)
    case OpLt => Truth(CompareValue(m, LT, a, b), true)
    case OpLe => Truth(CompareValue(m, LE, a, b), true)
    case OpGt => Truth(CompareValue(m, LT, b, a), true)
    case OpGe => Truth(CompareValue(m, LE, b, a), true)
    case OpAnd => Ok(if IsFalse(a) then a else b)
    case OpOr => Ok(if IsFalse(a) then b else a)
  }

  function Apply1(m: Sem, op: UnOp, a: Value): Result {
    match op
    case OpMinus => ArithValue(m, UNM, a, a)
    case OpNot => Ok(Bool(IsFalse(a)))
  }

  // The value of an expression: what the reference manual says it is.
  function Eval(m: Sem, e: Expr, r: Regs): Result {
    match e
    case Local(i) => Ok(Get(r, i))
    case True => Ok(Bool(true))
    case False => Ok(Bool(false))
    case Number(n) => Ok(Num(n))
    case String(s) => Ok(Str(s))
    case Unary(op, a) =>
      (match Eval(m, a, r)
       case Error => Error
       case Ok(v) => Apply1(m, op, v))
    case Binary(op, a, b) =>
      match Eval(m, a, r)
      case Error => Error
      case Ok(v) =>
        if (op == OpAnd && IsFalse(v)) || (op == OpOr && !IsFalse(v)) then Ok(v)
        else
          match Eval(m, b, r)
          case Error => Error
          case Ok(w) => Apply2(m, op, v, w)
  }

  // All locals of an expression lie below register `n`.
  predicate Scoped(e: Expr, n: nat) {
    match e
    case Local(i) => i < n
    case Unary(_, a) => Scoped(a, n)
    case Binary(_, a, b) => Scoped(a, n) && Scoped(b, n)
    case _ => true
  }

  ghost predicate Agree(r: Regs, r': Regs, n: nat) {
    forall i: nat :: i < n ==> Get(r', i) == Get(r, i)
  }

  lemma EvalDependsOnLocals(m: Sem, e: Expr, r: Regs, r': Regs, n: nat)
    requires Scoped(e, n) && Agree(r, r', n)
    ensures Eval(m, e, r') == Eval(m, e, r)
  {
  }

  // ----- instructions -----

  // An operand: a register, or a constant by its index.
  datatype RK = R(reg: nat) | K(idx: nat)

  const NO_REG: int := -1
  const NO_JUMP: int := -1
  const BITRK: nat := 256
  const MAXINDEXRK: nat := 255

  // No function uses this many registers (`luaK_checkstack`).
  const MAXSTACK: nat := 250

  function RKCode(o: RK): nat {
    match o
    case R(i) => i
    case K(i) => i + BITRK
  }

  datatype Instr =
    | MOVE(a: int, b: nat)
    | LOADK(a: int, bx: nat)
    | LOADBOOL(a: int, bit: bool, skip: bool)
    | ARITH(a: int, aop: ArithOp, rb: RK, rc: RK)
    | MINUS(a: int, b: nat)
    | NOT(a: int, b: nat)
    | COMPARE(cop: CompareOp, cond: bool, rb: RK, rc: RK)
    | TEST(b: nat, c: bool)
    | TESTSET(a: int, b: nat, c: bool)
    | JMP(sbx: int)

  // `testTMode`
  predicate IsTest(i: Instr) {
    i.COMPARE? || i.TEST? || i.TESTSET?
  }

  function Const(k: seq<Value>, i: nat): Value {
    if i < |k| then k[i] else Nil
  }

  function RKValue(k: seq<Value>, o: RK, r: Regs): Value {
    match o
    case R(i) => Get(r, i)
    case K(i) => Const(k, i)
  }

  predicate HasTarget(i: Instr) {
    i.MOVE? || i.LOADK? || i.LOADBOOL? || i.ARITH? || i.MINUS? || i.NOT?
  }

  // The value an instruction puts into register A.
  function Computed(m: Sem, k: seq<Value>, i: Instr, r: Regs): Result
    requires HasTarget(i)
  {
    match i
    case MOVE(_, b) => Ok(Get(r, b))
    case LOADK(_, bx) => Ok(Const(k, bx))
    case LOADBOOL(_, bit, _) => Ok(Bool(bit))
    case ARITH(_, op, rb, rc) => ArithValue(m, op, RKValue(k, rb, r), RKValue(k, rc, r))
    case MINUS(_, b) => ArithValue(m, UNM, Get(r, b), Get(r, b))
    case NOT(_, b) => Ok(Bool(IsFalse(Get(r, b))))
  }

  // Whether a test takes the jump that follows it.
  function Taken(m: Sem, k: seq<Value>, i: Instr, r: Regs): Option<bool>
    requires IsTest(i)
  {
    match i
    case COMPARE(op, cond, rb, rc) =>
      (match CompareValue(m, op, RKValue(k, rb, r), RKValue(k, rc, r))
       case None => None
       case Some(b) => Some(b == cond))
    case TEST(b, c) => Some(IsFalse(Get(r, b)) != c)
    case TESTSET(_, b, c) => Some(IsFalse(Get(r, b)) != c)
  }

  // ----- the machine -----

  datatype Config = Running(pc: int, r: Regs) | Failed

  function SetReg(r: Regs, a: int, v: Value): Regs {
    if a == NO_REG then r else r[a := v]
  }

  // One turn of the loop of `luaV_execute`
  function Step(m: Sem, k: seq<Value>, code: seq<Instr>, c: Config): Config
    requires c.Running? ==> 0 <= c.pc < |code|
  {
    if c.Failed? then c
    else
      var pc, i := c.pc + 1, code[c.pc];
      match i
      case JMP(sbx) => Running(pc + sbx, c.r)
      case COMPARE(_, _, _, _) => Branch(m, k, code, i, pc, c.r, c.r)
      case TEST(_, _) => Branch(m, k, code, i, pc, c.r, c.r)
      case TESTSET(a, b, _) => Branch(m, k, code, i, pc, SetReg(c.r, a, Get(c.r, b)), c.r)
      case _ =>
        match Computed(m, k, i, c.r)
        case Error => Failed
        case Ok(v) => Running(if i.LOADBOOL? && i.skip then pc + 1 else pc, c.r[i.a := v])
  }

  // A test jumps by the offset of the next instruction, or skips it.
  function Branch(m: Sem, k: seq<Value>, code: seq<Instr>, i: Instr, pc: int, taken: Regs, r: Regs): Config
    requires IsTest(i) && 0 <= pc
  {
    match Taken(m, k, i, r)
    case None => Failed
    case Some(true) => if pc < |code| && code[pc].JMP? then Running(pc + code[pc].sbx + 1, taken) else Failed
    case Some(false) => Running(pc + 1, r)
  }

  // The machine gets from `c` to `c'`, and does not go on from instruction `end`.
  ghost predicate Reaches(m: Sem, k: seq<Value>, code: seq<Instr>, end: nat, c: Config, c': Config, steps: nat)
    decreases steps
  {
    if steps == 0 then c == c'
    else c.Running? && 0 <= c.pc < end <= |code| && Reaches(m, k, code, end, Step(m, k, code, c), c', steps - 1)
  }

  // The machine has come to instruction `end`, or to a run-time error.
  predicate Stopped(c: Config, end: nat) {
    c.Running? ==> c.pc == end
  }

  // It stops in one way only.
  lemma {:induction false} StopsOnce(m: Sem, k: seq<Value>, code: seq<Instr>, end: nat, c: Config, c1: Config,
      c2: Config, n1: nat, n2: nat)
    requires Reaches(m, k, code, end, c, c1, n1) && Reaches(m, k, code, end, c, c2, n2)
    requires Stopped(c1, end) && Stopped(c2, end)
    ensures c1 == c2
    decreases n1
  {
    if n1 > 0 && n2 > 0 { StopsOnce(m, k, code, end, Step(m, k, code, c), c1, c2, n1 - 1, n2 - 1); }
  }
}
