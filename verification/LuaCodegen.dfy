/**
 The code generator for expressions, as functions on the state of a function being compiled.
 Patch lists are sequences of jumps here; a jump on one of them has no target yet.
 */
module LuaCodegen {
  import opened LuaVm
  import opened LuaRun
  import opened Wrappers

  // `jpc` are the jumps to the next instruction. Registers below `nactvar` hold locals.
  datatype Fs = Fs(code: seq<Instr>, k: seq<Value>, jpc: seq<int>, freereg: int, nactvar: nat)

  datatype Kind =
    | VTrue
    | VFalse
    | VK(info: nat)
    | VKNum(nval: real)
    | VLocal(reg: nat)
    | VNonReloc(reg: nat)
    | VReloc(pc: int)
    | VJmp(pc: int)

  // `t` are the jumps out of the expression when it is true, `f` those when it is false.
  datatype Desc = Desc(k: Kind, t: seq<int>, f: seq<int>)

  predicate HasJumps(d: Desc) {
    d.t != [] || d.f != []
  }

  predicate IsNumeral(d: Desc) {
    d.k.VKNum? && d.t == [] && d.f == []
  }

  function At(code: seq<Instr>, i: int): Instr {
    if 0 <= i < |code| then code[i] else JMP(NO_JUMP)
  }

  function Put(code: seq<Instr>, i: int, x: Instr): seq<Instr> {
    if 0 <= i < |code| then code[i := x] else code
  }

  // ----- jumps -----

  // `patchtestreg`: the value goes to `reg`, or nowhere.
  function PatchTest(i: Instr, reg: int): Instr
    requires i.TESTSET?
  {
    if reg != NO_REG && reg != i.b then TESTSET(reg, i.b, i.c) else TEST(i.b, i.c)
  }

  // `patchlistaux`: jumps with a value go to `vtarget` and leave it in `reg`, the others go
  // to `dtarget`.
  function PatchedAt(code: seq<Instr>, js: seq<int>, vtarget: int, reg: int, dtarget: int, i: int): Instr
    requires 0 <= i < |code|
  {
    if i in js && code[i].JMP? then JMP((if ValueJump(code, i) then vtarget else dtarget) - (i + 1))
    else if i + 1 in js && code[i].TESTSET? then PatchTest(code[i], reg)
    else code[i]
  }

  function Patched(code: seq<Instr>, js: seq<int>, vtarget: int, reg: int, dtarget: int): (c: seq<Instr>)
    ensures |c| == |code| && forall i :: 0 <= i < |code| ==> c[i] == PatchedAt(code, js, vtarget, reg, dtarget, i)
  {
    seq(|code|, i requires 0 <= i < |code| => PatchedAt(code, js, vtarget, reg, dtarget, i))
  }

  // `removevalues`
  function DevaluedAt(code: seq<Instr>, js: seq<int>, i: int): Instr
    requires 0 <= i < |code|
  {
    if i + 1 in js && code[i].TESTSET? then PatchTest(code[i], NO_REG) else code[i]
  }

  function Devalued(code: seq<Instr>, js: seq<int>): (c: seq<Instr>)
    ensures |c| == |code| && forall i :: 0 <= i < |code| ==> c[i] == DevaluedAt(code, js, i)
  {
    seq(|code|, i requires 0 <= i < |code| => DevaluedAt(code, js, i))
  }

  // `need_value`
  predicate NeedValue(code: seq<Instr>, js: seq<int>) {
    exists j :: j in js && !ValueJump(code, j)
  }

  // `luaK_code`: the jumps to here get their target first.
  function Emit(fs: Fs, i: Instr): Fs {
    fs.(code := Patched(fs.code, fs.jpc, |fs.code|, NO_REG, |fs.code|) + [i], jpc := [])
  }

  // `luaK_jump`: jumps to here become jumps to wherever the new jump goes.
  function EmitJump(fs: Fs): (Fs, seq<int>) {
    (fs.(code := fs.code + [JMP(NO_JUMP)], jpc := []), [|fs.code|] + fs.jpc)
  }

  function CondJump(fs: Fs, test: Instr): (Fs, seq<int>) {
    EmitJump(Emit(fs, test))
  }

  // `luaK_patchtohere`
  function PatchToHere(fs: Fs, js: seq<int>): Fs {
    fs.(jpc := fs.jpc + js)
  }

  // ----- constants -----

  function IndexOf(k: seq<Value>, v: Value): (i: nat)
    ensures i <= |k| && (i < |k| ==> k[i] == v) && forall j :: 0 <= j < i ==> k[j] != v
  {
    if k == [] || k[0] == v then 0 else 1 + IndexOf(k[1..], v)
  }

  // `addk`
  function AddK(fs: Fs, v: Value): Fs {
    if IndexOf(fs.k, v) < |fs.k| then fs else fs.(k := fs.k + [v])
  }

  // ----- registers -----

  // The next register. `freereg` never becomes negative, see `LuaArith.FreedInOrder`.
  function Top(fs: Fs): nat {
    if fs.freereg >= 0 then fs.freereg else 0
  }

  function ReserveReg(fs: Fs): Fs {
    fs.(freereg := fs.freereg + 1)
  }

  function FreeReg(fs: Fs, reg: nat): Fs {
    if reg >= fs.nactvar then fs.(freereg := fs.freereg - 1) else fs
  }

  function FreeExp(fs: Fs, d: Desc): Fs {
    if d.k.VNonReloc? then FreeReg(fs, d.k.reg) else fs
  }

  // ----- putting a value into a register -----

  function DischargeVars(d: Desc): Desc {
    if d.k.VLocal? then d.(k := VNonReloc(d.k.reg)) else d
  }

  function SetA(i: Instr, reg: int): Instr {
    if HasTarget(i) then i.(a := reg) else i
  }

  function Discharge2Reg(fs: Fs, d0: Desc, reg: nat): (Fs, Desc) {
    var d := DischargeVars(d0);
    var d' := d.(k := VNonReloc(reg));
    match d.k
    case VTrue => (Emit(fs, LOADBOOL(reg, true, false)), d')
    case VFalse => (Emit(fs, LOADBOOL(reg, false, false)), d')
    case VK(info) => (Emit(fs, LOADK(reg, info)), d')
    case VKNum(n) => (Emit(AddK(fs, Num(n)), LOADK(reg, IndexOf(fs.k, Num(n)))), d')
    case VReloc(pc) => (fs.(code := Put(fs.code, pc, SetA(At(fs.code, pc), reg))), d')
    case VNonReloc(r) => (if r != reg then Emit(fs, MOVE(reg, r)) else fs, d')
    case _ => (fs, d)
  }

  function Discharge2AnyReg(fs: Fs, d: Desc): (Fs, Desc) {
    if d.k.VNonReloc? then (fs, d) else Discharge2Reg(ReserveReg(fs), d, Top(fs))
  }

  // The loads of `false` and `true` that jumps without a value need.
  function Labels(fs: Fs, reg: nat): Fs {
    Emit(Emit(fs, LOADBOOL(reg, false, true)), LOADBOOL(reg, true, false))
  }

  // The lists of an expression end here, with its value in `reg`.
  function CloseLists(fs: Fs, d: Desc, reg: nat, pf: int, pt: int): Fs {
    var final := |fs.code|;
    fs.(code := Patched(Patched(fs.code, d.f, final, reg, pf), d.t, final, reg, pt))
  }

  function Exp2Reg(fs: Fs, d: Desc, reg: nat): (Fs, Desc) {
    var (fs1, d1) := Discharge2Reg(fs, d, reg);
    var d2 := if d1.k.VJmp? then d1.(t := d1.t + [d1.k.pc]) else d1;
    var result := Desc(VNonReloc(reg), [], []);
    if !HasJumps(d2) then (fs1, result)
    else if !NeedValue(fs1.code, d2.t) && !NeedValue(fs1.code, d2.f) then
      (CloseLists(fs1, d2, reg, NO_JUMP, NO_JUMP), result)
    else
      var (fs2, fj) := if d2.k.VJmp? then (fs1, []) else EmitJump(fs1);
      var fs3 := PatchToHere(Labels(fs2, reg), fj);
      (CloseLists(fs3, d2, reg, |fs3.code| - 2, |fs3.code| - 1), result)
  }

  function Exp2NextReg(fs: Fs, d: Desc): (Fs, Desc) {
    var d1 := DischargeVars(d);
    var fs1 := FreeExp(fs, d1);
    Exp2Reg(ReserveReg(fs1), d1, Top(fs1))
  }

  function Exp2AnyReg(fs: Fs, d: Desc): (Fs, Desc) {
    var d1 := DischargeVars(d);
    if d1.k.VNonReloc? && !HasJumps(d1) then (fs, d1)
    else if d1.k.VNonReloc? && d1.k.reg >= fs.nactvar then Exp2Reg(fs, d1, d1.k.reg)
    else Exp2NextReg(fs, d1)
  }

  function Exp2Val(fs: Fs, d: Desc): (Fs, Desc) {
    if HasJumps(d) then Exp2AnyReg(fs, d) else (fs, DischargeVars(d))
  }

  // The constant an expression is, if its kind is one.
  function ConstantOf(k: Kind): Option<Value> {
    match k
    case VTrue => Some(Bool(true))
    case VFalse => Some(Bool(false))
    case VKNum(n) => Some(Num(n))
    case _ => None
  }

  function Exp2RK(fs: Fs, d: Desc): (Fs, Desc) {
    var (fs1, d1) := Exp2Val(fs, d);
    match ConstantOf(d1.k)
    case Some(v) =>
      if |fs1.k| <= MAXINDEXRK then (AddK(fs1, v), d1.(k := VK(IndexOf(fs1.k, v)))) else Exp2AnyReg(fs1, d1)
    case None =>
      if d1.k.VK? && d1.k.info <= MAXINDEXRK then (fs1, d1) else Exp2AnyReg(fs1, d1)
  }

  // The operand an expression has become.
  function Operand(d: Desc): RK {
    match d.k
    case VK(info) => K(info)
    case VNonReloc(reg) => R(reg)
    case _ => R(0)
  }

  // ----- conditions -----

  function Inverted(i: Instr): Instr {
    if i.COMPARE? then i.(cond := !i.cond) else i
  }

  function InvertJump(fs: Fs, pc: int): Fs {
    fs.(code := Put(fs.code, pc - 1, Inverted(At(fs.code, pc - 1))))
  }

  function JumpOnCond(fs: Fs, d: Desc, cond: bool): (Fs, seq<int>) {
    if d.k.VReloc? && At(fs.code, d.k.pc).NOT? && |fs.code| > 0 then
      CondJump(fs.(code := fs.code[..|fs.code| - 1]), TEST(At(fs.code, d.k.pc).b, !cond))
    else
      var (fs1, d1) := Discharge2AnyReg(fs, d);
      CondJump(FreeExp(fs1, d1), TESTSET(NO_REG, if d1.k.VNonReloc? then d1.k.reg else 0, cond))
  }

  // `luaK_goiftrue`: go on only if the expression is true.
  function GoIfTrue(fs: Fs, d0: Desc): (Fs, Desc) {
    var d := DischargeVars(d0);
    var (fs1, pc) :=
      match d.k
      case VK(_) => (fs, [])
      case VKNum(_) => (fs, [])
      case VTrue => (fs, [])
      case VFalse => EmitJump(fs)
      case VJmp(pc) => (InvertJump(fs, pc), [pc])
      case _ => JumpOnCond(fs, d, false);
    (PatchToHere(fs1, d.t), Desc(d.k, [], d.f + pc))
  }

  function GoIfFalse(fs: Fs, d0: Desc): (Fs, Desc) {
    var d := DischargeVars(d0);
    var (fs1, pc) :=
      match d.k
      case VFalse => (fs, [])
      case VTrue => EmitJump(fs)
      case VJmp(pc) => (fs, [pc])
      case _ => JumpOnCond(fs, d, true);
    (PatchToHere(fs1, d.f), Desc(d.k, d.t + pc, []))
  }

  // ----- operators -----

  function CodeNot(fs: Fs, d0: Desc): (Fs, Desc) {
    var d := DischargeVars(d0);
    var (fs1, k1) :=
      match d.k
      case VFalse => (fs, VTrue)
      case VTrue => (fs, VFalse)
      case VK(_) => (fs, VFalse)
      case VKNum(_) => (fs, VFalse)
      case VJmp(pc) => (InvertJump(fs, pc), d.k)
      case _ => EmitNot(fs, d);
    (fs1.(code := Devalued(Devalued(fs1.code, d.t), d.f)), Desc(k1, d.f, d.t))
  }

  function EmitNot(fs: Fs, d: Desc): (Fs, Kind) {
    var (fs1, d1) := Discharge2AnyReg(fs, d);
    var fs2 := Emit(FreeExp(fs1, d1), NOT(0, if d1.k.VNonReloc? then d1.k.reg else 0));
    (fs2, VReloc(|fs2.code| - 1))
  }

  // `constfolding`
  function Folded(m: Sem, op: ArithOp, d1: Desc, d2: Desc): Option<real> {
    if !IsNumeral(d1) || !IsNumeral(d2) then None
    else if (op == DIV || op == MOD) && d2.k.nval == 0.0 then None
    else Some(m.num(op, d1.k.nval, d2.k.nval))
  }

  // Two operands are given up, the one above the other first.
  function FreeBoth(fs: Fs, d1: Desc, d2: Desc): Fs {
    if RKCode(Operand(d1)) > RKCode(Operand(d2)) then FreeExp(FreeExp(fs, d1), d2) else FreeExp(FreeExp(fs, d2), d1)
  }

  function CodeArith(m: Sem, fs: Fs, op: ArithOp, d1: Desc, d2: Desc): (Fs, Desc) {
    match Folded(m, op, d1, d2)
    case Some(n) => (fs, d1.(k := VKNum(n)))
    case None =>
      var (fs1, e2) := Exp2RK(fs, d2);
      var (fs2, e1) := Exp2RK(fs1, d1);
      var fs3 := Emit(FreeBoth(fs2, e1, e2), ARITH(0, op, Operand(e1), Operand(e2)));
      (fs3, Desc(VReloc(|fs3.code| - 1), [], []))
  }

  // The operand of MINUS must be a register, and is taken for one if it is not.
  function CodeMinus(m: Sem, fs: Fs, d: Desc): (Fs, Desc) {
    if IsNumeral(d) then (fs, d.(k := VKNum(m.num(UNM, d.k.nval, d.k.nval))))
    else
      var (fs1, d1) := Exp2RK(fs, d);
      var fs2 := Emit(FreeExp(fs1, d1), MINUS(0, RKCode(Operand(d1))));
      (fs2, Desc(VReloc(|fs2.code| - 1), [], []))
  }

  function CodeComp(fs: Fs, op: CompareOp, cond: bool, d1: Desc, d2: Desc): (Fs, Desc) {
    var (fs1, e1) := Exp2RK(fs, d1);
    var (fs2, e2) := Exp2RK(fs1, d2);
    var fs3 := FreeExp(FreeExp(fs2, e2), e1);
    var (o1, o2) := (Operand(e1), Operand(e2));
    var test := if !cond && op != EQ then COMPARE(op, true, o2, o1) else COMPARE(op, cond, o1, o2);
    var (fs4, js) := CondJump(fs3, test);
    (fs4, Desc(VJmp(|fs4.code| - 1), [], []))
  }

  function Prefix(m: Sem, fs: Fs, op: UnOp, d: Desc): (Fs, Desc) {
    match op
    case OpNot => CodeNot(fs, d)
    case OpMinus =>
      var (fs1, d1) := if d.k.VK? then Exp2AnyReg(fs, d) else (fs, d);
      CodeMinus(m, fs1, d1)
  }

  function Infix(fs: Fs, op: BinOp, d: Desc): (Fs, Desc) {
    match op
    case OpAnd => GoIfTrue(fs, d)
    case OpOr => GoIfFalse(fs, d)
    case OpArith(_) => if IsNumeral(d) then (fs, d) else Exp2RK(fs, d)
    case _ => Exp2RK(fs, d)
  }

  function Posfix(m: Sem, fs: Fs, op: BinOp, d1: Desc, d2: Desc): (Fs, Desc) {
    match op
    case OpAnd => var d := DischargeVars(d2); (fs, d.(f := d.f + d1.f))
    case OpOr => var d := DischargeVars(d2); (fs, d.(t := d.t + d1.t))
    case OpArith(o) => CodeArith(m, fs, o, d1, d2)
    case OpEq => CodeComp(fs, EQ, true, d1, d2)
    case OpNe => CodeComp(fs, EQ, false, d1, d2)
    case OpLt => CodeComp(fs, LT, true, d1, d2)
    case OpLe => CodeComp(fs, LE, true, d1, d2)
    case OpGt => CodeComp(fs, LT, false, d1, d2)
    case OpGe => CodeComp(fs, LE, false, d1, d2)
  }

  // The calls `subexpr` makes for an expression
  function Compile(m: Sem, fs: Fs, e: Expr): (Fs, Desc)
    decreases e
  {
    match e
    case Local(i) => (fs, Desc(VLocal(i), [], []))
    case True => (fs, Desc(VTrue, [], []))
    case False => (fs, Desc(VFalse, [], []))
    case Number(n) => (fs, Desc(VKNum(n), [], []))
    case String(s) => (AddK(fs, Str(s)), Desc(VK(IndexOf(fs.k, Str(s))), [], []))
    case Unary(op, a) =>
      var (fs1, d1) := Compile(m, fs, a);
      Prefix(m, fs1, op, d1)
    case Binary(op, a, b) =>
      var (fs1, d1) := Compile(m, fs, a);
      var (fs2, e1) := Infix(fs1, op, d1);
      var (fs3, d2) := Compile(m, fs2, b);
      Posfix(m, fs3, op, e1, d2)
  }
}
