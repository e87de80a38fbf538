/**
 What happens to the links of patch lists while code is generated in place: which instructions
 a step of the code generator changes, and which lists still run through the code after it.
 */
module LuaLinks {
  import opened LuaVm
  import opened LuaRun
  import G = LuaCodegen
  import opened LuaLists
  import opened LuaThreads
  import opened LuaOperators
  import LuaNot
  import LuaRegisters

  // The next instruction closes the last jumps of an expression.
  lemma NothingLeft(fs: G.Fs, f1: G.Fs, d: G.Desc, f2: G.Fs, d2: G.Desc, next: Instr)
    requires Leaves(fs, Bare(G.VTrue), f1, d) && Leaves(f1, d, f2, d2) && d2.t == [] && d2.f == [] && d2.k.VNonReloc?
    requires AllOpen(f2.code, f2.jpc) && !next.JMP?
    ensures forall j :: Open(G.Emit(f2, next).code, j) <==> Open(fs.code, j) && j !in fs.jpc
  {
    EmitOpen(f2, next);
    hide G.Emit;
    forall j ensures Mine(fs, Bare(G.VTrue), j) <==> j in fs.jpc {}
    forall j ensures Mine(f2, d2, j) <==> j in f2.jpc {}
  }

  // Registers do not matter to the links.
  lemma FreedHere(code: seq<Instr>, fs: G.Fs, d: G.Desc, code': seq<Instr>)
    requires LinksHere(code, G.FreeExp(fs, d), code')
    ensures LinksHere(code, fs, code')
  {
  }

  // Once no jump waits, the code has no links in it.
  lemma NoLinks(code: seq<Instr>, open: seq<Instr>)
    requires Same(code, open)
    ensures (forall j :: !Open(open, j)) ==> code == open
  {
    if forall j :: !Open(open, j) {
      forall i | 0 <= i < |code| ensures code[i] == open[i] { assert !Open(open, i); }
    }
  }

  // Links of jumps that belong to neither operand
  ghost predicate LinksBut(code: seq<Instr>, fs: G.Fs, d: G.Desc, d1: G.Desc, code': seq<Instr>) {
    forall j :: Open(fs.code, j) && !Mine(fs, d, j) && j !in d1.t && j !in d1.f && j < |code| ==>
      j < |code'| && code'[j] == code[j]
  }

  lemma SelfLinks(code: seq<Instr>, fs: G.Fs, d: G.Desc)
    ensures Links(code, fs, d, code)
  {
  }

  lemma BesidesApart(f1: G.Fs, d1: G.Desc, fs: G.Fs, d2: G.Desc)
    requires Tidy(f1, d1.(k := G.VTrue)) && Goes(f1, Bare(G.VTrue), fs, d2)
    ensures TidyList(fs, d1.t) && TidyList(fs, d1.f) && Tidy(fs, d2)
    ensures forall j :: j in d1.t || j in d1.f ==> !Mine(fs, d2, j)
  {
    assert forall j :: j in d1.t || j in d1.f ==> Open(f1.code, j) && !Mine(f1, Bare(G.VTrue), j);
    hide Once;
  }

  lemma LogicLists(fs: G.Fs, op: BinOp, d: G.Desc)
    requires Tidy(fs, d)
    ensures var d' := G.Infix(fs, op, d).1; (op == OpAnd ==> d'.t == []) && (op == OpOr ==> d'.f == [])
  {
    GoIfGoes(fs, d, true);
    GoIfGoes(fs, d, false);
    hide G.GoIfTrue, G.GoIfFalse, Tidy;
  }

  // As `Shows`, for an expression of which only the lists matter any more.
  ghost predicate Shows0(code: seq<Instr>, e: ExpDesc, d: G.Desc) {
    e.k == d.k && Threads(code, e.t, d.t) && Threads(code, e.f, d.f)
  }

  // The left operand's lists while the right operand is compiled
  lemma LeftThreads(c2: seq<Instr>, f2: G.Fs, r1: G.Desc, c3: seq<Instr>, e1: ExpDesc)
    requires Shows0(c2, e1, r1) && Tidy(f2, r1.(k := G.VTrue)) && Same(c2, f2.code) && Links(c2, f2, Bare(G.VTrue), c3)
    ensures Shows0(c3, e1, r1)
  {
    OthersThread(c2, f2, Bare(G.VTrue), c3, e1.t, r1.t);
    OthersThread(c2, f2, Bare(G.VTrue), c3, e1.f, r1.f);
  }

  lemma BinaryLinks(c0: seq<Instr>, fs: G.Fs, f1: G.Fs, d1: G.Desc, c2: seq<Instr>, f2: G.Fs, r1: G.Desc,
                    c3: seq<Instr>, f3: G.Fs, d2: G.Desc, c4: seq<Instr>)
    requires Links(c0, fs, Bare(G.VTrue), c2) && Leaves(fs, Bare(G.VTrue), f1, d1) &&
      Leaves(f1, d1, f2, r1.(k := G.VTrue))
    requires Links(c2, f2, Bare(G.VTrue), c3) && Leaves(f2, Bare(G.VTrue), f3, d2) && LinksBut(c3, f3, d2, r1, c4)
    ensures Links(c0, fs, Bare(G.VTrue), c4)
  {
  }

  function OperandOf(k: G.Kind): (o: RK)
    ensures o == G.Operand(Bare(k))
  {
    match k
    case VK(info) => K(info)
    case VNonReloc(reg) => R(reg)
    case _ => R(0)
  }

  predicate Numeral(e: ExpDesc) {
    e.k.VKNum? && e.t == NO_JUMP && e.f == NO_JUMP
  }

  lemma NoHead(code: seq<Instr>, head: int, js: seq<int>)
    requires Threads(code, head, js)
    ensures head == NO_JUMP <==> js == []
  {
  }

  lemma NumeralHeads(code: seq<Instr>, e: ExpDesc, d: G.Desc)
    requires Shows0(code, e, d)
    ensures Numeral(e) <==> G.IsNumeral(d)
  {
    NoHead(code, e.t, d.t);
    NoHead(code, e.f, d.f);
  }

  lemma BareOf(d: G.Desc)
    requires d.t == [] && d.f == []
    ensures d == Bare(d.k)
  {
  }

  lemma BareShown(code: seq<Instr>, e: ExpDesc, d: G.Desc)
    requires e.k == d.k && d.t == [] && d.f == [] && Free(d.k) && e.t == NO_JUMP && e.f == NO_JUMP
    ensures Shows(code, e, d)
  {
  }

  lemma BareShows(code: seq<Instr>, e: ExpDesc)
    requires !e.k.VJmp? && e.t == NO_JUMP && e.f == NO_JUMP
    ensures Shows(code, e, Bare(e.k))
  {
  }

  // Links through both operands
  lemma OperandLinks(c0: seq<Instr>, fs: G.Fs, d2: G.Desc, c1: seq<Instr>, f1: G.Fs, r2: G.Desc, d1: G.Desc,
      c2: seq<Instr>, f2: G.Fs, r1: G.Desc)
    requires Links(c0, fs, d2, c1) && Leaves(fs, d2, f1, r2) && Links(c1, f1, d1, c2) && d1 == Bare(d1.k) && Free(d1.k)
    requires r2 == Bare(r2.k) && Free(r2.k) && Leaves(f1, d1, f2, r1)
    ensures Links(c0, fs, d2, c2) && Leaves(fs, d2, f2, r1)
  {
  }

  lemma EmittedLinks(c0: seq<Instr>, fs: G.Fs, d: G.Desc, c1: seq<Instr>, f1: G.Fs, r: G.Desc, f2: G.Fs, c2: seq<Instr>)
    requires Links(c0, fs, d, c1) && Leaves(fs, d, f1, r) && LinksHere(c1, f2, c2) && f2 == f1.(freereg := f2.freereg)
    ensures Links(c0, fs, d, c2)
  {
  }

  lemma CompareShown(code: seq<Instr>, fs: G.Fs, i: Instr, j: int)
    requires var (f, js) := G.CondJump(fs, i); Threads(code, j, js) && |code| == |f.code|
    ensures Shows(code, ExpDesc(G.VJmp(|code| - 1), NO_JUMP, NO_JUMP), Bare(G.VJmp(|code| - 1)))
  {
    var js := G.CondJump(fs, i).1;
    assert js == [|code| - 1];
  }

  // The tests of the jumps `js` have lost their registers.
  ghost predicate DevaluedTo(code: seq<Instr>, c0: seq<Instr>, js: seq<int>) {
    |code| == |c0| && forall i :: 0 <= i < |code| ==> code[i] == G.DevaluedAt(c0, js, i)
  }

  lemma DevaluedRound(code: seq<Instr>, c0: seq<Instr>, js: seq<int>, p: nat, code': seq<Instr>)
    requires p < |js| && 0 <= js[p] < |code| && DevaluedTo(code, c0, js[..p])
    requires code' == if js[p] > 0 && code[js[p] - 1].TESTSET?
      then code[js[p] - 1 := G.PatchTest(code[js[p] - 1], NO_REG)] else code
    ensures DevaluedTo(code', c0, js[..p + 1])
    ensures forall i :: 0 <= i < |code| && code[i].JMP? ==> code'[i] == code[i]
  {
    assert js[..p + 1] == js[..p] + [js[p]];
  }

  lemma ShownLists(c0: seq<Instr>, fs: G.Fs, c1: seq<Instr>, e: ExpDesc, d: G.Desc)
    requires Shows(c0, e, d) && Tidy(fs, d) && |fs.code| == |c0| && LinksHere(c0, fs, c1)
    ensures Threads(c1, e.t, d.t) && Threads(c1, e.f, d.f)
  {
    ShownStill(c0, fs, c1, e, d);
  }

  lemma TurnedShown(c0: seq<Instr>, fs: G.Fs, d0: G.Desc, c1: seq<Instr>, f1: G.Fs, d1: G.Desc, c2: seq<Instr>,
      e: ExpDesc)
    requires LinksHere(c0, fs, c1) && Same(c0, fs.code)
    requires forall i :: 0 <= i < |c1| && c1[i].JMP? ==> i < |c2| && c2[i] == c1[i]
    ensures Links(c0, fs, d0, c2)
  {
    forall j | Open(fs.code, j) && !Mine(fs, d0, j) ensures j < |c2| && c2[j] == c0[j] { SameOpen(c0, fs.code, j); }
  }

  lemma {:induction false} AllJumpsOf(code: seq<Instr>, head: int, js: seq<int>)
    requires Threads(code, head, js)
    ensures forall i :: i in js ==> 0 <= i < |code| && code[i].JMP?
    decreases |js|
  {
    if js != [] {
      AllJumpsOf(code, Link(code, head), js[1..]);
      assert forall i :: i in js <==> i == js[0] || i in js[1..];
    }
  }

  lemma ListsShown(c1: seq<Instr>, fs: G.Fs, c2: seq<Instr>, e: ExpDesc, d: G.Desc)
    requires Threads(c1, e.t, d.t) && Threads(c1, e.f, d.f) && (d.k.VJmp? ==> Threads(c1, d.k.pc, [d.k.pc]))
    requires forall i :: 0 <= i < |c1| && c1[i].JMP? ==> i < |c2| && c2[i] == c1[i]
    ensures Shows(c2, ExpDesc(d.k, e.f, e.t), LuaNot.SwapDesc(d))
  {
    AllJumpsOf(c1, e.t, d.t);
    AllJumpsOf(c1, e.f, d.f);
    ThreadsFramed(c1, c2, e.t, d.t);
    ThreadsFramed(c1, c2, e.f, d.f);
    if d.k.VJmp? { ThreadsFramed(c1, c2, d.k.pc, [d.k.pc]); }
  }

  lemma KeptOpen(fs: G.Fs, d: G.Desc, cond: bool, code: seq<Instr>)
    requires Tidy(fs, d) && Same(code, fs.code)
    ensures forall j :: j in (if cond then d.f else d.t) ==> Open(fs.code, j) && j !in fs.jpc
  {
  }

  lemma BranchLinks(c0: seq<Instr>, fs: G.Fs, d: G.Desc, js: seq<int>, c1: seq<Instr>, f1: G.Fs, c2: seq<Instr>,
      c3: seq<Instr>)
    requires LinksHere(c0, fs, c1) && |c1| == |c2| == |f1.code| && |c0| == |fs.code| && Makes(fs, d, f1, js)
    requires forall j :: 0 <= j < |c2| && !Mine(f1, d.(k := G.VTrue), j) && j !in js ==> c2[j] == c1[j]
    requires LinksHere(c2, f1, c3)
    ensures Links(c0, fs, d, c3)
  {
    forall j | Open(fs.code, j) && !Mine(fs, d, j) ensures j < |c3| && c3[j] == c0[j] {
      assert Open(f1.code, j) && !Mine(f1, d.(k := G.VTrue), j) && j !in js;
    }
  }

  lemma NothingThreads(code: seq<Instr>)
    ensures Threads(code, NO_JUMP, [])
  {
  }

  lemma SomethingThreads(code: seq<Instr>, open: seq<Instr>, pc: int)
    requires Threads(code, pc, [pc])
    ensures 0 <= pc < |code| && code[pc].JMP?
  {
  }

  lemma ThreadsKept(code: seq<Instr>, code': seq<Instr>, pc: int)
    requires Threads(code, pc, [pc]) && forall j ::
      0 <= j < |code| && code[j].JMP? ==> j < |code'| && code'[j] == code[j]
    ensures Threads(code', pc, [pc])
  {
    ThreadsFramed(code, code', pc, [pc]);
  }

  lemma InvertLinks(code: seq<Instr>, fs: G.Fs, code': seq<Instr>)
    requires Same(code, fs.code) && forall j :: 0 <= j < |code| && code[j].JMP? ==> j < |code'| && code'[j] == code[j]
    ensures LinksHere(code, fs, code')
  {
    forall j | Open(fs.code, j) ensures j < |code'| && code'[j] == code[j] { SameOpen(code, fs.code, j); }
  }

  lemma TwiceDropped(c0: seq<Instr>, fs: G.Fs, c2: seq<Instr>)
    requires |c0| > 0 && |fs.code| == |c0| && !fs.code[|c0| - 1].JMP?
    requires LinksHere(c0[..|c0| - 1], fs.(code := fs.code[..|c0| - 1]), c2)
    ensures LinksHere(c0, fs, c2)
  {
    forall j | Open(fs.code, j) && j !in fs.jpc ensures j < |c2| && c2[j] == c0[j] {
      assert Open(fs.code[..|c0| - 1], j);
    }
  }

  lemma ShownHeads(code: seq<Instr>, e: ExpDesc, d: G.Desc)
    requires Shows(code, e, d)
    ensures e.k == d.k && ((e.t != NO_JUMP || e.f != NO_JUMP) <==> G.HasJumps(d))
  {
    NoHead(code, e.t, d.t);
    NoHead(code, e.f, d.f);
  }

  lemma SameMine(fs: G.Fs, d: G.Desc, fs': G.Fs, d': G.Desc)
    requires d' == G.DischargeVars(d)
    ensures forall j :: Mine(fs, d', j) <==> Mine(fs, d, j)
  {
  }

  lemma DroppedHere(code: seq<Instr>, fs: G.Fs, d: G.Desc, jpc: int)
    requires Tidy(fs, d) && d.k.VReloc? && Same(code, fs.code) && Threads(code, jpc, fs.jpc)
    ensures var c' := code[..|code| - 1];
      |code| > 0 && Same(c', fs.code[..|fs.code| - 1]) && Threads(c', jpc, fs.jpc) && LinksHere(code, fs, c')
  {
    var c' := code[..|code| - 1];
    forall j | Open(fs.code, j) ensures j < |c'| && c'[j] == code[j] {}
    ThreadsFramed(code, c', jpc, fs.jpc)
      by { forall j | j in fs.jpc ensures j < |c'| && c'[j] == code[j] { assert Open(fs.code, j); } }
  }

  // Putting a value into a register closes only jumps to here.
  lemma AnyRegOpen(fs: G.Fs, d: G.Desc)
    requires Tidy(fs, d) && !d.k.VJmp?
    ensures var f1 := G.Discharge2AnyReg(fs, d).0;
      forall j :: Open(fs.code, j) && j !in fs.jpc ==> Open(f1.code, j) && j !in f1.jpc
  {
  }

  lemma TwiceHere(c0: seq<Instr>, fs: G.Fs, d: G.Desc, c1: seq<Instr>, f1: G.Fs, d1: G.Desc, c2: seq<Instr>)
    requires Tidy(fs, d) && f1 == G.Discharge2AnyReg(fs, d).0 && d1 == G.Discharge2AnyReg(fs, d).1 && Same(c0, fs.code)
    requires LinksHere(c0, fs, c1) && LinksHere(c1, f1, c2) && !d.k.VJmp?
    ensures LinksHere(c0, fs, c2)
  {
    hide Same;
    AnyRegOpen(fs, d);
  }

  lemma SameLength(code: seq<Instr>, open: seq<Instr>)
    requires Same(code, open)
    ensures |code| == |open|
  {
  }

  ghost function Finish(fs: G.Fs, jmp: bool, e: G.Desc, reg: nat): G.Fs {
    if !G.NeedValue(fs.code, e.t) && !G.NeedValue(fs.code, e.f) then G.CloseLists(fs, e, reg, NO_JUMP, NO_JUMP)
    else var fs3 := LuaRegisters.WithLabels(fs, jmp, reg); G.CloseLists(fs3, e, reg, |fs3.code| - 2, |fs3.code| - 1)
  }

  // `exp2reg` once the value is in place
  ghost function Settle(fs: G.Fs, d: G.Desc, reg: nat): G.Fs {
    var e := LuaRegisters.Listed(d).(k := G.VNonReloc(reg));
    if !G.HasJumps(e) then fs else Finish(fs, d.k.VJmp?, e, reg)
  }

  // `codearith` on operands it cannot fold
  ghost function ArithCode(fs: G.Fs, op: ArithOp, d1: G.Desc, d2: G.Desc): (G.Fs, G.Desc) {
    var (f1, r2) := G.Exp2RK(fs, d2);
    var (f2, r1) := G.Exp2RK(f1, d1);
    var f3 := G.Emit(G.FreeBoth(f2, r1, r2), ARITH(0, op, G.Operand(r1), G.Operand(r2)));
    (f3, Bare(G.VReloc(|f3.code| - 1)))
  }

  lemma SettleIsExp2Reg(fs: G.Fs, d: G.Desc, reg: nat)
    ensures var (f1, d1) := G.Discharge2Reg(fs, d, reg);
      G.Exp2Reg(fs, d, reg) == (Settle(f1, d1, reg), LuaRegisters.Placed(reg))
  {
    hide G.Discharge2Reg, G.Exp2Reg, G.NeedValue, LuaRegisters.WithLabels;
    LuaRegisters.Exp2RegUnfolds(fs, d, reg);
  }

  lemma TidyHere(fs: G.Fs, d: G.Desc)
    requires Tidy(fs, d)
    ensures Once(fs.jpc) && AllOpen(fs.code, fs.jpc)
  {
  }

  lemma WithLabelsGoes(fs: G.Fs, d: G.Desc, jmp: bool, reg: nat)
    requires Tidy(fs, d) && Free(d.k)
    ensures Goes(fs, d, LuaRegisters.WithLabels(fs, jmp, reg), d)
    ensures |LuaRegisters.WithLabels(fs, jmp, reg).code| == |fs.code| + if jmp then 2 else 3
  {
    LabelsGo(fs, d, reg);
  }

  // Links do not hide the tests before the jumps.
  lemma SameNeeds(code: seq<Instr>, open: seq<Instr>, js: seq<int>)
    requires Same(code, open)
    ensures G.NeedValue(code, js) <==> G.NeedValue(open, js)
  {
    assert forall j :: ValueJump(code, j) <==> ValueJump(open, j);
    hide ValueJump;
    if G.NeedValue(code, js) {
      var j :| j in js && !ValueJump(code, j);
      assert !ValueJump(open, j);
    }
    if G.NeedValue(open, js) {
      var j :| j in js && !ValueJump(open, j);
      assert !ValueJump(code, j);
    }
  }

  lemma OpenJumps(code: seq<Instr>, open: seq<Instr>, js: seq<int>)
    requires Same(code, open) && AllOpen(open, js)
    ensures forall j :: j in js ==> 0 <= j < |code| && code[j].JMP?
  {
    forall j | j in js ensures 0 <= j < |code| && code[j].JMP? { SameOpen(code, open, j); }
  }

  lemma StillOpen(fs: G.Fs, d: G.Desc, js: seq<int>, final: int, reg: nat, pf: int)
    requires AllOpen(fs.code, js) && Apart(js, d.f)
    ensures AllOpen(G.Patched(fs.code, d.f, final, reg, pf), js)
  {
  }

  lemma LabelsOpen(fs: G.Fs, reg: nat, js: seq<int>)
    requires fs.jpc == [] && AllOpen(fs.code, js) && Once(js)
    ensures var f := G.Labels(fs, reg); f.jpc == [] && TidyList(f, js)
  {
    LuaRegisters.LabelsCode(fs, reg);
    hide G.Labels;
    forall j | j in js ensures Open(G.Labels(fs, reg).code, j) { assert Open(fs.code, j); }
  }

  function PatchedOne(code: seq<Instr>, l: int, vtarget: int, reg: int, dtarget: int): (c: seq<Instr>)
    requires 0 <= l < |code|
    ensures |c| == |code|
  {
    if l > 0 && code[l - 1].TESTSET?
    then code[l - 1 := G.PatchTest(code[l - 1], reg)][l := JMP(vtarget - (l + 1))]
    else code[l := JMP(dtarget - (l + 1))]
  }

  // The instruction is one of the jumps done, or the test of one.
  predicate PatchedBy(open: seq<Instr>, done: seq<int>, i: int)
    requires 0 <= i < |open|
  {
    (i in done && open[i].JMP?) || (i + 1 in done && open[i].TESTSET?)
  }

  // The first `p` jumps of the list have been patched.
  ghost predicate PatchedTo(code: seq<Instr>, c0: seq<Instr>, open: seq<Instr>, js: seq<int>, p: nat,
                            vtarget: int, reg: int, dtarget: int)
  {
    && Same(c0, open) && |code| == |c0| && p <= |js|
    && forall i :: 0 <= i < |code| ==>
         code[i] == if PatchedBy(open, js[..p], i) then G.PatchedAt(open, js, vtarget, reg, dtarget, i) else c0[i]
  }

  lemma PatchStep(c0: seq<Instr>, open: seq<Instr>, js: seq<int>, p: nat, code: seq<Instr>)
    requires Same(c0, open) && Once(js) && AllOpen(open, js) && p < |js| && |code| == |c0|
    ensures js[..p + 1] == js[..p] + [js[p]] && js[p] !in js[..p] && Open(open, js[p])
    ensures forall i :: 0 <= i < |open| ==> (PatchedBy(open, js[..p + 1], i) <==>
              PatchedBy(open, js[..p], i) || i == js[p] || (i + 1 == js[p] && open[i].TESTSET?))
  {
    assert js[..p + 1] == js[..p] + [js[p]];
    assert js[p] in js;
  }

  // The jump patched next, and its test, are as they were.
  lemma RoundJump(code: seq<Instr>, c0: seq<Instr>, open: seq<Instr>, js: seq<int>, p: nat, vtarget: int, reg: int,
      dtarget: int)
    requires PatchedTo(code, c0, open, js, p, vtarget, reg, dtarget) && p < |js| && Once(js) && AllOpen(open, js)
    ensures var l := js[p];
      0 <= l < |code| && code[l] == c0[l] && code[l].JMP? && (l > 0 ==> code[l - 1].TESTSET? == open[l - 1].TESTSET?)
    ensures var l := js[p]; l > 0 && open[l - 1].TESTSET? ==> code[l - 1] == open[l - 1]
  {
    PatchStep(c0, open, js, p, code);
    var l := js[p];
    if l > 0 && l - 1 in js[..p] { assert l - 1 in js; }
  }

  lemma RoundAt(code: seq<Instr>, c0: seq<Instr>, open: seq<Instr>, js: seq<int>, p: nat, vtarget: int, reg: int,
      dtarget: int, i: int)
    requires PatchedTo(code, c0, open, js, p, vtarget, reg, dtarget) && p < |js| && Once(js) && AllOpen(open, js)
    requires 0 <= i < |code| && 0 <= js[p] < |code|
    ensures PatchedOne(code, js[p], vtarget, reg, dtarget)[i] ==
      if PatchedBy(open, js[..p + 1], i) then G.PatchedAt(open, js, vtarget, reg, dtarget, i) else c0[i]
  {
    PatchStep(c0, open, js, p, code);
    RoundJump(code, c0, open, js, p, vtarget, reg, dtarget);
    assert js[p] in js;
  }

  lemma LaterJump(open: seq<Instr>, js: seq<int>, p: nat, j: int, code: seq<Instr>)
    requires Once(js) && AllOpen(open, js) && p < |js| && j in js[p + 1..]
    ensures j != js[p] && Open(open, j)
  {
    var x :| 0 <= x < |js[p + 1..]| && js[p + 1..][x] == j;
    assert js[p + 1 + x] == j;
  }

  lemma PatchRound(code: seq<Instr>, c0: seq<Instr>, open: seq<Instr>, js: seq<int>, p: nat, vtarget: int, reg: int,
      dtarget: int)
    requires PatchedTo(code, c0, open, js, p, vtarget, reg, dtarget) && p < |js| && Once(js) && AllOpen(open, js)
    requires Threads(code, js[p], js[p..])
    ensures 0 <= js[p] < |code|
    ensures var code' := PatchedOne(code, js[p], vtarget, reg, dtarget);
      PatchedTo(code', c0, open, js, p + 1, vtarget, reg, dtarget) && Threads(code', Link(code, js[p]), js[p + 1..])
  {
    PatchStep(c0, open, js, p, code);
    var l := js[p];
    assert js[p..][0] == l && js[p..][1..] == js[p + 1..];
    var code' := PatchedOne(code, l, vtarget, reg, dtarget);
    RoundJump(code, c0, open, js, p, vtarget, reg, dtarget);
    forall j | j in js[p + 1..] && 0 <= j < |code| ensures code'[j] == code[j] { LaterJump(open, js, p, j, code); }
    ThreadsFramed(code, code', Link(code, l), js[p + 1..]);
    hide PatchedBy, PatchedOne, Threads;
    forall i | 0 <= i < |code'|
      ensures code'[i] == if PatchedBy(open, js[..p + 1], i) then G.PatchedAt(open, js, vtarget, reg, dtarget, i)
        else c0[i]
    {
      RoundAt(code, c0, open, js, p, vtarget, reg, dtarget, i);
    }
  }
}
