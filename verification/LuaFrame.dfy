/**
 What compiling an expression leaves alone: the code before it, except for the jumps that
 were waiting for its first instruction; and how the primitive changes of the code affect
 its runs.
 */
module LuaFrame {
  import opened LuaVm
  import opened LuaRun
  import opened LuaCodegen
  import opened Wrappers

  // Where the code of an expression begins: the code and constants before it, the jumps to
  // its first instruction, and the registers in use.
  datatype Ctx = Ctx(code: seq<Instr>, k: seq<Value>, here: seq<int>, base: nat)

  // The jumps of a list wait for their target; those with a value for a register as well.
  ghost predicate Waiting(code: seq<Instr>, js: seq<int>) {
    && (forall j :: j in js ==> 0 <= j < |code| && code[j] == JMP(NO_JUMP))
    && (forall j :: j in js && ValueJump(code, j) ==> code[j - 1].a == NO_REG)
  }

  ghost predicate Disjoint(a: seq<int>, b: seq<int>) {
    forall j :: j in a ==> j !in b
  }

  // Only a jump follows a test.
  predicate TestsJump(code: seq<Instr>) {
    forall i :: 0 <= i < |code| - 1 && IsTest(code[i]) ==> code[i + 1].JMP?
  }

  ghost predicate CtxOk(c: Ctx) {
    EndsWell(c.code) && Waiting(c.code, c.here) && ConstsOk(c.code, c.k)
  }

  // The lists of a state under construction
  ghost predicate ListsOk(st: State) {
    && Waiting(st.code, st.here) && Waiting(st.code, st.tt) && Waiting(st.code, st.ff)
    && Disjoint(st.here, st.tt) && Disjoint(st.here, st.ff) && Disjoint(st.tt, st.ff)
  }

  ghost predicate Within(c: Ctx, js: seq<int>) {
    forall j :: j in js ==> j >= |c.code| || j in c.here
  }

  predicate Untouched(c: Ctx, code: seq<Instr>, i: int)
    requires 0 <= i < |c.code| <= |code|
  {
    || code[i] == c.code[i]
    || (i + 1 in c.here && Retested(c.code[i], code[i]))
  }

  // A jump to the expression waits on one of its lists, or has its target after its start.
  predicate Onward(c: Ctx, st: State, j: int)
    requires 0 <= j < |st.code|
  {
    st.code[j].JMP? && (j in st.here || j in st.tt || j in st.ff || j + 1 + st.code[j].sbx >= |c.code|)
  }

  // The code before the expression has changed only in the jumps to it.
  ghost predicate Frame(c: Ctx, st: State) {
    && |c.code| <= |st.code|
    && (forall i :: 0 <= i < |c.code| && i !in c.here ==> Untouched(c, st.code, i))
    && (forall i :: 0 <= i < |c.code| && i in c.here ==> Onward(c, st, i))
    && Within(c, st.here) && Within(c, st.tt) && Within(c, st.ff)
  }

  // Where a run of the expression may begin: its start, or a jump that leads there.
  ghost predicate IsEntry(c: Ctx, at: int) {
    at == |c.code| || at in c.here
  }

  // A run of the code of the expression
  function RunFrom(m: Sem, k: seq<Value>, c: Ctx, st: State, at: int, r: Regs): Out {
    Enter(m, k, st, |c.code|, at, r)
  }

  lemma EntryContinues(m: Sem, k: seq<Value>, k': seq<Value>, c: Ctx, st: State, st': State, at: int, r: Regs)
    requires Continues(st, st', 0) && Extends(k, k', st) && Waiting(st.code, st.here) && CtxOk(c) && Frame(c, st) &&
      IsEntry(c, at)
    requires RunFrom(m, k, c, st, at, r) != Stuck
    ensures RunFrom(m, k', c, st', at, r) == Then(m, k', RunFrom(m, k, c, st, at, r), st', |st.code|)
  {
    if at != |c.code| {
      assert Onward(c, st, at);
      if at !in st.here {
        assert SameJump(st, st', at);
        assert at > 0 ==>
          SameInstr(st.code[at - 1], st'.code[at - 1]) || (st.code[at - 1].JMP? && st'.code[at - 1].JMP?);
      } else {
        assert ValueJump(st.code, at) ==> st.code[at - 1].a == NO_REG;
      }
    }
    assert at != |c.code| ==> SameEntry(st, st', 0, at);
    hide Continues, Extends, Waiting, Frame, CtxOk, SameEntry;
    EnterContinues(m, k, k', st, st', 0, |c.code|, at, r);
  }

  // ----- patching the jumps to here -----

  function Discharged(st: State): State {
    st.(code := Patched(st.code, st.here, |st.code|, NO_REG, |st.code|), here := [])
  }

  lemma DischargedOk(st: State)
    requires ListsOk(st)
    ensures ListsOk(Discharged(st)) && Continues(st, Discharged(st), 0)
    ensures EndsWell(st.code) ==> EndsWell(Discharged(st).code)
    ensures TestsJump(st.code) ==> TestsJump(Discharged(st).code)
  {
    var st' := Discharged(st);
    DischargedCode(st);
    hide Discharged, Patched;
    forall j | j in st.tt || j in st.ff ensures st'.code[j] == st.code[j] && SameHeld(st.code, st'.code, j) {
    }
  }

  lemma DischargedCode(st: State)
    requires ListsOk(st)
    ensures var st' := Discharged(st);
      && |st'.code| == |st.code| && st'.here == [] && st'.tt == st.tt && st'.ff == st.ff
      && (forall i :: 0 <= i < |st.code| && i in st.here ==> st'.code[i] == JMP(|st.code| - (i + 1)))
      && (forall i :: 0 <= i < |st.code| && i !in st.here ==>
            st'.code[i] == if i + 1 in st.here && st.code[i].TESTSET? then TEST(st.code[i].b, st.code[i].c)
              else st.code[i])
  {
  }

  lemma DischargedFrame(c: Ctx, st: State)
    requires ListsOk(st) && CtxOk(c) && Frame(c, st)
    ensures Frame(c, Discharged(st))
  {
    var st' := Discharged(st);
    var n := |c.code|;
    forall i | 0 <= i < n && i !in c.here ensures Untouched(c, st'.code, i) {
      if i + 1 in st.here && st.code[i].TESTSET? {
        assert i + 1 == n || i + 1 in c.here;
        assert i + 1 in c.here;
      }
    }
  }

  function Forgotten(o: Out, n: int): Out {
    if o.Fall? then Fall(o.r, n, None) else o
  }

  // Patching the jumps to here does not change a run, but for what they carry.
  lemma DischargedRun(m: Sem, k: seq<Value>, c: Ctx, st: State, at: int, r: Regs)
    requires ListsOk(st) && EndsWell(st.code) && ConstsOk(st.code, k) && CtxOk(c) && Frame(c, st) && IsEntry(c, at)
    requires RunFrom(m, k, c, st, at, r) != Stuck
    ensures RunFrom(m, k, c, Discharged(st), at, r) == Forgotten(RunFrom(m, k, c, st, at, r), |st.code|)
  {
    DischargedOk(st);
    var o, st' := RunFrom(m, k, c, st, at, r), Discharged(st);
    EnterEnds(m, k, st, |c.code|, at, r);
    assert Extends(k, k, st) && Waiting(st.code, st.here);
    hide ListsOk, Continues, Extends, Discharged, ConstsOk, CtxOk, Frame, Enter, Waiting;
    EntryContinues(m, k, k, c, st, st', at, r);
    if o.Fall? { DischargedEnter(m, k, st, o.at, o.r); }
  }

  lemma DischargedEnter(m: Sem, k: seq<Value>, st: State, at: int, r: Regs)
    requires ListsOk(st) && (at == |st.code| || at in st.here)
    ensures Enter(m, k, Discharged(st), |st.code|, at, r) == Fall(r, |st.code|, None)
  {
    var st' := Discharged(st);
    DischargedCode(st);
    hide Discharged;
    if at in st.here {
      assert DestOf(st', at) == To(|st.code|) && Jumping(st'.code, at, r) == r;
      assert Run(m, k, st', |st.code|, r) == Fall(r, |st.code|, None);
    }
  }

  // ----- appending -----

  function Appended(st: State, i: Instr): State {
    st.(code := st.code + [i])
  }

  lemma AppendedOk(st: State, i: Instr)
    requires ListsOk(st) && st.here == [] && EndsWell(st.code) && !i.JMP?
    ensures ListsOk(Appended(st, i)) && Continues(st, Appended(st, i), 0)
    ensures !IsTest(i) ==> EndsWell(Appended(st, i).code)
    ensures TestsJump(st.code) ==> TestsJump(Appended(st, i).code)
  {
    var st' := Appended(st, i);
    forall j | 0 <= j < |st.code| && st.code[j].JMP?
      ensures SameJump(st, st', j) && Guarded(st'.code, j) == Guarded(st.code, j)
    {
    }
  }

  lemma AppendedFrame(c: Ctx, st: State, i: Instr)
    requires ListsOk(st) && Frame(c, st) && st.here == []
    ensures Frame(c, Appended(st, i))
  {
    var st' := Appended(st, i);
    forall i | 0 <= i < |c.code| && i !in c.here ensures Untouched(c, st'.code, i) {
      assert Untouched(c, st.code, i);
    }
  }

  // A new jump, with the jumps to it, goes onto one of the lists.
  function Jumped(st: State, d: Dest): State {
    var js := [|st.code|] + st.here;
    var st' := st.(code := st.code + [JMP(NO_JUMP)], here := []);
    match d
    case ToTrue => st'.(tt := st.tt + js)
    case ToFalse => st'.(ff := st.ff + js)
    case _ => st'.(here := js)
  }

  lemma JumpedOk(st: State, d: Dest)
    requires ListsOk(st) && (EndsWell(st.code) || st.here == [])
    requires |st.code| > 0 && st.code[|st.code| - 1].TESTSET? ==> st.code[|st.code| - 1].a == NO_REG
    ensures ListsOk(Jumped(st, d)) && EndsWell(Jumped(st, d).code)
    ensures TestsJump(st.code) ==> TestsJump(Jumped(st, d).code)
  {
    var st' := Jumped(st, d);
    var n := |st.code|;
    assert forall j :: j in [n] + st.here <==> j == n || j in st.here;
    assert forall j :: 0 <= j <= n ==> (ValueJump(st'.code, j) <==> ValueJump(st.code, j));
  }

  lemma JumpedContinues(st: State, d: Dest)
    requires ListsOk(st) && EndsWell(st.code)
    ensures Continues(st, Jumped(st, d), 0)
  {
    var st' := Jumped(st, d);
    var n := |st.code|;
    assert forall j :: j in [n] + st.here <==> j == n || j in st.here;
    forall j | 0 <= j < n && st.code[j].JMP? && j !in st.here ensures SameJump(st, st', j) {
    }
    assert forall j :: 0 <= j <= n ==> (ValueJump(st'.code, j) <==> ValueJump(st.code, j));
  }

  lemma JumpedFrame(c: Ctx, st: State, d: Dest)
    requires ListsOk(st) && Frame(c, st)
    ensures Frame(c, Jumped(st, d))
  {
    var st' := Jumped(st, d);
    var n := |st.code|;
    assert forall j :: j in [n] + st.here <==> j == n || j in st.here;
    forall i | 0 <= i < |c.code| && i !in c.here ensures Untouched(c, st'.code, i) {
      assert Untouched(c, st.code, i);
    }
  }

  // ----- lists that end -----

  // The jumps of one list now go to the next instruction.
  function Closed(st: State, when: bool): State {
    if when then st.(here := st.here + st.tt, tt := []) else st.(here := st.here + st.ff, ff := [])
  }

  function ClosedOut(o: Out, when: bool): Out {
    if o.Leave? && o.when == when then Fall(o.r, o.at, o.w) else o
  }

  lemma ClosedOk(c: Ctx, st: State, when: bool)
    requires ListsOk(st) && Frame(c, st)
    ensures ListsOk(Closed(st, when)) && Frame(c, Closed(st, when))
  {
  }

  lemma ClosedEnter(m: Sem, k: seq<Value>, c: Ctx, st: State, when: bool, at: int, r: Regs)
    requires Disjoint(st.tt, st.ff)
    ensures RunFrom(m, k, c, Closed(st, when), at, r) == ClosedOut(RunFrom(m, k, c, st, at, r), when)
  {
    if at == |c.code| {
      ClosedRun(m, k, st, when, at, r);
    } else if 0 <= at < |st.code| && st.code[at].JMP? {
      ClosedJump(m, k, st, when, at, Jumping(st.code, at, r));
    }
  }

  lemma {:induction false} ClosedRun(m: Sem, k: seq<Value>, st: State, when: bool, pc: int, r: Regs)
    requires Disjoint(st.tt, st.ff)
    ensures Run(m, k, Closed(st, when), pc, r) == ClosedOut(Run(m, k, st, pc, r), when)
    decreases |st.code| - pc, 1
  {
    if 0 <= pc < |st.code| {
      var i := st.code[pc];
      hide Computed, Taken, DestOf;
      if i.JMP? {
        ClosedJump(m, k, st, when, pc, r);
      } else if IsTest(i) {
        match Taken(m, k, i, r) {
          case None =>
          case Some(false) => ClosedRun(m, k, st, when, pc + 2, r);
          case Some(true) =>
            if pc + 1 < |st.code| && st.code[pc + 1].JMP? {
              ClosedJump(m, k, st, when, pc + 1, if i.TESTSET? then SetReg(r, i.a, Get(r, i.b)) else r);
            }
        }
      } else {
        match Computed(m, k, i, r) {
          case Error =>
          case Ok(v) => ClosedRun(m, k, st, when, if i.LOADBOOL? && i.skip then pc + 2 else pc + 1, r[i.a := v]);
        }
      }
    }
  }

  lemma {:induction false} ClosedJump(m: Sem, k: seq<Value>, st: State, when: bool, j: int, r: Regs)
    requires Disjoint(st.tt, st.ff) && 0 <= j < |st.code| && st.code[j].JMP?
    ensures Jump(m, k, Closed(st, when), j, r) == ClosedOut(Jump(m, k, st, j, r), when)
    decreases |st.code| - j, 0
  {
    match DestOf(st, j) {
      case To(pc) => ClosedRun(m, k, st, when, pc, r);
      case _ =>
    }
  }

  // ----- lists that lose their values -----

  function Swapped(st: State): State {
    State(Devalued(Devalued(st.code, st.tt), st.ff), st.here, st.ff, st.tt)
  }

  function NotOut(o: Out): Out {
    if o.Leave? then Leave(!o.when, o.at, None, o.r) else o
  }

  lemma SwappedCode(st: State)
    requires ListsOk(st)
    ensures |Swapped(st).code| == |st.code|
    ensures forall i :: 0 <= i < |st.code| ==> SameInstr(st.code[i], Swapped(st).code[i])
    ensures forall i :: 0 <= i < |st.code| && st.code[i].JMP? ==> Swapped(st).code[i] == st.code[i]
    ensures forall j :: j in st.tt || j in st.ff ==> !ValueJump(Swapped(st).code, j)
    ensures forall j ::
      ValueJump(Swapped(st).code, j) ==> ValueJump(st.code, j) && Swapped(st).code[j - 1] == st.code[j - 1]
    ensures forall i :: 0 <= i < |st.code| && i + 1 !in st.tt && i + 1 !in st.ff ==> Swapped(st).code[i] == st.code[i]
  {
    var c1 := Devalued(st.code, st.tt);
    forall i | 0 <= i < |st.code| && st.code[i].TESTSET? && i + 1 in st.tt ensures st.code[i].a == NO_REG {
      assert ValueJump(st.code, i + 1);
    }
    forall i | 0 <= i < |st.code| && st.code[i].TESTSET? && i + 1 in st.ff ensures st.code[i].a == NO_REG {
      assert ValueJump(st.code, i + 1);
    }
  }

  lemma SwappedOk(st: State)
    requires ListsOk(st)
    ensures ListsOk(Swapped(st))
    ensures EndsWell(st.code) ==> EndsWell(Swapped(st).code)
    ensures TestsJump(st.code) ==> TestsJump(Swapped(st).code)
  {
    SwappedCode(st);
  }

  lemma SwappedFrame(c: Ctx, st: State)
    requires ListsOk(st) && Frame(c, st) && CtxOk(c)
    ensures Frame(c, Swapped(st))
  {
    var st' := Swapped(st);
    SwappedCode(st);
    forall i | 0 <= i < |c.code| && i !in c.here ensures Untouched(c, st'.code, i) {
      assert Untouched(c, st.code, i);
      assert i + 1 in st.tt || i + 1 in st.ff ==> i + 1 == |c.code| || i + 1 in c.here;
    }
  }

  lemma {:induction false} SwappedRun(m: Sem, k: seq<Value>, st: State, pc: int, r: Regs)
    requires ListsOk(st)
    ensures Run(m, k, Swapped(st), pc, r) == NotOut(Run(m, k, st, pc, r))
    decreases |st.code| - pc, 1
  {
    hide Computed, DestOf, ListsOk, Swapped, Get, Jump, Const;
    SwappedCode(st);
    if 0 <= pc < |st.code| {
      var i := st.code[pc];
      if i.JMP? {
        SwappedJump(m, k, st, pc, r);
      } else if IsTest(i) {
        match Taken(m, k, i, r) {
          case None =>
          case Some(false) => SwappedRun(m, k, st, pc + 2, r);
          case Some(true) =>
            if pc + 1 < |st.code| && st.code[pc + 1].JMP? {
              SwappedJump(m, k, st, pc + 1, if i.TESTSET? then SetReg(r, i.a, Get(r, i.b)) else r);
            }
        }
      } else {
        match Computed(m, k, i, r) {
          case Error =>
          case Ok(v) => SwappedRun(m, k, st, if i.LOADBOOL? && i.skip then pc + 2 else pc + 1, r[i.a := v]);
        }
      }
    }
  }

  lemma {:induction false} SwappedJump(m: Sem, k: seq<Value>, st: State, j: int, r: Regs)
    requires ListsOk(st) && 0 <= j < |st.code| && st.code[j].JMP?
    ensures |Swapped(st).code| == |st.code| && Swapped(st).code[j].JMP?
    ensures Jump(m, k, Swapped(st), j, r) == NotOut(Jump(m, k, st, j, r))
    decreases |st.code| - j, 0
  {
    SwappedCode(st);
    match DestOf(st, j) {
      case To(pc) => SwappedRun(m, k, st, pc, r);
      case _ =>
    }
  }

  lemma SwappedEnter(m: Sem, k: seq<Value>, c: Ctx, st: State, at: int, r: Regs)
    requires ListsOk(st)
    ensures RunFrom(m, k, c, Swapped(st), at, r) == NotOut(RunFrom(m, k, c, st, at, r))
  {
    SwappedCode(st);
    if at == |c.code| {
      SwappedRun(m, k, st, at, r);
    } else if 0 <= at < |st.code| {
      hide Swapped;
      assert Jumping(Swapped(st).code, at, r) == Jumping(st.code, at, r);
      if st.code[at].JMP? { SwappedJump(m, k, st, at, Jumping(st.code, at, r)); }
    }
  }

  // ----- the value of the lists in a register -----

  // `patchlistaux` on both lists at the end of an expression, see `exp2reg`.
  function Settled(st: State, reg: nat, pf: int, pt: int): State {
    var final := |st.code|;
    State(Patched(Patched(st.code, st.ff, final, reg, pf), st.tt, final, reg, pt), st.here, [], [])
  }

  // Where the jumps without a value go: to the loads at the end of the code.
  ghost predicate LabelsOk(st: State, reg: nat, pf: int, pt: int) {
    var n := |st.code|;
    || ((forall j :: j in st.tt || j in st.ff ==> ValueJump(st.code, j)))
    || (n >= 2 && pf == n - 2 && pt == n - 1
        && st.code[pf] == LOADBOOL(reg, false, true) && st.code[pt] == LOADBOOL(reg, true, false))
  }

  function SettledAt(st: State, reg: nat, pf: int, pt: int, i: int): Instr
    requires 0 <= i < |st.code|
  {
    if i in st.tt || i in st.ff
    then JMP((if ValueJump(st.code, i) then |st.code| else if i in st.tt then pt else pf) - (i + 1))
    else if st.code[i].TESTSET? && (i + 1 in st.tt || i + 1 in st.ff) then PatchTest(st.code[i], reg)
    else st.code[i]
  }

  lemma SettledCode(st: State, reg: nat, pf: int, pt: int)
    requires ListsOk(st)
    ensures |Settled(st, reg, pf, pt).code| == |st.code|
    ensures forall i :: 0 <= i < |st.code| ==> Settled(st, reg, pf, pt).code[i] == SettledAt(st, reg, pf, pt, i)
  {
    var c1 := Patched(st.code, st.ff, |st.code|, reg, pf);
    forall i | 0 <= i <= |st.code| && i !in st.ff ensures ValueJump(c1, i) == ValueJump(st.code, i) {
    }
  }

  lemma SettledOk(st: State, reg: nat, pf: int, pt: int)
    requires ListsOk(st)
    ensures ListsOk(Settled(st, reg, pf, pt))
    ensures EndsWell(st.code) ==> EndsWell(Settled(st, reg, pf, pt).code)
    ensures TestsJump(st.code) ==> TestsJump(Settled(st, reg, pf, pt).code)
  {
    var st' := Settled(st, reg, pf, pt);
    SettledCode(st, reg, pf, pt);
    hide Settled;
    assert EndsWell(st.code) ==> EndsWell(st'.code);
    assert Waiting(st'.code, st'.here);
  }

  lemma SettledFrame(c: Ctx, st: State, reg: nat, pf: int, pt: int)
    requires ListsOk(st) && Frame(c, st) && CtxOk(c)
    requires forall j :: j in st.tt || j in st.ff ==> ValueJump(st.code, j) || (pf >= |c.code| && pt >= |c.code|)
    ensures Frame(c, Settled(st, reg, pf, pt))
  {
    var st' := Settled(st, reg, pf, pt);
    SettledCode(st, reg, pf, pt);
    hide Settled;
    forall i | 0 <= i < |c.code| && i !in c.here ensures Untouched(c, st'.code, i) {
      assert Untouched(c, st.code, i);
      assert (i + 1 in st.tt || i + 1 in st.ff) && st.code[i].TESTSET? ==> ValueJump(st.code, i + 1);
    }
  }

  function SettledDest(st: State, pf: int, pt: int, j: int): Dest
    requires 0 <= j < |st.code| && st.code[j].JMP?
  {
    match DestOf(st, j)
    case ToTrue => To(if ValueJump(st.code, j) then |st.code| else pt)
    case ToFalse => To(if ValueJump(st.code, j) then |st.code| else pf)
    case d => d
  }

  lemma SettledJumps(st: State, reg: nat, pf: int, pt: int)
    requires ListsOk(st) && LabelsOk(st, reg, pf, pt)
    ensures |Settled(st, reg, pf, pt).code| == |st.code|
    ensures forall j :: 0 <= j < |st.code| && st.code[j].JMP? ==>
              Settled(st, reg, pf, pt).code[j].JMP? && DestOf(Settled(st, reg, pf, pt), j) == SettledDest(st, pf, pt, j)
  {
    var st' := Settled(st, reg, pf, pt);
    SettledCode(st, reg, pf, pt);
    hide Settled;
    forall j | 0 <= j < |st.code| && st.code[j].JMP?
      ensures st'.code[j].JMP? && DestOf(st', j) == SettledDest(st, pf, pt, j)
    {
      assert st'.code[j] == SettledAt(st, reg, pf, pt, j);
    }
  }

  ghost predicate SameBut(r: Regs, r': Regs, reg: int) {
    forall i: nat :: i != reg ==> Get(r', i) == Get(r, i)
  }

  // A run that left through a list now ends with the value in the register.
  ghost predicate SettledOut(o: Out, o': Out, reg: nat) {
    if o.Leave? then o'.Fall? && o'.w == None && Get(o'.r, reg) == LeftWith(o) && SameBut(o.r, o'.r, reg) else o' == o
  }

  // What a run leaves with: the value its jump carries, or what the list stands for.
  function LeftWith(o: Out): Value
    requires o.Leave?
  {
    if o.w.Some? then o.w.value else Bool(o.when)
  }

  // What a patched test leaves in the registers when it jumps.
  ghost predicate Delivered(st: State, reg: nat, j: int, r: Regs, r': Regs) {
    if ValueJump(st.code, j) && (j in st.tt || j in st.ff)
    then Get(r', reg) == Get(r, st.code[j - 1].b) && SameBut(r, r', reg)
    else r' == r
  }

  lemma TestDelivers(m: Sem, k: seq<Value>, st: State, reg: nat, pf: int, pt: int, pc: int, r: Regs)
    requires ListsOk(st) && 0 <= pc && pc + 1 < |st.code| && IsTest(st.code[pc]) && st.code[pc + 1].JMP?
    ensures |Settled(st, reg, pf, pt).code| == |st.code|
    ensures var i' := Settled(st, reg, pf, pt).code[pc];
      IsTest(i') && Taken(m, k, i', r) == Taken(m, k, st.code[pc], r) &&
      Delivered(st, reg, pc + 1, AfterTest(st.code[pc], r), AfterTest(i', r))
  {
    SettledCode(st, reg, pf, pt);
    hide Settled;
    assert Settled(st, reg, pf, pt).code[pc] == SettledAt(st, reg, pf, pt, pc);
    assert ValueJump(st.code, pc + 1) <==> st.code[pc].TESTSET?;
  }

  lemma {:induction false} SettledRun(m: Sem, k: seq<Value>, st: State, reg: nat, pf: int, pt: int, pc: int, r: Regs)
    requires ListsOk(st) && LabelsOk(st, reg, pf, pt) && Run(m, k, st, pc, r) != Stuck
    ensures SettledOut(Run(m, k, st, pc, r), Run(m, k, Settled(st, reg, pf, pt), pc, r), reg)
    decreases |st.code| - pc, 1
  {
    SettledCode(st, reg, pf, pt);
    if 0 <= pc < |st.code| {
      var i := st.code[pc];
      assert Settled(st, reg, pf, pt).code[pc] == SettledAt(st, reg, pf, pt, pc);
      hide Computed, DestOf, Settled, LabelsOk, ListsOk, Delivered, SettledOut, Taken;
      if i.JMP? {
        assert Delivered(st, reg, pc, r, r);
        SettledJump(m, k, st, reg, pf, pt, pc, r, r);
      } else if IsTest(i) {
        match Taken(m, k, i, r) {
          case None => TestStays(m, k, st, reg, pf, pt, pc, r);
          case Some(false) => TestStays(m, k, st, reg, pf, pt, pc, r); SettledRun(m, k, st, reg, pf, pt, pc + 2, r);
          case Some(true) =>
            TestDelivers(m, k, st, reg, pf, pt, pc, r);
            var i' := Settled(st, reg, pf, pt).code[pc];
            SettledJump(m, k, st, reg, pf, pt, pc + 1, AfterTest(i, r), AfterTest(i', r));
        }
      } else {
        match Computed(m, k, i, r) {
          case Error =>
          case Ok(v) =>
            SettledRun(m, k, st, reg, pf, pt, if i.LOADBOOL? && i.skip then pc + 2 else pc + 1, r[i.a := v]);
        }
      }
    }
  }

  lemma TestStays(m: Sem, k: seq<Value>, st: State, reg: nat, pf: int, pt: int, pc: int, r: Regs)
    requires 0 <= pc < |st.code| == |Settled(st, reg, pf, pt).code| && IsTest(st.code[pc])
    requires Settled(st, reg, pf, pt).code[pc] == SettledAt(st, reg, pf, pt, pc) && ListsOk(st)
    ensures var i' := Settled(st, reg, pf, pt).code[pc];
      IsTest(i') && Taken(m, k, i', r) == Taken(m, k, st.code[pc], r)
  {
    hide Settled;
  }

  // The jump with the register written, if its test writes it
  lemma {:induction false} SettledJump(m: Sem, k: seq<Value>, st: State, reg: nat, pf: int, pt: int, j: int, r: Regs,
      r': Regs)
    requires ListsOk(st) && LabelsOk(st, reg, pf, pt) && 0 <= j < |st.code| && st.code[j].JMP?
    requires Jump(m, k, st, j, r) != Stuck && Delivered(st, reg, j, r, r')
    ensures |Settled(st, reg, pf, pt).code| == |st.code| && Settled(st, reg, pf, pt).code[j].JMP?
    ensures SettledOut(Jump(m, k, st, j, r), Jump(m, k, Settled(st, reg, pf, pt), j, r'), reg)
    decreases |st.code| - j, 0
  {
    SettledJumps(st, reg, pf, pt);
    var st' := Settled(st, reg, pf, pt);
    match DestOf(st, j) {
      case To(pc) =>
        hide Settled, LabelsOk;
        SettledRun(m, k, st, reg, pf, pt, pc, r);
      case ToTrue => LabelRuns(m, k, st, reg, pf, pt, r); hide Settled;
      case ToFalse => LabelRuns(m, k, st, reg, pf, pt, r); hide Settled;
      case _ =>
    }
  }

  lemma SettledEnter(m: Sem, k: seq<Value>, c: Ctx, st: State, reg: nat, pf: int, pt: int, at: int, r: Regs)
    requires ListsOk(st) && LabelsOk(st, reg, pf, pt) && RunFrom(m, k, c, st, at, r) != Stuck
    ensures SettledOut(RunFrom(m, k, c, st, at, r), RunFrom(m, k, c, Settled(st, reg, pf, pt), at, r), reg)
  {
    if at == |c.code| {
      SettledRun(m, k, st, reg, pf, pt, at, r);
    } else {
      SettledCode(st, reg, pf, pt);
      hide Settled, LabelsOk, ListsOk;
      var st' := Settled(st, reg, pf, pt);
      if at > 0 { JumpDelivers(st, reg, pf, pt, at, r); } else { assert Delivered(st, reg, at, r, r); }
      SettledJump(m, k, st, reg, pf, pt, at, Jumping(st.code, at, r), Jumping(st'.code, at, r));
    }
  }

  lemma JumpDelivers(st: State, reg: nat, pf: int, pt: int, j: int, r: Regs)
    requires ListsOk(st) && 0 < j < |st.code| && st.code[j].JMP?
    ensures Delivered(st, reg, j, Jumping(st.code, j, r), Jumping(Settled(st, reg, pf, pt).code, j, r))
  {
    SettledCode(st, reg, pf, pt);
    hide Settled;
    assert Settled(st, reg, pf, pt).code[j - 1] == SettledAt(st, reg, pf, pt, j - 1);
  }

  lemma LabelRuns(m: Sem, k: seq<Value>, st: State, reg: nat, pf: int, pt: int, r: Regs)
    requires ListsOk(st) && LabelsOk(st, reg, pf, pt)
    ensures (exists j :: (j in st.tt || j in st.ff) && !ValueJump(st.code, j)) ==>
              Run(m, k, Settled(st, reg, pf, pt), pf, r) == Fall(r[reg := Bool(false)], |st.code|, None) &&
              Run(m, k, Settled(st, reg, pf, pt), pt, r) == Fall(r[reg := Bool(true)], |st.code|, None)
  {
    var st' := Settled(st, reg, pf, pt);
    SettledCode(st, reg, pf, pt);
    hide Settled;
    if j :| (j in st.tt || j in st.ff) && !ValueJump(st.code, j) {
      assert st'.code[pf] == SettledAt(st, reg, pf, pt, pf) == st.code[pf];
      assert st'.code[pt] == SettledAt(st, reg, pf, pt, pt) == st.code[pt];
      assert Run(m, k, st', pf, r) == Run(m, k, st', pf + 2, r[reg := Bool(false)]);
      assert Run(m, k, st', pt, r) == Run(m, k, st', pt + 1, r[reg := Bool(true)]);
    }
  }
}
