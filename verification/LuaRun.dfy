/**
 Code under construction: instructions of which some jumps still wait for their target.
 Running it ends where the code ends, or at a jump that waits on one of the patch lists.
 */
module LuaRun {
  import opened LuaVm
  import opened Wrappers

  // `here` are the jumps to the next instruction to come (`jpc`); `tt` and `ff` the jumps
  // taken when the expression is true or false (`t` and `f`).
  datatype State = State(code: seq<Instr>, here: seq<int>, tt: seq<int>, ff: seq<int>)

  datatype Dest = ToHere | ToTrue | ToFalse | To(pc: int) | Lost

  function DestOf(st: State, j: int): Dest
    requires 0 <= j < |st.code| && st.code[j].JMP?
  {
    if j in st.here then ToHere
    else if j in st.tt then ToTrue
    else if j in st.ff then ToFalse
    else if st.code[j].sbx >= 0 then To(j + 1 + st.code[j].sbx)
    else Lost
  }

  // A jump whose test is a TESTSET carries a value along.
  predicate ValueJump(code: seq<Instr>, j: int) {
    0 < j <= |code| && code[j - 1].TESTSET?
  }

  predicate Guarded(code: seq<Instr>, j: int) {
    0 < j <= |code| && IsTest(code[j - 1])
  }

  // How a run ends: at the end of the code, at a jump of the true or false list, or with an
  // error. `at` is the jump it ends at, if any, and `w` the value that jump carries. `Stuck`
  // never happens.
  datatype Out = Fall(r: Regs, at: int, w: Option<Value>) | Leave(when: bool, at: int, w: Option<Value>, r: Regs) |
    Fail | Stuck

  function Carried(code: seq<Instr>, j: int, r: Regs): Option<Value> {
    if ValueJump(code, j) then Some(Get(r, code[j - 1].b)) else None
  }

  function Run(m: Sem, k: seq<Value>, st: State, pc: int, r: Regs): Out
    decreases |st.code| - pc, 1
  {
    if pc == |st.code| then Fall(r, pc, None)
    else if pc < 0 || pc > |st.code| then Stuck
    else
      var i := st.code[pc];
      if i.JMP? then (if Guarded(st.code, pc) then Stuck else Jump(m, k, st, pc, r))
      else if IsTest(i) then
        match Taken(m, k, i, r)
        case None => Fail
        case Some(false) => Run(m, k, st, pc + 2, r)
        case Some(true) =>
          if pc + 1 < |st.code| && st.code[pc + 1].JMP?
          then Jump(m, k, st, pc + 1, if i.TESTSET? then SetReg(r, i.a, Get(r, i.b)) else r)
          else Stuck
      else
        match Computed(m, k, i, r)
        case Error => Fail
        case Ok(v) => Run(m, k, st, if i.LOADBOOL? && i.skip then pc + 2 else pc + 1, r[i.a := v])
  }

  function Jump(m: Sem, k: seq<Value>, st: State, j: int, r: Regs): Out
    requires 0 <= j < |st.code| && st.code[j].JMP?
    decreases |st.code| - j, 0
  {
    match DestOf(st, j)
    case ToHere => Fall(r, j, Carried(st.code, j, r))
    case ToTrue => Leave(true, j, Carried(st.code, j, r), r)
    case ToFalse => Leave(false, j, Carried(st.code, j, r), r)
    case To(pc) => Run(m, k, st, pc, r)
    case Lost => Stuck
  }

  // What a test does to the registers when it jumps.
  function AfterTest(i: Instr, r: Regs): Regs {
    if i.TESTSET? then SetReg(r, i.a, Get(r, i.b)) else r
  }

  // The registers when jump `j` is taken, with what its test does to them.
  function Jumping(code: seq<Instr>, j: int, r: Regs): Regs {
    if 0 < j <= |code| then AfterTest(code[j - 1], r) else r
  }

  // A run from `at`: the start `n` of a piece of code, or a jump before it that leads there.
  function Enter(m: Sem, k: seq<Value>, st: State, n: int, at: int, r: Regs): Out {
    if at == n then Run(m, k, st, n, r)
    else if 0 <= at < |st.code| && st.code[at].JMP? then Jump(m, k, st, at, Jumping(st.code, at, r))
    else Stuck
  }

  // Going on where a run has fallen through.
  function Then(m: Sem, k: seq<Value>, o: Out, st: State, n: int): Out {
    if o.Fall? then Enter(m, k, st, n, o.at, o.r) else o
  }

  // ----- where runs end -----

  // The code does not end in a test.
  predicate EndsWell(code: seq<Instr>) {
    |code| > 0 ==> !IsTest(code[|code| - 1])
  }

  ghost predicate EndsAt(st: State, o: Out) {
    match o
    case Fall(r, at, w) => w == Carried(st.code, at, r) &&
      (at == |st.code| || (at in st.here && 0 <= at < |st.code| && st.code[at].JMP?))
    case Leave(when, at, w, r) => at in (if when then st.tt else st.ff) && w == Carried(st.code, at, r)
    case _ => true
  }

  lemma {:induction false} RunEnds(m: Sem, k: seq<Value>, st: State, pc: int, r: Regs)
    requires EndsWell(st.code)
    ensures EndsAt(st, Run(m, k, st, pc, r))
    decreases |st.code| - pc, 1
  {
    if 0 <= pc < |st.code| {
      var i := st.code[pc];
      if i.JMP? {
        JumpEnds(m, k, st, pc, r);
      } else if IsTest(i) {
        match Taken(m, k, i, r) {
          case None =>
          case Some(false) => RunEnds(m, k, st, pc + 2, r);
          case Some(true) =>
            if pc + 1 < |st.code| && st.code[pc + 1].JMP? { JumpEnds(m, k, st, pc + 1, AfterTest(i, r)); }
        }
      } else {
        match Computed(m, k, i, r) {
          case Error =>
          case Ok(v) => RunEnds(m, k, st, if i.LOADBOOL? && i.skip then pc + 2 else pc + 1, r[i.a := v]);
        }
      }
    }
  }

  lemma {:induction false} JumpEnds(m: Sem, k: seq<Value>, st: State, j: int, r: Regs)
    requires EndsWell(st.code)
    requires 0 <= j < |st.code| && st.code[j].JMP?
    ensures EndsAt(st, Jump(m, k, st, j, r))
    decreases |st.code| - j, 0
  {
    match DestOf(st, j) {
      case To(pc) => RunEnds(m, k, st, pc, r);
      case _ =>
    }
  }

  lemma EnterEnds(m: Sem, k: seq<Value>, st: State, n: int, at: int, r: Regs)
    requires EndsWell(st.code)
    ensures EndsAt(st, Enter(m, k, st, n, at, r))
  {
    if at == n {
      RunEnds(m, k, st, n, r);
    } else if 0 <= at < |st.code| && st.code[at].JMP? {
      JumpEnds(m, k, st, at, Jumping(st.code, at, r));
    }
  }

  // ----- code that grows -----

  // The two instructions do the same: a TESTSET without a register only tests.
  predicate SameInstr(i: Instr, i': Instr) {
    i == i' || (i.TESTSET? && i.a == NO_REG && i' == TEST(i.b, i.c))
  }

  // The test of a waiting jump may have been given a register, or have lost it.
  predicate Retested(i: Instr, i': Instr) {
    i.TESTSET? && i.a == NO_REG && (i' == TEST(i.b, i.c) || (i'.TESTSET? && i'.b == i.b && i'.c == i.c))
  }

  predicate ConstOk(i: Instr, n: nat) {
    match i
    case LOADK(_, bx) => bx < n
    case ARITH(_, _, rb, rc) => (rb.K? ==> rb.idx < n) && (rc.K? ==> rc.idx < n)
    case COMPARE(_, _, rb, rc) => (rb.K? ==> rb.idx < n) && (rc.K? ==> rc.idx < n)
    case _ => true
  }

  ghost predicate ConstsOk(code: seq<Instr>, k: seq<Value>) {
    forall i :: 0 <= i < |code| ==> ConstOk(code[i], |k|)
  }

  // `st'` continues `st`, seen from `s` on. Where the jumps to the end of `st` now go is left
  // open.
  ghost predicate Continues(st: State, st': State, s: int) {
    && 0 <= s <= |st.code| <= |st'.code|
    && (forall i :: s <= i < |st.code| && !st.code[i].JMP? ==>
          SameInstr(st.code[i], st'.code[i]) || (i + 1 in st.here && Retested(st.code[i], st'.code[i])))
    && (forall i :: s <= i < |st.code| && st.code[i].JMP? ==>
      st'.code[i].JMP? && (i !in st.here ==> SameJump(st, st', i)))
    && (forall i :: s <= i < |st.code| && st.code[i].JMP? ==> (Guarded(st'.code, i) ==> Guarded(st.code, i)))
  }

  predicate SameJump(st: State, st': State, j: int)
    requires 0 <= j < |st.code| <= |st'.code| && st.code[j].JMP?
  {
    && st'.code[j].JMP? && DestOf(st', j) == DestOf(st, j)
    && (j in st.tt || j in st.ff ==> SameHeld(st.code, st'.code, j))
  }

  // The value carried by a jump is the same.
  predicate SameHeld(code: seq<Instr>, code': seq<Instr>, j: int) {
    && ValueJump(code', j) == ValueJump(code, j)
    && (ValueJump(code, j) ==> code'[j - 1].b == code[j - 1].b)
  }

  predicate Exits(d: Dest) {
    d.ToTrue? || d.ToFalse?
  }

  ghost predicate Extends(k: seq<Value>, k': seq<Value>, st: State) {
    |k| <= |k'| && (forall i :: 0 <= i < |k| ==> k'[i] == k[i]) && ConstsOk(st.code, k)
  }

  lemma SameComputed(m: Sem, k: seq<Value>, k': seq<Value>, i: Instr, r: Regs)
    requires HasTarget(i) && ConstOk(i, |k|) && |k| <= |k'| && forall x :: 0 <= x < |k| ==> k'[x] == k[x]
    ensures Computed(m, k', i, r) == Computed(m, k, i, r)
  {
  }

  lemma SameTaken(m: Sem, k: seq<Value>, k': seq<Value>, i: Instr, i': Instr, r: Regs)
    requires IsTest(i) && (SameInstr(i, i') || Retested(i, i'))
    requires ConstOk(i, |k|) && |k| <= |k'| && forall x :: 0 <= x < |k| ==> k'[x] == k[x]
    ensures IsTest(i') && Taken(m, k', i', r) == Taken(m, k, i, r)
  {
  }

  lemma ContinuesAt(k: seq<Value>, k': seq<Value>, st: State, st': State, s: int, pc: int)
    requires Continues(st, st', s) && Extends(k, k', st) && s <= pc < |st.code|
    ensures |k| <= |k'| && (forall x :: 0 <= x < |k| ==> k'[x] == k[x]) && ConstOk(st.code[pc], |k|)
    ensures pc < |st'.code|
    ensures if st.code[pc].JMP? then st'.code[pc].JMP?
            else SameInstr(st.code[pc], st'.code[pc]) || (pc + 1 in st.here && Retested(st.code[pc], st'.code[pc]))
    ensures st.code[pc].JMP? && Guarded(st'.code, pc) ==> Guarded(st.code, pc)
  {
  }

  // Running the longer code is running the old code and going on from its end, or from the
  // jump to its end.
  lemma {:induction false} RunContinues(m: Sem, k: seq<Value>, k': seq<Value>, st: State, st': State, s: int, pc: int,
      r: Regs)
    requires Continues(st, st', s) && Extends(k, k', st) && s <= pc
    requires Run(m, k, st, pc, r) != Stuck
    ensures Run(m, k', st', pc, r) == Then(m, k', Run(m, k, st, pc, r), st', |st.code|)
    decreases |st.code| - pc, 1
  {
    if 0 <= pc < |st.code| {
      var i := st.code[pc];
      ContinuesAt(k, k', st, st', s, pc);
      hide Continues, Extends, Computed, Taken, DestOf;
      if i.JMP? {
        JumpContinues(m, k, k', st, st', s, pc, r, r);
      } else if IsTest(i) {
        SameTaken(m, k, k', i, st'.code[pc], r);
        match Taken(m, k, i, r) {
          case None =>
          case Some(false) => RunContinues(m, k, k', st, st', s, pc + 2, r);
          case Some(true) => JumpContinues(m, k, k', st, st', s, pc + 1, AfterTest(i, r), AfterTest(st'.code[pc], r));
        }
      } else {
        SameComputed(m, k, k', i, r);
        match Computed(m, k, i, r) {
          case Error =>
          case Ok(v) =>
            RunContinues(m, k, k', st, st', s, if i.LOADBOOL? && i.skip then pc + 2 else pc + 1, r[i.a := v]);
        }
      }
    }
  }

  // `r'` differs from `r` only where the test of the jump has been given a register, and then
  // the jump waits for the end of the code.
  lemma {:induction false} JumpContinues(m: Sem, k: seq<Value>, k': seq<Value>, st: State, st': State, s: int, j: int,
      r: Regs, r': Regs)
    requires Continues(st, st', s) && Extends(k, k', st) && s <= j < |st.code| && st.code[j].JMP?
    requires Jump(m, k, st, j, r) != Stuck
    requires if j in st.here then r' == Jumping(st'.code, j, r) else r' == r
    ensures st'.code[j].JMP?
    ensures Jump(m, k', st', j, r') == Then(m, k', Jump(m, k, st, j, r), st', |st.code|)
    decreases |st.code| - j, 0
  {
    if j !in st.here {
      assert SameJump(st, st', j);
      match DestOf(st, j) {
        case To(pc) => RunContinues(m, k, k', st, st', s, pc, r);
        case _ =>
      }
    }
  }

  // The registers written by the test of a jump are the same.
  predicate SameWrite(code: seq<Instr>, code': seq<Instr>, j: int) {
    0 < j <= |code| <= |code'| ==>
      var (i, i') := (code[j - 1], code'[j - 1]);
      i == i' || ((i.TESTSET? ==> i.a == NO_REG) && (i'.TESTSET? ==> i'.a == NO_REG))
  }

  // The jump `at` leads into both codes in the same way.
  ghost predicate SameEntry(st: State, st': State, s: int, at: int) {
    && 0 <= at < |st.code| <= |st'.code| && st.code[at].JMP? && st'.code[at].JMP?
    && (if at in st.here
        then at > 0 && st.code[at - 1].TESTSET? ==> st.code[at - 1].a == NO_REG
        else SameJump(st, st', at) && SameWrite(st.code, st'.code, at) &&
             (DestOf(st, at).To? ==> s <= DestOf(st, at).pc))
  }

  lemma EnterContinues(m: Sem, k: seq<Value>, k': seq<Value>, st: State, st': State, s: int, n: int, at: int, r: Regs)
    requires Continues(st, st', s) && Extends(k, k', st) && s <= n && (at != n ==> SameEntry(st, st', s, at))
    requires Enter(m, k, st, n, at, r) != Stuck
    ensures Enter(m, k', st', n, at, r) == Then(m, k', Enter(m, k, st, n, at, r), st', |st.code|)
  {
    if at == n {
      RunContinues(m, k, k', st, st', s, n, r);
    } else {
      hide Continues, Extends;
      if at !in st.here {
        var r1 := Jumping(st.code, at, r);
        assert Jumping(st'.code, at, r) == r1;
        match DestOf(st, at) {
          case To(pc) => RunContinues(m, k, k', st, st', s, pc, r1);
          case _ =>
        }
      }
    }
  }
}
