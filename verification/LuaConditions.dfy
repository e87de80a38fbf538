/**
 Conditional code: going on only if an expression is true, or only if it is false, and
 `not`.
 */
module LuaConditions {
  import opened LuaVm
  import opened LuaRun
  import opened LuaCodegen
  import opened LuaFrame
  import opened LuaExit
  import opened LuaMeaning
  import opened Wrappers

  // ----- a test and its jump -----

  // The jump goes to the list of expressions that are `when`.
  function Tested(st: State, i: Instr, when: bool): State {
    var js := [|st.code| + 1];
    var code := Discharged(st).code + [i, JMP(NO_JUMP)];
    if when then State(code, [], st.tt + js, st.ff) else State(code, [], st.tt, st.ff + js)
  }

  predicate PlainTest(i: Instr) {
    IsTest(i) && (i.TESTSET? ==> i.a == NO_REG)
  }

  lemma TestedCode(st: State, i: Instr, when: bool)
    requires ListsOk(st)
    ensures var st' := Tested(st, i, when); var d := Discharged(st); var n := |st.code|;
      && |st'.code| == n + 2 && |d.code| == n && st'.code[n] == i && st'.code[n + 1] == JMP(NO_JUMP)
      && (forall x :: 0 <= x < n ==> st'.code[x] == d.code[x])
      && (forall j :: j in st'.tt <==> j in st.tt || (when && j == n + 1))
      && (forall j :: j in st'.ff <==> j in st.ff || (!when && j == n + 1))
  {
  }

  lemma TestedLists(st: State, i: Instr, when: bool)
    requires ListsOk(st) && PlainTest(i) && EndsWell(st.code) && TestsJump(st.code)
    ensures ListsOk(Tested(st, i, when)) && EndsWell(Tested(st, i, when).code) && TestsJump(Tested(st, i, when).code)
  {
    hide Tested, Discharged, Continues;
    DischargedOk(st);
    TestedCode(st, i, when);
    DischargedLists(st);
    var st', d := Tested(st, i, when), Discharged(st);
    TestedHere(st, i, when);
    assert forall j :: 0 <= j <= |st.code| ==> ValueJump(st'.code, j) == ValueJump(d.code, j);
  }

  lemma TestedHere(st: State, i: Instr, when: bool)
    ensures Tested(st, i, when).here == []
  {
  }

  lemma DischargedLists(st: State)
    ensures var d := Discharged(st); d.here == [] && d.tt == st.tt && d.ff == st.ff && |d.code| == |st.code|
  {
  }

  // Longer code, with all old instructions in place and only new jumps on its lists
  ghost predicate Longer(st: State, st': State) {
    && |st.code| <= |st'.code| && st.here == [] && st'.here == []
    && (forall x :: 0 <= x < |st.code| ==> st'.code[x] == st.code[x])
    && (forall j :: j < |st.code| ==> (j in st'.tt <==> j in st.tt) && (j in st'.ff <==> j in st.ff))
  }

  lemma LongerContinues(st: State, st': State)
    requires Longer(st, st')
    ensures Continues(st, st', 0)
  {
    forall j | 0 <= j < |st.code| && st.code[j].JMP?
      ensures SameJump(st, st', j) && Guarded(st'.code, j) == Guarded(st.code, j)
    {
    }
    hide SameJump, Guarded, Longer;
    assert |st.code| <= |st'.code|;
  }

  lemma TestedContinues(st: State, i: Instr, when: bool)
    requires ListsOk(st)
    ensures Continues(Discharged(st), Tested(st, i, when), 0)
  {
    TestedCode(st, i, when);
    assert forall j :: j in st.tt || j in st.ff ==> j < |st.code|;
    assert Discharged(st).tt == st.tt && Discharged(st).ff == st.ff;
    hide Tested, Continues, ListsOk;
    LongerContinues(Discharged(st), Tested(st, i, when));
  }

  lemma TestedFrame(c: Ctx, st: State, i: Instr, when: bool)
    requires ListsOk(st) && CtxOk(c) && Frame(c, st)
    ensures Frame(c, Tested(st, i, when))
  {
    DischargedFrame(c, st);
    TestedCode(st, i, when);
    var st', d := Tested(st, i, when), Discharged(st);
    hide Tested, Discharged, ListsOk;
    forall i | 0 <= i < |c.code| && i !in c.here ensures Untouched(c, st'.code, i) {
      assert Untouched(c, d.code, i);
    }
  }

  lemma TestedRun(m: Sem, k: seq<Value>, c: Ctx, st: State, i: Instr, when: bool, at: int, r: Regs)
    requires CtxOk(c) && ListsOk(st) && Frame(c, st) && EndsWell(st.code) && ConstsOk(st.code, k) && IsEntry(c, at)
    requires RunFrom(m, k, c, st, at, r) != Stuck
    ensures var o := RunFrom(m, k, c, st, at, r);
      RunFrom(m, k, c, Tested(st, i, when), at, r) == if o.Fall? then Run(m, k, Tested(st, i, when), |st.code|, o.r)
        else o
  {
    var d := Discharged(st);
    DischargedFrame(c, st);
    DischargedConsts(st, k);
    DischargedCode(st);
    assert Extends(k, k, d);
    WaitsNowhere(d);
    TestedContinues(st, i, when);
    hide Continues, ConstsOk, Tested, Discharged, ListsOk, CtxOk, Frame, RunFrom, Extends, EndsWell, Waiting, IsEntry;
    DischargedRun(m, k, c, st, at, r);
    EntryContinues(m, k, k, c, d, Tested(st, i, when), at, r);
  }

  lemma TestedEnd(m: Sem, k: seq<Value>, st: State, i: Instr, when: bool, r: Regs)
    requires ListsOk(st) && PlainTest(i)
    ensures Run(m, k, Tested(st, i, when), |st.code|, r) ==
      match Taken(m, k, i, r)
      case None => Fail
      case Some(b) =>
        if b then Leave(when, |st.code| + 1, if i.TESTSET? then Some(Get(r, i.b)) else None, r)
        else Fall(r, |st.code| + 2, None)
  {
    TestedCode(st, i, when);
    var st', n := Tested(st, i, when), |st.code|;
    assert n + 1 !in st.tt && n + 1 !in st.ff && st'.here == [];
    hide Tested, ListsOk;
    assert DestOf(st', n + 1) == if when then ToTrue else ToFalse;
  }

  // ----- a condition -----

  // The run ends as the exit `z` says; its value no longer matters.
  ghost predicate CondFits(c: Ctx, o: Out, r: Regs, z: Exit) {
    match o
    case Stuck => false
    case Fail => z == Fails
    case Leave(b, _, w, r') => z == Gone(b, w) && AgreeBut(r, r', c.base, NO_REG)
    case Fall(r', _, w) => z.Ended? && z.waiting == w && AgreeBut(r, r', c.base, NO_REG)
  }

  ghost predicate CondGives(m: Sem, c: Ctx, fs: Fs, st: State, at: int, r: Regs, z: Exit) {
    IsEntry(c, at) && CondFits(c, RunFrom(m, fs.k, c, st, at, r), r, z)
  }

  lemma CloseOther(m: Sem, c: Ctx, fs: Fs, st: State, cond: bool, at: int, r: Regs, z: Exit)
    requires ListsOk(st) && CondGives(m, c, fs, st, at, r, z)
    ensures CondGives(m, c, fs, Closed(st, cond), at, r, Closing(cond, z))
  {
    hide RunFrom, Closed;
    ClosedEnter(m, fs.k, c, st, cond, at, r);
  }

  // The code of a state, without a kind
  ghost predicate Sound(c: Ctx, fs: Fs, st: State) {
    && st.code == fs.code && st.here == fs.jpc && CtxOk(c) && ListsOk(st) && Frame(c, st)
    && EndsWell(st.code) && TestsJump(st.code) && ConstsOk(st.code, fs.k) && KPrefix(c.k, fs.k)
  }

  lemma CloseOtherOk(c: Ctx, fs: Fs, st: State, cond: bool)
    requires Sound(c, fs, st)
    ensures Sound(c, fs.(jpc := Closed(st, cond).here), Closed(st, cond))
  {
    hide Frame, ListsOk;
    ClosedOk(c, st, cond);
  }

  lemma TestedConsts(st: State, i: Instr, when: bool, k: seq<Value>)
    requires ListsOk(st) && ConstsOk(st.code, k) && ConstOk(i, |k|)
    ensures ConstsOk(Tested(st, i, when).code, k)
  {
    DischargedConsts(st, k);
    TestedCode(st, i, when);
    hide Tested;
    forall x | 0 <= x < |st.code| + 2 ensures ConstOk(Tested(st, i, when).code[x], |k|) {
      if x < |st.code| { assert ConstOk(Discharged(st).code[x], |k|); }
    }
  }

  lemma TestedSound(c: Ctx, fs: Fs, st: State, fs': Fs, i: Instr, when: bool)
    requires Sound(c, fs, st) && PlainTest(i) && ConstOk(i, |fs.k|)
    requires fs' == fs.(code := Tested(st, i, when).code, jpc := [], freereg := fs'.freereg)
    ensures Sound(c, fs', Tested(st, i, when))
  {
    assert |c.code| <= |st.code| && Tested(st, i, when).here == [];
    TestedConsts(st, i, when, fs.k);
    hide ListsOk, Frame, ConstsOk, CtxOk, Tested, EndsWell, TestsJump;
    TestedLists(st, i, when);
    TestedFrame(c, st, i, when);
  }

  // The test decides as `z` says.
  ghost predicate Decides(m: Sem, k: seq<Value>, i: Instr, when: bool, r: Regs, z: Exit)
    requires IsTest(i)
  {
    match Taken(m, k, i, r)
    case None => z == Fails
    case Some(b) =>
      if b then z == Gone(when, if i.TESTSET? then Some(Get(r, i.b)) else None) else z.Ended? && z.waiting == None
  }

  // All that is missing is the test.
  ghost predicate BeforeTest(m: Sem, c: Ctx, k: seq<Value>, i: Instr, when: bool, o: Out, r: Regs, z: Exit)
    requires IsTest(i)
  {
    match o
    case Stuck => false
    case Fail => z == Fails
    case Leave(b, _, w, r') => z == Gone(b, w) && AgreeBut(r, r', c.base, NO_REG)
    case Fall(r', _, _) => AgreeBut(r, r', c.base, NO_REG) && Decides(m, k, i, when, r', z)
  }

  lemma TestedSplits(m: Sem, c: Ctx, fs: Fs, st: State, i: Instr, when: bool, at: int, r: Regs, z: Exit)
    requires Sound(c, fs, st) && PlainTest(i) && IsEntry(c, at)
    requires BeforeTest(m, c, fs.k, i, when, RunFrom(m, fs.k, c, st, at, r), r, z)
    ensures CondGives(m, c, fs, Tested(st, i, when), at, r, z)
  {
    hide RunFrom, Tested, ListsOk, Frame, ConstsOk, CtxOk, EndsWell, TestsJump;
    TestedRun(m, fs.k, c, st, i, when, at, r);
    var o := RunFrom(m, fs.k, c, st, at, r);
    if o.Fall? { TestedEnd(m, fs.k, st, i, when, o.r); }
  }

  // ----- the four ways to a jump -----

  // The list of jumps `js` joins the list of expressions that are not `cond`.
  function SplitState(fs: Fs, d: Desc, cond: bool, js: seq<int>): State {
    if cond then State(fs.code, fs.jpc, d.t, d.f + js) else State(fs.code, fs.jpc, d.t + js, d.f)
  }

  ghost predicate SplitOk(m: Sem, c: Ctx, fs: Fs, d: Desc, fs1: Fs, js: seq<int>, cond: bool) {
    && Sound(c, fs1, SplitState(fs1, d, cond, js)) && fs1.freereg == fs.freereg && fs1.nactvar == fs.nactvar
    && KPrefix(fs.k, fs1.k)
  }

  lemma BuildingSound(c: Ctx, fs: Fs, d: Desc)
    requires Building(c, fs, d)
    ensures Sound(c, fs, StateOf(fs, d))
  {
    hide ListsOk, Frame, ConstsOk, CtxOk, TestsJump;
  }

  // The condition holds whatever happens: no jump.
  lemma NoJump(m: Sem, c: Ctx, fs: Fs, d: Desc, cond: bool)
    requires Building(c, fs, d)
    ensures SplitOk(m, c, fs, d, fs, [], cond) && SplitState(fs, d, cond, []) == StateOf(fs, d)
  {
    hide ListsOk, Frame, ConstsOk, CtxOk, TestsJump;
    assert d.t + [] == d.t && d.f + [] == d.f;
    BuildingSound(c, fs, d);
  }

  lemma NoJumpSplits(m: Sem, c: Ctx, fs: Fs, d: Desc, cond: bool, w: Value, at: int, r: Regs, y: Exit)
    requires Building(c, fs, d) && Settles(d.k) && Gives(m, c, fs, d, NO_REG, at, r, y)
    requires forall r' :: KindValue(m, fs, d.k, r') == Ok(w)
    ensures CondGives(m, c, fs, SplitState(fs, d, cond, []), at, r, SplitBy(Never, cond, y))
  {
    NoJump(m, c, fs, d, cond);
    hide RunFrom, Building;
  }

  // The condition never holds: always jump.
  lemma LiteralJump(m: Sem, c: Ctx, fs: Fs, d: Desc, cond: bool)
    requires Building(c, fs, d)
    ensures var (fs1, js) := EmitJump(fs);
      && SplitOk(m, c, fs, d, fs1, js, cond)
      && SplitState(fs1, d, cond, js) == Jumped(StateOf(fs, d), if cond then ToFalse else ToTrue)
  {
    var (fs1, js) := EmitJump(fs);
    var st, dest := StateOf(fs, d), if cond then ToFalse else ToTrue;
    assert SplitState(fs1, d, cond, js) == Jumped(st, dest);
    assert EndsWell(st.code);
    LiteralConsts(fs, d, dest);
    hide ListsOk, Frame, CtxOk, TestsJump, EndsWell, ConstsOk, Jumped;
    JumpedOk(st, dest) by { LastNotTestset(st); }
    JumpedFrame(c, st, dest);
  }

  lemma LastNotTestset(st: State)
    requires EndsWell(st.code)
    ensures |st.code| > 0 ==> !st.code[|st.code| - 1].TESTSET?
  {
  }

  lemma LiteralConsts(fs: Fs, d: Desc, dest: Dest)
    requires ConstsOk(fs.code, fs.k)
    ensures ConstsOk(Jumped(StateOf(fs, d), dest).code, fs.k)
  {
    var code := Jumped(StateOf(fs, d), dest).code;
    forall i | 0 <= i < |code| ensures ConstOk(code[i], |fs.k|) {
      if i < |fs.code| { assert code[i] == fs.code[i] && ConstOk(fs.code[i], |fs.k|); }
    }
  }

  lemma LiteralSplits(m: Sem, c: Ctx, fs: Fs, d: Desc, cond: bool, at: int, r: Regs, y: Exit)
    requires Building(c, fs, d) && d.k == (if cond then VFalse else VTrue)
    requires Gives(m, c, fs, d, NO_REG, at, r, y)
    ensures var (fs1, js) := EmitJump(fs);
      CondGives(m, c, fs1, SplitState(fs1, d, cond, js), at, r, SplitBy(Always, cond, y))
  {
    LiteralJump(m, c, fs, d, cond);
    var st, dest := StateOf(fs, d), if cond then ToFalse else ToTrue;
    BuildingParts(c, fs, d);
    LiteralRun(m, fs.k, c, st, dest, at, r);
    hide RunFrom, Building, ListsOk, ConstsOk, EndsWell, Jumped, CtxOk, Frame;
  }

  function LeaveOut(o: Out, when: bool): Out {
    if o.Fall? then Leave(when, o.at, o.w, o.r) else o
  }

  lemma JumpedEnd(m: Sem, k: seq<Value>, st: State, dest: Dest, at: int, r: Regs)
    requires ListsOk(st) && EndsWell(st.code) && Exits(dest) && (at == |st.code| || at in st.here)
    ensures Enter(m, k, Jumped(st, dest), |st.code|, at, r) == Leave(dest.ToTrue?, at, Carried(st.code, at, r), r)
  {
    var n, st1 := |st.code|, Jumped(st, dest);
    assert forall j :: j in [n] + st.here <==> j == n || j in st.here;
    assert st1.code[n] == JMP(NO_JUMP) && at !in st.tt && at !in st.ff && st1.here == [];
    assert DestOf(st1, at) == dest && !Guarded(st1.code, n);
    assert Jumping(st1.code, at, r) == r;
    hide Jumped;
    if at == n { assert Run(m, k, st1, n, r) == Jump(m, k, st1, n, r); }
  }

  lemma LiteralRun(m: Sem, k: seq<Value>, c: Ctx, st: State, dest: Dest, at: int, r: Regs)
    requires CtxOk(c) && ListsOk(st) && Frame(c, st) && EndsWell(st.code) && ConstsOk(st.code, k) && Exits(dest) &&
      IsEntry(c, at)
    requires RunFrom(m, k, c, st, at, r) != Stuck
    ensures RunFrom(m, k, c, Jumped(st, dest), at, r) == LeaveOut(RunFrom(m, k, c, st, at, r), dest.ToTrue?)
  {
    JumpedContinues(st, dest);
    assert Extends(k, k, st) && Waiting(st.code, st.here);
    hide Continues, ListsOk, ConstsOk, Jumped, RunFrom, Extends, Waiting, CtxOk, Frame, EndsWell, IsEntry;
    EntryContinues(m, k, k, c, st, Jumped(st, dest), at, r);
    RunFromEnds(m, k, c, st, at, r);
    var o := RunFrom(m, k, c, st, at, r);
    if o.Fall? { JumpedEnd(m, k, st, dest, o.at, o.r); }
  }

  // ----- comparisons, `not` and registers -----

  // The settled code of an expression whose last instruction is replaced by a test
  lemma BodySound(c: Ctx, fs: Fs, d: Desc)
    requires Building(c, fs, d)
    ensures Sound(c, fs.(code := Body(fs.code, d.k)), BodyState(fs, d))
  {
    BodyOk(c, fs, d);
    BodyFrame(c, fs, d);
    hide ListsOk, Frame, ConstsOk, CtxOk, TestsJump, EndsWell, KindOk;
  }

  lemma TestedOnBody(fs: Fs, d: Desc, i: Instr, when: bool)
    requires d.k.VJmp? || d.k.VReloc? ==> fs.jpc == []
    ensures Tested(BodyState(fs, d), i, when).code == Discharged(BodyState(fs, d)).code + [i, JMP(NO_JUMP)]
    ensures d.k.VJmp? || d.k.VReloc? ==> Discharged(BodyState(fs, d)).code == Body(fs.code, d.k)
  {
  }

  // A comparison already has its jump.
  function CompareTest(fs: Fs, d: Desc, cond: bool): Instr
    requires d.k.VJmp? && 0 < d.k.pc <= |fs.code|
  {
    if cond then Inverted(fs.code[d.k.pc - 1]) else fs.code[d.k.pc - 1]
  }

  lemma CompareIsTested(c: Ctx, fs: Fs, d: Desc, cond: bool)
    requires Building(c, fs, d) && d.k.VJmp?
    ensures var fs1 := if cond then InvertJump(fs, d.k.pc) else fs;
      && SplitState(fs1, d, cond, [d.k.pc]) == Tested(BodyState(fs, d), CompareTest(fs, d, cond), !cond)
      && PlainTest(CompareTest(fs, d, cond)) && ConstOk(CompareTest(fs, d, cond), |fs.k|)
  {
    assert KindOk(c, fs, d) && ConstsOk(fs.code, fs.k);
    var pc, fs1 := d.k.pc, if cond then InvertJump(fs, d.k.pc) else fs;
    assert ConstOk(fs.code[pc - 1], |fs.k|);
    hide Building, KindOk, ConstsOk;
    TestedOnBody(fs, d, CompareTest(fs, d, cond), !cond);
    assert fs1.code == Body(fs.code, d.k) + [CompareTest(fs, d, cond), JMP(NO_JUMP)];
  }

  lemma CompareSplits(m: Sem, c: Ctx, fs: Fs, d: Desc, cond: bool)
    requires Building(c, fs, d) && d.k.VJmp?
    ensures var fs1 := if cond then InvertJump(fs, d.k.pc) else fs;
      && SplitOk(m, c, fs, d, fs1, [d.k.pc], cond)
      && forall at, r, y :: Gives(m, c, fs, d, NO_REG, at, r, y) ==>
           CondGives(m, c, fs1, SplitState(fs1, d, cond, [d.k.pc]), at, r, SplitBy(Plainly, cond, y))
  {
    var fs1 := if cond then InvertJump(fs, d.k.pc) else fs;
    var i, b := CompareTest(fs, d, cond), BodyState(fs, d);
    CompareIsTested(c, fs, d, cond);
    BodySound(c, fs, d);
    assert fs.jpc == [] && KPrefix(c.k, fs.k);
    CompareTests(c, fs, d, cond);
    hide Building, Tested, RunFrom, Sound, KindValue, CompareTest, Decides, SplitBy;
    TestedSound(c, fs.(code := Body(fs.code, d.k)), b, fs1, i, !cond);
    forall at, r, y | Gives(m, c, fs, d, NO_REG, at, r, y)
      ensures CondGives(m, c, fs1, SplitState(fs1, d, cond, [d.k.pc]), at, r, SplitBy(Plainly, cond, y))
    {
      var o := RunFrom(m, fs.k, c, b, at, r);
      if o.Fall? { CompareDecides(m, c, fs, d, cond, o.r, o.w); }
      NoSplitBefore(Plainly, cond, y);
      TestedSplits(m, c, fs.(code := Body(fs.code, d.k)), b, i, !cond, at, r, SplitBy(Plainly, cond, y));
    }
  }

  lemma CompareTests(c: Ctx, fs: Fs, d: Desc, cond: bool)
    requires Building(c, fs, d) && d.k.VJmp?
    ensures IsTest(CompareTest(fs, d, cond))
  {
  }

  // What has left the expression does not come to its test.
  lemma NoSplitBefore(t: Test, cond: bool, y: Exit)
    ensures !y.Ended? ==> SplitBy(t, cond, y) == y
  {
  }

  lemma CompareDecides(m: Sem, c: Ctx, fs: Fs, d: Desc, cond: bool, r: Regs, w: Option<Value>)
    requires Building(c, fs, d) && d.k.VJmp?
    ensures IsTest(CompareTest(fs, d, cond))
    ensures Decides(m, fs.k, CompareTest(fs, d, cond), !cond, r,
      SplitBy(Plainly, cond, ExitWith(KindValue(m, fs, d.k, r), w)))
  {
    assert KindOk(c, fs, d);
    hide Building, KindOk;
  }
}
