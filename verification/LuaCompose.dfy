/**
 An expression compiled after another: the code of the first runs as before and goes on
 with the code of the second.
 */
module LuaCompose {
  import opened LuaVm
  import opened LuaRun
  import opened LuaCodegen
  import opened LuaFrame
  import opened LuaMeaning

  // The second expression starts where the code of the first ends.
  function CtxOf(fs: Fs): Ctx {
    Ctx(fs.code, fs.k, fs.jpc, if fs.freereg >= 0 then fs.freereg else 0)
  }

  function Outer(c: Ctx, tt: seq<int>, ff: seq<int>): State {
    State(c.code, c.here, tt, ff)
  }

  // Both lists together
  function Joined(st: State, tt: seq<int>, ff: seq<int>): State {
    State(st.code, st.here, st.tt + tt, st.ff + ff)
  }

  // `b` starts at the end of the state with the lists `tt` and `ff`, and has led to `st`.
  ghost predicate Inner(b: Ctx, st: State, tt: seq<int>, ff: seq<int>) {
    && CtxOk(b) && ListsOk(Outer(b, tt, ff)) && ListsOk(st) && Frame(b, st)
  }

  lemma JoinedDest(b: Ctx, st: State, tt: seq<int>, ff: seq<int>)
    requires Inner(b, st, tt, ff)
    ensures forall j :: 0 <= j < |st.code| && st.code[j].JMP? && j !in tt && j !in ff ==>
              DestOf(Joined(st, tt, ff), j) == DestOf(st, j)
    ensures forall j ::
      (j in tt || j in ff) ==> 0 <= j < |b.code| && j !in b.here && j !in st.here && j !in st.tt && j !in st.ff
  {
  }

  lemma InnerKeeps(b: Ctx, st: State, tt: seq<int>, ff: seq<int>, i: int)
    requires Inner(b, st, tt, ff) && 0 <= i < |b.code| && i !in b.here && b.code[i].JMP?
    ensures st.code[i] == b.code[i] && SameHeld(b.code, st.code, i) && (Guarded(st.code, i) ==> Guarded(b.code, i))
  {
    assert Untouched(b, st.code, i);
    if i > 0 {
      if i - 1 in b.here {
        assert st.code[i - 1].JMP? && b.code[i - 1].JMP?;
      } else {
        assert Untouched(b, st.code, i - 1);
      }
    }
  }

  lemma OuterContinues(b: Ctx, st: State, tt: seq<int>, ff: seq<int>)
    requires Inner(b, st, tt, ff)
    ensures Continues(Outer(b, tt, ff), Joined(st, tt, ff), 0)
  {
    JoinedDest(b, st, tt, ff);
    var (o, st') := (Outer(b, tt, ff), Joined(st, tt, ff));
    forall i | 0 <= i < |b.code| && b.code[i].JMP? && i !in b.here
      ensures SameJump(o, st', i) && (Guarded(st'.code, i) ==> Guarded(o.code, i))
    {
      InnerKeeps(b, st, tt, ff, i);
      assert i !in st.here && i !in st.tt && i !in st.ff;
    }
    forall i | 0 <= i < |b.code| && !b.code[i].JMP?
      ensures SameInstr(b.code[i], st'.code[i]) || (i + 1 in b.here && Retested(b.code[i], st'.code[i]))
    {
      assert Untouched(b, st.code, i);
    }
    forall i | i in b.here ensures st'.code[i].JMP? && (Guarded(st'.code, i) ==> Guarded(b.code, i)) {
      assert Onward(b, st, i);
      if i > 0 && i - 1 in b.here { assert Onward(b, st, i - 1); }
      if i > 0 && i - 1 !in b.here { assert Untouched(b, st.code, i - 1); }
    }
  }

  // Seen from the second expression, the lists of the first do not matter.
  lemma InnerContinues(b: Ctx, st: State, tt: seq<int>, ff: seq<int>)
    requires Inner(b, st, tt, ff)
    ensures Continues(st, Joined(st, tt, ff), |b.code|)
  {
    JoinedDest(b, st, tt, ff);
    var st' := Joined(st, tt, ff);
    forall i | |b.code| <= i < |st.code| && st.code[i].JMP? ensures SameJump(st, st', i) {
    }
    assert forall j :: j in st.here ==> DestOf(st', j) == ToHere;
  }

  // The run goes on in the second expression, from its start or from a jump to it.
  lemma InnerRun(m: Sem, b: Ctx, k: seq<Value>, st: State, tt: seq<int>, ff: seq<int>, at: int, r: Regs)
    requires Inner(b, st, tt, ff) && ConstsOk(st.code, k) && IsEntry(b, at) && RunFrom(m, k, b, st, at, r) != Stuck
    ensures Enter(m, k, Joined(st, tt, ff), |b.code|, at, r) ==
      Then(m, k, RunFrom(m, k, b, st, at, r), Joined(st, tt, ff), |st.code|)
  {
    InnerContinues(b, st, tt, ff);
    JoinedDest(b, st, tt, ff);
    var st' := Joined(st, tt, ff);
    assert Extends(k, k, st);
    if at != |b.code| { InnerEntry(b, st, tt, ff, at); }
    hide Inner, Continues, Extends, ConstsOk, SameEntry;
    EnterContinues(m, k, k, st, st', |b.code|, |b.code|, at, r);
  }

  lemma InnerEntry(b: Ctx, st: State, tt: seq<int>, ff: seq<int>, at: int)
    requires Inner(b, st, tt, ff) && at in b.here
    ensures SameEntry(st, Joined(st, tt, ff), |b.code|, at)
  {
    JoinedDest(b, st, tt, ff);
    assert Onward(b, st, at);
    assert at !in tt && at !in ff;
  }

  // Where a run of the second expression ends, a run of both does.
  lemma JoinedEnd(m: Sem, k: seq<Value>, st: State, tt: seq<int>, ff: seq<int>, at: int, r: Regs)
    requires ListsOk(st) && EndsWell(st.code) && (at == |st.code| || at in st.here)
    requires forall j :: j in st.here ==> j !in tt && j !in ff
    ensures Enter(m, k, Joined(st, tt, ff), |st.code|, at, r) == Fall(r, at, Carried(st.code, at, r))
  {
    var st' := Joined(st, tt, ff);
    if at != |st.code| {
      assert DestOf(st', at) == ToHere && Jumping(st'.code, at, r) == r;
    }
  }

  // Runs through both expressions
  lemma JoinedRun(m: Sem, a: Ctx, b: Ctx, k: seq<Value>, st: State, tt: seq<int>, ff: seq<int>, at: int, r: Regs)
    requires Inner(b, st, tt, ff) && Frame(a, Outer(b, tt, ff)) && CtxOk(a) && IsEntry(a, at)
    requires ConstsOk(st.code, k) && KPrefix(b.k, k) && EndsWell(st.code)
    requires RunFrom(m, b.k, a, Outer(b, tt, ff), at, r) != Stuck
    requires var o := RunFrom(m, b.k, a, Outer(b, tt, ff), at, r); o.Fall? ==> RunFrom(m, k, b, st, o.at, o.r) != Stuck
    ensures var o := RunFrom(m, b.k, a, Outer(b, tt, ff), at, r);
      && (o.Fall? ==> IsEntry(b, o.at) && o.w == Carried(b.code, o.at, o.r))
      && RunFrom(m, k, a, Joined(st, tt, ff), at, r) == if o.Fall? then RunFrom(m, k, b, st, o.at, o.r) else o
  {
    var st' := Joined(st, tt, ff);
    var o := RunFrom(m, b.k, a, Outer(b, tt, ff), at, r);
    OuterContinues(b, st, tt, ff);
    JoinedDest(b, st, tt, ff);
    assert Extends(b.k, k, Outer(b, tt, ff)) && Waiting(b.code, b.here) && EndsWell(b.code) && ListsOk(st);
    assert forall j :: j in st.here ==> j !in tt && j !in ff;
    hide Inner, Continues, Extends, ConstsOk, RunFrom, Waiting, Frame, CtxOk, EndsWell, KPrefix, ListsOk;
    EntryContinues(m, b.k, k, a, Outer(b, tt, ff), st', at, r);
    RunFromEnds(m, b.k, a, Outer(b, tt, ff), at, r);
    if o.Fall? {
      assert IsEntry(b, o.at);
      InnerRun(m, b, k, st, tt, ff, o.at, o.r);
      RunFromEnds(m, k, b, st, o.at, o.r);
      var o' := RunFrom(m, k, b, st, o.at, o.r);
      if o'.Fall? { JoinedEnd(m, k, st, tt, ff, o'.at, o'.r); }
    }
  }

  // ----- the frame of both -----

  lemma JoinedLists(b: Ctx, st: State, tt: seq<int>, ff: seq<int>)
    requires Inner(b, st, tt, ff)
    ensures ListsOk(Joined(st, tt, ff))
  {
    JoinedDest(b, st, tt, ff);
    forall j | j in tt || j in ff
      ensures st.code[j] == JMP(NO_JUMP) && (ValueJump(st.code, j) ==> st.code[j - 1].a == NO_REG)
    {
      InnerKeeps(b, st, tt, ff, j);
      if ValueJump(st.code, j) && j - 1 !in b.here { assert Untouched(b, st.code, j - 1); }
    }
  }

  lemma JoinedFrame(a: Ctx, b: Ctx, st: State, tt: seq<int>, ff: seq<int>)
    requires Inner(b, st, tt, ff) && Frame(a, Outer(b, tt, ff)) && CtxOk(a)
    ensures Frame(a, Joined(st, tt, ff))
  {
    assert forall j :: j in st.here || j in st.tt || j in st.ff ==> j >= |b.code| || j in b.here;
    assert |a.code| <= |b.code| <= |st.code|;
    forall i | 0 <= i < |a.code| && i !in a.here ensures Untouched(a, st.code, i) {
      assert Untouched(a, b.code, i) && i !in b.here;
      assert Untouched(b, st.code, i);
      if i + 1 in b.here && i + 1 !in a.here { NotATest(a, b, i); }
    }
    hide ListsOk;
  }

  lemma NotATest(a: Ctx, b: Ctx, i: nat)
    requires CtxOk(a) && |a.code| <= |b.code| && Within(a, b.here) && i < |a.code|
    requires Untouched(a, b.code, i) && i + 1 in b.here && i + 1 !in a.here
    ensures b.code[i] == a.code[i] && !IsTest(a.code[i])
  {
    assert i + 1 == |a.code|;
  }
}
