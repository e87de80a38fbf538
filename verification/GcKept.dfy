/**
 What a collection leaves of what the program has: every object the program strongly holds
 stays, with its contents, and a table loses only entries of objects that are not held.
 */
module GcKept {
  import opened GcHeap
  import opened GcMark
  import opened GcPropagate
  import opened GcState
  import opened GcCycle
  import opened GcCollect
  import opened GcStep
  import opened GcFull
  import GcWeak

  // ----- what is strongly reachable gets marked -----

  lemma {:induction false} StrongPathMarked(h: Heap, m: Mark, roots: seq<Value>, p: seq<Ref>, i: nat)
    requires Fresh(h, m, {}) && m.gray == [] && Colored(m.color, roots) && m.color.Keys == h.Keys
    requires StrongPath(h, p) && i < |p| && Ptr(p[0]) in roots
    ensures p[i] in m.color && !White(m.color[p[i]])
  {
    if i > 0 {
      StrongPathMarked(h, m, roots, p, i - 1);
      hide Strong;
      assert Colored(m.color, Strong(h, p[i - 1]));
      var v := Ptr(p[i]);
      assert v in Strong(h, p[i - 1]) && v.Ptr?;
    } else {
      var v := Ptr(p[0]);
      assert v in roots && v.Ptr?;
    }
  }

  lemma StrongMarked(h: Heap, m: Mark, roots: seq<Value>, r: Ref)
    requires Fresh(h, m, {}) && m.gray == [] && Colored(m.color, roots) && m.color.Keys == h.Keys
    requires StronglyReachable(h, roots, r)
    ensures r in m.color && !White(m.color[r])
  {
    var p :| StrongPath(h, p) && |p| > 0 && Ptr(p[0]) in roots && p[|p| - 1] == r;
    StrongPathMarked(h, m, roots, p, |p| - 1);
  }

  // ----- what a collection preserves -----

  // The value is an object, no string, that the program does not strongly hold.
  ghost predicate Lost(s: State, v: Value) {
    v.Ptr? && v.ref in s.h && !s.h[v.ref].kind.Str? && !StronglyReachable(s.h, Roots(s), v.ref)
  }

  ghost predicate EntryKept(s: State, h': Heap, r: Ref, i: nat)
    requires r in s.h && r in h' && i < |s.h[r].keys| == |s.h[r].vals| == |h'[r].keys| == |h'[r].vals|
  {
    var k, v := s.h[r].keys[i], s.h[r].vals[i];
    || (h'[r].keys[i] == k && h'[r].vals[i] == v)
    || (Weak(s.h[r].kind) && h'[r].keys[i] == DeadKey(k) && h'[r].vals[i] == NIL && (Lost(s, k) || Lost(s, v)))
  }

  ghost predicate ContentsKept(s: State, h': Heap, r: Ref)
    requires r in s.h && r in h'
  {
    && SameKind(s.h[r].kind, h'[r].kind) && Slots(h', r) == Slots(s.h, r)
    && |s.h[r].keys| == |s.h[r].vals| == |h'[r].keys| == |h'[r].vals|
    && forall i: nat :: i < |s.h[r].keys| ==> EntryKept(s, h', r, i)
  }

  // The heap `h'` that is left: it has everything strongly reachable, and nothing in it has changed
  // but weak tables that have lost an entry with an object that is not.
  ghost predicate Preserves(s: State, h': Heap) {
    && (forall r :: StronglyReachable(s.h, Roots(s), r) ==> r in h')
    && (forall r :: r in h' ==> r in s.h && ContentsKept(s, h', r))
  }

  lemma SameKept(s: State, h': Heap, r: Ref)
    requires r in s.h && r in h' && Same(s.h, h', r) && Shaped(s.h[r])
    ensures ContentsKept(s, h', r)
  {
  }

  lemma Unchanged(s: State)
    requires Core(s)
    ensures Preserves(s, s.h)
  {
    hide StronglyReachable, Safe, Captures, Interned, Chained;
    forall r | StronglyReachable(s.h, Roots(s), r) ensures r in s.h { InHeap(s.h, Roots(s), r); }
    forall r | r in s.h ensures ContentsKept(s, s.h, r) { SameKept(s, s.h, r); }
  }

  lemma InHeap(h: Heap, roots: seq<Value>, r: Ref)
    requires StronglyReachable(h, roots, r)
    ensures r in h
  {
  }

  // ----- the atomic step -----

  lemma AtomicEntries(s: State, m: Mark, c: GcWeak.Cleared, r: Ref)
    requires Basic(s) && FullyMarked(s, m) && r in s.h
    requires GcWeak.OnlyDeadGo(GcWeak.Cleared(s.h, m.color), c, m.weak)
    ensures r in c.h && ContentsKept(s, c.h, r)
  {
    hide StronglyReachable, Fresh, Colored, FullyMarked, GcWeak.Unmarked;
    var a := GcWeak.Cleared(s.h, m.color);
    assert Shaped(s.h[r]);
    assert Slots(c.h, r) == Slots(s.h, r);
    forall i: nat | i < |s.h[r].keys| ensures EntryKept(s, c.h, r, i) {
      assert GcWeak.EntryStaysOrGoes(a, c, m.weak, r, i);
      UnmarkedIsLost(s, m, s.h[r].keys[i]);
      UnmarkedIsLost(s, m, s.h[r].vals[i]);
      if r in m.weak { StrongTableMarked(s, m, r, i); }
    }
  }

  lemma UnmarkedIsLost(s: State, m: Mark, v: Value)
    requires FullyMarked(s, m)
    ensures GcWeak.Unmarked(GcWeak.Cleared(s.h, m.color), v) ==> Lost(s, v)
  {
    hide StronglyReachable;
    if v.Ptr? && StronglyReachable(s.h, Roots(s), v.ref) { StrongMarked(s.h, m, Roots(s), v.ref); }
  }

  // A listed table that is not weak refers to marked objects only.
  lemma StrongTableMarked(s: State, m: Mark, r: Ref, i: nat)
    requires FullyMarked(s, m) && r in m.weak && r in s.h && i < |s.h[r].keys| == |s.h[r].vals|
    ensures s.h[r].kind.Table?
    ensures !Weak(s.h[r].kind) ==>
      !GcWeak.Unmarked(GcWeak.Cleared(s.h, m.color), s.h[r].keys[i]) &&
        !GcWeak.Unmarked(GcWeak.Cleared(s.h, m.color), s.h[r].vals[i])
  {
    assert !White(m.color[r]);
    assert Colored(m.color, Strong(s.h, r));
    if !Weak(s.h[r].kind) {
      var k, v := s.h[r].keys[i], s.h[r].vals[i];
      assert k in Strong(s.h, r) && v in Strong(s.h, r);
    }
  }

  lemma AtomicPreserves(s: State)
    requires Inv(s) && s.phase.Propagate? && s.m.gray == []
    ensures Preserves(s, Atomic(s).h)
    ensures forall r :: StronglyReachable(s.h, Roots(s), r) ==> Live(Atomic(s), r)
  {
    hide StronglyReachable, FullyMarked, AtomicMarked, ContentsKept, GcWeak.ClearTables, GcWeak.Ok, GcWeak.Tables,
      GcWeak.OnlyDeadGo;
    AtomicMarkedFully(s);
    var m := AtomicMarked(s);
    MarkedTables(s, m);
    var c0 := GcWeak.Cleared(s.h, m.color);
    var c := GcWeak.ClearTables(c0, m.weak);
    GcWeak.ClearTablesGo(c0, m.weak);
    assert Atomic(s).h == c.h && Atomic(s).m.color == c.color && Atomic(s).white == Flip(s.white);
    ClearedKeys(c0, c, m.weak);
    CoreBasic(s);
    hide Atomic, Inv;
    forall r | StronglyReachable(s.h, Roots(s), r) ensures r in c.h && Live(Atomic(s), r) {
      HeldMarked(s, m, r);
      MarkedLives(Atomic(s), r);
    }
    forall r | r in c.h ensures r in s.h && ContentsKept(s, c.h, r) { AtomicEntries(s, m, c, r); }
  }

  lemma CoreBasic(s: State)
    requires Inv(s)
    ensures Basic(s) && White(s.white) && s.m.color.Keys == s.h.Keys
  {
  }

  lemma ClearedKeys(a: GcWeak.Cleared, b: GcWeak.Cleared, ts: seq<Ref>)
    requires GcWeak.OnlyDeadGo(a, b, ts)
    ensures a.h.Keys == b.h.Keys == a.color.Keys == b.color.Keys
    ensures forall r :: r in a.color && !White(a.color[r]) ==> !White(b.color[r])
  {
  }

  lemma HeldMarked(s: State, m: Mark, r: Ref)
    requires FullyMarked(s, m) && StronglyReachable(s.h, Roots(s), r)
    ensures r in s.h && r in m.color && !White(m.color[r])
  {
    StrongMarked(s.h, m, Roots(s), r);
    InHeap(s.h, Roots(s), r);
  }

  lemma MarkedLives(s': State, r: Ref)
    requires White(s'.white) && r in s'.h && r in s'.m.color && !White(s'.m.color[r])
    ensures Live(s', r)
  {
  }

  // ----- sweeping -----

  // What is left by sweeping: all that is live, as it was
  ghost predicate Carries(a: State, b: State) {
    && Roots(b) == Roots(a)
    && (forall x :: x in b.h ==> x in a.h && Same(a.h, b.h, x))
    && (forall x :: Live(a, x) ==> Live(b, x))
  }

  lemma CarriesTransitive(a: State, b: State, c: State)
    requires Carries(a, b) && Carries(b, c)
    ensures Carries(a, c)
  {
    hide Slots;
  }

  lemma SweepsCarry(a: State, b: State)
    requires Sweeps(a, b) && White(a.white)
    ensures Carries(a, b)
  {
    hide Refs, Same;
    forall x | Live(a, x) ensures Live(b, x) {
      assert x in b.h;
    }
  }

  lemma StepCarries(s: State)
    requires Inv(s) && (s.phase.SweepString? || s.phase.Sweep? || s.phase.Finalize?)
    ensures Carries(s, SingleStep(s))
    ensures !SingleStep(s).phase.Propagate? && (s.phase.Finalize? <==> SingleStep(s).phase.Pause?)
  {
    hide Core, Colors, SweepBucket, SweepObjects, Sweeps;
    InHeapColored(s);
    if s.phase.SweepString? {
      StringsBeingSwept(s);
      SweepStringStepKeeps(s);
      var b := SweepBucket(s, s.sweepstrgc, 0);
      SweepsCarry(s, b);
      SweepsPhase(s, b);
      hide Same, Slots;
      CarriesOn(s, b, SingleStep(s));
    } else if s.phase.Sweep? {
      SweepStepKeeps(s);
      var b := SweepObjects(s, GCSWEEPMAX);
      SweepsCarry(s, b);
      SweepsPhase(s, b);
      hide Same, Slots;
      CarriesOn(s, b, SingleStep(s));
    } else {
      CarriesOn(s, s, SingleStep(s));
    }
  }

  lemma CarriesOn(a: State, b: State, c: State)
    requires (a == b || Carries(a, b)) && c.h == b.h && c.m.color == b.m.color && c.white == b.white &&
      Roots(c) == Roots(b)
    ensures Carries(a, c)
  {
  }

  // The loops of a full collection, once nothing is left to mark
  lemma {:induction false} RunCarries(s: State, p: Phase)
    requires Inv(s) && (p.Pause? || p.Finalize?) && Rank(s.phase) >= Rank(p) && !s.phase.Propagate?
    ensures Carries(s, RunUntil(s, p))
    decreases Rank(s.phase), WorkSet(s), WorkLeft(s)
  {
    hide Inv, SingleStep, RunUntil, Carries;
    if s.phase == p {
      RunUntilThere(s, p);
      CarriesSelf(s);
    } else {
      StepCarries(s);
      RunUntilSteps(s, p);
      RunCarries(SingleStep(s), p);
      CarriesTransitive(s, SingleStep(s), RunUntil(SingleStep(s), p));
    }
  }

  lemma CarriesSelf(s: State)
    ensures Carries(s, s)
  {
  }

  // Sweeping after the atomic step
  lemma PreservesThenCarries(s: State, a: State, b: State)
    requires Preserves(s, a.h) && Carries(a, b) && forall r :: StronglyReachable(s.h, Roots(s), r) ==> Live(a, r)
    ensures Preserves(s, b.h)
  {
    hide StronglyReachable, Slots;
    forall r | r in b.h ensures r in s.h && ContentsKept(s, b.h, r) {
      assert Same(a.h, b.h, r);
      assert ContentsKept(s, a.h, r);
      forall i: nat | i < |s.h[r].keys| ensures EntryKept(s, b.h, r, i) { assert EntryKept(s, a.h, r, i); }
    }
  }

  // Objects that are live keep a strong path.
  lemma CarriesPath(a: State, b: State, p: seq<Ref>)
    requires Inv(a) && Carries(a, b) && StrongPath(a.h, p) && |p| > 0 && Ptr(p[0]) in Roots(a)
    ensures StrongPath(b.h, p)
  {
    hide Inv;
    forall i | 0 <= i < |p| ensures Live(a, p[i]) && p[i] in b.h { HeldLives(a, p, i); }
    forall i | 0 < i < |p| ensures Ptr(p[i]) in Strong(b.h, p[i - 1]) {
      assert Ptr(p[i]) in Strong(a.h, p[i - 1]);
      SameStrong(a.h, b.h, p[i - 1]);
    }
  }

  lemma SameStrong(h: Heap, h': Heap, r: Ref)
    requires r in h && r in h' && Same(h, h', r)
    ensures Strong(h', r) == Strong(h, r)
  {
  }

  lemma HeldLives(s: State, p: seq<Ref>, i: nat)
    requires Inv(s) && StrongPath(s.h, p) && i < |p| && Ptr(p[0]) in Roots(s)
    ensures Live(s, p[i])
  {
    hide Inv, Strong, Reachable, Live, Safe;
    var q := p[..i + 1];
    assert StrongPath(s.h, q);
    assert StronglyReachable(s.h, Roots(s), p[i]);
    StrongIsReachable(s.h, Roots(s), p[i]);
    InvSafe(s);
    ReachableIsLive(s, p[i]);
  }

  lemma InvSafe(s: State)
    requires Inv(s)
    ensures Safe(s)
  {
  }

  lemma CarriesStrong(a: State, b: State, r: Ref)
    requires Inv(a) && Carries(a, b) && StronglyReachable(a.h, Roots(a), r)
    ensures StronglyReachable(b.h, Roots(b), r)
  {
    hide Inv;
    var p :| StrongPath(a.h, p) && |p| > 0 && Ptr(p[0]) in Roots(a) && p[|p| - 1] == r;
    CarriesPath(a, b, p);
  }

  // Sweeping before the marking
  lemma CarriesThenPreserves(s: State, a: State, h': Heap)
    requires Inv(s) && Carries(s, a) && Preserves(a, h')
    ensures Preserves(s, h')
  {
    hide StronglyReachable, Inv, Slots, Carries;
    forall r | StronglyReachable(s.h, Roots(s), r) ensures r in h' { CarriesStrong(s, a, r); }
    forall r | r in h' ensures r in s.h && ContentsKept(s, h', r) { KeptBefore(s, a, h', r); }
  }

  lemma KeptBefore(s: State, a: State, h': Heap, r: Ref)
    requires Inv(s) && Carries(s, a) && r in a.h && r in h' && ContentsKept(a, h', r)
    ensures r in s.h && ContentsKept(s, h', r)
  {
    hide StronglyReachable, Inv, Slots;
    assert Same(s.h, a.h, r);
    forall i: nat | i < |s.h[r].keys| ensures EntryKept(s, h', r, i) {
      assert EntryKept(a, h', r, i);
      LostBefore(s, a, s.h[r].keys[i]);
      LostBefore(s, a, s.h[r].vals[i]);
    }
  }

  lemma LostBefore(s: State, a: State, v: Value)
    requires Inv(s) && Carries(s, a)
    ensures Lost(a, v) ==> Lost(s, v)
  {
    hide StronglyReachable, Inv, Slots;
    assert v.Ptr? && v.ref in a.h ==> Same(s.h, a.h, v.ref);
    if v.Ptr? && StronglyReachable(s.h, Roots(s), v.ref) { CarriesStrong(s, a, v.ref); }
  }

  // ----- the collections -----

  lemma SameHeapPreserves(s: State, s': State, h': Heap)
    requires s'.h == s.h && Roots(s') == Roots(s) && Preserves(s', h')
    ensures Preserves(s, h')
  {
    hide StronglyReachable;
    forall r | r in h' ensures r in s.h && ContentsKept(s, h', r) {
      assert ContentsKept(s', h', r);
      forall i: nat | i < |s.h[r].keys| ensures EntryKept(s, h', r, i) { assert EntryKept(s', h', r, i); }
    }
  }

  // The rest of a cycle, from the marking on
  lemma {:induction false} CyclePreserves(s: State)
    requires Inv(s) && s.phase.Propagate?
    ensures Preserves(s, RunUntil(s, Pause).h) && Roots(RunUntil(s, Pause)) == Roots(s)
    decreases Rank(s.phase), WorkSet(s), WorkLeft(s)
  {
    hide Inv, RunUntil, Preserves, Atomic, StronglyReachable, PropagateStep;
    RunUntilSteps(s, Pause);
    if s.m.gray != [] {
      hide SingleStep;
      MarkingStep(s);
      CyclePreserves(SingleStep(s));
      SameHeapPreserves(s, SingleStep(s), RunUntil(SingleStep(s), Pause).h);
    } else {
      AtomicPreserves(s);
      AtomicPhase(s);
      RunCarries(Atomic(s), Pause);
      hide SingleStep;
      PreservesThenCarries(s, Atomic(s), RunUntil(Atomic(s), Pause));
      CarriesRoots(Atomic(s), RunUntil(Atomic(s), Pause));
    }
  }

  lemma CarriesRoots(a: State, b: State)
    requires Carries(a, b)
    ensures Roots(b) == Roots(a)
  {
  }

  lemma MarkingStep(s: State)
    requires Inv(s) && s.phase.Propagate? && s.m.gray != []
    ensures SingleStep(s).h == s.h && Roots(SingleStep(s)) == Roots(s) && SingleStep(s).phase.Propagate?
  {
  }

  lemma AtomicPhase(s: State)
    requires Inv(s) && s.phase.Propagate?
    ensures Atomic(s).phase == SweepString && Roots(Atomic(s)) == Roots(s)
  {
  }

  // `luaC_fullgc` leaves all that the program strongly holds, as it is.
  lemma FullGcPreserves(s: State)
    requires Inv(s)
    ensures Preserves(s, FullGc(s).h)
  {
    hide Inv, RunUntil, Preserves, Carries;
    AbortKeeps(s);
    AbortSame(s);
    RunUntilKeeps(Abort(s), Finalize);
    var s1 := RunUntil(Abort(s), Finalize);
    RunCarries(Abort(s), Finalize);
    StartMarkKeeps(s1);
    CyclePreserves(StartMark(s1));
    hide Abort, StartMark;
    SameHeapPreserves(s1, StartMark(s1), FullGc(s).h);
    CarriesThenPreserves(Abort(s), s1, FullGc(s).h);
    SameHeapPreserves(s, Abort(s), FullGc(s).h);
  }

  lemma AbortSame(s: State)
    ensures Abort(s).h == s.h && Roots(Abort(s)) == Roots(s) && !Abort(s).phase.Propagate?
  {
  }

  // `singlestep` too.
  lemma SingleStepPreserves(s: State)
    requires Inv(s)
    ensures Preserves(s, SingleStep(s).h)
  {
    hide Preserves, Carries, Core, Colors, Atomic, PropagateStep, MarkRoot, SweepStringStep, SweepStep;
    if s.phase.SweepString? || s.phase.Sweep? || s.phase.Finalize? {
      StepCarries(s);
      hide SingleStep;
      CarriedPreserves(s, SingleStep(s));
    } else if s.phase.Propagate? && s.m.gray == [] {
      AtomicPreserves(s);
    } else {
      Unchanged(s);
      if s.phase.Pause? { SameHeapPause(s); } else { MarkingStep(s); }
    }
  }

  lemma CarriedPreserves(s: State, s': State)
    requires Inv(s) && Carries(s, s')
    ensures Preserves(s, s'.h)
  {
    hide StronglyReachable, Slots, Safe, Captures, Interned, Chained, Colors;
    forall r | StronglyReachable(s.h, Roots(s), r) ensures r in s'.h {
      StrongIsReachable(s.h, Roots(s), r);
      ReachableIsLive(s, r);
    }
    forall r | r in s'.h ensures r in s.h && ContentsKept(s, s'.h, r) { SameKept(s, s'.h, r); }
  }

  // ----- completeness -----

  lemma CarriedStrong(a: State, b: State, r: Ref)
    requires Carries(a, b) && r in b.h
    ensures r in a.h && Strong(a.h, r) == Strong(b.h, r)
  {
    assert Same(a.h, b.h, r);
    SameStrong(a.h, b.h, r);
  }

  // What is held after a sweep was held before.
  lemma CarriesPathBack(a: State, b: State, p: seq<Ref>)
    requires Carries(a, b) && StrongPath(b.h, p)
    ensures StrongPath(a.h, p)
  {
    hide Strong, Carries;
    forall i | 0 <= i < |p| ensures p[i] in a.h && Strong(a.h, p[i]) == Strong(b.h, p[i]) {
      CarriedStrong(a, b, p[i]);
    }
  }

  lemma CarriesStrongBack(a: State, b: State, r: Ref)
    requires Carries(a, b) && StronglyReachable(b.h, Roots(b), r)
    ensures StronglyReachable(a.h, Roots(a), r)
  {
    var p :| StrongPath(b.h, p) && |p| > 0 && Ptr(p[0]) in Roots(b) && p[|p| - 1] == r;
    CarriesPathBack(a, b, p);
  }

  lemma CarriesWeakString(a: State, b: State, r: Ref)
    requires Carries(a, b) && WeakString(b.h, Roots(b), r)
    ensures WeakString(a.h, Roots(a), r)
  {
    hide StronglyReachable, Slots;
    var t :| t in b.h && StronglyReachable(b.h, Roots(b), t) && Weak(b.h[t].kind) && Ptr(r) in Refs(b.h, t);
    CarriesStrongBack(a, b, t);
    assert Same(a.h, b.h, t) && Same(a.h, b.h, r);
    assert Refs(a.h, t) == Refs(b.h, t);
  }

  lemma FixedKinds(s: State, r: Ref)
    requires Inv(s) && r in s.fixed && r in s.h
    ensures r == s.main || s.h[r].kind.Str?
  {
  }

  lemma MainHeld(s: State)
    requires Inv(s)
    ensures StronglyReachable(s.h, Roots(s), s.main)
  {
    hide Colors, Safe, Captures, Interned, Chained, Strong;
    assert StrongPath(s.h, [s.main]) && Ptr(s.main) in Roots(s);
  }

  // What weak tables are for: a full collection leaves, of all objects but strings, exactly
  // those that the program strongly holds. Strings that are left are held, or fixed, or in a
  // weak table that is held.
  lemma FullGcExact(s: State, r: Ref)
    requires Inv(s)
    ensures StronglyReachable(s.h, Roots(s), r) ==> r in FullGc(s).h
    ensures r in FullGc(s).h ==>
      r in s.h && FullGc(s).h[r].kind.Str? == s.h[r].kind.Str? &&
      if s.h[r].kind.Str? then
        StronglyReachable(s.h, Roots(s), r) || WeakString(s.h, Roots(s), r) || r in FullGc(s).fixed
      else StronglyReachable(s.h, Roots(s), r)
  {
    hide Inv, StronglyReachable, Preserves, FullGc;
    FullGcPreserves(s);
    HeldAndKind(s, FullGc(s).h, r);
    if r in FullGc(s).h {
      LeftWasHeld(s, r);
      FullGcKeeps(s);
      if r in FullGc(s).fixed { FixedKinds(FullGc(s), r); }
      SameMain(s);
      MainHeld(s);
    }
  }

  lemma HeldAndKind(s: State, h': Heap, r: Ref)
    requires Preserves(s, h')
    ensures StronglyReachable(s.h, Roots(s), r) ==> r in h'
    ensures r in h' ==> r in s.h && h'[r].kind.Str? == s.h[r].kind.Str?
  {
    hide StronglyReachable;
    if r in h' { assert ContentsKept(s, h', r); }
  }

  lemma SameMain(s: State)
    requires Inv(s)
    ensures FullGc(s).main == s.main
  {
    hide Inv, RunUntil, Preserves, Carries, Abort, StartMark;
    AbortKeeps(s);
    AbortSame(s);
    RunUntilKeeps(Abort(s), Finalize);
    var s1 := RunUntil(Abort(s), Finalize);
    RunCarries(Abort(s), Finalize);
    CarriesRoots(Abort(s), s1);
    StartMarkKeeps(s1);
    CyclePreserves(StartMark(s1));
    assert Roots(FullGc(s))[0] == Ptr(FullGc(s).main) && Roots(s)[0] == Ptr(s.main);
  }

  lemma LeftWasHeld(s: State, r: Ref)
    requires Inv(s) && r in FullGc(s).h
    ensures r in FullGc(s).fixed || StronglyReachable(s.h, Roots(s), r) || WeakString(s.h, Roots(s), r)
  {
    hide Inv, RunUntil, Carries, StronglyReachable, WeakString;
    FullGcComplete(s, r);
    AbortSame(s);
    var s1 := RunUntil(Abort(s), Finalize);
    RunCarries(Abort(s), Finalize);
    hide Abort;
    if StronglyReachable(s1.h, Roots(s1), r) { CarriesStrongBack(Abort(s), s1, r); }
    if WeakString(s1.h, Roots(s1), r) { CarriesWeakString(Abort(s), s1, r); }
  }

  // ----- completeness without weak tables -----

  ghost predicate NoneWeak(h: Heap) {
    forall r :: r in h ==> !Weak(h[r].kind)
  }

  lemma CarriesNoneWeak(a: State, b: State)
    requires Carries(a, b) && NoneWeak(a.h)
    ensures NoneWeak(b.h)
  {
    forall r | r in b.h ensures !Weak(b.h[r].kind) { assert Same(a.h, b.h, r); }
  }

  lemma PathPreserved(s: State, h': Heap, p: seq<Ref>)
    requires NoneWeak(s.h) && Preserves(s, h') && Path(s.h, p) && |p| > 0 && Ptr(p[0]) in Roots(s)
    ensures Path(h', p)
  {
    hide Strong, Refs;
    forall i | 0 < i < |p| ensures Ptr(p[i]) in Strong(s.h, p[i - 1]) { StrongIsAll(s.h, p[i - 1]); }
    assert StrongPath(s.h, p);
    forall i | 0 <= i < |p| ensures p[i] in h' && Refs(h', p[i]) == Refs(s.h, p[i]) {
      assert StrongPath(s.h, p[..i + 1]);
      assert StronglyReachable(s.h, Roots(s), p[i]);
      assert p[i] in h';
      SameContents(s, h', p[i]);
    }
  }

  lemma StrongIsAll(h: Heap, r: Ref)
    requires r in h && !Weak(h[r].kind)
    ensures Strong(h, r) == Refs(h, r)
  {
  }

  lemma SameContents(s: State, h': Heap, r: Ref)
    requires r in s.h && r in h' && ContentsKept(s, h', r) && !Weak(s.h[r].kind)
    ensures Refs(h', r) == Refs(s.h, r)
  {
    hide Lost;
    forall i | 0 <= i < |s.h[r].keys| ensures h'[r].keys[i] == s.h[r].keys[i] && h'[r].vals[i] == s.h[r].vals[i] {
      assert EntryKept(s, h', r, i);
    }
    assert h'[r].keys == s.h[r].keys && h'[r].vals == s.h[r].vals;
  }

  lemma ReachablePreserved(s: State, h': Heap, r: Ref)
    requires NoneWeak(s.h) && Preserves(s, h') && Reachable(s.h, Roots(s), r)
    ensures Reachable(h', Roots(s), r)
  {
    hide Preserves;
    var p :| Path(s.h, p) && |p| > 0 && Ptr(p[0]) in Roots(s) && p[|p| - 1] == r;
    PathPreserved(s, h', p);
  }

  // Without weak tables, what a full collection leaves is fixed, or reachable when it is over.
  lemma FullGcLeavesReachable(s: State, r: Ref)
    requires Inv(s) && NoneWeak(s.h) && r in FullGc(s).h
    ensures r in FullGc(s).fixed || Reachable(FullGc(s).h, Roots(FullGc(s)), r)
  {
    hide Inv, RunUntil, Preserves, Carries, NoneWeak, Reachable, StronglyReachable, WeakString;
    FullGcComplete(s, r);
    AbortSame(s);
    RunUntilKeeps(Abort(s), Finalize);
    var s1 := RunUntil(Abort(s), Finalize);
    RunCarries(Abort(s), Finalize);
    SameNoneWeak(s.h, Abort(s).h);
    CarriesNoneWeak(Abort(s), s1);
    StartMarkKeeps(s1);
    CyclePreserves(StartMark(s1));
    hide Abort, StartMark;
    SameHeapPreserves(s1, StartMark(s1), FullGc(s).h);
    if WeakString(s1.h, Roots(s1), r) { NoWeakString(s1.h, Roots(s1), r); }
    if StronglyReachable(s1.h, Roots(s1), r) {
      StrongIsReachable(s1.h, Roots(s1), r);
      ReachablePreserved(s1, FullGc(s).h, r);
    }
  }

  lemma NoWeakString(h: Heap, roots: seq<Value>, r: Ref)
    requires NoneWeak(h)
    ensures !WeakString(h, roots, r)
  {
  }

  lemma SameNoneWeak(h: Heap, h': Heap)
    requires NoneWeak(h) && h' == h
    ensures NoneWeak(h')
  {
  }
}
