/**
 `luaC_fullgc`: it ends from whatever phase it starts in, the sweep of an aborted mark frees
 nothing, and everything left in the end is reachable or fixed.
 */
module GcFull {
  import opened GcHeap
  import opened GcMark
  import opened GcPropagate
  import opened GcAtomic
  import opened GcState
  import opened GcSweep
  import opened GcCycle
  import opened GcCollect
  import opened GcStep
  import opened GcWithin
  import GcWeak

  // ----- termination -----

  function Rank(p: Phase): nat {
    match p
    case Pause => 0
    case Finalize => 1
    case Sweep => 2
    case SweepString => 3
    case Propagate => 4
  }

  // What is left to do in a phase
  ghost function WorkSet(s: State): set<Ref> {
    match s.phase
    case Propagate => Pending(s.m)
    case Sweep => s.h.Keys
    case _ => {}
  }

  function WorkLeft(s: State): int {
    match s.phase
    case SweepString => |s.strt| - s.sweepstrgc
    case Sweep => Unswept(s)
    case _ => 0
  }

  ghost predicate Less(s: State, t: State) {
    || Rank(s.phase) < Rank(t.phase)
    || (Rank(s.phase) == Rank(t.phase) &&
        (WorkSet(s) < WorkSet(t) || (WorkSet(s) == WorkSet(t) && WorkLeft(s) < WorkLeft(t) && WorkLeft(t) >= 0)))
  }

  lemma StepProgress(s: State)
    requires Inv(s) && !s.phase.Pause?
    ensures Less(SingleStep(s), s)
  {
    hide Core;
    match s.phase {
      case Propagate =>
        if s.m.gray != [] {
          SoundForMarking(s);
          hide Sound, KindColors, Fresh, Lists;
          PropagateMarkProgress(s.h, s.m);
        }
      case SweepString => StringProgress(s);
      case Sweep => ObjectProgress(s);
      case Finalize =>
    }
  }

  lemma SoundForMarking(s: State)
    requires Inv(s) && s.phase.Propagate?
    ensures Fits(s.h, s.m) && Lists(s.h, s.m)
  {
    SoundWhenNoneDead(s);
  }

  lemma StringProgress(s: State)
    requires Inv(s) && s.phase.SweepString?
    ensures Less(SingleStep(s), s)
  {
    hide Core, Sweeps, SweepBucket, KindColors, WhiteBucket, Colors, Keeps;
    StringsBeingSwept(s);
    SweepBucketKeeps(s, s.sweepstrgc, 0);
  }

  lemma StringsBeingSwept(s: State)
    requires Inv(s) && s.phase.SweepString?
    ensures Core(s) && s.sweepstrgc < |s.strt| && WhitePrefix(s, s.sweepstrgc, 0)
  {
    hide Core, KindColors;
  }

  lemma ObjectProgress(s: State)
    requires Inv(s) && s.phase.Sweep?
    ensures Less(SingleStep(s), s)
  {
    hide Core, Sweeps, SweepObjects;
    SweepObjectsKeeps(s, GCSWEEPMAX);
    SweepsPhase(s, SweepObjects(s, GCSWEEPMAX)) by { SweepStepKeeps(s); }
  }

  // The two loops of `luaC_fullgc`
  function RunUntil(s: State, p: Phase): State
    requires Inv(s) && (p.Pause? || p.Finalize?) && Rank(s.phase) >= Rank(p)
    decreases Rank(s.phase), WorkSet(s), WorkLeft(s)
  {
    hide Inv, SingleStep;
    if s.phase == p then s
    else
      SingleStepKeeps(s);
      StepProgress(s);
      StepRank(s, p);
      RunUntil(SingleStep(s), p)
  }

  lemma StepRank(s: State, p: Phase)
    requires Inv(s) && (p.Pause? || p.Finalize?) && Rank(s.phase) > Rank(p)
    ensures Rank(SingleStep(s).phase) >= Rank(p)
  {
    hide Core, SweepBucket, SweepObjects, Sweeps;
    if s.phase.Sweep? {
      SweepStepKeeps(s);
      SweepsPhase(s, SweepObjects(s, GCSWEEPMAX));
    }
  }

  lemma RunUntilSteps(s: State, p: Phase)
    requires Inv(s) && (p.Pause? || p.Finalize?) && Rank(s.phase) > Rank(p)
    ensures Inv(SingleStep(s)) && Rank(SingleStep(s).phase) >= Rank(p) && Less(SingleStep(s), s)
    ensures RunUntil(s, p) == RunUntil(SingleStep(s), p)
  {
    hide Inv, SingleStep, Less;
    SingleStepKeeps(s);
    StepProgress(s);
    StepRank(s, p);
  }

  lemma {:induction false} RunUntilKeeps(s: State, p: Phase)
    requires Inv(s) && (p.Pause? || p.Finalize?) && Rank(s.phase) >= Rank(p)
    ensures Inv(RunUntil(s, p)) && RunUntil(s, p).phase == p
    decreases Rank(s.phase), WorkSet(s), WorkLeft(s)
  {
    if s.phase != p {
      hide Inv, SingleStep, RunUntil;
      RunUntilSteps(s, p);
      RunUntilKeeps(SingleStep(s), p);
    }
  }

  // ----- luaC_fullgc -----

  // An unfinished mark is given up: its marks are swept away.
  function Abort(s: State): State {
    if s.phase.Pause? || s.phase.Propagate? then
      s.(m := Mark(s.m.color, [], [], []), phase := SweepString, sweepstrgc := 0, sweepgc := 0)
    else s
  }

  lemma AbortKeeps(s: State)
    requires Inv(s)
    ensures Inv(Abort(s)) && Rank(Abort(s).phase) >= Rank(Finalize)
    ensures s.phase.Pause? || s.phase.Propagate? ==> NoneDead(Abort(s))
  {
    var s' := Abort(s);
    if s.phase.Pause? || s.phase.Propagate? {
      assert |s.strt| > 0;
      assert KindColors(s.h, s.m.color, {});
      AbortNoneDead(s);
      hide KindColors, Core, Tricolor;
      RecoloredSafe(s.(sweepstrgc := 0, sweepgc := 0), s') by { SameButPhase(s, s.(sweepstrgc := 0, sweepgc := 0)); }
    }
  }

  lemma AbortNoneDead(s: State)
    requires Inv(s) && (s.phase.Pause? || s.phase.Propagate?)
    ensures NoneDead(s) && NoneDead(Abort(s)) && NoneDead(s.(sweepstrgc := 0, sweepgc := 0))
    ensures s.m.color.Keys == s.h.Keys
  {
    hide Safe, Captures, Interned, Chained, Tricolor;
    assert White(s.white);
  }

  lemma IdleWhite(s: State)
    requires Inv(s) && (s.phase.Finalize? || s.phase.Pause?)
    ensures Core(s) && AllWhite(s)
  {
    hide Core;
  }

  // `markroot` once nothing is left of the previous cycle
  function StartMark(s: State): State
    requires Inv(s) && s.phase.Finalize?
  {
    IdleWhite(s);
    MarkRootKeeps(s);
    MarkRoot(s)
  }

  lemma StartMarkKeeps(s: State)
    requires Inv(s) && s.phase.Finalize?
    ensures Inv(StartMark(s)) && StartMark(s).phase == Propagate
    ensures StartMark(s).h == s.h && Roots(StartMark(s)) == Roots(s) && StartMark(s).fixed == s.fixed
  {
    IdleWhite(s);
    MarkRootKeeps(s);
  }

  function FullGc(s: State): State
    requires Inv(s)
  {
    hide Inv, RunUntil, Abort, StartMark;
    AbortKeeps(s);
    RunUntilKeeps(Abort(s), Finalize);
    StartMarkKeeps(RunUntil(Abort(s), Finalize));
    RunUntil(StartMark(RunUntil(Abort(s), Finalize)), Pause)
  }

  // From any phase it ends with all objects white, ready for the next cycle.
  lemma FullGcKeeps(s: State)
    requires Inv(s)
    ensures Inv(FullGc(s)) && FullGc(s).phase == Pause
  {
    hide Inv, RunUntil, Abort, StartMark;
    AbortKeeps(s);
    RunUntilKeeps(Abort(s), Finalize);
    var s1 := RunUntil(Abort(s), Finalize);
    StartMarkKeeps(s1);
    RunUntilKeeps(StartMark(s1), Pause);
  }

  // ----- the sweep of an aborted mark -----

  lemma RunUntilThere(s: State, p: Phase)
    requires Inv(s) && (p.Pause? || p.Finalize?) && s.phase == p
    ensures RunUntil(s, p) == s
  {
  }

  lemma {:induction false} SweepNothing(s: State)
    requires Inv(s) && NoneDead(s) && (s.phase.SweepString? || s.phase.Sweep? || s.phase.Finalize?)
    ensures RunUntil(s, Finalize).h.Keys == s.h.Keys
    decreases Rank(s.phase), WorkSet(s), WorkLeft(s)
  {
    hide Inv, SingleStep, NoneDead, RunUntil;
    if s.phase.Finalize? {
      RunUntilThere(s, Finalize);
    } else {
      NothingDead(s);
      RunUntilSteps(s, Finalize);
      SweepNothing(SingleStep(s));
    }
  }

  lemma NothingDead(s: State)
    requires Inv(s) && NoneDead(s) && (s.phase.SweepString? || s.phase.Sweep?)
    ensures SingleStep(s).h.Keys == s.h.Keys && NoneDead(SingleStep(s))
    ensures !SingleStep(s).phase.Pause? && !SingleStep(s).phase.Propagate?
  {
    InHeapColored(s);
    hide Core, SweepBucket, SweepObjects, Colors;
    StepRank(s, Finalize);
    if s.phase.SweepString? {
      SweepStringStepKeeps(s);
      SweptNothing(s, SweepBucket(s, s.sweepstrgc, 0));
    } else {
      SweepStepKeeps(s);
      SweptNothing(s, SweepObjects(s, GCSWEEPMAX));
    }
  }

  lemma SweptNothing(s: State, s': State)
    requires Sweeps(s, s') && NoneDead(s) && White(s.white) && s.m.color.Keys == s.h.Keys
    ensures s'.h.Keys == s.h.Keys && NoneDead(s') && s'.phase == s.phase
  {
    hide Refs;
    forall x | x in s.h ensures x in s'.h { assert !Dead(s, x); }
    assert s'.h.Keys == s.h.Keys by { SweepsKeys(s, s'); }
    forall x | x in s'.h ensures !Dead(s', x) {
      assert !Dead(s, x);
    }
  }

  lemma AbortedMarkFreesNothing(s: State)
    requires Inv(s) && (s.phase.Pause? || s.phase.Propagate?)
    ensures Inv(Abort(s)) && Rank(Abort(s).phase) >= Rank(Finalize)
    ensures RunUntil(Abort(s), Finalize).h.Keys == s.h.Keys
  {
    AbortKeeps(s);
    hide Inv, RunUntil;
    SweepNothing(Abort(s));
  }

  // ----- completeness -----

  // `y` contains `x` and the strings that weak tables of `x` refer to.
  ghost predicate WithStrings(h: Heap, x: set<Ref>, y: set<Ref>) {
    x <= y && forall t :: t in x && t in h && Weak(h[t].kind) ==> HasStrings(h, t, y)
  }

  // In the course of one cycle: everything marked lies in `x`, and later everything not dead
  // in `y`, except what is fixed.
  ghost predicate CycleIn(s: State, x: set<Ref>, y: set<Ref>) {
    if s.phase.Propagate? then
      Through(s.h, x) && MarkedIn(s.m.color, x) && Inside(x, Roots(s)) && WithStrings(s.h, x, y)
    else forall q :: q in s.h ==> Dead(s, q) || q in y || q in s.fixed
  }

  lemma StepCycleIn(s: State, x: set<Ref>, y: set<Ref>)
    requires Inv(s) && !s.phase.Pause? && CycleIn(s, x, y)
    ensures CycleIn(SingleStep(s), x, y)
  {
    match s.phase {
      case Propagate => if s.m.gray != [] { PropagateStepIn(s, x, y); } else { AtomicIn(s, x, y); }
      case SweepString =>
        hide Core, Colors, SweepBucket, Sweeps;
        InHeapColored(s);
        SweepStringStepKeeps(s);
        SweptIn(s, SweepBucket(s, s.sweepstrgc, 0), x, y);
      case Sweep =>
        hide Core, Colors, SweepObjects, Sweeps;
        InHeapColored(s);
        SweepStepKeeps(s);
        SweptIn(s, SweepObjects(s, GCSWEEPMAX), x, y);
      case Finalize =>
    }
  }

  lemma SweptIn(s: State, s': State, x: set<Ref>, y: set<Ref>)
    requires Sweeps(s, s') && White(s.white) && s.m.color.Keys == s.h.Keys && !s.phase.Propagate? && CycleIn(s, x, y)
    ensures forall q :: q in s'.h && q in s'.m.color ==> Dead(s', q) || q in y || q in s'.fixed
  {
    hide Refs;
  }

  lemma PropagateStepIn(s: State, x: set<Ref>, y: set<Ref>)
    requires Inv(s) && s.phase.Propagate? && s.m.gray != [] && CycleIn(s, x, y)
    ensures CycleIn(PropagateStep(s), x, y)
  {
    SoundForMarking(s);
    hide Inv, Lists, PropagateMark, Sound, Through;
    PropagateWithin(s.h, s.m, x) by { GraysListed(s); }
    assert Roots(PropagateStep(s)) == Roots(s);
  }

  lemma GraysListed(s: State)
    requires Lists(s.h, s.m)
    ensures GrayList(s.h, s.m.color, s.m.gray)
  {
  }

  lemma AtomicIn(s: State, x: set<Ref>, y: set<Ref>)
    requires Inv(s) && s.phase.Propagate? && CycleIn(s, x, y)
    ensures CycleIn(Atomic(s), x, y)
  {
    hide Inv, AtomicMarked, FullyMarked, Through, Inside, WithStrings, GcWeak.ClearTables, GcWeak.Ok, GcWeak.Tables;
    AtomicMarkedIn(s, x, y);
    AtomicMarkedFully(s);
    InHeapColored(s);
    var m := AtomicMarked(s);
    MarkedTables(s, m);
    ClearedIn(s, m, x, y);
    AtomicColors(s, GcWeak.ClearTables(GcWeak.Cleared(s.h, m.color), m.weak), x, y);
  }

  lemma AtomicColors(s: State, c: GcWeak.Cleared, x: set<Ref>, y: set<Ref>)
    requires Inv(s) && s.phase.Propagate? && White(s.white)
    requires c.h.Keys == s.h.Keys && forall q :: q in s.h && q in c.color ==> c.color[q] == s.white || q in y
    requires Atomic(s).m.color == c.color && Atomic(s).h == c.h && Atomic(s).white == Flip(s.white)
    requires !Atomic(s).phase.Propagate?
    ensures CycleIn(Atomic(s), x, y)
  {
    AtomicKeeps(s);
    InHeapColored(Atomic(s));
    hide Inv, Atomic, Through, Inside;
  }

  lemma AtomicMarkedIn(s: State, x: set<Ref>, y: set<Ref>)
    requires Inv(s) && s.phase.Propagate? && CycleIn(s, x, y)
    ensures MarkedIn(AtomicMarked(s).color, x)
  {
    AtomicMarkedIs(s);
    assert Inside(x, LateRoots(s)) by {
      assert forall v :: v in LateRoots(s) ==> v in Roots(s);
    }
    hide Inv, Tricolor, Sound, Known, AtomicMarked, AtomicMarks, Through;
    AtomicWithin(s.h, s.m, s.uvhead, LateRoots(s), x);
  }

  lemma ClearedIn(s: State, m: Mark, x: set<Ref>, y: set<Ref>)
    requires FullyMarked(s, m) && MarkedIn(m.color, x) && White(s.white)
    requires GcWeak.Ok(GcWeak.Cleared(s.h, m.color)) && GcWeak.Tables(s.h, m.weak)
    requires Through(s.h, x) && WithStrings(s.h, x, y)
    ensures var c := GcWeak.ClearTables(GcWeak.Cleared(s.h, m.color), m.weak);
      c.h.Keys == s.h.Keys && forall q :: q in s.h && q in c.color ==> c.color[q] == s.white || q in y
  {
    WeakInside(s, m, x, y);
    var c0 := GcWeak.Cleared(s.h, m.color);
    GcWeak.ClearTablesTrims(c0, m.weak);
    AtomicWhites(s, m, GcWeak.ClearTables(c0, m.weak));
    hide FullyMarked, GcWeak.Trimmed, GcWeak.Ok, GcWeak.Tables;
    ClearTablesWithin(c0, m.weak, y);
  }

  lemma AtomicMarkedIs(s: State)
    requires Inv(s) && s.phase.Propagate?
    ensures AllOpen(s.h, s.uvhead) && Fits(s.h, s.m) && Tricolor(s.h, s.m, {}) && Known(s.h, LateRoots(s))
    ensures AtomicMarked(s) == AtomicMarks(s.h, s.m, s.uvhead, LateRoots(s))
  {
    AtomicReady(s);
  }

  lemma WeakInside(s: State, m: Mark, x: set<Ref>, y: set<Ref>)
    requires FullyMarked(s, m) && MarkedIn(m.color, x) && Through(s.h, x) && WithStrings(s.h, x, y)
    ensures forall t :: t in m.weak ==> t in s.h && HasStrings(s.h, t, y)
    ensures MarkedIn(m.color, y)
  {
    hide Sound, Fresh, KindColors, Through, HasStrings;
    forall t | t in m.weak ensures t in s.h && HasStrings(s.h, t, y) {
      assert t in x;
      if !Weak(s.h[t].kind) { StrongStrings(s.h, x, t, y); }
    }
  }

  lemma StrongStrings(h: Heap, x: set<Ref>, t: Ref, y: set<Ref>)
    requires t in h && t in x && !Weak(h[t].kind) && Through(h, x) && x <= y
    ensures HasStrings(h, t, y)
  {
    assert Refs(h, t) == Strong(h, t) && Inside(x, Strong(h, t));
  }

  lemma AtomicWhites(s: State, m: Mark, c: GcWeak.Cleared)
    requires FullyMarked(s, m) && GcWeak.Trimmed(GcWeak.Cleared(s.h, m.color), c) && White(s.white)
    ensures c.h.Keys == s.h.Keys && forall q :: q in s.h && q in c.color && White(c.color[q]) ==> c.color[q] == s.white
  {
    hide Sound, Fresh, Tricolor;
  }

  lemma {:induction false} CycleStaysIn(s: State, x: set<Ref>, y: set<Ref>)
    requires Inv(s) && CycleIn(s, x, y)
    ensures CycleIn(RunUntil(s, Pause), x, y)
    decreases Rank(s.phase), WorkSet(s), WorkLeft(s)
  {
    if !s.phase.Pause? {
      hide Inv, SingleStep, CycleIn, RunUntil;
      RunUntilSteps(s, Pause);
      StepCycleIn(s, x, y);
      CycleStaysIn(SingleStep(s), x, y);
    }
  }

  lemma StartIn(s: State, x: set<Ref>, y: set<Ref>)
    requires Inv(s) && s.phase.Finalize? && Through(s.h, x) && Inside(x, Roots(s)) && WithStrings(s.h, x, y)
    ensures CycleIn(StartMark(s), x, y)
  {
    IdleWhite(s);
    MarkRootKeeps(s);
    var m := Mark(s.m.color, [], [], []);
    var vs := [Ptr(s.main), Globals(s.h, s.main), s.registry] + s.mt;
    assert Globals(s.h, s.main) in Strong(s.h, s.main) && Globals(s.h, s.main) in Refs(s.h, s.main);
    assert Ptr(s.main) in Roots(s) && Inside(x, Strong(s.h, s.main));
    assert Inside(x, vs) by {
      assert forall v :: v in vs ==> v in Roots(s) || v == Globals(s.h, s.main);
    }
    InHeapColored(s);
    hide Core, Through, Sound;
    MarkValsWithin(s.h, m, vs, x);
  }

  // Completeness: a full collection leaves only what was strongly reachable when its mark phase
  // began, fixed objects, and strings in weak tables.
  lemma FullGcComplete(s: State, r: Ref)
    requires Inv(s) && r in FullGc(s).h
    ensures Inv(Abort(s)) && Rank(Abort(s).phase) >= Rank(Finalize)
    ensures var s1 := RunUntil(Abort(s), Finalize);
      r in FullGc(s).fixed || StronglyReachable(s1.h, Roots(s1), r) || WeakString(s1.h, Roots(s1), r)
  {
    AbortKeeps(s);
    RunUntilKeeps(Abort(s), Finalize);
    var s1 := RunUntil(Abort(s), Finalize);
    hide Abort, RunUntil;
    var x, y := HeldNow(s1);
    StartMarkKeeps(s1);
    StartIn(s1, x, y);
    CycleStaysIn(StartMark(s1), x, y);
    FullGcKeeps(s);
    CycleOver(FullGc(s), x, y, r);
  }

  lemma CycleOver(s: State, x: set<Ref>, y: set<Ref>, r: Ref)
    requires Inv(s) && s.phase.Pause? && CycleIn(s, x, y) && r in s.h
    ensures r in y || r in s.fixed
  {
    IdleWhite(s);
    InHeapColored(s);
    hide Core;
  }

  // What is strongly reachable, and the strings that weak tables of it refer to
  lemma HeldNow(s: State) returns (x: set<Ref>, y: set<Ref>)
    requires Inv(s) && (s.phase.Finalize? || s.phase.Pause?)
    ensures Through(s.h, x) && Inside(x, Roots(s)) && WithStrings(s.h, x, y)
    ensures forall r :: r in y ==> StronglyReachable(s.h, Roots(s), r) || WeakString(s.h, Roots(s), r)
  {
    IdleWhite(s);
    assert NoneDead(s) by { InHeapColored(s); }
    SoundWhenNoneDead(s);
    hide *;
    x := HeldSet(s.h, Roots(s));
    y := HeldStrings(s.h, Roots(s), x);
  }

  lemma HeldSet(h: Heap, roots: seq<Value>) returns (x: set<Ref>)
    requires Sound(h) && Known(h, roots)
    ensures Through(h, x) && Inside(x, roots)
    ensures forall r :: r in x ==> r in h && StronglyReachable(h, roots, r)
  {
    hide StronglyReachable, Strong, Sound;
    forall r, c | r in h && Ptr(c) in Strong(h, r) ensures c in h { KnownRef(h, r, Ptr(c)); }
    forall r | Ptr(r) in roots ensures r in h {
      var v := Ptr(r);
      assert v in roots && v.Ptr?;
    }
    x := StrongSetIsClosed(h, roots);
    forall r | r in x && r in h ensures Inside(x, Strong(h, r)) {
      forall v | v in Strong(h, r) && v.Ptr? ensures v.ref in x { assert Ptr(v.ref) in Strong(h, r); }
    }
    forall v | v in roots && v.Ptr? ensures v.ref in x { assert Ptr(v.ref) in roots; }
  }

  lemma HeldStrings(h: Heap, roots: seq<Value>, x: set<Ref>) returns (y: set<Ref>)
    requires forall r :: r in x ==> r in h && StronglyReachable(h, roots, r)
    ensures WithStrings(h, x, y)
    ensures forall r :: r in y ==> StronglyReachable(h, roots, r) || WeakString(h, roots, r)
  {
    hide StronglyReachable, Refs;
    y := x + set r | r in h && WeakString(h, roots, r);
    forall t | t in x && t in h && Weak(h[t].kind) ensures HasStrings(h, t, y) {
      forall v | v in Refs(h, t) && v.Ptr? && v.ref in h && h[v.ref].kind.Str? ensures v.ref in y {
        assert v == Ptr(v.ref);
        assert WeakString(h, roots, v.ref);
      }
    }
  }

  lemma KnownRef(h: Heap, r: Ref, v: Value)
    requires Sound(h) && r in h && v in Strong(h, r) && v.Ptr?
    ensures v.ref in h
  {
    assert v in Refs(h, r) && Known(h, Refs(h, r));
  }
}
