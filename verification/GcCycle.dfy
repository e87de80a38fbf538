/**
 One cycle of the collector outside the sweep: the start of marking, its steps, and the
 atomic end that makes the white objects dead.
 */
module GcCycle {
  import opened GcHeap
  import opened GcMark
  import opened GcPropagate
  import opened GcAtomic
  import opened GcWeak
  import opened GcState

  lemma SoundWhenNoneDead(s: State)
    requires Basic(s) && Safe(s) && NoneDead(s)
    ensures Sound(s.h) && Fits(s.h, s.m) && Known(s.h, Roots(s))
  {
    forall r | r in s.h ensures Known(s.h, Refs(s.h, r)) {
      assert Live(s, r) && AllLive(s, Refs(s.h, r));
    }
  }

  // Colours may change freely among those that are not dead.
  lemma RecoloredSafe(s: State, s': State)
    requires Core(s) && NoneDead(s) && NoneDead(s')
    requires s' == s.(m := s'.m, phase := s'.phase) && s'.m.color.Keys == s.h.Keys
    ensures Core(s')
  {
    assert Roots(s') == Roots(s);
    hide Refs, Captures, Interned, Chained;
    assert forall r :: Live(s', r) <==> Live(s, r);
    forall x | Live(s', x) ensures AllLive(s', Refs(s'.h, x)) {
      assert AllLive(s, Refs(s.h, x));
    }
  }

  // The global table is the first slot of a thread.
  function Globals(h: Heap, t: Ref): Value
    requires t in h && |h[t].slots| > 0
  {
    h[t].slots[0]
  }

  // `markroot`
  function MarkRoot(s: State): State
    requires Basic(s) && Sound(s.h) && Known(s.h, Roots(s))
  {
    var m := Mark(s.m.color, [], [], []);
    assert Globals(s.h, s.main) in Refs(s.h, s.main);
    s.(m := MarkVals(s.h, m, [Ptr(s.main), Globals(s.h, s.main), s.registry] + s.mt), phase := Propagate)
  }

  lemma MarkRootColors(s: State)
    requires Basic(s) && AllWhite(s) && Sound(s.h) && Known(s.h, Roots(s))
    ensures Marking(MarkRoot(s))
  {
    var m := Mark(s.m.color, [], [], []);
    var vs := [Ptr(s.main), Globals(s.h, s.main), s.registry] + s.mt;
    assert Globals(s.h, s.main) in Refs(s.h, s.main);
    var m' := MarkVals(s.h, m, vs);
    assert Tricolor(s.h, m, {});
    MarkingKeepsTricolor(s.h, m, m', {});
    hide Tricolor, MarkVals, Sound;
    GrowsNotDead(s, m, m');
    assert Colored(m'.color, [Ptr(s.main), s.registry]) by {
      assert Ptr(s.main) in vs && s.registry in vs;
    }
  }

  lemma MarkRootKeys(s: State)
    requires Basic(s) && Sound(s.h) && Known(s.h, Roots(s))
    ensures MarkRoot(s).m.color.Keys == s.h.Keys
    ensures MarkRoot(s) == s.(m := MarkRoot(s).m, phase := Propagate)
  {
  }

  lemma MarkRootKeeps(s: State)
    requires Core(s) && AllWhite(s)
    ensures Sound(s.h) && Known(s.h, Roots(s)) && Inv(MarkRoot(s))
  {
    assert NoneDead(s);
    SoundWhenNoneDead(s);
    MarkRootColors(s);
    MarkRootKeys(s);
    hide MarkVals, Core, Sound, Tricolor, Known;
    RecoloredSafe(s, MarkRoot(s));
  }

  lemma GrowsNotDead(s: State, m: Mark, m': Mark)
    requires White(s.white) && Grows(s.h, m, m')
    requires forall r :: r in s.h ==> m.color[r] != Flip(s.white)
    ensures m'.color.Keys == s.h.Keys && forall r :: r in s.h ==> m'.color[r] != Flip(s.white)
  {
  }

  lemma LaterNotDead(s: State, m: Mark, m': Mark)
    requires m'.color.Keys == s.h.Keys == m.color.Keys
    requires forall r :: r in s.h ==> m.color[r] != Flip(s.white)
    requires forall r :: r in s.h && White(m'.color[r]) ==> m'.color[r] == m.color[r]
    ensures White(s.white) ==> forall r :: r in s.h ==> m'.color[r] != Flip(s.white)
  {
  }

  // One step of marking
  function PropagateStep(s: State): State
    requires Inv(s) && s.phase.Propagate? && s.m.gray != []
  {
    SoundWhenNoneDead(s);
    s.(m := PropagateMark(s.h, s.m))
  }

  lemma FreshAll(h: Heap, m: Mark)
    requires Fits(h, m)
    ensures Fresh(h, m, h.Keys)
  {
  }

  lemma GrayOfTricolor(h: Heap, m: Mark)
    requires Tricolor(h, m, {})
    ensures GrayList(h, m.color, m.gray)
  {
  }

  lemma PropagateStepKeeps(s: State)
    requires Inv(s) && s.phase.Propagate? && s.m.gray != []
    ensures Inv(PropagateStep(s))
  {
    hide PropagateMark, Tricolor, Lists, GrayList, Sound, Fresh, Safe, Captures, Interned, Chained;
    SoundWhenNoneDead(s);
    GrayOfTricolor(s.h, s.m);
    FreshAll(s.h, s.m);
    PropagateMarkKeeps(s.h, s.m, s.h.Keys);
    var m' := PropagateMark(s.h, s.m);
    LaterNotDead(s, s.m, m');
    RecoloredSafe(s, s.(m := m'));
    assert Colored(m'.color, [Ptr(s.main), s.registry]);
  }

  // ----- the atomic step -----

  // The roots that have no barrier: the running thread and the basic metatables
  function LateRoots(s: State): seq<Value> {
    [Ptr(s.running)] + s.mt
  }

  lemma AtomicReady(s: State)
    requires Inv(s) && s.phase.Propagate?
    ensures Fits(s.h, s.m) && Tricolor(s.h, s.m, {}) && AllOpen(s.h, s.uvhead) && Known(s.h, LateRoots(s))
  {
    SoundWhenNoneDead(s);
    hide Sound, Safe;
    assert forall v :: v in LateRoots(s) ==> v in Roots(s);
  }

  function AtomicMarked(s: State): Mark
    requires Inv(s) && s.phase.Propagate?
  {
    AtomicReady(s);
    AtomicMarks(s.h, s.m, s.uvhead, LateRoots(s))
  }

  // What the mark phase has established when it ends.
  ghost predicate FullyMarked(s: State, m: Mark) {
    && Fits(s.h, m) && Tricolor(s.h, m, {}) && m.gray == [] && Fresh(s.h, m, {})
    && Colored(m.color, Roots(s))
    && (forall r :: r in s.h && White(m.color[r]) ==> m.color[r] == s.white)
    && (forall x :: x in m.grayagain ==> x in s.h && s.h[x].kind.Thread?)
  }

  lemma AllRootsMarked(s: State, m: Mark)
    requires Colored(s.m.color, [Ptr(s.main), s.registry]) && Colored(m.color, LateRoots(s))
    requires m.color.Keys == s.m.color.Keys
    requires forall r :: r in s.m.color && !White(s.m.color[r]) ==> !White(m.color[r])
    ensures Colored(m.color, Roots(s))
  {
    forall v | v in Roots(s) && v.Ptr? ensures v.ref in m.color && !White(m.color[v.ref]) {
      assert v in LateRoots(s) || v in [Ptr(s.main), s.registry];
    }
  }

  lemma MarkingFacts(s: State)
    requires Inv(s) && s.phase.Propagate?
    ensures Colored(s.m.color, [Ptr(s.main), s.registry]) && s.m.color.Keys == s.h.Keys && Basic(s) && NoneDead(s)
    ensures forall r :: r in s.h && White(s.m.color[r]) ==> s.m.color[r] == s.white
  {
    hide Tricolor, Safe, Captures, Interned, Chained, Colored;
    forall r | r in s.h && White(s.m.color[r]) ensures s.m.color[r] == s.white {
      assert !Dead(s, r);
    }
  }

  lemma AtomicMarkedFully(s: State)
    requires Inv(s) && s.phase.Propagate?
    ensures FullyMarked(s, AtomicMarked(s))
  {
    hide Inv, Tricolor, Fresh, Sound, Colored, AllOpen, Known;
    AtomicReady(s);
    AtomicMarksComplete(s.h, s.m, s.uvhead, LateRoots(s));
    var m := AtomicMarks(s.h, s.m, s.uvhead, LateRoots(s));
    assert m == AtomicMarked(s);
    hide AtomicMarks, AtomicMarked;
    MarkingFacts(s);
    AllRootsMarked(s, m);
  }

  lemma MarkedTables(s: State, m: Mark)
    requires FullyMarked(s, m)
    ensures Tables(s.h, m.weak) && Ok(Cleared(s.h, m.color))
  {
    hide Fresh, Sound, KindColors;
  }

  // `cleartable` on the weak tables found, then the flip of the current white: from here
  // on the objects that are still white are dead.
  function Atomic(s: State): State
    requires Inv(s) && s.phase.Propagate?
  {
    AtomicMarkedFully(s);
    var m := AtomicMarked(s);
    MarkedTables(s, m);
    var c := ClearTables(Cleared(s.h, m.color), m.weak);
    s.(h := c.h, m := m.(color := c.color), white := Flip(s.white),
       phase := SweepString, sweepstrgc := 0, sweepgc := 0)
  }

  lemma TrimmedLists(a: Cleared, b: Cleared)
    requires Trimmed(a, b)
    ensures forall q :: Captures(a.h, q) ==> Captures(b.h, q)
    ensures forall q :: Interned(a.h, q) ==> Interned(b.h, q)
    ensures forall q :: Chained(a.h, q) ==> Chained(b.h, q)
  {
    forall q | Captures(a.h, q) ensures Captures(b.h, q) {
      forall t | t in b.h && b.h[t].kind.Thread? ensures OpenList(b.h, t, b.h[t].kind.openupval) {
        assert OpenList(a.h, t, a.h[t].kind.openupval);
      }
      forall u | u in b.h && OpenUpval(b.h[u].kind) ensures Attached(b.h, u) {
        assert Attached(a.h, u);
      }
    }
    forall q | Interned(a.h, q) ensures Interned(b.h, q) {
      hide Hash;
      forall i | 0 <= i < |q| ensures InBucket(b.h, q, i) && Distinct(q[i]) {
        assert InBucket(a.h, q, i);
      }
    }
  }

  // After clearing, no marked object refers to a white one.
  lemma ClearedSafe(s: State, m: Mark, c: Cleared, r: Ref)
    requires FullyMarked(s, m) && Tables(s.h, m.weak) && Ok(Cleared(s.h, m.color))
    requires c == ClearTables(Cleared(s.h, m.color), m.weak)
    requires r in s.h && r in c.color && !White(c.color[r])
    ensures r in c.h && Colored(c.color, Refs(c.h, r))
  {
    if !White(m.color[r]) && r !in m.weak {
      MarkedThroughExceptWeak(s.h, m, r);
    }
    if r in m.weak {
      assert Colored(m.color, Strong(s.h, r));
      assert forall v :: v in Slots(s.h, r) ==> v in Strong(s.h, r);
    }
    hide ClearTables, Tricolor, Fresh, Sound, Refs, Strong;
    ClearedRefsMarked(Cleared(s.h, m.color), m.weak, c, r);
  }

  lemma AtomicSafe(s: State, m: Mark, c: Cleared, s': State)
    requires FullyMarked(s, m) && Tables(s.h, m.weak) && Ok(Cleared(s.h, m.color)) && White(s.white)
    requires c == ClearTables(Cleared(s.h, m.color), m.weak) && Trimmed(Cleared(s.h, m.color), c)
    requires s'.h == c.h && s'.m.color == c.color && s'.white == Flip(s.white) && Roots(s') == Roots(s)
    ensures Safe(s')
    ensures forall r :: r in s.h && Dead(s', r) ==> White(m.color[r])
    ensures forall r :: Live(s', r) <==> r in s.h && !White(c.color[r])
  {
    hide ClearTables, Tricolor, Fresh, Sound, Refs, Strong;
    forall r | r in s.h ensures Dead(s', r) <==> White(c.color[r]) {
    }
    forall r | Live(s', r) ensures AllLive(s', Refs(s'.h, r)) {
      ClearedSafe(s, m, c, r);
    }
  }

  lemma TrimmedBasic(s: State, c: Cleared, s': State)
    requires Basic(s) && Trimmed(Cleared(s.h, s.m.color), Cleared(c.h, s.m.color))
    requires s'.h == c.h && s'.m.color.Keys == s.h.Keys && White(s'.white)
    requires s'.main == s.main && s'.running == s.running && s'.fixed == s.fixed
    ensures Basic(s')
  {
  }

  lemma TrimmedKindColors(a: Cleared, b: Cleared)
    requires Trimmed(a, b) && KindColors(a.h, a.color, {})
    ensures KindColors(b.h, b.color, {})
  {
  }

  lemma AtomicKeeps(s: State)
    requires Inv(s) && s.phase.Propagate?
    ensures Inv(Atomic(s))
  {
    hide Colors, Core, FullyMarked, AtomicMarked, ClearTables, Tables, Ok;
    AtomicMarkedFully(s);
    var m := AtomicMarked(s);
    MarkedTables(s, m);
    var s' := Atomic(s);
    AtomicInv(s, m, ClearTables(Cleared(s.h, m.color), m.weak), s');
  }

  lemma MarkedKinds(s: State, m: Mark)
    requires FullyMarked(s, m) && Interned(s.h, s.strt)
    ensures KindColors(s.h, m.color, {}) && |s.strt| > 0 && m.color.Keys == s.h.Keys
  {
    hide Sound, Fresh, Lists, Hash;
  }

  lemma AtomicKeys(a: Cleared, b: Cleared)
    requires Trimmed(a, b)
    ensures b.color.Keys == b.h.Keys == a.h.Keys == a.color.Keys && Trimmed(a, Cleared(b.h, a.color))
  {
  }

  lemma AtomicInv(s: State, m: Mark, c: Cleared, s': State)
    requires Core(s) && FullyMarked(s, m) && Tables(s.h, m.weak) && Ok(Cleared(s.h, m.color))
    requires c == ClearTables(Cleared(s.h, m.color), m.weak)
    requires s' == s.(h := c.h, m := m.(color := c.color), white := Flip(s.white),
                      phase := SweepString, sweepstrgc := 0, sweepgc := 0)
    ensures Inv(s')
  {
    hide ClearTables, FullyMarked, Captures, Interned, Chained, KindColors, Safe, Refs, Sound, Ok, Tables, Trimmed;
    var c0 := Cleared(s.h, m.color);
    ClearTablesTrims(c0, m.weak);
    assert Roots(s') == Roots(s);
    MarkedKinds(s, m);
    AtomicKeys(c0, c);
    AtomicSafe(s, m, c, s');
    TrimmedLists(c0, c);
    TrimmedKindColors(c0, c);
    TrimmedBasic(s, c, s');
  }
}
