/**
 The atomic end of the mark phase: open upvalues, weak tables and threads are marked
 through once more, and weak tables lose the entries whose objects were not marked.
 */
module GcAtomic {
  import opened GcHeap
  import opened GcMark
  import opened GcPropagate

  predicate Upvals(h: Heap, uvs: seq<Ref>) {
    forall u :: u in uvs ==> u in h && OpenUpval(h[u].kind)
  }

  // `uvhead` links exactly the open upvalues.
  ghost predicate AllOpen(h: Heap, uvs: seq<Ref>) {
    forall u :: u in uvs <==> u in h && OpenUpval(h[u].kind)
  }

  // `remarkupvals`: an open upvalue may be marked while its thread is not.
  function RemarkUpvals(h: Heap, m: Mark, uvs: seq<Ref>): (m': Mark)
    requires Fits(h, m) && Upvals(h, uvs)
    ensures Grows(h, m, m')
    ensures forall u :: u in uvs && m.color[u].Gray? ==> Colored(m'.color, Slots(h, u))
    decreases |uvs|
  {
    if uvs == [] then m
    else
      hide Colored, Slots, Sound;
      var m1 := RemarkUpval(h, m, uvs[0]);
      var m2 := RemarkUpvals(h, m1, uvs[1..]);
      RemarkedBoth(h, m, m1, m2, uvs);
      m2
  }

  function RemarkUpval(h: Heap, m: Mark, u: Ref): (m': Mark)
    requires Fits(h, m) && u in h
    ensures Grows(h, m, m')
    ensures m.color[u].Gray? ==> Colored(m'.color, Slots(h, u))
  {
    assert forall v :: v in Slots(h, u) ==> v in Refs(h, u);
    if m.color[u].Gray? then MarkVals(h, m, Slots(h, u)) else m
  }

  lemma RemarkedBoth(h: Heap, m: Mark, m1: Mark, m2: Mark, uvs: seq<Ref>)
    requires |uvs| > 0 && Upvals(h, uvs) && uvs[0] in m.color && Grows(h, m, m1) && Grows(h, m1, m2)
    requires m.color[uvs[0]].Gray? ==> Colored(m1.color, Slots(h, uvs[0]))
    requires forall u :: u in uvs[1..] && m1.color[u].Gray? ==> Colored(m2.color, Slots(h, u))
    ensures Grows(h, m, m2)
    ensures forall u :: u in uvs && m.color[u].Gray? ==> Colored(m2.color, Slots(h, u))
  {
    GrowsTransitive(h, m, m1, m2);
    forall u | u in uvs && m.color[u].Gray? ensures Colored(m2.color, Slots(h, u)) {
      assert u == uvs[0] || u in uvs[1..];
    }
  }

  // Outside the lists, a marked object refers to marked ones; open upvalues are the
  // exception, because writing to a stack slot has no barrier.
  lemma MarkedBefore(h: Heap, m: Mark, r: Ref)
    requires Fits(h, m) && Tricolor(h, m, {}) && r in h && !White(m.color[r])
    requires r !in m.gray && r !in m.grayagain && r !in m.weak
    ensures Colored(m.color, Strong(h, r)) || (OpenUpval(h[r].kind) && m.color[r].Gray?)
  {
    if m.color[r].Black? {
      assert Colored(m.color, Refs(h, r));
      assert forall v :: v in Strong(h, r) ==> v in Refs(h, r);
    } else if h[r].kind.Str? {
      assert Shaped(h[r]) && Strong(h, r) == [];
    }
  }

  // Before marking goes on, the only marked objects that may refer to white ones wait on
  // a list.
  lemma RemarkedIsFresh(h: Heap, m: Mark, b: Mark, x: set<Ref>)
    requires Fits(h, m) && Tricolor(h, m, {}) && Grows(h, m, b)
    requires forall u :: u in h && OpenUpval(h[u].kind) && m.color[u].Gray? ==> Colored(b.color, Slots(h, u))
    requires forall r :: r in m.grayagain || r in m.weak ==> r in x
    ensures Fresh(h, b, x)
  {
    forall r | r in h && !White(b.color[r]) && r !in b.gray && r !in x
      ensures Colored(b.color, Strong(h, r))
    {
      if White(m.color[r]) {
        assert Settled(h, b, r);
      } else {
        MarkedBefore(h, m, r);
        if OpenUpval(h[r].kind) {
          assert Shaped(h[r]) && Strong(h, r) == Slots(h, r);
        }
      }
    }
  }

  // The three rounds of marking in `atomic`; `vs` are the running thread and the basic
  // metatables, which have no barrier of their own.
  function RemarkRound(h: Heap, m: Mark, uvs: seq<Ref>): (m': Mark)
    requires Fits(h, m) && Tricolor(h, m, {}) && AllOpen(h, uvs)
  {
    RemarkedStart(h, m, uvs);
    PropagateAll(h, RemarkUpvals(h, m, uvs))
  }

  function WeakRound(h: Heap, m: Mark, vs: seq<Value>): (m': Mark)
    requires Fits(h, m) && Tricolor(h, m, {}) && m.gray == [] && Known(h, vs)
  {
    WeakStart(h, m, vs);
    PropagateAll(h, MarkVals(h, m.(gray := m.weak, weak := []), vs))
  }

  function AgainRound(h: Heap, m: Mark): (m': Mark)
    requires Fits(h, m) && Tricolor(h, m, {}) && m.gray == []
  {
    AgainStart(h, m);
    PropagateAll(h, m.(gray := m.grayagain, grayagain := []))
  }

  function AtomicMarks(h: Heap, m: Mark, uvs: seq<Ref>, vs: seq<Value>): (m': Mark)
    requires Fits(h, m) && Tricolor(h, m, {}) && AllOpen(h, uvs) && Known(h, vs)
  {
    hide Fits, Tricolor, AllOpen, Fresh, Later, Known;
    RemarkRoundKeeps(h, m, uvs);
    var m1 := RemarkRound(h, m, uvs);
    WeakRoundKeeps(h, m1, vs);
    AgainRound(h, WeakRound(h, m1, vs))
  }

  function ListSet(s: seq<Ref>): set<Ref> {
    set r | r in s
  }

  lemma FreshMonotone(h: Heap, m: Mark, x: set<Ref>, y: set<Ref>)
    requires Fresh(h, m, x) && x <= y
    ensures Fresh(h, m, y)
  {
    hide Colored, Strong;
  }

  lemma WaitingStays(h: Heap, a: Mark, b: Mark)
    requires Later(h, a, b)
    ensures ListSet(a.grayagain) <= ListSet(b.grayagain) && ListSet(a.weak) <= ListSet(b.weak)
  {
    forall x | x in ListSet(a.grayagain) ensures x in ListSet(b.grayagain) {
      assert x in a.grayagain;
    }
    forall x | x in ListSet(a.weak) ensures x in ListSet(b.weak) {
      assert x in a.weak;
    }
  }

  lemma LaterTransitive(h: Heap, a: Mark, b: Mark, c: Mark)
    requires Later(h, a, b) && Later(h, b, c)
    ensures Later(h, a, c)
  {
  }

  lemma GrowsIsLater(h: Heap, a: Mark, b: Mark)
    requires Grows(h, a, b)
    ensures Later(h, a, b)
  {
  }

  lemma RemarkedStart(h: Heap, m: Mark, uvs: seq<Ref>)
    requires Fits(h, m) && Tricolor(h, m, {}) && AllOpen(h, uvs)
    ensures var b := RemarkUpvals(h, m, uvs);
      Fits(h, b) && Tricolor(h, b, {}) && Later(h, m, b) && Fresh(h, b, ListSet(m.grayagain) + ListSet(m.weak))
  {
    var b := RemarkUpvals(h, m, uvs);
    RemarkedIsFresh(h, m, b, ListSet(m.grayagain) + ListSet(m.weak));
    MarkingKeepsTricolor(h, m, b, {});
    GrowsIsLater(h, m, b);
  }

  lemma RemarkRoundKeeps(h: Heap, m: Mark, uvs: seq<Ref>)
    requires Fits(h, m) && Tricolor(h, m, {}) && AllOpen(h, uvs)
    ensures var b := RemarkRound(h, m, uvs);
      && Fits(h, b) && Tricolor(h, b, {}) && b.gray == [] && Later(h, m, b)
      && Fresh(h, b, ListSet(b.grayagain) + ListSet(b.weak))
  {
    hide Tricolor, Sound, Colored, Strong, Fresh, Later, Grows, ListSet;
    RemarkedStart(h, m, uvs);
    var a := RemarkUpvals(h, m, uvs);
    var x := ListSet(m.grayagain) + ListSet(m.weak);
    PropagateAllKeepsFresh(h, a, x);
    var b := PropagateAll(h, a);
    LaterTransitive(h, m, a, b);
    WaitingStays(h, m, b);
    FreshMonotone(h, b, x, ListSet(b.grayagain) + ListSet(b.weak));
  }

  lemma WeakStart(h: Heap, m: Mark, vs: seq<Value>)
    requires Fits(h, m) && Tricolor(h, m, {}) && m.gray == [] && Known(h, vs)
    ensures var a := m.(gray := m.weak, weak := []);
      Fits(h, a) && Tricolor(h, a, {}) &&
      var b := MarkVals(h, a, vs);
      Fits(h, b) && Tricolor(h, b, {}) && Later(h, a, b) && Colored(b.color, vs)
  {
    var a := m.(gray := m.weak, weak := []);
    assert Lists(h, a);
    assert Tricolor(h, a, {});
    var b := MarkVals(h, a, vs);
    MarkingKeepsTricolor(h, a, b, {});
    GrowsIsLater(h, a, b);
  }

  lemma MarkedStay(h: Heap, a: Mark, b: Mark, vs: seq<Value>)
    requires Later(h, a, b) && Colored(a.color, vs) && Known(h, vs)
    ensures Colored(b.color, vs)
  {
  }

  // Weak tables still waiting now wait on the gray list.
  lemma WeakWait(h: Heap, m: Mark)
    requires m.gray == [] && Fresh(h, m, ListSet(m.grayagain) + ListSet(m.weak))
    ensures Fresh(h, m.(gray := m.weak, weak := []), ListSet(m.grayagain))
  {
    hide Colored, Strong;
  }

  lemma WeakRoundKeeps(h: Heap, m: Mark, vs: seq<Value>)
    requires Fits(h, m) && Tricolor(h, m, {}) && m.gray == [] && Known(h, vs)
    ensures var b := WeakRound(h, m, vs);
      && Fits(h, b) && Tricolor(h, b, {}) && b.gray == [] && Colored(b.color, vs)
      && Later(h, m.(weak := []), b)
      && (Fresh(h, m, ListSet(m.grayagain) + ListSet(m.weak)) ==> Fresh(h, b, ListSet(b.grayagain)))
  {
    hide Tricolor, Sound, Strong, Grows, Fresh, ListSet;
    WeakStart(h, m, vs);
    var a := m.(gray := m.weak, weak := []);
    var a' := MarkVals(h, a, vs);
    var b := PropagateAll(h, a');
    LaterTransitive(h, a, a', b);
    MarkedStay(h, a', b, vs);
    var x := ListSet(a.grayagain);
    if Fresh(h, m, ListSet(m.grayagain) + ListSet(m.weak)) {
      WeakWait(h, m);
      MarkingKeepsFresh(h, a, a', x);
      PropagateAllKeepsFresh(h, a', x);
      WaitingStays(h, a, b);
      FreshMonotone(h, b, x, ListSet(b.grayagain));
    }
  }

  lemma AgainStart(h: Heap, m: Mark)
    requires Fits(h, m) && Tricolor(h, m, {}) && m.gray == []
    ensures var a := m.(gray := m.grayagain, grayagain := []);
      Fits(h, a) && Tricolor(h, a, {}) && (Fresh(h, m, ListSet(m.grayagain)) ==> Fresh(h, a, {}))
  {
  }

  lemma AgainRoundKeeps(h: Heap, m: Mark)
    requires Fits(h, m) && Tricolor(h, m, {}) && m.gray == []
    ensures var b := AgainRound(h, m);
      && Fits(h, b) && Tricolor(h, b, {}) && b.gray == []
      && Later(h, m.(grayagain := []), b)
      && (Fresh(h, m, ListSet(m.grayagain)) ==> Fresh(h, b, {}))
  {
    hide Fits, Tricolor, Fresh;
    AgainStart(h, m);
    var a := m.(gray := m.grayagain, grayagain := []);
    if Fresh(h, m, ListSet(m.grayagain)) {
      PropagateAllKeepsFresh(h, a, {});
    }
  }

  // What the marks of `atomic` establish: every marked object has what it strongly refers
  // to marked, no gray object is left to traverse, and only threads are left on
  // `grayagain`.
  lemma AtomicMarksComplete(h: Heap, m: Mark, uvs: seq<Ref>, vs: seq<Value>)
    requires Fits(h, m) && Tricolor(h, m, {}) && AllOpen(h, uvs) && Known(h, vs)
    ensures var b := AtomicMarks(h, m, uvs, vs);
      && Fits(h, b) && Tricolor(h, b, {}) && b.gray == [] && Fresh(h, b, {})
      && Colored(b.color, vs)
      && (forall r :: r in h && !White(m.color[r]) ==> !White(b.color[r]))
      && (forall r :: r in h && White(b.color[r]) ==> b.color[r] == m.color[r])
      && (forall x :: x in b.grayagain ==> x in h && h[x].kind.Thread?)
  {
    hide Tricolor, AllOpen, Fresh, Sound;
    RemarkRoundKeeps(h, m, uvs);
    var m1 := RemarkRound(h, m, uvs);
    WeakRoundKeeps(h, m1, vs);
    var m2 := WeakRound(h, m1, vs);
    AgainRoundKeeps(h, m2);
    var b := AgainRound(h, m2);
    assert b == AtomicMarks(h, m, uvs, vs);
  }

  // When marking ends, the only marked objects that still refer to white ones are the
  // weak tables on the list of weak tables.
  lemma MarkedThroughExceptWeak(h: Heap, m: Mark, r: Ref)
    requires Fits(h, m) && Tricolor(h, m, {}) && m.gray == [] && Fresh(h, m, {})
    requires forall x :: x in m.grayagain ==> h[x].kind.Thread?
    requires r in h && !White(m.color[r]) && r !in m.weak
    ensures Colored(m.color, Refs(h, r))
  {
    if !m.color[r].Black? && h[r].kind.Table? {
      assert false;
    }
    if !m.color[r].Black? {
      assert Strong(h, r) == Refs(h, r);
    }
  }
}
