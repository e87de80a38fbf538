/**
 Marking follows strong references only: whatever gets marked lies in every set that contains
 the roots and all that its members strongly refer to. Clearing marks only strings besides.
 */
module GcWithin {
  import opened GcHeap
  import opened GcMark
  import opened GcPropagate
  import opened GcAtomic
  import opened GcWeak

  // `x` contains everything its members strongly refer to.
  ghost predicate Through(h: Heap, x: set<Ref>) {
    forall r :: r in x && r in h ==> Inside(x, Strong(h, r))
  }

  // `x` contains the strings that `t` refers to.
  ghost predicate HasStrings(h: Heap, t: Ref, x: set<Ref>)
    requires t in h
  {
    forall v :: v in Refs(h, t) && v.Ptr? && v.ref in h && h[v.ref].kind.Str? ==> v.ref in x
  }

  predicate Inside(x: set<Ref>, vs: seq<Value>) {
    forall v :: v in vs && v.Ptr? ==> v.ref in x
  }

  ghost predicate MarkedIn(color: map<Ref, Color>, x: set<Ref>) {
    forall r :: r in color && !White(color[r]) ==> r in x
  }

  lemma StrongInside(h: Heap, x: set<Ref>, r: Ref)
    requires Through(h, x) && r in x && r in h
    ensures Inside(x, Strong(h, r)) && Inside(x, Slots(h, r))
  {
    assert Inside(x, Strong(h, r));
    assert forall v :: v in Slots(h, r) ==> v in Strong(h, r);
  }

  lemma {:induction false} MarkObjWithin(h: Heap, m: Mark, r: Ref, x: set<Ref>)
    requires Fits(h, m) && r in h && White(m.color[r]) && Through(h, x) && r in x && MarkedIn(m.color, x)
    ensures MarkedIn(MarkObj(h, m, r).color, x)
    decreases Whites(m.color), 0
  {
    var g := SetColor(m, r, Gray);
    assert r in Whites(m.color) && r !in Whites(g.color) && Whites(g.color) <= Whites(m.color);
    StrongInside(h, x, r);
    hide Through, Refs;
    if h[r].kind.Udata? {
      var b := SetColor(g, r, Black);
      assert Whites(b.color) == Whites(g.color);
      MarkValsWithin(h, b, Strong(h, r), x);
    } else if h[r].kind.Upval? {
      MarkValsWithin(h, g, Strong(h, r), x);
    }
  }

  lemma {:induction false} MarkValsWithin(h: Heap, m: Mark, vs: seq<Value>, x: set<Ref>)
    requires Fits(h, m) && Known(h, vs) && Through(h, x) && Inside(x, vs) && MarkedIn(m.color, x)
    ensures MarkedIn(MarkVals(h, m, vs).color, x)
    decreases Whites(m.color), 1 + |vs|
  {
    if vs != [] {
      var v := vs[0];
      assert v in vs;
      hide Through, Refs, Grows, MarkObj;
      var m1 := MarkVal(h, m, v);
      if v.Ptr? && White(m.color[v.ref]) { MarkObjWithin(h, m, v.ref, x); }
      assert MarkedIn(m1.color, x);
      MarkValKeys(h, m, v);
      MarkValsWithin(h, m1, vs[1..], x);
    }
  }

  lemma MarkValKeys(h: Heap, m: Mark, v: Value)
    requires Fits(h, m) && (v.Ptr? ==> v.ref in h)
    ensures Fits(h, MarkVal(h, m, v))
  {
  }

  lemma PropagateWithin(h: Heap, m: Mark, x: set<Ref>)
    requires Fits(h, m) && m.gray != [] && GrayList(h, m.color, m.gray) && Through(h, x) && MarkedIn(m.color, x)
    ensures MarkedIn(PropagateMark(h, m).color, x)
  {
    var o := m.gray[0];
    StrongKnown(h, o);
    assert !White(m.color[o]) && o in x;
    StrongInside(h, x, o);
    var rest := m.(gray := m.gray[1..]);
    var s := if h[o].kind.Thread? then rest.(grayagain := [o] + m.grayagain) else SetColor(rest, o, Black);
    hide Through, Sound, Refs;
    MarkValsWithin(h, s, Strong(h, o), x);
  }

  lemma {:induction false} PropagateAllWithin(h: Heap, m: Mark, x: set<Ref>)
    requires Fits(h, m) && Tricolor(h, m, {}) && Through(h, x) && MarkedIn(m.color, x)
    ensures MarkedIn(PropagateAll(h, m).color, x)
    decreases Pending(m)
  {
    if m.gray != [] {
      PropagateWithin(h, m, x);
      PropagateMarkKeeps(h, m, m.color.Keys);
      PropagateMarkProgress(h, m);
      hide Tricolor, Through, Sound, Fresh, Later, PropagateMark;
      PropagateAllWithin(h, PropagateMark(h, m), x);
    }
  }

  lemma {:induction false} RemarkWithin(h: Heap, m: Mark, uvs: seq<Ref>, x: set<Ref>)
    requires Fits(h, m) && Upvals(h, uvs) && Through(h, x) && MarkedIn(m.color, x)
    ensures MarkedIn(RemarkUpvals(h, m, uvs).color, x)
    decreases |uvs|
  {
    if uvs != [] {
      var u := uvs[0];
      assert u in uvs;
      assert forall v :: v in Slots(h, u) ==> v in Refs(h, u);
      if m.color[u].Gray? {
        StrongInside(h, x, u);
        MarkValsWithin(h, m, Slots(h, u), x);
      }
      var m1 := RemarkUpval(h, m, u);
      hide Through, Sound, Refs;
      RemarkWithin(h, m1, uvs[1..], x);
    }
  }

  lemma AtomicWithin(h: Heap, m: Mark, uvs: seq<Ref>, vs: seq<Value>, x: set<Ref>)
    requires Fits(h, m) && Tricolor(h, m, {}) && AllOpen(h, uvs) && Known(h, vs)
    requires Through(h, x) && Inside(x, vs) && MarkedIn(m.color, x)
    ensures MarkedIn(AtomicMarks(h, m, uvs, vs).color, x)
  {
    hide Tricolor, Sound, Through, MarkedIn, Fresh, Later, Inside, Known, Grows;
    RemarkedStart(h, m, uvs);
    RemarkWithin(h, m, uvs, x);
    RemarkRoundKeeps(h, m, uvs);
    PropagateAllWithin(h, RemarkUpvals(h, m, uvs), x);
    var m1 := RemarkRound(h, m, uvs);
    WeakStart(h, m1, vs);
    MarkValsWithin(h, m1.(gray := m1.weak, weak := []), vs, x);
    PropagateAllWithin(h, MarkVals(h, m1.(gray := m1.weak, weak := []), vs), x);
    WeakRoundKeeps(h, m1, vs);
    var m2 := WeakRound(h, m1, vs);
    AgainStart(h, m2);
    PropagateAllWithin(h, m2.(gray := m2.grayagain, grayagain := []), x);
  }

  lemma ClearRound(c: Cleared, t: Ref, n: nat, x: set<Ref>)
    requires 0 < n && Ok(c) && t in c.h && n <= |c.h[t].keys| == |c.h[t].vals|
    requires HasStrings(c.h, t, x) && MarkedIn(c.color, x)
    ensures var c1 := ClearEntry(c, t, n - 1);
      && Ok(c1) && t in c1.h && n - 1 <= |c1.h[t].keys| == |c1.h[t].vals|
      && HasStrings(c1.h, t, x) && MarkedIn(c1.color, x)
      && ClearEntries(c, t, n) == ClearEntries(c1, t, n - 1)
  {
    hide ClearEntry, HasStrings, EntryMarked, Ok, Trimmed, MarkedIn;
    ClearEntryWithin(c, t, n - 1, x);
    ClearEntryOk(c, t, n - 1);
    TrimmedStrings(c, ClearEntry(c, t, n - 1), t, x);
  }

  // Clearing marks only strings that the table refers to.
  lemma {:induction false} ClearEntriesWithin(c: Cleared, t: Ref, n: nat, x: set<Ref>)
    requires Ok(c) && t in c.h && n <= |c.h[t].keys| == |c.h[t].vals|
    requires HasStrings(c.h, t, x) && MarkedIn(c.color, x)
    ensures MarkedIn(ClearEntries(c, t, n).color, x)
    decreases n
  {
    if n > 0 {
      ClearRound(c, t, n, x);
      hide ClearEntry, Trimmed, Sound, HasStrings, Ok;
      ClearEntriesWithin(ClearEntry(c, t, n - 1), t, n - 1, x);
    }
  }

  lemma ClearEntryWithin(c: Cleared, t: Ref, i: nat, x: set<Ref>)
    requires Ok(c) && t in c.h && i < |c.h[t].keys| == |c.h[t].vals| && HasStrings(c.h, t, x) && MarkedIn(c.color, x)
    ensures MarkedIn(ClearEntry(c, t, i).color, x)
  {
    var k, v := c.h[t].keys[i], c.h[t].vals[i];
    assert k in Refs(c.h, t) && v in Refs(c.h, t);
  }

  lemma TrimmedStrings(a: Cleared, b: Cleared, t: Ref, x: set<Ref>)
    requires Trimmed(a, b) && t in a.h && t in b.h && HasStrings(a.h, t, x)
    ensures HasStrings(b.h, t, x)
  {
    hide Refs;
    forall v | v in Refs(b.h, t) && v.Ptr? && v.ref in b.h && b.h[v.ref].kind.Str? ensures v.ref in x {
      TrimmedRefs(a, b, t, v);
    }
  }

  lemma {:induction false} ClearTablesWithin(c: Cleared, ts: seq<Ref>, x: set<Ref>)
    requires Ok(c) && Tables(c.h, ts) && (forall t :: t in ts ==> HasStrings(c.h, t, x)) && MarkedIn(c.color, x)
    ensures MarkedIn(ClearTables(c, ts).color, x)
    decreases |ts|
  {
    if ts != [] {
      var t0 := ts[0];
      assert t0 in ts && Shaped(c.h[t0]);
      var n := |c.h[t0].keys|;
      ClearEntriesTrims(c, t0, n);
      ClearEntriesWithin(c, t0, n, x);
      hide ClearEntries, Sound, HasStrings, Trimmed, Ok;
      var c1 := ClearEntries(c, t0, n);
      TrimmedTables(c, c1, ts);
      forall t | t in ts[1..] ensures HasStrings(c1.h, t, x) {
        assert t in ts;
        TrimmedStrings(c, c1, t, x);
      }
      ClearTablesWithin(c1, ts[1..], x);
    }
  }

  lemma TrimmedTables(a: Cleared, b: Cleared, ts: seq<Ref>)
    requires Trimmed(a, b) && Tables(a.h, ts)
    ensures Tables(b.h, ts)
  {
  }
}
