/**
 Writes into objects, with the barriers that keep the collector correct while the program
 runs between its steps.
 */
module GcBarrier {
  import opened GcHeap
  import opened GcMark
  import opened GcPropagate
  import opened GcState
  import opened GcSweep
  import opened GcCycle
  import opened GcClose

  function Own(o: Obj): seq<Value> {
    o.slots + o.keys + o.vals
  }

  // One object has been overwritten with some of its old values and some of `vs`.
  ghost predicate Wrote(h: Heap, h': Heap, o: Ref, vs: seq<Value>) {
    && o in h && h'.Keys == h.Keys
    && (forall x :: x in h && x != o ==> h'[x] == h[x])
    && (h'[o].kind == h[o].kind || (h[o].kind.Table? && h'[o].kind.Table?))
    && |h'[o].slots| >= |h[o].slots| && Shaped(h'[o])
    && (forall w :: w in Own(h'[o]) && w.Ptr? ==> w in Own(h[o]) || w in vs)
    && (forall i :: 0 <= i < |h'[o].slots| && h'[o].slots[i].Ptr? ==>
          (i < |h[o].slots| && h'[o].slots[i] == h[o].slots[i]) || h'[o].slots[i] in vs)
  }

  lemma WroteRefs(h: Heap, h': Heap, o: Ref, vs: seq<Value>, x: Ref, w: Value)
    requires Wrote(h, h', o, vs) && x in h && w in Refs(h', x) && w.Ptr?
    requires OpenUpval(h[x].kind) ==> Attached(h, x)
    ensures w in Refs(h, x) || w in vs
  {
    if !OpenUpval(h[x].kind) {
      assert Refs(h', x) == Own(h'[x]) && Refs(h, x) == Own(h[x]);
    }
  }

  lemma WroteLists(h: Heap, h': Heap, o: Ref, vs: seq<Value>)
    requires Wrote(h, h', o, vs)
    ensures forall q :: Captures(h, q) ==> Captures(h', q)
    ensures forall q :: Interned(h, q) ==> Interned(h', q)
    ensures forall q :: Chained(h, q) ==> Chained(h', q)
  {
    hide Shaped, Hash;
    forall q | Captures(h, q) ensures Captures(h', q) {
      forall t | t in h' && h'[t].kind.Thread? ensures OpenList(h', t, h'[t].kind.openupval) {
        assert OpenList(h, t, h[t].kind.openupval);
      }
      forall u | u in h' && OpenUpval(h'[u].kind) ensures Attached(h', u) {
        assert Attached(h, u);
      }
    }
    forall q | Interned(h, q) ensures Interned(h', q) {
      forall i | 0 <= i < |q| ensures InBucket(h', q, i) && Distinct(q[i]) {
        assert InBucket(h, q, i);
      }
    }
  }

  lemma WroteSafe(s: State, s': State, o: Ref, vs: seq<Value>)
    requires Safe(s) && Captures(s.h, s.uvhead) && Wrote(s.h, s'.h, o, vs) && s' == s.(h := s'.h) && AllLive(s, vs)
    ensures Safe(s')
  {
    assert Roots(s') == Roots(s);
    hide Refs, Wrote;
    assert s'.h.Keys == s.h.Keys by { WroteKeys(s.h, s'.h, o, vs); }
    forall x | Live(s', x) ensures AllLive(s', Refs(s'.h, x)) {
      assert AllLive(s, Refs(s.h, x));
      forall w | w in Refs(s'.h, x) && w.Ptr? ensures Live(s', w.ref) {
        assert OpenUpval(s.h[x].kind) ==> Attached(s.h, x);
        WroteRefs(s.h, s'.h, o, vs, x, w);
      }
    }
  }

  lemma WroteKeys(h: Heap, h': Heap, o: Ref, vs: seq<Value>)
    requires Wrote(h, h', o, vs)
    ensures h'.Keys == h.Keys
  {
  }

  lemma WroteBasic(s: State, s': State, o: Ref, vs: seq<Value>)
    requires Basic(s) && Wrote(s.h, s'.h, o, vs) && s' == s.(h := s'.h)
    ensures Basic(s')
  {
  }

  lemma WroteCore(s: State, s': State, o: Ref, vs: seq<Value>)
    requires Core(s) && Wrote(s.h, s'.h, o, vs) && s' == s.(h := s'.h) && AllLive(s, vs)
    ensures Core(s')
  {
    WroteBasic(s, s', o, vs);
    hide Basic, Safe, Captures, Interned, Chained, Wrote;
    WroteLists(s.h, s'.h, o, vs);
    WroteSafe(s, s', o, vs);
  }

  // Outside the mark phase the colours do not care about references.
  lemma WroteColors(s: State, s': State, o: Ref, vs: seq<Value>)
    requires Colors(s) && !s.phase.Propagate? && Wrote(s.h, s'.h, o, vs) && s' == s.(h := s'.h)
    ensures Colors(s')
  {
    match s.phase {
      case SweepString =>
        forall b | 0 <= b < s'.sweepstrgc ensures WhiteBucket(s', b) { assert WhiteBucket(s, b); }
      case Sweep =>
        forall i | 0 <= i < s'.sweepgc ensures Swept(s', s'.rootgc[i]) { assert Swept(s, s.rootgc[i]); }
      case _ =>
    }
  }

  // While marking, only the written object may break the invariant, and only if black.
  lemma WroteTricolor(h: Heap, h': Heap, m: Mark, o: Ref, vs: seq<Value>, q: seq<Ref>)
    requires Tricolor(h, m, {}) && Captures(h, q) && Wrote(h, h', o, vs)
    ensures Tricolor(h', m, {o})
    ensures o in m.color && !m.color[o].Black? ==> Tricolor(h', m, {})
  {
    forall r | r in h' && r in m.color && m.color[r].Black? && r != o ensures Colored(m.color, Refs(h', r)) {
      assert Colored(m.color, Refs(h, r));
      assert Refs(h', r) == Refs(h, r);
    }
    hide Refs, Shaped;
  }

  // ----- barriers -----

  predicate NeedsBarrier(s: State, o: Ref, v: Value)
    requires o in s.m.color && (v.Ptr? ==> v.ref in s.m.color)
  {
    v.Ptr? && White(s.m.color[v.ref]) && s.m.color[o].Black?
  }

  // `luaC_barrier` and `luaC_barrierf`
  function BarrierForward(s: State, o: Ref, v: Value): State
    requires Core(s) && o in s.h && (v.Ptr? ==> v.ref in s.h) && (s.phase.Propagate? ==> NoneDead(s))
  {
    if !NeedsBarrier(s, o, v) then s
    else if s.phase.Propagate? then
      SoundWhenNoneDead(s);
      s.(m := MarkObj(s.h, s.m, v.ref))
    else Whiten(s, o)
  }

  // `luaC_barriert` and `luaC_barrierback`
  function BarrierBack(s: State, t: Ref, v: Value): State
    requires t in s.m.color && (v.Ptr? ==> v.ref in s.m.color)
  {
    if !NeedsBarrier(s, t, v) then s
    else s.(m := SetColor(s.m, t, Gray).(grayagain := [t] + s.m.grayagain))
  }

  // What the barrier functions assert on entry holds wherever they are reached.
  lemma BarrierAsserts(s: State, o: Ref, v: Value)
    requires Inv(s) && Live(s, o) && v.Ptr? && Live(s, v.ref) && NeedsBarrier(s, o, v)
    ensures !Dead(s, o) && !Dead(s, v.ref) && !s.phase.Pause? && !s.phase.Finalize?
    ensures !s.h[o].kind.Thread? && !OpenUpval(s.h[o].kind)
  {
    hide Safe, Captures, Interned, Chained;
  }

  // ----- barriers restore the invariant -----

  ghost predicate MayBeBlack(o: Obj) {
    !o.kind.Str? && !o.kind.Thread? && !OpenUpval(o.kind)
  }

  // All that a write of `vs` into `o` leaves to repair.
  ghost predicate Written(s: State, s1: State, o: Ref, vs: seq<Value>) {
    && Inv(s) && Wrote(s.h, s1.h, o, vs) && s1 == s.(h := s1.h) && AllLive(s, vs)
    && MayBeBlack(s.h[o])
  }

  lemma WrittenCore(s: State, s1: State, o: Ref, vs: seq<Value>)
    requires Written(s, s1, o, vs)
    ensures Core(s1) && o in s1.h && (forall v :: v in vs && v.Ptr? ==> v.ref in s1.h)
    ensures s.phase.Propagate? ==> NoneDead(s1)
    ensures !s.phase.Propagate? ==> Colors(s1)
  {
    hide Basic, Safe, Captures, Interned, Chained, Marking, SweepingObjects, SweepingStrings;
    WroteCore(s, s1, o, vs);
    WroteKeys(s.h, s1.h, o, vs);
    if s.phase.Propagate? {
      MarkingNoneDead(s, s1);
    } else {
      WroteColors(s, s1, o, vs);
    }
  }

  lemma MarkingNoneDead(s: State, s1: State)
    requires Marking(s) && s1.h.Keys == s.h.Keys && s1 == s.(h := s1.h)
    ensures NoneDead(s1)
  {
    hide Tricolor;
  }

  // A black object whose references are all marked is as it should be.
  lemma Repaired(h: Heap, m: Mark, o: Ref)
    requires Tricolor(h, m, {o}) && o in h && o in m.color && m.color[o].Black? && MayBeBlack(h[o])
    requires Colored(m.color, Refs(h, o))
    ensures Tricolor(h, m, {})
  {
    hide Refs, Colored;
  }

  // A black object written to and then put on `grayagain` will be looked at again.
  lemma Regrayed(h: Heap, m: Mark, o: Ref)
    requires Tricolor(h, m, {o}) && o in h && o in m.color && m.color[o].Black? && h[o].kind.Table?
    ensures Tricolor(h, SetColor(m, o, Gray).(grayagain := [o] + m.grayagain), {})
  {
    var m' := SetColor(m, o, Gray).(grayagain := [o] + m.grayagain);
    assert o !in m.gray && o !in m.grayagain && o !in m.weak;
    assert forall i :: 0 < i < |m'.grayagain| ==> m'.grayagain[i] == m.grayagain[i - 1];
    hide Refs;
    assert GrayList(h, m'.color, m'.grayagain) && Lists(h, m');
    forall r | r in h && r in m'.color && m'.color[r].Black? ensures Colored(m'.color, Refs(h, r)) {
      assert Colored(m.color, Refs(h, r));
    }
  }

  lemma OldRefsColored(s: State, s1: State, o: Ref, vs: seq<Value>, m: Mark)
    requires Wrote(s.h, s1.h, o, vs) && MayBeBlack(s.h[o]) && Colored(s.m.color, Refs(s.h, o))
    requires forall r :: r in s.m.color && !White(s.m.color[r]) ==> r in m.color && !White(m.color[r])
    requires Colored(m.color, vs)
    ensures Colored(m.color, Refs(s1.h, o))
  {
    assert Refs(s1.h, o) == Own(s1.h[o]) && Refs(s.h, o) == Own(s.h[o]);
  }

  // While marking: what holds between the write and the barrier.
  lemma WrittenMarking(s: State, s1: State, o: Ref, vs: seq<Value>)
    requires Written(s, s1, o, vs) && s.phase.Propagate?
    ensures Tricolor(s1.h, s1.m, {o}) && Fits(s1.h, s1.m) && o in s1.m.color
    ensures !s1.m.color[o].Black? ==> Marking(s1)
    ensures s1.m.color[o].Black? ==> Colored(s.m.color, Refs(s.h, o))
    ensures Colored(s1.m.color, [Ptr(s1.main), s1.registry])
  {
    WrittenCore(s, s1, o, vs);
    WroteTricolor(s.h, s1.h, s.m, o, vs, s.uvhead);
    SoundWhenNoneDead(s1);
    hide Wrote, Captures, Interned, Chained, Safe, Lists, KindColors;
  }

  lemma MarkingAgain(s1: State, m: Mark)
    requires Core(s1) && NoneDead(s1) && s1.phase.Propagate? && Grows(s1.h, s1.m, m)
    requires Tricolor(s1.h, m, {}) && Colored(s1.m.color, [Ptr(s1.main), s1.registry])
    ensures Inv(s1.(m := m))
  {
    assert White(s1.white);
    StillColored(s1.h, s1.m, m, [Ptr(s1.main), s1.registry]);
    hide Core, Tricolor, Colored, Settled;
    GrowsNotDead(s1, s1.m, m);
    RecoloredSafe(s1, s1.(m := m));
  }

  lemma GrowsReflexive(h: Heap, m: Mark)
    requires m.color.Keys == h.Keys
    ensures Grows(h, m, m)
  {
  }

  lemma ForwardFinish(s: State, s1: State, o: Ref, v: Value, m: Mark)
    requires Written(s, s1, o, [v]) && s.phase.Propagate? && Core(s1) && NoneDead(s1)
    requires o in s1.h && o in s1.m.color && s1.m.color[o].Black?
    requires Grows(s1.h, s1.m, m) && Colored(m.color, [v])
    ensures Inv(s1.(m := m))
  {
    hide Core, Marking, Sound, Tricolor, Refs, Colored, Wrote, Inv;
    WrittenMarking(s, s1, o, [v]);
    WrittenWrote(s, s1, o, [v]);
    MarkingKeepsTricolor(s1.h, s1.m, m, {o});
    OldRefsColored(s, s1, o, [v], m);
    Repaired(s1.h, m, o);
    MarkingAgain(s1, m);
  }

  lemma {:induction false} ForwardMarking(s: State, s1: State, o: Ref, v: Value)
    requires Written(s, s1, o, [v]) && s.phase.Propagate? && Core(s1) && NoneDead(s1) && (v.Ptr? ==> v.ref in s1.h)
    requires o in s1.h && o in s1.m.color && s1.m.color[o].Black?
    ensures Inv(BarrierForward(s1, o, v))
  {
    hide Core, Marking, Written, Tricolor, Inv;
    CoreParts(s1);
    SoundWhenNoneDead(s1);
    WrittenWrote(s, s1, o, [v]);
    if NeedsBarrier(s1, o, v) {
      var m := MarkObj(s1.h, s1.m, v.ref);
      hide MarkObj;
      ForwardFinish(s, s1, o, v, m);
    } else {
      GrowsReflexive(s1.h, s1.m);
      ForwardFinish(s, s1, o, v, s1.m);
    }
  }

  lemma CoreParts(s: State)
    requires Core(s)
    ensures Basic(s) && Safe(s) && s.m.color.Keys == s.h.Keys
  {
  }

  lemma WrittenWrote(s: State, s1: State, o: Ref, vs: seq<Value>)
    requires Written(s, s1, o, vs)
    ensures Wrote(s.h, s1.h, o, vs) && MayBeBlack(s.h[o]) && s1.m == s.m
    ensures MayBeBlack(s1.h[o]) && s1.phase == s.phase
  {
  }

  // Outside the mark phase a barrier only recolours a black object.
  lemma RecolorBlack(s: State, s': State, o: Ref)
    requires Inv(s) && !s.phase.Propagate? && o in s.h && s.m.color[o].Black? && MayBeBlack(s.h[o])
    requires s' == s.(m := s'.m) && (s'.m.color == s.m.color[o := s.white] ||
                                     (s'.m.color == s.m.color[o := Gray] && s.h[o].kind.Table?))
    ensures Inv(s')
  {
    assert White(s.white) && o in s.m.color;
    hide Basic, Safe, Captures, Interned, Chained;
    RecoloredCore(s, s');
    match s.phase {
      case SweepString =>
        forall b | 0 <= b < s'.sweepstrgc ensures WhiteBucket(s', b) { assert WhiteBucket(s, b); }
      case Sweep =>
        forall i | 0 <= i < s'.sweepgc ensures Swept(s', s'.rootgc[i]) { assert Swept(s, s.rootgc[i]); }
      case _ =>
    }
  }

  // A write followed by the forward barrier, in any phase
  lemma StoreForwardKeeps(s: State, s1: State, o: Ref, v: Value)
    requires Written(s, s1, o, [v])
    ensures Core(s1) && o in s1.h && (v.Ptr? ==> v.ref in s1.h) && (s1.phase.Propagate? ==> NoneDead(s1))
    ensures Inv(BarrierForward(s1, o, v))
  {
    WrittenCore(s, s1, o, [v]);
    WrittenWrote(s, s1, o, [v]);
    CoreParts(s1);
    assert v in [v];
    hide Core, Marking, Written, Wrote, SweepingObjects, SweepingStrings, AllWhite;
    if s.phase.Propagate? {
      if s1.m.color[o].Black? {
        ForwardMarking(s, s1, o, v);
      } else {
        WrittenMarking(s, s1, o, [v]);
      }
    } else if NeedsBarrier(s1, o, v) {
      RecolorBlack(s1, BarrierForward(s1, o, v), o);
    }
  }

  // ----- tables -----

  // Both barriers of a table write: one for the key, one for the value
  function TableBarriers(s: State, t: Ref, k: Value, v: Value): State
    requires t in s.m.color && (k.Ptr? ==> k.ref in s.m.color) && (v.Ptr? ==> v.ref in s.m.color)
  {
    BarrierBack(BarrierBack(s, t, k), t, v)
  }

  function Grayed(s: State, t: Ref): State
    requires t in s.m.color
  {
    s.(m := SetColor(s.m, t, Gray).(grayagain := [t] + s.m.grayagain))
  }

  lemma TableBarriersCases(s: State, t: Ref, k: Value, v: Value)
    requires t in s.m.color && (k.Ptr? ==> k.ref in s.m.color) && (v.Ptr? ==> v.ref in s.m.color)
    ensures NeedsBarrier(s, t, k) || NeedsBarrier(s, t, v) ==> TableBarriers(s, t, k, v) == Grayed(s, t)
    ensures !(NeedsBarrier(s, t, k) || NeedsBarrier(s, t, v)) ==> TableBarriers(s, t, k, v) == s
  {
  }

  lemma BackMarking(s: State, s1: State, t: Ref, k: Value, v: Value)
    requires Written(s, s1, t, [k, v]) && s.phase.Propagate? && Core(s1) && NoneDead(s1)
    requires t in s1.h && t in s1.m.color && s1.h[t].kind.Table?
    requires (k.Ptr? ==> k.ref in s1.m.color) && (v.Ptr? ==> v.ref in s1.m.color)
    ensures Inv(TableBarriers(s1, t, k, v))
  {
    TableBarriersCases(s1, t, k, v);
    WrittenWrote(s, s1, t, [k, v]);
    WrittenMarking(s, s1, t, [k, v]);
    hide Core, Sound, Tricolor, Refs, Wrote, Written, TableBarriers, Marking, Inv, Colored, Grayed;
    MarkingInv(s1);
    if s1.m.color[t].Black? {
      if NeedsBarrier(s1, t, k) || NeedsBarrier(s1, t, v) {
        Regrayed(s1.h, s1.m, t);
        GrayedInv(s1, t);
      } else {
        MarkedPair(s1, k, v);
        OldRefsColored(s, s1, t, [k, v], s1.m);
        Repaired(s1.h, s1.m, t);
        GrowsReflexive(s1.h, s1.m);
        MarkingAgain(s1, s1.m);
        assert s1.(m := s1.m) == s1;
      }
    }
  }

  lemma MarkedPair(s: State, k: Value, v: Value)
    requires (k.Ptr? ==> k.ref in s.m.color && !White(s.m.color[k.ref]))
    requires (v.Ptr? ==> v.ref in s.m.color && !White(s.m.color[v.ref]))
    ensures Colored(s.m.color, [k, v])
  {
  }

  lemma MarkingInv(s: State)
    requires Core(s) && s.phase.Propagate?
    ensures Marking(s) ==> Inv(s)
  {
  }

  lemma GrayedInv(s: State, t: Ref)
    requires Core(s) && NoneDead(s) && s.phase.Propagate? && t in s.h && t in s.m.color && s.m.color[t].Black?
    requires Tricolor(s.h, Grayed(s, t).m, {}) && Colored(s.m.color, [Ptr(s.main), s.registry])
    ensures Inv(Grayed(s, t))
  {
    var s' := Grayed(s, t);
    CoreParts(s);
    assert White(s.white);
    hide Core, Tricolor;
    RecoloredSafe(s, s');
  }

  // A write into a table followed by its barriers, in any phase
  lemma StoreBackKeeps(s: State, s1: State, t: Ref, k: Value, v: Value)
    requires Written(s, s1, t, [k, v]) && s1.h[t].kind.Table?
    ensures t in s1.m.color && (k.Ptr? ==> k.ref in s1.m.color) && (v.Ptr? ==> v.ref in s1.m.color)
    ensures Inv(TableBarriers(s1, t, k, v))
  {
    WrittenCore(s, s1, t, [k, v]);
    WrittenWrote(s, s1, t, [k, v]);
    CoreParts(s1);
    assert k in [k, v] && v in [k, v];
    TableBarriersCases(s1, t, k, v);
    hide Core, Marking, Written, Wrote, SweepingObjects, SweepingStrings, AllWhite, TableBarriers;
    if s.phase.Propagate? {
      BackMarking(s, s1, t, k, v);
    } else if NeedsBarrier(s1, t, k) || NeedsBarrier(s1, t, v) {
      RecolorBlack(s1, Grayed(s1, t), t);
    }
  }

  // Writes to a stack, or to the mode of a table that refers to nothing new, need no barrier.
  lemma PlainWriteKeeps(s: State, s1: State, o: Ref, vs: seq<Value>)
    requires Inv(s) && Wrote(s.h, s1.h, o, vs) && s1 == s.(h := s1.h) && AllLive(s, vs)
    requires s.h[o].kind.Thread? || vs == []
    ensures Inv(s1)
  {
    hide Basic, Safe, Captures, Interned, Chained, Marking, SweepingObjects, SweepingStrings;
    WroteCore(s, s1, o, vs);
    if s.phase.Propagate? {
      PlainWriteMarking(s, s1, o, vs);
    } else {
      WroteColors(s, s1, o, vs);
    }
  }

  lemma PlainWriteMarking(s: State, s1: State, o: Ref, vs: seq<Value>)
    requires Core(s) && Marking(s) && Wrote(s.h, s1.h, o, vs) && s1 == s.(h := s1.h)
    requires s.h[o].kind.Thread? || vs == []
    ensures Marking(s1)
  {
    WroteTricolor(s.h, s1.h, s.m, o, vs, s.uvhead);
    assert o in s.m.color;
    hide Basic, Safe, Interned, Chained;
    if s.m.color[o].Black? {
      assert MayBeBlack(s.h[o]);
      assert Refs(s1.h, o) == Own(s1.h[o]) && Refs(s.h, o) == Own(s.h[o]);
      assert Colored(s.m.color, Refs(s.h, o));
      hide Refs, Wrote;
      Repaired(s1.h, s1.m, o);
    }
  }
}
