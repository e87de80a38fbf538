/**
 Closing and freeing open upvalues: `luaF_close` with `luaC_linkupval`, in every phase.
 */
module GcClose {
  import opened GcHeap
  import opened GcMark
  import opened GcPropagate
  import opened GcState
  import opened GcSweep
  import opened GcCycle

  ghost predicate HasOpen(s: State, t: Ref) {
    t in s.h && s.h[t].kind.Thread? && |s.h[t].kind.openupval| > 0 && s.h[t].kind.openupval[0] in s.h
  }

  // The colours of `luaC_linkupval`: a closed upvalue can no longer be gray.
  function LinkUpval(s: State, u: Ref): State
    requires Core(s) && u in s.h && (s.phase.Propagate? ==> NoneDead(s))
  {
    if !s.m.color[u].Gray? then s
    else if s.phase.Propagate? then
      SoundWhenNoneDead(s);
      assert forall v :: v in Slots(s.h, u) ==> v in Refs(s.h, u);
      s.(m := MarkVals(s.h, SetColor(s.m, u, Black), Slots(s.h, u)))
    else Whiten(s, u)
  }

  // One round of the loop of `luaF_close`
  function CloseUpval(s: State, t: Ref): State
    requires Inv(s) && HasOpen(s, t)
  {
    var u := s.h[t].kind.openupval[0];
    if Dead(s, u) then FreeUpval(s, t, 0)
    else
      CloseFirstKeeps(s, t);
      CloseFirstSame(s, t);
      LinkUpval(CloseFirst(s, t), u)
  }

  lemma CloseFirstSame(s: State, t: Ref)
    requires Core(s) && HasOpen(s, t)
    ensures CloseFirst(s, t).m == s.m && CloseFirst(s, t).phase == s.phase && CloseFirst(s, t).white == s.white
    ensures CloseFirst(s, t).h.Keys == s.h.Keys
    ensures s.phase.Propagate? && NoneDead(s) ==> NoneDead(CloseFirst(s, t))
  {
    CloseFirstRefs(s, t);
  }

  // While marking: closing changes the kind of one upvalue and no reference.
  lemma ClosedTricolor(h: Heap, h': Heap, m: Mark, t: Ref, u: Ref)
    requires Tricolor(h, m, {}) && h'.Keys == h.Keys && t in h && u in h && u != t
    requires forall x :: x in h ==> Refs(h', x) == Refs(h, x)
    requires forall x :: x in h && x != u && x != t ==> h'[x].kind == h[x].kind
    requires h[t].kind.Thread? && h'[t].kind.Thread? && h[u].kind.Upval? && h'[u].kind.Upval?
    ensures Tricolor(h', m, {u})
  {
    hide Refs, Colored;
  }

  lemma NowClosed(h: Heap, m: Mark, u: Ref)
    requires Tricolor(h, m, {u}) && u in h && u in m.color && h[u].kind == Upval(Closed)
    requires White(m.color[u]) || (m.color[u].Black? && Colored(m.color, Refs(h, u)))
    ensures Tricolor(h, m, {})
  {
    hide Refs, Colored;
  }

  lemma BlackenedTricolor(h: Heap, m: Mark, u: Ref)
    requires Tricolor(h, m, {u}) && u in h && u in m.color && h[u].kind.Upval? && m.color[u].Gray?
    ensures Tricolor(h, SetColor(m, u, Black), {u})
  {
    var m' := SetColor(m, u, Black);
    hide Refs;
    assert Lists(h, m');
    forall r | r in h && r in m'.color && r != u && m'.color[r].Black? ensures Colored(m'.color, Refs(h, r)) {
      assert Colored(m.color, Refs(h, r));
    }
  }

  lemma {:induction false} LinkedTricolor(h: Heap, m: Mark, u: Ref, v: Value, m': Mark)
    requires Fits(h, m) && u in h && h[u] == Obj(Upval(Closed), [v], [], [])
    requires Tricolor(h, m, {u}) && m.color[u].Gray? && Known(h, [v])
    requires m' == MarkVals(h, SetColor(m, u, Black), [v])
    ensures Tricolor(h, m', {}) && Grows(h, SetColor(m, u, Black), m')
  {
    BlackenedTricolor(h, m, u);
    MarkingKeepsTricolor(h, SetColor(m, u, Black), m', {u});
    assert m'.color[u].Black? && Refs(h, u) == [v];
    hide Tricolor, MarkVals;
    NowClosed(h, m', u);
  }

  // ----- the invariant -----

  // Lists and structure do not depend on colours.
  lemma RecoloredCore(s: State, s': State)
    requires Core(s) && s' == s.(m := s'.m) && s'.m.color.Keys == s.h.Keys
    requires forall r :: r in s.h ==> (Dead(s', r) <==> Dead(s, r))
    ensures Core(s')
  {
    assert Roots(s') == Roots(s);
    hide Refs, Captures, Interned, Chained;
    forall x | Live(s', x) ensures AllLive(s', Refs(s'.h, x)) {
      assert AllLive(s, Refs(s.h, x));
    }
  }

  lemma CloseFirstMarking(s: State, t: Ref)
    requires Core(s) && Marking(s) && HasOpen(s, t)
    ensures var s1 := CloseFirst(s, t); var u := s.h[t].kind.openupval[0];
      && Core(s1) && NoneDead(s1) && Fits(s1.h, s1.m) && Tricolor(s1.h, s1.m, {u})
      && s1.h[u].kind == Upval(Closed) && (White(s1.m.color[u]) || s1.m.color[u].Gray?)
      && |s1.h[u].slots| == 1 && s1.h[u] == Obj(Upval(Closed), s1.h[u].slots, [], [])
  {
    var u := s.h[t].kind.openupval[0];
    assert OpenList(s.h, t, s.h[t].kind.openupval) && u in s.h[t].kind.openupval;
    CloseFirstKeeps(s, t);
    CloseFirstRefs(s, t);
    CloseFirstSame(s, t);
    var s1 := CloseFirst(s, t);
    hide Safe, Captures, Interned, Chained, Lists;
    ClosedTricolor(s.h, s1.h, s.m, t, u);
    SoundWhenNoneDead(s1);
  }

  lemma {:induction false} CloseMarking(s: State, t: Ref)
    requires Inv(s) && s.phase.Propagate? && HasOpen(s, t)
    ensures !Dead(s, s.h[t].kind.openupval[0]) && Inv(CloseUpval(s, t))
  {
    var u := s.h[t].kind.openupval[0];
    assert !Dead(s, u);
    CloseFirstMarking(s, t);
    var s1 := CloseFirst(s, t);
    var s' := CloseUpval(s, t);
    assert Colored(s1.m.color, [Ptr(s1.main), s1.registry]);
    hide Core, CloseFirst, Tricolor, Fits;
    if s1.m.color[u].Gray? {
      LinkMarking(s1, u, s1.h[u].slots[0]);
    } else {
      hide Refs;
      NowClosed(s1.h, s1.m, u);
    }
  }

  lemma {:induction false} LinkMarking(s: State, u: Ref, v: Value)
    requires Core(s) && NoneDead(s) && Fits(s.h, s.m) && Tricolor(s.h, s.m, {u}) && s.phase.Propagate?
    requires u in s.h && s.h[u] == Obj(Upval(Closed), [v], [], []) && s.m.color[u].Gray?
    requires Colored(s.m.color, [Ptr(s.main), s.registry])
    ensures Inv(LinkUpval(s, u))
  {
    hide Tricolor, Core, Marking;
    assert v in Refs(s.h, u) && Slots(s.h, u) == [v];
    var s' := LinkUpval(s, u);
    LinkedTricolor(s.h, s.m, u, v, s'.m);
    assert s'.m == MarkVals(s.h, SetColor(s.m, u, Black), [v]);
    hide MarkVals, LinkUpval, Sound, Refs, Slots, Grows;
    LinkedInv(s, SetColor(s.m, u, Black), s');
  }

  lemma LinkedInv(s: State, m1: Mark, s': State)
    requires Core(s) && NoneDead(s) && s.phase.Propagate? && s' == s.(m := s'.m)
    requires Tricolor(s.h, s'.m, {}) && Grows(s.h, m1, s'.m)
    requires forall r :: r in s.h && r in m1.color ==> m1.color[r] == s.m.color[r] || m1.color[r] == Black
    requires Colored(m1.color, [Ptr(s.main), s.registry])
    ensures Inv(s')
  {
    assert White(s.white);
    StillColored(s.h, m1, s'.m, [Ptr(s.main), s.registry]);
    hide Tricolor, Core, Settled, Colored;
    GrowsNotDead(s, m1, s'.m);
    RecoloredSafe(s, s');
  }

  lemma StillColored(h: Heap, a: Mark, b: Mark, vs: seq<Value>)
    requires Grows(h, a, b) && Colored(a.color, vs)
    ensures Colored(b.color, vs)
  {
  }

  // Outside the mark phase a closed upvalue ends up white, so it counts as swept.
  lemma CloseWhitens(s: State, t: Ref)
    requires Inv(s) && !s.phase.Propagate? && HasOpen(s, t) && !Dead(s, s.h[t].kind.openupval[0])
    ensures var u := s.h[t].kind.openupval[0];
      CloseUpval(s, t) == CloseFirst(s, t).(m := SetColor(s.m, u, s.white))
  {
    var u := s.h[t].kind.openupval[0];
    assert OpenList(s.h, t, s.h[t].kind.openupval) && u in s.h[t].kind.openupval;
    hide Safe, Interned, Chained, Refs;
    assert !s.m.color[u].Black?;
    if !s.m.color[u].Gray? {
      assert s.m.color[u] == s.white && s.m.color[u := s.white] == s.m.color;
    }
  }

  // What one closed upvalue leaves behind, for the sweep.
  ghost predicate ClosedOne(s: State, s': State, t: Ref) {
    HasOpen(s, t) &&
    var u := s.h[t].kind.openupval[0];
    && OpenUpval(s.h[u].kind) && u != t
    && s'.h.Keys == s.h.Keys && s'.h[u].kind == Upval(Closed)
    && (forall x :: x in s.h && x != u && x != t ==> s'.h[x] == s.h[x])
    && s'.h[t].kind.Thread? && (forall x :: x in s'.h[t].kind.openupval ==> x in s.h[t].kind.openupval)
    && s'.m.color == s.m.color[u := s.white] && s'.strt == s.strt && s'.white == s.white
    && s'.rootgc == [u] + s.rootgc && s'.sweepgc == (if s.sweepgc == 0 then 0 else s.sweepgc + 1)
    && s'.sweepstrgc == s.sweepstrgc && s'.phase == s.phase
  }

  lemma CloseFirstIsClosedOne(s: State, t: Ref)
    requires Captures(s.h, s.uvhead) && HasOpen(s, t)
    ensures var u := s.h[t].kind.openupval[0];
      ClosedOne(s, CloseFirst(s, t).(m := SetColor(s.m, u, s.white)), t)
  {
    var us := s.h[t].kind.openupval;
    assert OpenList(s.h, t, us) && us[0] in us;
    RemoveAtLeavesOpen(s.h, t, us, 0);
  }

  lemma CloseIsClosedOne(s: State, t: Ref)
    requires Inv(s) && !s.phase.Propagate? && HasOpen(s, t) && !Dead(s, s.h[t].kind.openupval[0])
    ensures Core(CloseUpval(s, t)) && ClosedOne(s, CloseUpval(s, t), t)
  {
    hide Colors, Basic, Safe, Captures, Interned, Chained, CloseUpval, ClosedOne, CloseFirst, Refs;
    CloseWhitens(s, t);
    CloseFirstKeeps(s, t);
    CloseFirstSame(s, t);
    CloseFirstIsClosedOne(s, t);
    WhitenKeeps(CloseFirst(s, t), s.h[t].kind.openupval[0]);
  }

  lemma ClosedKindColors(s: State, s': State, t: Ref)
    requires ClosedOne(s, s', t) && KindColors(s.h, s.m.color, {}) && White(s.white)
    ensures KindColors(s'.h, s'.m.color, {})
  {
  }

  lemma ClosedStrings(s: State, s': State, t: Ref)
    requires ClosedOne(s, s', t) && SweepingStrings(s) && White(s.white)
    ensures SweepingStrings(s')
  {
    ClosedKindColors(s, s', t);
    hide KindColors;
    forall b | 0 <= b < s'.sweepstrgc ensures WhiteBucket(s', b) { assert WhiteBucket(s, b); }
  }

  lemma ClosedSwept(s: State, s': State, t: Ref, r: Ref)
    requires ClosedOne(s, s', t) && Swept(s, r)
    ensures Swept(s', r)
  {
  }

  lemma ClosedObjects(s: State, s': State, t: Ref)
    requires ClosedOne(s, s', t) && SweepingObjects(s) && White(s.white)
    ensures SweepingObjects(s')
  {
    ClosedKindColors(s, s', t);
    hide KindColors;
    forall i | 0 <= i < s'.sweepgc ensures Swept(s', s'.rootgc[i]) {
      if i > 0 { ClosedSwept(s, s', t, s.rootgc[i - 1]); }
    }
  }

  lemma CloseSweeping(s: State, t: Ref)
    requires Inv(s) && !s.phase.Propagate? && HasOpen(s, t) && !Dead(s, s.h[t].kind.openupval[0])
    ensures Inv(CloseUpval(s, t))
  {
    var s' := CloseUpval(s, t);
    CloseIsClosedOne(s, t);
    assert White(s.white);
    hide Core, CloseUpval, SweepingStrings, SweepingObjects;
    match s.phase {
      case SweepString => ClosedStrings(s, s', t);
      case Sweep => ClosedObjects(s, s', t);
      case _ =>
    }
  }

  // What one freed upvalue leaves behind, for the sweep.
  ghost predicate FreedOne(s: State, s': State, t: Ref, u: Ref) {
    && t in s.h && s.h[t].kind.Thread? && u in s.h && OpenUpval(s.h[u].kind)
    && s' == s.(h := s'.h, m := s.m.(color := s.m.color - {u}), uvhead := s'.uvhead)
    && s'.h.Keys == s.h.Keys - {u}
    && (forall x :: x in s.h && x != u && x != t ==> s'.h[x] == s.h[x])
    && s'.h[t].kind.Thread? && (forall x :: x in s'.h[t].kind.openupval ==> x in s.h[t].kind.openupval && x != u)
    && s'.h[t] == s.h[t].(kind := s'.h[t].kind)
    && (forall t2 :: t2 in s.h && t2 != t && s.h[t2].kind.Thread? ==> u !in s.h[t2].kind.openupval)
  }

  lemma FreeIsFreedOne(s: State, t: Ref, i: nat)
    requires Captures(s.h, s.uvhead) && t in s.h && s.h[t].kind.Thread? && i < |s.h[t].kind.openupval|
    ensures FreedOne(s, FreeUpval(s, t, i), t, s.h[t].kind.openupval[i])
  {
    var us := s.h[t].kind.openupval;
    assert OpenList(s.h, t, us) && us[i] in us;
    RemoveAtLeavesOpen(s.h, t, us, i);
    forall t2 | t2 in s.h && t2 != t && s.h[t2].kind.Thread? ensures us[i] !in s.h[t2].kind.openupval {
      assert OpenList(s.h, t2, s.h[t2].kind.openupval);
    }
    hide RemoveAt, Drop;
  }

  lemma FreedColors(s: State, s': State, t: Ref, u: Ref)
    requires FreedOne(s, s', t, u) && Dead(s, u) && White(s.white) && Colors(s)
    ensures Colors(s')
  {
    match s.phase {
      case SweepString =>
        forall b | 0 <= b < s'.sweepstrgc ensures WhiteBucket(s', b) { assert WhiteBucket(s, b); }
      case Sweep =>
        forall k | 0 <= k < s'.sweepgc ensures Swept(s', s'.rootgc[k]) {
          assert Swept(s, s.rootgc[k]);
        }
      case _ =>
    }
  }

  // A dead upvalue is freed, which can only happen while sweeping.
  lemma FreeSweeping(s: State, t: Ref, i: nat)
    requires Inv(s) && t in s.h && s.h[t].kind.Thread? && i < |s.h[t].kind.openupval|
    requires s.h[t].kind.openupval[i] in s.h && Dead(s, s.h[t].kind.openupval[i])
    ensures s.h[t].kind.openupval[i] !in s.fixed && Inv(FreeUpval(s, t, i))
  {
    var u := s.h[t].kind.openupval[i];
    FreeIsFreedOne(s, t, i);
    assert White(s.white) && u !in s.fixed;
    hide Basic, Safe, Captures, Interned, Chained, FreeUpval, Colors;
    FreeUpvalKeeps(s, t, i);
    FreedColors(s, FreeUpval(s, t, i), t, u);
  }

  // Every round of `luaF_close` keeps the invariant.
  lemma CloseUpvalKeeps(s: State, t: Ref)
    requires Inv(s) && HasOpen(s, t)
    ensures Inv(CloseUpval(s, t))
  {
    hide Core, Colors, FreeUpval, CloseFirst;
    if Dead(s, s.h[t].kind.openupval[0]) {
      FreeSweeping(s, t, 0);
    } else if s.phase.Propagate? {
      CloseMarking(s, t);
    } else {
      CloseSweeping(s, t);
    }
  }
}
