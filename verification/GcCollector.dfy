/**
 The collector as the object it is: `global_State` with its fields, updated in place. Every
 method changes the state exactly as the specification functions of the other modules say.
 */
module GcCollector {
  import opened GcHeap
  import opened GcMark
  import opened GcPropagate
  import opened GcAtomic
  import opened GcState
  import opened GcSweep
  import opened GcCycle
  import opened GcClose
  import opened GcCollect
  import opened GcStep
  import opened GcBarrier
  import opened GcFull
  import GcAlloc
  import GcUpval
  import GcCloseFrom
  import GcWeak

  lemma {:induction false} MarkValsSplit(h: Heap, m: Mark, a: seq<Value>, b: seq<Value>)
    requires Fits(h, m) && Known(h, a) && Known(h, b)
    ensures Known(h, a + b) && MarkVals(h, m, a + b) == MarkVals(h, MarkVals(h, m, a), b)
    decreases |a|
  {
    if a == [] {
      assert a + b == b;
    } else {
      assert (a + b)[0] == a[0] && (a + b)[1..] == a[1..] + b;
      assert a[0] in a;
      MarkValsSplit(h, MarkVal(h, m, a[0]), a[1..], b);
    }
  }

  lemma KnownBoth(h: Heap, a: seq<Value>, b: seq<Value>)
    requires Known(h, a + b)
    ensures Known(h, a) && Known(h, b)
  {
    assert forall v :: v in a || v in b ==> v in a + b;
  }

  lemma StartValuesKnown(s: State)
    requires Basic(s) && Sound(s.h) && Known(s.h, Roots(s))
    ensures Fits(s.h, s.m) && Known(s.h, [Ptr(s.main), Globals(s.h, s.main), s.registry] + s.mt)
  {
    var g := Globals(s.h, s.main);
    assert g in Refs(s.h, s.main) && Known(s.h, Refs(s.h, s.main));
    forall v | v in [Ptr(s.main), g, s.registry] + s.mt && v.Ptr? ensures v.ref in s.h {
      assert v in Roots(s) || v == g;
    }
  }

  lemma AtomicStepReady(s: State)
    requires Inv(s) && s.phase.Propagate?
    ensures Fits(s.h, s.m) && Tricolor(s.h, s.m, {}) && AllOpen(s.h, s.uvhead) && Known(s.h, [Ptr(s.running)] + s.mt)
    ensures AtomicMarked(s) == AtomicMarks(s.h, s.m, s.uvhead, [Ptr(s.running)] + s.mt)
    ensures GcWeak.Tables(s.h, AtomicMarked(s).weak) && GcWeak.Ok(GcWeak.Cleared(s.h, AtomicMarked(s).color))
    ensures Atomic(s) ==
      (var c := GcWeak.ClearTables(GcWeak.Cleared(s.h, AtomicMarked(s).color), AtomicMarked(s).weak);
       s.(h := c.h, m := AtomicMarked(s).(color := c.color), white := Flip(s.white),
          phase := SweepString, sweepstrgc := 0, sweepgc := 0))
  {
    AtomicReady(s);
    AtomicMarkedIs(s);
    AtomicMarkedFully(s);
    MarkedTables(s, AtomicMarked(s));
    hide Inv, Fits, Tricolor, Known, AllOpen, AtomicMarked, FullyMarked, GcWeak.Ok, GcWeak.Tables;
  }

  lemma PartsKnown(h: Heap, o: Ref)
    requires Sound(h) && o in h
    ensures Known(h, Slots(h, o)) && Known(h, h[o].keys) && Known(h, h[o].vals)
  {
    assert forall v :: v in Slots(h, o) || v in h[o].keys || v in h[o].vals ==> v in Refs(h, o);
  }

  // The order in which `traversetable` marks
  lemma TableParts(h: Heap, m: Mark, o: Ref)
    requires Fits(h, m) && o in h && h[o].kind.Table?
    ensures Known(h, Slots(h, o)) && Known(h, h[o].keys) && Known(h, h[o].vals) && Known(h, Strong(h, o))
    ensures MarkVals(h, m, Strong(h, o)) ==
      (var m1 := MarkVals(h, m, Slots(h, o));
       var m2 := if h[o].kind.weakKeys then m1 else MarkVals(h, m1, h[o].keys);
       if h[o].kind.weakVals then m2 else MarkVals(h, m2, h[o].vals))
  {
    PartsKnown(h, o);
    StrongKnown(h, o);
    var ks := if h[o].kind.weakKeys then [] else h[o].keys;
    var vs := if h[o].kind.weakVals then [] else h[o].vals;
    MarkValsSplit(h, m, Slots(h, o), ks);
    MarkValsSplit(h, m, Slots(h, o) + ks, vs);
  }

  lemma SweepOpenKeep(s: State, t: Ref, i: nat)
    requires Inv(s) && s.phase.Sweep? && IsThread(s, t) && i < |OpenOf(s, t)| && Keeps(s, OpenOf(s, t)[i])
    ensures var s1 := Whiten(s, OpenOf(s, t)[i]);
      && Inv(s1) && s1.phase.Sweep? && IsThread(s1, t) && OpenOf(s1, t) == OpenOf(s, t)
      && SweepOpen(s, t, i) == SweepOpen(s1, t, i + 1)
  {
    OpenInHeap(s, t);
    hide Inv;
    WhitenInv(s, OpenOf(s, t)[i]);
  }

  lemma SweepOpenFree(s: State, t: Ref, i: nat)
    requires Inv(s) && s.phase.Sweep? && IsThread(s, t) && i < |OpenOf(s, t)| && !Keeps(s, OpenOf(s, t)[i])
    ensures var s1 := FreeUpval(s, t, i);
      && Inv(s1) && s1.phase.Sweep? && IsThread(s1, t) && |OpenOf(s1, t)| == |OpenOf(s, t)| - 1
      && SweepOpen(s, t, i) == SweepOpen(s1, t, i)
  {
    OpenInHeap(s, t);
    hide Inv, FreeUpval, Sweeps;
    FreeUpvalSweeps(s, t, i);
    FreeUpvalFrame(s, t, i);
  }

  lemma LinkReady(s: State, u: Ref)
    requires Core(s) && u in s.h && (s.phase.Propagate? ==> NoneDead(s))
    ensures s.m.color.Keys == s.h.Keys
    ensures s.phase.Propagate? ==> Fits(s.h, s.m) && Fits(s.h, SetColor(s.m, u, Black)) && Known(s.h, Slots(s.h, u))
  {
    if s.phase.Propagate? {
      SoundWhenNoneDead(s);
      PartsKnown(s.h, u);
    }
  }

  lemma CloseDead(s: State, t: Ref)
    requires Inv(s) && HasOpen(s, t) && Dead(s, s.h[t].kind.openupval[0])
    ensures CloseUpval(s, t) == FreeUpval(s, t, 0)
  {
    hide Inv, FreeUpval;
  }

  lemma CloseFirstReady(s: State, t: Ref)
    requires Inv(s) && HasOpen(s, t) && !Dead(s, s.h[t].kind.openupval[0])
    ensures Core(CloseFirst(s, t)) && s.h[t].kind.openupval[0] in CloseFirst(s, t).h && s.h[t].kind.openupval[0] != t
    ensures s.phase.Propagate? ==> NoneDead(CloseFirst(s, t))
    ensures CloseUpval(s, t) == LinkUpval(CloseFirst(s, t), s.h[t].kind.openupval[0])
  {
    var u := s.h[t].kind.openupval[0];
    assert u in s.h[t].kind.openupval && OpenList(s.h, t, s.h[t].kind.openupval);
    hide Basic, Safe, Interned, Chained, CloseFirst, LinkUpval;
    CloseFirstKeeps(s, t);
    CloseFirstSame(s, t);
  }

  lemma CloseFromRound(s: State, t: Ref, level: nat)
    requires Inv(s) && HasOpen(s, t) && GcUpval.ThreadOk(s.h, t) && Level(s.h, OpenOf(s, t)[0]) >= level
    ensures var s' := CloseUpval(s, t);
      && Inv(s') && IsThread(s', t) && |OpenOf(s', t)| == |OpenOf(s, t)| - 1
      && GcCloseFrom.CloseFrom(s, t, level) == GcCloseFrom.CloseFrom(s', t, level)
  {
    hide Inv, CloseUpval;
    CloseUpvalKeeps(s, t);
    GcCloseFrom.CloseUpvalShrinks(s, t);
  }

  // Freeing a thread closes its upvalues from the bottom of its stack.
  lemma {:induction false} CloseAllIsCloseFrom(s: State, t: Ref)
    requires Inv(s) && s.phase.Sweep? && IsThread(s, t)
    ensures CloseAll(s, t) == GcCloseFrom.CloseFrom(s, t, 0)
    decreases |OpenOf(s, t)|
  {
    if OpenOf(s, t) != [] {
      OpenInHeap(s, t);
      GcUpval.InvThreadOk(s, t);
      hide Inv, CloseUpval, Sweeps, RemoveAt;
      CloseFromRound(s, t, 0);
      CloseOpens(s, t);
      ClosedPhase(s, t);
      CloseAllIsCloseFrom(CloseUpval(s, t), t);
    }
  }

  lemma ClosedPhase(s: State, t: Ref)
    requires Inv(s) && HasOpen(s, t) && Sweeps(s, CloseUpval(s, t))
    ensures CloseUpval(s, t).phase == s.phase
  {
    hide Inv, CloseUpval, Refs;
  }

  lemma PropagateReady(s: State)
    requires Inv(s) && s.phase.Propagate? && s.m.gray != []
    ensures Fits(s.h, s.m) && GrayList(s.h, s.m.color, s.m.gray)
    ensures PropagateStep(s) == s.(m := PropagateMark(s.h, s.m))
  {
    SoundWhenNoneDead(s);
  }

  lemma CoreBasic(s: State)
    requires Core(s)
    ensures Basic(s)
  {
  }

  class GlobalState {
    var objects: Heap
    var marked: map<Ref, Color>
    var gray: seq<Ref>
    var grayagain: seq<Ref>
    var weak: seq<Ref>
    var fixed: set<Ref>
    var currentwhite: Color
    var gcstate: Phase
    var rootgc: seq<Ref>
    var sweepgc: nat
    var strt: seq<seq<Ref>>
    var sweepstrgc: nat
    var uvhead: seq<Ref>
    var mainthread: Ref
    var running: Ref
    var registry: Value
    var mt: seq<Value>

    ghost function Marks(): Mark
      reads this
    {
      Mark(marked, gray, grayagain, weak)
    }

    ghost function View(): State
      reads this
    {
      State(objects, Marks(), fixed, currentwhite, gcstate, rootgc, sweepgc, strt, sweepstrgc, uvhead,
            mainthread, running, registry, mt)
    }

    // ----- marking -----

    method ReallyMarkObject(o: Ref)
      requires Fits(objects, Marks()) && o in objects && White(marked[o])
      modifies `marked, `gray
      ensures Marks() == MarkObj(objects, old(Marks()), o)
      decreases Whites(marked), 0
    {
      ghost var m := Marks();
      marked := marked[o := Gray];
      assert o in Whites(m.color) && o !in Whites(marked) && Whites(marked) <= Whites(m.color);
      match objects[o].kind {
        case Str(_) =>
        case Udata =>
          marked := marked[o := Black];
          assert Marks() == SetColor(SetColor(m, o, Gray), o, Black);
          MarkValues(objects[o].slots + objects[o].keys + objects[o].vals);
        case Upval(loc) =>
          StrongKnown(objects, o);
          MarkValues(Slots(objects, o) + objects[o].keys + objects[o].vals);
          if loc.Closed? {
            marked := marked[o := Black];
          }
        case _ =>
          gray := [o] + gray;
      }
    }

    // `markvalue` and `markobject`
    method MarkValue(v: Value)
      requires Fits(objects, Marks()) && (v.Ptr? ==> v.ref in objects)
      modifies `marked, `gray
      ensures Marks() == MarkVal(objects, old(Marks()), v)
      decreases Whites(marked), 1
    {
      if v.Ptr? && White(marked[v.ref]) {
        ReallyMarkObject(v.ref);
      }
    }

    method MarkValues(vs: seq<Value>)
      requires Fits(objects, Marks()) && Known(objects, vs)
      modifies `marked, `gray
      ensures Marks() == MarkVals(objects, old(Marks()), vs)
      decreases Whites(marked), 1 + |vs|
    {
      ghost var m := Marks();
      var i := 0;
      while i < |vs|
        invariant 0 <= i <= |vs| && Fits(objects, Marks()) && Whites(marked) <= Whites(m.color)
        invariant MarkVals(objects, m, vs) == MarkVals(objects, Marks(), vs[i..])
      {
        assert vs[i..][0] == vs[i] && vs[i..][1..] == vs[i + 1..];
        MarkValue(vs[i]);
        i := i + 1;
      }
    }

    method TraverseTable(o: Ref)
      requires Fits(objects, Marks()) && o in objects && objects[o].kind.Table? && Known(objects, Strong(objects, o))
      modifies `marked, `gray
      ensures Marks() == MarkVals(objects, old(Marks()), Strong(objects, o))
    {
      TableParts(objects, Marks(), o);
      hide Known, Strong, Sound;
      MarkValues(objects[o].slots);
      if !objects[o].kind.weakKeys {
        MarkValues(objects[o].keys);
      }
      if !objects[o].kind.weakVals {
        MarkValues(objects[o].vals);
      }
    }

    // `propagatemark` with the traversal of each kind
    method PropagateFirst()
      requires Fits(objects, Marks()) && gray != [] && GrayList(objects, marked, gray)
      modifies `marked, `gray, `grayagain, `weak
      ensures Marks() == PropagateMark(objects, old(Marks()))
    {
      ghost var m := Marks();
      var o := gray[0];
      StrongKnown(objects, o);
      hide Sound, Known;
      marked := marked[o := Black];
      gray := gray[1..];
      if objects[o].kind.Table? {
        TraverseTable(o);
        if Weak(objects[o].kind) {
          weak := [o] + weak;
          marked := marked[o := Gray];
        }
      } else {
        if objects[o].kind.Thread? {
          grayagain := [o] + grayagain;
          marked := marked[o := Gray];
          assert marked == m.color;
        }
        MarkValues(objects[o].slots + objects[o].keys + objects[o].vals);
      }
    }

    method PropagateGray()
      requires Fits(objects, Marks()) && Tricolor(objects, Marks(), {})
      modifies `marked, `gray, `grayagain, `weak
      ensures Marks() == PropagateAll(objects, old(Marks()))
      ensures Fits(objects, Marks()) && Tricolor(objects, Marks(), {}) && gray == []
    {
      ghost var m := Marks();
      while gray != []
        invariant Fits(objects, Marks()) && Tricolor(objects, Marks(), {})
        invariant PropagateAll(objects, m) == PropagateAll(objects, Marks())
        decreases Pending(Marks())
      {
        PropagateMarkKeeps(objects, Marks(), marked.Keys);
        PropagateMarkProgress(objects, Marks());
        PropagateFirst();
      }
    }

    method StartSweep()
      modifies `gcstate, `sweepgc, `sweepstrgc
      ensures View() == old(View()).(phase := SweepString, sweepstrgc := 0, sweepgc := 0)
    {
      sweepstrgc := 0;
      sweepgc := 0;
      gcstate := SweepString;
    }

    method ClearLists()
      modifies `gray, `grayagain, `weak
      ensures View() == old(View()).(m := Mark(marked, [], [], []))
    {
      gray, grayagain, weak := [], [], [];
    }

    // The roots of `markroot`
    method MarkRootValues(globals: Value)
      requires Fits(objects, Marks()) && Known(objects, [Ptr(mainthread), globals, registry] + mt)
      modifies `marked, `gray
      ensures Marks() == MarkVals(objects, old(Marks()), [Ptr(mainthread), globals, registry] + mt)
    {
      ghost var vs := [Ptr(mainthread), globals, registry];
      hide Known, Sound, MarkVals, Settled, GrayList;
      KnownBoth(objects, vs, mt);
      MarkValsSplit(objects, Marks(), vs, mt);
      MarkValues([Ptr(mainthread), globals, registry]);
      MarkValues(mt);
    }

    method MarkRoots()
      requires Basic(View()) && Sound(objects) && Known(objects, Roots(View()))
      modifies `marked, `gray, `grayagain, `weak, `gcstate
      ensures View() == MarkRoot(old(View()))
    {
      StartValuesKnown(View());
      hide Sound, Known, Roots;
      ClearLists();
      MarkRootValues(objects[mainthread].slots[0]);
      gcstate := Propagate;
    }

    method RemarkOpenUpvals()
      requires Fits(objects, Marks()) && Upvals(objects, uvhead)
      modifies `marked, `gray
      ensures Marks() == RemarkUpvals(objects, old(Marks()), uvhead)
    {
      ghost var m := Marks();
      var i := 0;
      while i < |uvhead|
        invariant 0 <= i <= |uvhead| && Fits(objects, Marks())
        invariant RemarkUpvals(objects, m, uvhead) == RemarkUpvals(objects, Marks(), uvhead[i..])
      {
        var u := uvhead[i];
        assert uvhead[i..][0] == u && uvhead[i..][1..] == uvhead[i + 1..];
        assert Known(objects, Slots(objects, u)) by { PartsKnown(objects, u); }
        if marked[u].Gray? {
          MarkValues(Slots(objects, u));
        }
        i := i + 1;
      }
    }

    // `cleartable` on one table: `iscleared` marks strings it meets.
    method IsCleared(v: Value) returns (b: bool)
      requires GcWeak.Ok(GcWeak.Cleared(objects, marked)) && (v.Ptr? ==> v.ref in objects)
      modifies `marked
      ensures b == GcWeak.Collected(GcWeak.Cleared(objects, old(marked)), v)
      ensures GcWeak.Cleared(objects, marked) == GcWeak.StringMark(GcWeak.Cleared(objects, old(marked)), v)
    {
      if v.Plain? {
        return false;
      }
      if objects[v.ref].kind.Str? {
        if White(marked[v.ref]) {
          marked := marked[v.ref := Gray];
        }
        return false;
      }
      return White(marked[v.ref]);
    }

    // One entry: the value is looked at only if the key stays.
    method ClearEntry(t: Ref, i: nat)
      requires GcWeak.Ok(GcWeak.Cleared(objects, marked)) && t in objects && i < |objects[t].keys| == |objects[t].vals|
      modifies `marked, `objects
      ensures GcWeak.Cleared(objects, marked) == GcWeak.ClearEntry(GcWeak.Cleared(old(objects), old(marked)), t, i)
    {
      var k, v := objects[t].keys[i], objects[t].vals[i];
      assert k in Refs(objects, t) && v in Refs(objects, t);
      var gone := IsCleared(k);
      if !gone {
        gone := IsCleared(v);
      }
      if gone {
        var o := objects[t];
        objects := objects[t := o.(keys := o.keys[i := DeadKey(k)], vals := o.vals[i := NIL])];
      }
    }

    method ClearTable(t: Ref)
      requires GcWeak.Ok(GcWeak.Cleared(objects, marked)) && t in objects && |objects[t].keys| == |objects[t].vals|
      modifies `marked, `objects
      ensures GcWeak.Cleared(objects, marked) ==
              GcWeak.ClearEntries(GcWeak.Cleared(old(objects), old(marked)), t, |old(objects)[t].keys|)
    {
      hide GcWeak.ClearEntry, GcWeak.Ok;
      ghost var c0 := GcWeak.Cleared(objects, marked);
      var n := |objects[t].keys|;
      var i := n;
      while i > 0
        invariant 0 <= i <= n && GcWeak.Ok(GcWeak.Cleared(objects, marked)) && t in objects
        invariant |objects[t].keys| == |objects[t].vals| == n
        invariant GcWeak.ClearEntries(c0, t, n) == GcWeak.ClearEntries(GcWeak.Cleared(objects, marked), t, i)
      {
        i := i - 1;
        ghost var c := GcWeak.Cleared(objects, marked);
        GcWeak.ClearEntryTrims(c, t, i);
        GcWeak.TrimmedOk(c, GcWeak.ClearEntry(c, t, i));
        ClearEntry(t, i);
      }
    }

    method ClearWeak()
      requires GcWeak.Ok(GcWeak.Cleared(objects, marked)) && GcWeak.Tables(objects, weak)
      modifies `marked, `objects
      ensures GcWeak.Cleared(objects, marked) == GcWeak.ClearTables(GcWeak.Cleared(old(objects), old(marked)), weak)
    {
      ghost var c0 := GcWeak.Cleared(objects, marked);
      var i := 0;
      while i < |weak|
        invariant 0 <= i <= |weak|
        invariant GcWeak.Ok(GcWeak.Cleared(objects, marked)) && GcWeak.Tables(objects, weak[i..])
        invariant GcWeak.ClearTables(c0, weak) == GcWeak.ClearTables(GcWeak.Cleared(objects, marked), weak[i..])
      {
        var t := weak[i];
        assert weak[i..][0] == t && weak[i..][1..] == weak[i + 1..];
        assert Shaped(objects[t]);
        GcWeak.ClearEntriesTrims(GcWeak.Cleared(objects, marked), t, |objects[t].keys|);
        ClearTable(t);
        i := i + 1;
      }
    }

    // The three rounds of marking in `atomic`
    method RemarkUpvalsRound()
      requires Fits(objects, Marks()) && Tricolor(objects, Marks(), {}) && AllOpen(objects, uvhead)
      modifies `marked, `gray, `grayagain, `weak
      ensures Marks() == RemarkRound(objects, old(Marks()), uvhead)
    {
      RemarkedStart(objects, Marks(), uvhead);
      hide Tricolor, Sound, Grows;
      RemarkOpenUpvals();
      PropagateGray();
    }

    method RemarkWeakRound()
      requires Fits(objects, Marks()) && Tricolor(objects, Marks(), {}) && gray == []
      requires Known(objects, [Ptr(running)] + mt)
      modifies `marked, `gray, `grayagain, `weak
      ensures Marks() == WeakRound(objects, old(Marks()), [Ptr(running)] + mt)
    {
      hide Tricolor, Sound, Grows, Known;
      WeakStart(objects, Marks(), [Ptr(running)] + mt);
      gray, weak := weak, [];
      MarkValues([Ptr(running)] + mt);
      PropagateGray();
    }

    method RemarkAgainRound()
      requires Fits(objects, Marks()) && Tricolor(objects, Marks(), {}) && gray == []
      modifies `marked, `gray, `grayagain, `weak
      ensures Marks() == AgainRound(objects, old(Marks()))
    {
      hide Tricolor, Sound;
      AgainStart(objects, Marks());
      gray, grayagain := grayagain, [];
      PropagateGray();
    }

    method AtomicMark()
      requires Fits(objects, Marks()) && Tricolor(objects, Marks(), {}) && AllOpen(objects, uvhead)
      requires Known(objects, [Ptr(running)] + mt)
      modifies `marked, `gray, `grayagain, `weak
      ensures Marks() == AtomicMarks(objects, old(Marks()), uvhead, [Ptr(running)] + mt)
    {
      hide Fits, Tricolor, Known, AllOpen, Fresh, Later, Grows, RemarkRound, WeakRound, AgainRound;
      ghost var vs := [Ptr(running)] + mt;
      RemarkRoundKeeps(objects, Marks(), uvhead);
      RemarkUpvalsRound();
      WeakRoundKeeps(objects, Marks(), vs);
      RemarkWeakRound();
      RemarkAgainRound();
    }

    method AtomicStep()
      requires Inv(View()) && gcstate.Propagate?
      modifies `objects, `marked, `gray, `grayagain, `weak, `currentwhite, `gcstate, `sweepgc, `sweepstrgc
      ensures View() == Atomic(old(View()))
    {
      hide Inv, Fits, Tricolor, Known, AllOpen, AtomicMarked, AtomicMarks, GcWeak.Ok, GcWeak.Tables, Atomic,
        GcWeak.ClearTables;
      ghost var s := View();
      AtomicStepReady(s);
      AtomicMark();
      assert Marks() == AtomicMarked(s);
      ClearWeak();
      assert marked == GcWeak.ClearTables(GcWeak.Cleared(s.h, AtomicMarked(s).color), AtomicMarked(s).weak).color;
      currentwhite := Flip(currentwhite);
      StartSweep();
    }

    // ----- sweeping -----

    predicate IsDead(r: Ref)
      reads this
    {
      r in marked && marked[r] == Flip(currentwhite)
    }

    method MakeWhite(r: Ref)
      modifies `marked
      ensures View() == Whiten(old(View()), r)
    {
      marked := marked[r := currentwhite];
    }

    method FreeMemory(r: Ref)
      modifies `objects, `marked
      ensures View() == Forget(old(View()), r)
    {
      objects := objects - {r};
      marked := marked - {r};
    }

    // `sweepwholelist` on a bucket of the string table
    method SweepStringList(b: nat)
      requires b < |strt|
      modifies `objects, `marked, `strt
      ensures View() == SweepBucket(old(View()), b, 0)
    {
      ghost var s := View();
      var i := 0;
      while i < |strt[b]|
        invariant b < |strt| && 0 <= i <= |strt[b]|
        invariant SweepBucket(s, b, 0) == SweepBucket(View(), b, i)
        decreases |strt[b]| - i
      {
        var r := strt[b][i];
        if !IsDead(r) || r in fixed {
          MakeWhite(r);
          i := i + 1;
        } else {
          strt := strt[b := strt[b][..i] + strt[b][i + 1..]];
          FreeMemory(r);
        }
      }
    }

    method SweepNextBucket()
      requires sweepstrgc < |strt|
      modifies `objects, `marked, `strt, `sweepstrgc, `gcstate
      ensures View() == SweepStringStep(old(View()))
    {
      hide SweepBucket;
      SweepStringList(sweepstrgc);
      sweepstrgc := sweepstrgc + 1;
      if sweepstrgc >= |strt| {
        gcstate := Sweep;
      }
    }

    // An open upvalue leaves the list of its thread and the list of all open upvalues.
    method Unlink(t: Ref, i: nat)
      requires IsThread(View(), t) && i < |OpenOf(View(), t)|
      modifies `objects, `uvhead
      ensures View() == SetOpen(old(View()), t, RemoveAt(OpenOf(old(View()), t), i)).(
                          uvhead := Drop(old(uvhead), OpenOf(old(View()), t)[i]))
    {
      var us := objects[t].kind.openupval;
      objects := objects[t := objects[t].(kind := Thread(us[..i] + us[i + 1..]))];
      uvhead := Drop(uvhead, us[i]);
    }

    // `sweepwholelist` on the open upvalues of a thread
    method SweepOpenUpvals(t: Ref)
      requires Inv(View()) && gcstate.Sweep? && IsThread(View(), t)
      modifies `objects, `marked, `uvhead
      ensures View() == SweepOpen(old(View()), t, 0)
    {
      ghost var s := View();
      var i := 0;
      hide Inv, Whiten, FreeUpval, Sweeps;
      while i < |objects[t].kind.openupval|
        invariant Inv(View()) && gcstate.Sweep? && IsThread(View(), t) && 0 <= i <= |OpenOf(View(), t)|
        invariant SweepOpen(s, t, 0) == SweepOpen(View(), t, i)
        decreases |OpenOf(View(), t)| - i
      {
        var u := objects[t].kind.openupval[i];
        OpenInHeap(View(), t);
        if !IsDead(u) || u in fixed {
          SweepOpenKeep(View(), t, i);
          MakeWhite(u);
          i := i + 1;
        } else {
          SweepOpenFree(View(), t, i);
          FreeOpenUpval(t, i);
        }
      }
    }

    // `luaF_freeupval` for an open upvalue
    method FreeOpenUpval(t: Ref, i: nat)
      requires IsThread(View(), t) && i < |OpenOf(View(), t)|
      modifies `objects, `marked, `uvhead
      ensures View() == FreeUpval(old(View()), t, i)
    {
      var u := objects[t].kind.openupval[i];
      Unlink(t, i);
      FreeMemory(u);
    }

    // ----- closing upvalues -----

    // A closed upvalue can no longer be gray: `luaC_barrier` or a new white.
    method RepairClosed(u: Ref)
      requires Core(View()) && u in objects && (gcstate.Propagate? ==> NoneDead(View()))
      modifies `marked, `gray
      ensures View() == LinkUpval(old(View()), u)
    {
      hide Core, Fits, Known, NoneDead;
      LinkReady(View(), u);
      if marked[u].Gray? {
        if gcstate.Propagate? {
          marked := marked[u := Black];
          MarkValues(Slots(objects, u));
        } else {
          MakeWhite(u);
        }
      }
    }

    // `luaC_linkupval`
    method LinkClosedUpval(u: Ref)
      requires Core(LinkHead(View(), u)) && u in objects && (gcstate.Propagate? ==> NoneDead(LinkHead(View(), u)))
      modifies `marked, `gray, `rootgc, `sweepgc
      ensures View() == LinkUpval(LinkHead(old(View()), u), u)
    {
      hide Core, LinkUpval, NoneDead;
      rootgc := [u] + rootgc;
      sweepgc := if sweepgc == 0 then 0 else sweepgc + 1;
      RepairClosed(u);
    }

    // One round of `luaF_close`
    method CloseFirstUpval(t: Ref)
      requires Inv(View()) && HasOpen(View(), t)
      modifies `objects, `marked, `gray, `uvhead, `rootgc, `sweepgc
      ensures View() == CloseUpval(old(View()), t)
    {
      hide Inv, Core, LinkUpval, CloseUpval, FreeUpval, NoneDead;
      ghost var s := View();
      InvColored(s);
      var u := objects[t].kind.openupval[0];
      if IsDead(u) {
        CloseDead(s, t);
        FreeOpenUpval(t, 0);
      } else {
        CloseFirstReady(s, t);
        var value := Slots(objects, u);
        Unlink(t, 0);
        objects := objects[u := Obj(Upval(Closed), value, [], [])];
        assert LinkHead(View(), u) == CloseFirst(s, t);
        LinkClosedUpval(u);
      }
    }

    // `luaF_close`
    method CloseUpvals(t: Ref, level: nat)
      requires Inv(View()) && IsThread(View(), t)
      modifies `objects, `marked, `gray, `uvhead, `rootgc, `sweepgc
      ensures View() == GcCloseFrom.CloseFrom(old(View()), t, level)
    {
      hide Inv, CloseUpval, GcCloseFrom.Shrunk;
      ghost var s := View();
      OpenInHeap(s, t);
      GcUpval.InvThreadOk(s, t);
      while objects[t].kind.openupval != [] && Level(objects, objects[t].kind.openupval[0]) >= level
        invariant Inv(View()) && IsThread(View(), t) && GcUpval.ThreadOk(objects, t)
        invariant OpenOf(View(), t) != [] ==> HasOpen(View(), t)
        invariant GcCloseFrom.CloseFrom(s, t, level) == GcCloseFrom.CloseFrom(View(), t, level)
        decreases |OpenOf(View(), t)|
      {
        CloseFromRound(View(), t, level);
        CloseFirstUpval(t);
        OpenInHeap(View(), t);
        GcUpval.InvThreadOk(View(), t);
      }
    }

    // ----- the sweep of the main list -----

    // `freeobj` for an object of the main list; `luaE_freethread` closes its upvalues.
    method FreeListed(r: Ref)
      requires Inv(View()) && gcstate.Sweep?
      modifies `objects, `marked, `gray, `uvhead, `rootgc, `sweepgc
      ensures View() == FreeObject(old(View()), r)
    {
      hide Inv, CloseAll, GcCloseFrom.CloseFrom, Drop;
      if r in objects && objects[r].kind.Thread? {
        CloseAllIsCloseFrom(View(), r);
        CloseUpvals(r, 0);
      }
      rootgc := Drop(rootgc, r);
      FreeMemory(r);
    }

    // One round of `sweeplist` on the main list
    method SweepNextObject()
      requires Inv(View()) && gcstate.Sweep? && sweepgc < |rootgc|
      modifies `objects, `marked, `gray, `uvhead, `rootgc, `sweepgc
      ensures View() == SweepObject(old(View()))
    {
      hide Inv, SweepOpen, FreeObject, Sweeps;
      var r := rootgc[sweepgc];
      OnList(View(), sweepgc);
      SweepBeforeKeeps(View());
      if objects[r].kind.Thread? {
        SweepOpenUpvals(r);
      }
      if !IsDead(r) || r in fixed {
        MakeWhite(r);
        sweepgc := sweepgc + 1;
      } else {
        FreeListed(r);
      }
    }

    // `sweeplist` with its count, and the end of the phase
    method SweepList(count: nat)
      requires Inv(View()) && gcstate.Sweep?
      modifies `objects, `marked, `gray, `uvhead, `rootgc, `sweepgc
      ensures View() == SweepObjects(old(View()), count)
    {
      hide Inv, SweepObject, Sweeps;
      ghost var s := View();
      var n := count;
      while sweepgc < |rootgc| && n > 0
        invariant Inv(View()) && gcstate.Sweep?
        invariant SweepObjects(s, count) == SweepObjects(View(), n)
        decreases n
      {
        SweepObjectKeeps(View());
        SweepsPhase(View(), SweepObject(View()));
        SweepNextObject();
        n := n - 1;
      }
    }

    method SweepSome()
      requires Inv(View()) && gcstate.Sweep?
      modifies `objects, `marked, `gray, `uvhead, `rootgc, `sweepgc, `gcstate
      ensures View() == SweepStep(old(View()))
    {
      hide Inv, SweepObjects;
      SweepList(GCSWEEPMAX);
      if sweepgc >= |rootgc| {
        gcstate := Finalize;
      }
    }

    // ----- the driver -----

    method StartCycle()
      requires Core(View()) && AllWhite(View())
      modifies `marked, `gray, `grayagain, `weak, `gcstate
      ensures Sound(View().h) && Known(View().h, Roots(View()))
      ensures View() == (MarkRootKeeps(old(View())); MarkRoot(old(View())))
    {
      MarkRootKeeps(View());
      CoreBasic(View());
      hide Core, AllWhite, MarkRoot, Sound, Known, Basic;
      MarkRoots();
    }

    // `singlestep`
    method Step()
      requires Inv(View())
      modifies this
      ensures View() == SingleStep(old(View()))
    {
      hide Core, MarkRoot, PropagateStep, Atomic, SweepStringStep, SweepStep, PropagateMark, Marking, SweepingObjects;
      match gcstate {
        case Pause => StartCycle();
        case Propagate =>
          if gray != [] {
            PropagateReady(View());
            PropagateFirst();
          } else {
            AtomicStep();
          }
        case SweepString => SweepNextBucket();
        case Sweep => SweepSome();
        case Finalize => gcstate := Pause;
      }
    }

    // The loops of `luaC_fullgc`
    method StepUntil(p: Phase)
      requires Inv(View()) && (p.Pause? || p.Finalize?) && Rank(gcstate) >= Rank(p)
      modifies this
      ensures View() == RunUntil(old(View()), p)
    {
      hide Inv, SingleStep;
      ghost var s := View();
      while gcstate != p
        invariant Inv(View()) && Rank(gcstate) >= Rank(p)
        invariant RunUntil(s, p) == RunUntil(View(), p)
        decreases Rank(gcstate), WorkSet(View()), WorkLeft(View())
      {
        RunUntilSteps(View(), p);
        Step();
      }
    }

    method AbortMark()
      modifies `gray, `grayagain, `weak, `gcstate, `sweepgc, `sweepstrgc
      ensures View() == Abort(old(View()))
    {
      if gcstate.Pause? || gcstate.Propagate? {
        StartSweep();
        ClearLists();
      }
    }

    // `luaC_fullgc`
    method FullCollection()
      requires Inv(View())
      modifies this
      ensures View() == FullGc(old(View()))
    {
      hide Inv, RunUntil, MarkRoot, Abort;
      AbortKeeps(View());
      AbortMark();
      RunUntilKeeps(View(), Finalize);
      StepUntil(Finalize);
      IdleWhite(View());
      StartMarkKeeps(View());
      StartCycle();
      StepUntil(Pause);
    }

    // ----- what the program calls -----

    // `luaC_barrierf` behind the test of `luaC_barrier`
    method Barrier(o: Ref, v: Value)
      requires Core(View()) && o in objects && (v.Ptr? ==> v.ref in objects) &&
        (gcstate.Propagate? ==> NoneDead(View()))
      modifies `marked, `gray
      ensures View() == BarrierForward(old(View()), o, v)
    {
      CoreBasic(View());
      if v.Ptr? && White(marked[v.ref]) && marked[o].Black? {
        if gcstate.Propagate? {
          SoundWhenNoneDead(View());
          hide Core, NoneDead, Fits;
          ReallyMarkObject(v.ref);
        } else {
          MakeWhite(o);
        }
      }
    }

    // `luaC_barrierback` behind the test of `luaC_barriert`
    method TableBarrier(t: Ref, v: Value)
      requires t in marked && (v.Ptr? ==> v.ref in marked)
      modifies `marked, `grayagain
      ensures View() == BarrierBack(old(View()), t, v)
    {
      if v.Ptr? && White(marked[v.ref]) && marked[t].Black? {
        marked := marked[t := Gray];
        grayagain := [t] + grayagain;
      }
    }

    // `luaC_link`, and `luaS_newudata` with `i` behind the main thread
    method LinkObject(r: Ref, o: Obj, i: nat)
      requires i <= |rootgc|
      modifies `objects, `marked, `rootgc, `sweepgc
      ensures View() == GcAlloc.Link(old(View()), r, o, i)
    {
      objects := objects[r := o];
      marked := marked[r := currentwhite];
      rootgc := rootgc[..i] + [r] + rootgc[i..];
      if i < sweepgc {
        sweepgc := sweepgc + 1;
      }
    }

    // The loop of `luaS_newlstr` along one bucket
    method SearchBucket(q: seq<Ref>, text: string) returns (i: nat)
      requires forall j :: 0 <= j < |q| ==> q[j] in objects
      ensures i == GcAlloc.FindString(objects, q, text, 0)
    {
      i := 0;
      while i < |q| && objects[q[i]].kind != Str(text)
        invariant 0 <= i <= |q|
        invariant GcAlloc.FindString(objects, q, text, 0) == GcAlloc.FindString(objects, q, text, i)
      {
        i := i + 1;
      }
    }

    // `newlstr`
    method AddString(text: string, r: Ref, b: nat)
      requires b < |strt|
      modifies `objects, `marked, `strt
      ensures View() == old(View()).(h := old(objects)[r := Obj(Str(text), [], [], [])],
                                     m := old(Marks()).(color := old(marked)[r := currentwhite]),
                                     strt := old(strt)[b := [r] + old(strt)[b]])
    {
      objects := objects[r := Obj(Str(text), [], [], [])];
      marked := marked[r := currentwhite];
      strt := strt[b := [r] + strt[b]];
    }

    // `luaS_newlstr`
    method NewString(text: string, r: Ref) returns (o: Ref)
      requires |strt| > 0 && r !in objects && Interned(objects, strt)
      modifies `objects, `marked, `strt
      ensures (View(), o) == GcAlloc.NewString(old(View()), text, r)
    {
      var b := Bucket(text, |strt|);
      assert InBucket(objects, strt, b);
      forall j | 0 <= j < |strt[b]| ensures strt[b][j] in objects {
        var x := strt[b][j];
        assert x in strt[b] && InBucket(objects, strt, b);
      }
      hide Interned, Bucket, GcAlloc.FindString;
      var i := SearchBucket(strt[b], text);
      if i < |strt[b]| {
        o := strt[b][i];
        if IsDead(o) {
          MakeWhite(o);
        }
      } else {
        o := r;
        AddString(text, r, b);
      }
    }

    // `luaS_resize`: string by string to the front of the new buckets
    method ResizeStringTable(n: nat)
      requires n > 0
      modifies `strt
      ensures View() == GcAlloc.ResizeStrings(old(View()), n)
    {
      if gcstate.SweepString? {
        return;
      }
      var newhash := GcAlloc.EmptyBuckets(n);
      ghost var start := newhash;
      var i := 0;
      while i < |strt|
        invariant 0 <= i <= |strt| && |newhash| == n && strt == old(strt)
        invariant GcAlloc.Rehash(objects, start, strt) == GcAlloc.Rehash(objects, newhash, strt[i..])
      {
        newhash := MoveBucket(newhash, strt[i]);
        assert strt[i..][0] == strt[i] && strt[i..][1..] == strt[i + 1..];
        i := i + 1;
      }
      assert strt[i..] == [];
      strt := newhash;
    }

    method MoveBucket(hash: seq<seq<Ref>>, q: seq<Ref>) returns (acc: seq<seq<Ref>>)
      requires |hash| > 0
      ensures acc == GcAlloc.RehashBucket(objects, hash, q)
    {
      acc := hash;
      var j := 0;
      while j < |q|
        invariant 0 <= j <= |q| && |acc| == |hash|
        invariant GcAlloc.RehashBucket(objects, hash, q) == GcAlloc.RehashBucket(objects, acc, q[j..])
      {
        assert q[j..][0] == q[j] && q[j..][1..] == q[j + 1..];
        var b := GcAlloc.TextBucket(objects, q[j], |acc|);
        acc := acc[b := [q[j]] + acc[b]];
        j := j + 1;
      }
    }

    // `luaF_findupval`
    method FindUpval(t: Ref, level: nat, r: Ref) returns (o: Ref)
      requires GcUpval.ThreadOk(objects, t) && r !in objects
      modifies `objects, `marked, `uvhead
      ensures (View(), o) == GcUpval.FindUpval(old(View()), t, level, r)
    {
      var us := objects[t].kind.openupval;
      var i := 0;
      while i < |us| && Level(objects, us[i]) >= level
        invariant 0 <= i <= |us|
        invariant GcUpval.ScanOpen(objects, us, level, 0) == GcUpval.ScanOpen(objects, us, level, i)
      {
        o := us[i];
        if Level(objects, o) == level {
          if IsDead(o) {
            MakeWhite(o);
          }
          return;
        }
        i := i + 1;
      }
      o := r;
      objects := objects[t := objects[t].(kind := Thread(us[..i] + [r] + us[i..]))];
      objects := objects[r := Obj(Upval(Open(t, level)), [], [], [])];
      marked := marked[r := currentwhite];
      uvhead := [r] + uvhead;
    }
  }
}
