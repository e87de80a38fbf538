/**
 `singlestep`: each step of the collector keeps the invariant and frees only objects that
 were already dead.
 */
module GcStep {
  import opened GcHeap
  import opened GcPropagate
  import opened GcState
  import opened GcSweep
  import opened GcCycle
  import opened GcCollect
  import GcWeak

  const GCSWEEPMAX: nat := 40

  lemma OnList(s: State, i: nat)
    requires Inv(s) && i < |s.rootgc|
    ensures s.rootgc[i] in s.h && OnRootList(s.h[s.rootgc[i]].kind) && s.rootgc[i] in s.m.color
  {
    assert s.rootgc[i] in s.rootgc;
  }

  // The open upvalues of the object at the sweep position, if it is a thread
  function SweepBefore(s: State): State
    requires Inv(s) && s.phase.Sweep? && s.sweepgc < |s.rootgc|
  {
    var r := s.rootgc[s.sweepgc];
    OnList(s, s.sweepgc);
    if s.h[r].kind.Thread? then SweepOpen(s, r, 0) else s
  }

  lemma SweepBeforeKeeps(s: State)
    requires Inv(s) && s.phase.Sweep? && s.sweepgc < |s.rootgc|
    ensures var s' := SweepBefore(s); var r := s.rootgc[s.sweepgc];
      && Inv(s') && Sweeps(s, s') && r in s'.h && r in s'.m.color
      && (IsThread(s', r) ==> WhiteOpen(s', r, |OpenOf(s', r)|))
      && s' == s.(h := s'.h, m := s.m.(color := s'.m.color), uvhead := s'.uvhead)
  {
    var r := s.rootgc[s.sweepgc];
    OnList(s, s.sweepgc);
    hide Core, Colors, Sweeps;
    if s.h[r].kind.Thread? {
      SweepOpenKeeps(s, r, 0);
      InHeapColored(SweepBefore(s));
    } else {
      SweepsReflexive(s);
    }
  }

  lemma InHeapColored(s: State)
    requires Inv(s)
    ensures s.m.color.Keys == s.h.Keys && White(s.white)
  {
  }

  // The object is kept and passed.
  function PassObject(s: State, r: Ref): State {
    Whiten(s, r).(sweepgc := s.sweepgc + 1)
  }

  lemma PassedObjects(s: State, r: Ref)
    requires SweepingObjects(s) && White(s.white) && s.sweepgc < |s.rootgc| && r == s.rootgc[s.sweepgc] && r in s.h
    requires IsThread(s, r) ==> WhiteOpen(s, r, |OpenOf(s, r)|)
    ensures SweepingObjects(PassObject(s, r))
  {
    var s' := PassObject(s, r);
    WhitenObjects(s, r);
    hide KindColors;
    forall i | 0 <= i < s'.sweepgc ensures Swept(s', s'.rootgc[i]) {
      if i < s.sweepgc { assert Swept(Whiten(s, r), s.rootgc[i]); }
    }
  }

  lemma PassObjectKeeps(s: State)
    requires Inv(s) && s.phase.Sweep? && s.sweepgc < |s.rootgc| && Keeps(s, s.rootgc[s.sweepgc])
    requires IsThread(s, s.rootgc[s.sweepgc]) ==>
               WhiteOpen(s, s.rootgc[s.sweepgc], |OpenOf(s, s.rootgc[s.sweepgc])|)
    ensures Inv(PassObject(s, s.rootgc[s.sweepgc]))
    ensures Sweeps(s, PassObject(s, s.rootgc[s.sweepgc]))
  {
    var r := s.rootgc[s.sweepgc];
    OnList(s, s.sweepgc);
    InHeapColored(s);
    hide Core, SweepingObjects, Sweeps, WhiteOpen;
    WhitenInv(s, r);
    PassedObjects(s, r);
    SameButPhase(Whiten(s, r), PassObject(s, r));
    SweepsIgnoresPlace(s, Whiten(s, r), PassObject(s, r));
  }

  lemma SweepsIgnoresPlace(s: State, s1: State, s': State)
    requires Sweeps(s, s1) && s' == s1.(sweepgc := s'.sweepgc, rootgc := s'.rootgc)
    ensures Sweeps(s, s')
  {
  }

  lemma {:induction false} DropAfter(q: seq<Ref>, r: Ref, k: nat)
    requires k <= |q| && r !in q[..k]
    ensures |Drop(q, r)| >= k && forall i :: 0 <= i < k ==> Drop(q, r)[i] == q[i]
  {
    if k > 0 {
      assert q[0] == q[..k][0];
      assert forall x :: x in q[1..][..k - 1] ==> x in q[..k] by {
        assert q[1..][..k - 1] == q[..k][1..];
      }
      DropAfter(q[1..], r, k - 1);
    }
  }

  lemma FreedRootColors(s: State, r: Ref)
    requires SweepingObjects(s) && White(s.white) && Dead(s, r) && r in s.h && OnRootList(s.h[r].kind)
    requires forall u, t :: t in s.h && s.h[t].kind.Thread? && u in s.h[t].kind.openupval ==> u != r
    ensures SweepingObjects(FreeRoot(s, r))
  {
    var s' := FreeRoot(s, r);
    forall x | x in s.rootgc[..s.sweepgc] ensures x != r {
      var i :| 0 <= i < s.sweepgc && s.rootgc[i] == x;
      assert Swept(s, s.rootgc[i]);
    }
    DropAfter(s.rootgc, r, s.sweepgc);
    forall i | 0 <= i < s'.sweepgc ensures Swept(s', s'.rootgc[i]) {
      assert Swept(s, s.rootgc[i]);
    }
  }

  lemma FreeRootInv(s: State, r: Ref)
    requires Inv(s) && s.phase.Sweep? && r in s.h && OnRootList(s.h[r].kind) && !Keeps(s, r)
    requires IsThread(s, r) ==> OpenOf(s, r) == []
    ensures Inv(FreeRoot(s, r)) && Sweeps(s, FreeRoot(s, r))
    ensures FreeRoot(s, r).h.Keys == s.h.Keys - {r}
  {
    assert r in s.rootgc && White(s.white) && s.m.color.Keys == s.h.Keys;
    forall u, t | t in s.h && s.h[t].kind.Thread? && u in s.h[t].kind.openupval ensures u != r {
      assert OpenList(s.h, t, s.h[t].kind.openupval);
    }
    assert forall u, i :: !OpenAt(s.h, u, r, i);
    hide Basic, Safe, Captures, Interned, Chained, Sweeps, SweepingObjects, Drop;
    FreeRootKeeps(s, r);
    FreedRootColors(s, r);
    ForgetSweeps(s.(rootgc := Drop(s.rootgc, r)), r);
    SweepsFrom(s, s.(rootgc := Drop(s.rootgc, r)), FreeRoot(s, r));
  }

  lemma SweepsFrom(s: State, s0: State, s': State)
    requires Sweeps(s0, s') && s0 == s.(rootgc := s0.rootgc)
    ensures Sweeps(s, s')
  {
    hide Refs;
  }

  // A dead object, and if it is a thread its upvalues first, leaves the heap.
  function FreeObject(s: State, r: Ref): State
    requires Inv(s) && s.phase.Sweep?
  {
    FreeRoot(if IsThread(s, r) then CloseAll(s, r) else s, r)
  }

  lemma FreeObjectKeeps(s: State, r: Ref)
    requires Inv(s) && s.phase.Sweep? && r in s.h && OnRootList(s.h[r].kind) && !Keeps(s, r)
    ensures Inv(FreeObject(s, r)) && Sweeps(s, FreeObject(s, r))
    ensures FreeObject(s, r).h.Keys < s.h.Keys
  {
    InHeapColored(s);
    if IsThread(s, r) {
      hide Core, Colors, Sweeps, FreeRoot, CloseAll, OpenOf;
      CloseAllKeeps(s, r);
      var s2 := CloseAll(s, r);
      InHeapColored(s2);
      SweepsKeys(s, s2);
      StillDead(s, s2, r);
      FreeRootInv(s2, r);
      SweepsTransitiveCore(s, s2, FreeRoot(s2, r));
    } else {
      FreeRootInv(s, r);
    }
  }

  // One round of `sweeplist` on the main list
  function SweepObject(s: State): State
    requires Inv(s) && s.phase.Sweep? && s.sweepgc < |s.rootgc|
  {
    var r := s.rootgc[s.sweepgc];
    SweepBeforeKeeps(s);
    var s1 := SweepBefore(s);
    if Keeps(s1, r) then PassObject(s1, r) else FreeObject(s1, r)
  }

  lemma SweepObjectKeeps(s: State)
    requires Inv(s) && s.phase.Sweep? && s.sweepgc < |s.rootgc|
    ensures Inv(SweepObject(s)) && Sweeps(s, SweepObject(s))
    ensures Unswept(SweepObject(s)) < Unswept(s) || SweepObject(s).h.Keys < s.h.Keys
    ensures SweepObject(s).h.Keys <= s.h.Keys
  {
    var r := s.rootgc[s.sweepgc];
    SweepBeforeKeeps(s);
    var s1 := SweepBefore(s);
    OnList(s1, s1.sweepgc);
    SweepsKeys(s, s1);
    hide SweepBefore, Core, Colors, Sweeps, FreeObject, WhiteOpen, OpenOf;
    if Keeps(s1, r) {
      PassObjectKeeps(s1);
      SweepsTransitiveCore(s, s1, PassObject(s1, r));
      assert Unswept(PassObject(s1, r)) == Unswept(s) - 1;
      assert PassObject(s1, r).h == s1.h;
    } else {
      FreeObjectKeeps(s1, r);
      SweepsTransitiveCore(s, s1, FreeObject(s1, r));
    }
  }

  function Unswept(s: State): int {
    |s.rootgc| - s.sweepgc
  }

  lemma SweepsKeys(s: State, s': State)
    requires Sweeps(s, s')
    ensures s'.h.Keys <= s.h.Keys
  {
    forall x | x in s'.h.Keys ensures x in s.h.Keys {
      assert x in s'.h;
    }
  }

  lemma SweepsPhase(s: State, s': State)
    requires Sweeps(s, s')
    ensures s'.phase == s.phase && s'.white == s.white && Roots(s') == Roots(s)
  {
    hide Refs;
  }

  lemma StillDead(s: State, s': State, r: Ref)
    requires Sweeps(s, s') && r in s.m.color && r in s'.m.color && s'.m.color[r] == s.m.color[r] && !Keeps(s, r)
    ensures !Keeps(s', r)
  {
    hide Refs;
  }

  // `sweeplist` with a count
  function SweepObjects(s: State, n: nat): State
    requires Inv(s) && s.phase.Sweep?
    decreases n
  {
    if n == 0 || s.sweepgc >= |s.rootgc| then s
    else
      SweepObjectKeeps(s);
      SweepObjects(SweepObject(s), n - 1)
  }

  lemma {:induction false} SweepObjectsKeeps(s: State, n: nat)
    requires Inv(s) && s.phase.Sweep?
    ensures Inv(SweepObjects(s, n)) && Sweeps(s, SweepObjects(s, n))
    ensures SweepObjects(s, n).h.Keys <= s.h.Keys
    ensures n > 0 && s.sweepgc < |s.rootgc| ==>
              Unswept(SweepObjects(s, n)) < Unswept(s) || SweepObjects(s, n).h.Keys < s.h.Keys
    ensures n == 0 || s.sweepgc >= |s.rootgc| ==> SweepObjects(s, n) == s
    decreases n
  {
    hide Core, Colors, Sweeps, SweepObject;
    if n == 0 || s.sweepgc >= |s.rootgc| {
      SweepsReflexive(s);
    } else {
      SweepObjectKeeps(s);
      SweepsPhase(s, SweepObject(s));
      SweepObjectsKeeps(SweepObject(s), n - 1);
      SweepsTransitiveCore(s, SweepObject(s), SweepObjects(SweepObject(s), n - 1));
    }
  }

  // The `GCSsweep` step
  function SweepStep(s: State): State
    requires Inv(s) && s.phase.Sweep?
  {
    var s1 := SweepObjects(s, GCSWEEPMAX);
    if s1.sweepgc >= |s1.rootgc| then s1.(phase := Finalize) else s1
  }

  // When the sweep has passed everything, everything is white.
  lemma SweptAllWhite(s: State)
    requires Core(s) && SweepingObjects(s) && s.sweepgc == |s.rootgc|
    ensures AllWhite(s)
  {
    forall r | r in s.h && r in s.m.color ensures s.m.color[r] == s.white {
      if OnRootList(s.h[r].kind) {
        assert r in s.rootgc;
        var i :| 0 <= i < |s.rootgc| && s.rootgc[i] == r;
        assert Swept(s, s.rootgc[i]);
      } else if OpenUpval(s.h[r].kind) {
        assert Attached(s.h, r);
        var t := s.h[r].kind.loc.thread;
        assert t in s.rootgc;
        var i :| 0 <= i < |s.rootgc| && s.rootgc[i] == t;
        assert Swept(s, s.rootgc[i]);
      }
    }
  }

  lemma SweepStepKeeps(s: State)
    requires Inv(s) && s.phase.Sweep?
    ensures Inv(SweepStep(s)) && Sweeps(s, SweepObjects(s, GCSWEEPMAX))
  {
    hide Core, Sweeps, SweepObjects;
    SweepObjectsKeeps(s, GCSWEEPMAX);
    var s1 := SweepObjects(s, GCSWEEPMAX);
    SweepsPhase(s, s1);
    if s1.sweepgc >= |s1.rootgc| {
      SweptAllWhite(s1);
      SameButPhase(s1, SweepStep(s));
      hide SweepingObjects;
    }
  }

  // `singlestep`; without finalizers the last phase only ends the cycle.
  function SingleStep(s: State): State
    requires Inv(s)
  {
    match s.phase
    case Pause =>
      MarkRootKeeps(s);
      MarkRoot(s)
    case Propagate => if s.m.gray != [] then PropagateStep(s) else Atomic(s)
    case SweepString => SweepStringStep(s)
    case Sweep => SweepStep(s)
    case Finalize => s.(phase := Pause)
  }

  lemma SingleStepKeeps(s: State)
    requires Inv(s)
    ensures Inv(SingleStep(s))
  {
    hide Core, MarkRoot, PropagateStep, Atomic, SweepStringStep, SweepStep;
    match s.phase {
      case Pause => MarkRootKeeps(s);
      case Propagate => if s.m.gray != [] { PropagateStepKeeps(s); } else { AtomicKeeps(s); }
      case SweepString => SweepStringStepKeeps(s);
      case Sweep => SweepStepKeeps(s);
      case Finalize =>
        hide SweepingObjects, SweepingStrings, Marking;
        SameButPhase(s, SingleStep(s));
    }
  }

  // What the program can reach is live.
  lemma ReachableIsLive(s: State, r: Ref)
    requires Safe(s) && Reachable(s.h, Roots(s), r)
    ensures Live(s, r)
  {
    var x := set q | q in s.h && !Dead(s, q);
    forall q, c | q in x && q in s.h && Ptr(c) in Refs(s.h, q) ensures c in x {
      assert Live(s, q);
      var v := Ptr(c);
      assert v in Refs(s.h, q) && v.Ptr?;
    }
    forall q | Ptr(q) in Roots(s) ensures q in x {
      var v := Ptr(q);
      assert v in Roots(s) && v.Ptr?;
    }
    hide Refs;
    ReachableInside(s.h, Roots(s), x, r);
  }

  // No step of the collector frees an object the program can still reach.
  lemma CollectorFreesOnlyGarbage(s: State, r: Ref)
    requires Inv(s) && r in s.h && r !in SingleStep(s).h
    ensures !Reachable(s.h, Roots(s), r)
  {
    hide Reachable;
    if Reachable(s.h, Roots(s), r) { ReachableIsLive(s, r); }
    hide Core, SweepBucket, SweepObjects, MarkRoot, Colors, Refs;
    match s.phase {
      case Pause => SameHeapPause(s);
      case Propagate => SameHeapMarking(s);
      case SweepString => SweepStringStepKeeps(s); FreedWasDead(s, SweepBucket(s, s.sweepstrgc, 0), r);
      case Sweep => SweepStepKeeps(s); FreedWasDead(s, SweepObjects(s, GCSWEEPMAX), r);
      case Finalize =>
    }
  }

  lemma FreedWasDead(s: State, s': State, r: Ref)
    requires Sweeps(s, s') && r in s.h && r !in s'.h
    ensures Dead(s, r) && r !in s.fixed
  {
    hide Refs;
  }

  lemma SameHeapPause(s: State)
    requires Inv(s) && s.phase.Pause?
    ensures SingleStep(s).h == s.h
  {
    MarkRootKeeps(s);
    MarkRootKeys(s);
  }

  lemma SameHeapMarking(s: State)
    requires Inv(s) && s.phase.Propagate?
    ensures SingleStep(s).h.Keys == s.h.Keys
  {
    if s.m.gray == [] {
      AtomicMarkedFully(s);
      var m := AtomicMarked(s);
      MarkedTables(s, m);
      GcWeak.ClearTablesTrims(GcWeak.Cleared(s.h, m.color), m.weak);
    }
  }
}
