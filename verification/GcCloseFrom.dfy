/**
 `luaF_close`: leaving a block takes the upvalues of its variables off the stack, and no
 closure can tell the difference.
 */
module GcCloseFrom {
  import opened GcHeap
  import opened GcPropagate
  import opened GcState
  import opened GcSweep
  import opened GcClose
  import opened GcCollect
  import opened GcStep
  import opened GcUpval

  // `luaF_close`: all open upvalues of a thread at or above stack slot `level`
  function CloseFrom(s: State, t: Ref, level: nat): State
    requires Inv(s) && IsThread(s, t)
    decreases |OpenOf(s, t)|
  {
    OpenInHeap(s, t);
    InvThreadOk(s, t);
    if OpenOf(s, t) == [] || Level(s.h, OpenOf(s, t)[0]) < level then s
    else
      CloseUpvalKeeps(s, t);
      CloseUpvalShrinks(s, t);
      CloseFrom(CloseUpval(s, t), t, level)
  }

  // The rest of the state sees one upvalue of `t` go, and no value change.
  ghost predicate Shrunk(s: State, s': State, t: Ref) {
    && HasOpen(s, t) && IsThread(s', t) && OpenOf(s', t) == RemoveAt(OpenOf(s, t), 0)
    && forall x :: Live(s, x) ==> x in s'.h && Refs(s'.h, x) == Refs(s.h, x)
  }

  lemma FreedRefs(s: State, s': State, t: Ref, u: Ref)
    requires FreedOne(s, s', t, u) && Dead(s, u) && forall x, k :: !OpenAt(s.h, x, u, k)
    ensures forall x :: Live(s, x) ==> x in s'.h && Refs(s'.h, x) == Refs(s.h, x)
  {
    forall x | Live(s, x) ensures x in s'.h && Refs(s'.h, x) == Refs(s.h, x) {
      if OpenUpval(s.h[x].kind) { assert !OpenAt(s.h, x, u, s.h[x].kind.loc.slot); }
    }
  }

  lemma FreeShrinks(s: State, t: Ref)
    requires Inv(s) && HasOpen(s, t) && Dead(s, OpenOf(s, t)[0])
    ensures Shrunk(s, FreeUpval(s, t, 0), t)
  {
    var u := OpenOf(s, t)[0];
    assert OpenList(s.h, t, OpenOf(s, t)) && u in OpenOf(s, t);
    assert u != t && !s.h[u].kind.Thread?;
    NotAThread(s.h, s.uvhead, u);
    hide Basic, Safe, Interned, Chained, Colors, RemoveAt, Drop, OpenList, Refs;
    FreeIsFreedOne(s, t, 0);
    assert OpenOf(FreeUpval(s, t, 0), t) == RemoveAt(OpenOf(s, t), 0);
    hide FreeUpval, Captures;
    FreedRefs(s, FreeUpval(s, t, 0), t, u);
  }

  lemma CloseShrinks(s: State, t: Ref)
    requires Inv(s) && HasOpen(s, t) && !Dead(s, OpenOf(s, t)[0])
    ensures Shrunk(s, CloseUpval(s, t), t)
  {
    assert OpenList(s.h, t, OpenOf(s, t)) && OpenOf(s, t)[0] in OpenOf(s, t);
    CloseFirstRefs(s, t);
    LinkUpvalHeap(s, t);
    hide Core, Colors, RemoveAt, Drop, Refs, OpenList, CloseUpval;
  }

  lemma CloseUpvalShrinks(s: State, t: Ref)
    requires Inv(s) && HasOpen(s, t)
    ensures Shrunk(s, CloseUpval(s, t), t)
  {
    hide Core, Colors, Shrunk;
    if Dead(s, OpenOf(s, t)[0]) { FreeShrinks(s, t); } else { CloseShrinks(s, t); }
  }

  lemma LinkUpvalHeap(s: State, t: Ref)
    requires Inv(s) && HasOpen(s, t) && !Dead(s, OpenOf(s, t)[0])
    ensures CloseUpval(s, t).h == CloseFirst(s, t).h
  {
  }

  // `luaF_close` keeps the invariant, closes what it should, and no closure can tell.
  lemma {:induction false} CloseFromKeeps(s: State, t: Ref, level: nat)
    requires Inv(s) && IsThread(s, t)
    ensures var s' := CloseFrom(s, t, level);
      && Inv(s') && IsThread(s', t)
      && (forall u :: u in OpenOf(s', t) ==> u in s'.h && OpenUpval(s'.h[u].kind) && Level(s'.h, u) < level)
    decreases |OpenOf(s, t)|
  {
    OpenInHeap(s, t);
    InvThreadOk(s, t);
    var us := OpenOf(s, t);
    assert OpenList(s.h, t, us);
    if us == [] || Level(s.h, us[0]) < level {
      forall u | u in us ensures Level(s.h, u) < level {
        var i :| 0 <= i < |us| && us[i] == u;
        assert i == 0 || Level(s.h, us[0]) > Level(s.h, us[i]);
      }
    } else {
      hide Core, Colors, CloseUpval;
      CloseUpvalKeeps(s, t);
      CloseUpvalShrinks(s, t);
      CloseFromKeeps(CloseUpval(s, t), t, level);
    }
  }

  lemma {:induction false} ClosingChangesNoValue(s: State, t: Ref, level: nat, x: Ref)
    requires Inv(s) && IsThread(s, t) && Live(s, x)
    ensures var s' := CloseFrom(s, t, level); Live(s', x) && Refs(s'.h, x) == Refs(s.h, x)
    decreases |OpenOf(s, t)|
  {
    hide Core, Colors, CloseUpval, Refs;
    OpenInHeap(s, t);
    InvThreadOk(s, t);
    if OpenOf(s, t) != [] && Level(s.h, OpenOf(s, t)[0]) >= level {
      CloseUpvalKeeps(s, t);
      CloseUpvalShrinks(s, t);
      StaysLive(s, t, x);
      ClosingChangesNoValue(CloseUpval(s, t), t, level, x);
    }
  }

  lemma StaysLive(s: State, t: Ref, x: Ref)
    requires Inv(s) && HasOpen(s, t) && Live(s, x)
    ensures !Dead(CloseUpval(s, t), x)
  {
    hide Safe, Captures, Interned, Chained, Tricolor, ClosedOne;
    var u := OpenOf(s, t)[0];
    InHeapColored(s);
    if !Dead(s, u) {
      if s.phase.Propagate? {
        CloseMarking(s, t);
        CloseUpvalKeeps(s, t);
        MarkingHasNoDead(CloseUpval(s, t), x);
      } else {
        CloseWhitens(s, t);
      }
    }
  }

  lemma MarkingHasNoDead(s: State, x: Ref)
    requires Inv(s) && s.phase.Propagate?
    ensures !Dead(s, x)
  {
    hide Tricolor;
    assert s.m.color.Keys == s.h.Keys;
    if x in s.h { assert !Dead(s, x); }
  }
}
