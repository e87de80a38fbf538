/**
 The sweep loops and `singlestep`: every step of the collector keeps the invariant, and
 only dead objects are freed.
 */
module GcCollect {
  import opened GcHeap
  import opened GcMark
  import opened GcPropagate
  import opened GcState
  import opened GcSweep
  import opened GcClose

  // What a stretch of sweeping may do.
  ghost predicate Sweeps(a: State, b: State) {
    && b.white == a.white && b.fixed == a.fixed && b.phase == a.phase
    && b.main == a.main && b.running == a.running && b.registry == a.registry && b.mt == a.mt
    && (forall x :: x in b.h ==> x in a.h && Refs(b.h, x) == Refs(a.h, x) && Same(a.h, b.h, x))
    && (forall x :: x in a.h && x !in b.h ==> Dead(a, x) && x !in a.fixed)
    && (forall x :: x in b.h && x in b.m.color ==>
          x in a.m.color && (b.m.color[x] == a.m.color[x] || (b.m.color[x] == a.white && Keeps(a, x))))
  }

  lemma SweepsTransitive(a: State, b: State, c: State)
    requires Sweeps(a, b) && Sweeps(b, c) && White(a.white)
    requires a.m.color.Keys == a.h.Keys && b.m.color.Keys == b.h.Keys
    ensures Sweeps(a, c)
  {
    hide Refs;
  }

  lemma WhitenSweeps(s: State, r: Ref)
    requires r in s.h && s.m.color.Keys == s.h.Keys && Keeps(s, r)
    ensures Sweeps(s, Whiten(s, r))
  {
  }

  // ----- strings -----

  // `sweeplist` on one bucket of the string table, from element `i` on
  function SweepBucket(s: State, b: nat, i: nat): State
    requires b < |s.strt| && i <= |s.strt[b]|
    decreases |s.strt[b]| - i
  {
    if i == |s.strt[b]| then s
    else if Keeps(s, s.strt[b][i]) then SweepBucket(Whiten(s, s.strt[b][i]), b, i + 1)
    else SweepBucket(FreeString(s, b, i), b, i)
  }

  ghost predicate WhitePrefix(s: State, b: nat, i: nat)
    requires b < |s.strt| && i <= |s.strt[b]|
  {
    forall j :: 0 <= j < i ==> s.strt[b][j] in s.m.color && s.m.color[s.strt[b][j]] == s.white
  }

  // Sweeping strings changes the string table, the objects and the colours, only.
  ghost predicate OnlyStrings(a: State, b: State) {
    && b == a.(h := b.h, m := a.m.(color := b.m.color), strt := b.strt)
    && |b.strt| == |a.strt|
    && (forall x :: x in b.h ==> x in a.h && b.h[x] == a.h[x])
    && (forall x :: x in a.h && !a.h[x].kind.Str? ==>
          x in b.h && b.h[x] == a.h[x] && x in a.m.color && x in b.m.color && b.m.color[x] == a.m.color[x])
  }

  lemma ForgetSweeps(s: State, r: Ref)
    requires Dead(s, r) && r !in s.fixed && s.m.color.Keys == s.h.Keys
    requires forall u, i :: !OpenAt(s.h, u, r, i)
    ensures Sweeps(s, Forget(s, r))
  {
    var s' := Forget(s, r);
    forall x | x in s'.h ensures Refs(s'.h, x) == Refs(s.h, x) && Same(s.h, s'.h, x) {
      if OpenUpval(s.h[x].kind) { assert !OpenAt(s.h, x, r, s.h[x].kind.loc.slot); }
    }
  }

  lemma KeepString(s: State, b: nat, i: nat)
    requires Core(s) && b < |s.strt| && i < |s.strt[b]| && WhitePrefix(s, b, i) && Keeps(s, s.strt[b][i])
    ensures var s1 := Whiten(s, s.strt[b][i]);
      Core(s1) && Sweeps(s, s1) && OnlyStrings(s, s1) && s1.strt == s.strt && WhitePrefix(s1, b, i + 1)
  {
    var r := s.strt[b][i];
    assert InBucket(s.h, s.strt, b) && r in s.strt[b];
    WhitenKeeps(s, r);
    WhitenSweeps(s, r);
  }

  lemma DropStringFrame(s: State, b: nat, i: nat)
    requires s.m.color.Keys == s.h.Keys && b < |s.strt| && i < |s.strt[b]| && WhitePrefix(s, b, i)
    requires Distinct(s.strt[b]) && s.strt[b][i] in s.h && s.h[s.strt[b][i]].kind.Str?
    ensures OnlyStrings(s, FreeString(s, b, i)) && WhitePrefix(FreeString(s, b, i), b, i)
    ensures FreeString(s, b, i).strt == s.strt[b := RemoveAt(s.strt[b], i)]
  {
    var s1 := FreeString(s, b, i);
    forall j | 0 <= j < i ensures s1.strt[b][j] in s1.m.color && s1.m.color[s1.strt[b][j]] == s1.white {
      assert s1.strt[b][j] == s.strt[b][j] != s.strt[b][i];
    }
  }

  lemma DropString(s: State, b: nat, i: nat)
    requires Core(s) && b < |s.strt| && i < |s.strt[b]| && WhitePrefix(s, b, i) && !Keeps(s, s.strt[b][i])
    ensures var s1 := FreeString(s, b, i);
      && Core(s1) && Sweeps(s, s1) && OnlyStrings(s, s1) && WhitePrefix(s1, b, i)
      && s1.strt == s.strt[b := RemoveAt(s.strt[b], i)]
  {
    var r := s.strt[b][i];
    assert InBucket(s.h, s.strt, b) && r in s.strt[b];
    FreeStringKeeps(s, b, i);
    assert forall u, k :: !OpenAt(s.h, u, r, k);
    DropStringFrame(s, b, i);
    hide Core, WhitePrefix, OnlyStrings, RemoveAt;
    ForgetSweeps(s.(strt := s.strt[b := RemoveAt(s.strt[b], i)]), r);
  }

  lemma {:induction false} SweepBucketKeeps(s: State, b: nat, i: nat)
    requires Core(s) && b < |s.strt| && i <= |s.strt[b]| && WhitePrefix(s, b, i)
    ensures var s' := SweepBucket(s, b, i);
      && Core(s') && Sweeps(s, s') && OnlyStrings(s, s') && WhiteBucket(s', b)
      && forall c :: 0 <= c < |s.strt| && c != b ==> s'.strt[c] == s.strt[c]
    decreases |s.strt[b]| - i
  {
    hide Core, Sweeps, FreeString, Keeps;
    if i == |s.strt[b]| {
      SweepsReflexive(s);
    } else if Keeps(s, s.strt[b][i]) {
      KeepString(s, b, i);
      var s1 := Whiten(s, s.strt[b][i]);
      SweepBucketKeeps(s1, b, i + 1);
      SweepsTransitiveCore(s, s1, SweepBucket(s1, b, i + 1));
    } else {
      DropString(s, b, i);
      var s1 := FreeString(s, b, i);
      SweepBucketKeeps(s1, b, i);
      SweepsTransitiveCore(s, s1, SweepBucket(s1, b, i));
    }
  }

  lemma SweepsReflexive(s: State)
    requires Core(s)
    ensures Sweeps(s, s) && OnlyStrings(s, s)
  {
  }

  lemma SweepsTransitiveCore(a: State, b: State, c: State)
    requires Sweeps(a, b) && Sweeps(b, c) && Core(a) && Core(b)
    ensures Sweeps(a, c)
  {
    SweepsTransitive(a, b, c);
  }

  // The `GCSsweepstring` step: one bucket
  function SweepStringStep(s: State): State
    requires s.sweepstrgc < |s.strt|
  {
    var s1 := SweepBucket(s, s.sweepstrgc, 0);
    s1.(sweepstrgc := s.sweepstrgc + 1, phase := if s.sweepstrgc + 1 >= |s1.strt| then Sweep else s.phase)
  }

  lemma SameButPhase(s: State, s': State)
    requires Core(s) && s' == s.(phase := s'.phase, sweepgc := s'.sweepgc, sweepstrgc := s'.sweepstrgc)
    ensures Core(s')
  {
    assert Roots(s') == Roots(s);
    hide Refs, Captures, Interned, Chained;
    forall x | Live(s', x) ensures AllLive(s', Refs(s'.h, x)) {
      assert AllLive(s, Refs(s.h, x));
    }
  }

  lemma StringsSwept(s: State)
    requires Interned(s.h, s.strt) && forall b :: 0 <= b < |s.strt| ==> WhiteBucket(s, b)
    ensures forall r :: r in s.h && r in s.m.color && s.h[r].kind.Str? ==> s.m.color[r] == s.white
  {
    forall r | r in s.h && r in s.m.color && s.h[r].kind.Str? ensures s.m.color[r] == s.white {
      assert WhiteBucket(s, Bucket(s.h[r].kind.text, |s.strt|));
    }
  }

  lemma OneMoreBucket(s: State, s1: State)
    requires SweepingStrings(s) && OnlyStrings(s, s1) && Sweeps(s, s1) && White(s.white)
    requires WhiteBucket(s1, s.sweepstrgc) && s1.m.color.Keys == s1.h.Keys
    requires forall c :: 0 <= c < |s.strt| && c != s.sweepstrgc ==> s1.strt[c] == s.strt[c]
    ensures KindColors(s1.h, s1.m.color, {})
    ensures forall b :: 0 <= b <= s.sweepstrgc ==> WhiteBucket(s1, b)
  {
    hide Refs;
    forall b | 0 <= b <= s.sweepstrgc ensures WhiteBucket(s1, b) {
      if b < s.sweepstrgc { assert WhiteBucket(s, b); }
    }
  }

  lemma AfterBucket(s: State, s1: State, s': State)
    requires SweepingStrings(s) && s.phase.SweepString? && Interned(s1.h, s1.strt)
    requires KindColors(s1.h, s1.m.color, {}) && |s1.strt| == |s.strt| && s1.sweepgc == 0
    requires forall b :: 0 <= b <= s.sweepstrgc && b < |s1.strt| ==> WhiteBucket(s1, b)
    requires s' == s1.(sweepstrgc := s.sweepstrgc + 1,
                       phase := if s.sweepstrgc + 1 >= |s1.strt| then Sweep else s.phase)
    ensures Colors(s')
  {
    hide KindColors;
    if s'.phase.Sweep? {
      StringsSwept(s1);
    } else {
      hide Interned;
      forall b | 0 <= b < s'.sweepstrgc ensures WhiteBucket(s', b) {
        assert WhiteBucket(s1, b);
      }
    }
  }

  lemma SweepStringStepKeeps(s: State)
    requires Inv(s) && s.phase.SweepString?
    ensures Inv(SweepStringStep(s)) && Sweeps(s, SweepBucket(s, s.sweepstrgc, 0))
  {
    var s1 := SweepBucket(s, s.sweepstrgc, 0);
    hide SweepBucket, Interned, Sweeps, Captures, Chained, Safe, KindColors, WhiteBucket;
    SweepBucketKeeps(s, s.sweepstrgc, 0);
    OneMoreBucket(s, s1);
    SameButPhase(s1, SweepStringStep(s));
    AfterBucket(s, s1, SweepStringStep(s));
  }

  // ----- the other objects -----

  lemma WhitenInv(s: State, r: Ref)
    requires Inv(s) && s.phase.Sweep? && r in s.h && Keeps(s, r)
    ensures Inv(Whiten(s, r)) && Sweeps(s, Whiten(s, r))
  {
    WhitenKeeps(s, r);
    WhitenSweeps(s, r);
    assert White(s.white);
    hide Core, Sweeps;
    WhitenObjects(s, r);
  }

  lemma WhitenObjects(s: State, r: Ref)
    requires SweepingObjects(s) && White(s.white)
    ensures SweepingObjects(Whiten(s, r))
  {
    forall i | 0 <= i < s.sweepgc ensures Swept(Whiten(s, r), s.rootgc[i]) {
      assert Swept(s, s.rootgc[i]);
    }
  }

  predicate IsThread(s: State, t: Ref) {
    t in s.h && s.h[t].kind.Thread?
  }

  function OpenOf(s: State, t: Ref): seq<Ref>
    requires IsThread(s, t)
  {
    s.h[t].kind.openupval
  }

  lemma FreedSweeps(s: State, s': State, t: Ref, u: Ref)
    requires FreedOne(s, s', t, u) && Dead(s, u) && u !in s.fixed && s.m.color.Keys == s.h.Keys
    requires forall x, k :: !OpenAt(s.h, x, u, k)
    ensures Sweeps(s, s')
  {
    forall x | x in s'.h ensures Refs(s'.h, x) == Refs(s.h, x) && Same(s.h, s'.h, x) {
      if OpenUpval(s.h[x].kind) { assert !OpenAt(s.h, x, u, s.h[x].kind.loc.slot); }
    }
  }

  lemma NotAThread(h: Heap, q: seq<Ref>, u: Ref)
    requires Captures(h, q) && u in h && !h[u].kind.Thread?
    ensures forall x, k :: !OpenAt(h, x, u, k)
  {
  }

  lemma FreeUpvalSweeps(s: State, t: Ref, i: nat)
    requires Inv(s) && s.phase.Sweep? && IsThread(s, t) && i < |OpenOf(s, t)|
    requires OpenOf(s, t)[i] in s.h && !Keeps(s, OpenOf(s, t)[i])
    ensures var s1 := FreeUpval(s, t, i);
      Inv(s1) && Sweeps(s, s1) && IsThread(s1, t) && OpenOf(s1, t) == RemoveAt(OpenOf(s, t), i)
  {
    var u := OpenOf(s, t)[i];
    assert s.m.color.Keys == s.h.Keys && Dead(s, u) && u !in s.fixed;
    FreeIsFreedOne(s, t, i);
    NotAThread(s.h, s.uvhead, u);
    hide Core, Colors, Sweeps, RemoveAt, Drop;
    FreeSweeping(s, t, i);
    FreedSweeps(s, FreeUpval(s, t, i), t, u);
  }

  ghost predicate WhiteOpen(s: State, t: Ref, n: nat)
    requires IsThread(s, t) && n <= |OpenOf(s, t)|
  {
    forall j :: 0 <= j < n ==> OpenOf(s, t)[j] in s.m.color && s.m.color[OpenOf(s, t)[j]] == s.white
  }

  lemma OpenInHeap(s: State, t: Ref)
    requires Inv(s) && IsThread(s, t)
    ensures forall u :: u in OpenOf(s, t) ==> u in s.h
    ensures OpenOf(s, t) != [] ==> HasOpen(s, t)
  {
    assert OpenOf(s, t) != [] ==> OpenOf(s, t)[0] in OpenOf(s, t);
    assert OpenList(s.h, t, OpenOf(s, t));
  }

  // The open upvalues of a thread are swept when the thread is.
  function SweepOpen(s: State, t: Ref, i: nat): State
    requires Inv(s) && s.phase.Sweep? && IsThread(s, t) && i <= |OpenOf(s, t)|
    decreases |OpenOf(s, t)| - i
  {
    if i == |OpenOf(s, t)| then s
    else
      var u := OpenOf(s, t)[i];
      OpenInHeap(s, t);
      if Keeps(s, u) then
        WhitenInv(s, u);
        SweepOpen(Whiten(s, u), t, i + 1)
      else
        FreeUpvalSweeps(s, t, i);
        SweepOpen(FreeUpval(s, t, i), t, i)
  }

  lemma FreeUpvalWhite(s: State, t: Ref, i: nat)
    requires IsThread(s, t) && i < |OpenOf(s, t)| && WhiteOpen(s, t, i) && Dead(s, OpenOf(s, t)[i]) && White(s.white)
    requires IsThread(FreeUpval(s, t, i), t) && OpenOf(FreeUpval(s, t, i), t) == RemoveAt(OpenOf(s, t), i)
    ensures WhiteOpen(FreeUpval(s, t, i), t, i)
  {
  }

  lemma WhitenOpen(s: State, t: Ref, i: nat)
    requires IsThread(s, t) && i < |OpenOf(s, t)| && WhiteOpen(s, t, i)
    ensures var s' := Whiten(s, OpenOf(s, t)[i]);
      s' == s.(m := s.m.(color := s'.m.color)) && WhiteOpen(s', t, i + 1)
  {
  }

  lemma InvColored(s: State)
    requires Inv(s)
    ensures s.m.color.Keys == s.h.Keys && White(s.white)
  {
  }

  lemma {:induction false} SweepOpenKeeps(s: State, t: Ref, i: nat)
    requires Inv(s) && s.phase.Sweep? && IsThread(s, t) && i <= |OpenOf(s, t)| && WhiteOpen(s, t, i)
    ensures var s' := SweepOpen(s, t, i);
      && Inv(s') && Sweeps(s, s') && IsThread(s', t) && WhiteOpen(s', t, |OpenOf(s', t)|)
      && s' == s.(h := s'.h, m := s.m.(color := s'.m.color), uvhead := s'.uvhead)
    decreases |OpenOf(s, t)| - i
  {
    hide Core, Colors, Sweeps, FreeUpval, Whiten;
    InvColored(s);
    if i == |OpenOf(s, t)| {
      SweepsReflexive(s);
    } else {
      var u := OpenOf(s, t)[i];
      OpenInHeap(s, t);
      if Keeps(s, u) {
        WhitenOpen(s, t, i);
        WhitenInv(s, u);
        var s1 := Whiten(s, u);
        SweepOpenKeeps(s1, t, i + 1);
        SweepsTransitiveCore(s, s1, SweepOpen(s1, t, i + 1));
      } else {
        FreeUpvalSweeps(s, t, i);
        var s1 := FreeUpval(s, t, i);
        FreeUpvalWhite(s, t, i);
        FreeUpvalFrame(s, t, i);
        SweepOpenKeeps(s1, t, i);
        SweepsTransitiveCore(s, s1, SweepOpen(s1, t, i));
      }
    }
  }

  lemma FreeUpvalFrame(s: State, t: Ref, i: nat)
    requires IsThread(s, t) && i < |OpenOf(s, t)|
    ensures var s' := FreeUpval(s, t, i); s' == s.(h := s'.h, m := s.m.(color := s'.m.color), uvhead := s'.uvhead)
  {
  }

  // ----- threads -----

  lemma SameRefsSweeps(s: State, s': State, u: Ref)
    requires s' == s.(h := s'.h, m := SetColor(s.m, u, s.white), uvhead := s'.uvhead,
                      rootgc := s'.rootgc, sweepgc := s'.sweepgc)
    requires s'.h.Keys == s.h.Keys == s.m.color.Keys && u in s.h && Keeps(s, u)
    requires forall x :: x in s.h ==> Refs(s'.h, x) == Refs(s.h, x) && Same(s.h, s'.h, x)
    ensures Sweeps(s, s')
  {
    hide Refs, Same;
  }

  lemma ClosedSweeps(s: State, t: Ref)
    requires Inv(s) && !s.phase.Propagate? && HasOpen(s, t) && !Dead(s, OpenOf(s, t)[0])
    ensures Sweeps(s, CloseUpval(s, t))
  {
    assert s.m.color.Keys == s.h.Keys && (forall r :: r in s.h ==> Shaped(s.h[r])) && Captures(s.h, s.uvhead);
    hide Core, Captures, Colors, Refs, Detached, CloseFirst, Sweeps;
    CloseWhitens(s, t);
    CloseFirstRefs(s, t);
    ClosedFrame(s, t);
    SameRefsSweeps(s, CloseUpval(s, t), OpenOf(s, t)[0]);
  }

  lemma ClosedFrame(s: State, t: Ref)
    requires HasOpen(s, t)
    ensures var s' := CloseFirst(s, t);
      s' == s.(h := s'.h, uvhead := s'.uvhead, rootgc := s'.rootgc, sweepgc := s'.sweepgc)
  {
  }

  lemma CloseOpens(s: State, t: Ref)
    requires Inv(s) && s.phase.Sweep? && HasOpen(s, t)
    ensures var s' := CloseUpval(s, t);
      && Inv(s') && Sweeps(s, s') && IsThread(s', t) && OpenOf(s', t) == RemoveAt(OpenOf(s, t), 0)
      && s'.m.color[t] == s.m.color[t] && s'.strt == s.strt && s'.sweepstrgc == s.sweepstrgc
  {
    var u := OpenOf(s, t)[0];
    OpenInHeap(s, t);
    assert OpenList(s.h, t, OpenOf(s, t)) && u in OpenOf(s, t);
    CloseUpvalKeeps(s, t);
    if Dead(s, u) {
      assert u !in s.fixed;
      hide Inv, Sweeps, RemoveAt;
      FreeUpvalSweeps(s, t, 0);
    } else {
      CloseWhitens(s, t);
      ClosedSweeps(s, t);
      CloseFirstRefs(s, t);
      hide Inv, Sweeps, RemoveAt;
      ClosedFrame(s, t);
    }
  }

  // `luaF_close` on all open upvalues of a thread that is freed
  function CloseAll(s: State, t: Ref): State
    requires Inv(s) && s.phase.Sweep? && IsThread(s, t)
    decreases |OpenOf(s, t)|
  {
    if OpenOf(s, t) == [] then s
    else
      OpenInHeap(s, t);
      CloseOpens(s, t);
      CloseAll(CloseUpval(s, t), t)
  }

  lemma {:induction false} CloseAllKeeps(s: State, t: Ref)
    requires Inv(s) && s.phase.Sweep? && IsThread(s, t)
    ensures var s' := CloseAll(s, t);
      && Inv(s') && Sweeps(s, s') && IsThread(s', t) && OpenOf(s', t) == []
      && s'.m.color[t] == s.m.color[t] && s'.strt == s.strt && s'.sweepstrgc == s.sweepstrgc
    decreases |OpenOf(s, t)|
  {
    if OpenOf(s, t) == [] {
      SweepsReflexive(s);
    } else {
      OpenInHeap(s, t);
      assert s.m.color.Keys == s.h.Keys && White(s.white);
      hide Core, Colors, Sweeps, CloseUpval;
      CloseOpens(s, t);
      CloseAllKeeps(CloseUpval(s, t), t);
      SweepsTransitiveCore(s, CloseUpval(s, t), CloseAll(CloseUpval(s, t), t));
    }
  }
}
