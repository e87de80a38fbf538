/**
 The propagation of marks: `propagatemark`, the loops that run it until no gray object is
 left, and the tri-colour invariant every step of them keeps.
 */
module GcPropagate {
  import opened GcHeap
  import opened GcMark

  // The invariant of the mark phase, with the objects in `e` exempt.
  ghost predicate Tricolor(h: Heap, m: Mark, e: set<Ref>) {
    && (forall r :: r in h && r in m.color && r !in e && m.color[r].Black? ==> Colored(m.color, Refs(h, r)))
    && (forall r :: r in h && r in m.color && r !in e && m.color[r].Gray? && Listed(h[r].kind) ==>
          r in m.gray || r in m.grayagain || r in m.weak)
    && KindColors(h, m.color, e)
    && Lists(h, m)
  }

  // Strings are never black, userdata never gray, an upvalue is black only once closed,
  // and a thread never stays black.
  ghost predicate KindColors(h: Heap, color: map<Ref, Color>, e: set<Ref>) {
    forall r :: r in h && r in color && r !in e ==>
      match h[r].kind
      case Str(_) => !color[r].Black?
      case Udata => !color[r].Gray?
      case Upval(loc) => if loc.Closed? then !color[r].Gray? else !color[r].Black?
      case Thread(_) => !color[r].Black?
      case _ => true
  }

  // The three lists share one link field per object, so no object may be on two of them.
  ghost predicate Lists(h: Heap, m: Mark) {
    && GrayList(h, m.color, m.gray)
    && GrayList(h, m.color, m.grayagain)
    && GrayList(h, m.color, m.weak)
    && (forall x :: x in m.gray ==> x !in m.grayagain && x !in m.weak)
    && (forall x :: x in m.grayagain ==> x !in m.weak && (h[x].kind.Table? || h[x].kind.Thread?))
    && (forall x :: x in m.weak ==> h[x].kind.Table?)
  }

  lemma MarkingKeepsLists(h: Heap, a: Mark, b: Mark)
    requires Lists(h, a) && Grows(h, a, b)
    ensures Lists(h, b)
  {
  }

  lemma MarkingKeepsTricolor(h: Heap, a: Mark, b: Mark, e: set<Ref>)
    requires Tricolor(h, a, e) && Grows(h, a, b)
    ensures Tricolor(h, b, e)
  {
    MarkingKeepsLists(h, a, b);
    forall r | r in h && r !in e && b.color[r].Black? ensures Colored(b.color, Refs(h, r)) {
      if a.color[r].Black? {
        assert Colored(a.color, Refs(h, r));
      } else {
        assert Settled(h, b, r);
        assert Strong(h, r) == Refs(h, r);
      }
    }
    forall r | r in h && r !in e && b.color[r].Gray? && Listed(h[r].kind)
      ensures r in b.gray || r in b.grayagain || r in b.weak
    {
      if White(a.color[r]) { assert Settled(h, b, r); }
    }
    forall r | r in h && r !in e && White(a.color[r]) && b.color[r] != a.color[r]
      ensures Settled(h, b, r)
    {
    }
  }

  // `propagatemark`: traverse the first gray object.
  function PropagateMark(h: Heap, m: Mark): (m': Mark)
    requires Fits(h, m) && m.gray != [] && GrayList(h, m.color, m.gray)
  {
    var o := m.gray[0];
    StrongKnown(h, o);
    var rest := m.(gray := m.gray[1..]);
    if h[o].kind.Thread? then
      MarkVals(h, rest.(grayagain := [o] + m.grayagain), Strong(h, o))
    else
      var m1 := MarkVals(h, SetColor(rest, o, Black), Strong(h, o));
      if Weak(h[o].kind) then SetColor(m1, o, Gray).(weak := [o] + m1.weak) else m1
  }

  lemma StrongKnown(h: Heap, o: Ref)
    requires Sound(h) && o in h
    ensures Known(h, Strong(h, o))
  {
    assert forall v :: v in Strong(h, o) ==> v in Refs(h, o);
  }

  // Marked objects stay marked, and only the gray list loses members.
  ghost predicate Later(h: Heap, a: Mark, b: Mark) {
    && b.color.Keys == a.color.Keys == h.Keys
    && (forall r :: r in h && !White(a.color[r]) ==> !White(b.color[r]))
    && (forall r :: r in h && White(b.color[r]) ==> b.color[r] == a.color[r])
    && (forall x :: x in a.grayagain ==> x in b.grayagain)
    && (forall x :: x in a.weak ==> x in b.weak)
    && (forall x :: x in b.grayagain ==> x in a.grayagain || (x in h && h[x].kind.Thread?))
  }

  // Every marked object has what it strongly refers to marked, unless it is still on the
  // gray list or one of `x`.
  ghost predicate Fresh(h: Heap, m: Mark, x: set<Ref>) {
    forall r :: r in h && r in m.color && !White(m.color[r]) ==>
      r in m.gray || r in x || Colored(m.color, Strong(h, r))
  }

  lemma MarkingKeepsFresh(h: Heap, a: Mark, b: Mark, x: set<Ref>)
    requires Sound(h) && Fresh(h, a, x) && Grows(h, a, b)
    ensures Fresh(h, b, x)
  {
    forall r | r in h && !White(b.color[r]) && r !in b.gray && r !in x
      ensures Colored(b.color, Strong(h, r))
    {
      if White(a.color[r]) {
        assert Settled(h, b, r);
      } else {
        assert Colored(a.color, Strong(h, r));
      }
    }
  }

  // Objects `propagatemark` may still have to look at.
  ghost function Pending(m: Mark): set<Ref> {
    Whites(m.color) + set x | x in m.gray
  }

  // The first object leaves the gray list, in one of the two ways `propagatemark` has.
  predicate Popped(h: Heap, m: Mark, s: Mark) {
    && |m.gray| > 0 && m.gray[0] in h
    && s == (if h[m.gray[0]].kind.Thread?
             then m.(gray := m.gray[1..], grayagain := [m.gray[0]] + m.grayagain)
             else SetColor(m.(gray := m.gray[1..]), m.gray[0], Black))
  }

  lemma PoppedKeepsTricolor(h: Heap, m: Mark, s: Mark)
    requires Fits(h, m) && Tricolor(h, m, {}) && Popped(h, m, s)
    ensures Tricolor(h, s, {m.gray[0]})
    ensures forall x :: x in m.gray && x != m.gray[0] <==> x in s.gray
    ensures forall r :: r in h && !White(m.color[r]) ==> !White(s.color[r])
    ensures forall r :: r in h && r != m.gray[0] ==> s.color[r] == m.color[r]
  {
    var o := m.gray[0];
    assert forall x :: x in m.gray <==> x == o || x in m.gray[1..];
    assert o !in s.gray;
    assert Distinct(s.gray);
    if h[o].kind.Thread? {
      assert Distinct(s.grayagain);
    }
    assert Lists(h, s);
    forall r | r in h && r != o && s.color[r].Black? ensures Colored(s.color, Refs(h, r)) {
      assert Colored(m.color, Refs(h, r));
    }
  }

  lemma ThreadTraversed(h: Heap, m: Mark, s: Mark, m1: Mark)
    requires Fits(h, m) && Tricolor(h, m, {}) && Popped(h, m, s) && h[m.gray[0]].kind.Thread?
    requires Tricolor(h, m1, {m.gray[0]}) && Grows(h, s, m1)
    ensures Tricolor(h, m1, {})
  {
  }

  lemma StrongTraversed(h: Heap, m: Mark, s: Mark, m1: Mark)
    requires Fits(h, m) && Tricolor(h, m, {}) && Popped(h, m, s) && !h[m.gray[0]].kind.Thread?
    requires !Weak(h[m.gray[0]].kind)
    requires Tricolor(h, m1, {m.gray[0]}) && Grows(h, s, m1) && Colored(m1.color, Strong(h, m.gray[0]))
    ensures Tricolor(h, m1, {})
  {
    assert Strong(h, m.gray[0]) == Refs(h, m.gray[0]);
    assert Listed(h[m.gray[0]].kind);
  }

  lemma WeakListed(h: Heap, m1: Mark, o: Ref)
    requires Lists(h, m1) && o in h && o in m1.color && m1.color[o].Black? && h[o].kind.Table?
    ensures Lists(h, SetColor(m1, o, Gray).(weak := [o] + m1.weak))
  {
    var m2 := SetColor(m1, o, Gray).(weak := [o] + m1.weak);
    assert o !in m1.gray && o !in m1.grayagain && o !in m1.weak;
    assert GrayList(h, m2.color, m2.gray) && GrayList(h, m2.color, m2.grayagain);
    assert forall i :: 0 < i < |m2.weak| ==> m2.weak[i] == m1.weak[i - 1];
    assert GrayList(h, m2.color, m2.weak);
  }

  lemma WeakTraversed(h: Heap, m1: Mark, o: Ref)
    requires Tricolor(h, m1, {o}) && o in h && o in m1.color && m1.color[o].Black? && h[o].kind.Table?
    ensures Tricolor(h, SetColor(m1, o, Gray).(weak := [o] + m1.weak), {})
  {
    WeakListed(h, m1, o);
    var m2 := SetColor(m1, o, Gray).(weak := [o] + m1.weak);
    forall r | r in h && r in m2.color && m2.color[r].Black? ensures Colored(m2.color, Refs(h, r)) {
      assert Colored(m1.color, Refs(h, r));
    }
  }

  // What marking from `s` to `m1` and the last colour change of a weak table add up to.
  lemma TraversedFacts(h: Heap, m: Mark, s: Mark, m1: Mark, m2: Mark, x: set<Ref>)
    requires Fits(h, m) && Lists(h, m) && Popped(h, m, s) && Grows(h, s, m1)
    requires Colored(m1.color, Strong(h, m.gray[0]))
    requires m2 == (if Weak(h[m.gray[0]].kind)
                    then SetColor(m1, m.gray[0], Gray).(weak := [m.gray[0]] + m1.weak) else m1)
    requires Fresh(h, m, x)
    ensures Later(h, m, m2) && Fresh(h, m2, x)
  {
    var o := m.gray[0];
    assert !White(m.color[o]) && !White(m1.color[o]) && !White(m2.color[o]);
    forall r | r in h && !White(m2.color[r]) && r !in m2.gray && r !in x
      ensures Colored(m2.color, Strong(h, r))
    {
      if White(m.color[r]) {
        assert r != o && Settled(h, m1, r);
      } else if r != o {
        assert r !in m.gray[1..] && r !in m.gray;
        assert Colored(m.color, Strong(h, r));
      }
    }
  }

  lemma PendingShrinks(h: Heap, m: Mark, s: Mark, m1: Mark, m2: Mark)
    requires Fits(h, m) && Lists(h, m) && Popped(h, m, s) && Grows(h, s, m1)
    requires Whites(m2.color) == Whites(m1.color) && m2.gray == m1.gray
    ensures Pending(m2) < Pending(m)
  {
    var o := m.gray[0];
    assert !White(m.color[o]) && !White(s.color[o]) && !White(m1.color[o]);
    assert forall x :: x in s.gray ==> x in m.gray && x != o;
    forall x | x in Whites(m1.color) || x in m1.gray ensures x in Pending(m) && x != o {
      if x in Whites(m1.color) {
        assert White(s.color[x]) && White(m.color[x]);
      } else if x !in s.gray {
        assert White(s.color[x]) && White(m.color[x]);
      }
    }
    assert o in Pending(m);
  }

  // One call of `propagatemark` keeps the tri-colour invariant, leaves the traversed
  // object with its strong references marked, and makes progress.
  lemma PropagateMarkKeeps(h: Heap, m: Mark, x: set<Ref>)
    requires Fits(h, m) && m.gray != [] && Tricolor(h, m, {}) && Fresh(h, m, x)
    ensures Tricolor(h, PropagateMark(h, m), {})
    ensures Later(h, m, PropagateMark(h, m)) && Fresh(h, PropagateMark(h, m), x)
  {
    var o := m.gray[0];
    StrongKnown(h, o);
    var rest := m.(gray := m.gray[1..]);
    var s := if h[o].kind.Thread? then rest.(grayagain := [o] + m.grayagain) else SetColor(rest, o, Black);
    PoppedKeepsTricolor(h, m, s);
    var m1 := MarkVals(h, s, Strong(h, o));
    MarkingKeepsTricolor(h, s, m1, {o});
    TraversedFacts(h, m, s, m1, PropagateMark(h, m), x);
    if h[o].kind.Thread? {
      ThreadTraversed(h, m, s, m1);
    } else if Weak(h[o].kind) {
      WeakTraversed(h, m1, o);
    } else {
      StrongTraversed(h, m, s, m1);
    }
  }

  lemma PropagateMarkProgress(h: Heap, m: Mark)
    requires Fits(h, m) && m.gray != [] && Lists(h, m)
    ensures Pending(PropagateMark(h, m)) < Pending(m)
  {
    var o := m.gray[0];
    StrongKnown(h, o);
    var rest := m.(gray := m.gray[1..]);
    var s := if h[o].kind.Thread? then rest.(grayagain := [o] + m.grayagain) else SetColor(rest, o, Black);
    var m1 := MarkVals(h, s, Strong(h, o));
    assert !White(m1.color[o]);
    var m2 := PropagateMark(h, m);
    assert Whites(m2.color) == Whites(m1.color);
    PendingShrinks(h, m, s, m1, m2);
  }

  // `propagateall`
  function PropagateAll(h: Heap, m: Mark): (m': Mark)
    requires Fits(h, m) && Tricolor(h, m, {})
    ensures Fits(h, m') && Tricolor(h, m', {}) && m'.gray == [] && Later(h, m, m')
    decreases Pending(m)
  {
    if m.gray == [] then m
    else
      PropagateMarkKeeps(h, m, m.color.Keys);
      PropagateMarkProgress(h, m);
      PropagateAll(h, PropagateMark(h, m))
  }

  lemma {:induction false} PropagateAllKeepsFresh(h: Heap, m: Mark, x: set<Ref>)
    requires Fits(h, m) && Tricolor(h, m, {}) && Fresh(h, m, x)
    ensures Fresh(h, PropagateAll(h, m), x)
    decreases Pending(m)
  {
    if m.gray != [] {
      PropagateMarkKeeps(h, m, x);
      PropagateMarkProgress(h, m);
      PropagateAllKeepsFresh(h, PropagateMark(h, m), x);
    }
  }
}
