/**
 Allocation: new objects, strings and open upvalues start with the current white.
 */
module GcAlloc {
  import opened GcHeap
  import opened GcMark
  import opened GcPropagate
  import opened GcState
  import opened GcSweep

  // The heap has one more object, and no other object refers to anything else than before.
  ghost predicate Added(s: State, s': State, r: Ref) {
    && r !in s.h && s'.h.Keys == s.h.Keys + {r} && s'.m == s.m.(color := s.m.color[r := s.white])
    && (forall x :: x in s.h ==> Refs(s'.h, x) == Refs(s.h, x))
    && (forall x :: x in s.h ==> s'.h[x].kind == s.h[x].kind || (s.h[x].kind.Thread? && s'.h[x].kind.Thread?))
    && (forall x :: x in s.h ==>
      s'.h[x].slots == s.h[x].slots && s'.h[x].keys == s.h[x].keys && s'.h[x].vals == s.h[x].vals)
    && Shaped(s'.h[r]) && (s'.h[r].kind.Thread? ==> |s'.h[r].slots| > 0)
    && s'.white == s.white && s'.phase == s.phase && s'.fixed == s.fixed && s'.sweepstrgc == s.sweepstrgc
    && s'.main == s.main && s'.running == s.running && s'.registry == s.registry && s'.mt == s.mt
    && r !in s.fixed
  }

  lemma AddedBasic(s: State, s': State, r: Ref)
    requires Basic(s) && Added(s, s', r)
    ensures Basic(s')
  {
    hide Refs;
  }

  lemma AddedSafe(s: State, s': State, r: Ref)
    requires Basic(s) && Safe(s) && Added(s, s', r) && AllLive(s, Refs(s'.h, r))
    ensures Safe(s')
  {
    assert Roots(s') == Roots(s);
    hide Refs;
    assert forall x :: Live(s, x) ==> Live(s', x);
    forall x | Live(s', x) ensures AllLive(s', Refs(s'.h, x)) {
      if x != r { assert Live(s, x) && AllLive(s, Refs(s.h, x)); }
    }
  }

  lemma AddedLists(s: State, s': State, r: Ref)
    requires Lists(s.h, s.m) && Added(s, s', r)
    ensures Lists(s'.h, s'.m)
  {
    hide Refs, Shaped;
    assert r !in s.m.gray && r !in s.m.grayagain && r !in s.m.weak;
  }

  lemma AddedColored(s: State, s': State, r: Ref, vs: seq<Value>)
    requires r !in s.m.color && s'.m == s.m.(color := s.m.color[r := s.white]) && Colored(s.m.color, vs)
    ensures Colored(s'.m.color, vs)
  {
  }

  lemma AddedBlack(s: State, s': State, r: Ref, x: Ref)
    requires Tricolor(s.h, s.m, {}) && White(s.white) && Added(s, s', r) && s.m.color.Keys == s.h.Keys
    requires x in s'.h && x in s'.m.color && s'.m.color[x].Black?
    ensures Colored(s'.m.color, Refs(s'.h, x))
  {
    hide Refs, Lists, Shaped, KindColors, Colored;
    assert x != r && x in s.h && s.m.color[x].Black?;
    AddedColored(s, s', r, Refs(s.h, x));
  }

  lemma AddedTricolor(s: State, s': State, r: Ref)
    requires Marking(s) && White(s.white) && Added(s, s', r) && s.m.color.Keys == s.h.Keys
    ensures Marking(s')
  {
    hide Refs, Lists, Shaped, Colored;
    AddedLists(s, s', r);
    forall x | x in s'.h && x in s'.m.color && s'.m.color[x].Black? ensures Colored(s'.m.color, Refs(s'.h, x)) {
      AddedBlack(s, s', r, x);
    }
    AddedColored(s, s', r, [Ptr(s.main), s.registry]);
  }

  // Where the new object goes on the list of all objects: behind the sweep position stays
  // behind it, everything else will still be swept.
  ghost predicate Placed(s: State, s': State, r: Ref) {
    || (s'.rootgc == s.rootgc && s'.sweepgc == s.sweepgc)
    || (exists i :: 0 <= i <= |s.rootgc| && s'.rootgc == s.rootgc[..i] + [r] + s.rootgc[i..] &&
          s'.sweepgc == if i < s.sweepgc then s.sweepgc + 1 else s.sweepgc)
  }

  lemma AddedObjects(s: State, s': State, r: Ref)
    requires SweepingObjects(s) && White(s.white) && Added(s, s', r) && Placed(s, s', r)
    requires s.m.color.Keys == s.h.Keys
    requires forall t, u :: t in s.h && s.h[t].kind.Thread? && u in s'.h[t].kind.openupval ==>
               u == r || u in s.h[t].kind.openupval
    requires s'.h[r].kind.Thread? ==> s'.h[r].kind.openupval == []
    ensures SweepingObjects(s')
  {
    hide Refs, Shaped;
    forall x | Swept(s, x) ensures Swept(s', x) {
    }
    assert Swept(s', r);
    if s'.rootgc != s.rootgc {
      var i :| 0 <= i <= |s.rootgc| && s'.rootgc == s.rootgc[..i] + [r] + s.rootgc[i..] &&
               s'.sweepgc == if i < s.sweepgc then s.sweepgc + 1 else s.sweepgc;
      forall k | 0 <= k < s'.sweepgc ensures Swept(s', s'.rootgc[k]) {
        if k < i { assert Swept(s, s.rootgc[k]); }
        else if k > i { assert Swept(s, s.rootgc[k - 1]); }
      }
    }
  }

  ghost predicate BucketsGrow(s: State, s': State, r: Ref) {
    && |s'.strt| == |s.strt|
    && (forall b :: 0 <= b < |s.strt| ==> s'.strt[b] == s.strt[b] || s'.strt[b] == [r] + s.strt[b])
  }

  lemma AddedStrings(s: State, s': State, r: Ref)
    requires SweepingStrings(s) && White(s.white) && Added(s, s', r) && Placed(s, s', r)
    requires BucketsGrow(s, s', r)
    ensures SweepingStrings(s')
  {
    hide Refs, Shaped;
    forall b | 0 <= b < s'.sweepstrgc ensures WhiteBucket(s', b) {
      assert WhiteBucket(s, b);
    }
  }

  lemma AddedInv(s: State, s': State, r: Ref)
    requires Inv(s) && Added(s, s', r) && AllLive(s, Refs(s'.h, r))
    requires Captures(s'.h, s'.uvhead) && Interned(s'.h, s'.strt) && Chained(s'.h, s'.rootgc)
    requires Placed(s, s', r)
    requires s.phase.SweepString? ==> BucketsGrow(s, s', r)
    requires forall t, u :: t in s.h && s.h[t].kind.Thread? && u in s'.h[t].kind.openupval ==>
               u == r || u in s.h[t].kind.openupval
    requires s'.h[r].kind.Thread? ==> s'.h[r].kind.openupval == []
    ensures Inv(s')
  {
    CoreParts'(s);
    hide Core, Captures, Interned, Chained, Placed, Refs, SweepingObjects, SweepingStrings, Marking, Safe;
    AddedBasic(s, s', r);
    AddedSafe(s, s', r);
    AddedCore(s');
    match s.phase {
      case Pause =>
      case Finalize =>
      case Propagate => AddedTricolor(s, s', r);
      case SweepString => AddedStrings(s, s', r);
      case Sweep => AddedObjects(s, s', r);
    }
  }

  lemma CoreParts'(s: State)
    requires Core(s)
    ensures Basic(s) && Safe(s) && White(s.white) && s.m.color.Keys == s.h.Keys
  {
  }

  lemma AddedCore(s: State)
    requires Basic(s) && Safe(s) && Captures(s.h, s.uvhead) && Interned(s.h, s.strt) && Chained(s.h, s.rootgc)
    ensures Core(s)
  {
  }

  // ----- ordinary objects -----

  // `luaC_link` puts a new object first (`i == 0`); userdata go behind the main thread.
  function Link(s: State, r: Ref, o: Obj, i: nat): State
    requires i <= |s.rootgc|
  {
    s.(h := s.h[r := o], m := s.m.(color := s.m.color[r := s.white]),
       rootgc := s.rootgc[..i] + [r] + s.rootgc[i..],
       sweepgc := if i < s.sweepgc then s.sweepgc + 1 else s.sweepgc)
  }

  predicate Linkable(o: Obj) {
    Shaped(o) && OnRootList(o.kind) && (o.kind.Thread? ==> o.kind.openupval == [] && |o.slots| > 0)
  }

  lemma InsertedDistinct(q: seq<Ref>, r: Ref, i: nat)
    requires Distinct(q) && r !in q && i <= |q|
    ensures Distinct(q[..i] + [r] + q[i..])
    ensures forall x :: x in q[..i] + [r] + q[i..] <==> x in q || x == r
  {
    var d := q[..i] + [r] + q[i..];
    assert forall j :: 0 <= j < |d| ==> d[j] == if j < i then q[j] else if j == i then r else q[j - 1];
    forall x | x in q ensures x in d {
      var j :| 0 <= j < |q| && q[j] == x;
      assert d[if j < i then j else j + 1] == x;
    }
    assert d[i] == r;
  }

  lemma LinkedLists(h: Heap, uvhead: seq<Ref>, strt: seq<seq<Ref>>, q: seq<Ref>, r: Ref, o: Obj, i: nat)
    requires r !in h && Linkable(o) && i <= |q|
    requires Captures(h, uvhead) && Interned(h, strt) && Chained(h, q)
    ensures Captures(h[r := o], uvhead) && Interned(h[r := o], strt) && Chained(h[r := o], q[..i] + [r] + q[i..])
  {
    var h' := h[r := o];
    InsertedDistinct(q, r, i);
    forall t | t in h' && h'[t].kind.Thread? ensures OpenList(h', t, h'[t].kind.openupval) {
      if t != r { assert OpenList(h, t, h[t].kind.openupval); }
    }
    forall u | u in h' && OpenUpval(h'[u].kind) ensures Attached(h', u) {
      assert Attached(h, u);
    }
    hide Hash;
    forall b | 0 <= b < |strt| ensures InBucket(h', strt, b) && Distinct(strt[b]) {
      assert InBucket(h, strt, b);
    }
  }

  lemma LinkedRefs(h: Heap, q: seq<Ref>, r: Ref, o: Obj)
    requires r !in h && Captures(h, q)
    ensures forall x :: x in h ==> Refs(h[r := o], x) == Refs(h, x)
  {
    forall x | x in h ensures Refs(h[r := o], x) == Refs(h, x) {
      assert OpenUpval(h[x].kind) ==> Attached(h, x);
    }
  }

  lemma LinkKeeps(s: State, r: Ref, o: Obj, i: nat)
    requires Inv(s) && r !in s.h && r !in s.fixed && Linkable(o) && i <= |s.rootgc|
    requires AllLive(s, o.slots + o.keys + o.vals)
    ensures Inv(Link(s, r, o, i))
  {
    var s' := Link(s, r, o, i);
    assert Refs(s'.h, r) == o.slots + o.keys + o.vals;
    LinkedRefs(s.h, s.uvhead, r, o);
    LinkedLists(s.h, s.uvhead, s.strt, s.rootgc, r, o, i);
    assert s.m.color.Keys == s.h.Keys;
    assert Placed(s, s', r);
    hide Basic, Safe, Captures, Interned, Chained, Colors, Refs, Placed;
    LinkIsAdded(s, r, o, i);
    AddedInv(s, s', r);
  }

  lemma LinkIsAdded(s: State, r: Ref, o: Obj, i: nat)
    requires r !in s.h && r !in s.fixed && Linkable(o) && i <= |s.rootgc|
    requires forall x :: x in s.h ==> Refs(s.h[r := o], x) == Refs(s.h, x)
    ensures Added(s, Link(s, r, o, i), r)
  {
    hide Refs;
  }

  // ----- strings -----

  // The search of `luaS_newlstr` along a bucket
  function FindString(h: Heap, q: seq<Ref>, text: string, i: nat): (j: nat)
    requires i <= |q|
    ensures i <= j <= |q|
    ensures j < |q| ==> q[j] in h && h[q[j]].kind == Str(text)
    ensures forall k :: i <= k < j ==> !(q[k] in h && h[q[k]].kind == Str(text))
    decreases |q| - i
  {
    if i == |q| || (q[i] in h && h[q[i]].kind == Str(text)) then i else FindString(h, q, text, i + 1)
  }

  // `luaS_newlstr`: a string found dead is revived; `r` is the address of a new one.
  function NewString(s: State, text: string, r: Ref): (State, Ref)
    requires |s.strt| > 0 && r !in s.h
  {
    var b := Bucket(text, |s.strt|);
    var i := FindString(s.h, s.strt[b], text, 0);
    if i < |s.strt[b]| then
      var o := s.strt[b][i];
      (if Dead(s, o) then Whiten(s, o) else s, o)
    else
      (s.(h := s.h[r := Obj(Str(text), [], [], [])], m := s.m.(color := s.m.color[r := s.white]),
          strt := s.strt[b := [r] + s.strt[b]]), r)
  }

  // The search finds a string whenever it exists.
  lemma FindStringComplete(s: State, text: string, r: Ref)
    requires Interned(s.h, s.strt) && r in s.h && s.h[r].kind == Str(text)
    ensures var q := s.strt[Bucket(text, |s.strt|)]; var i := FindString(s.h, q, text, 0);
      i < |q| && q[i] == r
  {
    var q := s.strt[Bucket(text, |s.strt|)];
    var k :| 0 <= k < |q| && q[k] == r;
    var i := FindString(s.h, q, text, 0);
    assert i <= k;
  }

  lemma ReviveSafe(s: State, r: Ref)
    requires Basic(s) && Safe(s) && r in s.h && s.h[r].kind.Str?
    ensures Safe(Whiten(s, r)) && Live(Whiten(s, r), r)
  {
    var s' := Whiten(s, r);
    assert Shaped(s.h[r]) && Refs(s.h, r) == [] && Roots(s') == Roots(s);
    hide Refs;
    forall x | Live(s', x) ensures AllLive(s', Refs(s'.h, x)) {
      if x != r { assert AllLive(s, Refs(s.h, x)); }
    }
  }

  lemma ReviveKeeps(s: State, r: Ref)
    requires Inv(s) && r in s.h && Dead(s, r) && s.h[r].kind.Str?
    ensures Inv(Whiten(s, r)) && Live(Whiten(s, r), r)
  {
    var s' := Whiten(s, r);
    ReviveSafe(s, r);
    assert White(s.white);
    hide Safe, Captures, Interned, Chained;
    if s.phase.SweepString? {
      forall b | 0 <= b < s'.sweepstrgc ensures WhiteBucket(s', b) { assert WhiteBucket(s, b); }
    }
  }

  lemma HashedLists(h: Heap, uvhead: seq<Ref>, strt: seq<seq<Ref>>, q: seq<Ref>, r: Ref, text: string)
    requires r !in h && Captures(h, uvhead) && Interned(h, strt) && Chained(h, q)
    requires forall x :: x in h ==> h[x].kind != Str(text)
    ensures var h' := h[r := Obj(Str(text), [], [], [])]; var b := Bucket(text, |strt|);
      Captures(h', uvhead) && Interned(h', strt[b := [r] + strt[b]]) && Chained(h', q)
  {
    var h', b := h[r := Obj(Str(text), [], [], [])], Bucket(text, |strt|);
    var strt' := strt[b := [r] + strt[b]];
    forall t | t in h' && h'[t].kind.Thread? ensures OpenList(h', t, h'[t].kind.openupval) {
      assert OpenList(h, t, h[t].kind.openupval);
    }
    forall u | u in h' && OpenUpval(h'[u].kind) ensures Attached(h', u) {
      assert Attached(h, u);
    }
    hide Hash;
    forall c | 0 <= c < |strt'| ensures InBucket(h', strt', c) && Distinct(strt'[c]) {
      assert InBucket(h, strt, c);
      assert forall i :: 0 < i < |[r] + strt[b]| ==> ([r] + strt[b])[i] == strt[b][i - 1];
    }
  }

  // Interning: whatever `luaS_newlstr` returns is live, has the wanted text, and is the
  // only object that has it. In particular the sweep in progress will not free it.
  lemma NewStringCanonical(s: State, text: string, r: Ref)
    requires Inv(s) && r !in s.h && r !in s.fixed
    ensures var (s', o) := NewString(s, text, r);
      && Inv(s') && Live(s', o) && s'.h[o].kind == Str(text)
      && (forall q :: q in s'.h && s'.h[q].kind == Str(text) ==> q == o)
      && (o == r <==> forall q :: q in s.h ==> s.h[q].kind != Str(text))
  {
    var b := Bucket(text, |s.strt|);
    var i := FindString(s.h, s.strt[b], text, 0);
    var (s', o) := NewString(s, text, r);
    hide FindString, Hash;
    if i < |s.strt[b]| {
      if Dead(s, o) { ReviveKeeps(s, o); }
      hide Colors, Safe, Captures, Chained;
    } else {
      forall q | q in s.h ensures s.h[q].kind != Str(text) {
        if s.h[q].kind == Str(text) { FindStringComplete(s, text, q); }
      }
      NewStringAdded(s, text, r, s');
    }
  }

  lemma NewStringAdded(s: State, text: string, r: Ref, s': State)
    requires Inv(s) && r !in s.h && r !in s.fixed && forall q :: q in s.h ==> s.h[q].kind != Str(text)
    requires var b := Bucket(text, |s.strt|);
      s' == s.(h := s.h[r := Obj(Str(text), [], [], [])], m := s.m.(color := s.m.color[r := s.white]),
               strt := s.strt[b := [r] + s.strt[b]])
    ensures Inv(s') && Live(s', r)
  {
    var o := Obj(Str(text), [], [], []);
    HashedLists(s.h, s.uvhead, s.strt, s.rootgc, r, text);
    LinkedRefs(s.h, s.uvhead, r, o);
    assert Refs(s'.h, r) == [];
    assert White(s.white) && s.m.color.Keys == s.h.Keys;
    hide Basic, Safe, Captures, Interned, Chained, Colors, Refs;
    NewStringIsAdded(s, s', r, o);
    AddedInv(s, s', r);
  }

  lemma NewStringIsAdded(s: State, s': State, r: Ref, o: Obj)
    requires r !in s.h && r !in s.fixed && o.kind.Str? && Shaped(o)
    requires s' == s.(h := s.h[r := o], m := s.m.(color := s.m.color[r := s.white]), strt := s'.strt)
    requires forall x :: x in s.h ==> Refs(s.h[r := o], x) == Refs(s.h, x)
    ensures Added(s, s', r) && Placed(s, s', r)
  {
    hide Refs;
  }

  // ----- the size of the string table -----

  function TextBucket(h: Heap, r: Ref, size: nat): nat
    requires size > 0
  {
    if r in h && h[r].kind.Str? then Bucket(h[r].kind.text, size) else 0
  }

  // `luaS_resize`, one old bucket: every string moves to the front of its new bucket.
  function RehashBucket(h: Heap, acc: seq<seq<Ref>>, q: seq<Ref>): (acc': seq<seq<Ref>>)
    requires |acc| > 0
    ensures |acc'| == |acc|
    decreases |q|
  {
    if q == [] then acc
    else
      var b := TextBucket(h, q[0], |acc|);
      RehashBucket(h, acc[b := [q[0]] + acc[b]], q[1..])
  }

  function Rehash(h: Heap, acc: seq<seq<Ref>>, strt: seq<seq<Ref>>): (acc': seq<seq<Ref>>)
    requires |acc| > 0
    ensures |acc'| == |acc|
    decreases |strt|
  {
    if strt == [] then acc else Rehash(h, RehashBucket(h, acc, strt[0]), strt[1..])
  }

  function EmptyBuckets(n: nat): (q: seq<seq<Ref>>)
    ensures |q| == n && forall b :: 0 <= b < n ==> q[b] == []
  {
    seq(n, _ => [])
  }

  // `luaS_resize` does nothing while the sweep walks the string table.
  function ResizeStrings(s: State, n: nat): State
    requires n > 0
  {
    if s.phase.SweepString? then s
    else s.(strt := Rehash(s.h, EmptyBuckets(n), s.strt))
  }

  predicate Holds(strt: seq<seq<Ref>>, r: Ref) {
    exists b :: 0 <= b < |strt| && r in strt[b]
  }

  ghost predicate Hashed(h: Heap, acc: seq<seq<Ref>>) {
    forall b :: 0 <= b < |acc| ==> InBucket(h, acc, b) && Distinct(acc[b])
  }

  lemma PushKeepsHashed(h: Heap, acc: seq<seq<Ref>>, r: Ref, acc': seq<seq<Ref>>)
    requires |acc| > 0 && Hashed(h, acc) && r in h && h[r].kind.Str? && !Holds(acc, r)
    requires var b := TextBucket(h, r, |acc|); acc' == acc[b := [r] + acc[b]]
    ensures Hashed(h, acc')
    ensures forall x :: Holds(acc', x) <==> Holds(acc, x) || x == r
  {
    hide Bucket;
    var b := TextBucket(h, r, |acc|);
    assert r !in acc[b];
    forall c | 0 <= c < |acc'| ensures InBucket(h, acc', c) && Distinct(acc'[c]) {
      assert InBucket(h, acc, c);
      assert forall i :: 0 < i < |[r] + acc[b]| ==> ([r] + acc[b])[i] == acc[b][i - 1];
    }
    forall x ensures Holds(acc', x) <==> Holds(acc, x) || x == r {
      assert r in acc'[b];
      if Holds(acc, x) {
        var c :| 0 <= c < |acc| && x in acc[c];
        assert x in acc'[c];
      }
    }
  }

  lemma {:induction false} RehashBucketKeeps(h: Heap, acc: seq<seq<Ref>>, q: seq<Ref>)
    requires |acc| > 0 && Hashed(h, acc) && Distinct(q)
    requires forall r :: r in q ==> r in h && h[r].kind.Str? && !Holds(acc, r)
    ensures Hashed(h, RehashBucket(h, acc, q))
    ensures forall x :: Holds(RehashBucket(h, acc, q), x) <==> Holds(acc, x) || x in q
    decreases |q|
  {
    if q != [] {
      var r := q[0];
      var b := TextBucket(h, r, |acc|);
      var acc1 := acc[b := [r] + acc[b]];
      PushKeepsHashed(h, acc, r, acc1);
      hide Hashed, Holds, TextBucket;
      assert forall x :: x in q <==> x == r || x in q[1..];
      assert r !in q[1..];
      RehashBucketKeeps(h, acc1, q[1..]);
    }
  }

  // Buckets hold each string once.
  ghost predicate Once(strt: seq<seq<Ref>>) {
    && (forall b :: 0 <= b < |strt| ==> Distinct(strt[b]))
    && (forall b, c, x :: 0 <= b < c < |strt| && x in strt[b] ==> x !in strt[c])
  }

  lemma {:induction false} RehashKeeps(h: Heap, acc: seq<seq<Ref>>, strt: seq<seq<Ref>>)
    requires |acc| > 0 && Hashed(h, acc) && Once(strt)
    requires forall b, r :: 0 <= b < |strt| && r in strt[b] ==> r in h && h[r].kind.Str? && !Holds(acc, r)
    ensures Hashed(h, Rehash(h, acc, strt))
    ensures forall x :: Holds(Rehash(h, acc, strt), x) <==> Holds(acc, x) || Holds(strt, x)
    decreases |strt|
  {
    if strt != [] {
      var q := strt[0];
      assert forall r :: r in q ==> r in strt[0];
      RehashBucketKeeps(h, acc, q);
      var acc1 := RehashBucket(h, acc, q);
      assert Once(strt[1..]);
      forall x ensures Holds(strt, x) <==> x in q || Holds(strt[1..], x) {
        if Holds(strt[1..], x) {
          var b :| 0 <= b < |strt[1..]| && x in strt[1..][b];
          assert x in strt[b + 1];
        }
        if Holds(strt, x) && x !in q {
          var b :| 0 <= b < |strt| && x in strt[b];
          assert x in strt[1..][b - 1];
        }
      }
      hide Hashed, RehashBucket;
      RehashKeeps(h, acc1, strt[1..]);
    }
  }

  // Resizing keeps every string findable, so interning stays canonical.
  lemma ResizeKeeps(s: State, n: nat)
    requires Inv(s) && n > 0
    ensures Inv(ResizeStrings(s, n))
  {
    if !s.phase.SweepString? {
      var acc := EmptyBuckets(n);
      var s' := ResizeStrings(s, n);
      hide Hash;
      assert Hashed(s.h, acc);
      forall b, r | 0 <= b < |s.strt| && r in s.strt[b] ensures r in s.h && s.h[r].kind.Str? && !Holds(acc, r) {
        assert InBucket(s.h, s.strt, b);
      }
      assert Once(s.strt) by {
        forall b, c, x | 0 <= b < c < |s.strt| && x in s.strt[b] ensures x !in s.strt[c] {
          assert InBucket(s.h, s.strt, b) && InBucket(s.h, s.strt, c);
        }
      }
      RehashKeeps(s.h, acc, s.strt);
      hide Rehash;
      ResizedInterned(s.h, s.strt, s'.strt);
      ResizedInv(s, s');
    }
  }

  lemma ResizedInterned(h: Heap, strt: seq<seq<Ref>>, strt': seq<seq<Ref>>)
    requires Interned(h, strt) && Hashed(h, strt') && |strt'| > 0
    requires forall x :: Holds(strt, x) ==> Holds(strt', x)
    ensures Interned(h, strt')
  {
    hide Hash;
    forall r | r in h && h[r].kind.Str? ensures r in strt'[Bucket(h[r].kind.text, |strt'|)] {
      assert r in strt[Bucket(h[r].kind.text, |strt|)];
      assert Holds(strt, r);
      var b :| 0 <= b < |strt'| && r in strt'[b];
      assert InBucket(h, strt', b);
    }
  }

  lemma ResizedInv(s: State, s': State)
    requires Inv(s) && !s.phase.SweepString? && s' == s.(strt := s'.strt) && Interned(s.h, s'.strt)
    ensures Inv(s')
  {
    assert Roots(s') == Roots(s);
    hide Interned, Captures, Chained, Refs;
    assert Safe(s') by {
      forall x | Live(s', x) ensures AllLive(s', Refs(s'.h, x)) { assert AllLive(s, Refs(s.h, x)); }
    }
    if s.phase.Sweep? {
      forall i | 0 <= i < s'.sweepgc ensures Swept(s', s'.rootgc[i]) { assert Swept(s, s.rootgc[i]); }
    }
  }
}
