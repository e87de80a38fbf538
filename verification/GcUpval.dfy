/**
 Open upvalues: `luaF_findupval` shares one upvalue among all closures that capture the
 same stack slot, and `luaF_close` takes it off the stack without changing its value.
 */
module GcUpval {
  import opened GcHeap
  import opened GcMark
  import opened GcPropagate
  import opened GcState
  import opened GcSweep
  import opened GcCollect
  import opened GcAlloc

  // The walk down the open list: the first upvalue not above stack slot `level`
  function ScanOpen(h: Heap, us: seq<Ref>, level: nat, i: nat): (j: nat)
    requires i <= |us| && forall u :: u in us ==> u in h && OpenUpval(h[u].kind)
    ensures i <= j <= |us|
    ensures forall k :: i <= k < j ==> Level(h, us[k]) > level
    ensures j < |us| ==> Level(h, us[j]) <= level
    decreases |us| - i
  {
    if i == |us| || Level(h, us[i]) <= level then i else ScanOpen(h, us, level, i + 1)
  }

  predicate ThreadOk(h: Heap, t: Ref) {
    t in h && h[t].kind.Thread? && forall u :: u in h[t].kind.openupval ==> u in h && OpenUpval(h[u].kind)
  }

  // A new open upvalue at place `i` of the open list
  function AddUpval(s: State, t: Ref, level: nat, r: Ref, i: nat): State
    requires ThreadOk(s.h, t) && i <= |s.h[t].kind.openupval|
  {
    var us := s.h[t].kind.openupval;
    SetOpen(s, t, us[..i] + [r] + us[i..]).(
      h := SetOpen(s, t, us[..i] + [r] + us[i..]).h[r := Obj(Upval(Open(t, level)), [], [], [])],
      m := s.m.(color := s.m.color[r := s.white]), uvhead := [r] + s.uvhead)
  }

  // `luaF_findupval`: an upvalue found dead is revived; `r` is the address of a new one.
  function FindUpval(s: State, t: Ref, level: nat, r: Ref): (State, Ref)
    requires ThreadOk(s.h, t) && r !in s.h
  {
    var us := s.h[t].kind.openupval;
    var i := ScanOpen(s.h, us, level, 0);
    if i < |us| && Level(s.h, us[i]) == level then
      var o := us[i];
      (if Dead(s, o) then Whiten(s, o) else s, o)
    else (AddUpval(s, t, level, r, i), r)
  }

  lemma InvThreadOk(s: State, t: Ref)
    requires Inv(s) && t in s.h && s.h[t].kind.Thread?
    ensures ThreadOk(s.h, t)
  {
    assert OpenList(s.h, t, s.h[t].kind.openupval);
  }

  lemma ReviveUpvalSafe(s: State, u: Ref)
    requires Basic(s) && Safe(s) && u in s.h && AllLive(s, Refs(s.h, u))
    ensures Safe(Whiten(s, u)) && Live(Whiten(s, u), u)
  {
    var s' := Whiten(s, u);
    assert Roots(s') == Roots(s);
    hide Refs;
    forall x | Live(s', x) ensures AllLive(s', Refs(s'.h, x)) {
      if x != u { assert AllLive(s, Refs(s.h, x)); }
    }
  }

  lemma ReviveUpvalKeeps(s: State, u: Ref)
    requires Inv(s) && u in s.h && Dead(s, u) && OpenUpval(s.h[u].kind) && AllLive(s, Refs(s.h, u))
    ensures Inv(Whiten(s, u)) && Live(Whiten(s, u), u)
  {
    var s' := Whiten(s, u);
    assert White(s.white);
    ReviveUpvalSafe(s, u);
    hide Safe, Captures, Interned, Chained, Refs;
    if s.phase.SweepString? {
      forall b | 0 <= b < s'.sweepstrgc ensures WhiteBucket(s', b) { assert WhiteBucket(s, b); }
    } else if s.phase.Sweep? {
      WhitenObjects(s, u);
    }
  }

  // Which upvalue stands where in the longer list
  lemma AddedAt(us: seq<Ref>, r: Ref, i: nat)
    requires i <= |us|
    ensures var d := us[..i] + [r] + us[i..];
      |d| == |us| + 1 && forall j :: 0 <= j < |d| ==> d[j] == if j < i then us[j] else if j == i then r else us[j - 1]
  {
  }

  function AddedLevel(h: Heap, us: seq<Ref>, i: nat, level: nat, j: nat): nat
    requires i <= |us| && j <= |us| && forall x :: 0 <= x < |us| ==> us[x] in h && OpenUpval(h[us[x]].kind)
  {
    if j < i then Level(h, us[j]) else if j == i then level else Level(h, us[j - 1])
  }

  lemma AddedOrder(h: Heap, h': Heap, us: seq<Ref>, d: seq<Ref>, i: nat, level: nat)
    requires i <= |us| && |d| == |us| + 1 && (forall j :: 0 <= j < |d| ==> d[j] in h' && OpenUpval(h'[d[j]].kind))
    requires forall j :: 0 <= j < |us| ==> us[j] in h && OpenUpval(h[us[j]].kind)
    requires forall j, k :: 0 <= j < k < |us| ==> Level(h, us[j]) > Level(h, us[k])
    requires forall j :: 0 <= j < |d| ==> Level(h', d[j]) == AddedLevel(h, us, i, level, j)
    requires (forall k :: 0 <= k < i ==> Level(h, us[k]) > level) && (i < |us| ==> Level(h, us[i]) < level)
    ensures forall j, k :: 0 <= j < k < |d| ==> Level(h', d[j]) > Level(h', d[k])
  {
    forall j, k | 0 <= j < k < |d| ensures Level(h', d[j]) > Level(h', d[k]) {
      assert Level(h', d[j]) == AddedLevel(h, us, i, level, j) && Level(h', d[k]) == AddedLevel(h, us, i, level, k);
      if k < i { assert Level(h, us[j]) > Level(h, us[k]); }
      if j < i && k > i { assert Level(h, us[j]) > Level(h, us[k - 1]); }
      if j == i { assert k - 1 == i || Level(h, us[i]) > Level(h, us[k - 1]); }
      if j > i { assert Level(h, us[j - 1]) > Level(h, us[k - 1]); }
    }
  }

  // The new list keeps its strict order.
  lemma AddedOpenList(h: Heap, h': Heap, t: Ref, us: seq<Ref>, r: Ref, i: nat, level: nat)
    requires OpenList(h, t, us) && i <= |us| && r !in us
    requires forall u :: u in us ==> u in h' && h'[u].kind == h[u].kind
    requires r in h' && h'[r].kind == Upval(Open(t, level))
    requires forall k :: 0 <= k < i ==> Level(h, us[k]) > level
    requires i < |us| ==> Level(h, us[i]) < level
    ensures OpenList(h', t, us[..i] + [r] + us[i..])
  {
    var d := us[..i] + [r] + us[i..];
    AddedAt(us, r, i);
    forall u | u in d ensures u in h' && OpenUpval(h'[u].kind) && h'[u].kind.loc.thread == t {
      if u != r { assert u in us; }
    }
    forall j | 0 <= j < |d|
      ensures Level(h', d[j]) == AddedLevel(h, us, i, level, j)
    {
      if j < i { assert us[j] in us; }
      if j > i { assert us[j - 1] in us; }
    }
    AddedOrder(h, h', us, d, i, level);
  }

  lemma AddedUpvalOthers(s: State, t: Ref, level: nat, r: Ref, i: nat)
    requires Interned(s.h, s.strt) && Chained(s.h, s.rootgc) && r !in s.h
    requires ThreadOk(s.h, t) && i <= |s.h[t].kind.openupval|
    ensures var s' := AddUpval(s, t, level, r, i); Interned(s'.h, s'.strt) && Chained(s'.h, s'.rootgc)
  {
    hide Hash;
    forall b | 0 <= b < |s.strt| ensures InBucket(AddUpval(s, t, level, r, i).h, s.strt, b) && Distinct(s.strt[b]) {
      assert InBucket(s.h, s.strt, b);
    }
  }

  lemma AddedUpvalLists(s: State, t: Ref, level: nat, r: Ref, i: nat)
    requires Captures(s.h, s.uvhead) && r !in s.h
    requires ThreadOk(s.h, t) && i <= |s.h[t].kind.openupval| && level < |s.h[t].slots|
    requires forall k :: 0 <= k < i ==> Level(s.h, s.h[t].kind.openupval[k]) > level
    requires i < |s.h[t].kind.openupval| ==> Level(s.h, s.h[t].kind.openupval[i]) < level
    ensures var s' := AddUpval(s, t, level, r, i); Captures(s'.h, s'.uvhead)
  {
    var us := s.h[t].kind.openupval;
    var s' := AddUpval(s, t, level, r, i);
    var h' := s'.h;
    assert r !in us && r !in s.uvhead;
    assert OpenList(s.h, t, us);
    AddedOpenList(s.h, h', t, us, r, i, level);
    assert forall x :: x in us[..i] + [r] + us[i..] <==> x in us || x == r by {
      assert us == us[..i] + us[i..];
    }
    forall x | x in h' && h'[x].kind.Thread? ensures OpenList(h', x, h'[x].kind.openupval) {
      if x != t { assert OpenList(s.h, x, s.h[x].kind.openupval); }
    }
    forall u | u in h' && OpenUpval(h'[u].kind) ensures Attached(h', u) {
      if u != r { assert Attached(s.h, u); }
    }
    assert forall j :: 0 < j < |s'.uvhead| ==> s'.uvhead[j] == s.uvhead[j - 1];
  }

  lemma AddUpvalIsAdded(s: State, t: Ref, level: nat, r: Ref, i: nat)
    requires ThreadOk(s.h, t) && i <= |s.h[t].kind.openupval| && r !in s.h && r !in s.fixed
    requires Captures(s.h, s.uvhead)
    ensures Added(s, AddUpval(s, t, level, r, i), r) && Placed(s, AddUpval(s, t, level, r, i), r)
  {
    var s' := AddUpval(s, t, level, r, i);
    AddUpvalKeepsRefs(s, t, level, r, i);
    AddUpvalObjects(s, t, level, r, i);
    hide Refs, Captures, ThreadOk, AddUpval;
  }

  lemma AddUpvalKeepsRefs(s: State, t: Ref, level: nat, r: Ref, i: nat)
    requires ThreadOk(s.h, t) && i <= |s.h[t].kind.openupval| && r !in s.h && Captures(s.h, s.uvhead)
    ensures var h' := AddUpval(s, t, level, r, i).h; forall x :: x in s.h ==> x in h' && Refs(h', x) == Refs(s.h, x)
  {
    var h' := AddUpval(s, t, level, r, i).h;
    forall x | x in s.h ensures x in h' && Refs(h', x) == Refs(s.h, x) {
      if OpenUpval(s.h[x].kind) { assert Attached(s.h, x); }
    }
  }

  lemma AddUpvalObjects(s: State, t: Ref, level: nat, r: Ref, i: nat)
    requires ThreadOk(s.h, t) && i <= |s.h[t].kind.openupval| && r !in s.h
    ensures var s' := AddUpval(s, t, level, r, i);
      && s' == s.(h := s'.h, m := s.m.(color := s.m.color[r := s.white]), uvhead := s'.uvhead)
      && s'.h.Keys == s.h.Keys + {r} && s'.h[r] == Obj(Upval(Open(t, level)), [], [], [])
      && (forall x :: x in s.h && x != t ==> s'.h[x] == s.h[x])
      && s.h[t].kind.Thread? && s'.h[t] == s.h[t].(kind := s'.h[t].kind) && s'.h[t].kind.Thread?
  {
  }

  // Sharing: `luaF_findupval` returns a live open upvalue for exactly this slot, and it is
  // the only one there is; two captures of one slot therefore share one cell.
  lemma FindUpvalShared(s: State, t: Ref, level: nat, r: Ref)
    requires Inv(s) && Live(s, t) && s.h[t].kind.Thread? && level < |s.h[t].slots| && r !in s.h && r !in s.fixed
    ensures ThreadOk(s.h, t)
    ensures var (s', o) := FindUpval(s, t, level, r);
      && Inv(s') && Live(s', o) && OpenAt(s'.h, o, t, level)
      && (forall q :: OpenAt(s'.h, q, t, level) ==> q == o)
      && Slots(s'.h, o) == [s.h[t].slots[level]]
  {
    InvThreadOk(s, t);
    var us := s.h[t].kind.openupval;
    var i := ScanOpen(s.h, us, level, 0);
    var (s', o) := FindUpval(s, t, level, r);
    assert OpenList(s.h, t, us);
    if i < |us| && Level(s.h, us[i]) == level {
      assert o in us && Attached(s.h, o);
      SlotLive(s, t, level, o);
      if Dead(s, o) { ReviveUpvalKeeps(s, o); }
      OneUpvalPerSlot(s', t, level, o);
    } else {
      AddUpvalKeeps(s, t, level, r, i);
      OneUpvalPerSlot(s', t, level, o);
    }
  }

  lemma SlotLive(s: State, t: Ref, level: nat, o: Ref)
    requires Inv(s) && Live(s, t) && level < |s.h[t].slots| && OpenAt(s.h, o, t, level) && s.h[t].kind.Thread?
    ensures Slots(s.h, o) == [s.h[t].slots[level]] && AllLive(s, Refs(s.h, o))
  {
    assert Shaped(s.h[o]) && Refs(s.h, o) == [s.h[t].slots[level]];
    assert AllLive(s, Refs(s.h, t));
    assert s.h[t].slots[level] in Refs(s.h, t);
  }

  lemma Ordered(h: Heap, t: Ref, us: seq<Ref>, i: int, j: int)
    requires OpenList(h, t, us) && 0 <= i < |us| && 0 <= j < |us|
    ensures us[i] in h && us[j] in h && OpenUpval(h[us[i]].kind) && OpenUpval(h[us[j]].kind)
    ensures (i < j ==> Level(h, us[i]) > Level(h, us[j])) && (j < i ==> Level(h, us[j]) > Level(h, us[i]))
  {
    assert us[i] in us && us[j] in us;
  }

  lemma OneUpvalPerSlot(s: State, t: Ref, level: nat, o: Ref)
    requires Inv(s) && OpenAt(s.h, o, t, level)
    ensures forall q :: OpenAt(s.h, q, t, level) ==> q == o
  {
    hide Colors, Safe, Interned, Chained;
    assert Attached(s.h, o);
    forall q | OpenAt(s.h, q, t, level) ensures q == o {
      assert Attached(s.h, q);
      var us := s.h[t].kind.openupval;
      assert OpenList(s.h, t, us);
      var i :| 0 <= i < |us| && us[i] == o;
      var j :| 0 <= j < |us| && us[j] == q;
      Ordered(s.h, t, us, i, j);
    }
  }

  lemma AddedUpvalRefs(s: State, t: Ref, level: nat, r: Ref, i: nat)
    requires Safe(s) && Live(s, t) && ThreadOk(s.h, t) && level < |s.h[t].slots| && r !in s.h
    requires i <= |s.h[t].kind.openupval|
    ensures Refs(AddUpval(s, t, level, r, i).h, r) == [s.h[t].slots[level]]
    ensures Slots(AddUpval(s, t, level, r, i).h, r) == [s.h[t].slots[level]]
    ensures AllLive(s, [s.h[t].slots[level]])
  {
    assert AllLive(s, Refs(s.h, t)) && s.h[t].slots[level] in Refs(s.h, t);
  }

  lemma AddUpvalKeeps(s: State, t: Ref, level: nat, r: Ref, i: nat)
    requires Inv(s) && Live(s, t) && ThreadOk(s.h, t) && level < |s.h[t].slots| && r !in s.h && r !in s.fixed
    requires i <= |s.h[t].kind.openupval|
    requires forall k :: 0 <= k < i ==> Level(s.h, s.h[t].kind.openupval[k]) > level
    requires i < |s.h[t].kind.openupval| ==> Level(s.h, s.h[t].kind.openupval[i]) < level
    ensures var s' := AddUpval(s, t, level, r, i); Inv(s') && Live(s', r) && OpenAt(s'.h, r, t, level)
    ensures Slots(AddUpval(s, t, level, r, i).h, r) == [s.h[t].slots[level]]
  {
    hide Safe, Interned, Chained, Colors, Refs, Added, Placed, Captures, Tricolor, Marking;
    var s' := AddUpval(s, t, level, r, i);
    AddedUpvalRefs(s, t, level, r, i);
    assert White(s.white) && s.m.color.Keys == s.h.Keys;
    AddedUpvalLists(s, t, level, r, i);
    AddedUpvalOthers(s, t, level, r, i);
    AddUpvalIsAdded(s, t, level, r, i);
    AddedInv(s, s', r);
  }
}
