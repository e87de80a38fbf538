/**
 The sweep: dead objects leave their lists and are freed, all others turn to the current
 white. Each primitive change keeps the structural part of the invariant.
 */
module GcSweep {
  import opened GcHeap
  import opened GcMark
  import opened GcAtomic
  import opened GcState

  // The test of `sweeplist`: the object lacks the other white bit, or is fixed.
  predicate Keeps(s: State, r: Ref) {
    !Dead(s, r) || r in s.fixed
  }

  function Whiten(s: State, r: Ref): State {
    s.(m := SetColor(s.m, r, s.white))
  }

  function Forget(s: State, r: Ref): State {
    s.(h := s.h - {r}, m := s.m.(color := s.m.color - {r}))
  }

  function Drop(q: seq<Ref>, r: Ref): seq<Ref> {
    if q == [] then [] else if q[0] == r then q[1..] else [q[0]] + Drop(q[1..], r)
  }

  function RemoveAt(q: seq<Ref>, i: nat): seq<Ref>
    requires i < |q|
  {
    q[..i] + q[i + 1..]
  }

  function SetOpen(s: State, t: Ref, us: seq<Ref>): State
    requires t in s.h
  {
    s.(h := s.h[t := s.h[t].(kind := Thread(us))])
  }

  lemma DropLeaves(q: seq<Ref>, r: Ref)
    requires Distinct(q)
    ensures Distinct(Drop(q, r))
    ensures forall x :: x in Drop(q, r) <==> x in q && x != r
  {
    if q != [] && q[0] != r {
      DropLeaves(q[1..], r);
      var d := Drop(q[1..], r);
      assert forall x :: x in q <==> x == q[0] || x in q[1..];
      assert q[0] !in q[1..];
      assert forall i :: 0 < i < |[q[0]] + d| ==> ([q[0]] + d)[i] == d[i - 1];
    }
  }

  lemma RemoveAtLeaves(q: seq<Ref>, i: nat)
    requires Distinct(q) && i < |q|
    ensures Distinct(RemoveAt(q, i))
    ensures forall x :: x in RemoveAt(q, i) <==> x in q && x != q[i]
  {
    var d := RemoveAt(q, i);
    assert forall j :: 0 <= j < |d| ==> d[j] == if j < i then q[j] else q[j + 1];
    forall x | x in q && x != q[i] ensures x in d {
      var j :| 0 <= j < |q| && q[j] == x;
      assert d[if j < i then j else j - 1] == x;
    }
  }

  // ----- primitive changes -----

  lemma WhitenKeeps(s: State, r: Ref)
    requires Core(s) && r in s.h && Keeps(s, r)
    ensures Core(Whiten(s, r))
  {
    var s' := Whiten(s, r);
    assert s'.h == s.h && Roots(s') == Roots(s);
    assert forall x :: Live(s, x) ==> Live(s', x);
    forall x | Live(s', x) ensures AllLive(s', Refs(s'.h, x)) {
      if !Live(s, x) {
        assert x == r && r in s.fixed && r != s.main;
        assert Shaped(s.h[r]) && Refs(s.h, r) == [];
      }
    }
  }

  // A dead string leaves its bucket.
  function FreeString(s: State, b: nat, i: nat): State
    requires b < |s.strt| && i < |s.strt[b]|
  {
    Forget(s.(strt := s.strt[b := RemoveAt(s.strt[b], i)]), s.strt[b][i])
  }

  lemma ForgetKeepsSafe(s: State, r: Ref)
    requires Safe(s) && Dead(s, r) && s.m.color.Keys == s.h.Keys
    requires forall u, i :: OpenAt(s.h, u, r, i) ==> !Live(s, u)
    ensures Safe(Forget(s, r))
  {
    var s' := Forget(s, r);
    assert forall x :: Live(s', x) <==> Live(s, x);
    forall x | Live(s', x) ensures AllLive(s', Refs(s'.h, x)) {
      assert AllLive(s, Refs(s.h, x));
      assert Refs(s'.h, x) == Refs(s.h, x) by {
        if OpenUpval(s.h[x].kind) { assert OpenAt(s.h, x, s.h[x].kind.loc.thread, s.h[x].kind.loc.slot); }
      }
    }
  }

  lemma RootsSurvive(s: State, r: Ref)
    requires Basic(s) && Safe(s) && Dead(s, r) && r in s.h
    ensures Basic(Forget(s, r)) && r != s.main && r != s.running
  {
    assert Ptr(s.main) in Roots(s) && Ptr(s.running) in Roots(s);
    assert Live(s, s.main) && Live(s, s.running);
  }

  lemma ForgetString(h: Heap, uvhead: seq<Ref>, rootgc: seq<Ref>, r: Ref)
    requires r in h && h[r].kind.Str?
    ensures Captures(h, uvhead) ==> Captures(h - {r}, uvhead)
    ensures Chained(h, rootgc) ==> Chained(h - {r}, rootgc)
  {
    var h' := h - {r};
    if Captures(h, uvhead) {
      forall t | t in h' && h'[t].kind.Thread? ensures OpenList(h', t, h'[t].kind.openupval) {
        assert OpenList(h, t, h[t].kind.openupval);
      }
      forall u | u in h' && OpenUpval(h'[u].kind) ensures Attached(h', u) {
        assert Attached(h, u);
      }
    }
  }

  lemma UnhashString(h: Heap, strt: seq<seq<Ref>>, b: nat, i: nat)
    requires Interned(h, strt) && b < |strt| && i < |strt[b]|
    ensures Interned(h - {strt[b][i]}, strt[b := RemoveAt(strt[b], i)])
  {
    var r := strt[b][i];
    RemoveAtLeaves(strt[b], i);
    var h', strt' := h - {r}, strt[b := RemoveAt(strt[b], i)];
    hide Hash, RemoveAt;
    forall c | 0 <= c < |strt'| ensures InBucket(h', strt', c) && Distinct(strt'[c]) {
      assert InBucket(h, strt, c) && InBucket(h, strt, b);
      assert r in strt[b];
    }
  }

  lemma FreeStringKeeps(s: State, b: nat, i: nat)
    requires Core(s) && b < |s.strt| && i < |s.strt[b]| && !Keeps(s, s.strt[b][i])
    ensures Core(FreeString(s, b, i))
  {
    var r := s.strt[b][i];
    assert InBucket(s.h, s.strt, b) && r in s.strt[b];
    var s1 := s.(strt := s.strt[b := RemoveAt(s.strt[b], i)]);
    assert Roots(s1) == Roots(s) && Safe(s1) && Basic(s1);
    assert forall u, k :: !OpenAt(s.h, u, r, k);
    hide Interned, Chained, Captures, Basic, Safe, Refs;
    ForgetKeepsSafe(s1, r);
    RootsSurvive(s1, r);
    UnhashString(s.h, s.strt, b, i);
    ForgetString(s.h, s.uvhead, s.rootgc, r);
  }

  // ----- upvalues -----

  // `luaF_freeupval` on the open list of a thread: a dead upvalue leaves all lists.
  function FreeUpval(s: State, t: Ref, i: nat): State
    requires t in s.h && s.h[t].kind.Thread? && i < |s.h[t].kind.openupval|
  {
    var u := s.h[t].kind.openupval[i];
    Forget(SetOpen(s, t, RemoveAt(s.h[t].kind.openupval, i)).(uvhead := Drop(s.uvhead, u)), u)
  }

  // The heap once upvalue `u` has left the open list of thread `t`, closed or freed.
  ghost predicate Detached(h: Heap, h': Heap, t: Ref, i: nat)
    requires t in h && h[t].kind.Thread? && i < |h[t].kind.openupval|
  {
    var u := h[t].kind.openupval[i];
    && t in h' && h'[t] == h[t].(kind := Thread(RemoveAt(h[t].kind.openupval, i)))
    && (forall x :: x != t && x != u ==> (x in h' <==> x in h) && (x in h ==> h'[x] == h[x]))
    && (u in h' ==> u in h && h'[u].kind == Upval(Closed))
  }

  lemma DetachedOpenList(h: Heap, h': Heap, t: Ref, i: nat)
    requires t in h && h[t].kind.Thread? && i < |h[t].kind.openupval| && Detached(h, h', t, i)
    requires OpenList(h, t, h[t].kind.openupval)
    ensures OpenList(h', t, h'[t].kind.openupval)
    ensures h[t].kind.openupval[i] !in h'[t].kind.openupval
  {
    var us := h[t].kind.openupval;
    var us' := RemoveAt(us, i);
    forall j, k | 0 <= j < k < |us| ensures us[j] != us[k] {
      assert Level(h, us[j]) > Level(h, us[k]);
    }
    RemoveAtLeaves(us, i);
    assert forall j :: 0 <= j < |us'| ==> us'[j] == us[if j < i then j else j + 1];
    forall j, k | 0 <= j < k < |us'| ensures Level(h', us'[j]) > Level(h', us'[k]) {
      assert us'[j] in us' && us'[k] in us';
      assert Level(h, us[if j < i then j else j + 1]) > Level(h, us[if k < i then k else k + 1]);
    }
  }

  lemma DetachedCaptures(h: Heap, h': Heap, uvhead: seq<Ref>, t: Ref, i: nat)
    requires Captures(h, uvhead)
    requires t in h && h[t].kind.Thread? && i < |h[t].kind.openupval| && Detached(h, h', t, i)
    ensures Captures(h', Drop(uvhead, h[t].kind.openupval[i]))
  {
    var us := h[t].kind.openupval;
    var u := us[i];
    assert OpenList(h, t, us) && u in us;
    DetachedOpenList(h, h', t, i);
    DropLeaves(uvhead, u);
    RemoveAtLeavesOpen(h, t, us, i);
    hide RemoveAt, Drop;
    forall t' | t' in h' && h'[t'].kind.Thread? ensures OpenList(h', t', h'[t'].kind.openupval) {
      if t' != t { assert OpenList(h, t', h[t'].kind.openupval); }
    }
    forall x | x in h' && OpenUpval(h'[x].kind) ensures Attached(h', x) {
      assert Attached(h, x) && x != u;
    }
    assert AllOpen(h', Drop(uvhead, u));
  }

  lemma RemoveAtLeavesOpen(h: Heap, t: Ref, us: seq<Ref>, i: nat)
    requires OpenList(h, t, us) && i < |us|
    ensures forall x :: x in RemoveAt(us, i) <==> x in us && x != us[i]
  {
    forall j, k | 0 <= j < k < |us| ensures us[j] != us[k] {
      assert Level(h, us[j]) > Level(h, us[k]);
    }
    RemoveAtLeaves(us, i);
  }

  lemma DetachedLists(h: Heap, h': Heap, t: Ref, i: nat)
    requires t in h && h[t].kind.Thread? && i < |h[t].kind.openupval| && Detached(h, h', t, i)
    requires OpenList(h, t, h[t].kind.openupval)
    ensures forall strt :: Interned(h, strt) ==> Interned(h', strt)
    ensures forall q :: Chained(h, q) ==>
              Chained(h', if h[t].kind.openupval[i] in h' then [h[t].kind.openupval[i]] + q else q)
  {
    var u := h[t].kind.openupval[i];
    assert u in h[t].kind.openupval;
    forall strt | Interned(h, strt) ensures Interned(h', strt) {
      hide Hash;
      forall b | 0 <= b < |strt| ensures InBucket(h', strt, b) && Distinct(strt[b]) {
        assert InBucket(h, strt, b);
      }
    }
    forall q | Chained(h, q) ensures Chained(h', if u in h' then [u] + q else q) {
      assert u !in q;
      assert forall i :: 0 < i < |[u] + q| ==> ([u] + q)[i] == q[i - 1];
    }
  }

  // A live upvalue shows the same value before and after it is closed or others are.
  lemma DetachedRefs(h: Heap, h': Heap, t: Ref, i: nat, x: Ref)
    requires t in h && h[t].kind.Thread? && i < |h[t].kind.openupval| && Detached(h, h', t, i)
    requires OpenList(h, t, h[t].kind.openupval) && Shaped(h[h[t].kind.openupval[i]])
    requires h[t].kind.openupval[i] in h' ==>
               h'[h[t].kind.openupval[i]] == Obj(Upval(Closed), Slots(h, h[t].kind.openupval[i]), [], [])
    requires x in h && x in h'
    requires OpenUpval(h[x].kind) ==> h[x].kind.loc.thread != h[t].kind.openupval[i]
    ensures Refs(h', x) == Refs(h, x) && Same(h, h', x)
  {
  }

  lemma SameRefsSafe(s: State, s': State)
    requires Safe(s) && Roots(s') == Roots(s) && s'.white == s.white && s'.m.color == s.m.color
    requires s'.h.Keys == s.h.Keys && forall x :: x in s.h ==> Refs(s'.h, x) == Refs(s.h, x)
    ensures Safe(s')
  {
    hide Refs;
    forall x | Live(s', x) ensures AllLive(s', Refs(s'.h, x)) {
      assert AllLive(s, Refs(s.h, x));
    }
  }

  lemma SetOpenSafe(s: State, t: Ref, us: seq<Ref>, q: seq<Ref>)
    requires Basic(s) && Safe(s) && t in s.h && s.h[t].kind.Thread?
    ensures Basic(SetOpen(s, t, us).(uvhead := q)) && Safe(SetOpen(s, t, us).(uvhead := q))
  {
    SameRefsSafe(s, SetOpen(s, t, us).(uvhead := q));
  }

  lemma FreeUpvalKeeps(s: State, t: Ref, i: nat)
    requires Core(s) && t in s.h && s.h[t].kind.Thread? && i < |s.h[t].kind.openupval|
    requires !Keeps(s, s.h[t].kind.openupval[i])
    ensures Core(FreeUpval(s, t, i))
  {
    var us := s.h[t].kind.openupval;
    var u := us[i];
    var s' := FreeUpval(s, t, i);
    assert OpenList(s.h, t, us) && u in us;
    assert Detached(s.h, s'.h, t, i);
    DetachedCaptures(s.h, s'.h, s.uvhead, t, i);
    DetachedLists(s.h, s'.h, t, i);
    var s1 := SetOpen(s, t, RemoveAt(us, i)).(uvhead := Drop(s.uvhead, u));
    assert forall x, k :: !OpenAt(s1.h, x, u, k);
    hide Captures, OpenList, Interned, Chained, Detached, Basic, Safe, RemoveAt, Drop;
    SetOpenSafe(s, t, RemoveAt(us, i), Drop(s.uvhead, u));
    ForgetKeepsSafe(s1, u);
    RootsSurvive(s1, u);
  }

  // `luaF_close` for one upvalue that is not dead: its value moves into the upvalue, which
  // from now on is chained with the other objects.
  function CloseFirst(s: State, t: Ref): State
    requires t in s.h && s.h[t].kind.Thread? && |s.h[t].kind.openupval| > 0
    requires s.h[t].kind.openupval[0] in s.h
  {
    var u := s.h[t].kind.openupval[0];
    var s1 := SetOpen(s, t, RemoveAt(s.h[t].kind.openupval, 0)).(uvhead := Drop(s.uvhead, u));
    LinkHead(s1.(h := s1.h[u := Obj(Upval(Closed), Slots(s.h, u), [], [])]), u)
  }

  // A new first element of `rootgc`; a sweep that has not started stays at the start.
  function LinkHead(s: State, r: Ref): State {
    s.(rootgc := [r] + s.rootgc, sweepgc := if s.sweepgc == 0 then 0 else s.sweepgc + 1)
  }

  lemma CloseFirstRefs(s: State, t: Ref)
    requires (forall r :: r in s.h ==> Shaped(s.h[r])) && Captures(s.h, s.uvhead)
    requires t in s.h && s.h[t].kind.Thread? && |s.h[t].kind.openupval| > 0
    requires s.h[t].kind.openupval[0] in s.h
    ensures Detached(s.h, CloseFirst(s, t).h, t, 0)
    ensures CloseFirst(s, t).h.Keys == s.h.Keys
    ensures forall x :: x in s.h ==> Refs(CloseFirst(s, t).h, x) == Refs(s.h, x) && Same(s.h, CloseFirst(s, t).h, x)
  {
    var us := s.h[t].kind.openupval;
    var s' := CloseFirst(s, t);
    assert OpenList(s.h, t, us) && us[0] in us;
    forall x | x in s.h ensures Refs(s'.h, x) == Refs(s.h, x) && Same(s.h, s'.h, x) {
      assert OpenUpval(s.h[x].kind) ==> Attached(s.h, x);
      DetachedRefs(s.h, s'.h, t, 0, x);
    }
  }

  lemma ClosedBasic(s: State, t: Ref)
    requires Basic(s) && t in s.h && s.h[t].kind.Thread? && |s.h[t].kind.openupval| > 0
    requires s.h[t].kind.openupval[0] in s.h && s.h[s.h[t].kind.openupval[0]].kind.Upval?
    ensures Basic(CloseFirst(s, t))
  {
  }

  lemma CloseFirstKeeps(s: State, t: Ref)
    requires Core(s) && t in s.h && s.h[t].kind.Thread? && |s.h[t].kind.openupval| > 0
    requires s.h[t].kind.openupval[0] in s.h
    ensures Core(CloseFirst(s, t))
  {
    var us := s.h[t].kind.openupval;
    var s' := CloseFirst(s, t);
    assert OpenList(s.h, t, us) && us[0] in us;
    CloseFirstRefs(s, t);
    DetachedCaptures(s.h, s'.h, s.uvhead, t, 0);
    DetachedLists(s.h, s'.h, t, 0);
    assert Roots(s') == Roots(s);
    ClosedBasic(s, t);
    SameRefsSafe(s, s');
  }

  // ----- the other objects -----

  function FreeRoot(s: State, r: Ref): State {
    Forget(s.(rootgc := Drop(s.rootgc, r)), r)
  }

  lemma ForgetListed(h: Heap, uvhead: seq<Ref>, strt: seq<seq<Ref>>, q: seq<Ref>, r: Ref)
    requires Captures(h, uvhead) && Interned(h, strt) && Chained(h, q) && r in q
    requires r in h && h[r].kind.Thread? ==> h[r].kind.openupval == []
    ensures Captures(h - {r}, uvhead) && Interned(h - {r}, strt) && Chained(h - {r}, Drop(q, r))
  {
    var h' := h - {r};
    DropLeaves(q, r);
    forall t | t in h' && h'[t].kind.Thread? ensures OpenList(h', t, h'[t].kind.openupval) {
      assert OpenList(h, t, h[t].kind.openupval);
    }
    forall u | u in h' && OpenUpval(h'[u].kind) ensures Attached(h', u) {
      assert Attached(h, u);
    }
    hide Hash;
    forall b | 0 <= b < |strt| ensures InBucket(h', strt, b) && Distinct(strt[b]) {
      assert InBucket(h, strt, b);
    }
  }

  lemma FreeRootKeeps(s: State, r: Ref)
    requires Core(s) && r in s.rootgc && !Keeps(s, r)
    requires r in s.h && s.h[r].kind.Thread? ==> s.h[r].kind.openupval == []
    ensures Core(FreeRoot(s, r))
  {
    var s1 := s.(rootgc := Drop(s.rootgc, r));
    assert Roots(s1) == Roots(s) && Safe(s1) && Basic(s1);
    assert forall x, k :: !OpenAt(s.h, x, r, k);
    ForgetListed(s.h, s.uvhead, s.strt, s.rootgc, r);
    hide Captures, Chained, Interned, Basic, Safe, Drop;
    ForgetKeepsSafe(s1, r);
    RootsSurvive(s1, r);
  }
}
