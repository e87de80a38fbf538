/**
 The whole collector state and the invariant every step of the program and of the collector
 keeps.
 */
module GcState {
  import opened GcHeap
  import opened GcMark
  import opened GcPropagate
  import opened GcAtomic

  datatype Phase = Pause | Propagate | SweepString | Sweep | Finalize

  // `rootgc` chains all objects except strings and open upvalues; `sweepgc` is the place
  // in it the sweep has reached. `strt` are the buckets of the string table. `uvhead` links
  // the open upvalues of all threads. `main`, `running`, `registry` and `mt` are the roots.
  datatype State = State(
    h: Heap, m: Mark, fixed: set<Ref>, white: Color, phase: Phase,
    rootgc: seq<Ref>, sweepgc: nat, strt: seq<seq<Ref>>, sweepstrgc: nat, uvhead: seq<Ref>,
    main: Ref, running: Ref, registry: Value, mt: seq<Value>)

  function Roots(s: State): seq<Value> {
    [Ptr(s.main), Ptr(s.running), s.registry] + s.mt
  }

  // `isdead`: the object carries the white of the previous cycle.
  predicate Dead(s: State, r: Ref) {
    r in s.m.color && s.m.color[r] == Flip(s.white)
  }

  predicate Live(s: State, r: Ref) {
    r in s.h && !Dead(s, r)
  }

  predicate AllLive(s: State, vs: seq<Value>) {
    forall v :: v in vs && v.Ptr? ==> Live(s, v.ref)
  }

  // Nothing live refers to anything dead or freed.
  ghost predicate Safe(s: State) {
    && AllLive(s, Roots(s))
    && forall r :: Live(s, r) ==> AllLive(s, Refs(s.h, r))
  }

  ghost predicate Basic(s: State) {
    && s.m.color.Keys == s.h.Keys
    && White(s.white)
    && (forall r :: r in s.h ==> Shaped(s.h[r]))
    && (forall r :: r in s.h && s.h[r].kind.Thread? ==> |s.h[r].slots| > 0)
    && s.main in s.h && s.h[s.main].kind.Thread? && s.running in s.h && s.h[s.running].kind.Thread?
    && (forall r :: r in s.fixed && r in s.h ==> r == s.main || s.h[r].kind.Str?)
    && s.main in s.fixed
  }

  // ----- upvalues -----

  predicate OpenAt(h: Heap, u: Ref, t: Ref, i: nat) {
    u in h && h[u].kind == Upval(Open(t, i))
  }

  function Level(h: Heap, u: Ref): nat
    requires u in h && OpenUpval(h[u].kind)
  {
    h[u].kind.loc.slot
  }

  // The open list of a thread is ordered by stack slot, with at most one upvalue per slot.
  ghost predicate OpenList(h: Heap, t: Ref, us: seq<Ref>) {
    && (forall u :: u in us ==> u in h && OpenUpval(h[u].kind) && h[u].kind.loc.thread == t)
    && (forall i, j :: 0 <= i < j < |us| ==> Level(h, us[i]) > Level(h, us[j]))
  }

  // Every open upvalue is on the open list of the thread whose stack it points into.
  ghost predicate Attached(h: Heap, u: Ref)
    requires u in h && OpenUpval(h[u].kind)
  {
    var t := h[u].kind.loc.thread;
    t in h && h[t].kind.Thread? && h[u].kind.loc.slot < |h[t].slots| && u in h[t].kind.openupval
  }

  ghost predicate Captures(h: Heap, uvhead: seq<Ref>) {
    && (forall t :: t in h && h[t].kind.Thread? ==> OpenList(h, t, h[t].kind.openupval))
    && (forall u :: u in h && OpenUpval(h[u].kind) ==> Attached(h, u))
    && AllOpen(h, uvhead) && Distinct(uvhead)
  }

  // ----- strings -----

  // The hash of `luaS_newlstr`, on 32 bits; long strings contribute only some characters.
  function HashFrom(text: string, l1: nat, step: nat, h: bv32): bv32
    requires step > 0
    decreases l1
  {
    if l1 < step || l1 > |text| then h
    else
      HashFrom(text, l1 - step, step,
               h ^ ((h << 5) + (h >> 2) + ((text[l1 - 1] as int % 256) as bv32)))
  }

  function Hash(text: string): nat {
    HashFrom(text, |text|, |text| / 32 + 1, (|text| % 0x1_0000_0000) as bv32) as nat
  }

  function Bucket(text: string, size: nat): (b: nat)
    requires size > 0
    ensures b < size
  {
    Hash(text) % size
  }

  // Every string is in the bucket of its hash, and no other string has its text.
  ghost predicate Interned(h: Heap, strt: seq<seq<Ref>>) {
    && |strt| > 0
    && (forall r :: r in h && h[r].kind.Str? ==> r in strt[Bucket(h[r].kind.text, |strt|)])
    && (forall b :: 0 <= b < |strt| ==> InBucket(h, strt, b) && Distinct(strt[b]))
    && (forall r, q :: r in h && q in h && h[r].kind.Str? && h[q].kind == h[r].kind ==> r == q)
  }

  ghost predicate InBucket(h: Heap, strt: seq<seq<Ref>>, b: nat)
    requires b < |strt|
  {
    forall r :: r in strt[b] ==> r in h && h[r].kind.Str? && Bucket(h[r].kind.text, |strt|) == b
  }

  // ----- the root list -----

  predicate OnRootList(k: Kind) {
    !k.Str? && !OpenUpval(k)
  }

  ghost predicate Chained(h: Heap, rootgc: seq<Ref>) {
    && Distinct(rootgc)
    && (forall r :: r in rootgc <==> r in h && OnRootList(h[r].kind))
  }

  // ----- colours -----

  // Between cycles every object has the current white.
  ghost predicate AllWhite(s: State) {
    forall r :: r in s.h && r in s.m.color ==> s.m.color[r] == s.white
  }

  ghost predicate NoneDead(s: State) {
    forall r :: r in s.h ==> !Dead(s, r)
  }

  // While marking, the tri-colour invariant holds and the roots that do not change are
  // marked; the other roots have no barrier and are marked at the end.
  ghost predicate Marking(s: State) {
    NoneDead(s) && Tricolor(s.h, s.m, {}) && Colored(s.m.color, [Ptr(s.main), s.registry])
  }

  // The buckets before `sweepstrgc` have been swept.
  ghost predicate SweepingStrings(s: State) {
    && KindColors(s.h, s.m.color, {})
    && s.sweepstrgc < |s.strt| && s.sweepgc == 0
    && forall b :: 0 <= b < s.sweepstrgc ==> WhiteBucket(s, b)
  }

  ghost predicate WhiteBucket(s: State, b: nat)
    requires b < |s.strt|
  {
    forall r :: r in s.strt[b] && r in s.m.color ==> s.m.color[r] == s.white
  }

  // All strings and the objects before `sweepgc` have been swept.
  ghost predicate SweepingObjects(s: State) {
    && KindColors(s.h, s.m.color, {})
    && s.sweepgc <= |s.rootgc|
    && (forall r :: r in s.h && r in s.m.color && s.h[r].kind.Str? ==> s.m.color[r] == s.white)
    && (forall i :: 0 <= i < s.sweepgc ==> Swept(s, s.rootgc[i]))
  }

  ghost predicate Colors(s: State) {
    match s.phase
    case Pause => AllWhite(s)
    case Propagate => Marking(s)
    case SweepString => SweepingStrings(s)
    case Sweep => SweepingObjects(s)
    case Finalize => AllWhite(s)
  }

  // The sweep has passed an object, and the open upvalues of a thread with it.
  ghost predicate Swept(s: State, r: Ref) {
    && r in s.h && r in s.m.color && s.m.color[r] == s.white
    && (s.h[r].kind.Thread? ==>
          forall u :: u in s.h[r].kind.openupval ==> u in s.m.color && s.m.color[u] == s.white)
  }

  // The invariant without what depends on the phase
  ghost predicate Core(s: State) {
    Basic(s) && Safe(s) && Captures(s.h, s.uvhead) && Interned(s.h, s.strt) && Chained(s.h, s.rootgc)
  }

  ghost predicate Inv(s: State) {
    Core(s) && Colors(s)
  }
}
