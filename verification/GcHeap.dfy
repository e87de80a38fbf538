/**
 The objects a Lua 5.1 state allocates, as the collector sees them: every collectable
 object has a kind, the values it refers to, and a colour.
 */
module GcHeap {
  // The address of an object.
  type Ref = int

  // A value is either not collectable (nil, a boolean, a number or a light userdata, told
  // apart by some number), or a reference to a collectable object.
  datatype Value = Plain(content: int) | Ptr(ref: Ref)

  const NIL := Plain(0)

  // What `removeentry` leaves of a key
  function DeadKey(k: Value): Value {
    if k.Ptr? then NIL else k
  }

  // Where an upvalue keeps its value: in itself, or in a slot of a live thread's stack.
  datatype Loc = Closed | Open(thread: Ref, slot: nat)

  datatype Kind =
    | Str(text: string)
    | Udata
    | Upval(loc: Loc)
    | Closure
    | Proto
    | Table(weakKeys: bool, weakVals: bool)
    | Thread(openupval: seq<Ref>)

  // `slots` are always strong: metatable and environment of a userdata, the value of a
  // closed upvalue, environment/prototype/upvalues of a closure, constants of a
  // prototype, the metatable of a table, the globals and the stack of a thread.
  // Entry i of a table is `keys[i] -> vals[i]`; its weak mode says which half is weak.
  datatype Obj = Obj(kind: Kind, slots: seq<Value>, keys: seq<Value>, vals: seq<Value>)

  // Only tables have entries, and strings refer to nothing.
  predicate Shaped(o: Obj) {
    && |o.keys| == |o.vals|
    && (!o.kind.Table? ==> o.keys == [])
    && (o.kind.Str? ==> o.slots == [])
  }

  type Heap = map<Ref, Obj>

  datatype Color = White0 | White1 | Gray | Black

  predicate White(c: Color) {
    c.White0? || c.White1?
  }

  function Flip(c: Color): Color {
    match c
    case White0 => White1
    case White1 => White0
    case _ => c
  }

  // The kinds that wait on a gray list instead of being marked through at once.
  predicate Listed(k: Kind) {
    k.Closure? || k.Proto? || k.Table? || k.Thread?
  }

  predicate Weak(k: Kind) {
    k.Table? && (k.weakKeys || k.weakVals)
  }

  predicate OpenUpval(k: Kind) {
    k.Upval? && k.loc.Open?
  }

  // The value an open upvalue shows is the one its stack slot holds now.
  function Slots(h: Heap, r: Ref): seq<Value>
    requires r in h
  {
    match h[r].kind
    case Upval(Open(t, i)) => if t in h && i < |h[t].slots| then [h[t].slots[i]] else []
    case _ => h[r].slots
  }

  // Everything `r` refers to, weakly or strongly.
  function Refs(h: Heap, r: Ref): seq<Value>
    requires r in h
  {
    Slots(h, r) + h[r].keys + h[r].vals
  }

  // Threads and upvalues stay what they are, though upvalues may be closed.
  predicate SameKind(k: Kind, k': Kind) {
    if k.Thread? then k'.Thread? else if k.Upval? then k'.Upval? else k' == k
  }

  // The object shows the same contents.
  predicate Same(h: Heap, h': Heap, r: Ref)
    requires r in h && r in h'
  {
    SameKind(h[r].kind, h'[r].kind) && Slots(h', r) == Slots(h, r) && h'[r].keys == h[r].keys && h'[r].vals == h[r].vals
  }

  // What marking `r` through has to mark.
  function Strong(h: Heap, r: Ref): seq<Value>
    requires r in h
  {
    match h[r].kind
    case Table(wk, wv) =>
      Slots(h, r) + (if wk then [] else h[r].keys) + (if wv then [] else h[r].vals)
    case _ => Refs(h, r)
  }

  // Reachability: a path is a sequence of objects, each referring to the next.
  ghost predicate Path(h: Heap, p: seq<Ref>) {
    && (forall i :: 0 <= i < |p| ==> p[i] in h)
    && (forall i :: 0 < i < |p| ==> Ptr(p[i]) in Refs(h, p[i - 1]))
  }

  ghost predicate Reachable(h: Heap, roots: seq<Value>, r: Ref) {
    exists p :: Path(h, p) && |p| > 0 && Ptr(p[0]) in roots && p[|p| - 1] == r
  }

  // A set of objects that contains the roots and everything its members refer to.
  ghost predicate ClosedSet(h: Heap, roots: seq<Value>, x: set<Ref>) {
    && (forall r :: Ptr(r) in roots ==> r in x)
    && (forall r, c :: r in x && r in h && Ptr(c) in Refs(h, r) ==> c in x)
  }

  lemma {:induction false} PathStaysInside(h: Heap, roots: seq<Value>, x: set<Ref>, p: seq<Ref>, i: nat)
    requires ClosedSet(h, roots, x) && Path(h, p) && i < |p| && Ptr(p[0]) in roots
    ensures p[i] in x
  {
    if i > 0 {
      PathStaysInside(h, roots, x, p, i - 1);
      assert Ptr(p[i]) in Refs(h, p[i - 1]);
    }
  }

  lemma ReachableInside(h: Heap, roots: seq<Value>, x: set<Ref>, r: Ref)
    requires ClosedSet(h, roots, x) && Reachable(h, roots, r)
    ensures r in x
  {
    var p :| Path(h, p) && |p| > 0 && Ptr(p[0]) in roots && p[|p| - 1] == r;
    PathStaysInside(h, roots, x, p, |p| - 1);
  }

  // A path that uses no weak half of an entry
  ghost predicate StrongPath(h: Heap, p: seq<Ref>) {
    && (forall i :: 0 <= i < |p| ==> p[i] in h)
    && (forall i :: 0 < i < |p| ==> Ptr(p[i]) in Strong(h, p[i - 1]))
  }

  ghost predicate StronglyReachable(h: Heap, roots: seq<Value>, r: Ref) {
    exists p :: StrongPath(h, p) && |p| > 0 && Ptr(p[0]) in roots && p[|p| - 1] == r
  }

  lemma StrongIsReachable(h: Heap, roots: seq<Value>, r: Ref)
    requires StronglyReachable(h, roots, r)
    ensures Reachable(h, roots, r)
  {
    var p :| StrongPath(h, p) && |p| > 0 && Ptr(p[0]) in roots && p[|p| - 1] == r;
    forall i | 0 < i < |p| ensures Ptr(p[i]) in Refs(h, p[i - 1]) {
      assert Ptr(p[i]) in Strong(h, p[i - 1]);
    }
    assert Path(h, p);
  }

  // The strongly reachable objects are closed under strong references.
  lemma StrongSetIsClosed(h: Heap, roots: seq<Value>) returns (x: set<Ref>)
    requires forall r, c :: r in h && StronglyReachable(h, roots, r) && Ptr(c) in Strong(h, r) ==> c in h
    requires forall r :: Ptr(r) in roots ==> r in h
    ensures x == set r | r in h && StronglyReachable(h, roots, r)
    ensures forall r :: Ptr(r) in roots ==> r in x
    ensures forall r, c :: r in x && r in h && Ptr(c) in Strong(h, r) ==> c in x
  {
    x := set r | r in h && StronglyReachable(h, roots, r);
    hide Strong;
    forall r | Ptr(r) in roots ensures r in x {
      assert StrongPath(h, [r]) && [r][0] == r;
    }
    forall r, c | r in x && r in h && Ptr(c) in Strong(h, r) ensures c in x {
      var p :| StrongPath(h, p) && |p| > 0 && Ptr(p[0]) in roots && p[|p| - 1] == r;
      var q := p + [c];
      forall i | 0 < i < |q| ensures Ptr(q[i]) in Strong(h, q[i - 1]) {
        if i < |p| { assert q[i] == p[i] && q[i - 1] == p[i - 1]; }
      }
      assert StrongPath(h, q) && Ptr(q[0]) in roots && q[|q| - 1] == c;
    }
  }

  // A string that a weak table refers to, and the table is strongly reachable: strings count
  // as values, so that no entry is removed for them.
  ghost predicate WeakString(h: Heap, roots: seq<Value>, r: Ref) {
    r in h && h[r].kind.Str? &&
    exists t :: t in h && StronglyReachable(h, roots, t) && Weak(h[t].kind) && Ptr(r) in Refs(h, t)
  }
}
