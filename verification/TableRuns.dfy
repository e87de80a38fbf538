/**
 Whole runs on a table: what it answers is what a map answers, and a traversal finds
 every entry that keeps a value.
 */
module TableRuns {
  import opened TableNodes
  import opened TableSizes
  import opened TableObject
  import opened Wrappers
  import opened Powers

  datatype Op = OpGet(k: Key) | OpSet(k: Key, v: Option<Value>) | OpLength | OpResize(size: nat)

  datatype Answer = Found(v: Option<Value>) | Done | Failed(error: Error) | Length(n: nat)

  // The answer of a map to an operation, and the map after it
  ghost predicate Answers(m: map<Key, Value>, op: Op, a: Answer, m': map<Key, Value>) {
    match op
    case OpGet(k) => a == Found(if k in m then Some(m[k]) else None) && m' == m
    case OpSet(k, v) =>
      if k.Nil? then a == Failed(NilIndex) && m' == m
      else if k.NaN? then a == Failed(NaNIndex) && m' == m
      else (a == Failed(Overflow) && |m| >= Pow2(MAXBITS)) || (a == Done && m' == Updated(m, k, v))
    case OpLength => a.Length? && (a.n == 0 || Int(a.n) in m) && Int(a.n + 1) !in m && m' == m
    case OpResize(_) => a == Done && m' == m
  }

  // A run answers like a map; it ends early when a full table overflows.
  ghost predicate AnswersAll(m: map<Key, Value>, ops: seq<Op>, answers: seq<Answer>)
    decreases |ops|
  {
    if ops == [] then answers == []
    else
      && answers != []
      && if answers[0] == Failed(Overflow) then |answers| == 1 && ops[0].OpSet? && |m| >= Pow2(MAXBITS)
         else exists m' :: Answers(m, ops[0], answers[0], m') && AnswersAll(m', ops[1..], answers[1..])
  }

  method Perform(t: Table, op: Op) returns (a: Answer)
    requires t.Valid()
    modifies t, t.node
    ensures fresh(t.node) || t.node == old(t.node)
    ensures Answers(old(t.Contents()), op, a, t.Contents())
    ensures a == Failed(Overflow) ==> op.OpSet? && |old(t.Contents())| >= Pow2(MAXBITS)
    ensures a != Failed(Overflow) ==> t.Valid()
  {
    hide t.Valid, MapOf, Pow2;
    match op
    case OpGet(k) =>
      var v := t.Get(k);
      a := Found(v);
    case OpSet(k, v) =>
      var e := t.Put(k, v);
      a := if e.Some? then Failed(e.value) else Done;
    case OpLength =>
      var n := t.GetN();
      a := Length(n);
    case OpResize(size) =>
      if |t.arr| < size <= MAXASIZE { t.ResizeArray(size); }
      a := Done;
  }

  lemma GrowsByOne(m: map<Key, Value>, op: Op, a: Answer, m': map<Key, Value>)
    requires Answers(m, op, a, m') && a != Failed(Overflow)
    ensures |m'| <= |m| + 1
  {
    if op.OpSet? { UpdatedSize(m, op.k, op.v); }
  }

  // A table is a map: it answers every operation, unless it may have grown to 2^26 entries.
  method Execute(t: Table, ops: seq<Op>) returns (answers: seq<Answer>)
    requires t.Valid()
    modifies t, t.node
    ensures AnswersAll(old(t.Contents()), ops, answers)
    ensures |old(t.Contents())| + |ops| <= Pow2(MAXBITS) ==>
      |answers| == |ops| && forall i :: 0 <= i < |answers| ==> answers[i] != Failed(Overflow)
    decreases |ops|
  {
    hide t.Valid, MapOf, Pow2;
    ghost var m := t.Contents();
    if ops == [] { return []; }
    var a := Perform(t, ops[0]);
    if a == Failed(Overflow) { return [a]; }
    GrowsByOne(m, ops[0], a, t.Contents());
    var rest := Execute(t, ops[1..]);
    answers := [a] + rest;
    assert answers[1..] == rest;
  }

  // ----- traversal -----

  datatype Edit = Edit(k: Key, v: Option<Value>)

  // No edit of the traversal sets the key to nil.
  ghost predicate Kept(edits: seq<seq<Edit>>, k: Key) {
    forall i :: 0 <= i < |edits| ==> KeptBy(edits[i], k)
  }

  ghost predicate KeptBy(edits: seq<Edit>, k: Key) {
    forall j :: 0 <= j < |edits| && edits[j].k == k ==> edits[j].v.Some?
  }

  // The places of the entries: the array has `n` of them, the nodes have the keys `ks`.
  datatype Places = Places(n: nat, ks: seq<Key>) {
    function Size(): nat {
      n + |ks|
    }

    function KeyAt(p: nat): Key
      requires p < Size()
    {
      if p < n then Int(p + 1) else ks[p - n]
    }

    predicate IsIndex(k: Key, p: int) {
      if k.Nil? then p == -1 else 0 <= p < Size() && KeyAt(p) == k
    }

    predicate Has(k: Key) {
      !k.Nil? && (Within(k, 0, n) || k in ks)
    }

    // No two places have one key.
    ghost predicate Apart() {
      forall p, q :: 0 <= p < Size() && 0 <= q < Size() && KeyAt(p) == KeyAt(q) && !KeyAt(p).Nil? ==> p == q
    }
  }

  function NodeKeySeq(ns: seq<Node>): (ks: seq<Key>)
    ensures |ks| == |ns| && forall j :: 0 <= j < |ns| ==> ks[j] == ns[j].key
  {
    seq(|ns|, j requires 0 <= j < |ns| => ns[j].key)
  }

  ghost function PlacesOf(t: Table): Places
    reads t, t.node
  {
    Places(|t.arr|, NodeKeySeq(t.node[..]))
  }

  lemma PlacesFacts(t: Table)
    requires t.Valid()
    ensures PlacesOf(t).Apart() && PlacesOf(t).Size() == |t.arr| + t.node.Length
    ensures forall k :: PlacesOf(t).Has(k) <==> t.HasSlot(k)
    ensures forall p :: 0 <= p < PlacesOf(t).Size() ==> t.KeyAt(p) == PlacesOf(t).KeyAt(p)
    ensures forall k, p :: t.IsIndex(k, p) <==> PlacesOf(t).IsIndex(k, p)
  {
    var ns, ks := t.node[..], PlacesOf(t).ks;
    DistinctOf(t.h, ns, t.rank);
    hide Scatter;
    assert forall x :: 0 <= x < |ns| ==> !Within(ns[x].key, 0, |t.arr|);
    forall k ensures PlacesOf(t).Has(k) <==> t.HasSlot(k) {
      if HasKey(ns, k) { var j :| 0 <= j < |ns| && ns[j].key == k; assert ks[j] == k; }
      if k in ks { var j :| 0 <= j < |ks| && ks[j] == k; assert ns[j].key == k; }
    }
  }

  // The caller changes fields that exist.
  method Change(t: Table, edits: seq<Edit>)
    requires t.Valid() && forall j :: 0 <= j < |edits| ==> PlacesOf(t).Has(edits[j].k)
    modifies t, t.node
    ensures t.Valid() && t.node == old(t.node) && PlacesOf(t) == old(PlacesOf(t))
    ensures forall k :: old(t.Val(k)).Some? && KeptBy(edits, k) ==> t.Val(k).Some?
  {
    hide t.Valid, At, t.HasSlot;
    for i := 0 to |edits|
      invariant t.Valid() && t.node == old(t.node) && PlacesOf(t) == old(PlacesOf(t))
      invariant forall k :: old(t.Val(k)).Some? && KeptBy(edits, k) ==> t.Val(k).Some?
    {
      PlacesFacts(t);
      assert PlacesOf(t).Has(edits[i].k);
      var s := t.Set(edits[i].k, 1);
      t.Write(s.value, edits[i].v, edits[i].k);
      assert PlacesOf(t).ks == old(PlacesOf(t)).ks;
    }
  }

  lemma NotInArrayAt(ns: seq<Node>, size: nat, j: nat)
    requires NotInArray(ns, size) && j < |ns|
    ensures !Within(ns[j].key, 0, size)
  {
  }

  lemma ValueAt(t: Table, i: nat)
    requires t.Valid() && i < |t.arr| + t.node.Length && !t.KeyAt(i).Nil?
    ensures t.ValAt(i) == t.Val(t.KeyAt(i))
  {
    var ns := t.node[..];
    DistinctOf(t.h, ns, t.rank);
    hide Scatter, Distinct, Stored, FreeBelow, NotInArray;
    if i >= |t.arr| {
      assert NotInArray(ns, |t.arr|);
      NotInArrayAt(ns, |t.arr|, i - |t.arr|);
      assert !Within(ns[i - |t.arr|].key, 0, |t.arr|);
      StoredAt(ns, i - |t.arr|);
    }
  }

  lemma EmptyPlace(t: Table, j: nat)
    requires t.Valid() && j < |t.arr| + t.node.Length && t.ValAt(j).None?
    ensures t.Val(t.KeyAt(j)).None?
  {
    if !t.KeyAt(j).Nil? { ValueAt(t, j); }
  }

  lemma FullPlace(t: Table, j: nat)
    requires t.Valid() && j < |t.arr| + t.node.Length && t.ValAt(j).Some?
    ensures !t.KeyAt(j).Nil?
  {
  }

  // One step of `luaH_next` in the places `ps`, to the place `j`; nothing is skipped but keys without a value.
  method Advance(t: Table, ghost ps: Places, k: Key, ghost i: int) returns (k': Key, v: Option<Value>, ghost j: int)
    requires t.Valid() && ps == PlacesOf(t) && ps.IsIndex(k, i) && (k.Nil? || ps.Has(k))
    ensures if v.Some? then i < j < ps.Size() && !k'.Nil? && ps.KeyAt(j) == k' else j == ps.Size()
    ensures forall p :: i < p < j ==> t.Val(ps.KeyAt(p)).None?
  {
    hide t.Valid, t.HasSlot, t.IsIndex, t.Follows;
    PlacesFacts(t);
    var ok;
    ok, k', v := t.Next(k);
    j := Followed(t, ps, k, i, k', v);
  }

  lemma Followed(t: Table, ps: Places, k: Key, i: int, k': Key, v: Option<Value>) returns (j: int)
    requires t.Valid() && ps == PlacesOf(t) && ps.IsIndex(k, i) && exists i' :: t.IsIndex(k, i') && t.Follows(i', k', v)
    ensures if v.Some? then i < j < ps.Size() && !k'.Nil? && ps.KeyAt(j) == k' else j == ps.Size()
    ensures forall p :: i < p < j ==> t.Val(ps.KeyAt(p)).None?
  {
    hide t.Valid, At, t.IsIndex, t.ValAt, t.KeyAt, PlacesOf;
    PlacesFacts(t);
    var i' :| t.IsIndex(k, i') && t.Follows(i', k', v);
    assert ps.IsIndex(k, i') && i' == i;
    if v.Some? {
      j :| i < j < ps.Size() && t.KeyAt(j) == k' && t.ValAt(j) == v && forall x :: i < x < j ==> t.ValAt(x).None?;
      FullPlace(t, j);
    } else {
      j := ps.Size();
    }
    forall p | i < p < j ensures t.Val(ps.KeyAt(p)).None? {
      assert t.KeyAt(p) == ps.KeyAt(p);
      EmptyPlace(t, p);
    }
  }

  // What has been seen up to the place `i`: each key once, none of `kept` missed
  ghost predicate SeenTo(ps: Places, kept: iset<Key>, seen: seq<Key>, at: seq<int>, i: int) {
    && |at| == |seen|
    && (forall j :: 0 <= j < |at| ==>
      0 <= at[j] <= i && at[j] < ps.Size() && ps.KeyAt(at[j]) == seen[j] && !seen[j].Nil?)
    && (forall j, j' :: 0 <= j < j' < |at| ==> at[j] < at[j'])
    && forall p :: 0 <= p <= i && p < ps.Size() && ps.KeyAt(p) in kept ==> ps.KeyAt(p) in seen
  }

  lemma SeenNext(ps: Places, kept: iset<Key>, seen: seq<Key>, at: seq<int>, i: int, j: int)
    requires SeenTo(ps, kept, seen, at, i) && -1 <= i < j < ps.Size() && !ps.KeyAt(j).Nil?
    requires forall p :: i < p < j ==> ps.KeyAt(p) !in kept
    ensures SeenTo(ps, kept, seen + [ps.KeyAt(j)], at + [j], j)
  {
    forall p | 0 <= p <= j && ps.KeyAt(p) in kept ensures ps.KeyAt(p) in seen + [ps.KeyAt(j)] {
      if p <= i { assert ps.KeyAt(p) in seen; }
    }
  }

  lemma SeenAll(ps: Places, kept: iset<Key>, seen: seq<Key>, at: seq<int>, i: int)
    requires SeenTo(ps, kept, seen, at, i) && ps.Apart() && i >= -1 && forall k :: k in kept ==> ps.Has(k)
    requires forall p :: i < p < ps.Size() ==> ps.KeyAt(p) !in kept
    ensures forall k :: k in kept ==> k in seen
    ensures forall j, j' :: 0 <= j < j' < |seen| ==> seen[j] != seen[j']
  {
    forall k | k in kept ensures k in seen {
      assert ps.Has(k);
      var p: int;
      if Within(k, 0, ps.n) { p := k.n - 1; } else { var j :| 0 <= j < |ps.ks| && ps.ks[j] == k; p := ps.n + j; }
      assert ps.KeyAt(p) == k;
    }
    forall j, j' | 0 <= j < j' < |seen| ensures seen[j] != seen[j'] {
      assert at[j] < at[j'];
      assert ps.KeyAt(at[j]) == seen[j] && ps.KeyAt(at[j']) == seen[j'];
    }
  }

  // A traversal from nil: no key is met twice, and none that keeps a value is missed,
  // whatever the caller does to the fields there are.
  method Traverse(t: Table, edits: seq<seq<Edit>>) returns (seen: seq<Key>)
    requires t.Valid() && forall e, j :: 0 <= e < |edits| && 0 <= j < |edits[e]| ==> t.HasSlot(edits[e][j].k)
    modifies t, t.node
    ensures t.Valid()
    ensures forall j, j' :: 0 <= j < j' < |seen| ==> seen[j] != seen[j']
    ensures forall k :: k in seen ==> old(t.HasSlot(k))
    ensures forall k :: old(t.Val(k)).Some? && Kept(edits, k) ==> k in seen
  {
    PlacesFacts(t);
    hide t.Valid, t.HasSlot, SeenTo, Kept;
    var k := Nil;
    seen := [];
    ghost var ps, i, at, kept := PlacesOf(t), -1, [], iset x | old(t.Val(x)).Some? && Kept(edits, x);
    SeenNothing(ps, kept);
    forall x | x in kept ensures ps.Has(x) { ValueHasSlot(t, x); }
    while true
      invariant t.Valid() && t.node == old(t.node) && PlacesOf(t) == ps
      invariant ps.IsIndex(k, i) && -1 <= i < ps.Size() && (k.Nil? || ps.Has(k))
      invariant SeenTo(ps, kept, seen, at, i)
      invariant forall x :: x in seen ==> ps.Has(x)
      invariant forall x :: x in kept ==> t.Val(x).Some?
      decreases ps.Size() - i
    {
      ghost var j;
      var k', v;
      k', v, j := Advance(t, ps, k, i);
      if v.None? { break; }
      SeenNext(ps, kept, seen, at, i, j);
      HasPlace(ps, j);
      k, seen := k', seen + [k'];
      i, at := j, at + [j];
      if |seen| <= |edits| {
        KeptFor(edits, |seen| - 1, kept);
        Change(t, edits[|seen| - 1]);
      }
    }
    SeenAll(ps, kept, seen, at, i);
  }

  lemma SeenNothing(ps: Places, kept: iset<Key>)
    ensures SeenTo(ps, kept, [], [], -1)
  {
  }

  lemma HasPlace(ps: Places, j: nat)
    requires j < ps.Size() && !ps.KeyAt(j).Nil?
    ensures ps.Has(ps.KeyAt(j))
  {
  }

  lemma ValueHasSlot(t: Table, k: Key)
    requires t.Val(k).Some?
    ensures t.HasSlot(k)
  {
  }

  lemma KeptFor(edits: seq<seq<Edit>>, n: nat, kept: iset<Key>)
    requires n < |edits| && forall x :: x in kept ==> Kept(edits, x)
    ensures forall x :: x in kept ==> KeptBy(edits[n], x)
  {
  }
}
