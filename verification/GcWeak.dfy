/**
 Weak tables: after marking, `cleartable` removes the entries whose objects were not marked,
 so that no marked object refers to an unmarked one.
 */
module GcWeak {
  import opened GcHeap
  import opened GcMark

  // The objects and their colours, both of which clearing changes.
  datatype Cleared = Cleared(h: Heap, color: map<Ref, Color>)

  ghost predicate Ok(c: Cleared) {
    c.color.Keys == c.h.Keys && Sound(c.h)
  }

  predicate Marked(color: map<Ref, Color>, v: Value) {
    v.Ptr? ==> v.ref in color && !White(color[v.ref])
  }

  // `stringmark`: strings count as values and are never removed from weak tables.
  function StringMark(c: Cleared, v: Value): Cleared
    requires Ok(c) && (v.Ptr? ==> v.ref in c.h)
  {
    if v.Ptr? && c.h[v.ref].kind.Str? && White(c.color[v.ref])
    then c.(color := c.color[v.ref := Gray]) else c
  }

  // What is left of `iscleared` for objects other than strings.
  predicate Collected(c: Cleared, v: Value)
    requires Ok(c) && (v.Ptr? ==> v.ref in c.h)
  {
    v.Ptr? && !c.h[v.ref].kind.Str? && White(c.color[v.ref])
  }

  function EmptyEntry(c: Cleared, t: Ref, i: nat): Cleared
    requires t in c.h && i < |c.h[t].keys| == |c.h[t].vals|
  {
    var o := c.h[t];
    c.(h := c.h[t := o.(keys := o.keys[i := DeadKey(o.keys[i])], vals := o.vals[i := NIL])])
  }

  // One round of the loop of `cleartable` over the entries of a weak table. A removed key
  // spares the value its `stringmark`.
  function ClearEntry(c: Cleared, t: Ref, i: nat): Cleared
    requires Ok(c) && t in c.h && i < |c.h[t].keys| == |c.h[t].vals|
  {
    var k, v := c.h[t].keys[i], c.h[t].vals[i];
    assert k in Refs(c.h, t) && v in Refs(c.h, t);
    if Collected(c, k) then EmptyEntry(c, t, i)
    else
      var c1 := StringMark(c, k);
      if Collected(c1, v) then EmptyEntry(c1, t, i) else StringMark(c1, v)
  }

  // Clearing only empties entries and marks strings.
  ghost predicate Trimmed(a: Cleared, b: Cleared) {
    && a.h.Keys == b.h.Keys == a.color.Keys == b.color.Keys
    && (forall r :: r in a.h ==> b.h[r].kind == a.h[r].kind && b.h[r].slots == a.h[r].slots)
    && (forall r :: r in a.h ==> |b.h[r].keys| == |a.h[r].keys| && |b.h[r].vals| == |a.h[r].vals|)
    && (forall r, i :: r in a.h && 0 <= i < |a.h[r].keys| ==>
          b.h[r].keys[i] == a.h[r].keys[i] || b.h[r].keys[i] == NIL)
    && (forall r, i :: r in a.h && 0 <= i < |a.h[r].vals| ==>
          b.h[r].vals[i] == a.h[r].vals[i] || b.h[r].vals[i] == NIL)
    && (forall r :: r in a.color && b.color[r] != a.color[r] ==>
          White(a.color[r]) && a.h[r].kind.Str? && b.color[r].Gray?)
  }

  lemma TrimmedTransitive(a: Cleared, b: Cleared, c: Cleared)
    requires Trimmed(a, b) && Trimmed(b, c)
    ensures Trimmed(a, c)
  {
  }

  lemma TrimmedRefs(a: Cleared, b: Cleared, r: Ref, v: Value)
    requires Trimmed(a, b) && r in a.h && v in Refs(b.h, r) && v.Ptr?
    ensures v in Refs(a.h, r)
  {
    if v in b.h[r].keys {
      var i :| 0 <= i < |b.h[r].keys| && b.h[r].keys[i] == v;
      assert a.h[r].keys[i] == v;
    } else if v in b.h[r].vals {
      var i :| 0 <= i < |b.h[r].vals| && b.h[r].vals[i] == v;
      assert a.h[r].vals[i] == v;
    } else {
      assert Slots(b.h, r) == Slots(a.h, r);
    }
  }

  lemma TrimmedOk(a: Cleared, b: Cleared)
    requires Ok(a) && Trimmed(a, b)
    ensures Ok(b)
  {
    hide Refs;
    forall r | r in b.h ensures Known(b.h, Refs(b.h, r)) && Shaped(b.h[r]) {
      assert Shaped(a.h[r]);
      forall v | v in Refs(b.h, r) && v.Ptr? ensures v.ref in b.h {
        TrimmedRefs(a, b, r, v);
        assert Known(a.h, Refs(a.h, r));
      }
    }
  }

  lemma StringMarkTrims(c: Cleared, v: Value)
    requires Ok(c) && (v.Ptr? ==> v.ref in c.h)
    ensures Trimmed(c, StringMark(c, v)) && StringMark(c, v).h == c.h
    ensures !Collected(c, v) ==> Marked(StringMark(c, v).color, v)
  {
  }

  lemma EmptyEntryTrims(c: Cleared, t: Ref, i: nat)
    requires c.color.Keys == c.h.Keys && t in c.h && i < |c.h[t].keys| == |c.h[t].vals|
    ensures Trimmed(c, EmptyEntry(c, t, i))
  {
  }

  // Whatever `cleartable` does to an entry, nothing it refers to is white afterwards.
  ghost predicate EntryMarked(c: Cleared, t: Ref, i: nat) {
    t in c.h && i < |c.h[t].keys| == |c.h[t].vals| &&
    Marked(c.color, c.h[t].keys[i]) && Marked(c.color, c.h[t].vals[i])
  }

  lemma EntryStays(a: Cleared, b: Cleared, t: Ref, i: nat)
    requires Trimmed(a, b) && EntryMarked(a, t, i)
    ensures EntryMarked(b, t, i)
  {
  }

  lemma ClearEntryTrims(c: Cleared, t: Ref, i: nat)
    requires Ok(c) && t in c.h && i < |c.h[t].keys| == |c.h[t].vals|
    ensures Trimmed(c, ClearEntry(c, t, i)) && EntryMarked(ClearEntry(c, t, i), t, i)
  {
    var k, v := c.h[t].keys[i], c.h[t].vals[i];
    assert k in Refs(c.h, t) && v in Refs(c.h, t);
    StringMarkTrims(c, k);
    var c1 := StringMark(c, k);
    StringMarkTrims(c1, v);
    var c2 := StringMark(c1, v);
    EmptyEntryTrims(c, t, i);
    EmptyEntryTrims(c1, t, i);
    hide Sound, Refs, Slots, Shaped, StringMark;
    TrimmedTransitive(c, c1, c2);
    TrimmedTransitive(c, c1, EmptyEntry(c1, t, i));
    hide Trimmed;
    if !Collected(c, k) && !Collected(c1, v) {
      assert ClearEntry(c, t, i) == c2;
      assert Marked(c1.color, k) && Marked(c2.color, v);
      assert EntryMarked(c2, t, i) by { KeyStaysMarked(c1, c2, k); }
    }
  }

  lemma KeyStaysMarked(a: Cleared, b: Cleared, k: Value)
    requires Trimmed(a, b) && Marked(a.color, k)
    ensures Marked(b.color, k)
  {
  }

  // One round leaves a table the loop can go on with.
  lemma ClearEntryOk(c: Cleared, t: Ref, i: nat)
    requires Ok(c) && t in c.h && i < |c.h[t].keys| == |c.h[t].vals|
    ensures var c1 := ClearEntry(c, t, i);
      Ok(c1) && Trimmed(c, c1) && t in c1.h && |c1.h[t].keys| == |c1.h[t].vals| == |c.h[t].keys| &&
        EntryMarked(c1, t, i)
  {
    hide Sound, ClearEntry;
    ClearEntryTrims(c, t, i);
    TrimmedOk(c, ClearEntry(c, t, i));
  }

  // The loop `while (i--)` over the first `n` entries of a weak table
  function ClearEntries(c: Cleared, t: Ref, n: nat): (c': Cleared)
    requires Ok(c) && t in c.h && n <= |c.h[t].keys| == |c.h[t].vals|
    decreases n
  {
    if n == 0 then c
    else
      hide Ok, Trimmed, EntryMarked, ClearEntry;
      ClearEntryOk(c, t, n - 1);
      ClearEntries(ClearEntry(c, t, n - 1), t, n - 1)
  }

  lemma TrimmedReflexive(c: Cleared)
    requires Ok(c)
    ensures Trimmed(c, c)
  {
  }

  lemma {:induction false} ClearEntriesTrims(c: Cleared, t: Ref, n: nat)
    requires Ok(c) && t in c.h && n <= |c.h[t].keys| == |c.h[t].vals|
    ensures Trimmed(c, ClearEntries(c, t, n)) && Ok(ClearEntries(c, t, n))
    ensures forall i: nat :: i < n ==> EntryMarked(ClearEntries(c, t, n), t, i)
    decreases n
  {
    hide Ok, ClearEntry, EntryMarked;
    if n == 0 {
      TrimmedReflexive(c);
    } else {
      ClearEntryOk(c, t, n - 1);
      var c1 := ClearEntry(c, t, n - 1);
      ClearEntriesTrims(c1, t, n - 1);
      var c2 := ClearEntries(c1, t, n - 1);
      hide *;
      TrimmedTransitive(c, c1, c2);
      EntryStays(c1, c2, t, n - 1);
    }
  }

  ghost predicate Tables(h: Heap, ts: seq<Ref>) {
    forall t :: t in ts ==> t in h && h[t].kind.Table?
  }

  // `cleartable`
  function ClearTables(c: Cleared, ts: seq<Ref>): (c': Cleared)
    requires Ok(c) && Tables(c.h, ts)
    decreases |ts|
  {
    if ts == [] then c
    else
      var t := ts[0];
      assert Shaped(c.h[t]);
      ClearEntriesTrims(c, t, |c.h[t].keys|);
      ClearTables(ClearEntries(c, t, |c.h[t].keys|), ts[1..])
  }

  lemma {:induction false} ClearTablesTrims(c: Cleared, ts: seq<Ref>)
    requires Ok(c) && Tables(c.h, ts)
    ensures Trimmed(c, ClearTables(c, ts)) && Ok(ClearTables(c, ts))
    ensures forall t, i: nat :: t in ts && i < |ClearTables(c, ts).h[t].keys| ==> EntryMarked(ClearTables(c, ts), t, i)
    decreases |ts|
  {
    if ts != [] {
      var t0 := ts[0];
      assert Shaped(c.h[t0]);
      var n := |c.h[t0].keys|;
      ClearEntriesTrims(c, t0, n);
      var c1 := ClearEntries(c, t0, n);
      ClearTablesTrims(c1, ts[1..]);
      var c2 := ClearTables(c1, ts[1..]);
      hide ClearEntries, Sound, EntryMarked;
      TrimmedTransitive(c, c1, c2);
      assert |c2.h[t0].keys| == n;
      forall t, i: nat | t in ts && i < |c2.h[t].keys| ensures EntryMarked(c2, t, i) {
        if t == t0 { EntryStays(c1, c2, t, i); } else { assert t in ts[1..]; }
      }
    }
  }

  // The point of clearing: if before it only the listed tables referred to white objects,
  // and those only through entries, then no marked object refers to a white one after it.
  lemma ClearedRefsMarked(c: Cleared, ts: seq<Ref>, b: Cleared, r: Ref)
    requires Ok(c) && Tables(c.h, ts) && b == ClearTables(c, ts)
    requires r in c.h && r in b.color && !White(b.color[r])
    requires !White(c.color[r]) && r !in ts ==> Colored(c.color, Refs(c.h, r))
    requires r in ts ==> Colored(c.color, Slots(c.h, r))
    ensures r in b.h && Colored(b.color, Refs(b.h, r))
  {
    ClearTablesTrims(c, ts);
    hide ClearTables;
    assert Shaped(c.h[r]);
    assert c.h[r].kind.Str? ==> Refs(c.h, r) == [];
    assert Slots(b.h, r) == Slots(c.h, r);
    hide Slots, Sound, Shaped;
    forall v | v in Refs(b.h, r) && v.Ptr? ensures v.ref in b.color && !White(b.color[v.ref]) {
      TrimmedRefs(c, b, r, v);
      if r in ts {
        ListedRefMarked(c, ts, b, r, v);
      }
    }
  }

  lemma ListedRefMarked(c: Cleared, ts: seq<Ref>, b: Cleared, r: Ref, v: Value)
    requires r in ts && r in c.h && r in b.h && Trimmed(c, b)
    requires forall i: nat :: i < |b.h[r].keys| ==> EntryMarked(b, r, i)
    requires |b.h[r].keys| == |b.h[r].vals|
    requires Colored(c.color, Slots(b.h, r)) && v in Refs(b.h, r) && v.Ptr?
    ensures v.ref in b.color && !White(b.color[v.ref])
  {
    if v in b.h[r].keys {
      var i :| 0 <= i < |b.h[r].keys| && b.h[r].keys[i] == v;
      assert EntryMarked(b, r, i);
    } else if v in b.h[r].vals {
      var i :| 0 <= i < |b.h[r].vals| && b.h[r].vals[i] == v;
      assert EntryMarked(b, r, i);
    }
  }

  // ----- which entries go -----

  // An object other than a string that has not been marked
  predicate Unmarked(c: Cleared, v: Value) {
    v.Ptr? && v.ref in c.h && v.ref in c.color && !c.h[v.ref].kind.Str? && White(c.color[v.ref])
  }

  // The entry is as it was, or it is gone from a table of `ts` that referred to an unmarked object in it.
  ghost predicate EntryStaysOrGoes(a: Cleared, b: Cleared, ts: seq<Ref>, r: Ref, i: nat)
    requires r in a.h && r in b.h && i < |a.h[r].keys| == |a.h[r].vals| == |b.h[r].keys| == |b.h[r].vals|
  {
    var k, v := a.h[r].keys[i], a.h[r].vals[i];
    || (b.h[r].keys[i] == k && b.h[r].vals[i] == v)
    || (r in ts && b.h[r].keys[i] == DeadKey(k) && b.h[r].vals[i] == NIL && (Unmarked(a, k) || Unmarked(a, v)))
  }

  ghost predicate OnlyDeadGo(a: Cleared, b: Cleared, ts: seq<Ref>) {
    Trimmed(a, b) &&
    forall r, i: nat :: r in a.h && i < |a.h[r].keys| == |a.h[r].vals| ==> EntryStaysOrGoes(a, b, ts, r, i)
  }

  lemma OnlyDeadGoTransitive(a: Cleared, b: Cleared, c: Cleared, ts: seq<Ref>)
    requires OnlyDeadGo(a, b, ts) && OnlyDeadGo(b, c, ts)
    ensures OnlyDeadGo(a, c, ts)
  {
    TrimmedTransitive(a, b, c);
    forall r, i: nat | r in a.h && i < |a.h[r].keys| == |a.h[r].vals| ensures EntryStaysOrGoes(a, c, ts, r, i) {
      assert EntryStaysOrGoes(a, b, ts, r, i);
      assert EntryStaysOrGoes(b, c, ts, r, i);
    }
  }

  lemma OnlyDeadGoWider(a: Cleared, b: Cleared, ts: seq<Ref>, us: seq<Ref>)
    requires OnlyDeadGo(a, b, ts) && forall t :: t in ts ==> t in us
    ensures OnlyDeadGo(a, b, us)
  {
    hide Unmarked;
    forall r, i: nat | r in a.h && i < |a.h[r].keys| == |a.h[r].vals| ensures EntryStaysOrGoes(a, b, us, r, i) {
      assert EntryStaysOrGoes(a, b, ts, r, i);
    }
  }

  lemma StringMarkKeepsEntries(c: Cleared, v: Value, ts: seq<Ref>)
    requires Ok(c) && (v.Ptr? ==> v.ref in c.h)
    ensures OnlyDeadGo(c, StringMark(c, v), ts)
  {
    StringMarkTrims(c, v);
  }

  lemma EmptyEntryGoes(c: Cleared, t: Ref, i: nat)
    requires Ok(c) && t in c.h && i < |c.h[t].keys| == |c.h[t].vals|
    requires Unmarked(c, c.h[t].keys[i]) || Unmarked(c, c.h[t].vals[i])
    ensures OnlyDeadGo(c, EmptyEntry(c, t, i), [t])
  {
    EmptyEntryTrims(c, t, i);
  }

  lemma ClearEntryGoes(c: Cleared, t: Ref, i: nat)
    requires Ok(c) && t in c.h && i < |c.h[t].keys| == |c.h[t].vals|
    ensures OnlyDeadGo(c, ClearEntry(c, t, i), [t])
  {
    var k, v := c.h[t].keys[i], c.h[t].vals[i];
    assert k in Refs(c.h, t) && v in Refs(c.h, t);
    StringMarkTrims(c, k);
    StringMarkKeepsEntries(c, k, [t]);
    var c1 := StringMark(c, k);
    StringMarkKeepsEntries(c1, v, [t]);
    if Collected(c, k) {
      EmptyEntryGoes(c, t, i);
    } else if Collected(c1, v) {
      EmptyEntryGoes(c1, t, i);
      hide OnlyDeadGo, StringMark, Refs, Sound;
      OnlyDeadGoTransitive(c, c1, EmptyEntry(c1, t, i), [t]);
    } else {
      hide OnlyDeadGo, StringMark, Refs, Sound;
      OnlyDeadGoTransitive(c, c1, StringMark(c1, v), [t]);
    }
  }

  lemma NothingGoes(c: Cleared, ts: seq<Ref>)
    requires Ok(c)
    ensures OnlyDeadGo(c, c, ts)
  {
    TrimmedReflexive(c);
  }

  lemma {:induction false} ClearEntriesGo(c: Cleared, t: Ref, n: nat)
    requires Ok(c) && t in c.h && n <= |c.h[t].keys| == |c.h[t].vals|
    ensures OnlyDeadGo(c, ClearEntries(c, t, n), [t])
    decreases n
  {
    hide Ok, ClearEntry, EntryMarked, OnlyDeadGo, Trimmed;
    if n == 0 {
      NothingGoes(c, [t]);
    } else {
      ClearEntryOk(c, t, n - 1);
      ClearEntryGoes(c, t, n - 1);
      ClearEntriesGo(ClearEntry(c, t, n - 1), t, n - 1);
      OnlyDeadGoTransitive(c, ClearEntry(c, t, n - 1), ClearEntries(ClearEntry(c, t, n - 1), t, n - 1), [t]);
    }
  }

  // `cleartable` takes no entry but those of the listed tables that refer to unmarked objects.
  lemma {:induction false} ClearTablesGo(c: Cleared, ts: seq<Ref>)
    requires Ok(c) && Tables(c.h, ts)
    ensures OnlyDeadGo(c, ClearTables(c, ts), ts)
    decreases |ts|
  {
    if ts == [] {
      NothingGoes(c, ts);
    } else {
      var t := ts[0];
      assert Shaped(c.h[t]);
      var n := |c.h[t].keys|;
      ClearEntriesTrims(c, t, n);
      var c1 := ClearEntries(c, t, n);
      ClearEntriesGo(c, t, n);
      ClearTablesGo(c1, ts[1..]);
      assert ClearTables(c, ts) == ClearTables(c1, ts[1..]);
      hide OnlyDeadGo, ClearEntries, ClearTables, Trimmed, EntryMarked, Ok;
      OnlyDeadGoWider(c, c1, [t], ts);
      OnlyDeadGoWider(c1, ClearTables(c1, ts[1..]), ts[1..], ts);
      OnlyDeadGoTransitive(c, c1, ClearTables(c1, ts[1..]), ts);
    }
  }
}
