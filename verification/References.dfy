/**
 References into a table, see `luaL_ref` and `luaL_unref` in lauxlib.c. The freed slots form a
 list through the table: slot 0 has the first of them, and each one has the next.
 */
module References {
  import opened TableNodes
  import opened TableSizes
  import opened TableObject
  import opened Wrappers
  import opened Powers

  const FREELIST_REF := 0
  const REFNIL := -1

  type Contents = map<Key, Value>

  // `lua_tointeger` of a slot: nil counts as 0.
  function Link(m: Contents, k: int): int {
    if Int(k) in m then m[Int(k)] else 0
  }

  function Next(free: seq<int>, i: nat): int {
    if i < |free| then free[i] else 0
  }

  ghost predicate NoRepeats(free: seq<int>) {
    forall i, j :: 0 <= i < j < |free| ==> free[i] != free[j]
  }

  // The slots from 1 to `n` are in use, with the values of `used`, or in the list `free`.
  ghost predicate Shared(m: Contents, used: map<int, Value>, free: seq<int>, n: nat) {
    && NoRepeats(free)
    && (forall r :: 1 <= r <= n <==> r in used || r in free)
    && (forall r :: r in used ==> r !in free && Int(r) in m && m[Int(r)] == used[r])
    && Link(m, FREELIST_REF) == Next(free, 0)
    && (forall i :: 0 <= i < |free| ==> Link(m, free[i]) == Next(free, i + 1))
    && (forall k :: k > n ==> Int(k) !in m)
  }

  // With nothing freed there is one border, the last slot.
  lemma OnlyBorder(m: Contents, used: map<int, Value>, n: nat, b: nat)
    requires Shared(m, used, [], n) && (b == 0 || Int(b) in m) && Int(b + 1) !in m
    ensures b == n
  {
    assert forall k :: 1 <= k <= n ==> k in used && Int(k) in m;
  }

  lemma NewSlot(m: Contents, used: map<int, Value>, n: nat, v: Value)
    requires Shared(m, used, [], n)
    ensures Shared(m[Int(n + 1) := v], used[n + 1 := v], [], n + 1)
  {
  }

  // Only the head of the list and the slot itself change.
  lemma TakenLink(m: Contents, ref: int, v: Value)
    requires ref != 0
    ensures var m' := Updated(m, Int(0), if Int(ref) in m then Some(m[Int(ref)]) else None)[Int(ref) := v];
      && Link(m', 0) == Link(m, ref) && Int(ref) in m' && m'[Int(ref)] == v
      && forall r :: r != 0 && r != ref ==>
           (Int(r) in m' <==> Int(r) in m) && Link(m', r) == Link(m, r) && (Int(r) in m ==> m'[Int(r)] == m[Int(r)])
  {
  }

  lemma TakeSlot(m: Contents, used: map<int, Value>, free: seq<int>, n: nat, v: Value)
    requires Shared(m, used, free, n) && free != []
    ensures var ref := free[0];
      && 1 <= ref <= n && ref !in used
      && Shared(Updated(m, Int(0), if Int(ref) in m then Some(m[Int(ref)]) else None)[Int(ref) := v], used[ref := v],
        free[1..], n)
  {
    var ref := free[0];
    assert ref in free && Link(m, ref) == Next(free, 1);
    var m' := Updated(m, Int(0), if Int(ref) in m then Some(m[Int(ref)]) else None)[Int(ref) := v];
    TakenLink(m, ref, v);
    hide Updated, Link;
    forall i | 0 <= i < |free[1..]| ensures free[1..][i] != ref && Link(m', free[1..][i]) == Next(free[1..], i + 1) {
      assert free[i + 1] in free && free[i + 1] >= 1;
      assert Link(m, free[i + 1]) == Next(free, i + 2);
    }
    forall r ensures 1 <= r <= n <==> r in used[ref := v] || r in free[1..] {
      if r in free { var i :| 0 <= i < |free| && free[i] == r; if i > 0 { assert free[1..][i - 1] == r; } }
    }
  }

  // What `luaL_unref` makes of the table, whatever `ref` is
  function Released(m: Contents, ref: int): Contents {
    Updated(m, Int(ref), if Int(0) in m then Some(m[Int(0)]) else None)[Int(0) := ref]
  }

  lemma FreeSlot(m: Contents, used: map<int, Value>, free: seq<int>, n: nat, ref: int)
    requires Shared(m, used, free, n) && ref in used
    ensures Shared(Released(m, ref), used - {ref}, [ref] + free, n)
  {
    var m', free' := Released(m, ref), [ref] + free;
    assert 1 <= ref <= n;
    forall i | 0 <= i < |free'| ensures Link(m', free'[i]) == Next(free', i + 1) {
      if i > 0 {
        assert free[i - 1] in free && 1 <= free[i - 1] <= n && free[i - 1] != ref;
        assert Link(m', free'[i]) == Link(m, free[i - 1]) == Next(free, i);
      }
    }
  }

  lemma ReleasedLinks(m: Contents, ref: int)
    requires ref != 0
    ensures Link(Released(m, ref), 0) == ref && Link(Released(m, ref), ref) == Link(m, 0)
    ensures forall r :: r != 0 && r != ref ==> Link(Released(m, ref), r) == Link(m, r)
  {
  }

  // A slot that is free already would be on the list twice.
  lemma {:induction false} ListTurns(m: Contents, used: map<int, Value>, free: seq<int>, n: nat, ref: int,
      used': map<int, Value>, free': seq<int>, n': nat, i: nat)
    requires Shared(m, used, free, n) && 1 <= ref <= n && i < |free| && ref !in free[..i]
    requires Shared(Released(m, ref), used', free', n')
    ensures i + 1 < |free'| && free'[i + 1] == free[i] && free'[0] == ref
    decreases i
  {
    var m' := Released(m, ref);
    hide Released, Link;
    ReleasedLinks(m, ref);
    assert free[i] in free && free[i] >= 1;
    if i == 0 {
      assert Link(m', 0) == ref == Next(free', 0);
      assert Link(m', ref) == Link(m, 0) == free[0] == Next(free', 1);
    } else {
      assert free[i - 1] in free[..i] && free[i - 1] in free && ref !in free[..i - 1];
      ListTurns(m, used, free, n, ref, used', free', n', i - 1);
      assert Link(m', free[i - 1]) == Link(m, free[i - 1]) == free[i] == Next(free', i + 1);
    }
  }

  lemma SecondRelease(m: Contents, used: map<int, Value>, free: seq<int>, n: nat, ref: int,
      used': map<int, Value>, free': seq<int>, n': nat)
    requires Shared(m, used, free, n) && ref in free
    ensures !Shared(Released(m, ref), used', free', n')
  {
    if Shared(Released(m, ref), used', free', n') {
      var i := FirstPlace(free, ref);
      ListTurns(m, used, free, n, ref, used', free', n', i);
      assert false;
    }
  }

  lemma {:induction false} FirstPlace(free: seq<int>, ref: int) returns (i: nat)
    requires ref in free
    ensures i < |free| && free[i] == ref && ref !in free[..i]
    decreases |free|
  {
    if free[0] == ref {
      i := 0;
    } else {
      i := FirstPlace(free[1..], ref);
      i := i + 1;
      assert free[..i] == [free[0]] + free[1..][..i - 1];
    }
  }

  // Of the slots that have been given out, exactly those in use may be released: after the
  // release of a free one, no slots in use and no list of free ones make sense of the table.
  lemma ReleasedRight(m: Contents, used: map<int, Value>, free: seq<int>, n: nat, ref: int)
    requires Shared(m, used, free, n) && 1 <= ref <= n
    ensures (exists used', free', n' :: Shared(Released(m, ref), used', free', n')) <==> ref in used
  {
    hide Shared, Released;
    if ref in used {
      FreeSlot(m, used, free, n, ref);
    } else {
      assert ref in free by { FreeOrUsed(m, used, free, n, ref); }
      forall used', free', n' ensures !Shared(Released(m, ref), used', free', n') {
        SecondRelease(m, used, free, n, ref, used', free', n');
      }
    }
  }

  lemma FreeOrUsed(m: Contents, used: map<int, Value>, free: seq<int>, n: nat, ref: int)
    requires Shared(m, used, free, n) && 1 <= ref <= n
    ensures ref in used || ref in free
  {
  }

  lemma FreePositive(m: Contents, used: map<int, Value>, free: seq<int>, n: nat)
    requires Shared(m, used, free, n)
    ensures Link(m, 0) == Next(free, 0) && forall i :: 0 <= i < |free| ==> free[i] >= 1
  {
    forall i | 0 <= i < |free| ensures free[i] >= 1 { assert free[i] in free; }
  }

  lemma NotUsed(m: Contents, used: map<int, Value>, n: nat)
    requires Shared(m, used, [], n)
    ensures n + 1 !in used
  {
  }

  lemma NoneNegative(m: Contents, used: map<int, Value>, free: seq<int>, n: nat, ref: int)
    requires Shared(m, used, free, n) && ref < 0
    ensures ref !in used
  {
  }

  class Registry {
    const t: Table
    ghost var used: map<int, Value>
    ghost var free: seq<int>
    ghost var n: nat

    constructor (table: Table)
      requires table.Valid() && forall k :: k >= 0 ==> Int(k) !in table.Contents()
      ensures Valid() && t == table && used == map[]
    {
      t, used, free, n := table, map[], [], 0;
    }

    ghost predicate Valid()
      reads this, t, t.node
    {
      t.Valid() && Shared(t.Contents(), used, free, n)
    }

    // `lua_rawgeti`
    method RawGet(k: int) returns (v: Option<Value>)
      requires t.Valid()
      ensures v == if Int(k) in t.Contents() then Some(t.Contents()[Int(k)]) else None
    {
      v := t.Get(Int(k));
    }

    // `lua_rawseti`
    method RawSet(k: int, v: Option<Value>) returns (ok: bool)
      requires t.Valid()
      modifies t, t.node
      ensures fresh(t.node) || t.node == old(t.node)
      ensures ok ==> t.Valid() && t.Contents() == Updated(old(t.Contents()), Int(k), v)
      ensures ok ==> |t.Contents()| <= |old(t.Contents())| + 1
      ensures !ok ==> |old(t.Contents())| >= Pow2(MAXBITS)
    {
      UpdatedSize(t.Contents(), Int(k), v);
      var e := t.Put(Int(k), v);
      ok := e.None?;
    }

    // Two of them, for the list and for a slot
    method RawSetBoth(k1: int, v1: Option<Value>, k2: int, v2: Value) returns (ok: bool)
      requires t.Valid()
      modifies t, t.node
      ensures fresh(t.node) || t.node == old(t.node)
      ensures ok ==> t.Valid() && t.Contents() == Updated(old(t.Contents()), Int(k1), v1)[Int(k2) := v2]
      ensures !ok ==> |old(t.Contents())| + 1 >= Pow2(MAXBITS)
    {
      hide Scatter, Stored, At, MapOf, FreeBelow, NotInArray, Pow2;
      ok := RawSet(k1, v1);
      if !ok { return; }
      ok := RawSet(k2, Some(v2));
    }

    // The first freed slot `r` is taken from the list.
    method Reuse(v: Value, r: int) returns (ok: bool)
      requires Valid() && free != [] && r == free[0]
      modifies this, t, t.node
      ensures fresh(t.node) || t.node == old(t.node)
      ensures ok ==> Valid() && r > 0 && r !in old(used) && used == old(used)[r := v]
      ensures !ok ==> |old(t.Contents())| + 1 >= Pow2(MAXBITS)
    {
      hide Shared, Scatter, Stored, At, MapOf, FreeBelow, NotInArray, Pow2, Updated, Link;
      TakeSlot(t.Contents(), used, free, n, v);
      var next := RawGet(r);
      ok := RawSetBoth(FREELIST_REF, next, r, v);
      used, free := used[r := v], free[1..];
    }

    // A slot is added at the end.
    method Extend(v: Value) returns (r: int, ok: bool)
      requires Valid() && free == []
      modifies this, t, t.node
      ensures fresh(t.node) || t.node == old(t.node)
      ensures ok ==> Valid() && r > 0 && r !in old(used) && used == old(used)[r := v]
      ensures !ok ==> |old(t.Contents())| + 1 >= Pow2(MAXBITS)
    {
      hide Shared, Scatter, Stored, At, MapOf, FreeBelow, NotInArray, Pow2;
      var len := t.GetN();
      OnlyBorder(t.Contents(), used, n, len);
      NewSlot(t.Contents(), used, n, v);
      NotUsed(t.Contents(), used, n);
      r := len + 1;
      ok := RawSet(r, Some(v));
      used, n := used[r := v], n + 1;
    }

    // `luaL_ref`: a reference that was not in use; -1 for nil. None is the error of a full table.
    method Ref(v: Option<Value>) returns (ref: Option<int>)
      requires Valid()
      modifies this, t, t.node
      ensures fresh(t.node) || t.node == old(t.node)
      ensures v.None? ==> ref == Some(REFNIL) && Valid() && used == old(used)
      ensures v.Some? && ref.Some? ==>
        Valid() && ref.value > 0 && ref.value !in old(used) && used == old(used)[ref.value := v.value]
      ensures |old(t.Contents())| + 1 < Pow2(MAXBITS) ==> ref.Some?
    {
      hide Shared, Scatter, Stored, At, MapOf, FreeBelow, NotInArray, Pow2;
      if v.None? { return Some(REFNIL); }
      FreePositive(t.Contents(), used, free, n);
      var head := RawGet(FREELIST_REF);
      var r := if head.Some? then head.value else 0;
      var ok;
      if r != 0 {
        ok := Reuse(v.value, r);
      } else {
        r, ok := Extend(v.value);
      }
      ref := if ok then Some(r) else None;
    }

    // `luaL_unref`: a reference in use is no longer; a negative one is ignored.
    method Unref(ref: int) returns (ok: bool)
      requires Valid()
      modifies this, t, t.node
      ensures fresh(t.node) || t.node == old(t.node)
      ensures ref < 0 ==> ok && Valid() && used == old(used) && t.Contents() == old(t.Contents())
      ensures ref >= 0 && ok ==> t.Valid() && t.Contents() == Released(old(t.Contents()), ref)
      ensures ref in old(used) && ok ==> Valid() && used == old(used) - {ref}
      ensures |old(t.Contents())| + 1 < Pow2(MAXBITS) ==> ok
    {
      hide Shared, Scatter, Stored, At, MapOf, FreeBelow, NotInArray, Pow2, Updated, Link;
      if ref < 0 {
        NoneNegative(t.Contents(), used, free, n, ref);
        return true;
      }
      if ref in used { FreeSlot(t.Contents(), used, free, n, ref); }
      var head := RawGet(FREELIST_REF);
      ok := RawSetBoth(ref, head, FREELIST_REF, ref);
      if ref in used { used, free := used - {ref}, [ref] + free; }
    }

    // What a reference stands for
    method Deref(ref: int) returns (v: Option<Value>)
      requires Valid() && ref in used
      ensures v == Some(used[ref])
    {
      v := RawGet(ref);
    }
  }
}
