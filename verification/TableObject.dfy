/**
 The table: an array part and a hash part, see ltable.c.
 */
module TableObject {
  import opened TableNodes
  import opened TableSizes
  import opened Wrappers
  import opened Powers

  // The errors that `luaH_set` may raise
  datatype Error = NilIndex | NaNIndex | Overflow

  // Where a value is kept
  datatype Slot = InArray(i: nat) | InNode(j: nat)

  datatype Result<T> = Ok(value: T) | Err(error: Error)

  const MAX_INT := 0x7fff_ffff
  const MAXASIZE := 0x400_0000

  function Indices(size: nat): set<Key> {
    set i | 1 <= i <= size :: Int(i)
  }

  function NodeKeys(ns: seq<Node>): set<Key> {
    set j | 0 <= j < |ns| :: ns[j].key
  }

  // The table as a map
  ghost function MapOf(arr: seq<Option<Value>>, ns: seq<Node>): map<Key, Value> {
    map k | k in Indices(|arr|) + NodeKeys(ns) && At(arr, ns, k).Some? :: At(arr, ns, k).value
  }

  lemma InMap(arr: seq<Option<Value>>, ns: seq<Node>, k: Key)
    ensures k in MapOf(arr, ns) <==> At(arr, ns, k).Some?
    ensures k in MapOf(arr, ns) ==> MapOf(arr, ns)[k] == At(arr, ns, k).value
  {
    if At(arr, ns, k).Some? {
      if k.Int? && 1 <= k.n <= |arr| {
        assert k in Indices(|arr|);
      } else {
        assert HasKey(ns, k);
        assert k in NodeKeys(ns);
      }
    }
  }

  // Setting a key of a map to a value, or to nil
  function Updated(m: map<Key, Value>, k: Key, v: Option<Value>): map<Key, Value> {
    if v.Some? then m[k := v.value] else m - {k}
  }

  lemma MapUpdated(arr: seq<Option<Value>>, ns: seq<Node>, arr': seq<Option<Value>>, ns': seq<Node>, k: Key,
      v: Option<Value>)
    requires At(arr', ns', k) == v && forall x :: x != k ==> At(arr', ns', x) == At(arr, ns, x)
    ensures MapOf(arr', ns') == Updated(MapOf(arr, ns), k, v)
  {
    hide MapOf, At;
    forall x ensures x in MapOf(arr', ns') <==> x in Updated(MapOf(arr, ns), k, v) {
      InMap(arr, ns, x);
      InMap(arr', ns', x);
    }
    forall x | x in MapOf(arr', ns') ensures MapOf(arr', ns')[x] == Updated(MapOf(arr, ns), k, v)[x] {
      InMap(arr, ns, x);
      InMap(arr', ns', x);
    }
  }

  lemma MapSame(arr: seq<Option<Value>>, ns: seq<Node>, arr': seq<Option<Value>>, ns': seq<Node>)
    requires forall x :: At(arr', ns', x) == At(arr, ns, x)
    ensures MapOf(arr', ns') == MapOf(arr, ns)
  {
    hide MapOf, At;
    forall x ensures x in MapOf(arr', ns') <==> x in MapOf(arr, ns) {
      InMap(arr, ns, x);
      InMap(arr', ns', x);
    }
    forall x | x in MapOf(arr', ns') ensures MapOf(arr', ns')[x] == MapOf(arr, ns)[x] {
      InMap(arr, ns, x);
      InMap(arr', ns', x);
    }
  }

  // ----- re-insertion, see `resize` -----

  // After the entries of the vanishing slice up to `i`
  ghost function FromArray(arr: seq<Option<Value>>, i: nat, k: Key): Option<Value>
    requires i <= |arr|
  {
    if k.Int? && 1 <= k.n <= i then arr[k.n - 1] else None
  }

  // After the nodes from `i` on, too
  ghost function FromBoth(arr: seq<Option<Value>>, ns: seq<Node>, i: nat, k: Key): Option<Value>
    requires i <= |ns|
  {
    if k.Int? && 1 <= k.n <= |arr| then arr[k.n - 1]
    else Stored(ns[i..], k)
  }

  // More keys than the largest hash part has nodes
  ghost predicate TooMany(arr: seq<Option<Value>>, ns: seq<Node>, k: Key) {
    exists n: nat :: BestSize(arr, ns, k, n) && Outside(arr, ns, n) + Bit(!Within(k, 0, n)) > Pow2(MAXBITS)
  }

  // The keys in the array part that an array of size `top` would lose
  function ArrayKeys(arr: seq<Option<Value>>, lo: nat, hi: nat): (ks: set<Key>)
    requires hi <= |arr|
    ensures |ks| == CountArr(arr, lo, hi)
    ensures forall k :: k in ks ==> k.Int? && lo < k.n <= hi && arr[k.n - 1].Some?
  {
    if hi <= lo then {} else ArrayKeys(arr, lo, hi - 1) + if arr[hi - 1].Some? then {Int(hi)} else {}
  }

  // The keys of the nodes, among the first `i`, that it would have no place for
  function OutKeys(ns: seq<Node>, i: nat, top: nat): (ks: set<Key>)
    requires i <= |ns| && Distinct(ns) && FreeUnlinked(ns)
    ensures |ks| == OutNodes(ns, i, top)
    ensures forall k :: k in ks ==> exists j :: 0 <= j < i && ns[j].key == k && ns[j].val.Some?
  {
    if i == 0 then {} else
      var ks := OutKeys(ns, i - 1, top);
      if ns[i - 1].val.Some? && !Within(ns[i - 1].key, 0, top) then
        assert ns[i - 1].key !in ks;
        ks + {ns[i - 1].key}
      else ks
  }

  lemma SubsetSize<T>(a: set<T>, b: set<T>)
    requires a <= b
    ensures |a| <= |b|
  {
    assert b == a + (b - a);
  }

  // All that goes into the hash part is in the map.
  lemma OutsideBounded(arr: seq<Option<Value>>, ns: seq<Node>, top: nat)
    requires Distinct(ns) && FreeUnlinked(ns) && NotInArray(ns, |arr|)
    ensures Outside(arr, ns, top) <= |MapOf(arr, ns)|
  {
    var a, b := ArrayKeys(arr, top, |arr|), OutKeys(ns, |ns|, top);
    forall k | k in a ensures k in MapOf(arr, ns) { InMap(arr, ns, k); }
    forall k | k in b ensures k in MapOf(arr, ns) && k !in a {
      var j :| 0 <= j < |ns| && ns[j].key == k && ns[j].val.Some?;
      assert !Within(k, 0, |arr|);
      StoredAt(ns, j);
      InMap(arr, ns, k);
    }
    SubsetSize(a + b, MapOf(arr, ns).Keys);
    assert |a + b| == |a| + |b|;
  }

  // A table overflows only when it is full.
  lemma TooManyEntries(arr: seq<Option<Value>>, ns: seq<Node>, k: Key)
    requires Distinct(ns) && FreeUnlinked(ns) && NotInArray(ns, |arr|) && TooMany(arr, ns, k)
    ensures |MapOf(arr, ns)| >= Pow2(MAXBITS)
  {
    hide BestSize, Pow2, Outside, MapOf, Distinct, FreeUnlinked;
    var n: nat :| BestSize(arr, ns, k, n) && Outside(arr, ns, n) + Bit(!Within(k, 0, n)) > Pow2(MAXBITS);
    OutsideBounded(arr, ns, n);
  }

  // An update adds one key at most.
  lemma UpdatedSize(m: map<Key, Value>, k: Key, v: Option<Value>)
    ensures |Updated(m, k, v)| <= |m| + 1
  {
    var m' := Updated(m, k, v);
    assert m'.Keys <= m.Keys + {k};
    SubsetSize(m'.Keys, m.Keys + {k});
    assert |m'.Keys| == |m'| && |m.Keys| == |m|;
  }

  lemma NoContents(arr: seq<Option<Value>>, ns: seq<Node>)
    requires (forall i :: 0 <= i < |arr| ==> arr[i] == None) && (forall j :: 0 <= j < |ns| ==> ns[j] == FREE)
    ensures MapOf(arr, ns) == map[]
  {
  }

  // The largest index in the nodes
  ghost function TopIndex(ns: seq<Node>, m: nat): nat
    requires m <= |ns|
  {
    if m == 0 then 0
    else
      var t := TopIndex(ns, m - 1);
      if ns[m - 1].key.Int? && ns[m - 1].key.n > t then ns[m - 1].key.n else t
  }

  lemma {:induction false} BelowTopIndex(ns: seq<Node>, m: nat, j: nat)
    requires j < m <= |ns| && ns[j].key.Int?
    ensures ns[j].key.n <= TopIndex(ns, m)
  {
    if j < m - 1 { BelowTopIndex(ns, m - 1, j); }
  }

  lemma BelowTop(arr: seq<Option<Value>>, ns: seq<Node>, i: nat)
    requires At(arr, ns, Int(i)).Some?
    ensures i <= TopIndex(ns, |ns|) + |arr|
  {
    if i > |arr| || i == 0 {
      var j :| 0 <= j < |ns| && ns[j].key == Int(i);
      BelowTopIndex(ns, |ns|, j);
    }
  }

  lemma NotStored(arr: seq<Option<Value>>, ns: seq<Node>, k: Key)
    requires Storable(k) && !HasKey(ns, k) && !Within(k, 0, |arr|)
    ensures At(arr, ns, k) == None
  {
  }

  lemma Pow2Plus(a: nat, r: nat)
    requires Pow2(a) == r
    ensures Pow2(a + 4) == 16 * r
  {
    assert Pow2(a + 2) == 4 * r;
  }

  lemma Pow2Max()
    ensures Pow2(MAXBITS) == MAXASIZE
  {
    assert Pow2(2) == 4;
    hide Pow2;
    Pow2Plus(2, 4);
    Pow2Plus(6, 0x40);
    Pow2Plus(10, 0x400);
    Pow2Plus(14, 0x4000);
    Pow2Plus(18, 0x4_0000);
    Pow2Plus(22, 0x40_0000);
  }

  lemma BitsEnough(k: nat)
    requires k > 0
    ensures CeilLog2(k) <= MAXBITS <==> k <= Pow2(MAXBITS)
    ensures Pow2(MAXBITS) == MAXASIZE
  {
    hide Pow2, CeilLog2;
    Pow2Max();
    var e := CeilLog2(k);
    if e > MAXBITS + 1 { Pow2Grows(MAXBITS, e - 1); }
    if e < MAXBITS { Pow2Grows(e, MAXBITS); }
  }

  lemma BestSizeFits(arr: seq<Option<Value>>, ns: seq<Node>, k: Key, n: nat)
    requires BestSize(arr, ns, k, n)
    ensures n <= MAXASIZE
  {
    BitsEnough(1);
    if n > 0 {
      var e: nat :| e <= MAXBITS && n == Pow2(e);
      if e < MAXBITS { Pow2Grows(e, MAXBITS); }
    }
  }

  // The slices past the end of the array
  lemma SlicesPast(lg: nat, size: nat, i: nat)
    requires i == Min(SliceLo(lg), size) + 1 && (lg == MAXBITS + 1 || i > size) && size <= MAXASIZE
    ensures i == size + 1
    ensures forall x :: lg <= x <= MAXBITS ==> Min(SliceLo(x), size) == size && Min(Pow2(x), size) == size
  {
    BitsEnough(1);
    forall x | lg <= x <= MAXBITS ensures SliceLo(x) >= SliceLo(lg) && Pow2(x) >= SliceLo(lg) {
      if lg < x { if lg < x - 1 { Pow2Grows(lg, x - 1); } Pow2Grows(lg, x); }
    }
  }

  lemma CountArrNone(arr: seq<Option<Value>>, lo: nat)
    ensures forall hi: nat :: hi <= lo && hi <= |arr| ==> CountArr(arr, lo, hi) == 0
  {
  }

  lemma SameValues(arr: seq<Option<Value>>, ns: seq<Node>, ns': seq<Node>, k: Key)
    requires !HasKey(ns, k) && SameBut(ns, ns', k)
    ensures forall x :: At(arr, ns', x) == At(arr, ns, x)
  {
  }

  lemma RankLength(h: Hash, ns: seq<Node>, rk: seq<nat>)
    requires Scatter(h, ns, rk)
    ensures |rk| == |ns|
  {
  }

  lemma PredecessorIsOther(h: Hash, ns: seq<Node>, rk: seq<nat>, p: nat, mp: nat, n: nat)
    requires Scatter(h, ns, rk) && p < |ns| && mp < |ns| && n < |ns| && ns[p].next == mp && ns[n].key.Nil?
    ensures p != mp && p != n && mp != n
  {
  }

  lemma NothingStored(ns: seq<Node>)
    requires forall j :: 0 <= j < |ns| ==> ns[j] == FREE
    ensures forall x :: Stored(ns, x) == None
    ensures forall size: nat :: NotInArray(ns, size)
  {
  }

  lemma AllFree(h: Hash, ns: seq<Node>, rk: seq<nat>)
    requires |rk| == |ns| && forall j :: 0 <= j < |ns| ==> ns[j] == FREE
    ensures Scatter(h, ns, rk) && FreeBelow(ns, |ns|)
  {
  }

  lemma FromBothNone(was: seq<Option<Value>>, ns: seq<Node>)
    ensures forall x :: FromBoth(was, ns, |ns|, x) == FromArray(was, |was|, x)
  {
  }

  lemma FromBothAll(was: seq<Option<Value>>, ns: seq<Node>)
    ensures forall x :: FromBoth(was, ns, 0, x) == At(was, ns, x)
  {
    assert ns[0..] == ns;
  }

  lemma FromOneMore(was: seq<Option<Value>>, ns: seq<Node>, i: nat, x: Key)
    requires i < |ns| && Distinct(ns) && FreeUnlinked(ns) && NotInArray(ns, |was|)
    ensures FromBoth(was, ns, i, x) == if x == ns[i].key && ns[i].val.Some? then ns[i].val
      else FromBoth(was, ns, i + 1, x)
  {
    assert ns[i..][1..] == ns[i + 1..];
    if x == ns[i].key && !x.Nil? {
      assert ns[i..][0] == ns[i];
      StoredAt(ns[i..], 0);
      assert !HasKey(ns[i + 1..], x);
    } else if !x.Nil? {
      var t, t' := ns[i + 1..], ns[i..];
      assert t' == [ns[i]] + t;
      forall j | 0 <= j < |t| && t[j].key == x
        ensures exists j' :: 0 <= j' < |t'| && t'[j'].key == x && t'[j'].val == t[j].val
      {
        assert t'[j + 1] == t[j];
      }
      SameStored(t, t', x);
    }
  }

  // The indices of a slice that are in the array
  function ArrSlice(arr: seq<Option<Value>>, lg: nat): nat {
    CountArr(arr, Min(SliceLo(lg), |arr|), Min(Pow2(lg), |arr|))
  }

  lemma SliceDone(arr: seq<Option<Value>>, lg: nat)
    ensures var lo, hi := Min(SliceLo(lg), |arr|), Min(Pow2(lg), |arr|);
      && lo <= hi && ArrSlice(arr, lg) == CountArr(arr, lo, hi) &&
        CountArr(arr, 0, hi) == CountArr(arr, 0, lo) + CountArr(arr, lo, hi)
      && SliceLo(lg + 1) == Pow2(lg) && Pow2(lg + 1) == 2 * Pow2(lg)
  {
    if lg > 0 { Pow2Grows(lg - 1, lg); }
    CountArrSplits(arr, 0, Min(SliceLo(lg), |arr|), Min(Pow2(lg), |arr|));
  }

  lemma EmptySlice(arr: seq<Option<Value>>, lg: nat)
    requires Min(SliceLo(lg), |arr|) == |arr| && Min(Pow2(lg), |arr|) == |arr|
    ensures ArrSlice(arr, lg) == 0
  {
  }

  lemma SlicedSum(n1: seq<nat>, n2: seq<nat>, nums: seq<nat>, arr: seq<Option<Value>>, ns: seq<Node>, k: Key)
    requires |n1| == |n2| == |nums| == MAXBITS + 1
    requires forall lg :: 0 <= lg <= MAXBITS ==> n1[lg] == ArrSlice(arr, lg)
    requires forall lg :: 0 <= lg <= MAXBITS ==> n2[lg] == n1[lg] + IntNodes(ns, |ns|, SliceLo(lg), Pow2(lg))
    requires forall lg :: 0 <= lg <= MAXBITS ==> nums[lg] == n2[lg] + Bit(Within(k, SliceLo(lg), Pow2(lg)))
    ensures Sliced(nums, arr, ns, k)
  {
  }

  lemma SlicedTotal(nums: seq<nat>, arr: seq<Option<Value>>, ns: seq<Node>, extra: Key)
    requires Sliced(nums, arr, ns, extra) && |arr| <= MAXASIZE
    ensures Prefix(nums, MAXBITS + 1) ==
      CountArr(arr, 0, |arr|) + IntNodes(ns, |ns|, 0, Pow2(MAXBITS)) + Bit(Within(extra, 0, Pow2(MAXBITS)))
  {
    PrefixCounts(nums, arr, ns, extra, MAXBITS);
    BitsEnough(1);
  }

  lemma Pow2Next(e: nat)
    ensures Pow2(0) == 1 && Pow2(e + 1) == 2 * Pow2(e)
  {
  }

  lemma PrefixNext(nums: seq<nat>, m: nat)
    requires m < |nums|
    ensures Prefix(nums, 0) == 0 && Prefix(nums, m + 1) == Prefix(nums, m) + nums[m]
  {
  }

  // One slice more, in `computesizes`
  lemma SizeStep(ns: seq<nat>, i: nat)
    requires SlicesFit(ns) && i < |ns|
    ensures Prefix(ns, i + 1) == Prefix(ns, i) + ns[i] && Prefix(ns, i + 1) <= Prefix(ns, |ns|)
    ensures Pow2(i + 1) == 2 * Pow2(i) && Prefix(ns, i + 1) <= Pow2(i) && 2 * Prefix(ns, i) <= Pow2(i)
    ensures forall e: nat :: e < i ==> Pow2(e) < Pow2(i)
  {
    hide SlicesFit, Prefix, Pow2;
    PrefixNext(ns, i);
    Pow2Next(i);
    PrefixFits(ns, i);
    if i > 0 { PrefixFits(ns, i - 1); Pow2Next(i - 1); }
    PrefixGrows(ns, i + 1, |ns|);
    forall e: nat | e < i ensures Pow2(e) < Pow2(i) { Pow2Grows(e, i); }
  }

  lemma RestFits(nums: seq<nat>, j: nat)
    requires 2 * Prefix(nums, |nums|) <= Pow2(j)
    ensures forall e: nat :: j <= e < |nums| ==> 2 * Prefix(nums, e + 1) <= Pow2(e)
  {
    forall e: nat | j <= e < |nums| ensures 2 * Prefix(nums, e + 1) <= Pow2(e) {
      PrefixGrows(nums, e + 1, |nums|);
      if j < e { Pow2Grows(j, e); }
    }
  }

  // `computesizes`: the largest power of two more than half of which is in use
  method ComputeSizes(nums: array<nat>, narray: nat) returns (n: nat, na: nat)
    requires nums.Length == MAXBITS + 1 && narray == Prefix(nums[..], MAXBITS + 1) && SlicesFit(nums[..])
    ensures Computed(nums[..], n, na)
  {
    hide SlicesFit, Pow2, Prefix;
    var ns := nums[..];
    assert Pow2(0) == 1 by { Pow2Next(0); }
    PrefixNext(ns, 0);
    var a := 0;
    n, na := 0, 0;
    var i, twotoi := 0, 1;
    while twotoi / 2 < narray
      invariant 0 <= i <= MAXBITS + 1 && twotoi == Pow2(i) && a == Prefix(ns, i)
      invariant i > 0 ==> a < narray
      invariant (n == 0 && na == 0) || exists e: nat :: e < i && n == Pow2(e) && na == Prefix(ns, e + 1) && 2 * na > n
      invariant forall e: nat :: e < i && Pow2(e) > n ==> 2 * Prefix(ns, e + 1) <= Pow2(e)
      decreases MAXBITS + 1 - i
    {
      SizeStep(ns, i);
      if nums[i] > 0 {
        a := a + nums[i];
        if a > twotoi / 2 {
          n := twotoi;
          na := a;
        }
      }
      if a == narray {
        RestFits(ns, i + 1);
        break;
      }
      i, twotoi := i + 1, twotoi * 2;
    }
    if twotoi / 2 >= narray { RestFits(ns, i); }
  }

  class Table {
    const h: Hash
    var arr: seq<Option<Value>>
    var node: array<Node>
    var lsizenode: nat
    var lastfree: int
    var dummy: bool
    ghost var rank: seq<nat>

    ghost predicate Valid()
      reads this, node
    {
      && node.Length == Pow2(lsizenode) && lsizenode <= MAXBITS && lastfree <= node.Length && |arr| <= MAXASIZE
      && Scatter(h, node[..], rank) && NotInArray(node[..], |arr|)
      && if dummy then node.Length == 1 && node[0] == FREE && lastfree <= 0 else FreeBelow(node[..], lastfree)
    }

    ghost function Val(k: Key): Option<Value>
      reads this, node
    {
      At(arr, node[..], k)
    }

    ghost function Contents(): map<Key, Value>
      reads this, node
    {
      MapOf(arr, node[..])
    }

    ghost predicate SlotFor(k: Key, s: Slot)
      reads this, node
    {
      match s
      case InArray(i) => i < |arr| && k == Int(i + 1)
      case InNode(j) => j < node.Length && node[j].key == k && !Within(k, 0, |arr|) && !k.Nil?
    }

    ghost predicate HasSlot(k: Key)
      reads this, node
    {
      Within(k, 0, |arr|) || (!k.Nil? && HasKey(node[..], k))
    }

    // Some node can still be given a key.
    ghost predicate Room()
      reads this, node
    {
      !dummy && KeyCount(node[..], node.Length) < node.Length
    }

    // `luaH_new`
    constructor (hash: Hash, narray: nat, nhash: nat)
      requires narray <= MAXASIZE && nhash <= MAXASIZE
      ensures Valid() && fresh(node) && h == hash && |arr| == narray && node.Length >= nhash
      ensures Contents() == map[]
    {
      h := hash;
      arr, node, lsizenode, lastfree, dummy, rank := [], new Node[1](_ => FREE), 0, 0, true, [0];
      new;
      BitsEnough(1);
      SetArrayVector(narray);
      var ok := SetNodeVector(nhash);
      NothingStored(node[..]);
      NoContents(arr, node[..]);
    }

    // ----- searching -----

    method FindNode(k: Key) returns (r: int)
      requires Valid() && !k.Nil?
      ensures r == NULL ==> !HasKey(node[..], k)
      ensures r != NULL ==> 0 <= r < node.Length && node[r].key == k
    {
      ghost var ns := node[..];
      var n: int := Main(h, k, node.Length);
      while n != NULL
        invariant n == NULL || 0 <= n < node.Length
        invariant forall j :: 0 <= j < |ns| && ns[j].key == k ==> n != NULL && Reaches(ns, rank, n, j)
        decreases if n == NULL then -1 else rank[n]
      {
        if node[n].key == k { return n; }
        n := node[n].next;
      }
      return NULL;
    }

    // The search of `luaH_get`
    method Find(k: Key) returns (s: Option<Slot>)
      requires Valid()
      ensures s.Some? <==> HasSlot(k)
      ensures s.Some? ==> SlotFor(k, s.value)
    {
      if k.Nil? { return None; }
      if k.Int? && 1 <= k.n <= |arr| { return Some(InArray(k.n - 1)); }
      var n := FindNode(k);
      if n == NULL { return None; }
      return Some(InNode(n));
    }

    method Read(s: Slot, ghost k: Key) returns (v: Option<Value>)
      requires Valid() && SlotFor(k, s)
      ensures v == Val(k)
    {
      match s
      case InArray(i) => v := arr[i];
      case InNode(j) =>
        StoredAt(node[..], j);
        v := node[j].val;
    }

    // `luaH_get`
    method Get(k: Key) returns (v: Option<Value>)
      requires Valid()
      ensures v == Val(k)
      ensures v == if k in Contents() then Some(Contents()[k]) else None
    {
      InMap(arr, node[..], k);
      var s := Find(k);
      if s.None? { return None; }
      v := Read(s.value, k);
    }

    // The assignment through the pointer that `luaH_set` returns
    method Write(s: Slot, v: Option<Value>, ghost k: Key)
      requires Valid() && SlotFor(k, s)
      modifies `arr, node
      ensures Valid() && |arr| == |old(arr)|
      ensures Val(k) == v && forall x :: x != k ==> Val(x) == old(Val(x))
      ensures forall j :: 0 <= j < node.Length ==> node[j].key == old(node[j].key)
    {
      ghost var ns := node[..];
      match s
      case InArray(i) =>
        arr := arr[i := v];
      case InNode(j) =>
        WriteKeeps(h, ns, rank, j, v);
        node[j] := node[j].(val := v);
        assert node[..] == ns[j := ns[j].(val := v)];
    }

    // ----- a new key -----

    // `getfreepos`
    method GetFreePos() returns (n: int)
      requires Valid()
      modifies `lastfree
      ensures n == NULL ==> !Room() && Valid()
      ensures n != NULL ==> 0 <= n < node.Length && !dummy && n == lastfree && node[n].key.Nil?
      ensures n != NULL ==> forall i :: 0 <= i < node.Length && node[i].key.Nil? ==> i <= n
    {
      while lastfree > 0
        invariant lastfree <= node.Length && (dummy ==> lastfree <= 0)
        invariant !dummy ==> FreeBelow(node[..], lastfree)
        decreases lastfree
      {
        lastfree := lastfree - 1;
        if node[lastfree].key.Nil? { return lastfree; }
      }
      lastfree := lastfree - 1;
      n := NULL;
      if Room() { SomeFree(node[..], node.Length); }
    }

    // The node before `mp` in its chain
    method Predecessor(mp: nat) returns (p: nat)
      requires Scatter(h, node[..], rank) && mp < node.Length && !node[mp].key.Nil? &&
        Main(h, node[mp].key, node.Length) != mp
      ensures p < node.Length && node[p].next == mp
    {
      ghost var ns := node[..];
      p := Main(h, node[mp].key, node.Length);
      while node[p].next != mp
        invariant p < node.Length && p != mp && Reaches(ns, rank, p, mp)
        decreases rank[p]
      {
        p := node[p].next;
      }
    }

    // What `newkey` knows when it has found a free node `n`: the nodes above it have keys.
    ghost predicate Clash(k: Key, mp: nat, n: nat)
      reads this, node
    {
      && node.Length == Pow2(lsizenode) && lsizenode <= MAXBITS && n == lastfree < node.Length && !dummy &&
        |arr| <= MAXASIZE
      && Scatter(h, node[..], rank) && NotInArray(node[..], |arr|)
      && (forall i :: 0 <= i < node.Length && node[i].key.Nil? ==> i <= n)
      && Storable(k) && !Within(k, 0, |arr|) && !HasKey(node[..], k)
      && mp == Main(h, k, node.Length) && !node[mp].key.Nil? && node[n].key.Nil?
    }

    // The colliding node moves to `n`.
    method MoveAway(k: Key, mp: nat, n: nat)
      requires Clash(k, mp, n) && Main(h, node[mp].key, node.Length) != mp
      modifies `rank, node
      ensures Valid() && SlotFor(k, InNode(mp)) && SameBut(old(node[..]), node[..], k)
      ensures KeyCount(node[..], node.Length) <= old(KeyCount(node[..], node.Length)) + 1
    {
      hide Scatter, SameBut, Distinct;
      ghost var ns := node[..];
      var othern := Predecessor(mp);
      PredecessorIsOther(h, ns, rank, othern, mp, n);
      MovedKeeps(h, ns, rank, n, othern, k);
      RankLength(h, ns, rank);
      node[othern] := node[othern].(next := n);
      assert node[..] == ns[othern := ns[othern].(next := n)];
      node[n] := node[mp];
      assert node[..] == ns[othern := ns[othern].(next := n)][n := ns[mp]];
      node[mp] := Node(k, None, NULL);
      assert node[..] == Moved(ns, mp, n, othern, k);
      rank := rank[n := rank[mp]];
      OneMoreKey(ns, node[..], n, |ns|);
    }

    // The new key goes to `n`.
    method ChainAfter(k: Key, mp: nat, n: nat)
      requires Clash(k, mp, n) && Main(h, node[mp].key, node.Length) == mp
      modifies `rank, node
      ensures Valid() && SlotFor(k, InNode(n)) && SameBut(old(node[..]), node[..], k)
      ensures KeyCount(node[..], node.Length) <= old(KeyCount(node[..], node.Length)) + 1
    {
      hide Scatter, SameBut, Distinct;
      ghost var ns := node[..];
      ChainedKeeps(h, ns, rank, n, k);
      RankLength(h, ns, rank);
      node[n] := Node(k, None, node[mp].next);
      node[mp] := node[mp].(next := n);
      assert node[..] == Chained(ns, mp, n, k);
      rank := Spread(rank)[n := 2 * rank[mp]];
      OneMoreKey(ns, node[..], n, |ns|);
    }

    // `newkey`: with `again == 0` there is room, and no rehash.
    method NewKey(k: Key, ghost again: nat) returns (r: Result<Slot>)
      requires Valid() && Storable(k) && !HasSlot(k) && (again == 0 ==> Room())
      modifies this, node
      ensures fresh(node) || node == old(node)
      ensures r.Ok? ==> Valid() && SlotFor(k, r.value) && forall x :: Val(x) == old(Val(x))
      ensures r.Err? ==> r.error == Overflow && TooMany(old(arr), old(node[..]), k)
      ensures again == 0 ==> r.Ok? && node == old(node) && arr == old(arr) && dummy == old(dummy)
      ensures again == 0 ==> KeyCount(node[..], node.Length) <= old(KeyCount(node[..], node.Length)) + 1
      decreases again, 0
    {
      hide Ranked, Reached, Homes, Distinct, OnePredecessor, Stored, SameBut, KeyCount;
      ghost var ns := node[..];
      var mp := Main(h, k, node.Length);
      if node[mp].val.Some? || dummy {
        var n := GetFreePos();
        if n == NULL {
          var ok := Rehash(k);
          if !ok { return Err(Overflow); }
          r := Set(k, 0);
          return;
        }
        r := Collide(k, mp, n);
      } else {
        Overwrite(k, mp);
        r := Ok(InNode(mp));
      }
      SameValues(arr, ns, node[..], k);
    }

    // The main position of the key is taken, and `n` is free.
    method Collide(k: Key, mp: nat, n: nat) returns (r: Result<Slot>)
      requires Clash(k, mp, n)
      modifies `rank, node
      ensures r.Ok? && Valid() && SlotFor(k, r.value) && SameBut(old(node[..]), node[..], k)
      ensures KeyCount(node[..], node.Length) <= old(KeyCount(node[..], node.Length)) + 1
    {
      hide Scatter, Ranked, Reached, Homes, Distinct, OnePredecessor, Stored, SameBut, KeyCount;
      if Main(h, node[mp].key, node.Length) != mp {
        MoveAway(k, mp, n);
        r := Ok(InNode(mp));
      } else {
        ChainAfter(k, mp, n);
        r := Ok(InNode(n));
      }
    }

    // The main position of the key is free to take.
    method Overwrite(k: Key, mp: nat)
      requires Valid() && !dummy && Storable(k) && !HasSlot(k) && mp == Main(h, k, node.Length) && node[mp].val == None
      modifies node
      ensures Valid() && SlotFor(k, InNode(mp)) && SameBut(old(node[..]), node[..], k)
      ensures KeyCount(node[..], node.Length) <= old(KeyCount(node[..], node.Length)) + 1
    {
      hide Scatter, SameBut, Distinct;
      ghost var ns := node[..];
      TakenKeeps(h, ns, rank, k);
      node[mp] := node[mp].(key := k);
      assert node[..] == Taken(ns, mp, k);
      OneMoreKey(ns, node[..], mp, |ns|);
    }

    // `luaH_set`: the place for the value of `k`
    method Set(k: Key, ghost again: nat) returns (r: Result<Slot>)
      requires Valid() && (again == 0 ==> Storable(k) && (HasSlot(k) || Room()))
      modifies this, node
      ensures fresh(node) || node == old(node)
      ensures r.Ok? ==> Valid() && SlotFor(k, r.value) && forall x :: Val(x) == old(Val(x))
      ensures r.Err? ==> r.error == (if k.Nil? then NilIndex else if k.NaN? then NaNIndex else Overflow)
      ensures r.Err? && Storable(k) ==> TooMany(old(arr), old(node[..]), k)
      ensures !Storable(k) ==> r.Err? && arr == old(arr) && node == old(node) && node[..] == old(node[..]) && Valid()
      ensures again == 0 ==> r.Ok? && node == old(node) && arr == old(arr) && dummy == old(dummy)
      ensures again == 0 ==> KeyCount(node[..], node.Length) <= old(KeyCount(node[..], node.Length)) + 1
      ensures old(HasSlot(k)) ==>
        r.Ok? && arr == old(arr) && node == old(node) && node[..] == old(node[..]) && dummy == old(dummy)
      decreases again, 1
    {
      var s := Find(k);
      if s.Some? { return Ok(s.value); }
      if k.Nil? { return Err(NilIndex); }
      if k.NaN? { return Err(NaNIndex); }
      r := NewKey(k, again);
    }

    // ----- resizing -----

    // `setarrayvector`, to grow
    method SetArrayVector(size: nat)
      requires size >= |arr|
      modifies `arr
      ensures arr == old(arr) + seq(size - |old(arr)|, _ => None)
    {
      arr := arr + seq(size - |arr|, _ => None);
    }

    // `setnodevector`
    method SetNodeVector(size: nat) returns (ok: bool)
      requires |arr| <= MAXASIZE
      modifies `node, `lsizenode, `lastfree, `dummy, `rank
      ensures ok <==> size <= Pow2(MAXBITS)
      ensures !ok ==>
        node == old(node) && lsizenode == old(lsizenode) && lastfree == old(lastfree) && dummy == old(dummy)
      ensures ok ==> fresh(node) && Valid() && node.Length >= size && (dummy <==> size == 0)
      ensures ok ==> forall j :: 0 <= j < node.Length ==> node[j] == FREE
    {
      hide Scatter, FreeBelow, NotInArray, Pow2, CeilLog2;
      Pow2Next(0);
      if size == 0 {
        node := new Node[1](_ => FREE);
        lsizenode, lastfree, dummy, rank := 0, 0, true, [0];
      } else {
        var lsize := CeilLog2(size);
        BitsEnough(size);
        if lsize > MAXBITS { return false; }
        var size' := Pow2(lsize);
        node := new Node[size'](_ => FREE);
        lsizenode, lastfree, dummy, rank := lsize, size', false, seq(size', _ => 0);
      }
      AllFree(h, node[..], rank);
      NothingStored(node[..]);
      ok := true;
    }

    // One entry goes into the resized table.
    method Reinsert(k: Key, v: Option<Value>)
      requires Valid() && v.Some? && Storable(k) && (HasSlot(k) || Room())
      modifies this, node
      ensures Valid() && |arr| == |old(arr)| && node == old(node) && dummy == old(dummy)
      ensures forall x :: Val(x) == if x == k then v else old(Val(x))
      ensures KeyCount(node[..], node.Length) <= old(KeyCount(node[..], node.Length) + Bit(!HasSlot(k)))
      decreases 0, 2
    {
      hide Scatter, Stored, FreeBelow, NotInArray, KeyCount;
      var s := Set(k, 0);
      ghost var ns := node[..];
      Write(s.value, v, k);
      SameKeyCount(ns, node[..], |ns|);
    }

    // The entries of the vanishing slice of the array go into the hash part.
    method ReinsertArray(was: seq<Option<Value>>, ghost size: nat)
      requires Valid() && |arr| < |was| && arr == was[..|arr|] && forall j :: 0 <= j < node.Length ==> node[j] == FREE
      requires CountArr(was, |arr|, |was|) <= size <= node.Length && (dummy <==> size == 0)
      modifies this, node
      ensures Valid() && |arr| == |old(arr)| && node == old(node) && dummy == old(dummy)
      ensures forall x :: Val(x) == FromArray(was, |was|, x)
      ensures KeyCount(node[..], node.Length) <= CountArr(was, |arr|, |was|)
      decreases 0, 3
    {
      hide Scatter, Stored, FreeBelow, NotInArray, KeyCount;
      NoKeys(node[..], node.Length);
      NothingStored(node[..]);
      assert forall x :: Val(x) == FromArray(was, |arr|, x);
      for i := |arr| to |was|
        invariant Valid() && |arr| == |old(arr)| && node == old(node) && dummy == old(dummy)
        invariant forall x :: Val(x) == FromArray(was, i, x)
        invariant KeyCount(node[..], node.Length) <= CountArr(was, |arr|, i)
      {
        CountArrSplits(was, |arr|, i + 1, |was|);
        if was[i].Some? {
          assert Room();
          Reinsert(Int(i + 1), was[i]);
        }
      }
    }

    // The entries of the old nodes, from the last one down
    method ReinsertNodes(nold: array<Node>, ghost was: seq<Option<Value>>, ghost size: nat)
      requires Valid() && nold != node && Distinct(nold[..]) && FreeUnlinked(nold[..]) && KeysOk(nold[..]) &&
        NotInArray(nold[..], |was|)
      requires forall x :: Val(x) == FromBoth(was, nold[..], nold.Length, x)
      requires KeyCount(node[..], node.Length) + OutNodes(nold[..], nold.Length, |arr|) <= size <= node.Length &&
        (dummy <==> size == 0)
      modifies this, node
      ensures Valid() && |arr| == |old(arr)| && node == old(node) && dummy == old(dummy)
      ensures forall x :: Val(x) == At(was, nold[..], x)
      ensures KeyCount(node[..], node.Length) <=
        old(KeyCount(node[..], node.Length) + OutNodes(nold[..], nold.Length, |arr|))
      decreases 0, 3
    {
      hide Scatter, Stored, FreeBelow, FromBoth, KeyCount;
      ghost var ns0 := nold[..];
      ghost var total := KeyCount(node[..], node.Length) + OutNodes(ns0, nold.Length, |arr|);
      for i := nold.Length downto 0
        invariant Valid() && |arr| == |old(arr)| && node == old(node) && dummy == old(dummy) && nold[..] == ns0
        invariant forall x :: Val(x) == FromBoth(was, ns0, i, x)
        invariant KeyCount(node[..], node.Length) + OutNodes(ns0, i, |arr|) <= total
      {
        if nold[i].val.Some? {
          var k := nold[i].key;
          assert Storable(k) && (HasSlot(k) || Room());
          Reinsert(k, nold[i].val);
        }
        forall x
          ensures FromBoth(was, ns0, i, x) == if x == ns0[i].key && ns0[i].val.Some? then ns0[i].val
            else FromBoth(was, ns0, i + 1, x)
        {
          FromOneMore(was, ns0, i, x);
        }
      }
      FromBothAll(was, ns0);
    }

    // `resize`: nothing is lost, and no rehash is needed on the way.
    method Resize(nasize: nat, nhsize: nat) returns (ok: bool)
      requires Valid() && Outside(arr, node[..], nasize) <= nhsize && nasize <= MAXASIZE
      modifies this
      ensures ok <==> nhsize <= Pow2(MAXBITS)
      ensures fresh(node) || node == old(node)
      ensures ok ==> Valid() && |arr| == nasize && (forall x :: Val(x) == old(Val(x))) && fresh(node)
      ensures ok ==> node.Length >= nhsize && (dummy <==> nhsize == 0)
      ensures ok ==> KeyCount(node[..], node.Length) <= old(Outside(arr, node[..], nasize))
      decreases 0, 4
    {
      hide Scatter, Stored, FreeBelow, KeyCount, CountArr, OutNodes, NotInArray, FromBoth, Pow2;
      ghost var ns0 := node[..];
      var nold, was := node, arr;
      if nasize > |arr| { SetArrayVector(nasize); }
      ok := SetNodeVector(nhsize);
      if !ok { return; }
      NoKeys(node[..], node.Length);
      NothingStored(node[..]);
      CountArrNone(was, nasize);
      if nasize < |was| {
        arr := arr[..nasize];
        ReinsertArray(was, nhsize);
      }
      FromBothNone(was, ns0);
      DistinctOf(h, ns0, old(rank));
      ReinsertNodes(nold, was, nhsize);
    }

    // ----- rehash -----

    // `countint`
    method CountInt(k: Key, nums: array<nat>) returns (c: nat)
      requires nums.Length == MAXBITS + 1
      modifies nums
      ensures c == Bit(Within(k, 0, Pow2(MAXBITS)))
      ensures forall lg :: 0 <= lg <= MAXBITS ==> nums[lg] == old(nums[lg]) + Bit(Within(k, SliceLo(lg), Pow2(lg)))
    {
      forall lg: nat ensures Within(k, SliceLo(lg), Pow2(lg)) <==> k.Int? && k.n > 0 && lg == CeilLog2(k.n) {
        if k.Int? && k.n > 0 { SliceOf(k.n, lg); }
      }
      if k.Int? && 0 < k.n <= MAXASIZE {
        BitsEnough(k.n);
        nums[CeilLog2(k.n)] := nums[CeilLog2(k.n)] + 1;
        c := 1;
      } else {
        if k.Int? && k.n > 0 { BitsEnough(k.n); }
        c := 0;
      }
    }

    // The inner loop of `numusearray`
    method CountSlice(from: nat, lim: nat) returns (lc: nat, i: nat)
      requires 0 < from <= lim + 1 <= |arr| + 1
      ensures i == lim + 1 && lc == CountArr(arr, from - 1, lim)
    {
      lc, i := 0, from;
      CountArrNone(arr, from - 1);
      while i <= lim
        invariant from <= i <= lim + 1 && lc == CountArr(arr, from - 1, i - 1)
      {
        if arr[i - 1].Some? { lc := lc + 1; }
        i := i + 1;
      }
    }

    // `numusearray`
    method NumUseArray(nums: array<nat>) returns (ause: nat)
      requires nums.Length == MAXBITS + 1 && |arr| <= MAXASIZE && forall lg :: 0 <= lg <= MAXBITS ==> nums[lg] == 0
      modifies nums
      ensures ause == CountArr(arr, 0, |arr|)
      ensures forall lg :: 0 <= lg <= MAXBITS ==> nums[lg] == ArrSlice(arr, lg)
    {
      hide Pow2, CountArr, ArrSlice;
      Pow2Next(0);
      ause := 0;
      var i := 1;
      var lg, ttlg := 0, 1;
      CountArrNone(arr, 0);
      while lg <= MAXBITS
        invariant 0 <= lg <= MAXBITS + 1 && ttlg == Pow2(lg)
        invariant i == Min(SliceLo(lg), |arr|) + 1 && ause == CountArr(arr, 0, i - 1)
        invariant forall x :: 0 <= x < lg ==> nums[x] == ArrSlice(arr, x)
        invariant forall x :: lg <= x <= MAXBITS ==> nums[x] == 0
        decreases MAXBITS + 1 - lg
      {
        var lc;
        var lim := ttlg;
        if lim > |arr| {
          lim := |arr|;
          if i > lim { break; }
        }
        SliceDone(arr, lg);
        lc, i := CountSlice(i, lim);
        nums[lg] := nums[lg] + lc;
        ause := ause + lc;
        lg, ttlg := lg + 1, ttlg * 2;
      }
      SlicesPast(lg, |arr|, i);
      forall x | lg <= x <= MAXBITS ensures ArrSlice(arr, x) == 0 { EmptySlice(arr, x); }
    }

    // `numusehash`
    method NumUseHash(nums: array<nat>) returns (totaluse: nat, ause: nat)
      requires nums.Length == MAXBITS + 1
      modifies nums
      ensures totaluse == LiveNodes(node[..], node.Length) && ause == IntNodes(node[..], node.Length, 0, Pow2(MAXBITS))
      ensures forall lg ::
        0 <= lg <= MAXBITS ==> nums[lg] == old(nums[lg]) + IntNodes(node[..], node.Length, SliceLo(lg), Pow2(lg))
    {
      hide Pow2, SliceLo, Within;
      totaluse, ause := 0, 0;
      ghost var ns := node[..];
      for i := node.Length downto 0
        invariant node[..] == ns
        invariant totaluse + LiveNodes(ns, i) == LiveNodes(ns, |ns|)
        invariant ause + IntNodes(ns, i, 0, Pow2(MAXBITS)) == IntNodes(ns, |ns|, 0, Pow2(MAXBITS))
        invariant forall lg :: 0 <= lg <= MAXBITS ==>
          nums[lg] + IntNodes(ns, i, SliceLo(lg), Pow2(lg)) == old(nums[lg]) + IntNodes(ns, |ns|, SliceLo(lg), Pow2(lg))
      {
        if node[i].val.Some? {
          var c := CountInt(node[i].key, nums);
          ause := ause + c;
          totaluse := totaluse + 1;
        }
      }
    }

    // The counting in `rehash`
    method NewSizes(k: Key) returns (nasize: nat, nhsize: nat)
      requires Valid() && Storable(k) && !HasSlot(k)
      ensures BestSize(arr, node[..], k, nasize)
      ensures nhsize == Outside(arr, node[..], nasize) + Bit(!Within(k, 0, nasize))
    {
      hide Scatter, Stored, FreeBelow, CountArr, OutNodes, IntNodes, LiveNodes, Prefix, SlicesFit, Computed, ArrSlice,
        Pow2, BestSize, Sliced;
      hide Counted, Outside, SliceLo;
      ghost var ns := node[..];
      DistinctOf(h, ns, rank);
      NotStored(arr, ns, k);
      var nums := new nat[MAXBITS + 1](_ => 0);
      nasize := NumUseArray(nums);
      ghost var n1 := nums[..];
      var totaluse := nasize;
      var used, ints := NumUseHash(nums);
      ghost var n2 := nums[..];
      totaluse, nasize := totaluse + used, nasize + ints;
      var c := CountInt(k, nums);
      nasize := nasize + c;
      totaluse := totaluse + 1;
      SlicedSum(n1, n2, nums[..], arr, ns, k);
      SlicedFits(nums[..], arr, ns, k);
      SlicedTotal(nums[..], arr, ns, k);
      var na;
      nasize, na := ComputeSizes(nums, nasize);
      ComputedIsBest(nums[..], arr, ns, k, nasize, na);
      HashNeed(arr, ns, k, nasize);
      nhsize := totaluse - na;
    }

    // `luaH_resizearray`, which is only called to let the array grow
    method ResizeArray(nasize: nat)
      requires Valid() && |arr| <= nasize <= MAXASIZE
      modifies this
      ensures Valid() && fresh(node) && |arr| == nasize && Contents() == old(Contents())
    {
      hide Scatter, Stored, FreeBelow, MapOf, NotInArray, OutNodes, KeyCount, CountArr, Pow2, Distinct;
      ghost var a0, ns0 := arr, node[..];
      var nsize := if dummy then 0 else node.Length;
      DistinctOf(h, ns0, rank);
      OutNodesHaveKeys(ns0, |ns0|, nasize);
      CountArrNone(arr, nasize);
      if dummy { NoKeys(ns0, |ns0|); }
      if lsizenode < MAXBITS { Pow2Grows(lsizenode, MAXBITS); }
      var ok := Resize(nasize, nsize);
      forall x ensures At(arr, node[..], x) == At(a0, ns0, x) { assert Val(x) == old(Val(x)); }
      MapSame(a0, ns0, arr, node[..]);
    }

    // `rehash`: the table is resized so that the key has a place.
    method Rehash(k: Key) returns (ok: bool)
      requires Valid() && Storable(k) && !HasSlot(k)
      modifies this
      ensures fresh(node) || node == old(node)
      ensures ok ==> Valid() && (forall x :: Val(x) == old(Val(x))) && fresh(node)
      ensures ok ==> Within(k, 0, |arr|) || Room()
      ensures ok ==> BestSize(old(arr), old(node[..]), k, |arr|)
      ensures !ok ==> TooMany(old(arr), old(node[..]), k)
      decreases 0, 5
    {
      hide Scatter, Stored, FreeBelow, BestSize, Outside, KeyCount;
      var nasize, nhsize := NewSizes(k);
      BestSizeFits(arr, node[..], k, nasize);
      ok := Resize(nasize, nhsize);
    }

    // `luaH_set` and the assignment of the value
    method Put(k: Key, v: Option<Value>) returns (e: Option<Error>)
      requires Valid()
      modifies this, node
      ensures fresh(node) || node == old(node)
      ensures e.None? ==> Valid() && Storable(k) && Contents() == Updated(old(Contents()), k, v)
      ensures !Storable(k) ==>
        Valid() && e == Some(if k.Nil? then NilIndex else NaNIndex) && Contents() == old(Contents())
      ensures Storable(k) && e.Some? ==> e.value == Overflow && |old(Contents())| >= Pow2(MAXBITS)
    {
      hide Scatter, Stored, FreeBelow, MapOf, NotInArray, TooMany, At, Pow2;
      ghost var a0, ns0 := arr, node[..];
      DistinctOf(h, ns0, rank);
      var r := Set(k, 1);
      if r.Err? {
        if Storable(k) { TooManyEntries(a0, ns0, k); }
        return Some(r.error);
      }
      Write(r.value, v, k);
      forall x | x != k ensures At(arr, node[..], x) == At(a0, ns0, x) { assert Val(x) == old(Val(x)); }
      MapUpdated(a0, ns0, arr, node[..], k, v);
      e := None;
    }

    // ----- traversal -----

    // The entries in the order of a traversal: the array, then the nodes
    ghost function KeyAt(i: int): Key
      requires 0 <= i < |arr| + node.Length
      reads this, node
    {
      if i < |arr| then Int(i + 1) else node[i - |arr|].key
    }

    ghost function ValAt(i: int): Option<Value>
      requires 0 <= i < |arr| + node.Length
      reads this, node
    {
      if i < |arr| then arr[i] else node[i - |arr|].val
    }

    // Where the traversal is after the key `k`
    ghost predicate IsIndex(k: Key, i: int)
      reads this, node
    {
      if k.Nil? then i == -1 else 0 <= i < |arr| + node.Length && KeyAt(i) == k
    }

    // `findindex`; none is the error of an invalid key.
    method FindIndex(k: Key) returns (i: Option<int>)
      requires Valid()
      ensures i.Some? <==> k.Nil? || HasSlot(k)
      ensures i.Some? ==> -1 <= i.value < |arr| + node.Length && IsIndex(k, i.value)
    {
      hide Scatter, NotInArray, FreeBelow;
      if k.Nil? { return Some(-1); }
      if k.Int? && 0 < k.n <= |arr| { return Some(k.n - 1); }
      var n := FindNode(k);
      if n == NULL { return None; }
      i := Some(n + |arr|);
    }

    // The next entry with a value, at `j`, or the end
    ghost predicate Follows(i: int, k: Key, v: Option<Value>)
      requires i >= -1
      reads this, node
    {
      var size := |arr| + node.Length;
      if v.None? then forall x :: i < x < size ==> ValAt(x).None?
      else exists j :: i < j < size && KeyAt(j) == k && ValAt(j) == v && forall x :: i < x < j ==> ValAt(x).None?
    }

    // `luaH_next`
    method Next(k: Key) returns (ok: bool, k': Key, v: Option<Value>)
      requires Valid()
      ensures ok <==> k.Nil? || HasSlot(k)
      ensures ok ==> exists i :: IsIndex(k, i) && Follows(i, k', v)
    {
      hide Valid, IsIndex, HasSlot;
      var found := FindIndex(k);
      if found.None? { return false, Nil, None; }
      var i := found.value + 1;
      while i < |arr|
        invariant found.value < i <= |arr| + node.Length
        invariant forall x :: found.value < x < i ==> ValAt(x).None?
      {
        if arr[i].Some? {
          assert KeyAt(i) == Int(i + 1) && ValAt(i) == arr[i];
          return true, Int(i + 1), arr[i];
        }
        i := i + 1;
      }
      i := i - |arr|;
      while i < node.Length
        invariant 0 <= i <= node.Length && found.value < i + |arr|
        invariant forall x :: found.value < x < i + |arr| ==> ValAt(x).None?
      {
        if node[i].val.Some? {
          assert KeyAt(i + |arr|) == node[i].key && ValAt(i + |arr|) == node[i].val;
          return true, node[i].key, node[i].val;
        }
        i := i + 1;
      }
      return true, Nil, None;
    }

    // ----- the length -----

    ghost predicate Border(n: nat)
      reads this, node
    {
      (n == 0 || Int(n) in Contents()) && Int(n + 1) !in Contents()
    }

    lemma BorderOf(n: nat)
      requires (n == 0 || Val(Int(n)).Some?) && Val(Int(n + 1)).None?
      ensures Border(n)
    {
      InMap(arr, node[..], Int(n));
      InMap(arr, node[..], Int(n + 1));
    }

    // `unbound_search`
    method UnboundSearch(j0: nat) returns (i: nat)
      requires Valid() && (j0 == 0 || Val(Int(j0)).Some?) && j0 <= MAX_INT
      ensures Border(i)
    {
      hide Scatter, FreeBelow, NotInArray, MapOf, Stored, Pow2;
      i := j0;
      var j := j0 + 1;
      var v := Get(Int(j));
      while v.Some?
        invariant i < j && j <= MAX_INT + 1 && (i == 0 || Val(Int(i)).Some?) && v == Val(Int(j))
        decreases MAX_INT + 1 - j, v.Some?
      {
        i := j;
        j := j * 2;
        if j > MAX_INT {
          i := LinearSearch();
          return;
        }
        v := Get(Int(j));
      }
      while j - i > 1
        invariant i < j && (i == 0 || Val(Int(i)).Some?) && Val(Int(j)).None?
      {
        var m := (i + j) / 2;
        v := Get(Int(m));
        if v.None? { j := m; } else { i := m; }
      }
      BorderOf(i);
    }

    method LinearSearch() returns (n: nat)
      requires Valid()
      ensures Border(n)
    {
      hide Scatter, FreeBelow, NotInArray, MapOf, Stored, TopIndex;
      var i := 1;
      var v := Get(Int(1));
      ghost var top := TopIndex(node[..], node.Length) + |arr|;
      while v.Some?
        invariant i >= 1 && v == Val(Int(i)) && (i == 1 || Val(Int(i - 1)).Some?)
        decreases top + 1 - i, v.Some?
      {
        BelowTop(arr, node[..], i);
        i := i + 1;
        v := Get(Int(i));
      }
      n := i - 1;
      BorderOf(n);
    }

    // `luaH_getn`
    method GetN() returns (n: nat)
      requires Valid()
      ensures Border(n)
    {
      var j := |arr|;
      if j > 0 && arr[j - 1].None? {
        n := 0;
        while j - n > 1
          invariant n < j <= |arr| && (n == 0 || arr[n - 1].Some?) && arr[j - 1].None?
        {
          var m := (n + j) / 2;
          if arr[m - 1].None? { j := m; } else { n := m; }
        }
        BorderOf(n);
      } else if dummy {
        NothingStored(node[..]);
        n := j;
        BorderOf(n);
      } else {
        n := UnboundSearch(j);
      }
    }
  }
}
