/**
 How many keys a table has, and where they would go: the arithmetic of `rehash`.
 */
module TableSizes {
  import opened TableNodes
  import opened Wrappers
  import opened Powers

  const MAXBITS := 26

  lemma {:induction false} Pow2Grows(a: nat, b: nat)
    requires a < b
    ensures 2 * Pow2(a) <= Pow2(b)
  {
    if a < b - 1 { Pow2Grows(a, b - 1); }
  }

  // `ceillog2`
  function CeilLog2(k: nat): (e: nat)
    requires k > 0
    ensures Pow2(e) >= k && (e > 0 ==> Pow2(e - 1) < k)
  {
    if k == 1 then 0 else 1 + CeilLog2((k + 1) / 2)
  }

  // ----- counting -----

  function Bit(b: bool): nat {
    if b then 1 else 0
  }

  // The values under the indices above `lo`, up to `hi`
  function CountArr(arr: seq<Option<Value>>, lo: nat, hi: nat): (c: nat)
    requires hi <= |arr|
    ensures c <= if lo <= hi then hi - lo else 0
  {
    if hi <= lo then 0 else CountArr(arr, lo, hi - 1) + Bit(arr[hi - 1].Some?)
  }

  predicate Within(k: Key, lo: nat, hi: nat) {
    k.Int? && lo < k.n <= hi
  }

  // The nodes, among the first `i`, with a value under an index above `lo`, up to `hi`
  function IntNodes(ns: seq<Node>, i: nat, lo: nat, hi: nat): nat
    requires i <= |ns|
  {
    if i == 0 then 0 else IntNodes(ns, i - 1, lo, hi) + Bit(ns[i - 1].val.Some? && Within(ns[i - 1].key, lo, hi))
  }

  function LiveNodes(ns: seq<Node>, i: nat): nat
    requires i <= |ns|
  {
    if i == 0 then 0 else LiveNodes(ns, i - 1) + Bit(ns[i - 1].val.Some?)
  }

  // The nodes, among the first `i`, with a value that an array of size `top` has no place for
  function OutNodes(ns: seq<Node>, i: nat, top: nat): nat
    requires i <= |ns|
  {
    if i == 0 then 0 else OutNodes(ns, i - 1, top) + Bit(ns[i - 1].val.Some? && !Within(ns[i - 1].key, 0, top))
  }

  function KeyCount(ns: seq<Node>, i: nat): (c: nat)
    requires i <= |ns|
    ensures c <= i
  {
    if i == 0 then 0 else KeyCount(ns, i - 1) + Bit(!ns[i - 1].key.Nil?)
  }

  // The array part of `arr` and `ns` together, for an array of size `top`
  function Outside(arr: seq<Option<Value>>, ns: seq<Node>, top: nat): nat {
    CountArr(arr, top, |arr|) + OutNodes(ns, |ns|, top)
  }

  function Min(a: nat, b: nat): nat {
    if a < b then a else b
  }

  // All keys above `lo`, up to `hi`, with the key that is to be added
  function Counted(arr: seq<Option<Value>>, ns: seq<Node>, extra: Key, lo: nat, hi: nat): nat {
    CountArr(arr, Min(lo, |arr|), Min(hi, |arr|)) + IntNodes(ns, |ns|, lo, hi) + Bit(Within(extra, lo, hi))
  }

  lemma {:induction false} CountArrSplits(arr: seq<Option<Value>>, lo: nat, mid: nat, hi: nat)
    requires lo <= mid <= hi <= |arr|
    ensures CountArr(arr, lo, hi) == CountArr(arr, lo, mid) + CountArr(arr, mid, hi)
  {
    if mid < hi { CountArrSplits(arr, lo, mid, hi - 1); }
  }

  lemma {:induction false} CountArrSame(arr: seq<Option<Value>>, arr': seq<Option<Value>>, lo: nat, hi: nat)
    requires hi <= |arr| && hi <= |arr'| && forall i :: lo <= i < hi ==> arr[i] == arr'[i]
    ensures CountArr(arr, lo, hi) == CountArr(arr', lo, hi)
  {
    if lo < hi { CountArrSame(arr, arr', lo, hi - 1); }
  }

  lemma {:induction false} IntNodesSplits(ns: seq<Node>, i: nat, lo: nat, mid: nat, hi: nat)
    requires lo <= mid <= hi && i <= |ns|
    ensures IntNodes(ns, i, lo, hi) == IntNodes(ns, i, lo, mid) + IntNodes(ns, i, mid, hi)
  {
    if i > 0 { IntNodesSplits(ns, i - 1, lo, mid, hi); }
  }

  lemma CountedSplits(arr: seq<Option<Value>>, ns: seq<Node>, extra: Key, lo: nat, mid: nat, hi: nat)
    requires lo <= mid <= hi
    ensures Counted(arr, ns, extra, lo, hi) == Counted(arr, ns, extra, lo, mid) + Counted(arr, ns, extra, mid, hi)
  {
    CountArrSplits(arr, Min(lo, |arr|), Min(mid, |arr|), Min(hi, |arr|));
    IntNodesSplits(ns, |ns|, lo, mid, hi);
  }

  lemma {:induction false} NothingCounted(ns: seq<Node>, i: nat, k: nat)
    requires i <= |ns|
    ensures IntNodes(ns, i, k, k) == 0
  {
    if i > 0 { NothingCounted(ns, i - 1, k); }
  }

  lemma {:induction false} LiveSplits(ns: seq<Node>, i: nat, top: nat)
    requires i <= |ns|
    ensures LiveNodes(ns, i) == OutNodes(ns, i, top) + IntNodes(ns, i, 0, top)
  {
    if i > 0 { LiveSplits(ns, i - 1, top); }
  }

  lemma {:induction false} OutNodesHaveKeys(ns: seq<Node>, i: nat, top: nat)
    requires i <= |ns| && FreeUnlinked(ns)
    ensures OutNodes(ns, i, top) <= KeyCount(ns, i)
  {
    if i > 0 { OutNodesHaveKeys(ns, i - 1, top); }
  }

  lemma {:induction false} SomeFree(ns: seq<Node>, i: nat)
    requires i <= |ns| && KeyCount(ns, i) < i
    ensures exists j :: 0 <= j < i && ns[j].key.Nil?
  {
    if !ns[i - 1].key.Nil? { SomeFree(ns, i - 1); }
  }

  lemma {:induction false} NoKeys(ns: seq<Node>, i: nat)
    requires i <= |ns| && forall j :: 0 <= j < i ==> ns[j].key.Nil?
    ensures KeyCount(ns, i) == 0
  {
    if i > 0 { NoKeys(ns, i - 1); }
  }

  lemma {:induction false} OneMoreKey(ns: seq<Node>, ns': seq<Node>, n: nat, i: nat)
    requires i <= |ns| == |ns'| && n < |ns|
    requires forall j :: 0 <= j < |ns| && j != n ==> ns'[j].key.Nil? == ns[j].key.Nil?
    ensures KeyCount(ns', i) <= KeyCount(ns, i) + Bit(n < i)
  {
    if i > 0 { OneMoreKey(ns, ns', n, i - 1); }
  }

  lemma {:induction false} SameKeyCount(ns: seq<Node>, ns': seq<Node>, i: nat)
    requires i <= |ns| == |ns'|
    requires forall j :: 0 <= j < |ns| ==> ns'[j].key.Nil? == ns[j].key.Nil?
    ensures KeyCount(ns', i) == KeyCount(ns, i)
  {
    if i > 0 { SameKeyCount(ns, ns', i - 1); }
  }

  // ----- the slices of the indices: (2^(lg-1), 2^lg] -----

  function SliceLo(lg: nat): nat {
    if lg == 0 then 0 else Pow2(lg - 1)
  }

  lemma SliceOf(k: nat, lg: nat)
    requires k > 0
    ensures SliceLo(lg) < k <= Pow2(lg) <==> lg == CeilLog2(k)
  {
    var e := CeilLog2(k);
    if lg < e {
      if lg < e - 1 { Pow2Grows(lg, e - 1); }
    } else if e < lg {
      if e < lg - 1 { Pow2Grows(e, lg - 1); }
    }
  }

  // The slices hold all the keys there are.
  ghost predicate Sliced(nums: seq<nat>, arr: seq<Option<Value>>, ns: seq<Node>, extra: Key) {
    |nums| == MAXBITS + 1 &&
    forall lg :: 0 <= lg <= MAXBITS ==> nums[lg] == Counted(arr, ns, extra, SliceLo(lg), Pow2(lg))
  }

  function Prefix(nums: seq<nat>, m: nat): nat
    requires m <= |nums|
  {
    if m == 0 then 0 else Prefix(nums, m - 1) + nums[m - 1]
  }

  lemma {:induction false} PrefixGrows(nums: seq<nat>, a: nat, b: nat)
    requires a <= b <= |nums|
    ensures Prefix(nums, a) <= Prefix(nums, b)
  {
    if a < b { PrefixGrows(nums, a, b - 1); }
  }

  lemma {:induction false} PrefixCounts(nums: seq<nat>, arr: seq<Option<Value>>, ns: seq<Node>, extra: Key, e: nat)
    requires Sliced(nums, arr, ns, extra) && e <= MAXBITS
    ensures Prefix(nums, e + 1) == Counted(arr, ns, extra, 0, Pow2(e))
  {
    if e > 0 {
      PrefixCounts(nums, arr, ns, extra, e - 1);
      CountedSplits(arr, ns, extra, 0, Pow2(e - 1), Pow2(e));
    }
  }

  // ----- the indices in use -----

  // What the table has under a key
  ghost function At(arr: seq<Option<Value>>, ns: seq<Node>, k: Key): Option<Value> {
    if k.Int? && 1 <= k.n <= |arr| then arr[k.n - 1] else Stored(ns, k)
  }

  ghost function InUse(arr: seq<Option<Value>>, ns: seq<Node>, extra: Key, n: nat): (c: nat)
    ensures c <= n
  {
    if n == 0 then 0 else InUse(arr, ns, extra, n - 1) + Bit(At(arr, ns, Int(n)).Some? || extra == Int(n))
  }

  // No key of the hash part belongs in the array.
  ghost predicate NotInArray(ns: seq<Node>, size: nat) {
    forall i :: 0 <= i < |ns| ==> !Within(ns[i].key, 0, size)
  }

  lemma {:induction false} OneNode(ns: seq<Node>, i: nat, n: nat)
    requires Distinct(ns) && i <= |ns| && n > 0
    ensures IntNodes(ns, i, n - 1, n) == Bit(exists j :: 0 <= j < i && ns[j].key == Int(n) && ns[j].val.Some?)
  {
    if i > 0 { OneNode(ns, i - 1, n); }
  }

  lemma StoredOrNot(ns: seq<Node>, k: Key)
    requires Distinct(ns) && !k.Nil?
    ensures Stored(ns, k).Some? <==> exists j :: 0 <= j < |ns| && ns[j].key == k && ns[j].val.Some?
  {
    if j :| 0 <= j < |ns| && ns[j].key == k { StoredAt(ns, j); }
  }

  lemma {:induction false} InUseIsCounted(arr: seq<Option<Value>>, ns: seq<Node>, extra: Key, n: nat)
    requires Distinct(ns) && NotInArray(ns, |arr|) && At(arr, ns, extra) == None
    ensures InUse(arr, ns, extra, n) == Counted(arr, ns, extra, 0, n)
  {
    hide Distinct, NotInArray, At;
    if n == 0 {
      NothingCounted(ns, |ns|, 0);
    } else {
      hide Counted;
      InUseIsCounted(arr, ns, extra, n - 1);
      CountedSplits(arr, ns, extra, 0, n - 1, n);
      OneCounted(arr, ns, extra, n);
    }
  }

  lemma OneCounted(arr: seq<Option<Value>>, ns: seq<Node>, extra: Key, n: nat)
    requires Distinct(ns) && NotInArray(ns, |arr|) && At(arr, ns, extra) == None && n > 0
    ensures Counted(arr, ns, extra, n - 1, n) == Bit(At(arr, ns, Int(n)).Some? || extra == Int(n))
  {
    OneNode(ns, |ns|, n);
    StoredOrNot(ns, Int(n));
    hide Distinct, Stored;
    if n <= |arr| {
      assert CountArr(arr, n - 1, n) == Bit(arr[n - 1].Some?);
    }
  }

  lemma {:induction false} InUseBound(arr: seq<Option<Value>>, ns: seq<Node>, extra: Key, m: nat, n: nat)
    requires m <= n
    ensures InUse(arr, ns, extra, m) <= InUse(arr, ns, extra, n) <= InUse(arr, ns, extra, m) + (n - m)
  {
    if m < n { InUseBound(arr, ns, extra, m, n - 1); }
  }

  // The size `n` of the array part that `computesizes` is to find: the largest power of two
  // with more than half of its indices in use.
  ghost predicate BestSize(arr: seq<Option<Value>>, ns: seq<Node>, extra: Key, n: nat) {
    && (n == 0 || exists e: nat :: e <= MAXBITS && n == Pow2(e))
    && (n > 0 ==> 2 * InUse(arr, ns, extra, n) > n)
    && forall e: nat :: e <= MAXBITS && Pow2(e) > n ==> 2 * InUse(arr, ns, extra, Pow2(e)) <= Pow2(e)
  }

  // No slice counts more than it has indices.
  ghost predicate SlicesFit(nums: seq<nat>) {
    forall lg :: 0 <= lg < |nums| ==> nums[lg] <= Pow2(lg) - SliceLo(lg)
  }

  lemma SlicedFits(nums: seq<nat>, arr: seq<Option<Value>>, ns: seq<Node>, extra: Key)
    requires Sliced(nums, arr, ns, extra) && Distinct(ns) && NotInArray(ns, |arr|) && At(arr, ns, extra) == None
    ensures SlicesFit(nums)
  {
    forall lg | 0 <= lg < |nums| ensures nums[lg] <= Pow2(lg) - SliceLo(lg) {
      CountedSplits(arr, ns, extra, 0, SliceLo(lg), Pow2(lg));
      InUseIsCounted(arr, ns, extra, SliceLo(lg));
      InUseIsCounted(arr, ns, extra, Pow2(lg));
      InUseBound(arr, ns, extra, SliceLo(lg), Pow2(lg));
    }
  }

  lemma {:induction false} PrefixFits(nums: seq<nat>, e: nat)
    requires SlicesFit(nums) && e < |nums|
    ensures Prefix(nums, e + 1) <= Pow2(e)
  {
    if e > 0 { PrefixFits(nums, e - 1); }
  }

  // What `computesizes` returns
  ghost predicate Computed(nums: seq<nat>, n: nat, na: nat) {
    && ((n == 0 && na == 0) || exists e: nat :: e < |nums| && n == Pow2(e) && na == Prefix(nums, e + 1) && 2 * na > n)
    && forall e: nat :: e < |nums| && Pow2(e) > n ==> 2 * Prefix(nums, e + 1) <= Pow2(e)
  }

  lemma ComputedIsBest(nums: seq<nat>, arr: seq<Option<Value>>, ns: seq<Node>, extra: Key, n: nat, na: nat)
    requires Sliced(nums, arr, ns, extra) && Distinct(ns) && NotInArray(ns, |arr|) && At(arr, ns, extra) == None
    requires Computed(nums, n, na)
    ensures BestSize(arr, ns, extra, n) && na == Counted(arr, ns, extra, 0, n)
  {
    hide Distinct, NotInArray, At, Counted, Prefix, InUse, Pow2;
    InUseIsCounted(arr, ns, extra, n);
    assert |nums| == MAXBITS + 1;
    if n > 0 {
      var e: nat :| e < |nums| && n == Pow2(e) && na == Prefix(nums, e + 1) && 2 * na > n;
      PrefixInUse(nums, arr, ns, extra, e);
    } else {
      assert InUse(arr, ns, extra, 0) == 0;
    }
    forall e: nat | e <= MAXBITS && Pow2(e) > n ensures 2 * InUse(arr, ns, extra, Pow2(e)) <= Pow2(e) {
      PrefixInUse(nums, arr, ns, extra, e);
    }
  }

  lemma PrefixInUse(nums: seq<nat>, arr: seq<Option<Value>>, ns: seq<Node>, extra: Key, e: nat)
    requires Sliced(nums, arr, ns, extra) && Distinct(ns) && NotInArray(ns, |arr|) && At(arr, ns, extra) == None
    requires e <= MAXBITS
    ensures Prefix(nums, e + 1) == InUse(arr, ns, extra, Pow2(e))
  {
    hide Sliced, Distinct, NotInArray, At, Counted, Prefix, InUse, Pow2;
    PrefixCounts(nums, arr, ns, extra, e);
    InUseIsCounted(arr, ns, extra, Pow2(e));
  }

  // The hash part gets one place for every key that does not go into the array.
  lemma HashNeed(arr: seq<Option<Value>>, ns: seq<Node>, extra: Key, n: nat)
    ensures CountArr(arr, 0, |arr|) + LiveNodes(ns, |ns|) + 1
         == Counted(arr, ns, extra, 0, n) + Outside(arr, ns, n) + Bit(!Within(extra, 0, n))
  {
    LiveSplits(ns, |ns|, n);
    CountArrSplits(arr, 0, Min(n, |arr|), |arr|);
  }
}
