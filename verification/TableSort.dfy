/**
 `table.sort`: quicksort in place, see ltablib.c. The order is given by the caller.
 */
module TableSort {
  import opened Powers

  // Elements and their order; what the order compares does not matter here.
  type Element = int
  type Order = (Element, Element) -> bool

  ghost predicate StrictWeak(lt: Order) {
    && (forall x :: !lt(x, x))
    && (forall x, y, z :: lt(x, y) && lt(y, z) ==> lt(x, z))
    && (forall x, y, z :: !lt(x, y) && !lt(y, z) ==> !lt(x, z))
  }

  // The same among the elements of `e`, all that the order is ever asked about: `<` is one
  // among numbers that are not NaN.
  ghost predicate StrictWeakAmong(lt: Order, e: multiset<Element>) {
    && (forall x :: x in e ==> !lt(x, x))
    && (forall x, y, z :: x in e && y in e && z in e && lt(x, y) && lt(y, z) ==> lt(x, z))
    && (forall x, y, z :: x in e && y in e && z in e && !lt(x, y) && !lt(y, z) ==> !lt(x, z))
  }

  ghost predicate Agree(lt: Order, ord: Order, s: seq<Element>) {
    forall x, y :: x in s && y in s ==> lt(x, y) == ord(x, y)
  }

  // The elements as `lt` has them, and all else after them
  function Extended(lt: Order, e: multiset<Element>): Order {
    (x, y) => x in e && (y in e ==> lt(x, y))
  }

  lemma ExtendedOrder(lt: Order, s: seq<Element>)
    requires StrictWeakAmong(lt, multiset(s))
    ensures StrictWeak(Extended(lt, multiset(s))) && Agree(lt, Extended(lt, multiset(s)), s)
  {
  }

  // `x` may stand before `y`.
  predicate Le(lt: Order, x: Element, y: Element) {
    !lt(y, x)
  }

  ghost predicate Sorted(lt: Order, s: seq<Element>) {
    forall i, j :: 0 <= i <= j < |s| ==> Le(lt, s[i], s[j])
  }

  // Between `l` and `u` the second is a permutation of the first; the rest is the same.
  ghost predicate Rearranged(s: seq<Element>, t: seq<Element>, l: int, u: int) {
    && |s| == |t| && multiset(s) == multiset(t)
    && forall i :: 0 <= i < |s| && !(l <= i <= u) ==> t[i] == s[i]
  }

  // All of the one range may stand before `p`, and `p` before all of the other.
  ghost predicate Below(lt: Order, s: seq<Element>, l: int, u: int, p: Element) {
    forall k :: l <= k <= u && 0 <= k < |s| ==> Le(lt, s[k], p)
  }

  ghost predicate Above(lt: Order, s: seq<Element>, l: int, u: int, p: Element) {
    forall k :: l <= k <= u && 0 <= k < |s| ==> Le(lt, p, s[k])
  }

  lemma SwapRearranges(s: seq<Element>, t: seq<Element>, i: nat, j: nat, l: int, u: int)
    requires l <= i <= u && l <= j <= u && i < |s| && j < |s| && t == s[i := s[j]][j := s[i]]
    ensures Rearranged(s, t, l, u)
  {
  }

  lemma RearrangedOn(s: seq<Element>, t: seq<Element>, v: seq<Element>, l: int, u: int, l': int, u': int)
    requires Rearranged(s, t, l, u) && Rearranged(t, v, l', u') && l <= l' && u' <= u
    ensures Rearranged(s, v, l, u)
  {
  }

  lemma AgreeStays(lt: Order, ord: Order, s: seq<Element>, t: seq<Element>, l: int, u: int)
    requires Agree(lt, ord, s) && Rearranged(s, t, l, u)
    ensures Agree(lt, ord, t)
  {
    forall x, y | x in t && y in t ensures lt(x, y) == ord(x, y) {
      assert x in multiset(t) && y in multiset(t);
      assert x in s && y in s;
    }
  }

  lemma AgreeOn(lt: Order, ord: Order, s: seq<Element>, x: Element, y: Element)
    requires Agree(lt, ord, s) && x in s && y in s
    ensures lt(x, y) == ord(x, y)
  {
  }

  lemma ThreeParts(s: seq<Element>, l: nat, u: nat)
    requires l <= u + 1 <= |s|
    ensures multiset(s) == multiset(s[..l]) + multiset(s[l..u + 1]) + multiset(s[u + 1..])
  {
    assert s == s[..l] + s[l..];
    assert s[l..] == s[l..u + 1] + s[u + 1..];
  }

  lemma Cancel(a: multiset<Element>, b: multiset<Element>, b': multiset<Element>, c: multiset<Element>)
    requires a + b + c == a + b' + c
    ensures b == b'
  {
    assert b == (a + b + c) - a - c && b' == (a + b' + c) - a - c;
  }

  lemma RangeMultiset(s: seq<Element>, t: seq<Element>, l: nat, u: int)
    requires Rearranged(s, t, l, u) && l <= u < |s|
    ensures multiset(s[l..u + 1]) == multiset(t[l..u + 1])
  {
    ThreeParts(s, l, u);
    ThreeParts(t, l, u);
    assert s[..l] == t[..l];
    assert s[u + 1..] == t[u + 1..];
    Cancel(multiset(s[..l]), multiset(s[l..u + 1]), multiset(t[l..u + 1]), multiset(s[u + 1..]));
  }

  // Where an element of a rearranged range was
  lemma RangeElements(s: seq<Element>, t: seq<Element>, l: nat, u: int, k: nat) returns (i: nat)
    requires Rearranged(s, t, l, u) && l <= k <= u < |s|
    ensures l <= i <= u && s[i] == t[k]
  {
    RangeMultiset(s, t, l, u);
    var b, b' := s[l..u + 1], t[l..u + 1];
    assert b'[k - l] == t[k];
    assert t[k] in multiset(b');
    var j :| 0 <= j < |b| && b[j] == t[k];
    i := l + j;
  }

  lemma BelowStays(lt: Order, s: seq<Element>, t: seq<Element>, l: nat, u: int, p: Element)
    requires Rearranged(s, t, l, u) && u < |s| && Below(lt, s, l, u, p)
    ensures Below(lt, t, l, u, p)
  {
    forall k | l <= k <= u ensures Le(lt, t[k], p) { var i := RangeElements(s, t, l, u, k); }
  }

  lemma AboveStays(lt: Order, s: seq<Element>, t: seq<Element>, l: nat, u: int, p: Element)
    requires Rearranged(s, t, l, u) && u < |s| && Above(lt, s, l, u, p)
    ensures Above(lt, t, l, u, p)
  {
    forall k | l <= k <= u ensures Le(lt, p, t[k]) { var i := RangeElements(s, t, l, u, k); }
  }

  ghost predicate SortedRange(lt: Order, s: seq<Element>, l: int, u: int) {
    forall i, j :: 0 <= l <= i <= j <= u < |s| ==> Le(lt, s[i], s[j])
  }

  lemma StrictOrder(ord: Order, x: Element, y: Element)
    requires StrictWeak(ord)
    ensures ord(y, x) ==> Le(ord, y, x)
  {
  }

  // `sort_comp` and `set2`: the two elements are put in order.
  method PutInOrder(a: array<Element>, lt: Order, ghost ord: Order, i: nat, j: nat, ghost l: nat, ghost u: nat)
      returns (swapped: bool)
    requires StrictWeak(ord) && Agree(lt, ord, a[..])
    requires l <= i < j <= u < a.Length
    modifies a
    ensures swapped == ord(old(a[j]), old(a[i]))
    ensures a[..] == if swapped then old(a[..])[i := old(a[j])][j := old(a[i])] else old(a[..])
    ensures Rearranged(old(a[..]), a[..], l, u) && Le(ord, a[i], a[j])
  {
    hide Agree, StrictWeak;
    ghost var s := a[..];
    AgreeOn(lt, ord, s, s[j], s[i]);
    StrictOrder(ord, s[i], s[j]);
    swapped := lt(a[j], a[i]);
    if swapped {
      a[i], a[j] := a[j], a[i];
      SwapRearranges(s, a[..], i, j, l, u);
    }
  }

  // The elements at `l`, in the middle and at `u`, in order
  method MedianOfThree(a: array<Element>, lt: Order, ghost ord: Order, l: nat, u: nat) returns (i: nat)
    requires StrictWeak(ord) && Agree(lt, ord, a[..])
    requires l < u < a.Length
    modifies a
    ensures Rearranged(old(a[..]), a[..], l, u) && i == (l + u) / 2
    ensures u - l == 1 ==> Le(ord, a[l], a[u])
    ensures u - l > 1 ==> Le(ord, a[l], a[i]) && Le(ord, a[i], a[u])
  {
    hide Rearranged, Agree, StrictWeak;
    ghost var s := a[..];
    i := (l + u) / 2;
    var b := PutInOrder(a, lt, ord, l, u, l, u);
    ghost var t := a[..];
    if u - l == 1 { return; }
    AgreeStays(lt, ord, s, t, l, u);
    b := PutInOrder(a, lt, ord, l, i, l, u);
    RearrangedOn(s, t, a[..], l, u, l, u);
    if !b {
      t := a[..];
      AgreeStays(lt, ord, s, t, l, u);
      b := PutInOrder(a, lt, ord, i, u, l, u);
      RearrangedOn(s, t, a[..], l, u, l, u);
    }
  }

  // The state of the partition: the pivot is kept at `u - 1`, what is below `i` or at it may
  // stand before the pivot, and what is above `j` or at it after it.
  ghost predicate Parting(lt: Order, s: seq<Element>, l: nat, u: nat, i: nat, j: nat, p: Element) {
    && l + 2 < u < |s| && l <= i < u && l < j < u && s[u - 1] == p
    && Below(lt, s, l, i, p) && Above(lt, s, j, u, p)
  }

  lemma RearrangedSelf(s: seq<Element>, l: int, u: int)
    ensures Rearranged(s, s, l, u)
  {
  }

  // The two scans. They stop inside the range: the order is a proper one.
  method Scan(a: array<Element>, lt: Order, ghost ord: Order, l: nat, u: nat, i0: nat, j0: nat, p: Element)
      returns (i: nat, j: nat)
    requires StrictWeak(ord) && Agree(lt, ord, a[..])
    requires u < a.Length && Parting(ord, a[..], l, u, i0, j0, p) && i0 <= j0 < u &&
      (i0 == j0 ==> l < i0 < u - 1)
    ensures i0 < i < u && l <= j < j0
    ensures Below(ord, a[..], l, i - 1, p) && Le(ord, p, a[i])
    ensures Above(ord, a[..], j + 1, u, p) && Le(ord, a[j], p)
  {
    hide Agree;
    ghost var s := a[..];
    assert p == s[u - 1];
    forall k | 0 <= k < a.Length ensures lt(a[k], p) == ord(s[k], p) && lt(p, a[k]) == ord(p, s[k]) {
      AgreeOn(lt, ord, s, s[k], p);
      AgreeOn(lt, ord, s, p, s[k]);
    }
    i, j := i0 + 1, j0 - 1;
    while lt(a[i], p)
      invariant i0 < i < u && Below(ord, s, l, i - 1, p)
      decreases u - i
    {
      i := i + 1;
    }
    while lt(p, a[j])
      invariant l <= j < j0 && Above(ord, s, j + 1, u, p)
      decreases j
    {
      assert Le(ord, s[l], p);
      j := j - 1;
    }
  }

  // The two elements the scans found are swapped.
  lemma PartingSwap(lt: Order, t: seq<Element>, l: nat, u: nat, i0: nat, j0: nat, i: nat, j: nat, p: Element)
    requires Parting(lt, t, l, u, i0, j0, p) && l <= i0 < i <= j < j0 < u && Le(lt, p, t[i]) && Le(lt, t[j], p)
    requires Below(lt, t, l, i - 1, p) && Above(lt, t, j + 1, u, p)
    ensures Parting(lt, t[i := t[j]][j := t[i]], l, u, i, j, p) && l < i && j < u - 1
  {
  }

  // The pivot goes where the scans have crossed.
  lemma PivotPlaced(lt: Order, t: seq<Element>, l: nat, u: nat, i: nat, j: nat, p: Element)
    requires u < |t| && l < i < u && j < i && t[u - 1] == p && Le(lt, p, t[i])
    requires Below(lt, t, l, i - 1, p) && Above(lt, t, j + 1, u, p)
    ensures var v := t[u - 1 := t[i]][i := t[u - 1]];
      v[i] == p && Below(lt, v, l, i - 1, p) && Above(lt, v, i + 1, u, p)
  {
  }

  // One round of the partition: the scans cross, or a swap
  method PartitionStep(a: array<Element>, lt: Order, ghost ord: Order, l: nat, u: nat, i0: nat, j0: nat, p: Element)
      returns (i: nat, j: nat)
    requires StrictWeak(ord) && Agree(lt, ord, a[..])
    requires u < a.Length && Parting(ord, a[..], l, u, i0, j0, p) && i0 <= j0 < u &&
      (i0 == j0 ==> l < i0 < u - 1)
    modifies a
    ensures Rearranged(old(a[..]), a[..], l, u) && l < i < u && j < j0 && a[u - 1] == p
    ensures j < i ==> Le(ord, p, a[i]) && Below(ord, a[..], l, i - 1, p) && Above(ord, a[..], j + 1, u, p)
    ensures i <= j ==> Parting(ord, a[..], l, u, i, j, p) && j < u - 1
  {
    hide Rearranged, StrictWeak, Below, Above, Agree;
    ghost var t := a[..];
    i, j := Scan(a, lt, ord, l, u, i0, j0, p);
    RearrangedSelf(t, l, u);
    if i <= j {
      PartingSwap(ord, t, l, u, i0, j0, i, j, p);
      a[i], a[j] := a[j], a[i];
      assert a[..] == t[i := t[j]][j := t[i]];
      SwapRearranges(t, a[..], i, j, l, u);
    }
  }

  // The loop of the partition, to the place of the pivot
  method Partition(a: array<Element>, lt: Order, ghost ord: Order, l: nat, u: nat, p: Element) returns (i: nat)
    requires StrictWeak(ord) && Agree(lt, ord, a[..])
    requires l + 2 < u < a.Length && Parting(ord, a[..], l, u, l, u - 1, p)
    modifies a
    ensures Rearranged(old(a[..]), a[..], l, u) && l < i < u
    ensures a[i] == p && Below(ord, a[..], l, i - 1, p) && Above(ord, a[..], i + 1, u, p)
  {
    hide Rearranged, StrictWeak, Below, Above, Parting, Agree;
    ghost var s := a[..];
    i := l;
    var j: nat := u - 1;
    RearrangedSelf(s, l, u);
    while true
      invariant Parting(ord, a[..], l, u, i, j, p) && l <= i <= j < u && (i == j ==> l < i < u - 1) &&
        Rearranged(s, a[..], l, u)
      decreases j
    {
      ghost var t := a[..];
      AgreeStays(lt, ord, s, t, l, u);
      i, j := PartitionStep(a, lt, ord, l, u, i, j, p);
      RearrangedOn(s, t, a[..], l, u, l, u);
      if j < i { break; }
    }
    ghost var t := a[..];
    PlacePivot(a, ord, l, u, i, j, p);
    RearrangedOn(s, t, a[..], l, u, l, u);
  }

  // The pivot and the element at `i` are swapped.
  method PlacePivot(a: array<Element>, ghost lt: Order, l: nat, u: nat, i: nat, ghost j: nat, p: Element)
    requires u < a.Length && l < i < u && j < i && a[u - 1] == p && Le(lt, p, a[i])
    requires Below(lt, a[..], l, i - 1, p) && Above(lt, a[..], j + 1, u, p)
    modifies a
    ensures Rearranged(old(a[..]), a[..], l, u)
    ensures a[i] == p && Below(lt, a[..], l, i - 1, p) && Above(lt, a[..], i + 1, u, p)
  {
    hide Rearranged, Below, Above;
    ghost var t := a[..];
    PivotPlaced(lt, t, l, u, i, j, p);
    a[u - 1], a[i] := a[i], a[u - 1];
    assert a[..] == t[u - 1 := t[i]][i := t[u - 1]];
    SwapRearranges(t, a[..], u - 1, i, l, u);
  }

  lemma FewSorted(lt: Order, s: seq<Element>, l: nat, u: nat)
    requires StrictWeak(lt) && l < u < |s| && u - l <= 2
    requires if u - l == 1 then Le(lt, s[l], s[u]) else Le(lt, s[l], s[l + 1]) && Le(lt, s[l + 1], s[u])
    ensures SortedRange(lt, s, l, u)
  {
  }

  lemma PartingStarts(lt: Order, t: seq<Element>, l: nat, u: nat, i: nat)
    requires StrictWeak(lt) && l + 2 < u < |t| && l < i < u && Le(lt, t[l], t[i]) && Le(lt, t[i], t[u])
    ensures Parting(lt, t[i := t[u - 1]][u - 1 := t[i]], l, u, l, u - 1, t[i])
  {
  }

  // The pivot goes out of the way.
  method SetPivot(a: array<Element>, ghost ord: Order, l: nat, u: nat, i: nat)
    requires StrictWeak(ord) && l + 2 < u < a.Length && l < i < u && Le(ord, a[l], a[i]) && Le(ord, a[i], a[u])
    modifies a
    ensures Rearranged(old(a[..]), a[..], l, u) && Parting(ord, a[..], l, u, l, u - 1, old(a[i]))
  {
    hide Rearranged, Parting, StrictWeak;
    ghost var t := a[..];
    PartingStarts(ord, t, l, u, i);
    a[i], a[u - 1] := a[u - 1], a[i];
    assert a[..] == t[i := t[u - 1]][u - 1 := t[i]];
    SwapRearranges(t, a[..], i, u - 1, l, u);
  }

  // One round of `auxsort`: done, or the pivot is in its place at `i`.
  method Divide(a: array<Element>, lt: Order, ghost ord: Order, l: nat, u: nat) returns (done: bool, i: nat)
    requires StrictWeak(ord) && Agree(lt, ord, a[..])
    requires l < u < a.Length
    modifies a
    ensures Rearranged(old(a[..]), a[..], l, u)
    ensures done ==> SortedRange(ord, a[..], l, u)
    ensures !done ==> l < i < u && Below(ord, a[..], l, i - 1, a[i]) && Above(ord, a[..], i + 1, u, a[i])
  {
    hide Rearranged, Below, Above, Parting, SortedRange, Agree, StrictWeak;
    ghost var s := a[..];
    i := MedianOfThree(a, lt, ord, l, u);
    if u - l <= 2 {
      FewSorted(ord, a[..], l, u);
      return true, i;
    }
    ghost var t := a[..];
    var p := a[i];
    SetPivot(a, ord, l, u, i);
    RearrangedOn(s, t, a[..], l, u, l, u);
    t := a[..];
    AgreeStays(lt, ord, s, t, l, u);
    i := Partition(a, lt, ord, l, u, p);
    RearrangedOn(s, t, a[..], l, u, l, u);
    done := false;
  }

  // Only the range from `l` to `u` is still to be sorted.
  ghost predicate Settled(lt: Order, s: seq<Element>, l0: int, u0: int, l: int, u: int) {
    forall i, j :: 0 <= l0 <= i <= j <= u0 < |s| && !(l <= i && j <= u) ==> Le(lt, s[i], s[j])
  }

  lemma SettledStays(lt: Order, s: seq<Element>, t: seq<Element>, l0: nat, u0: int, l: nat, u: int)
    requires Settled(lt, s, l0, u0, l, u) && Rearranged(s, t, l, u) && l0 <= l && u <= u0 < |s| && StrictWeak(lt)
    ensures Settled(lt, t, l0, u0, l, u)
  {
    forall i, j | l0 <= i <= j <= u0 && !(l <= i && j <= u) ensures Le(lt, t[i], t[j]) {
      var i', j' := i, j;
      if l <= i <= u { i' := RangeElements(s, t, l, u, i); }
      if l <= j <= u { j' := RangeElements(s, t, l, u, j); }
    }
  }

  lemma SettledLeft(lt: Order, s: seq<Element>, l0: nat, u0: int, l: nat, u: nat, i: nat)
    requires StrictWeak(lt) && Settled(lt, s, l0, u0, l, u) && l0 <= l < i < u <= u0 < |s|
    requires Below(lt, s, l, i - 1, s[i]) && Above(lt, s, i + 1, u, s[i]) && SortedRange(lt, s, l, i - 1)
    ensures Settled(lt, s, l0, u0, i + 1, u)
  {
  }

  lemma SettledRight(lt: Order, s: seq<Element>, l0: nat, u0: int, l: nat, u: nat, i: nat)
    requires StrictWeak(lt) && Settled(lt, s, l0, u0, l, u) && l0 <= l < i < u <= u0 < |s|
    requires Below(lt, s, l, i - 1, s[i]) && Above(lt, s, i + 1, u, s[i]) && SortedRange(lt, s, i + 1, u)
    ensures Settled(lt, s, l0, u0, l, i - 1)
  {
  }

  // `auxsort`: the smaller half is sorted by a call, the larger one by the loop, so that the
  // calls nest no deeper than the logarithm of the size. `ord` is a proper order for all there
  // is, and the same as `lt` for the elements of the array.
  method AuxSort(a: array<Element>, lt: Order, ghost ord: Order, l0: nat, u0: int) returns (ghost depth: nat)
    requires StrictWeak(ord) && Agree(lt, ord, a[..])
    requires -1 <= u0 < a.Length && l0 <= u0 + 1
    modifies a
    ensures Rearranged(old(a[..]), a[..], l0, u0) && SortedRange(ord, a[..], l0, u0)
    ensures Pow2(depth) <= u0 - l0 + 2
    decreases u0 - l0 + 1
  {
    hide Rearranged, Below, Above, Settled, SortedRange, StrictWeak, Pow2, Agree;
    var l: nat, u: int := l0, u0;
    depth := 0;
    ghost var s := a[..];
    RearrangedSelf(s, l0, u0);
    SettledStarts(ord, s, l0, u0);
    while l < u
      invariant l0 <= l && u <= u0 && Rearranged(s, a[..], l0, u0) && Settled(ord, a[..], l0, u0, l, u)
      invariant Pow2(depth) <= u0 - l0 + 2
      decreases u - l
    {
      ghost var t := a[..];
      AgreeStays(lt, ord, s, t, l0, u0);
      var done, i := Divide(a, lt, ord, l, u);
      RearrangedOn(s, t, a[..], l0, u0, l, u);
      SettledStays(ord, t, a[..], l0, u0, l, u);
      if done {
        SettledEnds(ord, a[..], l0, u0, l, u);
        return;
      }
      t := a[..];
      AgreeStays(lt, ord, s, t, l0, u0);
      ghost var d;
      if i - l < u - i {
        d := AuxSort(a, lt, ord, l, i - 1);
        HalfSorted(ord, s, t, a[..], l0, u0, l, u, i, l, i - 1);
        SettledLeft(ord, a[..], l0, u0, l, u, i);
        l := i + 1;
      } else {
        d := AuxSort(a, lt, ord, i + 1, u);
        HalfSorted(ord, s, t, a[..], l0, u0, l, u, i, i + 1, u);
        SettledRight(ord, a[..], l0, u0, l, u, i);
        u := i - 1;
      }
      DepthNext(d);
      if d + 1 > depth { depth := d + 1; }
    }
    SettledEnds(ord, a[..], l0, u0, l, u);
  }

  lemma DepthNext(d: nat)
    ensures Pow2(0) == 1 && Pow2(d + 1) == 2 * Pow2(d)
  {
  }

  lemma SettledStarts(lt: Order, s: seq<Element>, l0: nat, u0: int)
    ensures Settled(lt, s, l0, u0, l0, u0) && Pow2(0) == 1
  {
  }

  lemma SettledEnds(lt: Order, s: seq<Element>, l0: nat, u0: int, l: nat, u: int)
    requires StrictWeak(lt) && Settled(lt, s, l0, u0, l, u) && l0 <= l && u <= u0 &&
      (l >= u || SortedRange(lt, s, l, u))
    ensures SortedRange(lt, s, l0, u0)
  {
  }

  // Sorting one half leaves the pivot and the bounds of both halves as they are.
  lemma HalfSorted(lt: Order, s: seq<Element>, t: seq<Element>, v: seq<Element>, l0: nat, u0: int, l: nat, u: nat,
      i: nat, l': nat, u': nat)
    requires StrictWeak(lt) && l0 <= l < i < u <= u0 < |t| && ((l' == l && u' == i - 1) || (l' == i + 1 && u' == u))
    requires Rearranged(s, t, l0, u0) && Rearranged(t, v, l', u') && Settled(lt, t, l0, u0, l, u)
    requires Below(lt, t, l, i - 1, t[i]) && Above(lt, t, i + 1, u, t[i])
    ensures Rearranged(s, v, l0, u0) && Settled(lt, v, l0, u0, l, u)
    ensures |v| == |t| && Below(lt, v, l, i - 1, v[i]) && Above(lt, v, i + 1, u, v[i])
  {
    RearrangedOn(s, t, v, l0, u0, l', u');
    WiderRearranged(t, v, l', u', l, u);
    SettledStays(lt, t, v, l0, u0, l, u);
    if l' == l {
      BelowStays(lt, t, v, l, i - 1, t[i]);
    } else {
      AboveStays(lt, t, v, i + 1, u, t[i]);
    }
  }

  lemma WiderRearranged(t: seq<Element>, v: seq<Element>, l': nat, u': nat, l: nat, u: nat)
    requires Rearranged(t, v, l', u') && l <= l' && u' <= u
    ensures Rearranged(t, v, l, u)
  {
  }

  // `table.sort`
  method Sort(a: array<Element>, lt: Order) returns (ghost depth: nat)
    requires StrictWeakAmong(lt, multiset(a[..]))
    modifies a
    ensures multiset(a[..]) == multiset(old(a[..])) && Sorted(lt, a[..])
    ensures Pow2(depth) <= a.Length + 1
  {
    ghost var s := a[..];
    ghost var ord := Extended(lt, multiset(s));
    ExtendedOrder(lt, s);
    depth := AuxSort(a, lt, ord, 0, a.Length - 1);
    AgreeStays(lt, ord, s, a[..], 0, a.Length - 1);
    SortedAlike(lt, ord, a[..]);
  }

  lemma SortedAlike(lt: Order, ord: Order, s: seq<Element>)
    requires Agree(lt, ord, s) && SortedRange(ord, s, 0, |s| - 1)
    ensures Sorted(lt, s)
  {
    forall i, j | 0 <= i <= j < |s| ensures Le(lt, s[i], s[j]) {
      assert s[i] in s && s[j] in s;
      assert Le(ord, s[i], s[j]);
    }
  }
}
