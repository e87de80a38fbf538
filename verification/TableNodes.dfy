/**
 The hash part of a table: a chained scatter table with Brent's variation.
 The nodes are a vector; a chain is threaded through `next`.
 */
module TableNodes {
  import opened Wrappers

  // A value that is not nil, by name
  type Value = int

  // A number without an integer value, a string, a boolean or an object is an `Other`.
  datatype Key = Nil | Int(n: int) | NaN | Other(id: int)

  datatype Node = Node(key: Key, val: Option<Value>, next: int)

  const NULL := -1
  const FREE := Node(Nil, None, NULL)

  type Hash = (Key, nat) -> nat

  // `mainposition`
  function Main(h: Hash, k: Key, size: nat): nat
    requires size > 0
    ensures Main(h, k, size) < size
  {
    h(k, size) % size
  }

  predicate Storable(k: Key) {
    !k.Nil? && !k.NaN?
  }

  // ----- the chains -----

  // Along a chain the rank goes down, so that every chain ends.
  ghost predicate Ranked(ns: seq<Node>, rk: seq<nat>) {
    && |rk| == |ns|
    && forall i :: 0 <= i < |ns| ==> ns[i].next == NULL || (0 <= ns[i].next < |ns| && rk[ns[i].next] < rk[i])
  }

  ghost predicate Reaches(ns: seq<Node>, rk: seq<nat>, i: nat, j: int)
    requires Ranked(ns, rk) && i < |ns|
    decreases rk[i]
  {
    i == j || (ns[i].next != NULL && Reaches(ns, rk, ns[i].next, j))
  }

  ghost predicate OnePredecessor(ns: seq<Node>) {
    forall i, j :: 0 <= i < |ns| && 0 <= j < |ns| && ns[i].next == ns[j].next && ns[i].next != NULL ==> i == j
  }

  // A node that is the main position of some stored key holds a key of that main position.
  ghost predicate Home(h: Hash, ns: seq<Node>, i: nat)
    requires i < |ns|
  {
    var m := Main(h, ns[i].key, |ns|);
    !ns[m].key.Nil? && Main(h, ns[m].key, |ns|) == m
  }

  ghost predicate Homes(h: Hash, ns: seq<Node>) {
    forall i :: 0 <= i < |ns| && !ns[i].key.Nil? ==> Home(h, ns, i)
  }

  ghost predicate Reached(h: Hash, ns: seq<Node>, rk: seq<nat>)
    requires Ranked(ns, rk)
  {
    forall i :: 0 <= i < |ns| && !ns[i].key.Nil? ==> Reaches(ns, rk, Main(h, ns[i].key, |ns|), i)
  }

  ghost predicate Distinct(ns: seq<Node>) {
    forall i, j :: 0 <= i < |ns| && 0 <= j < |ns| && ns[i].key == ns[j].key && !ns[i].key.Nil? ==> i == j
  }

  // A node without a key is in no chain.
  ghost predicate FreeUnlinked(ns: seq<Node>) {
    && (forall i :: 0 <= i < |ns| && ns[i].key.Nil? ==> ns[i] == FREE)
    && (forall i :: 0 <= i < |ns| && 0 <= ns[i].next < |ns| ==> !ns[ns[i].next].key.Nil?)
  }

  ghost predicate KeysOk(ns: seq<Node>) {
    forall i :: 0 <= i < |ns| ==> !ns[i].key.NaN?
  }

  // Every node without a key lies below `lastfree`.
  ghost predicate FreeBelow(ns: seq<Node>, lastfree: int) {
    forall i :: 0 <= i < |ns| && ns[i].key.Nil? ==> i < lastfree
  }

  ghost predicate Scatter(h: Hash, ns: seq<Node>, rk: seq<nat>) {
    && Ranked(ns, rk) && OnePredecessor(ns) && Homes(h, ns) && Reached(h, ns, rk) && Distinct(ns) && FreeUnlinked(ns)
    && KeysOk(ns)
  }

  // ----- what is stored -----

  ghost predicate HasKey(ns: seq<Node>, k: Key) {
    exists i :: 0 <= i < |ns| && ns[i].key == k
  }

  ghost function Stored(ns: seq<Node>, k: Key): Option<Value> {
    if !k.Nil? && HasKey(ns, k) then
      var i :| 0 <= i < |ns| && ns[i].key == k;
      ns[i].val
    else None
  }

  lemma StoredAt(ns: seq<Node>, i: nat)
    requires Distinct(ns) && i < |ns| && !ns[i].key.Nil?
    ensures HasKey(ns, ns[i].key) && Stored(ns, ns[i].key) == ns[i].val
  {
  }

  // Both vectors store the same, but for the key `k`, under which the second has nothing.
  ghost predicate SameBut(ns: seq<Node>, ns': seq<Node>, k: Key) {
    (forall x :: x != k ==> Stored(ns', x) == Stored(ns, x)) && Stored(ns', k) == None
  }

  // ----- a value is written -----

  lemma ReachesSame(ns: seq<Node>, rk: seq<nat>, ns': seq<Node>, rk': seq<nat>, i: nat, j: nat)
    requires Ranked(ns, rk) && Ranked(ns', rk') && |ns| == |ns'| && i < |ns| && Reaches(ns, rk, i, j)
    requires forall x :: 0 <= x < |ns| ==> ns'[x].next == ns[x].next
    ensures Reaches(ns', rk', i, j)
    decreases rk[i]
  {
    if i != j { ReachesSame(ns, rk, ns', rk', ns[i].next, j); }
  }

  lemma ScatterSameKeys(h: Hash, ns: seq<Node>, rk: seq<nat>, ns': seq<Node>)
    requires Scatter(h, ns, rk) && |ns'| == |ns|
    requires forall x :: 0 <= x < |ns| ==> ns'[x].next == ns[x].next && ns'[x].key == ns[x].key
    requires forall x :: 0 <= x < |ns| && ns'[x].key.Nil? ==> ns'[x].val == None
    ensures Scatter(h, ns', rk)
  {
    forall i | 0 <= i < |ns'| && !ns'[i].key.Nil?
      ensures Home(h, ns', i) && Reaches(ns', rk, Main(h, ns'[i].key, |ns'|), i)
    {
      assert Home(h, ns, i);
      ReachesSame(ns, rk, ns', rk, Main(h, ns[i].key, |ns|), i);
    }
  }

  lemma WriteKeeps(h: Hash, ns: seq<Node>, rk: seq<nat>, i: nat, v: Option<Value>)
    requires Scatter(h, ns, rk) && i < |ns| && !ns[i].key.Nil?
    ensures var ns' := ns[i := ns[i].(val := v)];
      && Scatter(h, ns', rk) && Stored(ns', ns[i].key) == v
      && forall x :: x != ns[i].key ==> Stored(ns', x) == Stored(ns, x)
  {
    var ns' := ns[i := ns[i].(val := v)];
    ScatterSameKeys(h, ns, rk, ns');
    hide Scatter, Reached;
    assert Distinct(ns) && Distinct(ns') by { DistinctOf(h, ns, rk); DistinctOf(h, ns', rk); }
    StoredAt(ns', i);
    forall x | x != ns[i].key ensures Stored(ns', x) == Stored(ns, x) {
      SameStored(ns, ns', x);
    }
  }

  lemma DistinctOf(h: Hash, ns: seq<Node>, rk: seq<nat>)
    requires Scatter(h, ns, rk)
    ensures Distinct(ns) && FreeUnlinked(ns) && KeysOk(ns)
  {
  }

  // The key `x` has the same node contents in both vectors, perhaps in another place.
  lemma SameStored(ns: seq<Node>, ns': seq<Node>, x: Key)
    requires Distinct(ns) && Distinct(ns')
    requires forall i :: 0 <= i < |ns| && ns[i].key == x && !x.Nil? ==> exists j ::
      0 <= j < |ns'| && ns'[j].key == x && ns'[j].val == ns[i].val
    requires forall j :: 0 <= j < |ns'| && ns'[j].key == x && !x.Nil? ==> exists i ::
      0 <= i < |ns| && ns[i].key == x && ns[i].val == ns'[j].val
    ensures Stored(ns', x) == Stored(ns, x)
  {
    if !x.Nil? && HasKey(ns, x) {
      var i :| 0 <= i < |ns| && ns[i].key == x;
      StoredAt(ns, i);
      var j :| 0 <= j < |ns'| && ns'[j].key == x && ns'[j].val == ns[i].val;
      StoredAt(ns', j);
    } else {
      assert !x.Nil? ==> !HasKey(ns', x);
    }
  }

  // ----- the three ways to give a key a node, see `newkey` -----

  // The main position has no value: its key is overwritten, and it stays in its chain.
  function Taken(ns: seq<Node>, mp: nat, k: Key): seq<Node>
    requires mp < |ns|
  {
    ns[mp := ns[mp].(key := k)]
  }

  lemma TakenKeeps(h: Hash, ns: seq<Node>, rk: seq<nat>, k: Key)
    requires Scatter(h, ns, rk) && |ns| > 0 && Storable(k) && !HasKey(ns, k)
    requires ns[Main(h, k, |ns|)].val == None
    ensures var ns' := Taken(ns, Main(h, k, |ns|), k); Scatter(h, ns', rk) && SameBut(ns, ns', k)
  {
    hide Reaches, Home, Distinct, SameBut, OnePredecessor, FreeUnlinked, Taken;
    var mp := Main(h, k, |ns|);
    var ns' := Taken(ns, mp, k);
    TakenLinks(ns, rk, mp, k);
    forall i | 0 <= i < |ns'| && !ns'[i].key.Nil?
      ensures Home(h, ns', i) && Reaches(ns', rk, Main(h, ns'[i].key, |ns'|), i)
    {
      TakenHome(h, ns, rk, k, i);
    }
    TakenSame(ns, mp, k);
  }

  lemma TakenLinks(ns: seq<Node>, rk: seq<nat>, mp: nat, k: Key)
    requires Ranked(ns, rk) && OnePredecessor(ns) && FreeUnlinked(ns) && KeysOk(ns) && mp < |ns| && Storable(k)
    ensures var ns' := Taken(ns, mp, k);
      |ns'| == |ns| && Ranked(ns', rk) && OnePredecessor(ns') && FreeUnlinked(ns') && KeysOk(ns')
  {
  }

  lemma TakenHome(h: Hash, ns: seq<Node>, rk: seq<nat>, k: Key, i: nat)
    requires Scatter(h, ns, rk) && Storable(k) && i < |ns|
    ensures var ns' := Taken(ns, Main(h, k, |ns|), k);
      !ns'[i].key.Nil? ==> Home(h, ns', i) && Ranked(ns', rk) && Reaches(ns', rk, Main(h, ns'[i].key, |ns'|), i)
  {
    var mp := Main(h, k, |ns|);
    var ns' := Taken(ns, mp, k);
    if i != mp && !ns[i].key.Nil? {
      assert Home(h, ns, i);
      ReachesSame(ns, rk, ns', rk, Main(h, ns[i].key, |ns|), i);
    }
  }

  lemma TakenSame(ns: seq<Node>, mp: nat, k: Key)
    requires Distinct(ns) && mp < |ns| && Storable(k) && !HasKey(ns, k) && ns[mp].val == None
    ensures Distinct(Taken(ns, mp, k)) && SameBut(ns, Taken(ns, mp, k), k)
  {
    var ns' := Taken(ns, mp, k);
    assert Distinct(ns') by {
      forall i, j | 0 <= i < |ns'| && 0 <= j < |ns'| && ns'[i].key == ns'[j].key && !ns'[i].key.Nil? ensures i == j {
        assert i == mp || ns[i].key == ns'[i].key;
        assert j == mp || ns[j].key == ns'[j].key;
        assert ns[i].key != k && ns[j].key != k;
      }
    }
    StoredAt(ns', mp);
    forall x | x != k ensures Stored(ns', x) == Stored(ns, x) {
      if x == ns[mp].key {
        LostKey(ns, mp, k);
      } else {
        assert forall i :: 0 <= i < |ns| && ns[i].key == x ==> ns'[i].key == x && ns'[i].val == ns[i].val;
        assert forall i :: 0 <= i < |ns| && ns'[i].key == x ==> ns[i].key == x && ns'[i].val == ns[i].val;
        SameStored(ns, ns', x);
      }
    }
  }

  // The overwritten key had no value.
  lemma LostKey(ns: seq<Node>, mp: nat, k: Key)
    requires Distinct(ns) && mp < |ns| && ns[mp].val == None && k != ns[mp].key
    ensures Stored(ns, ns[mp].key) == None && Stored(Taken(ns, mp, k), ns[mp].key) == None
  {
    var x, ns' := ns[mp].key, Taken(ns, mp, k);
    if !x.Nil? {
      StoredAt(ns, mp);
      assert !HasKey(ns', x) by { assert forall j :: 0 <= j < |ns'| && j != mp ==> ns'[j].key == ns[j].key; }
    }
  }

  // The colliding node is in its main position: the new key goes to the free node `n`, after it.
  function Chained(ns: seq<Node>, mp: nat, n: nat, k: Key): seq<Node>
    requires mp < |ns| && n < |ns|
  {
    ns[n := Node(k, None, ns[mp].next)][mp := ns[mp].(next := n)]
  }

  // Room between the ranks of a node and its successor
  ghost function Spread(rk: seq<nat>): seq<nat> {
    seq(|rk|, i requires 0 <= i < |rk| => 2 * rk[i] + 1)
  }

  lemma ReachesChained(ns: seq<Node>, rk: seq<nat>, mp: nat, n: nat, k: Key, rk': seq<nat>, i: nat, j: nat)
    requires Ranked(ns, rk) && mp < |ns| && n < |ns| && mp != n && Ranked(Chained(ns, mp, n, k), rk')
    requires i < |ns| && i != n && Reaches(ns, rk, i, j)
    requires forall x :: 0 <= x < |ns| ==> ns[x].next != n
    ensures Reaches(Chained(ns, mp, n, k), rk', i, j)
    decreases rk[i]
  {
    var ns' := Chained(ns, mp, n, k);
    if i != j {
      ReachesChained(ns, rk, mp, n, k, rk', ns[i].next, j);
      if i == mp {
        assert ns'[n].next == ns[i].next && Reaches(ns', rk', n, j);
      }
    }
  }

  lemma ChainedKeeps(h: Hash, ns: seq<Node>, rk: seq<nat>, n: nat, k: Key)
    requires Scatter(h, ns, rk) && |ns| > 0 && Storable(k) && !HasKey(ns, k) && n < |ns| && ns[n].key.Nil?
    requires var mp := Main(h, k, |ns|); !ns[mp].key.Nil? && Main(h, ns[mp].key, |ns|) == mp
    ensures var mp := Main(h, k, |ns|);
      Scatter(h, Chained(ns, mp, n, k), Spread(rk)[n := 2 * rk[mp]]) && SameBut(ns, Chained(ns, mp, n, k), k)
  {
    var mp := Main(h, k, |ns|);
    var ns', rk' := Chained(ns, mp, n, k), Spread(rk)[n := 2 * rk[mp]];
    ChainedLinks(ns, rk, mp, n, k);
    ChainedSame(ns, mp, n, k);
    forall i | 0 <= i < |ns'| && !ns'[i].key.Nil?
      ensures Home(h, ns', i) && Reaches(ns', rk', Main(h, ns'[i].key, |ns'|), i)
    {
      ChainedHome(h, ns, rk, n, k, i);
    }
    hide Reaches, Home, Distinct, SameBut, Ranked, OnePredecessor, FreeUnlinked;
  }

  lemma ChainedLinks(ns: seq<Node>, rk: seq<nat>, mp: nat, n: nat, k: Key)
    requires Ranked(ns, rk) && OnePredecessor(ns) && FreeUnlinked(ns) && Storable(k) && mp < |ns| && n < |ns|
    requires ns[n].key.Nil? && !ns[mp].key.Nil?
    ensures var ns' := Chained(ns, mp, n, k);
      Ranked(ns', Spread(rk)[n := 2 * rk[mp]]) && OnePredecessor(ns') && FreeUnlinked(ns')
  {
  }

  lemma ChainedHome(h: Hash, ns: seq<Node>, rk: seq<nat>, n: nat, k: Key, i: nat)
    requires Ranked(ns, rk) && Homes(h, ns) && Reached(h, ns, rk) && FreeUnlinked(ns)
    requires |ns| > 0 && Storable(k) && n < |ns| && ns[n].key.Nil? && i < |ns|
    requires var mp := Main(h, k, |ns|); !ns[mp].key.Nil? && Main(h, ns[mp].key, |ns|) == mp
    requires var mp := Main(h, k, |ns|); Ranked(Chained(ns, mp, n, k), Spread(rk)[n := 2 * rk[mp]])
    ensures var mp := Main(h, k, |ns|);
      var ns', rk' := Chained(ns, mp, n, k), Spread(rk)[n := 2 * rk[mp]];
      !ns'[i].key.Nil? ==> Home(h, ns', i) && Reaches(ns', rk', Main(h, ns'[i].key, |ns'|), i)
  {
    var mp := Main(h, k, |ns|);
    var ns', rk' := Chained(ns, mp, n, k), Spread(rk)[n := 2 * rk[mp]];
    if i == n {
      assert Reaches(ns', rk', n, n);
    } else if !ns[i].key.Nil? {
      assert Home(h, ns, i);
      ReachesChained(ns, rk, mp, n, k, rk', Main(h, ns[i].key, |ns|), i);
    }
  }

  lemma ChainedSame(ns: seq<Node>, mp: nat, n: nat, k: Key)
    requires Distinct(ns) && mp < |ns| && n < |ns| && n != mp && Storable(k) && !HasKey(ns, k) && ns[n].key.Nil?
    ensures Distinct(Chained(ns, mp, n, k)) && SameBut(ns, Chained(ns, mp, n, k), k)
  {
    var ns' := Chained(ns, mp, n, k);
    assert forall i :: 0 <= i < |ns| && i != n ==> ns'[i].key == ns[i].key && ns'[i].val == ns[i].val && ns[i].key != k;
    StoredAt(ns', n);
    forall x | x != k ensures Stored(ns', x) == Stored(ns, x) {
      SameStored(ns, ns', x);
    }
  }

  // The colliding node is not in its main position: it moves to the free node `n`, its
  // predecessor `p` follows, and the new key gets its main position.
  function Moved(ns: seq<Node>, mp: nat, n: nat, p: nat, k: Key): seq<Node>
    requires mp < |ns| && n < |ns| && p < |ns|
  {
    ns[p := ns[p].(next := n)][n := ns[mp]][mp := Node(k, None, NULL)]
  }

  lemma ReachesMoved(ns: seq<Node>, rk: seq<nat>, mp: nat, n: nat, p: nat, k: Key, rk': seq<nat>, i: nat, j: nat)
    requires Ranked(ns, rk) && OnePredecessor(ns) && mp < |ns| && n < |ns| && p < |ns| && mp != n && p != n && p != mp
    requires ns[p].next == mp && Ranked(Moved(ns, mp, n, p, k), rk')
    requires i < |ns| && i != n && i != mp && Reaches(ns, rk, i, j)
    requires forall x :: 0 <= x < |ns| ==> ns[x].next != n
    ensures Reaches(Moved(ns, mp, n, p, k), rk', i, if j == mp then n else j)
    decreases rk[i]
  {
    var ns' := Moved(ns, mp, n, p, k);
    if i != j {
      if ns[i].next == mp {
        assert i == p && ns'[i].next == n && ns'[n].next == ns[mp].next;
        if mp != j {
          assert ns[mp].next != mp;
          ReachesMoved(ns, rk, mp, n, p, k, rk', ns[mp].next, j);
          assert Reaches(ns', rk', n, j);
        }
      } else {
        assert ns'[i].next == ns[i].next;
        ReachesMoved(ns, rk, mp, n, p, k, rk', ns[i].next, j);
      }
    }
  }

  // No chain that begins at a main position begins at a node that is out of its own.
  lemma NoneAtHome(h: Hash, ns: seq<Node>, mp: nat, i: nat)
    requires Homes(h, ns) && mp < |ns| && i < |ns| && !ns[i].key.Nil? && Main(h, ns[mp].key, |ns|) != mp
    ensures Main(h, ns[i].key, |ns|) != mp
  {
    assert Home(h, ns, i);
  }

  lemma MovedKeeps(h: Hash, ns: seq<Node>, rk: seq<nat>, n: nat, p: nat, k: Key)
    requires Scatter(h, ns, rk) && |ns| > 0 && Storable(k) && !HasKey(ns, k) && n < |ns| && ns[n].key.Nil? && p < |ns|
    requires var mp := Main(h, k, |ns|);
      !ns[mp].key.Nil? && Main(h, ns[mp].key, |ns|) != mp && ns[p].next == mp
    ensures var mp := Main(h, k, |ns|);
      Scatter(h, Moved(ns, mp, n, p, k), rk[n := rk[mp]]) && SameBut(ns, Moved(ns, mp, n, p, k), k)
  {
    var mp := Main(h, k, |ns|);
    var ns', rk' := Moved(ns, mp, n, p, k), rk[n := rk[mp]];
    MovedLinks(ns, rk, mp, n, p, k);
    MovedSame(ns, mp, n, p, k);
    forall i | 0 <= i < |ns'| && !ns'[i].key.Nil?
      ensures Home(h, ns', i) && Reaches(ns', rk', Main(h, ns'[i].key, |ns'|), i)
    {
      MovedHome(h, ns, rk, n, p, k, i);
    }
    hide Reaches, Home, Distinct, SameBut, Ranked, OnePredecessor, FreeUnlinked;
  }

  lemma MovedLinks(ns: seq<Node>, rk: seq<nat>, mp: nat, n: nat, p: nat, k: Key)
    requires Ranked(ns, rk) && OnePredecessor(ns) && FreeUnlinked(ns) && Storable(k) && mp < |ns| && n < |ns| &&
      p < |ns|
    requires ns[n].key.Nil? && !ns[mp].key.Nil? && ns[p].next == mp
    ensures var ns' := Moved(ns, mp, n, p, k);
      p != mp && p != n && Ranked(ns', rk[n := rk[mp]]) && OnePredecessor(ns') && FreeUnlinked(ns')
  {
    MovedRanked(ns, rk, mp, n, p, k);
    MovedPredecessor(ns, mp, n, p, k);
    MovedUnlinked(ns, mp, n, p, k);
    hide OnePredecessor, FreeUnlinked, Moved;
  }

  lemma MovedRanked(ns: seq<Node>, rk: seq<nat>, mp: nat, n: nat, p: nat, k: Key)
    requires Ranked(ns, rk) && FreeUnlinked(ns) && mp < |ns| && n < |ns| && p < |ns|
    requires ns[n].key.Nil? && !ns[mp].key.Nil? && ns[p].next == mp
    ensures p != mp && p != n && Ranked(Moved(ns, mp, n, p, k), rk[n := rk[mp]])
  {
  }

  lemma MovedPredecessor(ns: seq<Node>, mp: nat, n: nat, p: nat, k: Key)
    requires OnePredecessor(ns) && FreeUnlinked(ns) && mp < |ns| && n < |ns| && p < |ns| && p != mp && p != n
    requires ns[n].key.Nil? && !ns[mp].key.Nil? && ns[p].next == mp
    ensures OnePredecessor(Moved(ns, mp, n, p, k))
  {
  }

  lemma MovedUnlinked(ns: seq<Node>, mp: nat, n: nat, p: nat, k: Key)
    requires FreeUnlinked(ns) && mp < |ns| && n < |ns| && p < |ns| && p != mp && p != n && Storable(k)
    requires ns[n].key.Nil? && !ns[mp].key.Nil? && ns[p].next == mp
    ensures FreeUnlinked(Moved(ns, mp, n, p, k))
  {
  }

  lemma MovedHome(h: Hash, ns: seq<Node>, rk: seq<nat>, n: nat, p: nat, k: Key, i: nat)
    requires Ranked(ns, rk) && OnePredecessor(ns) && Homes(h, ns) && Reached(h, ns, rk) && FreeUnlinked(ns)
    requires |ns| > 0 && Storable(k) && n < |ns| && ns[n].key.Nil? && p < |ns| && i < |ns|
    requires var mp := Main(h, k, |ns|);
      && !ns[mp].key.Nil? && Main(h, ns[mp].key, |ns|) != mp && ns[p].next == mp && p != n && p != mp
      && Ranked(Moved(ns, mp, n, p, k), rk[n := rk[mp]])
    ensures var mp := Main(h, k, |ns|);
      var ns', rk' := Moved(ns, mp, n, p, k), rk[n := rk[mp]];
      !ns'[i].key.Nil? ==> Home(h, ns', i) && Reaches(ns', rk', Main(h, ns'[i].key, |ns'|), i)
  {
    var mp := Main(h, k, |ns|);
    var ns', rk' := Moved(ns, mp, n, p, k), rk[n := rk[mp]];
    if i != mp {
      var was := if i == n then mp else i;
      assert ns'[i].key == ns[was].key;
      if !ns[was].key.Nil? {
        assert Home(h, ns, was);
        NoneAtHome(h, ns, mp, was);
        ReachesMoved(ns, rk, mp, n, p, k, rk', Main(h, ns[was].key, |ns|), was);
      }
    }
  }

  lemma MovedSame(ns: seq<Node>, mp: nat, n: nat, p: nat, k: Key)
    requires Distinct(ns) && mp < |ns| && n < |ns| && p < |ns| && n != mp && p != n && p != mp
    requires Storable(k) && !HasKey(ns, k) && ns[n].key.Nil?
    ensures Distinct(Moved(ns, mp, n, p, k)) && SameBut(ns, Moved(ns, mp, n, p, k), k)
  {
    var ns' := Moved(ns, mp, n, p, k);
    assert forall i :: 0 <= i < |ns| && i != n && i != mp ==> ns'[i].key == ns[i].key && ns'[i].val == ns[i].val;
    assert forall i :: 0 <= i < |ns| ==> ns[i].key != k;
    StoredAt(ns', mp);
    forall x | x != k ensures Stored(ns', x) == Stored(ns, x) {
      forall i | 0 <= i < |ns| && ns[i].key == x && !x.Nil?
        ensures exists j :: 0 <= j < |ns'| && ns'[j].key == x && ns'[j].val == ns[i].val
      {
        var j := if i == mp then n else i;
        assert ns'[j].key == x && ns'[j].val == ns[i].val;
      }
      forall j | 0 <= j < |ns'| && ns'[j].key == x && !x.Nil?
        ensures exists i :: 0 <= i < |ns| && ns[i].key == x && ns[i].val == ns'[j].val
      {
        var i := if j == n then mp else j;
        assert ns[i].key == x && ns[i].val == ns'[j].val;
      }
      SameStored(ns, ns', x);
    }
  }
}
