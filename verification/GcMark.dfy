/**
 Marking: `reallymarkobject`, `propagatemark` and the loops around them, as functions on
 the colours and the gray lists. The objects themselves do not change while marking.
 */
module GcMark {
  import opened GcHeap

  // The colour of every object, the gray objects still to be traversed, those to be
  // traversed again in the atomic phase, and the weak tables met so far.
  datatype Mark = Mark(color: map<Ref, Color>, gray: seq<Ref>, grayagain: seq<Ref>, weak: seq<Ref>)

  function Whites(color: map<Ref, Color>): set<Ref> {
    set r | r in color && White(color[r])
  }

  predicate Known(h: Heap, vs: seq<Value>) {
    forall v :: v in vs && v.Ptr? ==> v.ref in h
  }

  // No object refers to memory that is gone.
  ghost predicate Sound(h: Heap) {
    && (forall r :: r in h ==> Known(h, Refs(h, r)))
    && (forall r :: r in h ==> Shaped(h[r]))
  }

  ghost predicate Fits(h: Heap, m: Mark) {
    m.color.Keys == h.Keys && Sound(h)
  }

  predicate Colored(color: map<Ref, Color>, vs: seq<Value>) {
    forall v :: v in vs && v.Ptr? ==> v.ref in color && !White(color[v.ref])
  }

  // The state `reallymarkobject` leaves an object in.
  predicate Settled(h: Heap, m: Mark, r: Ref)
    requires r in h && r in m.color
  {
    match h[r].kind
    case Str(_) => m.color[r].Gray?
    case Udata => m.color[r].Black? && Colored(m.color, Strong(h, r))
    case Upval(loc) => m.color[r] == (if loc.Closed? then Black else Gray) && Colored(m.color, Strong(h, r))
    case _ => m.color[r].Gray? && r in m.gray
  }

  predicate Distinct(s: seq<Ref>) {
    forall i, j :: 0 <= i < j < |s| ==> s[i] != s[j]
  }

  // A list of gray objects can be threaded through one link field per object: no object
  // is on it twice, and all of them are gray.
  predicate GrayList(h: Heap, color: map<Ref, Color>, s: seq<Ref>) {
    && Distinct(s)
    && forall x :: x in s ==> x in h && x in color && Listed(h[x].kind) && color[x] == Gray
  }

  // What marking may do: whites become settled, nothing else changes colour, and the
  // gray list gains only objects that were white.
  ghost predicate Grows(h: Heap, a: Mark, b: Mark) {
    && a.color.Keys == b.color.Keys == h.Keys
    && (forall r :: r in h && !White(a.color[r]) ==> b.color[r] == a.color[r])
    && (forall r :: r in h && White(a.color[r]) ==> b.color[r] == a.color[r] || Settled(h, b, r))
    && b.grayagain == a.grayagain && b.weak == a.weak
    && (forall x :: x in a.gray ==> x in b.gray)
    && (forall x :: x in b.gray ==> x in a.gray || (x in h && White(a.color[x]) && !White(b.color[x])))
    && (GrayList(h, a.color, a.gray) ==> GrayList(h, b.color, b.gray))
  }

  lemma GrowsTransitive(h: Heap, a: Mark, b: Mark, c: Mark)
    requires Grows(h, a, b) && Grows(h, b, c)
    ensures Grows(h, a, c)
  {
    forall r | r in h && White(a.color[r]) && c.color[r] != a.color[r] ensures Settled(h, c, r) {
      if b.color[r] != a.color[r] {
        assert Settled(h, b, r);
      }
    }
  }

  function SetColor(m: Mark, r: Ref, c: Color): Mark {
    m.(color := m.color[r := c])
  }

  // An object turns gray or black first and has its references marked afterwards.
  lemma BlackThenMarked(h: Heap, m: Mark, r: Ref, m': Mark)
    requires r in h && m.color.Keys == h.Keys && White(m.color[r]) && h[r].kind.Udata?
    requires Grows(h, SetColor(m, r, Black), m') && Colored(m'.color, Strong(h, r))
    ensures Grows(h, m, m')
  {
    assert m'.color[r] == Black;
    assert Settled(h, m', r);
  }

  lemma GrayThenMarked(h: Heap, m: Mark, r: Ref, m1: Mark, m': Mark)
    requires r in h && m.color.Keys == h.Keys && White(m.color[r]) && h[r].kind.Upval?
    requires Grows(h, SetColor(m, r, Gray), m1) && Colored(m1.color, Strong(h, r))
    requires m' == if h[r].kind.loc.Closed? then SetColor(m1, r, Black) else m1
    ensures Grows(h, m, m')
  {
    assert m1.color[r] == Gray;
    assert Settled(h, m', r);
    forall x | x in h && White(m.color[x]) && x != r && m'.color[x] != m.color[x] ensures Settled(h, m', x) {
      assert Settled(h, m1, x);
    }
  }

  lemma GrayAndListed(h: Heap, m: Mark, r: Ref, m': Mark)
    requires r in h && m.color.Keys == h.Keys && White(m.color[r])
    requires Listed(h[r].kind)
    requires m' == SetColor(m, r, Gray).(gray := [r] + m.gray)
    ensures Grows(h, m, m')
  {
  }

  function MarkObj(h: Heap, m: Mark, r: Ref): (m': Mark)
    requires Fits(h, m) && r in h && White(m.color[r])
    ensures Grows(h, m, m') && !White(m'.color[r])
    decreases Whites(m.color), 0
  {
    var g := SetColor(m, r, Gray);
    assert r in Whites(m.color) && r !in Whites(g.color) && Whites(g.color) <= Whites(m.color);
    match h[r].kind
    case Str(_) => g
    case Udata =>
      var b := SetColor(g, r, Black);
      assert b == SetColor(m, r, Black);
      var m1 := MarkVals(h, b, Strong(h, r));
      BlackThenMarked(h, m, r, m1);
      m1
    case Upval(loc) =>
      var m1 := MarkVals(h, g, Strong(h, r));
      var m2 := if loc.Closed? then SetColor(m1, r, Black) else m1;
      GrayThenMarked(h, m, r, m1, m2);
      m2
    case _ =>
      GrayAndListed(h, m, r, g.(gray := [r] + g.gray));
      g.(gray := [r] + g.gray)
  }

  function MarkVal(h: Heap, m: Mark, v: Value): (m': Mark)
    requires Fits(h, m) && (v.Ptr? ==> v.ref in h)
    ensures Grows(h, m, m') && Whites(m'.color) <= Whites(m.color)
    ensures v.Ptr? ==> !White(m'.color[v.ref])
    decreases Whites(m.color), 1
  {
    if v.Ptr? && White(m.color[v.ref]) then
      var m' := MarkObj(h, m, v.ref);
      assert forall r :: r in Whites(m'.color) ==> r in Whites(m.color);
      m'
    else m
  }

  function MarkVals(h: Heap, m: Mark, vs: seq<Value>): (m': Mark)
    requires Fits(h, m) && Known(h, vs)
    ensures Grows(h, m, m') && Colored(m'.color, vs)
    decreases Whites(m.color), 1 + |vs|
  {
    if vs == [] then m
    else
      var m1 := MarkVal(h, m, vs[0]);
      var m2 := MarkVals(h, m1, vs[1..]);
      MarkedThrough(h, m, m1, m2, vs);
      m2
  }

  lemma MarkedThrough(h: Heap, m: Mark, m1: Mark, m2: Mark, vs: seq<Value>)
    requires |vs| > 0 && Known(h, vs) && Grows(h, m, m1) && Grows(h, m1, m2)
    requires vs[0].Ptr? ==> !White(m1.color[vs[0].ref])
    requires Colored(m2.color, vs[1..])
    ensures Grows(h, m, m2) && Colored(m2.color, vs)
  {
    GrowsTransitive(h, m, m1, m2);
    assert forall v :: v in vs ==> v == vs[0] || v in vs[1..];
  }
}
