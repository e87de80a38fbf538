/**
 The matcher as it is: it changes the captures on its way, and undoes the changes of
 a way that fails.
 */
module MatchState {
  import opened MatchPattern
  import opened MatchRun
  import opened Wrappers

  // What `match` returns: NULL, a pointer, or an error that is raised
  datatype Result = Null | At(e: nat) | Raised

  datatype Step = Return(r: Result) | Goto(s: nat, p: nat)

  predicate Tells(o: Outcome, r: Result) {
    match o
    case Fail => r.Null?
    case Success(e, _) => r == At(e)
    case Error => r.Raised?
  }

  lemma RunMalformed(x: Ctx, s: nat, p: nat, caps: seq<Capture>)
    requires s <= |x.src| && CapsOk(caps, s) && ItemAt(x.pat, p).Malformed?
    ensures Run(x, s, p, caps) == Error
  {
  }

  // The default case of the matcher, by the suffix of the item
  lemma RunChars(x: Ctx, s: nat, p: nat, ep: nat, caps: seq<Capture>)
    requires s <= |x.src| && CapsOk(caps, s) && ItemAt(x.pat, p) == Chars(ep, SuffixOf(Peek(x.pat, ep)))
    ensures CapsOk(caps, s) && (s < |x.src| ==> CapsOk(caps, s + 1)) && (Peek(x.pat, ep) != NUL ==> ep < |x.pat|)
    ensures x.pat[p] == '[' ==> p + 1 < ep
    ensures var c, m, o := Peek(x.pat, ep), OneMore(x, s, p, ep), Run(x, s, p, caps);
      if c == '?' then o == if m && !Run(x, s + 1, ep + 1, caps).Fail? then Run(x, s + 1, ep + 1, caps)
        else Run(x, s, ep + 1, caps)
      else if c == '*' then o == Longest(x, s, ep + 1, MaxRun(x, s, p, ep), caps)
      else if c == '+' then o == if m then Longest(x, s + 1, ep + 1, MaxRun(x, s + 1, p, ep), caps) else Fail
      else if c == '-' then o == Shortest(x, s, ep + 1, MaxRun(x, s, p, ep), caps)
      else o == if m then Run(x, s + 1, ep, caps) else Fail
  {
  }

  class MatchState {
    const x: Ctx
    const capture: array<Capture>
    var level: nat

    constructor (ctx: Ctx)
      ensures Valid() && x == ctx && Caps() == [] && fresh(capture)
    {
      x := ctx;
      capture := new Capture[MAXCAPTURES](_ => Capture(0, UNFINISHED));
      level := 0;
    }

    ghost predicate Valid()
      reads this, capture
    {
      capture.Length == MAXCAPTURES && level <= MAXCAPTURES
    }

    ghost function Caps(): seq<Capture>
      requires Valid()
      reads this, capture
    {
      capture[..level]
    }

    // A call from `s` that does what the matcher does: on failure the captures are restored.
    twostate predicate Ran(r: Result, o: Outcome)
      requires old(Valid())
      reads this, capture
    {
      && Valid() && Tells(o, r)
      && (o.Fail? ==> Caps() == old(Caps()))
      && (o.Success? ==> Caps() == o.caps)
    }

    method CaptureToClose() returns (l: int)
      requires Valid()
      ensures l == ToClose(Caps())
    {
      l := level - 1;
      while l >= 0
        invariant -1 <= l < level && ToClose(Caps()) == ToClose(Caps()[..l + 1])
      {
        if capture[l].len == UNFINISHED { return; }
        assert Caps()[..l + 1][..l] == Caps()[..l];
        l := l - 1;
      }
    }

    // `start_capture`
    method StartCapture(s: nat, p: nat, what: int) returns (r: Result)
      requires Valid() && s <= |x.src| && CapsOk(Caps(), s) && (what == UNFINISHED || what == POSITION)
      modifies this, capture
      ensures Ran(r, if old(level) >= MAXCAPTURES then Error else Run(x, s, p, old(Caps()) + [Capture(s, what)]))
      decreases |x.pat| - p, 2, 0
    {
      if level >= MAXCAPTURES { return Raised; }
      ghost var caps := Caps();
      capture[level] := Capture(s, what);
      level := level + 1;
      assert Caps() == caps + [Capture(s, what)];
      r := Match(s, p);
      if r.Null? {
        level := level - 1;
        assert Caps() == caps;
      }
    }

    // `end_capture`
    method EndCapture(s: nat, p: nat) returns (r: Result)
      requires Valid() && s <= |x.src| && CapsOk(Caps(), s)
      modifies this, capture
      ensures Ran(r, if ToClose(old(Caps())) < 0 then Error else Run(x, s, p, Closed(old(Caps()), s)))
      decreases |x.pat| - p, 2, 0
    {
      var l := CaptureToClose();
      if l < 0 { return Raised; }
      ghost var caps := Caps();
      capture[l] := capture[l].(len := s - capture[l].init);
      assert Caps() == Closed(caps, s);
      r := Match(s, p);
      if r.Null? {
        capture[l] := capture[l].(len := UNFINISHED);
        assert Caps() == caps;
      }
    }

    // `match_capture`; none is an error, and -1 a failure.
    method MatchCapture(s: nat, digit: char) returns (e: Option<int>)
      requires Valid() && s <= |x.src| && CapsOk(Caps(), s)
      ensures var l := CaptureIndex(Caps(), digit);
        e == if l < 0 then None else if Again(x, s, Caps()[l]) then Some(s + Caps()[l].len) else Some(-1)
    {
      var l := digit as int - '1' as int;
      if l < 0 || l >= level || capture[l].len == UNFINISHED { return None; }
      var len := capture[l].len;
      // A position capture has the length of no text.
      if len >= 0 && |x.src| - s >= len && x.src[capture[l].init..capture[l].init + len] == x.src[s..s + len] {
        return Some(s + len);
      }
      return Some(-1);
    }

    // The first loop of `max_expand`
    method CountRun(s: nat, p: nat, ep: nat) returns (i: nat)
      requires s <= |x.src| && p < ep <= |x.pat| && (x.pat[p] == '[' ==> p + 1 < ep)
      ensures i == MaxRun(x, s, p, ep)
    {
      i := 0;
      while s + i < |x.src|
        invariant s + i <= |x.src| && MaxRun(x, s, p, ep) == i + MaxRun(x, s + i, p, ep)
      {
        var b := SingleMatch(x.src[s + i], x.pat, p, ep);
        if !b { return; }
        i := i + 1;
      }
    }

    // `max_expand`
    method MaxExpand(s: nat, p: nat, ep: nat) returns (r: Result)
      requires Valid() && s <= |x.src| && CapsOk(Caps(), s) && p < ep < |x.pat| && (x.pat[p] == '[' ==> p + 1 < ep)
      modifies this, capture
      ensures Ran(r, Longest(x, s, ep + 1, MaxRun(x, s, p, ep), old(Caps())))
      decreases |x.pat| - ep, 0, 0
    {
      var i: int := CountRun(s, p, ep);
      ghost var caps := Caps();
      while i >= 0
        invariant -1 <= i <= MaxRun(x, s, p, ep) && Valid() && Caps() == caps
        invariant Longest(x, s, ep + 1, MaxRun(x, s, p, ep), caps) == if i >= 0 then Longest(x, s, ep + 1, i, caps)
          else Fail
        decreases i
      {
        r := Match(s + i, ep + 1);
        if !r.Null? { return; }
        i := i - 1;
      }
      r := Null;
    }

    // `min_expand`
    method MinExpand(s0: nat, p: nat, ep: nat) returns (r: Result)
      requires Valid() && s0 <= |x.src| && CapsOk(Caps(), s0) && p < ep < |x.pat| && (x.pat[p] == '[' ==> p + 1 < ep)
      modifies this, capture
      ensures Ran(r, Shortest(x, s0, ep + 1, MaxRun(x, s0, p, ep), old(Caps())))
      decreases |x.pat| - ep, 0, 0
    {
      var s := s0;
      ghost var caps := Caps();
      while true
        invariant s0 <= s <= |x.src| && Valid() && Caps() == caps && CapsOk(caps, s)
        invariant Shortest(x, s0, ep + 1, MaxRun(x, s0, p, ep), caps) ==
          Shortest(x, s, ep + 1, MaxRun(x, s, p, ep), caps)
        decreases |x.src| - s
      {
        r := Match(s, ep + 1);
        if !r.Null? { return; }
        if s >= |x.src| { return; }
        var b := SingleMatch(x.src[s], x.pat, p, ep);
        if !b { return; }
        s := s + 1;
      }
    }

    method Balance(s: nat, b: char, e: char) returns (r: Option<nat>)
      requires s <= |x.src| && b != NUL
      ensures r.Some? ==> Balanced(x.src, s, r.value, b, e) && forall t :: Balanced(x.src, s, t, b, e) ==> t == r.value
      ensures r.None? ==> forall t :: !Balanced(x.src, s, t, b, e)
    {
      r := MatchBalance(x.src, s, b, e);
      if r.Some? {
        forall t | Balanced(x.src, s, t, b, e) ensures t == r.value { BalancedOnce(x.src, s, t, r.value, b, e); }
      }
    }

    method Frontier(s: nat, p: nat, ep: nat) returns (b: bool)
      requires s <= |x.src| && p + 1 < ep <= |x.pat|
      ensures b == AtFrontier(x, s, p, ep)
    {
      var previous := if s == 0 then NUL else x.src[s - 1];
      b := MatchBracketClass(previous, x.pat, p, ep - 1);
      if b { return false; }
      b := MatchBracketClass(Peek(x.src, s), x.pat, p, ep - 1);
    }

    // What the code of an item ends with: a return, or a jump back to `init`
    ghost predicate Goes(st: Step, s: nat, p: nat, caps: seq<Capture>)
      requires s <= |x.src| && CapsOk(caps, s)
    {
      st.Goto? ==> s <= st.s <= |x.src| && p < st.p && Run(x, s, p, caps) == Run(x, st.s, st.p, caps)
    }

    // The cases `%b`, `%f` and `%1` of `match`
    method Escape(s: nat, p: nat) returns (st: Step)
      requires Valid() && s <= |x.src| && CapsOk(Caps(), s)
      requires Peek(x.pat, p) == ESC &&
        (Peek(x.pat, p + 1) == 'b' || Peek(x.pat, p + 1) == 'f' || IsDigit(Peek(x.pat, p + 1)))
      ensures Goes(st, s, p, Caps())
      ensures st.Return? ==> Tells(Run(x, s, p, Caps()), st.r) && !st.r.At?
    {
      var c1 := Peek(x.pat, p + 1);
      if c1 == 'b' {
        if Peek(x.pat, p + 2) == NUL || Peek(x.pat, p + 3) == NUL { return Return(Raised); }
        var e := Balance(s, x.pat[p + 2], x.pat[p + 3]);
        st := if e.None? then Return(Null) else Goto(e.value, p + 4);
      } else if c1 == 'f' {
        if Peek(x.pat, p + 2) != '[' { return Return(Raised); }
        var ep := ClassEnd(x.pat, p + 2);
        if ep.None? { return Return(Raised); }
        var b := Frontier(s, p + 2, ep.value);
        st := if b then Goto(s, ep.value) else Return(Null);
      } else {
        var e := MatchCapture(s, c1);
        st := if e.None? then Return(Raised) else if e.value < 0 then Return(Null) else Goto(e.value, p + 2);
      }
    }

    // The default case of `match`: a pattern item with its suffix
    method Default(s: nat, p: nat) returns (st: Step)
      requires Valid() && s <= |x.src| && CapsOk(Caps(), s)
      requires ItemAt(x.pat, p).Chars? || (ItemAt(x.pat, p).Malformed? && ClassEnd(x.pat, p).None?)
      modifies this, capture
      ensures Valid() && Goes(st, s, p, old(Caps())) && (st.Goto? ==> Caps() == old(Caps()))
      ensures st.Return? ==> Ran(st.r, Run(x, s, p, old(Caps())))
      decreases |x.pat| - p, 0, 1
    {
      hide Run, Longest, Shortest, CapsOk, Single;
      var e := ClassEnd(x.pat, p);
      if e.None? {
        RunMalformed(x, s, p, Caps());
        return Return(Raised);
      }
      var ep := e.value;
      RunChars(x, s, p, ep, Caps());
      var m := false;
      var r;
      if s < |x.src| { m := SingleMatch(x.src[s], x.pat, p, ep); }
      var suffix := Peek(x.pat, ep);
      if suffix == '?' {
        if m {
          r := Match(s + 1, ep + 1);
          if !r.Null? { return Return(r); }
        }
        st := Goto(s, ep + 1);
      } else if suffix == '*' {
        r := MaxExpand(s, p, ep);
        st := Return(r);
      } else if suffix == '+' {
        if !m { return Return(Null); }
        r := MaxExpand(s + 1, p, ep);
        st := Return(r);
      } else if suffix == '-' {
        r := MinExpand(s, p, ep);
        st := Return(r);
      } else if m {
        st := Goto(s + 1, ep);
      } else {
        st := Return(Null);
      }
    }

    // `match`
    method Match(s0: nat, p0: nat) returns (r: Result)
      requires Valid() && s0 <= |x.src| && CapsOk(Caps(), s0)
      modifies this, capture
      ensures Ran(r, Run(x, s0, p0, old(Caps())))
      decreases |x.pat| - p0, 1, 0
    {
      var s: nat, p: nat := s0, p0;
      ghost var caps := Caps();
      while true
        invariant s <= |x.src| && Valid() && Caps() == caps && CapsOk(caps, s)
        invariant p0 <= p && Run(x, s0, p0, caps) == Run(x, s, p, caps)
        decreases |x.pat| - p
      {
        var c, c1 := Peek(x.pat, p), Peek(x.pat, p + 1);
        var st;
        if c == '(' {
          if c1 == ')' {
            r := StartCapture(s, p + 2, POSITION);
          } else {
            r := StartCapture(s, p + 1, UNFINISHED);
          }
          return;
        } else if c == ')' {
          r := EndCapture(s, p + 1);
          return;
        } else if c == ESC && (c1 == 'b' || c1 == 'f' || IsDigit(c1)) {
          st := Escape(s, p);
        } else if c == NUL {
          return At(s);
        } else if c == '$' && c1 == NUL {
          return if s == |x.src| then At(s) else Null;
        } else {
          st := Default(s, p);
        }
        if st.Return? { return st.r; }
        s, p := st.s, st.p;
      }
    }
  }
}
