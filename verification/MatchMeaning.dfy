/**
 What a pattern means: the matches there are, and the one of them that is found.
 */
module MatchMeaning {
  import opened MatchPattern
  import opened MatchRun

  // How often an item with the suffix may occur
  predicate Allowed(suffix: Suffix, n: nat) {
    match suffix
    case One => n == 1
    case Optional => n <= 1
    case Plus => n >= 1
    case Star => true
    case Minus => true
  }

  // The item, as often as its suffix allows, matches the text from `s` to `t`.
  ghost predicate Repeats(x: Ctx, s: nat, t: nat, p: nat, ep: nat, suffix: Suffix)
    requires p < ep <= |x.pat|
  {
    s <= t <= |x.src| && Allowed(suffix, t - s) && forall i :: s <= i < t ==> OneMore(x, i, p, ep)
  }

  // Which end is tried first: fewer repetitions for `-`, more for the others
  predicate Before(suffix: Suffix, t: nat, t': nat) {
    if suffix.Minus? then t < t' else t > t'
  }

  // The pattern from `p` on matches the text from `s` to `e`, with any number of repetitions that goes.
  ghost predicate Derives(x: Ctx, s: nat, p: nat, caps: seq<Capture>, e: nat, caps': seq<Capture>)
    decreases |x.pat| - p
  {
    var q := After(x.pat, p);
    s <= |x.src| && CapsOk(caps, s) &&
    match ItemAt(x.pat, p)
    case End => e == s && caps' == caps
    case Malformed => false
    case OpenPosition => |caps| < MAXCAPTURES && Derives(x, s, q, caps + [Capture(s, POSITION)], e, caps')
    case Open => |caps| < MAXCAPTURES && Derives(x, s, q, caps + [Capture(s, UNFINISHED)], e, caps')
    case Close => ToClose(caps) >= 0 && Derives(x, s, q, Closed(caps, s), e, caps')
    case BalancedText(b, c) => exists r :: Balanced(x.src, s, r, b, c) && Derives(x, r, q, caps, e, caps')
    case Frontier(ep) => AtFrontier(x, s, p + 2, ep) && Derives(x, s, q, caps, e, caps')
    case BackReference(digit) =>
      var l := CaptureIndex(caps, digit);
      l >= 0 && Again(x, s, caps[l]) && Derives(x, s + caps[l].len, q, caps, e, caps')
    case AtEnd => s == |x.src| && e == s && caps' == caps
    case Chars(ep, suffix) =>
      exists t: nat :: Repeats(x, s, t, p, ep, suffix) && Derives(x, t, q, caps, e, caps')
  }

  ghost predicate Matches(x: Ctx, s: nat, p: nat, caps: seq<Capture>) {
    exists e, caps' :: Derives(x, s, p, caps, e, caps')
  }

  // The match that is found: every item occurs as often as its suffix likes best,
  // of the numbers with which the rest of the pattern matches too.
  ghost predicate Best(x: Ctx, s: nat, p: nat, caps: seq<Capture>, e: nat, caps': seq<Capture>)
    decreases |x.pat| - p
  {
    var q := After(x.pat, p);
    s <= |x.src| && CapsOk(caps, s) &&
    match ItemAt(x.pat, p)
    case End => e == s && caps' == caps
    case Malformed => false
    case OpenPosition => |caps| < MAXCAPTURES && Best(x, s, q, caps + [Capture(s, POSITION)], e, caps')
    case Open => |caps| < MAXCAPTURES && Best(x, s, q, caps + [Capture(s, UNFINISHED)], e, caps')
    case Close => ToClose(caps) >= 0 && Best(x, s, q, Closed(caps, s), e, caps')
    case BalancedText(b, c) => exists r :: Balanced(x.src, s, r, b, c) && Best(x, r, q, caps, e, caps')
    case Frontier(ep) => AtFrontier(x, s, p + 2, ep) && Best(x, s, q, caps, e, caps')
    case BackReference(digit) =>
      var l := CaptureIndex(caps, digit);
      l >= 0 && Again(x, s, caps[l]) && Best(x, s + caps[l].len, q, caps, e, caps')
    case AtEnd => s == |x.src| && e == s && caps' == caps
    case Chars(ep, suffix) =>
      exists t: nat :: Repeats(x, s, t, p, ep, suffix) && Best(x, t, q, caps, e, caps') &&
        forall t': nat :: Repeats(x, s, t', p, ep, suffix) && Before(suffix, t', t) ==> !Matches(x, t', q, caps)
  }

  // ----- well-formed patterns -----

  datatype Status = IsOpen | IsClosed | IsPosition

  function StatusOf(cap: Capture): Status {
    if cap.len == UNFINISHED then IsOpen else if cap.len == POSITION then IsPosition else IsClosed
  }

  function Statuses(caps: seq<Capture>): (st: seq<Status>)
    ensures |st| == |caps| && forall i :: 0 <= i < |caps| ==> st[i] == StatusOf(caps[i])
  {
    seq(|caps|, i requires 0 <= i < |caps| => StatusOf(caps[i]))
  }

  function LastOpen(st: seq<Status>): (l: int)
    ensures -1 <= l < |st| && (l >= 0 ==> st[l].IsOpen?)
    ensures forall i :: l < i < |st| ==> !st[i].IsOpen?
  {
    if st == [] then -1 else if st[|st| - 1].IsOpen? then |st| - 1 else LastOpen(st[..|st| - 1])
  }

  // The pattern from `p` on is well formed after captures with these statuses. This can be
  // told from the pattern alone.
  predicate WellFormed(pat: string, p: nat, st: seq<Status>)
    decreases |pat| - p
  {
    var q := After(pat, p);
    match ItemAt(pat, p)
    case End => true
    case Malformed => false
    case OpenPosition => |st| < MAXCAPTURES && WellFormed(pat, q, st + [IsPosition])
    case Open => |st| < MAXCAPTURES && WellFormed(pat, q, st + [IsOpen])
    case Close => LastOpen(st) >= 0 && WellFormed(pat, q, st[LastOpen(st) := IsClosed])
    case BackReference(digit) =>
      var l := digit as int - '1' as int;
      0 <= l < |st| && !st[l].IsOpen? && WellFormed(pat, q, st)
    case AtEnd => true
    case BalancedText(_, _) => WellFormed(pat, q, st)
    case Frontier(_) => WellFormed(pat, q, st)
    case Chars(_, _) => WellFormed(pat, q, st)
  }

  lemma OpenStatus(caps: seq<Capture>, s: nat, len: int)
    requires len == UNFINISHED || len == POSITION
    ensures Statuses(caps + [Capture(s, len)]) == Statuses(caps) + [if len == UNFINISHED then IsOpen else IsPosition]
  {
  }

  lemma ClosedStatus(caps: seq<Capture>, s: nat)
    requires CapsOk(caps, s)
    ensures ToClose(caps) == LastOpen(Statuses(caps))
    ensures ToClose(caps) >= 0 ==>
      Statuses(Closed(caps, s)) == Statuses(caps)[LastOpen(Statuses(caps)) := IsClosed] && CapsOk(Closed(caps, s), s)
  {
    var st := Statuses(caps);
    var l, l' := ToClose(caps), LastOpen(st);
    assert l >= 0 ==> st[l].IsOpen?;
    assert l' >= 0 ==> caps[l'].len == UNFINISHED;
  }

  // ----- the matcher decides the relation -----

  // The outcome says exactly which matches there are.
  ghost predicate Decides(x: Ctx, s: nat, p: nat, caps: seq<Capture>, o: Outcome) {
    match o
    case Error => false
    case Fail => !Matches(x, s, p, caps)
    case Success(e, caps') => Best(x, s, p, caps, e, caps')
  }

  lemma {:induction false} BestDerives(x: Ctx, s: nat, p: nat, caps: seq<Capture>, e: nat, caps': seq<Capture>)
    requires Best(x, s, p, caps, e, caps')
    ensures Derives(x, s, p, caps, e, caps')
    decreases |x.pat| - p
  {
    var q := After(x.pat, p);
    match ItemAt(x.pat, p)
    case End =>
    case AtEnd =>
    case OpenPosition => BestDerives(x, s, q, caps + [Capture(s, POSITION)], e, caps');
    case Open => BestDerives(x, s, q, caps + [Capture(s, UNFINISHED)], e, caps');
    case Close => BestDerives(x, s, q, Closed(caps, s), e, caps');
    case BalancedText(b, c) =>
      var r :| Balanced(x.src, s, r, b, c) && Best(x, r, q, caps, e, caps');
      BestDerives(x, r, q, caps, e, caps');
    case Frontier(ep) => BestDerives(x, s, q, caps, e, caps');
    case BackReference(digit) => BestDerives(x, s + caps[CaptureIndex(caps, digit)].len, q, caps, e, caps');
    case Chars(ep, suffix) =>
      var t: nat :| Repeats(x, s, t, p, ep, suffix) && Best(x, t, q, caps, e, caps');
      BestDerives(x, t, q, caps, e, caps');
  }

  // The matcher decides the rest of the pattern from every place up to `hi`.
  ghost predicate DecidesUpTo(x: Ctx, lo: nat, hi: nat, q: nat, caps: seq<Capture>) {
    forall t :: lo <= t <= hi ==> t <= |x.src| && CapsOk(caps, t) && Decides(x, t, q, caps, Run(x, t, q, caps))
  }

  // From `i` repetitions down: the last place from which the rest matches
  ghost predicate FoundLast(x: Ctx, lo: nat, hi: nat, q: nat, caps: seq<Capture>, o: Outcome) {
    match o
    case Error => false
    case Fail => forall t :: lo <= t <= hi ==> !Matches(x, t, q, caps)
    case Success(e, caps') =>
      exists t :: lo <= t <= hi && Best(x, t, q, caps, e, caps') && forall t' ::
        t < t' <= hi ==> !Matches(x, t', q, caps)
  }

  ghost predicate FoundFirst(x: Ctx, lo: nat, hi: nat, q: nat, caps: seq<Capture>, o: Outcome) {
    match o
    case Error => false
    case Fail => forall t :: lo <= t <= hi ==> !Matches(x, t, q, caps)
    case Success(e, caps') =>
      exists t :: lo <= t <= hi && Best(x, t, q, caps, e, caps') && forall t' ::
        lo <= t' < t ==> !Matches(x, t', q, caps)
  }

  lemma {:induction false} LongestDecides(x: Ctx, s: nat, q: nat, i: nat, caps: seq<Capture>)
    requires s + i <= |x.src| && CapsOk(caps, s) && DecidesUpTo(x, s, s + i, q, caps)
    ensures FoundLast(x, s, s + i, q, caps, Longest(x, s, q, i, caps))
    decreases i
  {
    hide Run, Best, Matches;
    assert Decides(x, s + i, q, caps, Run(x, s + i, q, caps));
    if Run(x, s + i, q, caps).Fail? && i > 0 {
      LongestDecides(x, s, q, i - 1, caps);
    }
  }

  lemma {:induction false} ShortestDecides(x: Ctx, s: nat, q: nat, i: nat, caps: seq<Capture>)
    requires s + i <= |x.src| && CapsOk(caps, s) && DecidesUpTo(x, s, s + i, q, caps)
    ensures FoundFirst(x, s, s + i, q, caps, Shortest(x, s, q, i, caps))
    decreases i
  {
    hide Run, Best, Matches;
    assert Decides(x, s, q, caps, Run(x, s, q, caps));
    if Run(x, s, q, caps).Fail? && i > 0 {
      ShortestDecides(x, s + 1, q, i - 1, caps);
    }
  }

  lemma RepeatsUpTo(x: Ctx, s: nat, t: nat, p: nat, ep: nat, suffix: Suffix)
    requires s <= |x.src| && p < ep <= |x.pat|
    ensures Repeats(x, s, t, p, ep, suffix) <==> s <= t <= s + MaxRun(x, s, p, ep) && Allowed(suffix, t - s)
  {
    var max := MaxRun(x, s, p, ep);
    if t > s + max && t <= |x.src| { assert !OneMore(x, s + max, p, ep); }
  }

  // The rest of the pattern is decided from anywhere, with any captures of these statuses.
  ghost predicate RestDecided(x: Ctx, q: nat, st: seq<Status>) {
    forall t: nat, caps ::
      t <= |x.src| && CapsOk(caps, t) && Statuses(caps) == st ==> Decides(x, t, q, caps, Run(x, t, q, caps))
  }

  lemma DecidesAt(x: Ctx, s: nat, q: nat, st: seq<Status>, caps: seq<Capture>)
    requires RestDecided(x, q, st) && s <= |x.src| && CapsOk(caps, s) && Statuses(caps) == st
    ensures Decides(x, s, q, caps, Run(x, s, q, caps))
  {
  }

  // ----- the kinds of items, one by one -----

  lemma OpenDecides(x: Ctx, s: nat, p: nat, caps: seq<Capture>)
    requires s <= |x.src| && CapsOk(caps, s) && |caps| < MAXCAPTURES
    requires var item := ItemAt(x.pat, p); item.Open? || item.OpenPosition?
    requires var caps1 := caps + [Capture(s, if ItemAt(x.pat, p).Open? then UNFINISHED else POSITION)];
      Decides(x, s, After(x.pat, p), caps1, Run(x, s, After(x.pat, p), caps1))
    ensures Decides(x, s, p, caps, Run(x, s, p, caps))
  {
    var caps1 := caps + [Capture(s, if ItemAt(x.pat, p).Open? then UNFINISHED else POSITION)];
    Onward(x, s, p, caps, s, caps1);
  }

  // When an item is passed in one way only, the rest decides.
  lemma Onward(x: Ctx, s: nat, p: nat, caps: seq<Capture>, s1: nat, caps1: seq<Capture>)
    requires s <= |x.src| && CapsOk(caps, s) && s1 <= |x.src| && CapsOk(caps1, s1)
    requires Decides(x, s1, After(x.pat, p), caps1, Run(x, s1, After(x.pat, p), caps1))
    requires forall e, caps' :: Derives(x, s, p, caps, e, caps') <==> Derives(x, s1, After(x.pat, p), caps1, e, caps')
    requires forall e, caps' :: Best(x, s, p, caps, e, caps') <==> Best(x, s1, After(x.pat, p), caps1, e, caps')
    requires Run(x, s, p, caps) == Run(x, s1, After(x.pat, p), caps1)
    ensures Decides(x, s, p, caps, Run(x, s, p, caps))
  {
  }

  lemma CloseDecides(x: Ctx, s: nat, p: nat, caps: seq<Capture>)
    requires s <= |x.src| && CapsOk(caps, s) && ItemAt(x.pat, p).Close? && ToClose(caps) >= 0 &&
      CapsOk(Closed(caps, s), s)
    requires Decides(x, s, After(x.pat, p), Closed(caps, s), Run(x, s, After(x.pat, p), Closed(caps, s)))
    ensures Decides(x, s, p, caps, Run(x, s, p, caps))
  {
    Onward(x, s, p, caps, s, Closed(caps, s));
  }

  lemma BalancedDecides(x: Ctx, s: nat, p: nat, caps: seq<Capture>)
    requires s <= |x.src| && CapsOk(caps, s) && ItemAt(x.pat, p).BalancedText? &&
      RestDecided(x, After(x.pat, p), Statuses(caps))
    ensures Decides(x, s, p, caps, Run(x, s, p, caps))
  {
    var item := ItemAt(x.pat, p);
    if r: nat :| Balanced(x.src, s, r, item.b, item.e) {
      forall r' | Balanced(x.src, s, r', item.b, item.e)
        ensures r' == r
      {
        BalancedOnce(x.src, s, r, r', item.b, item.e);
      }
      DecidesAt(x, r, After(x.pat, p), Statuses(caps), caps);
      Onward(x, s, p, caps, r, caps);
    }
  }

  lemma FrontierDecides(x: Ctx, s: nat, p: nat, caps: seq<Capture>)
    requires s <= |x.src| && CapsOk(caps, s) && ItemAt(x.pat, p).Frontier? &&
      RestDecided(x, After(x.pat, p), Statuses(caps))
    ensures Decides(x, s, p, caps, Run(x, s, p, caps))
  {
    DecidesAt(x, s, After(x.pat, p), Statuses(caps), caps);
    if AtFrontier(x, s, p + 2, ItemAt(x.pat, p).ep) { Onward(x, s, p, caps, s, caps); }
  }

  lemma BackReferenceDecides(x: Ctx, s: nat, p: nat, caps: seq<Capture>)
    requires s <= |x.src| && CapsOk(caps, s) && ItemAt(x.pat, p).BackReference? &&
      RestDecided(x, After(x.pat, p), Statuses(caps))
    requires CaptureIndex(caps, ItemAt(x.pat, p).digit) >= 0
    ensures Decides(x, s, p, caps, Run(x, s, p, caps))
  {
    hide Statuses, RestDecided, Repeats, Balanced, AtFrontier, ToClose, OneMore, MaxRun, Longest, Shortest, After,
      ItemAt, CaptureIndex;
    var l := CaptureIndex(caps, ItemAt(x.pat, p).digit);
    if Again(x, s, caps[l]) {
      DecidesAt(x, s + caps[l].len, After(x.pat, p), Statuses(caps), caps);
      Onward(x, s, p, caps, s + caps[l].len, caps);
    }
  }

  lemma NoDerivation(x: Ctx, s: nat, p: nat, caps: seq<Capture>, e: nat, caps': seq<Capture>)
    requires !Matches(x, s, p, caps)
    ensures !Derives(x, s, p, caps, e, caps')
  {
  }

  // The best number of repetitions, from what the loops found
  lemma CharsDecide(x: Ctx, s: nat, p: nat, caps: seq<Capture>, lo: nat, hi: nat)
    requires s <= |x.src| && CapsOk(caps, s) && ItemAt(x.pat, p).Chars?
    requires var item := ItemAt(x.pat, p);
      && (forall t: nat :: Repeats(x, s, t, p, item.ep, item.suffix) <==> lo <= t <= hi)
      && if item.suffix.Minus? then FoundFirst(x, lo, hi, After(x.pat, p), caps, Run(x, s, p, caps))
         else FoundLast(x, lo, hi, After(x.pat, p), caps, Run(x, s, p, caps))
    ensures Decides(x, s, p, caps, Run(x, s, p, caps))
  {
    hide Run, OneMore, Repeats;
    var item, q := ItemAt(x.pat, p), After(x.pat, p);
    match Run(x, s, p, caps)
    case Fail =>
      forall e, caps' ensures !Derives(x, s, p, caps, e, caps') {
        forall t: nat | lo <= t <= hi
          ensures !Derives(x, t, q, caps, e, caps')
        {
          NoDerivation(x, t, q, caps, e, caps');
        }
      }
    case Success(e, caps') =>
      var t :| lo <= t <= hi && Best(x, t, q, caps, e, caps') &&
        if item.suffix.Minus? then forall t' :: lo <= t' < t ==> !Matches(x, t', q, caps)
          else forall t' :: t < t' <= hi ==> !Matches(x, t', q, caps);
      assert Repeats(x, s, t, p, item.ep, item.suffix);
  }

  lemma RestUpTo(x: Ctx, s: nat, p: nat, caps: seq<Capture>, lo: nat, hi: nat)
    requires s <= lo && hi <= |x.src| && CapsOk(caps, s) && RestDecided(x, After(x.pat, p), Statuses(caps))
    ensures DecidesUpTo(x, lo, hi, After(x.pat, p), caps)
  {
    forall t | lo <= t <= hi
      ensures CapsOk(caps, t) && Decides(x, t, After(x.pat, p), caps, Run(x, t, After(x.pat, p), caps))
    {
      DecidesAt(x, t, After(x.pat, p), Statuses(caps), caps);
    }
  }

  lemma MaxRunFrom(x: Ctx, s: nat, p: nat, ep: nat)
    requires s <= |x.src| && p < ep <= |x.pat|
    ensures MaxRun(x, s, p, ep) == if OneMore(x, s, p, ep) then 1 + MaxRun(x, s + 1, p, ep) else 0
  {
  }

  // The item with its suffix, and the rest decided up to its maximal run
  ghost predicate Repetition(x: Ctx, s: nat, p: nat, caps: seq<Capture>, max: nat) {
    && s <= |x.src| && CapsOk(caps, s) && ItemAt(x.pat, p).Chars?
    && max == MaxRun(x, s, p, ItemAt(x.pat, p).ep) && DecidesUpTo(x, s, s + max, After(x.pat, p), caps)
  }

  lemma StarDecides(x: Ctx, s: nat, p: nat, caps: seq<Capture>, max: nat)
    requires Repetition(x, s, p, caps, max) && ItemAt(x.pat, p).suffix.Star?
    ensures Decides(x, s, p, caps, Run(x, s, p, caps))
  {
    hide After, ItemAt, OneMore, Decides, MaxRun, Longest, FoundLast;
    LongestDecides(x, s, After(x.pat, p), max, caps);
    forall t: nat { RepeatsUpTo(x, s, t, p, ItemAt(x.pat, p).ep, Star); }
    CharsDecide(x, s, p, caps, s, s + max);
  }

  lemma MinusDecides(x: Ctx, s: nat, p: nat, caps: seq<Capture>, max: nat)
    requires Repetition(x, s, p, caps, max) && ItemAt(x.pat, p).suffix.Minus?
    ensures Decides(x, s, p, caps, Run(x, s, p, caps))
  {
    hide After, ItemAt, OneMore, Decides, MaxRun, Shortest, FoundFirst;
    ShortestDecides(x, s, After(x.pat, p), max, caps);
    forall t: nat { RepeatsUpTo(x, s, t, p, ItemAt(x.pat, p).ep, Minus); }
    CharsDecide(x, s, p, caps, s, s + max);
  }

  lemma PlusDecides(x: Ctx, s: nat, p: nat, caps: seq<Capture>, max: nat)
    requires Repetition(x, s, p, caps, max) && ItemAt(x.pat, p).suffix.Plus?
    ensures Decides(x, s, p, caps, Run(x, s, p, caps))
  {
    hide After, ItemAt, OneMore, Decides, MaxRun, Longest;
    var ep := ItemAt(x.pat, p).ep;
    MaxRunFrom(x, s, p, ep);
    if OneMore(x, s, p, ep) { LongestDecides(x, s + 1, After(x.pat, p), max - 1, caps); }
    forall t: nat { RepeatsUpTo(x, s, t, p, ep, Plus); }
    CharsDecide(x, s, p, caps, s + 1, s + max);
  }

  lemma OneDecides(x: Ctx, s: nat, p: nat, caps: seq<Capture>, max: nat)
    requires Repetition(x, s, p, caps, max) && ItemAt(x.pat, p).suffix.One?
    ensures Decides(x, s, p, caps, Run(x, s, p, caps))
  {
    hide After, ItemAt, OneMore, MaxRun;
    var ep := ItemAt(x.pat, p).ep;
    MaxRunFrom(x, s, p, ep);
    forall t: nat { RepeatsUpTo(x, s, t, p, ep, One); }
    CharsDecide(x, s, p, caps, s + 1, if max > 0 then s + 1 else s);
  }

  lemma OptionalDecides(x: Ctx, s: nat, p: nat, caps: seq<Capture>, max: nat)
    requires Repetition(x, s, p, caps, max) && ItemAt(x.pat, p).suffix.Optional?
    ensures Decides(x, s, p, caps, Run(x, s, p, caps))
  {
    hide After, ItemAt, OneMore, MaxRun;
    var ep := ItemAt(x.pat, p).ep;
    MaxRunFrom(x, s, p, ep);
    forall t: nat { RepeatsUpTo(x, s, t, p, ep, Optional); }
    CharsDecide(x, s, p, caps, s, if max > 0 then s + 1 else s);
  }

  lemma RepetitionDecides(x: Ctx, s: nat, p: nat, caps: seq<Capture>)
    requires s <= |x.src| && CapsOk(caps, s) && ItemAt(x.pat, p).Chars? &&
      RestDecided(x, After(x.pat, p), Statuses(caps))
    ensures Decides(x, s, p, caps, Run(x, s, p, caps))
  {
    var item := ItemAt(x.pat, p);
    var max := MaxRun(x, s, p, item.ep);
    RestUpTo(x, s, p, caps, s, s + max);
    match item.suffix
    case Star => StarDecides(x, s, p, caps, max);
    case Minus => MinusDecides(x, s, p, caps, max);
    case Plus => PlusDecides(x, s, p, caps, max);
    case One => OneDecides(x, s, p, caps, max);
    case Optional => OptionalDecides(x, s, p, caps, max);
  }

  // On a well-formed pattern the matcher raises no error; it fails only if there is no
  // match, and else finds the best one.
  lemma {:induction false} RunDecides(x: Ctx, s: nat, p: nat, caps: seq<Capture>)
    requires s <= |x.src| && CapsOk(caps, s) && WellFormed(x.pat, p, Statuses(caps))
    ensures Decides(x, s, p, caps, Run(x, s, p, caps))
    decreases |x.pat| - p
  {
    var q := After(x.pat, p);
    var item := ItemAt(x.pat, p);
    if item.Open? || item.OpenPosition? {
      var cap := Capture(s, if item.Open? then UNFINISHED else POSITION);
      OpenStatus(caps, s, cap.len);
      RunDecides(x, s, q, caps + [cap]);
      OpenDecides(x, s, p, caps);
    } else if item.Close? {
      ClosedStatus(caps, s);
      RunDecides(x, s, q, Closed(caps, s));
      CloseDecides(x, s, p, caps);
    } else if item.End? || item.AtEnd? {
      EndDecides(x, s, p, caps);
    } else {
      hide Decides, Run;
      forall t: nat, cs | t <= |x.src| && CapsOk(cs, t) && Statuses(cs) == Statuses(caps)
        ensures Decides(x, t, q, cs, Run(x, t, q, cs))
      {
        RunDecides(x, t, q, cs);
      }
      RestDecides(x, s, p, caps);
    }
  }

  lemma EndDecides(x: Ctx, s: nat, p: nat, caps: seq<Capture>)
    requires s <= |x.src| && CapsOk(caps, s) && (ItemAt(x.pat, p).End? || ItemAt(x.pat, p).AtEnd?)
    ensures Decides(x, s, p, caps, Run(x, s, p, caps))
  {
  }

  lemma RestDecides(x: Ctx, s: nat, p: nat, caps: seq<Capture>)
    requires s <= |x.src| && CapsOk(caps, s) && WellFormed(x.pat, p, Statuses(caps)) &&
      RestDecided(x, After(x.pat, p), Statuses(caps))
    requires var item := ItemAt(x.pat, p);
      !item.Open? && !item.OpenPosition? && !item.Close? && !item.End? && !item.AtEnd?
    ensures Decides(x, s, p, caps, Run(x, s, p, caps))
  {
    hide Decides, Run, RestDecided;
    match ItemAt(x.pat, p)
    case BalancedText(_, _) => BalancedDecides(x, s, p, caps);
    case Frontier(_) => FrontierDecides(x, s, p, caps);
    case BackReference(digit) =>
      assert CaptureIndex(caps, digit) >= 0;
      BackReferenceDecides(x, s, p, caps);
    case Chars(_, _) => RepetitionDecides(x, s, p, caps);
  }

  // ----- the results -----

  lemma {:induction false} BestUnique(x: Ctx, s: nat, p: nat, caps: seq<Capture>, e1: nat, c1: seq<Capture>, e2: nat,
      c2: seq<Capture>)
    requires Best(x, s, p, caps, e1, c1) && Best(x, s, p, caps, e2, c2)
    ensures e1 == e2 && c1 == c2
    decreases |x.pat| - p
  {
    var q := After(x.pat, p);
    match ItemAt(x.pat, p)
    case End =>
    case AtEnd =>
    case OpenPosition => BestUnique(x, s, q, caps + [Capture(s, POSITION)], e1, c1, e2, c2);
    case Open => BestUnique(x, s, q, caps + [Capture(s, UNFINISHED)], e1, c1, e2, c2);
    case Close => BestUnique(x, s, q, Closed(caps, s), e1, c1, e2, c2);
    case BalancedText(b, c) =>
      var r1 :| Balanced(x.src, s, r1, b, c) && Best(x, r1, q, caps, e1, c1);
      var r2 :| Balanced(x.src, s, r2, b, c) && Best(x, r2, q, caps, e2, c2);
      BalancedOnce(x.src, s, r1, r2, b, c);
      BestUnique(x, r1, q, caps, e1, c1, e2, c2);
    case Frontier(_) => BestUnique(x, s, q, caps, e1, c1, e2, c2);
    case BackReference(digit) => BestUnique(x, s + caps[CaptureIndex(caps, digit)].len, q, caps, e1, c1, e2, c2);
    case Chars(ep, suffix) =>
      var t1 := BestPlace(x, s, p, caps, e1, c1);
      var t2 := BestPlace(x, s, p, caps, e2, c2);
      BestDerives(x, t1, q, caps, e1, c1);
      BestDerives(x, t2, q, caps, e2, c2);
      assert Matches(x, t1, q, caps) && Matches(x, t2, q, caps);
      assert t1 == t2;
      BestUnique(x, t1, q, caps, e1, c1, e2, c2);
  }

  lemma BestPlace(x: Ctx, s: nat, p: nat, caps: seq<Capture>, e: nat, caps': seq<Capture>) returns (t: nat)
    requires ItemAt(x.pat, p).Chars? && Best(x, s, p, caps, e, caps')
    ensures var item, q := ItemAt(x.pat, p), After(x.pat, p);
      && Repeats(x, s, t, p, item.ep, item.suffix) && Best(x, t, q, caps, e, caps')
      && forall t': nat ::
        Repeats(x, s, t', p, item.ep, item.suffix) && Before(item.suffix, t', t) ==> !Matches(x, t', q, caps)
  {
    var item, q := ItemAt(x.pat, p), After(x.pat, p);
    t :| Repeats(x, s, t, p, item.ep, item.suffix) && Best(x, t, q, caps, e, caps') &&
      forall t': nat ::
        Repeats(x, s, t', p, item.ep, item.suffix) && Before(item.suffix, t', t) ==> !Matches(x, t', q, caps);
  }

  // `match` succeeds exactly when there is a match, and its result is the best one.
  lemma MatchesExactly(x: Ctx, s: nat, p: nat)
    requires s <= |x.src| && WellFormed(x.pat, p, [])
    ensures Run(x, s, p, []) != Error
    ensures Run(x, s, p, []).Success? <==> Matches(x, s, p, [])
    ensures forall e, caps :: Run(x, s, p, []) == Success(e, caps) <==> Best(x, s, p, [], e, caps)
  {
    assert Statuses([]) == [];
    RunDecides(x, s, p, []);
    hide Run, Best;
    match Run(x, s, p, [])
    case Success(e, caps) =>
      BestDerives(x, s, p, [], e, caps);
      forall e', caps' | Best(x, s, p, [], e', caps')
        ensures e' == e && caps' == caps
      {
        BestUnique(x, s, p, [], e, caps, e', caps');
      }
    case Fail =>
      forall e', caps' ensures !Best(x, s, p, [], e', caps') {
        if Best(x, s, p, [], e', caps') { BestDerives(x, s, p, [], e', caps'); }
      }
  }
}
