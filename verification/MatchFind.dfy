/**
 Searching: the plain search, the search for a pattern, and when the two agree.
 */
module MatchFind {
  import opened MatchPattern
  import opened MatchRun
  import opened MatchMeaning
  import opened MatchState
  import opened Wrappers

  const SPECIALS := "^$*+?.([%-"

  // ----- the plain search -----

  predicate Occurs(s: string, i: nat, w: string) {
    i + |w| <= |s| && s[i..i + |w|] == w
  }

  // `memchr` on `n` characters from `at` on
  method MemChr(s: string, at: nat, c: char, n: nat) returns (r: int)
    requires at + n <= |s|
    ensures r == -1 ==> forall i :: at <= i < at + n ==> s[i] != c
    ensures r != -1 ==> at <= r < at + n && s[r] == c && forall i :: at <= i < r ==> s[i] != c
  {
    r := at;
    while r < at + n
      invariant at <= r <= at + n && forall i :: at <= i < r ==> s[i] != c
    {
      if s[r] == c { return; }
      r := r + 1;
    }
    r := -1;
  }

  lemma OccursHead(s: string, i: nat, w: string)
    requires |w| > 0
    ensures Occurs(s, i, w) <==> i < |s| && s[i] == w[0] && Occurs(s, i + 1, w[1..])
  {
    if i + |w| <= |s| {
      assert s[i..i + |w|] == [s[i]] + s[i + 1..i + |w|];
      assert w == [w[0]] + w[1..];
    }
  }

  // `lmemfind`: the first occurrence
  method MemFind(s1: string, s2: string) returns (r: int)
    ensures r == -1 ==> forall i :: !Occurs(s1, i, s2)
    ensures r != -1 ==> r >= 0 && Occurs(s1, r, s2) && forall i :: 0 <= i < r ==> !Occurs(s1, i, s2)
  {
    if |s2| == 0 { return 0; }
    if |s2| > |s1| { return -1; }
    var l2 := |s2| - 1;
    var l1 := |s1| - l2;
    var at := 0;
    while l1 > 0
      invariant at + l1 == |s1| - l2 && l1 >= 0 && at >= 0
      invariant forall i :: 0 <= i < at ==> !Occurs(s1, i, s2)
      decreases l1
    {
      var init := MemChr(s1, at, s2[0], l1);
      if init == -1 {
        forall i: nat ensures !Occurs(s1, i, s2) { OccursHead(s1, i, s2); }
        return -1;
      }
      forall i | at <= i < init ensures !Occurs(s1, i, s2) { OccursHead(s1, i, s2); }
      OccursHead(s1, init, s2);
      init := init + 1;
      if s1[init..init + l2] == s2[1..] { return init - 1; }
      l1 := l1 - (init - at);
      at := init;
    }
    return -1;
  }

  // ----- the captures of a match -----

  datatype CaptureValue = Text(text: string) | Position(n: nat)

  predicate Finished(caps: seq<Capture>) {
    forall i :: 0 <= i < |caps| ==> caps[i].len != UNFINISHED
  }

  function ValueOf(src: string, cap: Capture): CaptureValue {
    if cap.len < 0 then Position(cap.init + 1)
    else if cap.init + cap.len <= |src| then Text(src[cap.init..cap.init + cap.len])
    else Text("")
  }

  function Values(src: string, caps: seq<Capture>, whole: bool, s: nat, e: nat): seq<CaptureValue>
    requires s <= e <= |src|
  {
    if caps == [] && whole then [Text(src[s..e])]
    else seq(|caps|, i requires 0 <= i < |caps| => ValueOf(src, caps[i]))
  }

  // `push_captures`; none is the error of an unfinished capture.
  method PushCaptures(ms: MatchState, whole: bool, s: nat, e: nat) returns (vs: Option<seq<CaptureValue>>)
    requires ms.Valid() && s <= e <= |ms.x.src|
    ensures vs.Some? <==> Finished(ms.Caps())
    ensures vs.Some? ==> vs.value == Values(ms.x.src, ms.Caps(), whole, s, e)
  {
    ghost var caps := ms.Caps();
    if ms.level == 0 && whole { return Some([Text(ms.x.src[s..e])]); }
    var r: seq<CaptureValue> := [];
    var i := 0;
    while i < ms.level
      invariant 0 <= i <= ms.level == |caps| && |r| == i
      invariant forall j :: 0 <= j < i ==> caps[j].len != UNFINISHED && r[j] == ValueOf(ms.x.src, caps[j])
    {
      assert ms.capture[i] == caps[i];
      if ms.capture[i].len == UNFINISHED { return None; }
      r := r + [ValueOf(ms.x.src, ms.capture[i])];
      i := i + 1;
    }
    return Some(r);
  }

  // ----- the search for a pattern -----

  datatype Found = NotFound | Span(start: nat, end: nat, values: seq<CaptureValue>) | Failed

  // `posrelat`, and the clamping of `init` to the subject
  function StartAt(init: int, len: nat): (i: nat)
    ensures i <= len
  {
    var pos := (if init >= 0 then init else len + init + 1) - 1;
    if pos < 0 then 0 else if pos > len then len else pos
  }

  // The first place, from `from` to `to`, where the matcher does not just fail
  ghost predicate IsFirst(x: Ctx, p: nat, from: nat, to: nat, s: nat)
    requires to <= |x.src|
  {
    from <= s <= to && !Run(x, s, p, []).Fail? && forall t :: from <= t < s ==> Run(x, t, p, []).Fail?
  }

  // What `string.find` and `string.match` answer, given the outcome at the first place
  ghost predicate Reports(x: Ctx, s: nat, o: Outcome, find: bool, r: Found)
    requires o.Success? ==> s <= o.e <= |x.src|
  {
    match o
    case Fail => false
    case Error => r == Failed
    case Success(e, caps) => r == if Finished(caps) then Span(s, e, Values(x.src, caps, !find, s, e)) else Failed
  }

  // What the search answers, in terms of the matcher
  ghost predicate FindsFirst(x: Ctx, p: nat, from: nat, to: nat, find: bool, r: Found)
    requires to <= |x.src|
  {
    if r.NotFound? then forall t :: from <= t <= to ==> Run(x, t, p, []).Fail?
    else exists s :: IsFirst(x, p, from, to, s) && Reports(x, s, Run(x, s, p, []), find, r)
  }

  // There is a match at `s` and none before it, and the answer is the best match at `s`.
  ghost predicate Leftmost(x: Ctx, p: nat, from: nat, to: nat, find: bool, r: Found, s: nat, e: nat, caps: seq<Capture>)
    requires to <= |x.src|
  {
    && from <= s <= to && s <= e <= |x.src| && Best(x, s, p, [], e, caps)
    && (forall t :: from <= t < s ==> !Matches(x, t, p, []))
    && r == if Finished(caps) then Span(s, e, Values(x.src, caps, !find, s, e)) else Failed
  }

  // What the search answers, in terms of what the pattern means
  ghost predicate FindsBest(x: Ctx, p: nat, from: nat, to: nat, find: bool, r: Found)
    requires to <= |x.src|
  {
    if r.NotFound? then forall t :: from <= t <= to ==> !Matches(x, t, p, [])
    else exists s, e, caps :: Leftmost(x, p, from, to, find, r, s, e, caps)
  }

  // On a well-formed pattern the search finds the leftmost match, and the best one there; the
  // only error left is a capture that never ends.
  lemma FoundIsBest(x: Ctx, p: nat, from: nat, to: nat, find: bool, r: Found)
    requires to <= |x.src| && WellFormed(x.pat, p, []) && FindsFirst(x, p, from, to, find, r)
    ensures FindsBest(x, p, from, to, find, r)
  {
    forall t: nat | t <= to ensures Run(x, t, p, []).Fail? ==> !Matches(x, t, p, []) { MatchesExactly(x, t, p); }
    if !r.NotFound? {
      var s :| IsFirst(x, p, from, to, s) && Reports(x, s, Run(x, s, p, []), find, r);
      MatchesExactly(x, s, p);
      var o := Run(x, s, p, []);
      hide Run, Best, Matches;
      assert Leftmost(x, p, from, to, find, r, s, o.e, o.caps);
    }
  }

  // The loop of `str_find_aux`
  method FindPattern(src: string, pat: string, init: nat, find: bool) returns (r: Found)
    requires init <= |src|
    ensures var x, p := Ctx(src, pat), if Peek(pat, 0) == '^' then 1 else 0;
      var to := if p == 1 then init else |src|;
      FindsFirst(x, p, init, to, find, r)
  {
    hide Run, Finished, Values;
    var anchor := Peek(pat, 0) == '^';
    var p := if anchor then 1 else 0;
    var ms := new MatchState(Ctx(src, pat));
    var s1 := init;
    while true
      invariant ms.Valid() && ms.x == Ctx(src, pat) && init <= s1 <= |src| && (anchor ==> s1 == init) && fresh(ms) &&
        fresh(ms.capture)
      invariant forall t :: init <= t < s1 ==> Run(ms.x, t, p, []).Fail?
      decreases |src| - s1
    {
      ms.level := 0;
      assert ms.Caps() == [];
      var res := ms.Match(s1, p);
      if !res.Null? {
        assert IsFirst(ms.x, p, init, if anchor then init else |src|, s1);
        if res.Raised? { return Failed; }
        var vs := PushCaptures(ms, !find, s1, res.e);
        return if vs.None? then Failed else Span(s1, res.e, vs.value);
      }
      if s1 >= |src| || anchor { break; }
      s1 := s1 + 1;
    }
    return NotFound;
  }

  // ----- the fast path -----

  // `strpbrk(p, SPECIALS) == NULL`: it looks no further than the first NUL.
  ghost predicate NoSpecials(pat: string) {
    forall i :: 0 <= i < |pat| && NUL !in pat[..i + 1] ==> pat[i] !in SPECIALS
  }

  lemma NulStays(pat: string, i: nat)
    requires i < |pat| && pat[i] == NUL
    ensures forall j :: i < j <= |pat| ==> NUL in pat[..j]
  {
    forall j | i < j <= |pat| ensures NUL in pat[..j] { assert pat[..j][i] == NUL; }
  }

  method HasSpecials(pat: string) returns (b: bool)
    ensures b == !NoSpecials(pat)
  {
    var i := 0;
    while i < |pat| && pat[i] != NUL
      invariant 0 <= i <= |pat| && NUL !in pat[..i]
      invariant forall j :: 0 <= j < i ==> pat[j] !in SPECIALS
    {
      if pat[i] in SPECIALS {
        assert pat[..i + 1] == pat[..i] + [pat[i]];
        return true;
      }
      assert pat[..i + 1] == pat[..i] + [pat[i]];
      i := i + 1;
    }
    if i < |pat| { NulStays(pat, i); }
    return false;
  }

  // `str_find_aux`: with `find`, `plain` or a pattern without specials makes the search plain.
  method FindAux(src: string, pat: string, init: int, find: bool, plain: bool) returns (r: Found)
    ensures var i := StartAt(init, |src|);
      if find && (plain || NoSpecials(pat)) then
        if r.NotFound? then forall s :: i <= s ==> !Occurs(src, s, pat)
        else r.Span? && i <= r.start && Occurs(src, r.start, pat) && r == Span(r.start, r.start + |pat|, [])
             && forall s :: i <= s < r.start ==> !Occurs(src, s, pat)
      else
        var x, p := Ctx(src, pat), if Peek(pat, 0) == '^' then 1 else 0;
        var to := if p == 1 then i else |src|;
        FindsFirst(x, p, i, to, find, r) && (WellFormed(pat, p, []) ==> FindsBest(x, p, i, to, find, r))
  {
    var i := StartAt(init, |src|);
    var fast := false;
    if find {
      if plain { fast := true; } else { var b := HasSpecials(pat); fast := !b; }
    }
    if fast {
      var at := MemFind(src[i..], pat);
      forall s: nat ensures Occurs(src[i..], s, pat) <==> Occurs(src, i + s, pat) {
        if i + s + |pat| <= |src| { assert src[i..][s..s + |pat|] == src[i + s..i + s + |pat|]; }
      }
      r := if at == -1 then NotFound else Span(i + at, i + at + |pat|, []);
      forall s | i <= s && (at == -1 || s < i + at) ensures !Occurs(src, s, pat) {
        assert !Occurs(src[i..], s - i, pat);
      }
    } else {
      r := FindPattern(src, pat, i, find);
      ghost var x, p := Ctx(src, pat), if Peek(pat, 0) == '^' then 1 else 0;
      if WellFormed(pat, p, []) { FoundIsBest(x, p, i, if p == 1 then i else |src|, find, r); }
    }
  }

  // What the matcher would have to say for the plain search to be right
  function PlainOutcome(src: string, pat: string, s: nat): Outcome {
    if Occurs(src, s, pat) then Success(s + |pat|, []) else Fail
  }

  // The plain search finds what the matcher finds, on every subject.
  ghost predicate PlainAgrees(pat: string) {
    forall src, s :: 0 <= s <= |src| ==> Run(Ctx(src, pat), s, 0, []) == PlainOutcome(src, pat, s)
  }

  predicate Literal(c: char) {
    c !in SPECIALS && c != ')' && c != NUL
  }

  // A literal that no suffix follows matches itself.
  lemma LiteralStep(x: Ctx, s: nat, p: nat)
    requires s <= |x.src| && p < |x.pat| && Literal(x.pat[p]) && Peek(x.pat, p + 1) !in SPECIALS
    ensures Run(x, s, p, []) == if s < |x.src| && x.src[s] == x.pat[p] then Run(x, s + 1, p + 1, []) else Fail
  {
    var c, c1 := x.pat[p], Peek(x.pat, p + 1);
    assert c != '%' && c != '[' && c != '(' && c != '.' && c != '$' by { NotSpecial(c); }
    assert SuffixOf(c1) == One by { NotSpecial(c1); }
    assert ItemAt(x.pat, p) == Chars(p + 1, One);
  }

  lemma NotSpecial(c: char)
    requires c !in SPECIALS
    ensures c != '^' && c != '$' && c != '*' && c != '+' && c != '?' && c != '.' && c != '(' && c != '[' && c != '%' &&
      c != '-'
  {
    assert SPECIALS[0] == '^' && SPECIALS[1] == '$' && SPECIALS[2] == '*' && SPECIALS[3] == '+' && SPECIALS[4] == '?';
    assert SPECIALS[5] == '.' && SPECIALS[6] == '(' && SPECIALS[7] == '[' && SPECIALS[8] == '%' && SPECIALS[9] == '-';
  }

  lemma NotSpecialEnd()
    ensures NUL !in SPECIALS && ')' !in SPECIALS
  {
  }

  lemma {:induction false} LiteralRun(x: Ctx, s: nat, p: nat)
    requires s <= |x.src| && p <= |x.pat| && forall i :: p <= i < |x.pat| ==> Literal(x.pat[i])
    ensures Run(x, s, p, []) == if Occurs(x.src, s, x.pat[p..]) then Success(s + |x.pat| - p, []) else Fail
    decreases |x.pat| - p
  {
    NotSpecialEnd();
    if p < |x.pat| {
      hide Run, Occurs;
      LiteralStep(x, s, p);
      OccursHead(x.src, s, x.pat[p..]);
      assert x.pat[p..][1..] == x.pat[p + 1..];
      if s < |x.src| { LiteralRun(x, s + 1, p + 1); }
    } else {
      LiteralEnd(x, s, p);
    }
  }

  lemma LiteralEnd(x: Ctx, s: nat, p: nat)
    requires s <= |x.src| && p == |x.pat|
    ensures Run(x, s, p, []) == Success(s, []) && Occurs(x.src, s, x.pat[p..])
  {
    assert x.src[s..s] == x.pat[p..];
  }

  // The literals of a pattern before `k`, matched against the pattern itself
  lemma {:induction false} LiteralsOnSelf(pat: string, p: nat, k: nat)
    requires p <= k < |pat| && (forall i :: 0 <= i < k ==> Literal(pat[i])) && (pat[k] == ')' || pat[k] == NUL)
    ensures Run(Ctx(pat, pat), p, p, []) == Run(Ctx(pat, pat), k, k, [])
    decreases k - p
  {
    NotSpecialEnd();
    if p < k {
      LiteralStep(Ctx(pat, pat), p, p);
      LiteralsOnSelf(pat, p + 1, k);
    }
  }

  // The first character that makes a difference
  lemma {:induction false} FirstNonLiteral(pat: string, k: nat) returns (j: nat)
    requires NoSpecials(pat) && k < |pat| && (pat[k] == ')' || pat[k] == NUL)
    ensures j <= k && (pat[j] == ')' || pat[j] == NUL) && forall i :: 0 <= i < j ==> Literal(pat[i])
    decreases k
  {
    if i :| 0 <= i < k && (pat[i] == ')' || pat[i] == NUL) {
      j := FirstNonLiteral(pat, i);
    } else {
      j := k;
      forall i | 0 <= i < j ensures Literal(pat[i]) {
        assert NUL !in pat[..i + 1];
      }
    }
  }

  // `SPECIALS` lacks the closing parenthesis, and `strpbrk` stops at a NUL: the fast path
  // is right exactly for the patterns with neither.
  lemma FastPathIsRight(pat: string)
    requires NoSpecials(pat)
    ensures PlainAgrees(pat) <==> ')' !in pat && NUL !in pat
  {
    if ')' !in pat && NUL !in pat {
      forall i | 0 <= i < |pat| ensures Literal(pat[i]) {
        assert pat[i] in pat && NUL !in pat[..i + 1];
      }
      forall src, s | 0 <= s <= |src| ensures Run(Ctx(src, pat), s, 0, []) == PlainOutcome(src, pat, s) {
        LiteralRun(Ctx(src, pat), s, 0);
        assert pat[0..] == pat;
      }
    } else {
      var k: nat :| k < |pat| && (pat[k] == ')' || pat[k] == NUL);
      var j := FirstNonLiteral(pat, k);
      LiteralsOnSelf(pat, 0, j);
      assert Occurs(pat, 0, pat) by { assert pat[0..|pat|] == pat; }
      assert Run(Ctx(pat, pat), 0, 0, []) != PlainOutcome(pat, pat, 0);
    }
  }
}
