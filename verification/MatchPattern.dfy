/**
 The items of a pattern, see lstrlib.c: where they end, and which characters they match.
 A pattern ends at its first NUL, or at its end.
 */
module MatchPattern {
  import opened Wrappers

  const ESC := '%'
  const NUL := '\0'

  // What the pointer `p` reads; past the end there is the terminator.
  function Peek(s: string, i: nat): char {
    if i < |s| then s[i] else NUL
  }

  // ----- character classes, in the C locale -----

  predicate IsDigit(c: char) {
    '0' <= c <= '9'
  }

  predicate IsLower(c: char) {
    'a' <= c <= 'z'
  }

  predicate IsUpper(c: char) {
    'A' <= c <= 'Z'
  }

  predicate IsAlpha(c: char) {
    IsLower(c) || IsUpper(c)
  }

  predicate IsControl(c: char) {
    c as int < 32 || c as int == 127
  }

  predicate IsSpace(c: char) {
    c == ' ' || 9 <= c as int <= 13
  }

  predicate IsPunct(c: char) {
    32 < c as int < 127 && !IsAlpha(c) && !IsDigit(c)
  }

  predicate IsHex(c: char) {
    IsDigit(c) || 'a' <= c <= 'f' || 'A' <= c <= 'F'
  }

  function ToLower(c: char): char {
    if IsUpper(c) then (c as int + 32) as char else c
  }

  // The test of the class letter, if it is one
  function ClassTest(c: char, letter: char): Option<bool> {
    if letter == 'a' then Some(IsAlpha(c))
    else if letter == 'c' then Some(IsControl(c))
    else if letter == 'd' then Some(IsDigit(c))
    else if letter == 'l' then Some(IsLower(c))
    else if letter == 'p' then Some(IsPunct(c))
    else if letter == 's' then Some(IsSpace(c))
    else if letter == 'u' then Some(IsUpper(c))
    else if letter == 'w' then Some(IsAlpha(c) || IsDigit(c))
    else if letter == 'x' then Some(IsHex(c))
    else if letter == 'z' then Some(c == NUL)
    else None
  }

  // `match_class`
  predicate MatchClass(c: char, cl: char) {
    match ClassTest(c, ToLower(cl))
    case None => cl == c
    case Some(res) => if IsLower(cl) then res else !res
  }

  // ----- where an item ends -----

  // From inside the brackets to behind the `]` that closes them
  function SetEnd(pat: string, q: nat): (e: Option<nat>)
    ensures e.Some? ==> q + 1 < e.value <= |pat| && pat[e.value - 1] == ']'
    decreases |pat| - q
  {
    if Peek(pat, q) == NUL then None
    else
      var q1 := if pat[q] == ESC && Peek(pat, q + 1) != NUL then q + 2 else q + 1;
      if Peek(pat, q1) == ']' then Some(q1 + 1) else SetEnd(pat, q1)
  }

  // The first place inside the brackets at `p`
  function SetStart(pat: string, p: nat): nat {
    if Peek(pat, p + 1) == '^' then p + 2 else p + 1
  }

  // `classend`; none is the error of a malformed pattern.
  function ClassEnd(pat: string, p: nat): (e: Option<nat>)
    requires Peek(pat, p) != NUL
    ensures e.Some? ==> p < e.value <= |pat|
  {
    if pat[p] == ESC then (if Peek(pat, p + 1) == NUL then None else Some(p + 2))
    else if pat[p] == '[' then SetEnd(pat, SetStart(pat, p))
    else Some(p + 1)
  }

  // ----- sets -----

  datatype SetItem = Class(cl: char) | Range(lo: char, hi: char)

  predicate InItem(c: char, item: SetItem) {
    match item
    case Class(cl) => MatchClass(c, cl)
    case Range(lo, hi) => lo <= c <= hi
  }

  // The items of a set up to the closing bracket at `ec`
  function SetItems(pat: string, i: nat, ec: nat): seq<SetItem>
    requires ec <= |pat|
    decreases ec - i
  {
    if i >= ec then []
    else if pat[i] == ESC then [Class(Peek(pat, i + 1))] + SetItems(pat, i + 2, ec)
    else if Peek(pat, i + 1) == '-' && i + 2 < ec then [Range(pat[i], pat[i + 2])] + SetItems(pat, i + 3, ec)
    else [Range(pat[i], pat[i])] + SetItems(pat, i + 1, ec)
  }

  predicate InSome(c: char, items: seq<SetItem>) {
    exists i :: 0 <= i < |items| && InItem(c, items[i])
  }

  // The set at `p`, whose closing bracket is at `ec`, has the character.
  predicate InSet(c: char, pat: string, p: nat, ec: nat)
    requires ec <= |pat|
  {
    InSome(c, SetItems(pat, SetStart(pat, p), ec)) != (Peek(pat, p + 1) == '^')
  }

  lemma InSomeSplits(c: char, item: SetItem, items: seq<SetItem>)
    ensures InSome(c, [item] + items) <==> InItem(c, item) || InSome(c, items)
  {
    var all := [item] + items;
    if InItem(c, item) { assert InItem(c, all[0]); }
    if i :| 0 <= i < |items| && InItem(c, items[i]) { assert InItem(c, all[i + 1]); }
    if i :| 0 <= i < |all| && InItem(c, all[i]) { assert i > 0 ==> all[i] == items[i - 1]; }
  }

  lemma NoneInEmpty(c: char)
    ensures !InSome(c, [])
  {
  }

  // `matchbracketclass`
  method MatchBracketClass(c: char, pat: string, p0: nat, ec: nat) returns (b: bool)
    requires p0 < ec <= |pat|
    ensures b == InSet(c, pat, p0, ec)
  {
    hide MatchClass, ClassTest, InSome;
    var sig := true;
    var p := p0;
    if Peek(pat, p + 1) == '^' {
      sig := false;
      p := p + 1;
    }
    p := p + 1;
    while p < ec
      invariant InSome(c, SetItems(pat, SetStart(pat, p0), ec)) == InSome(c, SetItems(pat, p, ec))
      decreases ec - p
    {
      if pat[p] == ESC {
        InSomeSplits(c, Class(Peek(pat, p + 1)), SetItems(pat, p + 2, ec));
        p := p + 1;
        if MatchClass(c, Peek(pat, p)) { return sig; }
      } else if Peek(pat, p + 1) == '-' && p + 2 < ec {
        InSomeSplits(c, Range(pat[p], pat[p + 2]), SetItems(pat, p + 3, ec));
        p := p + 2;
        if pat[p - 2] <= c <= pat[p] { return sig; }
      } else {
        InSomeSplits(c, Range(pat[p], pat[p]), SetItems(pat, p + 1, ec));
        if pat[p] == c { return sig; }
      }
      p := p + 1;
    }
    NoneInEmpty(c);
    return !sig;
  }

  // `singlematch`: the item at `p`, which ends at `ep`, matches the character.
  predicate Single(c: char, pat: string, p: nat, ep: nat)
    requires p < ep <= |pat|
  {
    if pat[p] == '.' then true
    else if pat[p] == ESC then MatchClass(c, Peek(pat, p + 1))
    else if pat[p] == '[' then InSet(c, pat, p, ep - 1)
    else pat[p] == c
  }

  method SingleMatch(c: char, pat: string, p: nat, ep: nat) returns (b: bool)
    requires p < ep <= |pat| && (pat[p] == '[' ==> p + 1 < ep)
    ensures b == Single(c, pat, p, ep)
  {
    if pat[p] == '.' { return true; }
    if pat[p] == ESC { return MatchClass(c, Peek(pat, p + 1)); }
    if pat[p] == '[' {
      b := MatchBracketClass(c, pat, p, ep - 1);
      return;
    }
    return pat[p] == c;
  }

  // ----- balanced strings -----

  // The openings still to be closed in the text from `s`, where the first one is, to `i`
  function Unclosed(src: string, s: nat, i: nat, b: char, e: char): int
    requires s < i <= |src|
    decreases i
  {
    if i == s + 1 then 1
    else
      var d := Unclosed(src, s, i - 1, b, e);
      if src[i - 1] == e then d - 1 else if src[i - 1] == b then d + 1 else d
  }

  // A balanced text from `s` to `r`: it opens, and all is closed for the first time at its end.
  // When the two characters are one, the second one closes.
  ghost predicate Balanced(src: string, s: nat, r: nat, b: char, e: char) {
    && s < r <= |src| && src[s] == b
    && Unclosed(src, s, r, b, e) == 0
    && forall i :: s < i < r ==> Unclosed(src, s, i, b, e) > 0
  }

  // `matchbalance`, after its test for a malformed pattern
  method MatchBalance(src: string, s0: nat, b: char, e: char) returns (r: Option<nat>)
    requires s0 <= |src| && b != NUL
    ensures r.Some? ==> Balanced(src, s0, r.value, b, e)
    ensures r.None? ==> forall x :: !Balanced(src, s0, x, b, e)
  {
    if Peek(src, s0) != b { return None; }
    var cont := 1;
    var s := s0 + 1;
    while s < |src|
      invariant s0 < s <= |src| && cont > 0 && cont == Unclosed(src, s0, s, b, e)
      invariant forall i :: s0 < i <= s ==> Unclosed(src, s0, i, b, e) > 0
    {
      if src[s] == e {
        cont := cont - 1;
        if cont == 0 { return Some(s + 1); }
      } else if src[s] == b {
        cont := cont + 1;
      }
      s := s + 1;
    }
    return None;
  }

  lemma BalancedOnce(src: string, s: nat, r: nat, r': nat, b: char, e: char)
    requires Balanced(src, s, r, b, e) && Balanced(src, s, r', b, e)
    ensures r == r'
  {
  }
}
