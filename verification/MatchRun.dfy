/**
 The matcher as a function that backtracks, and the relation it decides.
 */
module MatchRun {
  import opened MatchPattern

  const MAXCAPTURES := 32
  const UNFINISHED := -1
  const POSITION := -2

  datatype Capture = Capture(init: nat, len: int)

  datatype Ctx = Ctx(src: string, pat: string)

  datatype Outcome = Fail | Success(e: nat, caps: seq<Capture>) | Error

  // ----- the items of a pattern -----

  datatype Suffix = One | Optional | Star | Plus | Minus

  datatype Item =
    | End
    | Malformed
    | OpenPosition
    | Open
    | Close
    | BalancedText(b: char, e: char)
    | Frontier(ep: nat)
    | BackReference(digit: char)
    | AtEnd
    | Chars(ep: nat, suffix: Suffix)

  function SuffixOf(c: char): Suffix {
    if c == '?' then Optional else if c == '*' then Star else if c == '+' then Plus else if c == '-' then Minus else One
  }

  function ItemAt(pat: string, p: nat): (item: Item)
    ensures item.Frontier? ==> p + 2 < item.ep <= |pat| && pat[p + 2] == '['
    ensures item.Chars? ==> p < item.ep <= |pat|
    ensures !item.End? && !item.Malformed? ==> p < |pat|
  {
    if Peek(pat, p) == NUL then End
    else if pat[p] == '(' then (if Peek(pat, p + 1) == ')' then OpenPosition else Open)
    else if pat[p] == ')' then Close
    else if pat[p] == ESC && Peek(pat, p + 1) == 'b' then
      if Peek(pat, p + 2) == NUL || Peek(pat, p + 3) == NUL then Malformed else BalancedText(pat[p + 2], pat[p + 3])
    else if pat[p] == ESC && Peek(pat, p + 1) == 'f' then
      if Peek(pat, p + 2) != '[' then Malformed
      else match ClassEnd(pat, p + 2) case None => Malformed case Some(ep) => Frontier(ep)
    else if pat[p] == ESC && IsDigit(Peek(pat, p + 1)) then BackReference(pat[p + 1])
    else if pat[p] == '$' && Peek(pat, p + 1) == NUL then AtEnd
    else match ClassEnd(pat, p) case None => Malformed case Some(ep) => Chars(ep, SuffixOf(Peek(pat, ep)))
  }

  // Where the pattern goes on behind an item
  function After(pat: string, p: nat): (q: nat)
    ensures var item := ItemAt(pat, p); !item.End? && !item.Malformed? && !item.AtEnd? ==> p < q <= |pat|
  {
    match ItemAt(pat, p)
    case OpenPosition => p + 2
    case BalancedText(_, _) => p + 4
    case Frontier(ep) => ep
    case BackReference(_) => p + 2
    case Chars(ep, suffix) => if suffix.One? then ep else ep + 1
    case _ => p + 1
  }

  // ----- captures -----

  ghost predicate CapsOk(caps: seq<Capture>, s: nat) {
    |caps| <= MAXCAPTURES &&
    forall i :: 0 <= i < |caps| ==>
      caps[i].init <= s &&
        (caps[i].len == UNFINISHED || caps[i].len == POSITION || (0 <= caps[i].len && caps[i].init + caps[i].len <= s))
  }

  // `capture_to_close`
  function ToClose(caps: seq<Capture>): (l: int)
    ensures -1 <= l < |caps| && (l >= 0 ==> caps[l].len == UNFINISHED)
    ensures forall i :: l < i < |caps| ==> caps[i].len != UNFINISHED
  {
    if caps == [] then -1
    else if caps[|caps| - 1].len == UNFINISHED then |caps| - 1
    else ToClose(caps[..|caps| - 1])
  }

  function Closed(caps: seq<Capture>, s: nat): seq<Capture>
    requires ToClose(caps) >= 0
  {
    var l := ToClose(caps);
    caps[l := caps[l].(len := s - caps[l].init)]
  }

  // `check_capture`
  function CaptureIndex(caps: seq<Capture>, digit: char): (l: int)
    ensures l == -1 || (0 <= l < |caps| && caps[l].len != UNFINISHED)
  {
    var l := digit as int - '1' as int;
    if l < 0 || l >= |caps| || caps[l].len == UNFINISHED then -1 else l
  }

  // `match_capture`: the text of the capture again
  predicate Again(x: Ctx, s: nat, cap: Capture) {
    && cap.len >= 0 && cap.init + cap.len <= |x.src| && s + cap.len <= |x.src|
    && x.src[s..s + cap.len] == x.src[cap.init..cap.init + cap.len]
  }

  // The frontier test for the set at `p`, which ends at `ep`
  predicate AtFrontier(x: Ctx, s: nat, p: nat, ep: nat)
    requires s <= |x.src| && p < ep <= |x.pat|
  {
    var previous := if s == 0 then NUL else x.src[s - 1];
    !InSet(previous, x.pat, p, ep - 1) && InSet(Peek(x.src, s), x.pat, p, ep - 1)
  }

  // ----- repetitions -----

  predicate OneMore(x: Ctx, s: nat, p: nat, ep: nat)
    requires p < ep <= |x.pat|
  {
    s < |x.src| && Single(x.src[s], x.pat, p, ep)
  }

  // How often the item can be repeated from `s` on
  function MaxRun(x: Ctx, s: nat, p: nat, ep: nat): (n: nat)
    requires s <= |x.src| && p < ep <= |x.pat|
    ensures s + n <= |x.src|
    ensures forall i :: s <= i < s + n ==> OneMore(x, i, p, ep)
    ensures !OneMore(x, s + n, p, ep)
    decreases |x.src| - s
  {
    if OneMore(x, s, p, ep) then 1 + MaxRun(x, s + 1, p, ep) else 0
  }

  // ----- the matcher -----

  // `match`
  ghost function Run(x: Ctx, s: nat, p: nat, caps: seq<Capture>): (o: Outcome)
    requires s <= |x.src| && CapsOk(caps, s)
    ensures o.Success? ==> s <= o.e <= |x.src| && CapsOk(o.caps, o.e)
    decreases |x.pat| - p, 1, 0
  {
    var q := After(x.pat, p);
    match ItemAt(x.pat, p)
    case End => Success(s, caps)
    case Malformed => Error
    case OpenPosition => if |caps| >= MAXCAPTURES then Error else Run(x, s, q, caps + [Capture(s, POSITION)])
    case Open => if |caps| >= MAXCAPTURES then Error else Run(x, s, q, caps + [Capture(s, UNFINISHED)])
    case Close => if ToClose(caps) < 0 then Error else Run(x, s, q, Closed(caps, s))
    case BalancedText(b, e) =>
      if r :| Balanced(x.src, s, r, b, e) then Run(x, r, q, caps) else Fail
    case Frontier(ep) => if AtFrontier(x, s, p + 2, ep) then Run(x, s, q, caps) else Fail
    case BackReference(digit) =>
      var l := CaptureIndex(caps, digit);
      if l < 0 then Error else if Again(x, s, caps[l]) then Run(x, s + caps[l].len, q, caps) else Fail
    case AtEnd => if s == |x.src| then Success(s, caps) else Fail
    case Chars(ep, suffix) =>
      match suffix
      case One => if OneMore(x, s, p, ep) then Run(x, s + 1, q, caps) else Fail
      case Optional =>
        if OneMore(x, s, p, ep) && !Run(x, s + 1, q, caps).Fail? then Run(x, s + 1, q, caps) else Run(x, s, q, caps)
      case Star => Longest(x, s, q, MaxRun(x, s, p, ep), caps)
      case Plus => if OneMore(x, s, p, ep) then Longest(x, s + 1, q, MaxRun(x, s + 1, p, ep), caps) else Fail
      case Minus => Shortest(x, s, q, MaxRun(x, s, p, ep), caps)
  }

  // `max_expand`, from `i` repetitions down
  ghost function Longest(x: Ctx, s: nat, q: nat, i: nat, caps: seq<Capture>): (o: Outcome)
    requires s + i <= |x.src| && CapsOk(caps, s)
    ensures o.Success? ==> s <= o.e <= |x.src| && CapsOk(o.caps, o.e)
    decreases |x.pat| - q, 2, i
  {
    var o := Run(x, s + i, q, caps);
    if o.Fail? && i > 0 then Longest(x, s, q, i - 1, caps) else o
  }

  // `min_expand`, with up to `i` repetitions more
  ghost function Shortest(x: Ctx, s: nat, q: nat, i: nat, caps: seq<Capture>): (o: Outcome)
    requires s + i <= |x.src| && CapsOk(caps, s)
    ensures o.Success? ==> s <= o.e <= |x.src| && CapsOk(o.caps, o.e)
    decreases |x.pat| - q, 2, i
  {
    var o := Run(x, s, q, caps);
    if o.Fail? && i > 0 then Shortest(x, s + 1, q, i - 1, caps) else o
  }
}
