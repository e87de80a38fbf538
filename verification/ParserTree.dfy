/**
 The tree that `subexpr` builds from the priorities of the operators, see lparser.c.
 */
module ParserTree {
  import opened Wrappers

  datatype UnOp = Not | Minus | Len

  datatype BinOp = Add | Sub | Mul | Div | Mod | Pow | Concat | Ne | Eq | Lt | Le | Gt | Ge | And | Or

  // `-` is a sign or an operator, by its place. An atom stands for the other simple expressions.
  datatype Token = TDash | TUn(u: UnOp) | TBin(b: BinOp) | TAtom(id: int) | TOpen | TClose | TEnd

  // A tree keeps its parentheses.
  datatype Tree = Atom(id: int) | Paren(t: Tree) | Unary(u: UnOp, t: Tree) | Binary(b: BinOp, l: Tree, r: Tree)

  // ----- the tables -----

  function LeftPriority(b: BinOp): nat {
    match b
    case Add => 6 case Sub => 6 case Mul => 7 case Div => 7 case Mod => 7
    case Pow => 10 case Concat => 5
    case Ne => 3 case Eq => 3 case Lt => 3 case Le => 3 case Gt => 3 case Ge => 3
    case And => 2 case Or => 1
  }

  function RightPriority(b: BinOp): nat {
    match b
    case Pow => 9 case Concat => 4
    case _ => LeftPriority(b)
  }

  const UNARY_PRIORITY := 8

  // `getunopr`
  function UnOpOf(t: Token): Option<UnOp> {
    match t
    case TDash => Some(Minus)
    case TUn(u) => Some(u)
    case _ => None
  }

  // `getbinopr`
  function BinOpOf(t: Token): Option<BinOp> {
    match t
    case TDash => Some(Sub)
    case TBin(b) => Some(b)
    case _ => None
  }

  function UnToken(u: UnOp): Token {
    if u.Minus? then TDash else TUn(u)
  }

  function BinToken(b: BinOp): Token {
    if b.Sub? then TDash else TBin(b)
  }

  // The current token; there is no end of the tokens.
  function Head(ts: seq<Token>): Token {
    if ts == [] then TEnd else ts[0]
  }

  function Tail(ts: seq<Token>): seq<Token> {
    if ts == [] then [] else ts[1..]
  }

  // Tokens as the scanner makes them
  predicate Scanned(ts: seq<Token>) {
    forall i :: 0 <= i < |ts| ==> ts[i] != TUn(Minus) && ts[i] != TBin(Sub)
  }

  // ----- the parser -----

  datatype Parsed = Syntax | Tree(t: Tree, rest: seq<Token>)

  // `subexpr`
  function Expression(ts: seq<Token>, limit: nat): (p: Parsed)
    ensures p.Tree? ==> |p.rest| < |ts|
    decreases |ts|, 2
  {
    var first := First(ts);
    if first.Tree? then Operators(first.t, first.rest, limit) else Syntax
  }

  // The operand that begins an expression: a unary operator with its operand, or `simpleexp`
  function First(ts: seq<Token>): (p: Parsed)
    ensures p.Tree? ==> |p.rest| < |ts|
    decreases |ts|, 1
  {
    if ts == [] then Syntax
    else if UnOpOf(ts[0]).Some? then
      var p := Expression(ts[1..], UNARY_PRIORITY);
      if p.Tree? then Tree(Unary(UnOpOf(ts[0]).value, p.t), p.rest) else Syntax
    else
      match ts[0]
      case TAtom(id) => Tree(Atom(id), ts[1..])
      case TOpen =>
        var p := Expression(ts[1..], 0);
        if p.Tree? && Head(p.rest) == TClose then Tree(Paren(p.t), Tail(p.rest)) else Syntax
      case _ => Syntax
  }

  // The loop of `subexpr`: operators that bind tighter than `limit`
  function Operators(v: Tree, ts: seq<Token>, limit: nat): (p: Parsed)
    ensures p.Tree? ==> |p.rest| <= |ts|
    decreases |ts|, 0
  {
    var op := BinOpOf(Head(ts));
    if op.Some? && LeftPriority(op.value) > limit then
      var p := Expression(ts[1..], RightPriority(op.value));
      if p.Tree? then Operators(Binary(op.value, v, p.t), p.rest, limit) else Syntax
    else Tree(v, ts)
  }

  // ----- the trees the priorities allow -----

  function Yield(t: Tree): seq<Token> {
    match t
    case Atom(id) => [TAtom(id)]
    case Paren(t') => [TOpen] + Yield(t') + [TClose]
    case Unary(u, t') => [UnToken(u)] + Yield(t')
    case Binary(b, l, r) => Yield(l) + [BinToken(b)] + Yield(r)
  }

  // Every operator on the left spine binds tighter than `limit`.
  predicate LeftAbove(t: Tree, limit: nat) {
    match t
    case Binary(b, l, _) => LeftPriority(b) > limit && LeftAbove(l, limit)
    case _ => true
  }

  // No operator on the right spine would take in an operator with the left priority `left`.
  predicate RightHolds(t: Tree, left: nat) {
    match t
    case Binary(b, _, r) => RightPriority(b) >= left && RightHolds(r, left)
    case Unary(_, t') => UNARY_PRIORITY >= left && RightHolds(t', left)
    case _ => true
  }

  // The tree is the one that the priorities of its operators ask for.
  predicate Allowed(t: Tree) {
    match t
    case Atom(_) => true
    case Paren(t') => Allowed(t')
    case Unary(_, t') => Allowed(t') && LeftAbove(t', UNARY_PRIORITY)
    case Binary(b, l, r) =>
      Allowed(l) && Allowed(r) && RightHolds(l, LeftPriority(b)) && LeftAbove(r, RightPriority(b))
  }

  // What follows does not belong to the tree.
  predicate Ends(t: Tree, rest: seq<Token>) {
    BinOpOf(Head(rest)).Some? ==> RightHolds(t, LeftPriority(BinOpOf(Head(rest)).value))
  }

  // ----- an allowed tree is read back -----

  lemma {:induction false} AnyLeft(t: Tree)
    ensures LeftAbove(t, 0)
  {
    if t.Binary? { AnyLeft(t.l); }
  }

  lemma {:induction false} YieldParses(t: Tree, rest: seq<Token>, limit: nat)
    requires Allowed(t) && LeftAbove(t, limit) && Ends(t, rest)
    ensures Expression(Yield(t) + rest, limit) == Operators(t, rest, limit)
    decreases t
  {
    match t
    case Atom(_) =>
      assert (Yield(t) + rest)[1..] == rest;
    case Paren(t') =>
      AnyLeft(t');
      YieldParses(t', [TClose] + rest, 0);
      ParenParses(t', rest, limit);
    case Unary(u, t') =>
      YieldParses(t', rest, UNARY_PRIORITY);
      UnaryParses(u, t', rest, limit);
    case Binary(b, l, r) =>
      YieldParses(l, [BinToken(b)] + (Yield(r) + rest), limit);
      YieldParses(r, rest, RightPriority(b));
      BinaryParses(b, l, r, rest, limit);
  }

  lemma ParenParses(t: Tree, rest: seq<Token>, limit: nat)
    requires Expression(Yield(t) + ([TClose] + rest), 0) == Operators(t, [TClose] + rest, 0)
    ensures Expression(Yield(Paren(t)) + rest, limit) == Operators(Paren(t), rest, limit)
  {
    var ts := Yield(Paren(t)) + rest;
    assert ts[1..] == Yield(t) + ([TClose] + rest);
    assert Tail([TClose] + rest) == rest;
    assert First(ts) == Tree(Paren(t), rest);
  }

  lemma UnaryParses(u: UnOp, t: Tree, rest: seq<Token>, limit: nat)
    requires Expression(Yield(t) + rest, UNARY_PRIORITY) == Operators(t, rest, UNARY_PRIORITY)
    requires Ends(Unary(u, t), rest)
    ensures Expression(Yield(Unary(u, t)) + rest, limit) == Operators(Unary(u, t), rest, limit)
  {
    var ts := Yield(Unary(u, t)) + rest;
    assert ts[1..] == Yield(t) + rest;
    assert First(ts) == Tree(Unary(u, t), rest);
  }

  lemma BinaryParses(b: BinOp, l: Tree, r: Tree, rest: seq<Token>, limit: nat)
    requires LeftPriority(b) > limit && Ends(Binary(b, l, r), rest)
    requires var after := [BinToken(b)] + (Yield(r) + rest);
      Expression(Yield(l) + after, limit) == Operators(l, after, limit)
    requires Expression(Yield(r) + rest, RightPriority(b)) == Operators(r, rest, RightPriority(b))
    ensures Expression(Yield(Binary(b, l, r)) + rest, limit) == Operators(Binary(b, l, r), rest, limit)
  {
    hide Expression, Yield;
    var after := [BinToken(b)] + (Yield(r) + rest);
    YieldBinary(b, l, r);
    assert Yield(Binary(b, l, r)) + rest == Yield(l) + after;
    assert after[1..] == Yield(r) + rest;
  }

  lemma YieldBinary(b: BinOp, l: Tree, r: Tree)
    ensures Yield(Binary(b, l, r)) == Yield(l) + [BinToken(b)] + Yield(r)
  {
  }

  // Reading an allowed tree back from its tokens gives the tree.
  lemma ParseYield(t: Tree)
    requires Allowed(t)
    ensures Expression(Yield(t), 0) == Tree(t, [])
  {
    AnyLeft(t);
    YieldParses(t, [], 0);
    assert Yield(t) + [] == Yield(t);
  }

  // ----- what is read is an allowed tree -----

  lemma {:induction false} SubexprAllowed(ts: seq<Token>, limit: nat)
    requires Scanned(ts) && Expression(ts, limit).Tree?
    ensures var p := Expression(ts, limit);
      && ts == Yield(p.t) + p.rest && Scanned(p.rest) && Allowed(p.t) && LeftAbove(p.t, limit) && Ends(p.t, p.rest)
      && (BinOpOf(Head(p.rest)).Some? ==> LeftPriority(BinOpOf(Head(p.rest)).value) <= limit)
    decreases |ts|, 2
  {
    FirstAllowed(ts);
    var first := First(ts);
    OperatorsAllowed(first.t, first.rest, limit);
  }

  lemma {:induction false} FirstAllowed(ts: seq<Token>)
    requires Scanned(ts) && First(ts).Tree?
    ensures var p := First(ts);
      && ts == Yield(p.t) + p.rest && Scanned(p.rest) && Allowed(p.t) && !p.t.Binary?
      && Ends(p.t, p.rest)
    decreases |ts|, 1
  {
    hide Expression, Allowed, LeftAbove, Ends, Yield;
    if UnOpOf(ts[0]).Some? {
      SubexprAllowed(ts[1..], UNARY_PRIORITY);
      var p := Expression(ts[1..], UNARY_PRIORITY);
      UnaryAllowed(UnOpOf(ts[0]).value, ts, p.t, p.rest);
    } else if ts[0] == TOpen {
      SubexprAllowed(ts[1..], 0);
      var p := Expression(ts[1..], 0);
      ParenAllowed(ts, p.t, p.rest);
    } else {
      AtomAllowed(ts);
    }
  }

  lemma AtomAllowed(ts: seq<Token>)
    requires Scanned(ts) && ts != [] && ts[0].TAtom?
    ensures var t := Atom(ts[0].id); ts == Yield(t) + ts[1..] && Scanned(ts[1..]) && Allowed(t) && Ends(t, ts[1..])
  {
  }

  lemma UnaryAllowed(u: UnOp, ts: seq<Token>, t: Tree, rest: seq<Token>)
    requires ts != [] && Scanned(ts) && UnOpOf(ts[0]) == Some(u) && ts[1..] == Yield(t) + rest
    requires Allowed(t) && LeftAbove(t, UNARY_PRIORITY) && Ends(t, rest)
    requires BinOpOf(Head(rest)).Some? ==> LeftPriority(BinOpOf(Head(rest)).value) <= UNARY_PRIORITY
    ensures ts == Yield(Unary(u, t)) + rest && Allowed(Unary(u, t)) && Ends(Unary(u, t), rest)
  {
    assert ts == [ts[0]] + ts[1..] && ts[0] == UnToken(u);
    hide LeftPriority, LeftAbove;
  }

  lemma ParenAllowed(ts: seq<Token>, t: Tree, rest: seq<Token>)
    requires ts != [] && Scanned(ts) && ts[0] == TOpen && ts[1..] == Yield(t) + rest && Scanned(rest)
    requires Allowed(t) && Head(rest) == TClose
    ensures ts == Yield(Paren(t)) + Tail(rest) && Scanned(Tail(rest)) && Allowed(Paren(t)) && Ends(Paren(t), Tail(rest))
  {
    assert ts == [ts[0]] + ts[1..] && rest == [TClose] + Tail(rest);
    hide LeftPriority, LeftAbove, Allowed;
    assert ts == [TOpen] + Yield(t) + [TClose] + Tail(rest);
    PlainParen(t, Tail(rest));
  }

  lemma PlainParen(t: Tree, rest: seq<Token>)
    requires Allowed(t)
    ensures Allowed(Paren(t)) && Ends(Paren(t), rest)
  {
  }

  lemma {:induction false} OperatorsAllowed(v: Tree, ts: seq<Token>, limit: nat)
    requires Scanned(ts) && Operators(v, ts, limit).Tree? && Allowed(v) && LeftAbove(v, limit) && Ends(v, ts)
    ensures var p := Operators(v, ts, limit);
      && Yield(v) + ts == Yield(p.t) + p.rest && Scanned(p.rest) && Allowed(p.t) && LeftAbove(p.t, limit) &&
        Ends(p.t, p.rest)
      && (BinOpOf(Head(p.rest)).Some? ==> LeftPriority(BinOpOf(Head(p.rest)).value) <= limit)
    decreases |ts|, 0
  {
    hide Yield, Allowed, LeftAbove, Ends, Expression, LeftPriority, RightPriority;
    var op := BinOpOf(Head(ts));
    if op.Some? && LeftPriority(op.value) > limit {
      var right := RightPriority(op.value);
      SubexprAllowed(ts[1..], right);
      var p := Expression(ts[1..], right);
      OneOperator(op.value, v, ts, p.t, p.rest);
      OperatorAllowed(op.value, v, ts, p.t, p.rest, limit);
      OperatorsAllowed(Binary(op.value, v, p.t), p.rest, limit);
    }
  }

  lemma OneOperator(b: BinOp, v: Tree, ts: seq<Token>, r: Tree, rest: seq<Token>)
    requires Scanned(ts) && BinOpOf(Head(ts)) == Some(b) && ts[1..] == Yield(r) + rest
    ensures Yield(v) + ts == Yield(Binary(b, v, r)) + rest
  {
    assert ts == [BinToken(b)] + (Yield(r) + rest);
    assert Yield(v) + ([BinToken(b)] + (Yield(r) + rest)) == Yield(v) + [BinToken(b)] + Yield(r) + rest;
  }

  lemma OperatorAllowed(b: BinOp, v: Tree, ts: seq<Token>, r: Tree, rest: seq<Token>, limit: nat)
    requires BinOpOf(Head(ts)) == Some(b) && LeftPriority(b) > limit
    requires Allowed(v) && LeftAbove(v, limit) && Ends(v, ts) && Allowed(r) && LeftAbove(r, RightPriority(b)) &&
      Ends(r, rest)
    requires BinOpOf(Head(rest)).Some? ==> LeftPriority(BinOpOf(Head(rest)).value) <= RightPriority(b)
    ensures var t := Binary(b, v, r); Allowed(t) && LeftAbove(t, limit) && Ends(t, rest)
  {
  }

  lemma {:induction false} YieldScanned(t: Tree)
    ensures Scanned(Yield(t))
  {
    match t
    case Atom(_) =>
    case Paren(t') => YieldScanned(t');
    case Unary(_, t') => YieldScanned(t');
    case Binary(_, l, r) => YieldScanned(l); YieldScanned(r);
  }

  // ----- the results -----

  // The parser accepts the tokens of the allowed trees, and builds exactly these.
  lemma ParsesExactly(ts: seq<Token>, t: Tree)
    requires Scanned(ts)
    ensures Expression(ts, 0) == Tree(t, []) <==> Allowed(t) && Yield(t) == ts
  {
    if Expression(ts, 0) == Tree(t, []) {
      SubexprAllowed(ts, 0);
      assert Yield(t) + [] == Yield(t);
    }
    if Allowed(t) && Yield(t) == ts { ParseYield(t); }
  }

  // No tokens have two trees.
  lemma OneTree(t1: Tree, t2: Tree)
    requires Allowed(t1) && Allowed(t2) && Yield(t1) == Yield(t2)
    ensures t1 == t2
  {
    ParseYield(t1);
    ParseYield(t2);
  }

  predicate Bare(t: Tree) {
    match t
    case Atom(_) => true
    case Paren(_) => false
    case Unary(_, t') => Bare(t')
    case Binary(_, l, r) => Bare(l) && Bare(r)
  }

  function Strip(t: Tree): Tree {
    match t
    case Atom(_) => t
    case Paren(t') => Strip(t')
    case Unary(u, t') => Unary(u, Strip(t'))
    case Binary(b, l, r) => Binary(b, Strip(l), Strip(r))
  }

  // Parentheses where the priorities would read something else without them
  function Parenthesized(t: Tree): Tree {
    match t
    case Atom(_) => t
    case Paren(t') => Parenthesized(t')
    case Unary(u, t') =>
      var p := Parenthesized(t');
      Unary(u, if LeftAbove(p, UNARY_PRIORITY) then p else Paren(p))
    case Binary(b, l, r) =>
      var pl, pr := Parenthesized(l), Parenthesized(r);
      Binary(b, if RightHolds(pl, LeftPriority(b)) then pl else Paren(pl), if LeftAbove(pr, RightPriority(b)) then pr
        else Paren(pr))
  }

  lemma {:induction false} ParenthesizedAllowed(t: Tree)
    ensures Allowed(Parenthesized(t)) && Strip(Parenthesized(t)) == Strip(t)
  {
    match t
    case Atom(_) =>
    case Paren(t') => ParenthesizedAllowed(t');
    case Unary(_, t') => ParenthesizedAllowed(t');
    case Binary(_, l, r) => ParenthesizedAllowed(l); ParenthesizedAllowed(r);
  }

  lemma {:induction false} StripBare(t: Tree)
    requires Bare(t)
    ensures Strip(t) == t
  {
    match t
    case Atom(_) =>
    case Unary(_, t') => StripBare(t');
    case Binary(_, l, r) => StripBare(l); StripBare(r);
  }

  // The operator at the root decides for its whole left spine.
  lemma {:induction false} RootDecidesLeft(t: Tree, limit: nat)
    requires Allowed(t)
    ensures LeftAbove(t, limit) <==> (t.Binary? ==> LeftPriority(t.b) > limit)
  {
    if t.Binary? { RootDecidesLeft(t.l, limit); }
  }

  predicate RootHolds(t: Tree, left: nat) {
    match t
    case Binary(b, _, _) => RightPriority(b) >= left
    case Unary(_, _) => UNARY_PRIORITY >= left
    case _ => true
  }

  // And for its whole right spine
  lemma {:induction false} RootDecidesRight(t: Tree, b: BinOp)
    requires Allowed(t)
    ensures RightHolds(t, LeftPriority(b)) <==> RootHolds(t, LeftPriority(b))
  {
    match t
    case Binary(_, _, r) => RootDecidesRight(r, b);
    case Unary(_, t') => RootDecidesRight(t', b);
    case _ =>
  }

  // The same operator stands at the root.
  predicate SameRoot(t: Tree, t': Tree) {
    match t
    case Atom(_) => t'.Atom?
    case Paren(_) => false
    case Unary(_, _) => t'.Unary?
    case Binary(b, _, _) => t'.Binary? && t'.b == b
  }

  lemma RootStays(t: Tree)
    requires !t.Paren?
    ensures SameRoot(t, Parenthesized(Strip(t)))
  {
  }

  // Every tree the parser builds for the same expression has as many tokens at least, and two
  // more if it is in parentheses itself.
  lemma {:induction false} Fewest(t: Tree)
    requires Allowed(t)
    ensures |Yield(Parenthesized(Strip(t)))| + (if t.Paren? then 2 else 0) <= |Yield(t)|
  {
    match t
    case Atom(_) =>
    case Paren(t') => Fewest(t');
    case Unary(_, t') =>
      Fewest(t');
      var p := Parenthesized(Strip(t'));
      ParenthesizedAllowed(Strip(t'));
      RootDecidesLeft(p, UNARY_PRIORITY);
      if !t'.Paren? { RootStays(t'); }
    case Binary(b, l, r) =>
      Fewest(l);
      Fewest(r);
      BinaryFewest(b, l, r);
  }

  lemma BinaryFewest(b: BinOp, l: Tree, r: Tree)
    requires Allowed(Binary(b, l, r))
    requires |Yield(Parenthesized(Strip(l)))| + (if l.Paren? then 2 else 0) <= |Yield(l)|
    requires |Yield(Parenthesized(Strip(r)))| + (if r.Paren? then 2 else 0) <= |Yield(r)|
    ensures |Yield(Parenthesized(Strip(Binary(b, l, r))))| <= |Yield(Binary(b, l, r))|
  {
    var pl, pr := Parenthesized(Strip(l)), Parenthesized(Strip(r));
    ParenthesizedAllowed(Strip(l));
    ParenthesizedAllowed(Strip(r));
    RootDecidesRight(pl, b);
    RootDecidesRight(l, b);
    RootDecidesLeft(pr, RightPriority(b));
    if !l.Paren? { RootStays(l); }
    if !r.Paren? { RootStays(r); }
    hide LeftPriority, RightPriority, LeftAbove, RightHolds;
  }

  // No way to write the expression so that it is read back has fewer parentheses.
  lemma FewestParentheses(t: Tree, t': Tree)
    requires Allowed(t') && Strip(t') == t
    ensures |Yield(Parenthesized(t))| <= |Yield(t')|
  {
    Fewest(t');
  }

  // Printing with the fewest parentheses and reading back gives the expression.
  lemma PrintAndParse(t: Tree)
    requires Bare(t)
    ensures var p := Expression(Yield(Parenthesized(t)), 0); p.Tree? && p.rest == [] && Strip(p.t) == t
  {
    ParenthesizedAllowed(t);
    StripBare(t);
    ParseYield(Parenthesized(t));
  }

  // ----- the parser as it is -----

  class LexState {
    const ts: seq<Token>
    var pos: nat

    constructor (tokens: seq<Token>)
      ensures ts == tokens && pos == 0
    {
      ts, pos := tokens, 0;
    }

    ghost predicate Valid()
      reads this
    {
      pos <= |ts|
    }

    ghost function Rest(): seq<Token>
      requires Valid()
      reads this
    {
      ts[pos..]
    }

    method Token() returns (t: Token)
      requires Valid()
      ensures t == Head(Rest())
    {
      t := if pos < |ts| then ts[pos] else TEnd;
    }

    // `luaX_next`
    method Next()
      requires Valid()
      modifies this
      ensures Valid() && Rest() == Tail(old(Rest()))
    {
      if pos < |ts| { pos := pos + 1; }
    }

    // `simpleexp`; none is a syntax error.
    method SimpleExp() returns (v: Option<Tree>)
      requires Valid() && UnOpOf(Head(Rest())).None?
      modifies this
      ensures Valid() && match First(old(Rest())) case Syntax => v.None?
        case Tree(t, rest) => v == Some(t) && Rest() == rest
      decreases |Rest()|, 1
    {
      var t := Token();
      if t.TAtom? {
        Next();
        return Some(Atom(t.id));
      }
      if t != TOpen { return None; }
      Next();
      v := Subexpr(0);
      if v.None? { return; }
      t := Token();
      if t != TClose { return None; }
      Next();
      v := Some(Paren(v.value));
    }

    // `subexpr`
    method Subexpr(limit: nat) returns (v: Option<Tree>)
      requires Valid()
      modifies this
      ensures Valid() && match Expression(old(Rest()), limit) case Syntax => v.None?
        case Tree(t, rest) => v == Some(t) && Rest() == rest
      decreases |Rest()|, 2
    {
      ghost var ts0 := Rest();
      var t := Token();
      var uop := UnOpOf(t);
      if uop.Some? {
        Next();
        v := Subexpr(UNARY_PRIORITY);
        if v.None? { return; }
        v := Some(Unary(uop.value, v.value));
      } else {
        v := SimpleExp();
        if v.None? { return; }
      }
      t := Token();
      var op := BinOpOf(t);
      while op.Some? && LeftPriority(op.value) > limit
        invariant Valid() && |Rest()| < |ts0| && v.Some? && op == BinOpOf(Head(Rest()))
        invariant Expression(ts0, limit) == Operators(v.value, Rest(), limit)
        decreases |Rest()|
      {
        Next();
        var v2 := Subexpr(RightPriority(op.value));
        if v2.None? { return None; }
        v := Some(Binary(op.value, v.value, v2.value));
        t := Token();
        op := BinOpOf(t);
      }
    }
  }
}
