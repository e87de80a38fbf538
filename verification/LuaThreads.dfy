/**
 Patch lists as they are kept: threaded through the offsets of the waiting jumps.
 */
module LuaThreads {
  import opened LuaVm
  import opened LuaCodegen
  import opened LuaLists

  // `getjump`
  function Link(code: seq<Instr>, j: int): int
    requires 0 <= j < |code| && code[j].JMP?
  {
    if code[j].sbx == NO_JUMP then NO_JUMP else j + 1 + code[j].sbx
  }

  // The list that starts at `head` has the jumps `js`.
  ghost predicate Threads(code: seq<Instr>, head: int, js: seq<int>)
    decreases |js|
  {
    if js == [] then head == NO_JUMP
    else
      head == js[0] && 0 <= head < |code| && code[head].JMP? && Threads(code, Link(code, head), js[1..])
  }

  // The code as it is, and the code with all waiting jumps left open.
  ghost predicate Same(code: seq<Instr>, open: seq<Instr>) {
    |code| == |open| &&
    forall i :: 0 <= i < |code| ==> code[i] == open[i] || (open[i] == JMP(NO_JUMP) && code[i].JMP?)
  }

  lemma {:induction false} ThreadsFramed(code: seq<Instr>, code': seq<Instr>, head: int, js: seq<int>)
    requires Threads(code, head, js)
    requires forall j :: j in js && 0 <= j < |code| ==> j < |code'| && code'[j] == code[j]
    ensures Threads(code', head, js)
    decreases |js|
  {
    if js != [] {
      assert js[0] in js;
      forall j | j in js[1..] && 0 <= j < |code| ensures j < |code'| && code'[j] == code[j] { assert j in js; }
      ThreadsFramed(code, code', Link(code, head), js[1..]);
    }
  }

  // A list continues with another one where it ended.
  lemma {:induction false} ThreadsJoined(code: seq<Instr>, code': seq<Instr>, head: int, a: seq<int>, l: int,
      b: seq<int>)
    requires a != [] && Once(a) && Threads(code, head, a) && Threads(code', l, b) && b != []
    requires |code'| == |code| && 0 <= a[|a| - 1] < |code| && code' == code[a[|a| - 1] := JMP(l - (a[|a| - 1] + 1))]
    requires l != a[|a| - 1]
    ensures Threads(code', head, a + b)
    decreases |a|
  {
    var last := a[|a| - 1];
    if |a| == 1 {
      assert (a + b)[1..] == b && (a + b)[0] == last;
      assert Link(code', head) == l;
    } else {
      assert head != last && code'[head] == code[head];
      assert Once(a[1..]) by { forall x, y | 0 <= x < y < |a| - 1 ensures a[1..][x] != a[1..][y] {} }
      ThreadsJoined(code, code', Link(code, head), a[1..], l, b);
      assert (a + b)[1..] == a[1..] + b;
    }
  }

  // An expression as the generator holds it: the heads of its lists
  datatype ExpDesc = ExpDesc(k: Kind, t: int, f: int)

  ghost predicate Shows(code: seq<Instr>, e: ExpDesc, d: Desc) {
    && e.k == d.k && Threads(code, e.t, d.t) && Threads(code, e.f, d.f)
    && (e.k.VJmp? ==> Threads(code, e.k.pc, [e.k.pc]))
  }

  // The links of open jumps that are not those of `d` are as before.
  ghost predicate Links(code: seq<Instr>, fs: Fs, d: Desc, code': seq<Instr>) {
    forall j :: Open(fs.code, j) && !Mine(fs, d, j) && j < |code| ==> j < |code'| && code'[j] == code[j]
  }

  lemma LinksOn(code: seq<Instr>, fs: Fs, d: Desc, code1: seq<Instr>, fs1: Fs, d1: Desc, code2: seq<Instr>)
    requires Links(code, fs, d, code1) && Leaves(fs, d, fs1, d1) && Links(code1, fs1, d1, code2)
    ensures Links(code, fs, d, code2)
  {
  }

  // A list that is not part of an expression stays threaded.
  lemma OthersThread(code: seq<Instr>, fs: Fs, d: Desc, code': seq<Instr>, head: int, js: seq<int>)
    requires Links(code, fs, d, code') && Threads(code, head, js) && |fs.code| == |code|
    requires forall j :: j in js ==> Open(fs.code, j) && !Mine(fs, d, j)
    ensures Threads(code', head, js)
  {
    ThreadsFramed(code, code', head, js);
  }

  // The links of open jumps that are not jumps to here are as before.
  ghost predicate LinksHere(code: seq<Instr>, fs: Fs, code': seq<Instr>) {
    forall j :: Open(fs.code, j) && j !in fs.jpc && j < |code| ==> j < |code'| && code'[j] == code[j]
  }

  lemma ShownStill(code: seq<Instr>, fs: Fs, code': seq<Instr>, e: ExpDesc, d: Desc)
    requires Shows(code, e, d) && Tidy(fs, d) && |fs.code| == |code| && LinksHere(code, fs, code')
    ensures Shows(code', e, d)
  {
    ThreadsFramed(code, code', e.t, d.t);
    ThreadsFramed(code, code', e.f, d.f);
    if e.k.VJmp? { ThreadsFramed(code, code', e.k.pc, [e.k.pc]); }
  }

  lemma HereLinks(code: seq<Instr>, fs: Fs, d: Desc, code': seq<Instr>)
    requires LinksHere(code, fs, code')
    ensures Links(code, fs, d, code')
  {
  }

  // Concrete code stays the same as the open code where the open code keeps its jumps open.
  lemma SameOpen(code: seq<Instr>, open: seq<Instr>, j: int)
    requires Same(code, open) && Open(open, j)
    ensures 0 <= j < |code| && code[j].JMP?
  {
  }
}
