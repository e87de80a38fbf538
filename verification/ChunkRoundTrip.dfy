/**
 What is dumped is read back.
 */
module ChunkRoundTrip {
  import opened ChunkFormat
  import opened Wrappers
  import opened Powers
  import opened Words

  // ----- values that fit their fields -----

  predicate FitsInt(x: nat) {
    x <= MAX_INT
  }

  predicate FitsLine(x: nat) {
    x < Pow256(SIZE_INT)
  }

  predicate FitsInstruction(x: nat) {
    x < Pow256(SIZE_INSTRUCTION)
  }

  predicate FitsString(s: Option<Bytes>) {
    s.Some? ==> |s.value| + 1 < Pow256(SIZE_SIZE)
  }

  predicate FitsConstant(c: Constant) {
    match c
    case KNumber(bits) => bits < Pow256(SIZE_NUMBER)
    case KString(s) => FitsString(s)
    case _ => true
  }

  predicate FitsLocVar(v: LocVar) {
    FitsString(v.varname) && FitsInt(v.startpc) && FitsInt(v.endpc)
  }

  ghost predicate FitsVector<T>(one: T -> bool, xs: seq<T>) {
    FitsInt(|xs|) && forall i :: 0 <= i < |xs| ==> one(xs[i])
  }

  ghost predicate FitsOwn(f: Proto) {
    && FitsString(f.source) && FitsInt(f.linedefined) && FitsInt(f.lastlinedefined)
    && FitsVector(FitsInstruction, f.code) && FitsVector(FitsConstant, f.k) && FitsInt(|f.p|)
    && FitsVector(FitsLine, f.lineinfo) && FitsVector(FitsLocVar, f.locvars) && FitsVector(FitsString, f.upvalues)
  }

  ghost predicate Fits(f: Proto)
    decreases f
  {
    FitsOwn(f) && forall i :: 0 <= i < |f.p| ==> Fits(f.p[i])
  }

  // ----- the parts -----

  lemma WordLoads(x: nat, w: nat, rest: Bytes)
    requires x < Pow256(w)
    ensures LoadWord(Word(x, w) + rest, w) == Ok(x, rest)
  {
    WordBack(x, w);
    assert (Word(x, w) + rest)[..w] == Word(x, w) && (Word(x, w) + rest)[w..] == rest;
  }

  lemma IntFits()
    ensures Pow256(4) == 0x1_0000_0000
  {
    assert Pow256(2) == 0x1_0000;
  }

  lemma IntLoads(x: nat, rest: Bytes)
    requires FitsInt(x)
    ensures LoadInt(DumpInt(x) + rest) == Ok(x, rest)
  {
    IntFits();
    WordLoads(x, SIZE_INT, rest);
  }

  lemma StringLoads(s: Option<Bytes>, rest: Bytes)
    requires FitsString(s)
    ensures LoadString(DumpString(s) + rest) == Ok(s, rest)
  {
    match s
    case None =>
      WordLoads(0, SIZE_SIZE, rest);
    case Some(t) =>
      WordLoads(|t| + 1, SIZE_SIZE, t + [0] + rest);
      assert DumpString(s) + rest == Word(|t| + 1, SIZE_SIZE) + (t + [0] + rest);
      assert (t + [0] + rest)[..|t| + 1] == t + [0] && (t + [0] + rest)[|t| + 1..] == rest;
      assert (t + [0])[..|t|] == t;
  }

  lemma CharLoads(b: Byte, rest: Bytes)
    ensures LoadChar([b] + rest) == Ok(b, rest)
  {
    assert ([b] + rest)[..1] == [b] && ([b] + rest)[1..] == rest;
  }

  lemma ConstantLoads(c: Constant, rest: Bytes)
    requires FitsConstant(c)
    ensures LoadConstant(DumpConstant(c) + rest) == Ok(c, rest)
  {
    hide LoadString, DumpString, LoadWord, Word, LoadChar, FitsString, Pow256;
    match c
    case KNil =>
      CharLoads(LUA_TNIL, rest);
    case KBool(b) =>
      assert DumpConstant(c) + rest == [LUA_TBOOLEAN] + ([b] + rest);
      CharLoads(LUA_TBOOLEAN, [b] + rest);
      CharLoads(b, rest);
    case KNumber(bits) =>
      assert DumpConstant(c) + rest == [LUA_TNUMBER] + (Word(bits, SIZE_NUMBER) + rest);
      CharLoads(LUA_TNUMBER, Word(bits, SIZE_NUMBER) + rest);
      WordLoads(bits, SIZE_NUMBER, rest);
    case KString(s) =>
      assert DumpConstant(c) + rest == [LUA_TSTRING] + (DumpString(s) + rest);
      CharLoads(LUA_TSTRING, DumpString(s) + rest);
      StringLoads(s, rest);
  }

  lemma LocVarLoads(v: LocVar, rest: Bytes)
    requires FitsLocVar(v)
    ensures LoadLocVar(DumpLocVar(v) + rest) == Ok(v, rest)
  {
    var r2 := DumpInt(v.endpc) + rest;
    var r1 := DumpInt(v.startpc) + r2;
    assert DumpLocVar(v) + rest == DumpString(v.varname) + r1;
    StringLoads(v.varname, r1);
    IntLoads(v.startpc, r2);
    IntLoads(v.endpc, rest);
  }

  // ----- vectors -----

  // One element is read back, whatever follows.
  ghost predicate Inverse<T(!new)>(dump: T -> Bytes, load: Bytes -> Loaded<T>, fits: T -> bool) {
    forall x, rest :: fits(x) ==> load(dump(x) + rest) == Ok(x, rest)
  }

  lemma {:induction false} ManyLoads<T(!new)>(dump: T -> Bytes, load: Bytes -> Loaded<T>, fits: T -> bool, xs: seq<T>,
      rest: Bytes)
    requires Inverse(dump, load, fits) && forall i :: 0 <= i < |xs| ==> fits(xs[i])
    ensures LoadMany(load, |xs|, DumpMany(dump, xs) + rest) == Ok(xs, rest)
  {
    if xs == [] {
      assert DumpMany(dump, xs) + rest == rest;
    } else {
      assert xs == [xs[0]] + xs[1..];
      var more := DumpMany(dump, xs[1..]) + rest;
      assert DumpMany(dump, xs) + rest == dump(xs[0]) + more;
      assert load(dump(xs[0]) + more) == Ok(xs[0], more);
      ManyLoads(dump, load, fits, xs[1..], rest);
    }
  }

  lemma VectorLoads<T(!new)>(dump: T -> Bytes, load: Bytes -> Loaded<T>, fits: T -> bool, xs: seq<T>, rest: Bytes)
    requires Inverse(dump, load, fits) && FitsVector(fits, xs)
    ensures LoadVector(load, DumpVector(dump, xs) + rest) == Ok(xs, rest)
  {
    assert DumpVector(dump, xs) + rest == DumpInt(|xs|) + (DumpMany(dump, xs) + rest);
    IntLoads(|xs|, DumpMany(dump, xs) + rest);
    ManyLoads(dump, load, fits, xs, rest);
  }

  lemma Inverses()
    ensures Inverse(DumpInstruction, LoadInstruction, FitsInstruction)
    ensures Inverse(DumpConstant, LoadConstant, FitsConstant)
    ensures Inverse(DumpInt, LoadLine, FitsLine)
    ensures Inverse(DumpLocVar, LoadLocVar, FitsLocVar)
    ensures Inverse(DumpString, LoadString, FitsString)
  {
    forall x: nat, rest | FitsInstruction(x)
      ensures LoadInstruction(DumpInstruction(x) + rest) == Ok(x, rest)
    {
      WordLoads(x, SIZE_INSTRUCTION, rest);
    }
    forall x, rest | FitsConstant(x)
      ensures LoadConstant(DumpConstant(x) + rest) == Ok(x, rest)
    {
      ConstantLoads(x, rest);
    }
    forall x: nat, rest | FitsLine(x)
      ensures LoadLine(DumpInt(x) + rest) == Ok(x, rest)
    {
      WordLoads(x, SIZE_INT, rest);
    }
    forall x, rest | FitsLocVar(x) ensures LoadLocVar(DumpLocVar(x) + rest) == Ok(x, rest) { LocVarLoads(x, rest); }
    forall x, rest | FitsString(x) ensures LoadString(DumpString(x) + rest) == Ok(x, rest) { StringLoads(x, rest); }
  }

  // ----- what is read of a function -----

  function SourceKept(f: Proto, parent: Option<Bytes>, strip: bool): Option<Bytes> {
    if f.source == parent || strip then None else f.source
  }

  // The prototype that is read for `f`, in a function read with the source `above`
  function Restored(f: Proto, parent: Option<Bytes>, above: Bytes, strip: bool): Proto
    decreases f, |f.p| + 1
  {
    var kept := SourceKept(f, parent, strip);
    var source := if kept.None? then above else kept.value;
    var g := f.(source := Some(source), p := RestoredFrom(f, 0, source, strip));
    if strip then g.(lineinfo := [], locvars := [], upvalues := []) else g
  }

  function RestoredFrom(f: Proto, i: nat, source: Bytes, strip: bool): (ps: seq<Proto>)
    requires i <= |f.p|
    ensures |ps| == |f.p| - i
    decreases f, |f.p| - i
  {
    if i == |f.p| then [] else [Restored(f.p[i], f.source, source, strip)] + RestoredFrom(f, i + 1, source, strip)
  }

  lemma {:induction false} RestoredAt(f: Proto, i: nat, source: Bytes, strip: bool, j: nat)
    requires i <= j < |f.p|
    ensures RestoredFrom(f, i, source, strip)[j - i] == Restored(f.p[j], f.source, source, strip)
    decreases |f.p| - i
  {
    if i < j { RestoredAt(f, i + 1, source, strip, j); }
  }

  // The check of the code passes for the function and those inside it.
  ghost predicate Checked(f: Proto, check: Proto -> bool)
    decreases f
  {
    check(f) && forall i :: 0 <= i < |f.p| ==> Checked(f.p[i], check)
  }

  lemma KeptFits(f: Proto, parent: Option<Bytes>, strip: bool)
    requires FitsOwn(f)
    ensures FitsString(SourceKept(f, parent, strip))
  {
  }

  lemma PrefixLoads(f: Proto, parent: Option<Bytes>, above: Bytes, strip: bool, rest: Bytes)
    requires FitsOwn(f)
    ensures LoadPrefix(DumpPrefix(f, parent, strip) + rest, above)
         == Ok(Restored(f, parent, above, strip).(p := [], lineinfo := [], locvars := [], upvalues := []), rest)
  {
    hide LoadVector, DumpVector, LoadString, DumpString, LoadInt, DumpInt, LoadChar, FitsVector, Inverse, FitsString;
    hide DumpPrefix, Restored, SourceKept;
    Inverses();
    PrefixBytes(f, parent, strip, rest);
    var kept := SourceKept(f, parent, strip);
    var r9 := DumpVector(DumpConstant, f.k) + rest;
    var r8 := DumpVector(DumpInstruction, f.code) + r9;
    var r7 := [f.maxstacksize] + r8;
    var r6 := [f.isVararg] + r7;
    var r5 := [f.numparams] + r6;
    var r4 := [f.nups] + r5;
    var r3 := DumpInt(f.lastlinedefined) + r4;
    var r2 := DumpInt(f.linedefined) + r3;
    KeptFits(f, parent, strip);
    StringLoads(kept, r2);
    IntLoads(f.linedefined, r3);
    IntLoads(f.lastlinedefined, r4);
    CharLoads(f.nups, r5);
    CharLoads(f.numparams, r6);
    CharLoads(f.isVararg, r7);
    CharLoads(f.maxstacksize, r8);
    VectorLoads(DumpInstruction, LoadInstruction, FitsInstruction, f.code, r9);
    VectorLoads(DumpConstant, LoadConstant, FitsConstant, f.k, rest);
    PrefixRestored(f, parent, above, strip);
  }

  lemma PrefixRestored(f: Proto, parent: Option<Bytes>, above: Bytes, strip: bool)
    ensures var kept := SourceKept(f, parent, strip);
      Restored(f, parent, above, strip).(p := [], lineinfo := [], locvars := [], upvalues := []) ==
      Proto(if kept.None? then Some(above) else kept,
            f.linedefined, f.lastlinedefined, f.nups, f.numparams, f.isVararg, f.maxstacksize, f.code, f.k, [], [], [],
              [])
  {
  }

  // The parts of the prefix, each with what follows it
  lemma PrefixBytes(f: Proto, parent: Option<Bytes>, strip: bool, rest: Bytes)
    ensures DumpPrefix(f, parent, strip) + rest ==
      DumpString(SourceKept(f, parent, strip)) + (DumpInt(f.linedefined) + (DumpInt(f.lastlinedefined) +
      ([f.nups] + ([f.numparams] + ([f.isVararg] + ([f.maxstacksize] +
      (DumpVector(DumpInstruction, f.code) + (DumpVector(DumpConstant, f.k) + rest))))))))
  {
    hide DumpString, DumpInt, DumpVector;
  }

  lemma DebugLoads(f: Proto, g: Proto, strip: bool, rest: Bytes)
    requires FitsOwn(f)
    ensures LoadDebug(g, DumpDebug(f, strip) + rest) == Ok(
      if strip then g.(lineinfo := [], locvars := [], upvalues := [])
      else g.(lineinfo := f.lineinfo, locvars := f.locvars, upvalues := f.upvalues), rest)
  {
    hide LoadVector, DumpVector, FitsVector, Inverse;
    Inverses();
    if strip {
      EmptyVector(DumpInt, LoadLine, FitsLine, DumpInt(0) + DumpInt(0) + rest);
      EmptyVector(DumpLocVar, LoadLocVar, FitsLocVar, DumpInt(0) + rest);
      EmptyVector(DumpString, LoadString, FitsString, rest);
      assert DumpDebug(f, strip) + rest == DumpInt(0) + (DumpInt(0) + DumpInt(0) + rest);
      assert DumpInt(0) + DumpInt(0) + rest == DumpInt(0) + (DumpInt(0) + rest);
    } else {
      var r2 := DumpVector(DumpString, f.upvalues) + rest;
      var r1 := DumpVector(DumpLocVar, f.locvars) + r2;
      assert DumpDebug(f, strip) + rest == DumpVector(DumpInt, f.lineinfo) + r1;
      VectorLoads(DumpInt, LoadLine, FitsLine, f.lineinfo, r1);
      VectorLoads(DumpLocVar, LoadLocVar, FitsLocVar, f.locvars, r2);
      VectorLoads(DumpString, LoadString, FitsString, f.upvalues, rest);
    }
  }

  lemma EmptyVector<T(!new)>(dump: T -> Bytes, load: Bytes -> Loaded<T>, fits: T -> bool, rest: Bytes)
    requires Inverse(dump, load, fits)
    ensures LoadVector(load, DumpInt(0) + rest) == Ok([], rest)
  {
    VectorLoads(dump, load, fits, [], rest);
    assert DumpVector(dump, []) + rest == DumpInt(0) + rest;
  }

  // A dumped function is read back, in whatever it is nested.
  lemma {:induction false} FunctionLoads(f: Proto, parent: Option<Bytes>, above: Bytes, strip: bool,
      check: Proto -> bool, rest: Bytes)
    requires Fits(f) && Checked(Restored(f, parent, above, strip), check)
    ensures LoadFunction(DumpFunction(f, parent, strip) + rest, above, check) ==
      Ok(Restored(f, parent, above, strip), rest)
    decreases f, |f.p| + 1
  {
    hide LoadPrefix, DumpPrefix, LoadInt, DumpInt, LoadDebug, DumpDebug, DumpProtos, LoadProtos, RestoredFrom, FitsOwn;
    CountFits(f);
    var g := Restored(f, parent, above, strip);
    var r3 := DumpDebug(f, strip) + rest;
    var r2 := DumpProtos(f, 0, strip) + r3;
    var r1 := DumpInt(|f.p|) + r2;
    assert DumpFunction(f, parent, strip) + rest == DumpPrefix(f, parent, strip) + r1;
    PrefixLoads(f, parent, above, strip, r1);
    IntLoads(|f.p|, r2);
    forall j | 0 <= j < |f.p| ensures Checked(Restored(f.p[j], f.source, g.source.value, strip), check) {
      RestoredAt(f, 0, g.source.value, strip, j);
      assert Checked(g.p[j], check);
    }
    ProtosLoad(f, 0, g.source.value, strip, check, r3);
    DebugLoads(f, g.(lineinfo := [], locvars := [], upvalues := []), strip, rest);
  }

  lemma CountFits(f: Proto)
    requires Fits(f)
    ensures FitsOwn(f) && FitsInt(|f.p|)
  {
  }

  lemma {:induction false} ProtosLoad(f: Proto, i: nat, source: Bytes, strip: bool, check: Proto -> bool, rest: Bytes)
    requires i <= |f.p| && (forall j :: i <= j < |f.p| ==> Fits(f.p[j]))
    requires forall j :: i <= j < |f.p| ==> Checked(Restored(f.p[j], f.source, source, strip), check)
    ensures LoadProtos(|f.p| - i, DumpProtos(f, i, strip) + rest, source, check) ==
      Ok(RestoredFrom(f, i, source, strip), rest)
    decreases f, |f.p| - i
  {
    hide DumpFunction, LoadFunction, Restored, Fits;
    if i == |f.p| {
      assert DumpProtos(f, i, strip) + rest == rest;
    } else {
      var more := DumpProtos(f, i + 1, strip) + rest;
      assert DumpProtos(f, i, strip) + rest == DumpFunction(f.p[i], f.source, strip) + more;
      FunctionLoads(f.p[i], f.source, source, strip, check, more);
      ProtosLoad(f, i + 1, source, strip, check, rest);
    }
  }

  // ----- the whole chunk -----

  // `luaU_undump`: the header must be the one of this machine.
  function Undump(bs: Bytes, header: Bytes, check: Proto -> bool): Loaded<Proto> {
    var (h, rest) :- LoadBlock(bs, |header|);
    if h != header then Fail(BadHeader) else LoadFunction(rest, NO_SOURCE, check)
  }

  // "=?"
  const NO_SOURCE: Bytes := [61, 63]

  // `luaU_dump`
  function Dump(f: Proto, header: Bytes, strip: bool): Bytes {
    header + DumpFunction(f, None, strip)
  }

  // A chunk is read back as what is restored of it.
  lemma UndumpDump(f: Proto, header: Bytes, strip: bool, check: Proto -> bool)
    requires Fits(f) && Checked(Restored(f, None, NO_SOURCE, strip), check)
    ensures Undump(Dump(f, header, strip), header, check) == Ok(Restored(f, None, NO_SOURCE, strip), [])
  {
    var bs := Dump(f, header, strip);
    assert bs[..|header|] == header && bs[|header|..] == DumpFunction(f, None, strip) + [];
    FunctionLoads(f, None, NO_SOURCE, strip, check, []);
  }

  // Every function has a source.
  ghost predicate Sourced(f: Proto)
    decreases f
  {
    f.source.Some? && forall i :: 0 <= i < |f.p| ==> Sourced(f.p[i])
  }

  lemma {:induction false} RestoredSourced(f: Proto, parent: Option<Bytes>, above: Bytes)
    ensures Sourced(Restored(f, parent, above, false))
    decreases f
  {
    var g := Restored(f, parent, above, false);
    forall i | 0 <= i < |g.p| ensures Sourced(g.p[i]) {
      RestoredAt(f, 0, g.source.value, false, i);
      RestoredSourced(f.p[i], f.source, g.source.value);
    }
  }

  // A source left out because it is the parent's is found again.
  lemma {:induction false} RestoredSame(f: Proto, parent: Option<Bytes>, above: Bytes)
    requires Sourced(f) && (parent.Some? ==> parent.value == above)
    ensures Restored(f, parent, above, false) == f
    decreases f
  {
    var g := Restored(f, parent, above, false);
    assert g.source == f.source;
    forall i | 0 <= i < |g.p| ensures g.p[i] == f.p[i] {
      RestoredAt(f, 0, g.source.value, false, i);
      assert Sourced(f.p[i]);
      RestoredSame(f.p[i], f.source, g.source.value);
    }
    assert g.p == f.p;
  }

  // Dumping and loading gives the same prototype exactly when no source is missing.
  lemma RoundTrip(f: Proto, header: Bytes, check: Proto -> bool)
    requires Fits(f) && Checked(Restored(f, None, NO_SOURCE, false), check)
    ensures Undump(Dump(f, header, false), header, check) == Ok(f, []) <==> Sourced(f)
  {
    UndumpDump(f, header, false, check);
    RestoredSourced(f, None, NO_SOURCE);
    if Sourced(f) { RestoredSame(f, None, NO_SOURCE); }
  }
}
