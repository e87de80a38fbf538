/**
 Precompiled chunks: the bytes of a function prototype, and how they are read.
 Numbers are kept as their bits; the byte order is that of the machine, here little endian.
 */
module ChunkFormat {
  import opened Words
  import opened Wrappers

  datatype Constant = KNil | KBool(b: Byte) | KNumber(bits: nat) | KString(s: Option<Bytes>)

  datatype LocVar = LocVar(varname: Option<Bytes>, startpc: nat, endpc: nat)

  datatype Proto = Proto(
    source: Option<Bytes>,
    linedefined: nat, lastlinedefined: nat,
    nups: Byte, numparams: Byte, isVararg: Byte, maxstacksize: Byte,
    code: seq<nat>, k: seq<Constant>, p: seq<Proto>,
    lineinfo: seq<nat>, locvars: seq<LocVar>, upvalues: seq<Option<Bytes>>)

  datatype Error = UnexpectedEnd | BadInteger | BadConstant | BadHeader | BadCode

  // What was read, and the bytes behind it
  datatype Loaded<T> = Fail(error: Error) | Ok(value: T, rest: Bytes) {
    predicate IsFailure() {
      Fail?
    }

    function PropagateFailure<U>(): Loaded<U>
      requires Fail?
    {
      Fail(error)
    }

    function Extract(): (T, Bytes)
      requires Ok?
    {
      (value, rest)
    }
  }

  const LUA_TNIL: Byte := 0
  const LUA_TBOOLEAN: Byte := 1
  const LUA_TNUMBER: Byte := 3
  const LUA_TSTRING: Byte := 4

  const SIZE_INT := 4
  const SIZE_SIZE := 8
  const SIZE_INSTRUCTION := 4
  const SIZE_NUMBER := 8
  const MAX_INT := 0x7fff_ffff

  // ----- dumping -----

  function DumpInt(x: nat): Bytes {
    Word(x, SIZE_INT)
  }

  // `DumpString`: the size counts the closing NUL; 0 stands for NULL.
  function DumpString(s: Option<Bytes>): Bytes {
    match s
    case None => Word(0, SIZE_SIZE)
    case Some(t) => Word(|t| + 1, SIZE_SIZE) + t + [0]
  }

  function DumpMany<T>(one: T -> Bytes, xs: seq<T>): Bytes {
    if xs == [] then [] else one(xs[0]) + DumpMany(one, xs[1..])
  }

  function DumpVector<T>(one: T -> Bytes, xs: seq<T>): Bytes {
    DumpInt(|xs|) + DumpMany(one, xs)
  }

  function DumpInstruction(i: nat): Bytes {
    Word(i, SIZE_INSTRUCTION)
  }

  function DumpConstant(c: Constant): Bytes {
    match c
    case KNil => [LUA_TNIL]
    case KBool(b) => [LUA_TBOOLEAN, b]
    case KNumber(bits) => [LUA_TNUMBER] + Word(bits, SIZE_NUMBER)
    case KString(s) => [LUA_TSTRING] + DumpString(s)
  }

  function DumpLocVar(v: LocVar): Bytes {
    DumpString(v.varname) + DumpInt(v.startpc) + DumpInt(v.endpc)
  }

  // `DumpDebug`
  function DumpDebug(f: Proto, strip: bool): Bytes {
    if strip then DumpInt(0) + DumpInt(0) + DumpInt(0)
    else DumpVector(DumpInt, f.lineinfo) + DumpVector(DumpLocVar, f.locvars) + DumpVector(DumpString, f.upvalues)
  }

  function DumpPrefix(f: Proto, parent: Option<Bytes>, strip: bool): Bytes {
    DumpString(if f.source == parent || strip then None else f.source)
    + DumpInt(f.linedefined) + DumpInt(f.lastlinedefined)
    + [f.nups, f.numparams, f.isVararg, f.maxstacksize]
    + DumpVector(DumpInstruction, f.code)
    + DumpVector(DumpConstant, f.k)
  }

  // `DumpFunction`
  function DumpFunction(f: Proto, parent: Option<Bytes>, strip: bool): Bytes
    decreases f, |f.p| + 1
  {
    DumpPrefix(f, parent, strip) + DumpInt(|f.p|) + DumpProtos(f, 0, strip) + DumpDebug(f, strip)
  }

  // The inner functions from `i` on
  function DumpProtos(f: Proto, i: nat, strip: bool): Bytes
    requires i <= |f.p|
    decreases f, |f.p| - i
  {
    if i == |f.p| then [] else DumpFunction(f.p[i], f.source, strip) + DumpProtos(f, i + 1, strip)
  }

  // ----- loading -----

  // `LoadBlock`
  function LoadBlock(bs: Bytes, size: nat): (r: Loaded<Bytes>)
    ensures r.Ok? ==> |r.rest| == |bs| - size && |r.value| == size
  {
    if size <= |bs| then Ok(bs[..size], bs[size..]) else Fail(UnexpectedEnd)
  }

  function LoadWord(bs: Bytes, w: nat): (r: Loaded<nat>)
    ensures r.Ok? ==> |r.rest| == |bs| - w
  {
    var (b, rest) :- LoadBlock(bs, w);
    Ok(WordOf(b), rest)
  }

  function LoadChar(bs: Bytes): (r: Loaded<Byte>)
    ensures r.Ok? ==> |r.rest| == |bs| - 1
  {
    var (b, rest) :- LoadBlock(bs, 1);
    Ok(b[0], rest)
  }

  // `LoadInt`: a number with the sign bit is negative.
  function LoadInt(bs: Bytes): (r: Loaded<nat>)
    ensures r.Ok? ==> |r.rest| == |bs| - SIZE_INT
  {
    var (x, rest) :- LoadWord(bs, SIZE_INT);
    if x > MAX_INT then Fail(BadInteger) else Ok(x, rest)
  }

  function LoadString(bs: Bytes): (r: Loaded<Option<Bytes>>)
    ensures r.Ok? ==> |r.rest| < |bs|
  {
    var (size, rest) :- LoadWord(bs, SIZE_SIZE);
    if size == 0 then Ok(None, rest)
    else
      var (s, rest') :- LoadBlock(rest, size);
      Ok(Some(s[..size - 1]), rest')
  }

  function LoadMany<T>(one: Bytes -> Loaded<T>, n: nat, bs: Bytes): Loaded<seq<T>> {
    if n == 0 then Ok([], bs)
    else
      var (x, rest) :- one(bs);
      var (xs, rest') :- LoadMany(one, n - 1, rest);
      Ok([x] + xs, rest')
  }

  function LoadVector<T>(one: Bytes -> Loaded<T>, bs: Bytes): Loaded<seq<T>> {
    var (n, rest) :- LoadInt(bs);
    LoadMany(one, n, rest)
  }

  function LoadInstruction(bs: Bytes): Loaded<nat> {
    LoadWord(bs, SIZE_INSTRUCTION)
  }

  function LoadLine(bs: Bytes): Loaded<nat> {
    LoadWord(bs, SIZE_INT)
  }

  function LoadConstant(bs: Bytes): Loaded<Constant> {
    var (t, rest) :- LoadChar(bs);
    if t == LUA_TNIL then Ok(KNil, rest)
    else if t == LUA_TBOOLEAN then
      var (b, rest') :- LoadChar(rest);
      Ok(KBool(b), rest')
    else if t == LUA_TNUMBER then
      var (x, rest') :- LoadWord(rest, SIZE_NUMBER);
      Ok(KNumber(x), rest')
    else if t == LUA_TSTRING then
      var (s, rest') :- LoadString(rest);
      Ok(KString(s), rest')
    else Fail(BadConstant)
  }

  function LoadLocVar(bs: Bytes): Loaded<LocVar> {
    var (name, r1) :- LoadString(bs);
    var (startpc, r2) :- LoadInt(r1);
    var (endpc, r3) :- LoadInt(r2);
    Ok(LocVar(name, startpc, endpc), r3)
  }

  // `LoadDebug`
  function LoadDebug(f: Proto, bs: Bytes): Loaded<Proto> {
    var (lineinfo, r1) :- LoadVector(LoadLine, bs);
    var (locvars, r2) :- LoadVector(LoadLocVar, r1);
    var (upvalues, r3) :- LoadVector(LoadString, r2);
    Ok(f.(lineinfo := lineinfo, locvars := locvars, upvalues := upvalues), r3)
  }

  // The small fields of a function
  datatype Fields = Fields(line: nat, last: nat, nups: Byte, numparams: Byte, isVararg: Byte, maxstacksize: Byte)

  function LoadFields(bs: Bytes): (r: Loaded<Fields>)
    ensures r.Ok? ==> |r.rest| < |bs|
  {
    var (line, r1) :- LoadInt(bs);
    var (last, r2) :- LoadInt(r1);
    var (nups, r3) :- LoadChar(r2);
    var (params, r4) :- LoadChar(r3);
    var (vararg, r5) :- LoadChar(r4);
    var (stack, r6) :- LoadChar(r5);
    Ok(Fields(line, last, nups, params, vararg, stack), r6)
  }

  // `LoadFunction` up to its constants
  function LoadPrefix(bs: Bytes, parent: Bytes): Loaded<Proto> {
    var (source, r1) :- LoadString(bs);
    var (fs, r2) :- LoadFields(r1);
    var (code, r3) :- LoadVector(LoadInstruction, r2);
    var (k, r4) :- LoadVector(LoadConstant, r3);
    Ok(Proto(if source.None? then Some(parent) else source,
             fs.line, fs.last, fs.nups, fs.numparams, fs.isVararg, fs.maxstacksize, code, k, [], [], [], []), r4)
  }

  // Nothing is read backwards.
  ghost predicate Shrinks<T>(bs: Bytes, r: Loaded<T>) {
    r.Ok? ==> |r.rest| <= |bs|
  }

  // `LoadFunction`; `check` is the check of the code.
  function LoadFunction(bs: Bytes, parent: Bytes, check: Proto -> bool): (r: Loaded<Proto>)
    ensures r.Ok? ==> |r.rest| < |bs| && r.value.source.Some?
    decreases |bs|, 0, 0
  {
    PrefixShrinks(bs, parent);
    var (f, r1) :- LoadPrefix(bs, parent);
    var (n, r2) :- LoadInt(r1);
    var (p, r3) :- LoadProtos(n, r2, f.source.value, check);
    DebugShrinks(f.(p := p), r3);
    var (g, r4) :- LoadDebug(f.(p := p), r3);
    if check(g) then Ok(g, r4) else Fail(BadCode)
  }

  function LoadProtos(n: nat, bs: Bytes, source: Bytes, check: Proto -> bool): (r: Loaded<seq<Proto>>)
    ensures r.Ok? ==> |r.rest| <= |bs|
    decreases |bs|, 1, n
  {
    if n == 0 then Ok([], bs)
    else
      var (f, rest) :- LoadFunction(bs, source, check);
      var (fs, rest') :- LoadProtos(n - 1, rest, source, check);
      Ok([f] + fs, rest')
  }

  lemma {:induction false} ManyShrinks<T>(one: Bytes -> Loaded<T>, n: nat, bs: Bytes)
    requires forall x :: Shrinks(x, one(x))
    ensures Shrinks(bs, LoadMany(one, n, bs))
  {
    if n > 0 {
      assert Shrinks(bs, one(bs));
      if one(bs).Ok? { ManyShrinks(one, n - 1, one(bs).rest); }
    }
  }

  lemma VectorShrinks<T>(one: Bytes -> Loaded<T>, bs: Bytes)
    requires forall x :: Shrinks(x, one(x))
    ensures Shrinks(bs, LoadVector(one, bs))
  {
    if LoadInt(bs).Ok? { ManyShrinks(one, LoadInt(bs).value, LoadInt(bs).rest); }
  }

  lemma PrefixShrinks(bs: Bytes, parent: Bytes)
    ensures var r := LoadPrefix(bs, parent); r.Ok? ==> |r.rest| < |bs| && r.value.source.Some?
  {
    hide LoadVector, LoadString, LoadInt, LoadChar;
    forall x ensures Shrinks(x, LoadVector(LoadInstruction, x)) { VectorShrinks(LoadInstruction, x); }
    forall x ensures Shrinks(x, LoadVector(LoadConstant, x)) { VectorShrinks(LoadConstant, x); }
  }

  lemma DebugShrinks(f: Proto, bs: Bytes)
    ensures var r := LoadDebug(f, bs); r.Ok? ==> |r.rest| <= |bs| && r.value.source == f.source
  {
    hide LoadVector;
    forall x ensures Shrinks(x, LoadVector(LoadLine, x)) { VectorShrinks(LoadLine, x); }
    forall x ensures Shrinks(x, LoadVector(LoadLocVar, x)) { VectorShrinks(LoadLocVar, x); }
    forall x ensures Shrinks(x, LoadVector(LoadString, x)) { VectorShrinks(LoadString, x); }
  }
}
