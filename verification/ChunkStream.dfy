/**
 Chunks as they are read and written: from a stream that comes in blocks, see lzio.c,
 and to a writer that may fail.
 */
module ChunkStream {
  import opened ChunkFormat
  import opened ChunkRoundTrip
  import opened Wrappers
  import opened Words

  const EOZ := -1

  function Flat(blocks: seq<Bytes>): Bytes {
    if blocks == [] then [] else blocks[0] + Flat(blocks[1..])
  }

  ghost predicate NonEmpty(blocks: seq<Bytes>) {
    forall i :: 0 <= i < |blocks| ==> blocks[i] != []
  }

  class Zio {
    var block: Bytes
    var p: nat
    var n: nat
    var blocks: seq<Bytes>

    // `luaZ_init`, with a reader that returns the blocks one by one
    constructor (bs: seq<Bytes>)
      requires NonEmpty(bs)
      ensures Valid() && Rest() == Flat(bs)
    {
      block, p, n, blocks := [], 0, 0, bs;
    }

    ghost predicate Valid()
      reads this
    {
      p + n == |block| && NonEmpty(blocks)
    }

    // The bytes still to be read, however they are cut
    ghost function Rest(): Bytes
      requires Valid()
      reads this
    {
      block[p..] + Flat(blocks)
    }

    // `luaZ_fill`
    method Fill() returns (c: int)
      requires Valid() && n == 0
      modifies this
      ensures Valid()
      ensures old(Rest()) == [] ==> c == EOZ && Rest() == []
      ensures old(Rest()) != [] ==> c == old(Rest())[0] && p > 0 && block[p - 1] == c && Rest() == old(Rest())[1..]
    {
      assert block[p..] == [];
      if blocks == [] { return EOZ; }
      block, blocks := blocks[0], blocks[1..];
      n, p := |block| - 1, 1;
      c := block[0];
    }

    // `luaZ_lookahead`
    method Lookahead() returns (c: int)
      requires Valid()
      modifies this
      ensures Valid() && Rest() == old(Rest())
      ensures if Rest() == [] then c == EOZ else c == Rest()[0] && n > 0
    {
      ghost var rest := Rest();
      if n == 0 {
        c := Fill();
        if c == EOZ { return; }
        n, p := n + 1, p - 1;
        assert Rest() == [block[p]] + block[p + 1..] + Flat(blocks);
      }
      c := block[p];
    }

    // `memcpy` of `m` bytes from the block
    method Take(m: nat) returns (b: Bytes)
      requires Valid() && m <= n
      modifies this
      ensures Valid() && m <= |old(Rest())| && b == old(Rest())[..m] && Rest() == old(Rest())[m..]
    {
      b := block[p..p + m];
      assert block[p..] == b + block[p + m..];
      assert Rest()[..m] == b && Rest()[m..] == block[p + m..] + Flat(blocks);
      n, p := n - m, p + m;
    }

    // `luaZ_read`: the bytes, and how many are missing
    method Read(size: nat) returns (missing: nat, b: Bytes)
      requires Valid()
      modifies this
      ensures Valid()
      ensures if size <= |old(Rest())| then missing == 0 && b == old(Rest())[..size] && Rest() == old(Rest())[size..]
              else missing == size - |old(Rest())| && b == old(Rest()) && Rest() == []
    {
      ghost var rest := Rest();
      missing, b := size, [];
      while missing > 0
        invariant Valid() && |b| + missing == size && |b| <= |rest| && b == rest[..|b|] && Rest() == rest[|b|..]
        decreases missing
      {
        var c := Lookahead();
        if c == EOZ {
          assert |b| == |rest|;
          return;
        }
        var m := if missing <= n then missing else n;
        ghost var before := Rest();
        var part := Take(m);
        Glue(rest, |b|, m);
        b := b + part;
        missing := missing - m;
      }
    }
  }

  lemma Glue(rest: Bytes, i: nat, m: nat)
    requires i + m <= |rest|
    ensures rest[..i] + rest[i..][..m] == rest[..i + m] && rest[i..][m..] == rest[i + m..]
  {
  }

  // What a loading method returns
  datatype Got<T> = Err(error: Error) | Got(value: T) {
    predicate IsFailure() {
      Err?
    }

    function PropagateFailure<U>(): Got<U>
      requires Err?
    {
      Err(error)
    }

    function Extract(): T
      requires Got?
    {
      value
    }
  }

  // The method did what the function says: only the bytes count, not the blocks.
  predicate Reads<T(==)>(r: Got<T>, want: Loaded<T>, rest: Bytes) {
    match want
    case Fail(e) => r == Err(e)
    case Ok(v, rest') => r == Got(v) && rest == rest'
  }

  function Prepend<T>(xs: seq<T>, r: Loaded<seq<T>>): Loaded<seq<T>> {
    if r.Ok? then Ok(xs + r.value, r.rest) else r
  }

  lemma ManyStep<T>(one: Bytes -> Loaded<T>, xs: seq<T>, n: nat, bs: Bytes)
    requires n > 0
    ensures one(bs).Ok? ==>
      Prepend(xs, LoadMany(one, n, bs)) == Prepend(xs + [one(bs).value], LoadMany(one, n - 1, one(bs).rest))
    ensures one(bs).Fail? ==> Prepend(xs, LoadMany(one, n, bs)) == Fail(one(bs).error)
  {
    if one(bs).Ok? && LoadMany(one, n - 1, one(bs).rest).Ok? {
      var x, ys := one(bs).value, LoadMany(one, n - 1, one(bs).rest).value;
      assert xs + ([x] + ys) == xs + [x] + ys;
    }
  }

  lemma ManyNone<T>(one: Bytes -> Loaded<T>, xs: seq<T>, bs: Bytes)
    ensures Prepend(xs, LoadMany(one, 0, bs)) == Ok(xs, bs)
    ensures forall r: Loaded<seq<T>> :: Prepend([], r) == r
  {
    assert xs + [] == xs;
    forall r: Loaded<seq<T>> ensures Prepend([], r) == r { if r.Ok? { assert [] + r.value == r.value; } }
  }

  lemma PrependNone<T>(r: Loaded<seq<T>>)
    ensures Prepend([], r) == r
  {
    if r.Ok? { assert [] + r.value == r.value; }
  }

  lemma ProtosNone(fs: seq<Proto>, bs: Bytes, source: Bytes, check: Proto -> bool)
    ensures Prepend(fs, LoadProtos(0, bs, source, check)) == Ok(fs, bs)
  {
    assert fs + [] == fs;
  }

  lemma ProtosStep(fs: seq<Proto>, n: nat, bs: Bytes, source: Bytes, check: Proto -> bool)
    requires n > 0
    ensures var r := LoadFunction(bs, source, check);
      if r.Ok? then Prepend(fs, LoadProtos(n, bs, source, check)) ==
        Prepend(fs + [r.value], LoadProtos(n - 1, r.rest, source, check))
      else Prepend(fs, LoadProtos(n, bs, source, check)) == Fail(r.error)
  {
    hide LoadFunction;
    var r := LoadFunction(bs, source, check);
    if r.Ok? && LoadProtos(n - 1, r.rest, source, check).Ok? {
      var ys := LoadProtos(n - 1, r.rest, source, check).value;
      assert fs + ([r.value] + ys) == fs + [r.value] + ys;
    }
  }

  function WordsOf(b: Bytes, n: nat): (xs: seq<nat>)
    requires |b| >= 4 * n
  {
    seq(n, i requires 0 <= i < n => WordOf(b[4 * i..4 * i + 4]))
  }

  lemma SameWord(bs: Bytes, n: nat, i: nat)
    requires 0 < i < n && 4 * n <= |bs|
    ensures bs[..4 * n][4 * i..4 * i + 4] == bs[4..][..4 * (n - 1)][4 * (i - 1)..4 * (i - 1) + 4]
  {
    var k := 4 * i;
    assert bs[..4 * n][k..k + 4] == bs[k..k + 4];
    assert bs[4..][..4 * (n - 1)][k - 4..k] == bs[k..k + 4];
  }

  // The words of a block, and the words one after the other
  lemma {:induction false} WordsInBlock(n: nat, bs: Bytes)
    ensures LoadMany(LoadInstruction, n, bs) ==
      if 4 * n <= |bs| then Ok(WordsOf(bs[..4 * n], n), bs[4 * n..]) else Fail(UnexpectedEnd)
  {
    if n > 0 {
      if 4 <= |bs| {
        var rest := bs[4..];
        WordsInBlock(n - 1, rest);
        if 4 * n <= |bs| {
          var b, b' := bs[..4 * n], rest[..4 * (n - 1)];
          forall i | 0 < i < n ensures WordsOf(b, n)[i] == WordsOf(b', n - 1)[i - 1] {
            SameWord(bs, n, i);
          }
          assert b[0..4] == bs[..4];
          assert WordsOf(b, n) == [WordOf(bs[..4])] + WordsOf(b', n - 1);
          assert rest[4 * (n - 1)..] == bs[4 * n..];
        }
      }
    } else {
      assert WordsOf(bs[..0], 0) == [] && bs[0..] == bs;
    }
  }

  lemma {:induction false} ManyLines(n: nat, bs: Bytes)
    ensures LoadMany(LoadLine, n, bs) == LoadMany(LoadInstruction, n, bs)
  {
    if n > 0 && LoadLine(bs).Ok? { ManyLines(n - 1, LoadLine(bs).rest); }
  }

  lemma LinesAreWords(bs: Bytes)
    ensures LoadVector(LoadLine, bs) == LoadVector(LoadInstruction, bs)
  {
    if LoadInt(bs).Ok? { ManyLines(LoadInt(bs).value, LoadInt(bs).rest); }
  }

  class LoadState {
    const z: Zio
    const check: Proto -> bool

    constructor (zio: Zio, ok: Proto -> bool)
      ensures z == zio && check == ok
    {
      z, check := zio, ok;
    }

    method LoadBlock(size: nat) returns (r: Got<Bytes>)
      requires z.Valid()
      modifies z
      ensures z.Valid() && Reads(r, ChunkFormat.LoadBlock(old(z.Rest()), size), z.Rest())
    {
      var missing, b := z.Read(size);
      r := if missing != 0 then Err(UnexpectedEnd) else Got(b);
    }

    method LoadWord(w: nat) returns (r: Got<nat>)
      requires z.Valid()
      modifies z
      ensures z.Valid() && Reads(r, ChunkFormat.LoadWord(old(z.Rest()), w), z.Rest())
    {
      var b :- LoadBlock(w);
      r := Got(WordOf(b));
    }

    method LoadChar() returns (r: Got<Byte>)
      requires z.Valid()
      modifies z
      ensures z.Valid() && Reads(r, ChunkFormat.LoadChar(old(z.Rest())), z.Rest())
    {
      var b :- LoadBlock(1);
      r := Got(b[0]);
    }

    method LoadInt() returns (r: Got<nat>)
      requires z.Valid()
      modifies z
      ensures z.Valid() && Reads(r, ChunkFormat.LoadInt(old(z.Rest())), z.Rest())
    {
      var x :- LoadWord(SIZE_INT);
      r := if x > MAX_INT then Err(BadInteger) else Got(x);
    }

    method LoadString() returns (r: Got<Option<Bytes>>)
      requires z.Valid()
      modifies z
      ensures z.Valid() && Reads(r, ChunkFormat.LoadString(old(z.Rest())), z.Rest())
    {
      var size :- LoadWord(SIZE_SIZE);
      if size == 0 { return Got(None); }
      var s :- LoadBlock(size);
      r := Got(Some(s[..size - 1]));
    }

    // `LoadVector`: `n` words of four bytes, read as one block
    method LoadWords(n: nat) returns (r: Got<seq<nat>>)
      requires z.Valid()
      modifies z
      ensures z.Valid() && Reads(r, LoadMany(LoadInstruction, n, old(z.Rest())), z.Rest())
    {
      WordsInBlock(n, z.Rest());
      var b :- LoadBlock(4 * n);
      var xs := [];
      for i := 0 to n
        invariant |xs| == i && forall j :: 0 <= j < i ==> xs[j] == WordOf(b[4 * j..4 * j + 4])
      {
        xs := xs + [WordOf(b[4 * i..4 * i + 4])];
      }
      assert xs == WordsOf(b, n);
      r := Got(xs);
    }

    method LoadCode() returns (r: Got<seq<nat>>)
      requires z.Valid()
      modifies z
      ensures z.Valid() && Reads(r, LoadVector(LoadInstruction, old(z.Rest())), z.Rest())
    {
      var n :- LoadInt();
      r := LoadWords(n);
    }

    method LoadConstant() returns (r: Got<Constant>)
      requires z.Valid()
      modifies z
      ensures z.Valid() && Reads(r, ChunkFormat.LoadConstant(old(z.Rest())), z.Rest())
    {
      var t :- LoadChar();
      if t == LUA_TNIL { return Got(KNil); }
      if t == LUA_TBOOLEAN {
        var b :- LoadChar();
        return Got(KBool(b));
      }
      if t == LUA_TNUMBER {
        var x :- LoadWord(SIZE_NUMBER);
        return Got(KNumber(x));
      }
      if t == LUA_TSTRING {
        var s :- LoadString();
        return Got(KString(s));
      }
      r := Err(BadConstant);
    }

    method LoadConstants() returns (r: Got<seq<Constant>>)
      requires z.Valid()
      modifies z
      ensures z.Valid() && Reads(r, LoadVector(ChunkFormat.LoadConstant, old(z.Rest())), z.Rest())
    {
      hide ChunkFormat.LoadConstant, LoadMany;
      var n :- LoadInt();
      ghost var want := LoadMany(ChunkFormat.LoadConstant, n, z.Rest());
      var xs := [];
      ManyNone(ChunkFormat.LoadConstant, [], z.Rest());
      for i := 0 to n
        invariant z.Valid() && want == Prepend(xs, LoadMany(ChunkFormat.LoadConstant, n - i, z.Rest()))
      {
        ManyStep(ChunkFormat.LoadConstant, xs, n - i, z.Rest());
        var x :- LoadConstant();
        xs := xs + [x];
      }
      ManyNone(ChunkFormat.LoadConstant, xs, z.Rest());
      r := Got(xs);
    }

    method LoadLocVar() returns (r: Got<LocVar>)
      requires z.Valid()
      modifies z
      ensures z.Valid() && Reads(r, ChunkFormat.LoadLocVar(old(z.Rest())), z.Rest())
    {
      var name :- LoadString();
      var startpc :- LoadInt();
      var endpc :- LoadInt();
      r := Got(LocVar(name, startpc, endpc));
    }

    method LoadLocVars() returns (r: Got<seq<LocVar>>)
      requires z.Valid()
      modifies z
      ensures z.Valid() && Reads(r, LoadVector(ChunkFormat.LoadLocVar, old(z.Rest())), z.Rest())
    {
      hide ChunkFormat.LoadLocVar, LoadMany;
      var n :- LoadInt();
      ghost var want := LoadMany(ChunkFormat.LoadLocVar, n, z.Rest());
      var xs := [];
      ManyNone(ChunkFormat.LoadLocVar, [], z.Rest());
      for i := 0 to n
        invariant z.Valid() && want == Prepend(xs, LoadMany(ChunkFormat.LoadLocVar, n - i, z.Rest()))
      {
        ManyStep(ChunkFormat.LoadLocVar, xs, n - i, z.Rest());
        var x :- LoadLocVar();
        xs := xs + [x];
      }
      ManyNone(ChunkFormat.LoadLocVar, xs, z.Rest());
      r := Got(xs);
    }

    method LoadUpvalues() returns (r: Got<seq<Option<Bytes>>>)
      requires z.Valid()
      modifies z
      ensures z.Valid() && Reads(r, LoadVector(ChunkFormat.LoadString, old(z.Rest())), z.Rest())
    {
      hide ChunkFormat.LoadString, LoadMany;
      var n :- LoadInt();
      ghost var want := LoadMany(ChunkFormat.LoadString, n, z.Rest());
      var xs := [];
      ManyNone(ChunkFormat.LoadString, [], z.Rest());
      for i := 0 to n
        invariant z.Valid() && want == Prepend(xs, LoadMany(ChunkFormat.LoadString, n - i, z.Rest()))
      {
        ManyStep(ChunkFormat.LoadString, xs, n - i, z.Rest());
        var x :- LoadString();
        xs := xs + [x];
      }
      ManyNone(ChunkFormat.LoadString, xs, z.Rest());
      r := Got(xs);
    }

    method LoadDebug(f: Proto) returns (r: Got<Proto>)
      requires z.Valid()
      modifies z
      ensures z.Valid() && Reads(r, ChunkFormat.LoadDebug(f, old(z.Rest())), z.Rest())
    {
      hide LoadVector;
      LinesAreWords(z.Rest());
      var lineinfo :- LoadCode();
      var locvars :- LoadLocVars();
      var upvalues :- LoadUpvalues();
      r := Got(f.(lineinfo := lineinfo, locvars := locvars, upvalues := upvalues));
    }

    method LoadFields() returns (r: Got<Fields>)
      requires z.Valid()
      modifies z
      ensures z.Valid() && Reads(r, ChunkFormat.LoadFields(old(z.Rest())), z.Rest())
    {
      hide ChunkFormat.LoadInt, ChunkFormat.LoadChar;
      var line :- LoadInt();
      var last :- LoadInt();
      var nups :- LoadChar();
      var params :- LoadChar();
      var vararg :- LoadChar();
      var stack :- LoadChar();
      r := Got(Fields(line, last, nups, params, vararg, stack));
    }

    // `LoadFunction` up to its constants
    method LoadPrefix(parent: Bytes) returns (r: Got<Proto>)
      requires z.Valid()
      modifies z
      ensures z.Valid() && Reads(r, ChunkFormat.LoadPrefix(old(z.Rest()), parent), z.Rest())
    {
      hide LoadVector, ChunkFormat.LoadString, ChunkFormat.LoadFields;
      var source :- LoadString();
      if source.None? { source := Some(parent); }
      var fs :- LoadFields();
      var code :- LoadCode();
      var k :- LoadConstants();
      r := Got(Proto(source, fs.line, fs.last, fs.nups, fs.numparams, fs.isVararg, fs.maxstacksize, code, k, [], [], [],
        []));
    }

    // `LoadFunction`
    method LoadFunction(parent: Bytes) returns (r: Got<Proto>)
      requires z.Valid()
      modifies z
      ensures z.Valid() && Reads(r, ChunkFormat.LoadFunction(old(z.Rest()), parent, check), z.Rest())
      decreases |z.Rest()|, 0, 0
    {
      hide ChunkFormat.LoadPrefix, ChunkFormat.LoadDebug, ChunkFormat.LoadInt, LoadProtos;
      PrefixShrinks(z.Rest(), parent);
      var f :- LoadPrefix(parent);
      var n :- LoadInt();
      var p :- LoadInner(n, f.source.value);
      var g :- LoadDebug(f.(p := p));
      r := if check(g) then Got(g) else Err(BadCode);
    }

    // The inner functions
    method LoadInner(n: nat, source: Bytes) returns (r: Got<seq<Proto>>)
      requires z.Valid()
      modifies z
      ensures z.Valid() && Reads(r, LoadProtos(n, old(z.Rest()), source, check), z.Rest())
      decreases |z.Rest()|, 1, n
    {
      hide ChunkFormat.LoadFunction, LoadProtos;
      ghost var bs := z.Rest();
      ghost var want := LoadProtos(n, bs, source, check);
      var fs := [];
      assert want == Prepend(fs, want) by { PrependNone(want); }
      for i := 0 to n
        invariant z.Valid() && |z.Rest()| <= |bs| && want == Prepend(fs, LoadProtos(n - i, z.Rest(), source, check))
      {
        ProtosStep(fs, n - i, z.Rest(), source, check);
        var f :- LoadFunction(source);
        fs := fs + [f];
      }
      ProtosNone(fs, z.Rest(), source, check);
      r := Got(fs);
    }

    // `luaU_undump`
    method Undump(header: Bytes) returns (r: Got<Proto>)
      requires z.Valid()
      modifies z
      ensures z.Valid() && Reads(r, ChunkRoundTrip.Undump(old(z.Rest()), header, check), z.Rest())
    {
      var h :- LoadBlock(|header|);
      if h != header { return Err(BadHeader); }
      r := LoadFunction(NO_SOURCE);
    }
  }

  // However a dumped chunk is cut into blocks, loading it gives what is restored of it.
  method LoadBlocks(f: Proto, header: Bytes, strip: bool, check: Proto -> bool, blocks: seq<Bytes>)
      returns (r: Got<Proto>)
    requires Fits(f) && Checked(Restored(f, None, NO_SOURCE, strip), check)
    requires NonEmpty(blocks) && Flat(blocks) == Dump(f, header, strip)
    ensures r == Got(Restored(f, None, NO_SOURCE, strip))
    ensures !strip && Sourced(f) ==> r == Got(f)
  {
    UndumpDump(f, header, strip, check);
    if !strip && Sourced(f) { RestoredSame(f, None, NO_SOURCE); }
    var z := new Zio(blocks);
    var s := new LoadState(z, check);
    r := s.Undump(header);
  }
}
