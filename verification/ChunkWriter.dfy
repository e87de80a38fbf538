/**
 Writing a chunk block by block, to a writer that may refuse a block: then nothing more is written.
 */
module ChunkWriter {
  import opened ChunkFormat
  import opened ChunkRoundTrip
  import opened Wrappers
  import opened Words

  // What one call may do to the output and the status
  ghost predicate Wrote(out: Bytes, status: int, bs: Bytes, out': Bytes, status': int) {
    && out <= out' <= out + bs
    && (status' == 0 ==> status == 0 && out' == out + bs)
    && (status != 0 ==> out' == out && status' == status)
  }

  lemma WroteBoth(o0: Bytes, s0: int, a: Bytes, o1: Bytes, s1: int, b: Bytes, o2: Bytes, s2: int)
    requires Wrote(o0, s0, a, o1, s1) && Wrote(o1, s1, b, o2, s2)
    ensures Wrote(o0, s0, a + b, o2, s2)
  {
    assert o0 + (a + b) == o0 + a + b;
    if s1 == 0 {
      assert o1 == o0 + a;
    } else {
      assert o2 == o1;
    }
  }

  lemma WroteNothing(o: Bytes, s: int)
    ensures Wrote(o, s, [], o, s)
  {
    assert o + [] == o;
  }

  // The answer of the writer to a block, after the bytes it has already
  type Writer = (Bytes, Bytes) -> int

  lemma DumpStep<T>(one: T -> Bytes, xs: seq<T>, i: nat, done: Bytes)
    requires i < |xs|
    ensures done + DumpMany(one, xs[i..]) == done + one(xs[i]) + DumpMany(one, xs[i + 1..])
  {
    assert xs[i..][1..] == xs[i + 1..];
    assert DumpMany(one, xs[i..]) == one(xs[i]) + DumpMany(one, xs[i + 1..]);
  }

  lemma DumpEnd<T>(one: T -> Bytes, xs: seq<T>, done: Bytes)
    ensures done + DumpMany(one, xs[|xs|..]) == done && xs[0..] == xs
  {
  }

  lemma {:induction false} ManyLinesDump(xs: seq<nat>)
    ensures DumpMany(DumpInt, xs) == DumpMany(DumpInstruction, xs)
  {
    if xs != [] { ManyLinesDump(xs[1..]); }
  }

  lemma LinesDump(xs: seq<nat>)
    ensures DumpVector(DumpInt, xs) == DumpVector(DumpInstruction, xs)
  {
    ManyLinesDump(xs);
  }

  class DumpState {
    const writer: Writer
    const strip: bool
    var out: Bytes
    var status: int

    constructor (w: Writer, stripped: bool)
      ensures writer == w && strip == stripped && out == [] && status == 0
    {
      writer, strip, out, status := w, stripped, [], 0;
    }

    // `DumpBlock`: a block that is refused is not part of the output.
    method DumpBlock(bs: Bytes)
      modifies this
      ensures Wrote(old(out), old(status), bs, out, status)
    {
      if status == 0 {
        status := writer(out, bs);
        if status == 0 { out := out + bs; }
      }
    }

    method DumpString(s: Option<Bytes>)
      modifies this
      ensures Wrote(old(out), old(status), ChunkFormat.DumpString(s), out, status)
    {
      match s
      case None =>
        DumpBlock(Word(0, SIZE_SIZE));
      case Some(t) =>
        ghost var o0, s0 := out, status;
        DumpBlock(Word(|t| + 1, SIZE_SIZE));
        ghost var o1, s1 := out, status;
        DumpBlock(t + [0]);
        WroteBoth(o0, s0, Word(|t| + 1, SIZE_SIZE), o1, s1, t + [0], out, status);
        assert ChunkFormat.DumpString(s) == Word(|t| + 1, SIZE_SIZE) + (t + [0]);
    }

    // `DumpVector`: the size, and the words as one block
    method DumpWords(xs: seq<nat>)
      modifies this
      ensures Wrote(old(out), old(status), DumpVector(DumpInstruction, xs), out, status)
    {
      ghost var o0, s0 := out, status;
      DumpBlock(DumpInt(|xs|));
      ghost var o1, s1 := out, status;
      DumpBlock(DumpMany(DumpInstruction, xs));
      WroteBoth(o0, s0, DumpInt(|xs|), o1, s1, DumpMany(DumpInstruction, xs), out, status);
    }

    method DumpConstant(c: Constant)
      modifies this
      ensures Wrote(old(out), old(status), ChunkFormat.DumpConstant(c), out, status)
    {
      ghost var o0, s0 := out, status;
      match c
      case KNil =>
        DumpBlock([LUA_TNIL]);
      case KBool(b) =>
        DumpBlock([LUA_TBOOLEAN]);
        ghost var o1, s1 := out, status;
        DumpBlock([b]);
        WroteBoth(o0, s0, [LUA_TBOOLEAN], o1, s1, [b], out, status);
      case KNumber(bits) =>
        DumpBlock([LUA_TNUMBER]);
        ghost var o1, s1 := out, status;
        DumpBlock(Word(bits, SIZE_NUMBER));
        WroteBoth(o0, s0, [LUA_TNUMBER], o1, s1, Word(bits, SIZE_NUMBER), out, status);
      case KString(s) =>
        DumpBlock([LUA_TSTRING]);
        ghost var o1, s1 := out, status;
        DumpString(s);
        WroteBoth(o0, s0, [LUA_TSTRING], o1, s1, ChunkFormat.DumpString(s), out, status);
    }

    method DumpConstants(k: seq<Constant>)
      modifies this
      ensures Wrote(old(out), old(status), DumpVector(ChunkFormat.DumpConstant, k), out, status)
    {
      hide Wrote, ChunkFormat.DumpConstant, DumpMany;
      ghost var o0, s0 := out, status;
      DumpBlock(DumpInt(|k|));
      var i := 0;
      ghost var done := DumpInt(|k|);
      while i < |k|
        invariant 0 <= i <= |k| && Wrote(o0, s0, done, out, status)
        invariant done + DumpMany(ChunkFormat.DumpConstant, k[i..]) == DumpVector(ChunkFormat.DumpConstant, k)
      {
        ghost var o1, s1 := out, status;
        DumpConstant(k[i]);
        WroteBoth(o0, s0, done, o1, s1, ChunkFormat.DumpConstant(k[i]), out, status);
        DumpStep(ChunkFormat.DumpConstant, k, i, done);
        done := done + ChunkFormat.DumpConstant(k[i]);
        i := i + 1;
      }
      DumpEnd(ChunkFormat.DumpConstant, k, done);
    }

    method DumpLocVar(v: LocVar)
      modifies this
      ensures Wrote(old(out), old(status), ChunkFormat.DumpLocVar(v), out, status)
    {
      ghost var o0, s0 := out, status;
      DumpString(v.varname);
      ghost var o1, s1 := out, status;
      DumpBlock(DumpInt(v.startpc));
      WroteBoth(o0, s0, ChunkFormat.DumpString(v.varname), o1, s1, DumpInt(v.startpc), out, status);
      o1, s1 := out, status;
      DumpBlock(DumpInt(v.endpc));
      WroteBoth(o0, s0, ChunkFormat.DumpString(v.varname) + DumpInt(v.startpc), o1, s1, DumpInt(v.endpc), out, status);
    }

    method DumpLocVars(vs: seq<LocVar>)
      modifies this
      ensures Wrote(old(out), old(status), DumpVector(ChunkFormat.DumpLocVar, vs), out, status)
    {
      hide Wrote, ChunkFormat.DumpLocVar, DumpMany;
      ghost var o0, s0 := out, status;
      DumpBlock(DumpInt(|vs|));
      var i := 0;
      ghost var done := DumpInt(|vs|);
      while i < |vs|
        invariant 0 <= i <= |vs| && Wrote(o0, s0, done, out, status)
        invariant done + DumpMany(ChunkFormat.DumpLocVar, vs[i..]) == DumpVector(ChunkFormat.DumpLocVar, vs)
      {
        ghost var o1, s1 := out, status;
        DumpLocVar(vs[i]);
        WroteBoth(o0, s0, done, o1, s1, ChunkFormat.DumpLocVar(vs[i]), out, status);
        DumpStep(ChunkFormat.DumpLocVar, vs, i, done);
        done := done + ChunkFormat.DumpLocVar(vs[i]);
        i := i + 1;
      }
      DumpEnd(ChunkFormat.DumpLocVar, vs, done);
    }

    method DumpUpvalues(us: seq<Option<Bytes>>)
      modifies this
      ensures Wrote(old(out), old(status), DumpVector(ChunkFormat.DumpString, us), out, status)
    {
      hide Wrote, ChunkFormat.DumpString, DumpMany;
      ghost var o0, s0 := out, status;
      DumpBlock(DumpInt(|us|));
      var i := 0;
      ghost var done := DumpInt(|us|);
      while i < |us|
        invariant 0 <= i <= |us| && Wrote(o0, s0, done, out, status)
        invariant done + DumpMany(ChunkFormat.DumpString, us[i..]) == DumpVector(ChunkFormat.DumpString, us)
      {
        ghost var o1, s1 := out, status;
        DumpString(us[i]);
        WroteBoth(o0, s0, done, o1, s1, ChunkFormat.DumpString(us[i]), out, status);
        DumpStep(ChunkFormat.DumpString, us, i, done);
        done := done + ChunkFormat.DumpString(us[i]);
        i := i + 1;
      }
      DumpEnd(ChunkFormat.DumpString, us, done);
    }

    method DumpDebug(f: Proto)
      modifies this
      ensures Wrote(old(out), old(status), ChunkFormat.DumpDebug(f, strip), out, status)
    {
      hide Wrote, DumpVector;
      ghost var o0, s0 := out, status;
      if strip {
        DumpBlock(DumpInt(0));
        ghost var o1, s1 := out, status;
        DumpBlock(DumpInt(0));
        WroteBoth(o0, s0, DumpInt(0), o1, s1, DumpInt(0), out, status);
        o1, s1 := out, status;
        DumpBlock(DumpInt(0));
        WroteBoth(o0, s0, DumpInt(0) + DumpInt(0), o1, s1, DumpInt(0), out, status);
      } else {
        LinesDump(f.lineinfo);
        DumpWords(f.lineinfo);
        ghost var o1, s1 := out, status;
        DumpLocVars(f.locvars);
        WroteBoth(o0, s0, DumpVector(DumpInt, f.lineinfo), o1, s1, DumpVector(ChunkFormat.DumpLocVar, f.locvars), out,
          status);
        o1, s1 := out, status;
        DumpUpvalues(f.upvalues);
        WroteBoth(o0, s0, DumpVector(DumpInt, f.lineinfo) + DumpVector(ChunkFormat.DumpLocVar, f.locvars), o1, s1,
                  DumpVector(ChunkFormat.DumpString, f.upvalues), out, status);
      }
    }

    // `DumpFunction` up to its constants
    method DumpPrefix(f: Proto, parent: Option<Bytes>)
      modifies this
      ensures Wrote(old(out), old(status), ChunkFormat.DumpPrefix(f, parent, strip), out, status)
    {
      hide Wrote, DumpVector, ChunkFormat.DumpString, DumpInt;
      ghost var o0, s0 := out, status;
      var kept := if f.source == parent || strip then None else f.source;
      DumpString(kept);
      ghost var o1, s1 := out, status;
      ghost var done := ChunkFormat.DumpString(kept);
      DumpBlock(DumpInt(f.linedefined));
      WroteBoth(o0, s0, done, o1, s1, DumpInt(f.linedefined), out, status);
      o1, s1, done := out, status, done + DumpInt(f.linedefined);
      DumpBlock(DumpInt(f.lastlinedefined));
      WroteBoth(o0, s0, done, o1, s1, DumpInt(f.lastlinedefined), out, status);
      o1, s1, done := out, status, done + DumpInt(f.lastlinedefined);
      DumpChars(f);
      WroteBoth(o0, s0, done, o1, s1, [f.nups, f.numparams, f.isVararg, f.maxstacksize], out, status);
      o1, s1, done := out, status, done + [f.nups, f.numparams, f.isVararg, f.maxstacksize];
      DumpWords(f.code);
      WroteBoth(o0, s0, done, o1, s1, DumpVector(DumpInstruction, f.code), out, status);
      o1, s1, done := out, status, done + DumpVector(DumpInstruction, f.code);
      DumpConstants(f.k);
      WroteBoth(o0, s0, done, o1, s1, DumpVector(ChunkFormat.DumpConstant, f.k), out, status);
    }

    method DumpChars(f: Proto)
      modifies this
      ensures Wrote(old(out), old(status), [f.nups, f.numparams, f.isVararg, f.maxstacksize], out, status)
    {
      hide Wrote;
      ghost var o0, s0 := out, status;
      DumpBlock([f.nups]);
      ghost var o1, s1 := out, status;
      DumpBlock([f.numparams]);
      WroteBoth(o0, s0, [f.nups], o1, s1, [f.numparams], out, status);
      o1, s1 := out, status;
      DumpBlock([f.isVararg]);
      WroteBoth(o0, s0, [f.nups] + [f.numparams], o1, s1, [f.isVararg], out, status);
      o1, s1 := out, status;
      DumpBlock([f.maxstacksize]);
      WroteBoth(o0, s0, [f.nups] + [f.numparams] + [f.isVararg], o1, s1, [f.maxstacksize], out, status);
      assert [f.nups] + [f.numparams] + [f.isVararg] + [f.maxstacksize] ==
        [f.nups, f.numparams, f.isVararg, f.maxstacksize];
    }

    // `DumpFunction`
    method DumpFunction(f: Proto, parent: Option<Bytes>)
      modifies this
      ensures Wrote(old(out), old(status), ChunkFormat.DumpFunction(f, parent, strip), out, status)
      decreases f, 1
    {
      hide Wrote, DumpInt, ChunkFormat.DumpPrefix, DumpProtos, ChunkFormat.DumpDebug;
      ghost var o0, s0 := out, status;
      DumpPrefix(f, parent);
      ghost var o1, s1 := out, status;
      ghost var done := ChunkFormat.DumpPrefix(f, parent, strip);
      DumpBlock(DumpInt(|f.p|));
      WroteBoth(o0, s0, done, o1, s1, DumpInt(|f.p|), out, status);
      o1, s1, done := out, status, done + DumpInt(|f.p|);
      DumpInner(f);
      WroteBoth(o0, s0, done, o1, s1, DumpProtos(f, 0, strip), out, status);
      o1, s1, done := out, status, done + DumpProtos(f, 0, strip);
      DumpDebug(f);
      WroteBoth(o0, s0, done, o1, s1, ChunkFormat.DumpDebug(f, strip), out, status);
    }

    // The inner functions
    method DumpInner(f: Proto)
      modifies this
      ensures Wrote(old(out), old(status), DumpProtos(f, 0, strip), out, status)
      decreases f, 0
    {
      hide Wrote, ChunkFormat.DumpFunction;
      ghost var o0, s0 := out, status;
      WroteNothing(o0, s0);
      var i := 0;
      ghost var done := [];
      while i < |f.p|
        invariant 0 <= i <= |f.p| && Wrote(o0, s0, done, out, status)
        invariant done + DumpProtos(f, i, strip) == DumpProtos(f, 0, strip)
      {
        ghost var o1, s1 := out, status;
        DumpFunction(f.p[i], f.source);
        WroteBoth(o0, s0, done, o1, s1, ChunkFormat.DumpFunction(f.p[i], f.source, strip), out, status);
        assert done + DumpProtos(f, i, strip) ==
          done + ChunkFormat.DumpFunction(f.p[i], f.source, strip) + DumpProtos(f, i + 1, strip);
        done := done + ChunkFormat.DumpFunction(f.p[i], f.source, strip);
        i := i + 1;
      }
      assert done + [] == done;
    }

    // `luaU_dump`: with status 0 the whole chunk is written, and else a part of it from its beginning.
    method Dump(f: Proto, header: Bytes)
      requires out == [] && status == 0
      modifies this
      ensures out <= ChunkRoundTrip.Dump(f, header, strip)
      ensures status == 0 ==> out == ChunkRoundTrip.Dump(f, header, strip)
    {
      DumpBlock(header);
      ghost var o1, s1 := out, status;
      DumpFunction(f, None);
      WroteBoth([], 0, header, o1, s1, ChunkFormat.DumpFunction(f, None, strip), out, status);
    }
  }
}
