/**
 MD5 as it is fed: buffering, counting and padding, see md5.c. The function that takes in one
 block of 64 bytes is a parameter.
 */
module Md5 {
  import opened Powers
  import opened Words

  datatype State = State(a: nat, b: nat, c: nat, d: nat)

  type Transform = (State, Bytes) -> State

  const BLOCK := 64
  const WORD := 0x1_0000_0000
  const INIT := State(0x67452301, 0xefcdab89, 0x98badcfe, 0x10325476)

  // The state after whole blocks
  function Fold(f: Transform, s: State, bs: Bytes): State
    decreases |bs|
  {
    if |bs| < BLOCK then s else Fold(f, f(s, bs[..BLOCK]), bs[BLOCK..])
  }

  lemma {:induction false} FoldAppend(f: Transform, s: State, a: Bytes, b: Bytes)
    requires |a| % BLOCK == 0
    ensures Fold(f, s, a + b) == Fold(f, Fold(f, s, a), b)
    decreases |a|
  {
    if a == [] {
      assert a + b == b;
    } else {
      assert (a + b)[..BLOCK] == a[..BLOCK] && (a + b)[BLOCK..] == a[BLOCK..] + b;
      FoldAppend(f, f(s, a[..BLOCK]), a[BLOCK..], b);
    }
  }

  // ----- the bit count, in two words -----

  function CountOf(count0: nat, count1: nat): nat {
    count0 + WORD * count1
  }

  // `inputBytes << 3` in a `size_t` of 32 or 64 bits
  function Shifted(n: nat, wide: bool): nat {
    if wide then 8 * n % (WORD * WORD) else 8 * n % WORD
  }

  // The two words after `MD5Update` has counted `n` bytes
  function Counted0(count0: nat, n: nat, wide: bool): nat {
    (count0 + Shifted(n, wide)) % WORD
  }

  function Counted1(count0: nat, count1: nat, n: nat, wide: bool): nat {
    var carry := if Counted0(count0, n, wide) < Shifted(n, wide) then 1 else 0;
    (count1 + carry + n / 0x2000_0000) % WORD
  }

  // The test for the carry is right except for 2^29 bytes or more at once, with a wide
  // `size_t`, where it always sees a carry.
  lemma CountIsRight(count0: nat, count1: nat, n: nat, wide: bool)
    requires count0 < WORD && count1 < WORD && n < WORD
    ensures Counted0(count0, n, wide) == (count0 + 8 * n) % WORD
    ensures CountOf(Counted0(count0, n, wide), Counted1(count0, count1, n, wide)) ==
      (CountOf(count0, count1) + 8 * n) % (WORD * WORD)
      <==> !wide || n < 0x2000_0000 || count0 + 8 * n % WORD >= WORD
  {
    var low, high := 8 * n % WORD, n / 0x2000_0000;
    var carry := if count0 + low >= WORD then 1 else 0;
    LowAndHigh(count0, n, low, high, carry);
    TwoWords(count0 + low - WORD * carry, count1 + carry + high);
    SeesCarry(count0, n, wide, low, carry);
    assert CountOf(count0, count1) + 8 * n == (count0 + low - WORD * carry) + WORD * (count1 + carry + high);
    if wide && n >= 0x2000_0000 && carry == 0 {
      OneOff(count1 + high);
    }
  }

  // The carries too many when `n` bytes are counted after `length`: none, or one
  function Excess(length: nat, n: nat, wide: bool): nat {
    if wide && n >= 0x2000_0000 && 8 * length % WORD + 8 * n % WORD < WORD then 1 else 0
  }

  // The count of the bits of `length` bytes, with `extra` carries too many
  function BitCount(length: nat, extra: nat): nat {
    (8 * length + WORD * extra) % (WORD * WORD)
  }

  // What `MD5Update` makes of the count
  lemma CountGoes(count0: nat, count1: nat, length: nat, extra: nat, n: nat, wide: bool)
    requires count0 < WORD && count1 < WORD && n < WORD && CountOf(count0, count1) == BitCount(length, extra)
    ensures CountOf(Counted0(count0, n, wide), Counted1(count0, count1, n, wide)) ==
      BitCount(length + n, extra + Excess(length, n, wide))
  {
    var low, high, more := 8 * n % WORD, n / 0x2000_0000, Excess(length, n, wide);
    var carry := if count0 + low >= WORD then 1 else 0;
    LowWord(count0, count1, length, extra);
    LowAndHigh(count0, n, low, high, carry);
    SeesCarry(count0, n, wide, low, carry);
    TwoWords(count0 + low - WORD * carry, count1 + carry + more + high);
    MoreBits(length, extra, n, more);
  }

  lemma LowWord(count0: nat, count1: nat, length: nat, extra: nat)
    requires count0 < WORD && CountOf(count0, count1) == BitCount(length, extra)
    ensures count0 == 8 * length % WORD
  {
    var x := 8 * length + WORD * extra;
    var q := x / (WORD * WORD);
    assert x == BitCount(length, extra) + WORD * (WORD * q);
    Remainder(8 * length, WORD, count0, count1 + WORD * q - extra);
  }

  lemma Remainder(x: nat, y: nat, r: nat, q: int)
    requires y > r && x == r + y * q
    ensures x % y == r
  {
    Multiple(y, q - x / y);
  }

  lemma Multiple(y: nat, d: int)
    ensures d > 0 ==> y * d >= y
    ensures d < 0 ==> y * d <= -1 * y
  {
  }

  lemma MoreBits(length: nat, extra: nat, n: nat, more: nat)
    ensures BitCount(length + n, extra + more) == (BitCount(length, extra) + 8 * n + WORD * more) % (WORD * WORD)
  {
  }

  // What the test for the carry sees
  lemma SeesCarry(count0: nat, n: nat, wide: bool, low: nat, carry: nat)
    requires count0 < WORD && n < WORD && low == 8 * n % WORD && carry == if count0 + low >= WORD then 1 else 0
    ensures Counted0(count0, n, wide) == count0 + low - WORD * carry
    ensures (Counted0(count0, n, wide) < Shifted(n, wide)) == if wide && n >= 0x2000_0000 then true else carry == 1
  {
    LowAndHigh(count0, n, low, n / 0x2000_0000, carry);
  }

  lemma LowAndHigh(count0: nat, n: nat, low: nat, high: nat, carry: nat)
    requires count0 < WORD && n < WORD && low == 8 * n % WORD && high == n / 0x2000_0000
    requires carry == if count0 + low >= WORD then 1 else 0
    ensures 8 * n == low + WORD * high && (n < 0x2000_0000 ==> high == 0)
    ensures (count0 + low) % WORD == count0 + low - WORD * carry == (count0 + 8 * n) % WORD
    ensures 8 * n < WORD * WORD
  {
  }

  lemma TwoWords(low: nat, sum: nat)
    requires low < WORD
    ensures (low + WORD * sum) % (WORD * WORD) == low + WORD * (sum % WORD)
  {
    var q := sum / WORD;
    assert sum == sum % WORD + WORD * q;
    assert low + WORD * sum == low + WORD * (sum % WORD) + (WORD * WORD) * q;
  }

  lemma OneOff(x: nat)
    ensures (x + 1) % WORD != x % WORD
  {
  }

  // ----- the message, padded -----

  function Zeros(n: nat): (z: Bytes)
    ensures |z| == n
  {
    seq(n, _ => 0)
  }

  // Section 3.1 of RFC 1321: from 1 to 64 bytes, a one bit and zeros
  function PadLength(n: nat): nat {
    (if n % BLOCK < 56 then 56 else 120) - n % BLOCK
  }

  // Eight bytes more fill a block.
  predicate RoomForCount(n: nat) {
    n % BLOCK == 56
  }

  lemma PadIsLeast(n: nat)
    ensures 1 <= PadLength(n) <= BLOCK && RoomForCount(n + PadLength(n))
    ensures forall t :: n < t < n + PadLength(n) ==> !RoomForCount(t)
  {
  }

  // Sections 3.1 and 3.2 of RFC 1321, with carries too many in the count
  function PaddedWith(m: Bytes, extra: nat): Bytes {
    m + ([0x80] + Zeros(PadLength(|m|) - 1)) + Word(BitCount(|m|, extra), 8)
  }

  // With none, the count is the 64 low bits of the length in bits.
  function Padded(m: Bytes): Bytes {
    m + ([0x80] + Zeros(PadLength(|m|) - 1)) + Word(8 * |m| % (WORD * WORD), 8)
  }

  // What is hashed is the padded message exactly when the carries too many make whole turns.
  lemma PaddedRight(m: Bytes, extra: nat)
    ensures PaddedWith(m, extra) == Padded(m) <==> extra % WORD == 0
  {
    hide Pow256, Word;
    var a, b := BitCount(|m|, extra), 8 * |m| % (WORD * WORD);
    Pow256Four();
    Pow256Eight();
    Turns(8 * |m|, extra);
    if PaddedWith(m, extra) == Padded(m) {
      var k := |m| + PadLength(|m|);
      assert PaddedWith(m, extra)[k..] == Word(a, 8) && Padded(m)[k..] == Word(b, 8);
      WordBack(a, 8);
      WordBack(b, 8);
    }
  }

  lemma Turns(bits: nat, extra: nat)
    ensures (bits + WORD * extra) % (WORD * WORD) == bits % (WORD * WORD) <==> extra % WORD == 0
  {
    var x := extra % WORD;
    var q := extra / WORD;
    assert WORD * extra == WORD * x + (WORD * WORD) * q;
  }

  // A single update with 2^29 bytes: the length that is hashed is too large by 2^32.
  lemma LargeUpdateGoesWrong(m: Bytes)
    requires |m| == 0x2000_0000
    ensures Excess(0, |m|, true) == 1 && PaddedWith(m, Excess(0, |m|, true)) != Padded(m)
  {
    PaddedRight(m, 1);
  }

  function DigestOf(s: State): Bytes {
    Word(s.a, 4) + Word(s.b, 4) + Word(s.c, 4) + Word(s.d, 4)
  }

  // Section 3.5 of RFC 1321, for the transformation of a block
  function Digest(f: Transform, m: Bytes): Bytes {
    DigestOf(Fold(f, INIT, Padded(m)))
  }

  function DigestWith(f: Transform, m: Bytes, extra: nat): Bytes {
    DigestOf(Fold(f, INIT, PaddedWith(m, extra)))
  }

  // The whole blocks of a message, and the rest
  function Whole(m: Bytes): Bytes {
    m[..|m| / BLOCK * BLOCK]
  }

  function Left(m: Bytes): (r: Bytes)
    ensures |r| == |m| % BLOCK
  {
    m[|m| / BLOCK * BLOCK..]
  }

  // Taking in more when it fills the buffer
  lemma Filled(f: Transform, m: Bytes, input: Bytes, part: nat, len: nat)
    requires part == BLOCK - |m| % BLOCK <= |input| && len == (|input| - part) / BLOCK
    ensures part + BLOCK * len <= |input| && (|m| + |input|) % BLOCK == |input| - (part + BLOCK * len)
    ensures Left(m + input) == input[part + BLOCK * len..]
    ensures Fold(f, INIT, Whole(m + input)) ==
      Fold(f, Fold(f, Fold(f, INIT, Whole(m)), Left(m) + input[..part]), input[part..part + BLOCK * len])
  {
    var all, i := m + input, part + BLOCK * len;
    var first, more := Left(m) + input[..part], input[part..i];
    assert |all| / BLOCK * BLOCK == |m| + i;
    assert Whole(all) == Whole(m) + (first + more);
    FoldAppend(f, INIT, Whole(m), first + more);
    FoldAppend(f, Fold(f, INIT, Whole(m)), first, more);
  }

  lemma NotFilled(m: Bytes, input: Bytes)
    requires |input| < BLOCK - |m| % BLOCK
    ensures (|m| + |input|) % BLOCK == |m| % BLOCK + |input|
    ensures Left(m + input) == Left(m) + input && Whole(m + input) == Whole(m)
  {
    assert (|m| + |input|) / BLOCK == |m| / BLOCK;
  }

  lemma PaddedWhole(m: Bytes, extra: nat)
    ensures |PaddedWith(m, extra)| % BLOCK == 0 && Whole(PaddedWith(m, extra)) == PaddedWith(m, extra)
  {
    hide PadLength, Word, BitCount;
    PadIsLeast(|m|);
    var t := |m| + PadLength(|m|);
    assert t % BLOCK == 56 && |PaddedWith(m, extra)| == t + 8;
    assert (t + 8) % BLOCK == 0;
  }

  lemma LowBits(n: nat)
    ensures 8 * n % WORD / 8 % BLOCK == n % BLOCK
  {
    var q := 8 * n / WORD;
    var d := n - 0x2000_0000 * q;
    assert 8 * n % WORD == 8 * d;
    Remainder(n, BLOCK, d % BLOCK, d / BLOCK + 0x80_0000 * q);
  }

  lemma IndexOf(count0: nat, count1: nat, n: nat, extra: nat)
    requires count0 < WORD && CountOf(count0, count1) == BitCount(n, extra)
    ensures count0 / 8 % BLOCK == n % BLOCK
  {
    LowWord(count0, count1, n, extra);
    LowBits(n);
  }

  lemma Pow256Four()
    ensures Pow256(4) == WORD
  {
    assert Pow256(2) == 0x1_0000;
  }

  lemma TwoHalves(count0: nat, count1: nat)
    requires count0 < WORD
    ensures Word(count0, 4) + Word(count1, 4) == Word(CountOf(count0, count1), 8)
  {
    hide Pow256, Word;
    Pow256Four();
    WordSplits(count0, count1, 4, 4);
  }

  lemma Pow256Eight()
    ensures Pow256(8) == WORD * WORD
  {
    Pow256Four();
    assert Pow256(6) == 0x1_0000 * WORD;
  }

  function Concat(parts: seq<Bytes>): Bytes {
    if parts == [] then [] else parts[0] + Concat(parts[1..])
  }

  // The carries too many of all updates
  function Excesses(length: nat, parts: seq<Bytes>, wide: bool): nat
    decreases |parts|
  {
    if parts == [] then 0
    else Excess(length, |parts[0]|, wide) + Excesses(length + |parts[0]|, parts[1..], wide)
  }

  // With a narrow `size_t`, or updates below 2^29 bytes, there are none.
  lemma {:induction false} NoExcess(length: nat, parts: seq<Bytes>, wide: bool)
    requires wide ==> forall i :: 0 <= i < |parts| ==> |parts[i]| < 0x2000_0000
    ensures Excesses(length, parts, wide) == 0
    decreases |parts|
  {
    if parts != [] {
      var p := parts[0];
      NoExcess(length + |p|, parts[1..], wide);
    }
  }

  lemma NoParts(length: nat, wide: bool)
    ensures Concat([]) == [] && Excesses(length, [], wide) == 0
  {
  }

  lemma NextPart(length: nat, parts: seq<Bytes>, i: nat, wide: bool)
    requires i < |parts|
    ensures Concat(parts[i..]) == parts[i] + Concat(parts[i + 1..])
    ensures Excesses(length, parts[i..], wide) ==
      Excess(length, |parts[i]|, wide) + Excesses(length + |parts[i]|, parts[i + 1..], wide)
  {
    hide Excess;
    assert parts[i..][1..] == parts[i + 1..];
  }

  // Where they make whole turns, the digest is the one of the message.
  lemma PartsRight(f: Transform, wide: bool, parts: seq<Bytes>)
    ensures Excesses(0, parts, wide) % WORD == 0 ==>
      DigestWith(f, Concat(parts), Excesses(0, parts, wide)) == Digest(f, Concat(parts))
    ensures (!wide || forall i :: 0 <= i < |parts| ==> |parts[i]| < 0x2000_0000) ==> Excesses(0, parts, wide) == 0
  {
    hide PaddedWith, Padded, Excesses, Concat;
    PaddedRight(Concat(parts), Excesses(0, parts, wide));
    if !wide || forall i :: 0 <= i < |parts| ==> |parts[i]| < 0x2000_0000 {
      NoExcess(0, parts, wide);
    }
  }

  class Context {
    const f: Transform
    const wide: bool
    var count0: nat
    var count1: nat
    var state: State
    const buffer: array<Byte>
    ghost var msg: Bytes
    ghost var extra: nat // the carries too many in the count

    // `MD5Init`
    constructor (transform: Transform, sizeIsWide: bool)
      ensures Valid() && msg == [] && extra == 0 && wide == sizeIsWide && f == transform && fresh(buffer)
    {
      f, wide := transform, sizeIsWide;
      count0, count1, state, msg, extra := 0, 0, INIT, [], 0;
      buffer := new Byte[BLOCK];
    }

    // All that is kept but the carries depends on the message alone, not on how it came.
    ghost predicate Valid()
      reads this, buffer
    {
      && buffer.Length == BLOCK && count0 < WORD && count1 < WORD
      && CountOf(count0, count1) == BitCount(|msg|, extra)
      && state == Fold(f, INIT, Whole(msg))
      && buffer[..|msg| % BLOCK] == Left(msg)
    }

    // `__MD5Transform` on `repeat` blocks
    method TransformBlocks(input: Bytes, repeat: nat)
      requires |input| == BLOCK * repeat
      modifies `state
      ensures state == Fold(f, old(state), input)
    {
      var i := 0;
      assert input[0..] == input;
      while i < repeat
        invariant 0 <= i <= repeat && Fold(f, old(state), input) == Fold(f, state, input[BLOCK * i..])
      {
        var rest := input[BLOCK * i..];
        assert rest[BLOCK..] == input[BLOCK * (i + 1)..] && rest[..BLOCK] == input[BLOCK * i..BLOCK * (i + 1)];
        state := f(state, input[BLOCK * i..BLOCK * (i + 1)]);
        i := i + 1;
      }
    }

    // `memcpy` to the buffer
    method Fill(at: nat, bs: Bytes)
      requires at + |bs| <= buffer.Length
      modifies buffer
      ensures buffer[..at] == old(buffer[..at]) && buffer[at..at + |bs|] == bs
    {
      for i := 0 to |bs|
        invariant buffer[..at] == old(buffer[..at])
        invariant forall j :: 0 <= j < i ==> buffer[at + j] == bs[j]
      {
        buffer[at + i] := bs[i];
      }
    }

    // The count in `MD5Update`
    method Count(n: nat)
      requires count0 < WORD && count1 < WORD && n < WORD && CountOf(count0, count1) == BitCount(|msg|, extra)
      modifies `count0, `count1
      ensures count0 < WORD && count1 < WORD
      ensures CountOf(count0, count1) == BitCount(|msg| + n, extra + Excess(|msg|, n, wide))
    {
      CountGoes(count0, count1, |msg|, extra, n, wide);
      count0, count1 := Counted0(count0, n, wide), Counted1(count0, count1, n, wide);
    }

    // `MD5Update`, whose index `i` is an `int`
    method Update(input: Bytes)
      requires Valid() && |input| < 0x8000_0000
      modifies this, buffer
      ensures Valid() && msg == old(msg) + input && extra == old(extra) + Excess(|old(msg)|, |input|, wide)
    {
      hide CountOf, BitCount, Excess;
      var byteIndex := count0 / 8 % BLOCK;
      IndexOf(count0, count1, |msg|, extra);
      Count(|input|);
      Absorb(input, byteIndex);
      extra := extra + Excess(|msg|, |input|, wide);
      msg := msg + input;
    }

    // The whole blocks of the buffer and the input; the bytes from `i` on are left.
    method TransformAll(input: Bytes, index: nat) returns (i: nat)
      requires buffer.Length == BLOCK && index == |msg| % BLOCK && |input| >= BLOCK - index
      requires state == Fold(f, INIT, Whole(msg)) && buffer[..index] == Left(msg)
      modifies `state, buffer
      ensures state == Fold(f, INIT, Whole(msg + input))
      ensures i <= |input| && Left(msg + input) == input[i..] && (|msg| + |input|) % BLOCK == |input| - i
    {
      hide Fold, Whole, Left;
      var partLen := BLOCK - index;
      Fill(index, input[..partLen]);
      assert buffer[..] == buffer[..index] + buffer[index..index + partLen];
      TransformBlocks(buffer[..], 1);
      var len := (|input| - partLen) / BLOCK;
      Filled(f, msg, input, partLen, len);
      i := partLen + BLOCK * len;
      TransformBlocks(input[partLen..i], len);
    }

    // The bytes themselves, in `MD5Update`
    method Absorb(input: Bytes, index: nat)
      requires buffer.Length == BLOCK && index == |msg| % BLOCK
      requires state == Fold(f, INIT, Whole(msg)) && buffer[..index] == Left(msg)
      modifies `state, buffer
      ensures state == Fold(f, INIT, Whole(msg + input))
      ensures buffer[..(|msg| + |input|) % BLOCK] == Left(msg + input)
    {
      hide Fold, Whole, Left;
      var byteIndex, i := index, 0;
      if |input| >= BLOCK - byteIndex {
        i := TransformAll(input, index);
        byteIndex := 0;
      } else {
        NotFilled(msg, input);
      }
      assert byteIndex + |input[i..]| == (|msg| + |input|) % BLOCK;
      FillLast(byteIndex, input[i..]);
    }

    // `memcpy` of what is left
    method FillLast(at: nat, bs: Bytes)
      requires at + |bs| <= buffer.Length
      modifies buffer
      ensures buffer[..at + |bs|] == old(buffer[..at]) + bs
    {
      Fill(at, bs);
      assert buffer[..at + |bs|] == buffer[..at] + buffer[at..at + |bs|];
    }

    // `MD5Final` up to the state of the whole message
    method Pad()
      requires Valid()
      modifies this, buffer
      ensures Valid() && msg == PaddedWith(old(msg), old(extra))
    {
      hide Fold, Whole, Left, Word, Zeros;
      var bits := Word(count0, 4) + Word(count1, 4);
      TwoHalves(count0, count1);
      var byteIndex := count0 / 8 % BLOCK;
      IndexOf(count0, count1, |msg|, extra);
      var finalBlockLength := (if byteIndex < 56 then 56 else 120) - byteIndex;
      Update([0x80] + Zeros(finalBlockLength - 1));
      Update(bits);
    }

    // `MD5Final`: the digest of the message, with the padding and the length that it is to have
    // but for the carries
    method Final() returns (digest: Bytes)
      requires Valid()
      modifies this, buffer
      ensures digest == DigestWith(f, old(msg), old(extra))
      ensures old(extra) == 0 ==> digest == Digest(f, old(msg))
    {
      hide Fold, Whole, DigestOf;
      PaddedWhole(msg, extra);
      PaddedRight(msg, extra);
      Pad();
      digest := DigestOf(state);
      count0, count1, state := 0, 0, State(0, 0, 0, 0);
    }
  }

  // The digest of a message that is cut into updates: how it is cut matters to the count only,
  // and not at all where no update is so large that a wide `size_t` spoils the carry.
  method DigestParts(f: Transform, wide: bool, parts: seq<Bytes>) returns (digest: Bytes)
    requires forall i :: 0 <= i < |parts| ==> |parts[i]| < 0x8000_0000
    ensures digest == DigestWith(f, Concat(parts), Excesses(0, parts, wide))
    ensures Excesses(0, parts, wide) % WORD == 0 ==> digest == Digest(f, Concat(parts))
    ensures (!wide || forall i :: 0 <= i < |parts| ==> |parts[i]| < 0x2000_0000) ==>
      digest == Digest(f, Concat(parts))
  {
    hide Fold, Whole, Left, CountOf, Digest, DigestWith, Excess, Excesses, BitCount, Concat;
    var c := new Context(f, wide);
    assert parts[0..] == parts && [] + Concat(parts) == Concat(parts);
    for i := 0 to |parts|
      invariant c.Valid() && c.f == f && c.wide == wide && fresh(c) && fresh(c.buffer)
      invariant c.msg + Concat(parts[i..]) == Concat(parts)
      invariant c.extra + Excesses(|c.msg|, parts[i..], wide) == Excesses(0, parts, wide)
    {
      NextPart(|c.msg|, parts, i, wide);
      c.Update(parts[i]);
    }
    NoParts(|c.msg|, wide);
    assert parts[|parts|..] == [] && c.msg + [] == c.msg;
    digest := c.Final();
    PartsRight(f, wide, parts);
  }
}
