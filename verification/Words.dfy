/**
 Bytes, and numbers as their bytes, the lowest first.
 */
module Words {
  import opened Powers

  type Byte = x: int | 0 <= x < 256

  type Bytes = seq<Byte>

  // The `w` low bytes of a number
  function Word(x: nat, w: nat): (bs: Bytes)
    ensures |bs| == w
    decreases w
  {
    if w == 0 then [] else [x % 256] + Word(x / 256, w - 1)
  }

  function WordOf(bs: Bytes): nat {
    if bs == [] then 0 else bs[0] + 256 * WordOf(bs[1..])
  }

  lemma {:induction false} WordBack(x: nat, w: nat)
    requires x < Pow256(w)
    ensures WordOf(Word(x, w)) == x
    decreases w
  {
    if w > 0 {
      assert Word(x, w)[1..] == Word(x / 256, w - 1);
      assert x / 256 < Pow256(w - 1);
      WordBack(x / 256, w - 1);
    }
  }

  // A number and another one above it
  lemma {:induction false} WordSplits(x: nat, y: nat, w: nat, k: nat)
    requires x < Pow256(w)
    ensures Word(x + Pow256(w) * y, w + k) == Word(x, w) + Word(y, k)
    decreases w
  {
    if w == 0 {
      assert Word(x, 0) + Word(y, k) == Word(y, k);
    } else {
      var q := Pow256(w - 1) * y;
      assert Pow256(w) * y == 256 * q;
      assert (x + 256 * q) % 256 == x % 256 && (x + 256 * q) / 256 == x / 256 + q;
      WordSplits(x / 256, y, w - 1, k);
    }
  }
}
