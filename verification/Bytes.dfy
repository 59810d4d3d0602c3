/** Bytes and little-endian integers. */
module Bytes {

  newtype byte = x: int | 0 <= x < 256

  type Bytes = seq<byte>

  function Pow256(width: nat): nat {
    if width == 0 then 1 else 256 * Pow256(width - 1)
  }

  /** The low `width` bytes of n: a store through an unsigned integer pointer of that width. */
  function LittleEndian(n: nat, width: nat): (b: Bytes)
    ensures |b| == width
  {
    if width == 0 then [] else [(n % 256) as byte] + LittleEndian(n / 256, width - 1)
  }

  function FromLittleEndian(b: Bytes): nat {
    if b == [] then 0 else b[0] as nat + 256 * FromLittleEndian(b[1..])
  }

  lemma {:induction false} LittleEndianRoundTrip(n: nat, width: nat)
    ensures Pow256(width) > 0 && FromLittleEndian(LittleEndian(n, width)) == n % Pow256(width)
  {
    if width > 0 {
      LittleEndianRoundTrip(n / 256, width - 1);
      var p := Pow256(width - 1);
      assert LittleEndian(n, width)[1..] == LittleEndian(n / 256, width - 1);
      SplitModulo(n, p);
    }
  }

  lemma SplitModulo(n: nat, p: nat)
    requires p > 0
    ensures n % 256 + 256 * ((n / 256) % p) == n % (256 * p)
  {
    var h := n / 256;
    var r := n % 256 + 256 * (h % p);
    var q := h / p;
    assert h == q * p + h % p;
    assert n == 256 * h + n % 256;
    assert n == q * (256 * p) + r by {
      assert 256 * (q * p) == q * (256 * p);
    }
    assert 0 <= r < 256 * p by {
      assert h % p <= p - 1;
    }
    DivisionIsUnique(n, 256 * p, q, r);
  }

  lemma DivisionIsUnique(n: nat, d: nat, q: nat, r: nat)
    requires d > 0 && n == q * d + r && r < d
    ensures n % d == r && n / d == q
  {
    var k := q - n / d;
    assert k * d == n % d - r;
    MultipleOutside(k, d);
  }

  lemma MultipleOutside(k: int, d: int)
    requires d > 0
    ensures 0 < k ==> d <= k * d
    ensures k < 0 ==> k * d <= -d
  {}

  /** Splitting a concatenation at the seam. */
  lemma Seam(a: Bytes, b: Bytes)
    ensures (a + b)[..|a|] == a && (a + b)[|a|..] == b
  {}
}
