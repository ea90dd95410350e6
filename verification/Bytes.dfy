/** Little-endian integers over bytes. */
module Bytes {

  type byte = b: int | 0 <= b < 256

  function Pow256(w: nat): (p: nat)
    ensures p > 0
  {
    if w == 0 then 1 else 256 * Pow256(w - 1)
  }

  /** `to_le_bytes` on `w` bytes. */
  function ToLe(n: nat, w: nat): (s: seq<byte>)
    ensures |s| == w
  {
    if w == 0 then [] else [n % 256] + ToLe(n / 256, w - 1)
  }

  lemma {:induction false} DivideTwice(n: nat, i: nat)
    ensures n / 256 / Pow256(i) == n / (256 * Pow256(i))
  {
    var p := Pow256(i);
    var q, r := n / 256 / p, n / 256 % p;
    assert n / 256 == p * q + r;
    var low := n % 256;
    assert n == 256 * (p * q + r) + low;
    Regroup(p, q, r, low);
    Quotient(n, 256 * p, q, 256 * r + low);
  }

  lemma Regroup(p: nat, q: nat, r: nat, low: nat)
    ensures 256 * (p * q + r) + low == 256 * p * q + (256 * r + low)
  {}

  lemma Quotient(n: nat, d: nat, q: nat, r: nat)
    requires n == d * q + r && r < d
    ensures n / d == q
  {
    var e := n / d - q;
    assert n == d * (n / d) + n % d;
    assert d * e == d * (n / d) - d * q;
    Multiple(d, e);
  }

  lemma Multiple(d: int, e: int)
    requires d >= 0
    ensures e >= 1 ==> d * e >= d
    ensures e <= -1 ==> d * e <= 0 - d
  {
    if e >= 1 {
      assert d * e == d * (e - 1) + d;
    } else if e <= -1 {
      assert d * e == -(d * (-e - 1)) - d;
    }
  }

  /** The byte of weight `256 ^ i` stands at position `i`. */
  lemma {:induction false} LeByte(n: nat, w: nat, i: nat)
    requires i < w
    ensures ToLe(n, w)[i] == n / Pow256(i) % 256
  {
    if i > 0 {
      LeByte(n / 256, w - 1, i - 1);
      DivideTwice(n, i - 1);
    }
  }

  /** `from_le_bytes`. */
  function FromLe(s: seq<byte>): (n: nat)
  {
    if |s| == 0 then 0 else s[0] + 256 * FromLe(s[1..])
  }

  lemma {:induction false} FromLeBounded(s: seq<byte>)
    ensures FromLe(s) < Pow256(|s|)
  {
    if |s| > 0 {
      FromLeBounded(s[1..]);
    }
  }

  lemma {:induction false} LeRoundTrip(n: nat, w: nat)
    requires n < Pow256(w)
    ensures FromLe(ToLe(n, w)) == n
  {
    if w > 0 {
      LeRoundTrip(n / 256, w - 1);
      assert ToLe(n, w)[1..] == ToLe(n / 256, w - 1);
    }
  }

  lemma LowByte(low: byte, high: nat)
    ensures (low + 256 * high) % 256 == low && (low + 256 * high) / 256 == high
  {}

  lemma {:induction false} LeOfFromLe(s: seq<byte>)
    ensures ToLe(FromLe(s), |s|) == s
  {
    if |s| > 0 {
      LeOfFromLe(s[1..]);
      LowByte(s[0], FromLe(s[1..]));
      assert s == [s[0]] + s[1..];
    }
  }

  const U32_LIMIT: nat := 0x1_0000_0000
  const U64_LIMIT: nat := 0x1_0000_0000_0000_0000

  lemma WordLimits()
    ensures Pow256(4) == U32_LIMIT && Pow256(8) == U64_LIMIT
  {
    assert Pow256(3) == 0x100_0000;
    assert Pow256(4) == 256 * Pow256(3);
    assert Pow256(6) == 256 * 256 * Pow256(4);
    assert Pow256(8) == 256 * 256 * Pow256(6);
  }

  /** The second of three parts laid end to end, and the third. */
  lemma Parts(b: seq<byte>, x: seq<byte>, y: seq<byte>, z: seq<byte>)
    requires b == x + (y + z)
    ensures |b| == |x| + |y| + |z|
    ensures b[|x|..|x| + |y|] == y && b[|x| + |y|..] == z
  {}

  /** The same inside a suffix. */
  lemma PartsFrom(b: seq<byte>, at: nat, y: seq<byte>, z: seq<byte>)
    requires at <= |b| && b[at..] == y + z
    ensures |b| == at + |y| + |z|
    ensures b[at..at + |y|] == y && b[at + |y|..] == z
  {
    Parts(b, b[..at], y, z);
  }
}
