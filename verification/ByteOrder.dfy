/** Integers as big-endian byte strings, and strings as ASCII bytes. */
module ByteOrder {
  import opened Primitives
  import ShareArithmetic

  function Pow256(n: nat): (p: nat)
    ensures p > 0
  {
    if n == 0 then 1 else 256 * Pow256(n - 1)
  }

  /** `to_be_bytes` for a `len`-byte integer. */
  function BigEndian(x: nat, len: nat): (bs: Bytes)
    ensures |bs| == len
  {
    if len == 0 then [] else BigEndian(x / 256, len - 1) + [x % 256]
  }

  function FromBigEndian(bs: Bytes): nat {
    if bs == [] then 0 else FromBigEndian(bs[..|bs| - 1]) * 256 + bs[|bs| - 1]
  }

  lemma {:induction false} BigEndianRoundTrip(x: nat, len: nat)
    requires x < Pow256(len)
    ensures FromBigEndian(BigEndian(x, len)) == x
  {
    if len > 0 {
      BigEndianRoundTrip(x / 256, len - 1);
      var bs := BigEndian(x, len);
      assert bs[..len - 1] == BigEndian(x / 256, len - 1) && bs[len - 1] == x % 256;
    }
  }

  lemma {:induction false} FromBigEndianRoundTrip(bs: Bytes)
    ensures BigEndian(FromBigEndian(bs), |bs|) == bs
  {
    if bs != [] {
      var front, last: nat := bs[..|bs| - 1], bs[|bs| - 1];
      FromBigEndianRoundTrip(front);
      assert (FromBigEndian(front) * 256 + last) / 256 == FromBigEndian(front);
      assert bs == front + [last];
    }
  }

  lemma DivideTwice(x: nat, m: nat)
    requires m > 0
    ensures x / 256 / m == x / (256 * m)
  {
    var q := x / 256 / m;
    var r := x / 256 - m * q;
    assert x == 256 * (m * q + r) + x % 256 && 0 <= r < m;
    assert x == (256 * m) * q + (256 * r + x % 256) by { assert 256 * (m * q) == (256 * m) * q; }
    assert (256 * m) * (q + 1) == (256 * m) * q + 256 * m;
    ShareArithmetic.QuotientUnique(x, 256 * m, q);
  }

  /** Byte `i` has the weight 256^(len - 1 - i): the first byte is the most significant one. */
  lemma {:induction false} BigEndianAt(x: nat, len: nat, i: nat)
    requires i < len
    ensures BigEndian(x, len)[i] == x / Pow256(len - 1 - i) % 256
  {
    if i < len - 1 {
      BigEndianAt(x / 256, len - 1, i);
      DivideTwice(x, Pow256(len - 2 - i));
    }
  }

  /** Joining disjoint bits is concatenation. */
  lemma {:induction false} BigEndianJoins(high: nat, low: nat, m: nat, n: nat)
    requires low < Pow256(n)
    ensures BigEndian(high * Pow256(n) + low, m + n) == BigEndian(high, m) + BigEndian(low, n)
    decreases n
  {
    if n == 0 {
      assert BigEndian(low, 0) == [];
    } else {
      var p, x := Pow256(n - 1), high * Pow256(n) + low;
      assert x == 256 * (high * p + low / 256) + low % 256 by { assert high * (256 * p) == 256 * (high * p); }
      BigEndianJoins(high, low / 256, m, n - 1);
      assert x / 256 == high * p + low / 256 && x % 256 == low % 256;
    }
  }

  lemma WordSizes()
    ensures Pow256(8) == U64_MAX + 1
    ensures Pow256(32) == U256_MAX + 1
    ensures Pow256(30) == 0x1_0000_0000_0000_0000_0000_0000_0000_0000_0000_0000_0000_0000_0000_0000_0000
  {
    assert Pow256(4) == 0x1_0000_0000;
    assert Pow256(8) == 0x1_0000_0000_0000_0000;
    assert Pow256(16) == 0x1_0000_0000_0000_0000_0000_0000_0000_0000;
    assert Pow256(24) == 0x1_0000_0000_0000_0000_0000_0000_0000_0000_0000_0000_0000_0000;
  }

  /** The bytes of an ASCII string. */
  function Ascii(s: string): (bs: Bytes)
    ensures |bs| == |s|
  {
    seq(|s|, i requires 0 <= i < |s| => (s[i] as int) % 256)
  }
}
