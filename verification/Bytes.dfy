/**
 * Bytes, big-endian integers and slices.
 */
module Bytes {

  type byte = b: int | 0 <= b < 256

  type Bytes = seq<byte>

  datatype Option<+T> = None | Some(value: T)

  function Pow256(k: nat): (p: nat)
    ensures p >= 1
  {
    if k == 0 then 1 else 256 * Pow256(k - 1)
  }

  /** struct.pack of an unsigned integer, most significant byte first. */
  function BigEndian(n: nat, width: nat): (s: Bytes)
    ensures |s| == width
  {
    if width == 0 then [] else BigEndian(n / 256, width - 1) + [n % 256]
  }

  function FromBigEndian(s: Bytes): nat {
    if s == [] then 0 else 256 * FromBigEndian(s[..|s| - 1]) + s[|s| - 1]
  }

  lemma {:induction false} PackUnpack(n: nat, width: nat)
    requires n < Pow256(width)
    ensures FromBigEndian(BigEndian(n, width)) == n
  {
    if width > 0 {
      PackUnpack(n / 256, width - 1);
      assert BigEndian(n, width)[..width - 1] == BigEndian(n / 256, width - 1);
    }
  }

  lemma {:induction false} UnpackPack(s: Bytes)
    ensures FromBigEndian(s) < Pow256(|s|) && BigEndian(FromBigEndian(s), |s|) == s
  {
    if s != [] {
      var n := FromBigEndian(s[..|s| - 1]);
      UnpackPack(s[..|s| - 1]);
      assert (256 * n + s[|s| - 1]) / 256 == n && (256 * n + s[|s| - 1]) % 256 == s[|s| - 1];
    }
  }

  lemma PackInjective(m: nat, n: nat, width: nat)
    requires m < Pow256(width) && n < Pow256(width) && BigEndian(m, width) == BigEndian(n, width)
    ensures m == n
  {
    PackUnpack(m, width);
    PackUnpack(n, width);
  }

  /** Byte k of the packed integer is what shifting right by 8 * (width - 1 - k) bits and truncating gives. */
  lemma {:induction false} PackedByte(n: nat, width: nat, k: nat)
    requires k < width
    ensures BigEndian(n, width)[k] == n / Pow256(width - 1 - k) % 256
  {
    if k < width - 1 {
      PackedByte(n / 256, width - 1, k);
      DivDiv(n, Pow256(width - 2 - k));
    }
  }

  lemma DivDiv(n: nat, b: nat)
    requires b > 0
    ensures n / 256 / b == n / (256 * b)
  {
    var q, r := n / 256 / b, n / 256 % b;
    var m := b * q;
    assert n / 256 == m + r;
    assert n == 256 * m + (256 * r + n % 256);
    MulAssociates(256, b, q);
    DivUnique(n, 256 * b, q, 256 * r + n % 256);
  }

  lemma MulAssociates(a: nat, b: nat, c: nat)
    ensures a * b * c == a * (b * c)
  {
  }

  lemma DivUnique(n: nat, d: nat, q: nat, r: nat)
    requires d > 0 && n == d * q + r && r < d
    ensures n / d == q
  {
    var k := n / d;
    assert n == d * k + n % d;
    if k < q { MulMonotone(d, k + 1, q); }
    if k > q { MulMonotone(d, q + 1, k); }
  }

  lemma MulMonotone(d: nat, a: nat, b: nat)
    requires a <= b
    ensures d * a <= d * b
  {
  }

  function U16(n: nat): (s: Bytes)
    ensures |s| == 2
  {
    [n / 256 % 256, n % 256]
  }

  /** (hi << 8) | lo. */
  function ReadU16(hi: byte, lo: byte): nat { 256 * (hi as int) + (lo as int) }

  function U64(n: nat): (s: Bytes)
    ensures |s| == 8
  {
    BigEndian(n, 8)
  }

  const TWO64: nat := 0x1_0000_0000_0000_0000

  lemma Pow256Values()
    ensures Pow256(2) == 0x1_0000 && Pow256(8) == TWO64
  {
    assert Pow256(1) == 256;
    assert Pow256(2) == 256 * 256;
    assert Pow256(3) == 256 * Pow256(2);
    assert Pow256(4) == 256 * Pow256(3);
    assert Pow256(5) == 256 * Pow256(4);
    assert Pow256(6) == 256 * Pow256(5);
    assert Pow256(7) == 256 * Pow256(6);
  }

  lemma U64Injective(m: nat, n: nat)
    requires m < TWO64 && n < TWO64 && U64(m) == U64(n)
    ensures m == n
  {
    Pow256Values();
    PackInjective(m, n, 8);
  }

  lemma U64RoundTrip(n: nat)
    requires n < TWO64
    ensures FromBigEndian(U64(n)) == n
  {
    Pow256Values();
    PackUnpack(n, 8);
  }

  /** s[at..at+len] for a slice known to fit. */
  function Slice(s: Bytes, at: nat, len: nat): (r: Bytes)
    requires at + len <= |s|
    ensures |r| == len
  {
    s[at..at + len]
  }

  /** memcpy into a buffer. */
  method CopyInto(dst: array<byte>, at: nat, src: Bytes)
    requires at + |src| <= dst.Length
    modifies dst
    ensures dst[..] == old(dst[..at]) + src + old(dst[at + |src|..])
  {
    for k := 0 to |src|
      invariant dst[at..at + k] == src[..k]
      invariant dst[..at] == old(dst[..at]) && dst[at + |src|..] == old(dst[at + |src|..])
    {
      dst[at + k] := src[k];
      assert dst[at..at + k + 1] == dst[at..at + k] + [src[k]];
    }
    assert dst[..] == dst[..at] + dst[at..at + |src|] + dst[at + |src|..];
  }
}
