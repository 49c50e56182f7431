/** Bytes and big-endian numerals, the common ground of every codec in the wallet. */
module Bytes {
  type byte = n: nat | n < 256

  const TWO_48: nat := 0x1_0000_0000_0000
  const TWO_63: nat := 0x8000_0000_0000_0000
  const TWO_64: nat := 0x1_0000_0000_0000_0000
  const TWO_160: nat := 0x1_0000000000_0000000000_0000000000_0000000000
  const TWO_256: nat := 0x1_0000000000000000_0000000000000000_0000000000000000_0000000000000000

  /** Go's `int64`; `Int64(n)` is the conversion that keeps the low 64 bits of a word. */
  type int64 = n: int | -0x8000_0000_0000_0000 <= n < 0x8000_0000_0000_0000

  function Int64(n: nat): int64 {
    var low := n % TWO_64;
    if low < TWO_63 then low else low - TWO_64
  }

  function Pow(base: nat, k: nat): nat {
    if k == 0 then 1 else base * Pow(base, k - 1)
  }

  lemma {:induction false} PowSum(base: nat, j: nat, k: nat)
    ensures Pow(base, j + k) == Pow(base, j) * Pow(base, k)
  {
    if j == 0 {
    } else {
      PowSum(base, j - 1, k);
      assert base * Pow(base, j - 1) * Pow(base, k) == base * (Pow(base, j - 1) * Pow(base, k));
    }
  }

  lemma PowFacts()
    ensures Pow(256, 32) == TWO_256
    ensures Pow(16, 40) == TWO_160
  {
    assert Pow(256, 4) == 0x1_0000_0000;
    PowSum(256, 4, 4);
    PowSum(256, 8, 8);
    PowSum(256, 16, 16);
    assert Pow(16, 5) == 0x10_0000;
    PowSum(16, 5, 5);
    PowSum(16, 10, 10);
    PowSum(16, 20, 20);
  }

  /** The low `width` bytes of `n`, most significant first. */
  function ToBE(n: nat, width: nat): (b: seq<byte>)
    ensures |b| == width
  {
    if width == 0 then [] else ToBE(n / 256, width - 1) + [n % 256]
  }

  function FromBE(b: seq<byte>): nat {
    if b == [] then 0 else 256 * FromBE(b[..|b| - 1]) + b[|b| - 1]
  }

  lemma FromBESnoc(b: seq<byte>, last: byte)
    ensures FromBE(b + [last]) == 256 * FromBE(b) + last
  {
    assert (b + [last])[..|b|] == b;
  }

  lemma {:induction false} FromToBE(n: nat, width: nat)
    requires n < Pow(256, width)
    ensures FromBE(ToBE(n, width)) == n
  {
    if width == 0 {
    } else {
      FromToBE(n / 256, width - 1);
      FromBESnoc(ToBE(n / 256, width - 1), n % 256);
    }
  }

  lemma {:induction false} FromBEBound(b: seq<byte>)
    ensures FromBE(b) < Pow(256, |b|)
  {
    if b == [] {
    } else {
      FromBEBound(b[..|b| - 1]);
    }
  }

  lemma WordRoundTrip(n: nat)
    requires n < TWO_256
    ensures FromBE(ToBE(n, 32)) == n
  {
    PowFacts();
    FromToBE(n, 32);
  }

  lemma {:induction false} ToFromBE(b: seq<byte>)
    ensures ToBE(FromBE(b), |b|) == b
  {
    if b == [] {
    } else {
      ToFromBE(b[..|b| - 1]);
    }
  }

  lemma WordFromBytes(b: seq<byte>)
    requires |b| == 32
    ensures FromBE(b) < TWO_256 && ToBE(FromBE(b), 32) == b
  {
    PowFacts();
    FromBEBound(b);
    ToFromBE(b);
  }
}
