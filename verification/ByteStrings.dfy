/** Bytes, and numbers written in them most significant first. */
module ByteStrings {
  import opened Words

  type Byte = b: int | 0 <= b < 256

  type Bytes = seq<Byte>

  /** A number in `size` bytes, most significant first. */
  function BigEndian(n: nat, size: nat): (s: Bytes)
    ensures |s| == size
  {
    if size == 0 then [] else BigEndian(n / 256, size - 1) + [n % 256]
  }

  function FromBigEndian(s: Bytes): nat {
    if s == [] then 0 else FromBigEndian(s[..|s|-1]) * 256 + s[|s|-1]
  }

  function Pow256(k: nat): (p: nat)
    ensures p > 0
  {
    if k == 0 then 1 else 256 * Pow256(k - 1)
  }

  lemma {:induction false} BigEndianReads(n: nat, size: nat)
    requires n < Pow256(size)
    ensures FromBigEndian(BigEndian(n, size)) == n
  {
    if size > 0 {
      BigEndianReads(n / 256, size - 1);
      assert BigEndian(n, size)[..size - 1] == BigEndian(n / 256, size - 1);
    }
  }

  lemma {:induction false} FromBelow(s: Bytes)
    ensures FromBigEndian(s) < Pow256(|s|)
  {
    if s != [] {
      FromBelow(s[..|s|-1]);
    }
  }

  lemma {:induction false} FromReads(s: Bytes)
    ensures BigEndian(FromBigEndian(s), |s|) == s
  {
    if s != [] {
      FromReads(s[..|s|-1]);
      assert s == s[..|s|-1] + [s[|s|-1]];
    }
  }

  /** The shortest big-endian form; zero has none. */
  function MinimalBytes(n: nat): Bytes {
    if n == 0 then [] else MinimalBytes(n / 256) + [n % 256]
  }

  function Zeros(k: nat): (s: Bytes)
    ensures |s| == k
  {
    seq(k, _ => 0)
  }

  lemma {:induction false} MinimalFits(n: nat, size: nat)
    requires n < Pow256(size)
    ensures |MinimalBytes(n)| <= size
    ensures Zeros(size - |MinimalBytes(n)|) + MinimalBytes(n) == BigEndian(n, size)
  {
    if size > 0 {
      MinimalFits(n / 256, size - 1);
      if n == 0 {
        assert BigEndian(0, size - 1) == Zeros(size - 1);
        assert Zeros(size) == Zeros(size - 1) + [0];
      }
    }
  }

  lemma HalfWordSize()
    ensures Pow256(16) == TWO128
  {
    assert Pow256(4) == 0x1_0000_0000;
    assert Pow256(8) == 256 * (256 * (256 * (256 * Pow256(4)))) == 0x1_0000_0000_0000_0000;
    PowDouble(8);
  }

  lemma WordSize()
    ensures Pow256(32) == TWO256
  {
    HalfWordSize();
    PowDouble(16);
  }

  lemma {:induction false} PowAdd(a: nat, b: nat)
    ensures Pow256(a + b) == Pow256(a) * Pow256(b)
  {
    if a > 0 {
      PowAdd(a - 1, b);
      Assoc(256, Pow256(a - 1), Pow256(b));
    }
  }

  lemma Assoc(x: nat, y: nat, z: nat)
    ensures x * (y * z) == (x * y) * z
  {
  }

  lemma PowDouble(k: nat)
    ensures Pow256(2 * k) == Pow256(k) * Pow256(k)
  {
    PowAdd(k, k);
  }
}
