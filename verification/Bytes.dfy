/** Bytes, big-endian numerals and two's complement. */
module Bytes {
  import opened Arithmetic

  type Byte = n: int | 0 <= n < 256

  type Bytes = seq<Byte>

  function Pow256(k: nat): nat {
    if k == 0 then 1 else 256 * Pow256(k - 1)
  }

  lemma Pow256Values()
    ensures Pow256(1) == 0x100 && Pow256(2) == 0x1_0000 && Pow256(4) == 0x1_0000_0000
    ensures Pow256(8) == 0x1_0000_0000_0000_0000
  {
    assert Pow256(3) == 0x100_0000;
    assert Pow256(5) == 256 * Pow256(4) && Pow256(6) == 256 * Pow256(5) && Pow256(7) == 256 * Pow256(6);
  }

  /** The low k bytes of a number, highest first: higher ones are cut off. */
  function BigEndian(k: nat, n: nat): (r: Bytes)
    ensures |r| == k
  {
    if k == 0 then [] else BigEndian(k - 1, n / 256) + [n % 256]
  }

  function FromBigEndian(s: Bytes): (n: nat)
    ensures n < Pow256(|s|)
  {
    if s == [] then 0 else FromBigEndian(s[..|s| - 1]) * 256 + s[|s| - 1]
  }

  /** What was cut off is what is missing. */
  lemma {:induction false} BigEndianInverse(k: nat, n: nat)
    ensures n < Pow256(k) ==> FromBigEndian(BigEndian(k, n)) == n
  {
    if k > 0 {
      var r := BigEndian(k, n);
      assert r[..k - 1] == BigEndian(k - 1, n / 256);
      BigEndianInverse(k - 1, n / 256);
    }
  }

  lemma {:induction false} BigEndianTruncates(k: nat, n: nat)
    ensures Pow256(k) > 0 && FromBigEndian(BigEndian(k, n)) == n % Pow256(k)
  {
    if k > 0 {
      var r := BigEndian(k, n);
      assert r[..k - 1] == BigEndian(k - 1, n / 256);
      BigEndianTruncates(k - 1, n / 256);
      DigitMod(n, Pow256(k - 1));
    }
  }

  lemma DigitMod(n: nat, p: nat)
    requires p > 0
    ensures (n / 256) % p * 256 + n % 256 == n % (256 * p)
  {
    var q, r := n / 256 / p, (n / 256) % p;
    assert n / 256 == q * p + r;
    assert n == 256 * (q * p + r) + n % 256;
    assert 256 * (q * p + r) == q * (256 * p) + 256 * r;
    DivModUnique(n, 256 * p, q, 256 * r + n % 256);
  }

  // ---------- two's complement ----------

  /** The unsigned reading of a signed number of k bytes. */
  function Unsigned(k: nat, i: int): int {
    if i < 0 then i + Pow256(k) else i
  }

  function Signed(k: nat, n: nat): int {
    if n < Pow256(k) / 2 then n else n - Pow256(k)
  }

  predicate InRange(k: nat, i: int) {
    -(Pow256(k) / 2) <= i < Pow256(k) / 2
  }

  lemma SignedInverse(k: nat, i: int)
    requires k > 0 && InRange(k, i)
    ensures 0 <= Unsigned(k, i) < Pow256(k)
    ensures Signed(k, Unsigned(k, i)) == i
  {
    hide Pow256;
    PowerHalves(k);
  }

  lemma SignedRange(k: nat, n: nat)
    requires k > 0 && n < Pow256(k)
    ensures InRange(k, Signed(k, n))
  {
    hide Pow256;
    PowerHalves(k);
  }

  lemma PowerHalves(k: nat)
    requires k > 0
    ensures Pow256(k) == 2 * (Pow256(k) / 2)
  {
    assert Pow256(k) == 2 * (128 * Pow256(k - 1));
  }
}
