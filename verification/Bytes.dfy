/** Bytes, digests and the little-endian readings of them that the protocol uses. */
module Bytes {
  import opened Nonlinear

  type Byte = b: int | 0 <= b < 256

  type Digest = d: seq<Byte> | |d| == 32 witness seq(32, _ => 0)

  /** SHA-256, as an arbitrary function on byte strings. */
  type Sha = seq<Byte> -> Digest

  /** The keyed FNV hash behind the Bloom filter, as an arbitrary function. */
  type Fnv = (seq<Byte>, nat) -> nat

  function FromLittleEndian(s: seq<Byte>): nat {
    if s == [] then 0 else s[0] + 256 * FromLittleEndian(s[1..])
  }

  /** The lowest `len` bytes of `n`, least significant first. */
  function ToLittleEndian(n: nat, len: nat): (s: seq<Byte>)
    ensures |s| == len
  {
    if len == 0 then [] else [n % 256] + ToLittleEndian(n / 256, len - 1)
  }

  function Pow2(k: nat): (p: nat)
    ensures p > 0
  {
    if k == 0 then 1 else 2 * Pow2(k - 1)
  }

  /** `(n >> k) % 2 == 1` */
  predicate TestBit(n: nat, k: nat) {
    n / Pow2(k) % 2 == 1
  }

  /** The `k`-th bit of a little-endian number, zero the lowest, lies in its byte `k / 8`. */
  lemma {:induction false} BitOfLittleEndian(s: seq<Byte>, k: nat)
    requires k < 8 * |s|
    ensures TestBit(FromLittleEndian(s), k) <==> TestBit(s[k / 8], k % 8)
  {
    var rest := FromLittleEndian(s[1..]);
    if k < 8 {
      LowBits(s[0], rest, k);
      assert k / 8 == 0 && k % 8 == k;
    } else {
      BitOfLittleEndian(s[1..], k - 8);
      HighBits(s[0], rest, k);
      ByteBefore(k);
      assert s[1..][(k - 8) / 8] == s[k / 8];
    }
  }

  lemma ByteBefore(k: nat)
    requires k >= 8
    ensures (k - 8) / 8 == k / 8 - 1 && (k - 8) % 8 == k % 8
  {
  }

  lemma HighBits(b: Byte, rest: nat, k: nat)
    requires k >= 8
    ensures TestBit(b + 256 * rest, k) <==> TestBit(rest, k - 8)
  {
    Pow2Of8More(k - 8);
    DivideTwice(b, rest, Pow2(k - 8));
  }

  lemma Pow2Of8More(k: nat)
    ensures Pow2(k + 8) == 256 * Pow2(k)
  {
    assert Pow2(k + 2) == 2 * Pow2(k + 1) == 4 * Pow2(k);
    assert Pow2(k + 4) == 2 * Pow2(k + 3) == 4 * Pow2(k + 2);
    assert Pow2(k + 6) == 2 * Pow2(k + 5) == 4 * Pow2(k + 4);
    assert Pow2(k + 8) == 2 * Pow2(k + 7) == 4 * Pow2(k + 6);
  }

  /** Bytes above the lowest do not touch its bits. */
  lemma LowBits(b: Byte, rest: nat, k: nat)
    requires k < 8
    ensures TestBit(b + 256 * rest, k) <==> TestBit(b, k)
  {
    Pow2Splits(k, 7);
    assert Pow2(7) == 2 * Pow2(6) == 4 * Pow2(5) == 8 * Pow2(4) == 16 * Pow2(3) == 32 * Pow2(2) == 64 * Pow2(1);
    EvenFactor(b, rest, Pow2(k), Pow2(7 - k));
  }

  lemma {:induction false} Pow2Splits(k: nat, n: nat)
    requires k <= n
    ensures Pow2(k) * Pow2(n - k) == Pow2(n)
  {
    if k > 0 {
      Pow2Splits(k - 1, n - 1);
      DoubleFactor(Pow2(k - 1), Pow2(n - k));
    }
  }

  lemma DoubleFactor(a: nat, b: nat)
    ensures (2 * a) * b == 2 * (a * b)
  {
  }

  lemma EvenFactor(b: nat, rest: nat, d: nat, e: nat)
    requires d > 0 && d * e == 128
    ensures (b + 256 * rest) / d % 2 == b / d % 2
  {
    var q, r := b / d, b % d;
    assert 256 * rest == 2 * (d * e) * rest == d * (2 * (e * rest));
    assert b + 256 * rest == d * (q + 2 * (e * rest)) + r;
    QuotientIs(b + 256 * rest, d, q + 2 * (e * rest), r);
  }

  /** The lowest byte is gone after a division by more than a byte. */
  lemma DivideTwice(b: Byte, rest: nat, d: nat)
    requires d > 0
    ensures (b + 256 * rest) / (256 * d) == rest / d
  {
    var q, r := rest / d, rest % d;
    assert rest == q * d + r;
    assert 256 * rest == (256 * d) * q + 256 * r;
    QuotientIs(b + 256 * rest, 256 * d, q, b + 256 * r);
  }

  /** The bytes of a number read back as its residue. */
  lemma {:induction false} LittleEndianRoundTrip(n: nat, len: nat)
    ensures FromLittleEndian(ToLittleEndian(n, len)) == n % Pow2(8 * len)
  {
    if len > 0 {
      LittleEndianRoundTrip(n / 256, len - 1);
      Pow2Of8More(8 * (len - 1));
      assert 8 * (len - 1) + 8 == 8 * len;
      ResidueByByte(n, Pow2(8 * (len - 1)));
    }
  }

  lemma ResidueByByte(n: nat, d: nat)
    requires d > 0
    ensures n % (256 * d) == n % 256 + 256 * (n / 256 % d)
  {
    var high := n / 256;
    var q, r := high / d, high % d;
    assert high == d * q + r;
    assert n == (256 * d) * q + (256 * r + n % 256);
    QuotientIs(n, 256 * d, q, 256 * r + n % 256);
  }

  lemma EightBytes()
    ensures Pow2(64) == 0x1_0000_0000_0000_0000
  {
    Pow2Of8More(0);
    Pow2Of8More(8);
    Pow2Of8More(16);
    Pow2Of8More(24);
    Pow2Of8More(32);
    Pow2Of8More(40);
    Pow2Of8More(48);
    Pow2Of8More(56);
  }
}
