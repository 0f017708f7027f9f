/** Bytes, and the integers that QDataStream (big-endian) and the payload headers (little-endian) write. */
module Bytes {

  type byte = x: int | 0 <= x < 256

  type bytes = seq<byte>

  /** How many values fit in `k` bytes. */
  function Power(k: nat): (p: nat)
    ensures p >= 1
  {
    if k == 0 then 1 else 256 * Power(k - 1)
  }

  /** The `k` low bytes of a number, most significant first. */
  function BigEndian(n: nat, k: nat): (b: bytes)
    ensures |b| == k
  {
    if k == 0 then [] else BigEndian(n / 256, k - 1) + [n % 256]
  }

  function BigEndianValue(b: bytes): nat {
    if b == [] then 0 else 256 * BigEndianValue(b[..|b| - 1]) + b[|b| - 1]
  }

  /** The `k` low bytes of a number, least significant first. */
  function LittleEndian(n: nat, k: nat): (b: bytes)
    ensures |b| == k
  {
    if k == 0 then [] else [n % 256] + LittleEndian(n / 256, k - 1)
  }

  function LittleEndianValue(b: bytes): nat {
    if b == [] then 0 else b[0] + 256 * LittleEndianValue(b[1..])
  }

  /** Byte `i` from the end is the digit of weight 256^i. */
  lemma {:induction false} BigEndianDigit(n: nat, k: nat, i: nat)
    requires i < k
    ensures BigEndian(n, k)[k - 1 - i] == n / Power(i) % 256
  {
    if i > 0 {
      BigEndianDigit(n / 256, k - 1, i - 1);
      DivideTwice(n, Power(i - 1));
    }
  }

  /** Byte `i` is the digit of weight 256^i: the same bytes the other way round. */
  lemma {:induction false} LittleEndianDigit(n: nat, k: nat, i: nat)
    requires i < k
    ensures LittleEndian(n, k)[i] == n / Power(i) % 256 == BigEndian(n, k)[k - 1 - i]
  {
    BigEndianDigit(n, k, i);
    if i > 0 {
      LittleEndianDigit(n / 256, k - 1, i - 1);
      BigEndianDigit(n / 256, k - 1, i - 1);
      DivideTwice(n, Power(i - 1));
    }
  }

  /** A number below 256 takes the last byte. */
  lemma {:induction false} OneByte(n: nat, k: nat)
    requires n < 256 && k > 0
    ensures BigEndian(n, k)[k - 1] == n && forall i :: 0 <= i < k - 1 ==> BigEndian(n, k)[i] == 0
  {
    Nothing(k - 1);
    assert BigEndian(n, k) == BigEndian(n / 256, k - 1) + [n % 256];
  }

  lemma {:induction false} Nothing(k: nat)
    ensures forall i :: 0 <= i < k ==> BigEndian(0, k)[i] == 0
  {
    if k > 0 {
      Nothing(k - 1);
    }
  }

  lemma {:induction false} DivideTwice(n: nat, p: nat)
    requires p > 0
    ensures n / 256 / p == n / (256 * p)
  {
    var q := n / 256 / p;
    var r := n - 256 * p * q;
    var m := n / 256 - q * p;
    assert 0 <= m < p;
    assert r == 256 * m + n % 256;
    Quotient(n, 256 * p, q, r);
  }

  lemma {:induction false} Quotient(n: nat, d: nat, q: nat, r: int)
    requires n == d * q + r && 0 <= r < d
    ensures n / d == q
  {
    var q' := n / d;
    Differ(d, q, q');
    Differ(d, q', q);
  }

  lemma {:induction false} Differ(d: nat, a: nat, b: nat)
    ensures a < b ==> d * a + d <= d * b
  {
    if a < b {
      assert d * b == d * a + d * (b - a);
      assert d * (b - a) == d + d * (b - a - 1);
    }
  }

  lemma {:induction false} BigEndianRoundTrip(n: nat, k: nat)
    requires n < Power(k)
    ensures BigEndianValue(BigEndian(n, k)) == n
  {
    if k > 0 {
      BigEndianRoundTrip(n / 256, k - 1);
      assert BigEndian(n, k)[..k - 1] == BigEndian(n / 256, k - 1);
    }
  }

  lemma {:induction false} LittleEndianRoundTrip(n: nat, k: nat)
    requires n < Power(k)
    ensures LittleEndianValue(LittleEndian(n, k)) == n
  {
    if k > 0 {
      LittleEndianRoundTrip(n / 256, k - 1);
      assert LittleEndian(n, k)[1..] == LittleEndian(n / 256, k - 1);
    }
  }

  /** A signed number in `k` bytes, in two's complement. */
  function Signed(n: int, k: nat): (b: bytes)
    ensures |b| == k
  {
    BigEndian(n % Power(k), k)
  }

  function SignedValue(b: bytes): int {
    var n := BigEndianValue(b);
    if 2 * n >= Power(|b|) then n - Power(|b|) else n
  }

  predicate FitsSigned(n: int, k: nat) {
    0 <= 2 * n + Power(k) && 2 * n < Power(k)
  }

  lemma {:induction false} SignedRoundTrip(n: int, k: nat)
    requires k > 0 && FitsSigned(n, k)
    ensures SignedValue(Signed(n, k)) == n
  {
    var p := Power(k);
    assert n % p == if n >= 0 then n else n + p by {
      ModWithin(n, p);
    }
    BigEndianRoundTrip(n % p, k);
  }

  lemma {:induction false} ModWithin(n: int, p: nat)
    requires p > 0 && 0 <= n + p && n < p
    ensures n % p == if n >= 0 then n else n + p
  {
    if n < 0 {
      assert n == (-1) * p + (n + p);
    }
  }

  /** 2^31, which the size of a byte array stays below. */
  const ARRAY_LIMIT: nat := 0x8000_0000

  lemma {:induction false} PowerFour()
    ensures Power(2) == 0x1_0000 && Power(4) == 0x1_0000_0000 && Power(8) == 0x1_0000_0000_0000_0000
  {
    assert Power(1) == 256 && Power(3) == 0x100_0000 && Power(5) == 0x100_0000_0000;
    assert Power(6) == 0x1_0000_0000_0000 && Power(7) == 0x100_0000_0000_0000;
  }
}
