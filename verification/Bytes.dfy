/** Little-endian integers over bytes. */
module Bytes {
  import opened Base
  import opened Crc

  function Pow256(k: nat): (p: nat)
    ensures p > 0
  {
    if k == 0 then 1 else 256 * Pow256(k - 1)
  }

  /** The low `k` bytes of `n`, least significant first. */
  function Le(n: nat, k: nat): (b: seq<Byte>)
    ensures |b| == k
  {
    if k == 0 then [] else [(n % 256) as bv8] + Le(n / 256, k - 1)
  }

  function FromLe(b: seq<Byte>): nat {
    if b == [] then 0 else b[0] as int + 256 * FromLe(b[1..])
  }

  lemma {:induction false} FromLeBound(b: seq<Byte>)
    ensures FromLe(b) < Pow256(|b|)
  {
    if b != [] {
      FromLeBound(b[1..]);
    }
  }

  /** The byte with a given value, counted up to it. */
  ghost function ByteOf(d: nat): (b: Byte)
    requires d < 256
    ensures b as int == d
    decreases d
  {
    if d == 0 then 0 else ByteOf(d - 1) + 1
  }

  lemma ByteRoundTrip(b: Byte)
    ensures (b as int) as bv8 == b
  {
  }

  lemma Digit(d: nat)
    requires d < 256
    ensures (d as bv8) as int == d
  {
    ByteRoundTrip(ByteOf(d));
  }

  lemma {:induction false} LeRoundTrip(n: nat, k: nat)
    requires n < Pow256(k)
    ensures FromLe(Le(n, k)) == n
  {
    if k > 0 {
      Digit(n % 256);
      DigitsLeft(n, Pow256(k - 1));
      LeRoundTrip(n / 256, k - 1);
      LeStep(n, k);
    }
  }

  lemma DigitsLeft(n: nat, p: nat)
    requires n < 256 * p
    ensures n / 256 < p && n == n % 256 + 256 * (n / 256)
  {
  }

  lemma LeStep(n: nat, k: nat)
    requires k > 0
    ensures FromLe(Le(n, k)) == ((n % 256) as bv8) as int + 256 * FromLe(Le(n / 256, k - 1))
  {
    assert Le(n, k)[1..] == Le(n / 256, k - 1);
  }

  lemma {:induction false} FromLeRoundTrip(b: seq<Byte>)
    ensures Le(FromLe(b), |b|) == b
  {
    if b != [] {
      FromLeRoundTrip(b[1..]);
      LowDigit(b[0], FromLe(b[1..]));
    }
  }

  lemma LowDigit(b: Byte, rest: nat)
    ensures (b as int + 256 * rest) % 256 == b as int && (b as int + 256 * rest) / 256 == rest
    ensures ((b as int + 256 * rest) % 256) as bv8 == b
  {
  }

  /** Byte `i` is the base-256 digit of weight 256 to the `i`. */
  lemma {:induction false} LeDigits(n: nat, k: nat, i: nat)
    requires i < k
    ensures Le(n, k)[i] as int == n / Pow256(i) % 256
  {
    Digit(n % 256);
    if i > 0 {
      LeDigits(n / 256, k - 1, i - 1);
      assert Le(n, k)[i] == Le(n / 256, k - 1)[i - 1];
      DivideTwice(n, Pow256(i - 1));
    }
  }

  lemma DivideTwice(n: nat, p: nat)
    requires p > 0
    ensures n / 256 / p == n / (256 * p)
  {
    var q, r := n / 256 / p, n / 256 % p;
    assert n / 256 == q * p + r;
    assert n == 256 * (q * p + r) + n % 256;
    assert 256 * (q * p) == q * (256 * p);
    QuotientIs(n, 256 * p, q, 256 * r + n % 256);
  }

  lemma QuotientIs(n: nat, d: nat, q: nat, rest: nat)
    requires n == q * d + rest && rest < d
    ensures n / d == q
  {
    assert n == (n / d) * d + n % d;
    Distributes(n / d, q, d);
    NoMultipleBetween(n / d - q, d);
  }

  lemma Distributes(a: int, b: int, d: int)
    ensures (a - b) * d == a * d - b * d
  {
  }

  lemma NoMultipleBetween(k: int, d: int)
    requires -d < k * d < d
    ensures k == 0
  {
  }

  /** The widths the firmware uses. */
  lemma Widths()
    ensures Pow256(1) == 0x100 && Pow256(2) == U16_MAX + 1
    ensures Pow256(4) == U32_MAX + 1 && Pow256(8) == U64_MAX + 1
  {
    assert Pow256(3) == 0x100_0000 && Pow256(5) == 0x100 * Pow256(4);
    assert Pow256(6) == 0x1_0000_0000_0000 && Pow256(7) == 0x100 * Pow256(6);
  }

  /** An unsigned integer of `k` bytes and its bytes determine each other. */
  lemma LeBijection(n: nat, b: seq<Byte>, k: nat)
    requires n < Pow256(k) && |b| == k
    ensures FromLe(b) == n <==> Le(n, k) == b
  {
    LeRoundTrip(n, k);
    FromLeRoundTrip(b);
  }

  /** Two's complement in 32 bits. */
  function ToU32(i: i32): u32 {
    if i < 0 then i + (U32_MAX + 1) else i
  }

  function ToI32(u: u32): i32 {
    if u >= 0x8000_0000 then u - (U32_MAX + 1) else u
  }
}
