/** Little-endian integers, unsigned and two's complement. */
module LittleEndian {
  import opened Prelude

  function Pow256(n: nat): (p: nat)
    ensures p > 0
  {
    if n == 0 then 1 else 256 * Pow256(n - 1)
  }

  function FromLE(bytes: seq<byte>): (n: nat)
    ensures n < Pow256(|bytes|)
  {
    if bytes == [] then 0 else bytes[0] + 256 * FromLE(bytes[1..])
  }

  function ToLE(n: nat, len: nat): (bytes: seq<byte>)
    ensures |bytes| == len
  {
    if len == 0 then [] else [n % 256] + ToLE(n / 256, len - 1)
  }

  lemma {:induction false} FromTo(n: nat, len: nat)
    requires n < Pow256(len)
    ensures FromLE(ToLE(n, len)) == n
  {
    if len > 0 {
      FromTo(n / 256, len - 1);
      assert ToLE(n, len)[1..] == ToLE(n / 256, len - 1);
    }
  }

  lemma {:induction false} ToFrom(bytes: seq<byte>)
    ensures ToLE(FromLE(bytes), |bytes|) == bytes
  {
    if bytes != [] {
      ToFrom(bytes[1..]);
      assert FromLE(bytes) / 256 == FromLE(bytes[1..]);
    }
  }

  /** The byte at position `k` is the digit of weight 256 to the `k`. */
  lemma {:induction false} DigitAt(n: nat, len: nat, k: nat)
    requires k < len
    ensures ToLE(n, len)[k] == n / Pow256(k) % 256
  {
    if k > 0 {
      DigitAt(n / 256, len - 1, k - 1);
      DivideTwice(n, Pow256(k - 1));
    }
  }

  lemma DivideTwice(n: nat, p: nat)
    requires p > 0
    ensures n / 256 / p == n / (256 * p)
  {
    var q, r := n / 256 / p, n / 256 % p;
    assert n == 256 * (q * p + r) + n % 256;
    assert 256 * (q * p) == q * (256 * p);
    var rest := 256 * r + n % 256;
    assert n == q * (256 * p) + rest && 0 <= rest < 256 * p;
    QuotientIs(n, 256 * p, q, rest);
  }

  lemma ProductGrows(a: nat, b: nat, d: nat)
    requires a <= b
    ensures a * d <= b * d
  {
  }

  lemma QuotientIs(n: nat, d: nat, q: nat, r: nat)
    requires d > 0 && n == q * d + r && r < d
    ensures n / d == q
  {
    var e := n / d;
    if e < q {
      ProductGrows(e + 1, q, d);
    } else if e > q {
      ProductGrows(q + 1, e, d);
    }
  }

  lemma PowersOf256()
    ensures Pow256(4) == U32_LIMIT && Pow256(8) == U64_LIMIT
    ensures Pow256(16) == U64_LIMIT * U64_LIMIT
  {
    assert Pow256(8) == 0x1_0000_0000 * Pow256(4);
    assert Pow256(12) == 0x1_0000_0000 * Pow256(8);
    assert Pow256(16) == 0x1_0000_0000 * Pow256(12);
  }

  const I128_LIMIT := 0x8000_0000_0000_0000_0000_0000_0000_0000

  type i128 = n: int | -I128_LIMIT <= n < I128_LIMIT

  /** `i128::from_le_bytes`. */
  function SignedFromLE(bytes: seq<byte>): i128
    requires |bytes| == 16
  {
    PowersOf256();
    var n := FromLE(bytes);
    if n < I128_LIMIT then n else n - 2 * I128_LIMIT
  }

  /** `i128::to_le_bytes`. */
  function SignedToLE(n: i128): (bytes: seq<byte>)
    ensures |bytes| == 16
  {
    ToLE(if n >= 0 then n else n + 2 * I128_LIMIT, 16)
  }

  /** Two's complement: the signed value is the unsigned one, less 2^128 exactly if the top bit is set. */
  lemma SignedIsTwosComplement(bytes: seq<byte>)
    requires |bytes| == 16
    ensures SignedFromLE(bytes) == FromLE(bytes) - if bytes[15] >= 128 then 0x1_0000_0000_0000_0000_0000_0000_0000_0000 else 0
  {
    var p := Pow256(15);
    ToFrom(bytes);
    DigitAt(FromLE(bytes), 16, 15);
    PowersOf256();
    assert Pow256(16) == 256 * p;
    TopDigit(FromLE(bytes), p);
  }

  lemma TopDigit(n: nat, p: nat)
    requires p > 0 && n < 256 * p
    ensures n / p % 256 >= 128 <==> n >= 128 * p
  {
    var q := n / p;
    ProductGrows(256, Max(q, 256), p);
    if n >= 128 * p && q < 128 {
      ProductGrows(q + 1, 128, p);
    }
    if q >= 128 {
      ProductGrows(128, q, p);
    }
  }

  lemma SignedFromTo(n: i128)
    ensures SignedFromLE(SignedToLE(n)) == n
  {
    PowersOf256();
    FromTo(if n >= 0 then n else n + 2 * I128_LIMIT, 16);
  }

  lemma SignedToFrom(bytes: seq<byte>)
    requires |bytes| == 16
    ensures SignedToLE(SignedFromLE(bytes)) == bytes
  {
    PowersOf256();
    ToFrom(bytes);
  }

  /** `u32::from_le_bytes`. */
  function U32FromLE(bytes: seq<byte>): u32
    requires |bytes| == 4
  {
    PowersOf256();
    FromLE(bytes)
  }

  /** `u64::from_le_bytes`. */
  function U64FromLE(bytes: seq<byte>): u64
    requires |bytes| == 8
  {
    PowersOf256();
    FromLE(bytes)
  }
}
