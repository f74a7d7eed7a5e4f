/** Big-endian byte strings of field elements, as the decoders read them (`to_bytes_be`, `hex::encode`). */
module Bytes {
  import opened Hex
  import opened Felt

  type Byte = b: int | 0 <= b < 256

  function Pow256(n: nat): (p: nat)
    ensures p > 0
  {
    if n == 0 then 1 else 256 * Pow256(n - 1)
  }

  /** The last `n` base-256 digits of `v`, most significant first. */
  function BytesBE(v: nat, n: nat): (b: seq<Byte>)
    ensures |b| == n
  {
    if n == 0 then [] else BytesBE(v / 256, n - 1) + [v % 256]
  }

  /** `u64::from_be_bytes`, for a byte string of any length. */
  function FromBytesBE(b: seq<Byte>): nat {
    if b == [] then 0 else FromBytesBE(b[..|b| - 1]) * 256 + b[|b| - 1]
  }

  function HexEncode(b: seq<Byte>): (s: string) {
    if b == [] then [] else HexEncode(b[..|b| - 1]) + [Digit(b[|b| - 1] / 16), Digit(b[|b| - 1] % 16)]
  }

  predicate AllZero(b: seq<Byte>) {
    forall i :: 0 <= i < |b| ==> b[i] == 0
  }

  lemma {:induction false} BytesInverse(v: nat, n: nat)
    requires v < Pow256(n)
    ensures FromBytesBE(BytesBE(v, n)) == v
  {
    if n > 0 {
      BytesInverse(v / 256, n - 1);
      assert BytesBE(v, n)[..n - 1] == BytesBE(v / 256, n - 1);
    }
  }

  lemma NibblesOfByte(v: nat)
    ensures v / 16 / 16 == v / 256
    ensures v % 256 / 16 == v / 16 % 16
    ensures v % 256 % 16 == v % 16
  {
  }

  lemma LastTwoNibbles(v: nat, width: nat)
    ensures Text(v, width + 2) == Text(v / 256, width) + [Digit(v % 256 / 16), Digit(v % 256 % 16)]
  {
    NibblesOfByte(v);
    assert Text(v, width + 2) == Text(v / 16, width + 1) + [Digit(v % 16)];
    assert Text(v / 16, width + 1) == Text(v / 16 / 16, width) + [Digit(v / 16 % 16)];
  }

  /** Encoding the bytes in hexadecimal prints the number itself in twice as many nibbles. */
  lemma {:induction false} HexOfBytes(v: nat, n: nat)
    ensures HexEncode(BytesBE(v, n)) == Text(v, 2 * n)
  {
    if n > 0 {
      HexOfBytes(v / 256, n - 1);
      HexEncodeSnoc(BytesBE(v / 256, n - 1), v % 256);
      LastTwoNibbles(v, 2 * (n - 1));
    }
  }

  lemma HexEncodeSnoc(b: seq<Byte>, x: Byte)
    ensures HexEncode(b + [x]) == HexEncode(b) + [Digit(x / 16), Digit(x % 16)]
  {
    assert (b + [x])[..|b|] == b;
  }

  lemma {:induction false} SplitBytes(v: nat, n: nat, k: nat)
    requires k <= n
    ensures BytesBE(v, n)[..n - k] == BytesBE(v / Pow256(k), n - k)
    ensures BytesBE(v, n)[n - k..] == BytesBE(v, k)
  {
    if k > 0 {
      SplitBytes(v / 256, n - 1, k - 1);
      DivDiv(v, Pow256(k - 1));
    }
  }

  lemma DivDiv(v: nat, p: nat)
    requires p > 0
    ensures v / 256 / p == v / (256 * p)
  {
    var q, r := v / (256 * p), v % (256 * p);
    assert v == q * (256 * p) + r;
    assert v / 256 == q * p + r / 256 by {
      assert v == 256 * (q * p) + r;
    }
    assert 0 <= r / 256 < p;
    QuotientUnique(v / 256, p, q, r / 256);
  }

  lemma QuotientUnique(x: nat, d: nat, q: nat, r: nat)
    requires d > 0 && x == q * d + r && r < d
    ensures x / d == q
  {
    var k, r' := q - x / d, x % d;
    assert k * d == r' - r;
    AtLeastOneStep(k, d);
    AtLeastOneStep(-k, d);
  }

  lemma AtLeastOneStep(k: int, d: int)
    requires d >= 0
    ensures k >= 1 ==> k * d >= d
    ensures k <= -1 ==> k * d <= -d
  {
    if k >= 1 {
      assert (k - 1) * d >= 0;
    } else if k <= -1 {
      assert (-k - 1) * d >= 0;
    }
  }

  lemma {:induction false} ZeroBytes(v: nat, n: nat)
    requires v < Pow256(n)
    ensures AllZero(BytesBE(v, n)) <==> v == 0
  {
    if n > 0 {
      ZeroBytes(v / 256, n - 1);
      var b := BytesBE(v, n);
      assert b[..n - 1] == BytesBE(v / 256, n - 1);
      assert AllZero(b) <==> AllZero(b[..n - 1]) && b[n - 1] == 0;
    }
  }

  lemma {:induction false} Pow256Add(a: nat, b: nat)
    ensures Pow256(a + b) == Pow256(a) * Pow256(b)
  {
    if a > 0 {
      Pow256Add(a - 1, b);
    }
  }

  lemma Pow256Values()
    ensures Pow256(8) == U64_LIMIT
    ensures CAIRO_PRIME < Pow256(32)
    ensures Pow256(32) == Pow256(24) * U64_LIMIT
  {
    assert Pow256(4) == 0x1_0000_0000;
    assert Pow256(8) == U64_LIMIT;
    Pow256Add(8, 8);
    Pow256Add(16, 8);
    Pow256Add(24, 8);
  }

  /** "The first 24 of 32 bytes are zero" is "fits u64", and then the last eight bytes are the value. */
  lemma LeadingZerosMeanU64(x: Felt)
    ensures AllZero(BytesBE(x, 32)[..24]) <==> x < U64_LIMIT
    ensures x < U64_LIMIT ==> FromBytesBE(BytesBE(x, 32)[24..]) == x
  {
    Pow256Values();
    SplitBytes(x, 32, 8);
    var high := x / U64_LIMIT;
    assert high < Pow256(24);
    ZeroBytes(high, 24);
    if x < U64_LIMIT {
      BytesInverse(x, 8);
    }
  }

  /** `field_to_felt`: the hex of a field element's 32 bytes is its canonical wire text. */
  lemma FieldToFeltIsFeltText(x: Felt)
    ensures "0x" + HexEncode(BytesBE(x, 32)) == FeltText(x)
  {
    HexOfBytes(x, 32);
  }
}
