/** Cairo field elements and their one wire text (`FeltHex`), crates/soul-core/src/types.rs. */
module Felt {
  import opened Wrappers
  import opened Hex

  /** Cairo's prime in 64 nibbles, written in four groups of sixteen. */
  const CAIRO_PRIME_HEX: string :=
    "0800000000000011" + "0000000000000000" + "0000000000000000" + "0000000000000001"
  const CAIRO_PRIME: int := 0x0800000000000011000000000000000000000000000000000000000000000001
  const U64_LIMIT: int := 0x1_0000_0000_0000_0000

  type U64 = x: int | 0 <= x < U64_LIMIT

  /** A `felt252`: an integer modulo the Cairo prime. */
  type Felt = x: int | 0 <= x < CAIRO_PRIME

  /** The checks of `FeltHex::parse`, character class and comparison with the modulus text included. */
  predicate IsFeltText(s: string) {
    && |s| >= 2 && s[0] == '0' && s[1] == 'x'
    && IsLowerHexOfLength(s[2..], 64)
    && TextLess(s[2..], CAIRO_PRIME_HEX)
  }

  type FeltHex = s: string | IsFeltText(s) witness FeltText(0)

  function Parse(s: string): Option<FeltHex> {
    if IsFeltText(s) then Some(s) else None
  }

  /** The wire text of a field element; on a u64 this is `FeltHex::from_u64`. */
  function FeltText(x: Felt): (s: string)
    ensures IsFeltText(s)
  {
    PrimeText();
    PrimeFits();
    ValueOfText(x, 64);
    TextOrderIsValueOrder(Text(x, 64), CAIRO_PRIME_HEX);
    var s := "0x" + Text(x, 64);
    assert s[2..] == Text(x, 64);
    s
  }

  /** The number a canonical text denotes: `Felt252::from_hex`. */
  function FeltValue(s: FeltHex): (x: Felt)
    ensures x == Value(s[2..])
  {
    PrimeText();
    TextOrderIsValueOrder(s[2..], CAIRO_PRIME_HEX);
    Value(s[2..])
  }

  /** Number to text to number is the identity ... */
  lemma ValueThenText(x: Felt)
    ensures FeltValue(FeltText(x)) == x
  {
    PrimeFits();
    ValueOfText(x, 64);
    assert FeltText(x)[2..] == Text(x, 64);
  }

  /** ... and so is text to number to text: a field element has exactly one text. */
  lemma TextThenValue(s: FeltHex)
    ensures FeltText(FeltValue(s)) == s
  {
    TextOfValue(s[2..]);
    assert s == "0x" + s[2..];
  }

  /** `FeltHex::parse` accepts a text if and only if it is the text of some field element. */
  lemma ParseAcceptsExactlyFeltTexts(s: string)
    ensures Parse(s).Some? <==> exists x: Felt :: s == FeltText(x)
  {
    if IsFeltText(s) {
      TextThenValue(s);
    }
  }

  lemma FeltTextInjective(x: Felt, y: Felt)
    requires FeltText(x) == FeltText(y)
    ensures x == y
  {
    ValueThenText(x);
    ValueThenText(y);
  }

  // ---- the modulus -------------------------------------------------------

  lemma {:induction false} ZeroRun(s: string)
    requires forall i :: 0 <= i < |s| ==> s[i] == '0'
    ensures IsLowerHex(s) && Value(s) == 0
  {
    if s != [] {
      ZeroRun(s[..|s| - 1]);
    }
  }

  lemma Pow16Values()
    ensures Pow16(14) == 0x100_0000_0000_0000
    ensures Pow16(16) == 0x1_0000_0000_0000_0000
    ensures Pow16(32) == Pow16(16) * Pow16(16)
    ensures Pow16(48) == Pow16(32) * Pow16(16)
    ensures Pow16(64) == Pow16(48) * Pow16(16)
  {
    assert Pow16(6) == 0x100_0000;
    assert Pow16(12) == 0x1_0000_0000_0000;
    Pow16Add(16, 16);
    Pow16Add(32, 16);
    Pow16Add(48, 16);
  }

  lemma {:induction false} Pow16Add(a: nat, b: nat)
    ensures Pow16(a + b) == Pow16(a) * Pow16(b)
  {
    if a > 0 {
      Pow16Add(a - 1, b);
    }
  }

  lemma PrimeFits()
    ensures CAIRO_PRIME < Pow16(64)
  {
    Pow16Values();
  }

  /** The text constant denotes the modulus. */
  lemma PrimeText()
    ensures IsLowerHexOfLength(CAIRO_PRIME_HEX, 64)
    ensures Value(CAIRO_PRIME_HEX) == CAIRO_PRIME
  {
    hide Value, Pow16;
    var high, zeros, low := "0800000000000011", "0000000000000000", "0000000000000001";
    Pow16Values();
    PrimeHighWord();
    PrimeLowWord();
    ZeroRun(zeros);
    ValueConcat(high, zeros);
    ValueConcat(high + zeros, zeros);
    ValueConcat(high + zeros + zeros, low);
  }

  lemma PrimeHighWord()
    ensures IsLowerHex("0800000000000011") && Value("0800000000000011") == 0x0800000000000011
  {
    var run := "000000000000";
    assert "0800000000000011" == "08" + (run + "11");
    ZeroRun(run);
    TwoDigits("08");
    TwoDigits("11");
    ValueConcat(run, "11");
    ValueConcat("08", run + "11");
    Pow16Values();
  }

  lemma PrimeLowWord()
    ensures IsLowerHex("0000000000000001") && Value("0000000000000001") == 1
  {
    var run := "00000000000000";
    assert "0000000000000001" == run + "01";
    ZeroRun(run);
    TwoDigits("01");
    ValueConcat(run, "01");
  }

  lemma TwoDigits(s: string)
    requires IsLowerHexOfLength(s, 2)
    ensures Value(s) == DigitValue(s[0]) * 16 + DigitValue(s[1])
  {
    assert s[..1][..0] == [];
    assert Value(s[..1]) == DigitValue(s[0]);
  }
}
