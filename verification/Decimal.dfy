/** Unsigned decimal text: the canonical printer and the readers it is inverse to. */
module Decimal {
  predicate IsDigit(c: char) {
    '0' <= c <= '9'
  }

  predicate AllDigits(s: string) {
    forall i :: 0 <= i < |s| ==> IsDigit(s[i])
  }

  /** Digits without a superfluous leading zero: the regular expression `^(0|[1-9][0-9]*)$`. */
  predicate IsCanonical(s: string) {
    s != [] && AllDigits(s) && (s[0] == '0' ==> |s| == 1)
  }

  function DigitChar(d: nat): (c: char)
    requires d < 10
    ensures IsDigit(c) && c as int - '0' as int == d
  {
    ('0' as int + d) as char
  }

  /** `u64::to_string` and `String(n)` on safe integers. */
  function Dec(n: nat): (s: string)
    ensures AllDigits(s) && s != []
  {
    if n < 10 then [DigitChar(n)] else Dec(n / 10) + [DigitChar(n % 10)]
  }

  function DecValue(s: string): nat
    requires AllDigits(s)
  {
    if s == [] then 0 else DecValue(s[..|s| - 1]) * 10 + (s[|s| - 1] as int - '0' as int)
  }

  lemma {:induction false} ValueOfDec(n: nat)
    ensures DecValue(Dec(n)) == n
    ensures IsCanonical(Dec(n)) && (n > 0 ==> Dec(n)[0] != '0')
  {
    if n < 10 {
      assert Dec(n)[..0] == [];
    } else {
      ValueOfDec(n / 10);
      assert Dec(n)[..|Dec(n)| - 1] == Dec(n / 10);
    }
  }

  lemma {:induction false} DecOfValue(s: string)
    requires IsCanonical(s)
    ensures Dec(DecValue(s)) == s
    ensures s[0] != '0' ==> DecValue(s) > 0
  {
    var init, last := s[..|s| - 1], s[|s| - 1];
    assert s == init + [last];
    if init != [] {
      DecOfValue(init);
    } else {
      assert DecValue(init) == 0;
    }
  }

  function Pow10(n: nat): (p: nat)
    ensures p > 0
  {
    if n == 0 then 1 else 10 * Pow10(n - 1)
  }

  lemma {:induction false} DecLength(n: nat, width: nat)
    requires width > 0 && n < Pow10(width)
    ensures |Dec(n)| <= width
  {
    if n >= 10 {
      assert Pow10(1) == 10;
      DecLength(n / 10, width - 1);
    }
  }

  /** How many digits a text starts with. */
  function DigitRun(t: string): (k: nat)
    ensures k <= |t| && AllDigits(t[..k])
  {
    if t == [] || !IsDigit(t[0]) then 0
    else
      var k := DigitRun(t[1..]);
      assert t[..1 + k] == [t[0]] + t[1..][..k];
      1 + k
  }

  lemma {:induction false} DigitRunOfPrefix(s: string, rest: string)
    requires AllDigits(s) && (rest == [] || !IsDigit(rest[0]))
    ensures DigitRun(s + rest) == |s|
  {
    if s == [] {
      assert s + rest == rest;
    } else {
      DigitRunOfPrefix(s[1..], rest);
      assert (s + rest)[1..] == s[1..] + rest;
    }
  }
}
