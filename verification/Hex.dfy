/** Lowercase hexadecimal text: its value, its fixed-width printer, and the code-unit order on it. */
module Hex {
  predicate IsHexDigit(c: char) {
    '0' <= c <= '9' || 'a' <= c <= 'f'
  }

  predicate IsLowerHex(s: string) {
    forall i :: 0 <= i < |s| ==> IsHexDigit(s[i])
  }

  predicate IsLowerHexOfLength(s: string, length: nat) {
    |s| == length && IsLowerHex(s)
  }

  function DigitValue(c: char): (v: nat)
    requires IsHexDigit(c)
    ensures v < 16
  {
    if c <= '9' then c as int - '0' as int else c as int - 'a' as int + 10
  }

  function Digit(v: nat): (c: char)
    requires v < 16
    ensures IsHexDigit(c) && DigitValue(c) == v
  {
    if v < 10 then ('0' as int + v) as char else ('a' as int + v - 10) as char
  }

  function Pow16(n: nat): (p: nat)
    ensures p > 0
  {
    if n == 0 then 1 else 16 * Pow16(n - 1)
  }

  function Value(s: string): (v: nat)
    requires IsLowerHex(s)
  {
    if s == [] then 0 else Value(s[..|s| - 1]) * 16 + DigitValue(s[|s| - 1])
  }

  /** `format!("{value:0width$x}")`, and `BigInt(value).toString(16).padStart(width, '0')`. */
  function Text(v: nat, width: nat): (s: string)
    ensures IsLowerHexOfLength(s, width)
  {
    if width == 0 then [] else Text(v / 16, width - 1) + [Digit(v % 16)]
  }

  lemma {:induction false} ValueBound(s: string)
    requires IsLowerHex(s)
    ensures Value(s) < Pow16(|s|)
  {
    if s != [] {
      ValueBound(s[..|s| - 1]);
    }
  }

  lemma {:induction false} ValueOfText(v: nat, width: nat)
    requires v < Pow16(width)
    ensures Value(Text(v, width)) == v
  {
    if width > 0 {
      ValueOfText(v / 16, width - 1);
      assert Text(v, width)[..width - 1] == Text(v / 16, width - 1);
    }
  }

  lemma {:induction false} TextOfValue(s: string)
    requires IsLowerHex(s)
    ensures Text(Value(s), |s|) == s
  {
    if s != [] {
      var init, last := s[..|s| - 1], s[|s| - 1];
      TextOfValue(init);
      LastDigit(Value(init), DigitValue(last));
      DigitInverse(last);
      assert Value(s) == Value(init) * 16 + DigitValue(last);
      hide Value, DigitValue, Digit;
      assert s == init + [last];
    }
  }

  lemma LastDigit(x: nat, d: nat)
    requires d < 16
    ensures (x * 16 + d) / 16 == x && (x * 16 + d) % 16 == d
  {
  }

  lemma DigitInverse(c: char)
    requires IsHexDigit(c)
    ensures Digit(DigitValue(c)) == c
  {
  }

  lemma ScaleSum(x: nat, p: nat, y: nat)
    ensures (x * p + y) * 16 == x * (16 * p) + y * 16
  {
    assert x * (16 * p) == (x * p) * 16;
  }

  lemma {:induction false} ValueConcat(a: string, b: string)
    requires IsLowerHex(a) && IsLowerHex(b)
    ensures IsLowerHex(a + b)
    ensures Value(a + b) == Value(a) * Pow16(|b|) + Value(b)
  {
    if b == [] {
      assert a + b == a;
    } else {
      var init := b[..|b| - 1];
      ValueConcat(a, init);
      assert (a + b)[..|a + b| - 1] == a + init && (a + b)[|a + b| - 1] == b[|b| - 1];
      ScaleSum(Value(a), Pow16(|init|), Value(init));
    }
  }

  /** Code-unit order on strings: Rust's `str` order and JavaScript's `<` on these ASCII texts. */
  predicate TextLess(a: string, b: string) {
    b != [] && (a == [] || a[0] < b[0] || (a[0] == b[0] && TextLess(a[1..], b[1..])))
  }

  lemma {:induction false} LessAtLast(a: string, b: string, c: char, d: char)
    requires |a| == |b|
    ensures TextLess(a + [c], b + [d]) <==> TextLess(a, b) || (a == b && c < d)
  {
    if a != [] {
      LessAtLast(a[1..], b[1..], c, d);
      assert (a + [c])[1..] == a[1..] + [c] && (b + [d])[1..] == b[1..] + [d];
      assert a[0] == b[0] && a[1..] == b[1..] ==> a == [a[0]] + a[1..] == b;
    }
  }

  /** Comparing two hex texts of one length as strings compares the numbers they denote. */
  lemma {:induction false} TextOrderIsValueOrder(a: string, b: string)
    requires |a| == |b| && IsLowerHex(a) && IsLowerHex(b)
    ensures TextLess(a, b) <==> Value(a) < Value(b)
  {
    if a != [] {
      var x, y := a[..|a| - 1], b[..|b| - 1];
      TextOrderIsValueOrder(x, y);
      TextOfValue(x);
      TextOfValue(y);
      LessAtLast(x, y, a[|a| - 1], b[|b| - 1]);
      assert a == x + [a[|a| - 1]] && b == y + [b[|b| - 1]];
    }
  }
}
