/** Decimal and hexadecimal numerals (`strconv.Itoa`, `%x`, `%04x`). */
module Numerals {

  predicate IsHexDigit(c: char) {
    '0' <= c <= '9' || 'a' <= c <= 'f'
  }

  function DigitChar(d: nat): (c: char)
    requires d < 16
    ensures IsHexDigit(c)
  {
    "0123456789abcdef"[d]
  }

  function DigitValue(c: char): nat {
    if '0' <= c <= '9' then c as int - '0' as int
    else if 'a' <= c <= 'f' then c as int - 'a' as int + 10
    else 0
  }

  function Digits(n: nat, base: nat): (s: string)
    requires base == 10 || base == 16
    ensures s != [] && forall i :: 0 <= i < |s| ==> IsHexDigit(s[i])
  {
    if n < base then [DigitChar(n)] else Digits(n / base, base) + [DigitChar(n % base)]
  }

  /** `x` shifted by one digit. */
  ghost function Shifted(x: nat, base: nat): nat {
    if base == 16 then 16 * x else 10 * x
  }

  ghost function Value(s: string, base: nat): nat {
    if s == [] then 0 else Shifted(Value(s[..|s| - 1], base), base) + DigitValue(s[|s| - 1])
  }

  lemma {:induction false} ValueOfDigits(n: nat, base: nat)
    requires base == 10 || base == 16
    ensures Value(Digits(n, base), base) == n
    decreases n
  {
    if n < base {
      DigitRoundTrip(n);
      assert Value([], base) == 0;
    } else if base == 10 {
      ValueOfDigits(n / 10, 10);
      DigitRoundTrip(n % 10);
      ValueOfAppend(Digits(n / 10, 10), DigitChar(n % 10), 10);
    } else {
      ValueOfDigits(n / 16, 16);
      DigitRoundTrip(n % 16);
      ValueOfAppend(Digits(n / 16, 16), DigitChar(n % 16), 16);
    }
  }

  lemma DigitRoundTrip(d: nat)
    requires d < 16
    ensures DigitValue(DigitChar(d)) == d
  {
  }

  lemma ValueOfAppend(s: string, c: char, base: nat)
    ensures Value(s + [c], base) == Shifted(Value(s, base), base) + DigitValue(c)
  {
    assert (s + [c])[..|s|] == s;
  }

  /** Different numbers have different numerals. */
  lemma DigitsAreInjective(m: nat, n: nat, base: nat)
    requires base == 10 || base == 16
    requires Digits(m, base) == Digits(n, base)
    ensures m == n
  {
    ValueOfDigits(m, base);
    ValueOfDigits(n, base);
  }

  function Zeros(n: nat): (s: string)
    ensures |s| == n && forall i :: 0 <= i < n ==> s[i] == '0'
  {
    seq(n, i => '0')
  }

  /** `%0<width>x`: zero-padded to `width`, longer when needed. */
  function Hex(n: nat, width: nat): (s: string)
    ensures forall i :: 0 <= i < |s| ==> IsHexDigit(s[i])
    ensures |s| >= width
  {
    var digits := Digits(n, 16);
    if |digits| >= width then digits else Zeros(width - |digits|) + digits
  }

  lemma {:induction false} LeadingZeros(k: nat, s: string, base: nat)
    ensures Value(Zeros(k) + s, base) == Value(s, base)
    decreases |s|, k
  {
    if s == [] {
      assert Zeros(k) + s == Zeros(k);
      if k > 0 {
        assert Zeros(k)[..k - 1] == Zeros(k - 1);
        LeadingZeros(k - 1, [], base);
        assert Zeros(k - 1) + [] == Zeros(k - 1);
      }
    } else {
      LeadingZeros(k, s[..|s| - 1], base);
      assert (Zeros(k) + s)[..k + |s| - 1] == Zeros(k) + s[..|s| - 1];
    }
  }

  lemma ValueOfHex(n: nat, width: nat)
    ensures Value(Hex(n, width), 16) == n
  {
    ValueOfDigits(n, 16);
    var digits := Digits(n, 16);
    if |digits| < width {
      LeadingZeros(width - |digits|, digits, 16);
      assert Hex(n, width) == Zeros(width - |digits|) + digits;
    } else {
      assert Hex(n, width) == digits;
    }
  }

  lemma HexIsInjective(m: nat, n: nat, width: nat)
    requires Hex(m, width) == Hex(n, width)
    ensures m == n
  {
    ValueOfHex(m, width);
    ValueOfHex(n, width);
  }

  /** Sixteen bits need at most four hexadecimal digits. */
  lemma HexFits(n: nat, width: nat)
    requires n <= 65535 && width <= 4
    ensures |Hex(n, width)| <= 4
  {
    assert n / 16 < 4096 && n / 16 / 16 < 256 && n / 16 / 16 / 16 < 16;
    assert |Digits(n / 16 / 16 / 16, 16)| == 1;
    assert |Digits(n / 16 / 16, 16)| <= 2;
    assert |Digits(n / 16, 16)| <= 3;
  }
}
