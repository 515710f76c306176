/** Numbers as text, and back. */
module Numerals {
  import opened Common

  function Digit(n: nat): (c: char)
    requires n < 10
    ensures '0' <= c <= '9' && (c - '0') as nat == n
  {
    '0' + n as char
  }

  /** The value of a run of digits in the given base, if it is one. */
  function Value(s: string, radix: nat): Option<nat>
    requires 2 <= radix <= 10
  {
    if s == "" then Some(0)
    else
      var c := s[|s| - 1];
      match Value(s[..|s| - 1], radix)
      case None => None
      case Some(n) => if '0' <= c <= '9' && (c - '0') as nat < radix then Some(radix * n + (c - '0') as nat) else None
  }

  /** Exactly `width` digits. */
  function Padded(n: nat, radix: nat, width: nat): (s: string)
    requires 2 <= radix <= 10
    ensures |s| == width
  {
    if width == 0 then "" else Padded(n / radix, radix, width - 1) + [Digit(n % radix)]
  }

  function Power(radix: nat, width: nat): nat {
    if width == 0 then 1 else radix * Power(radix, width - 1)
  }

  lemma MultiplyMonotone(a: nat, b: int, c: int)
    ensures b <= c ==> a * b <= a * c
  {
  }

  lemma DivideDigit(n: nat, radix: nat, bound: nat)
    requires radix > 0 && n < radix * bound
    ensures n / radix < bound && radix * (n / radix) + n % radix == n
  {
    MultiplyMonotone(radix, bound, n / radix);
  }

  lemma ValueSnoc(s: string, d: nat, radix: nat)
    requires 2 <= radix <= 10 && d < radix && Value(s, radix).Some?
    ensures Value(s + [Digit(d)], radix) == Some(radix * Value(s, radix).value + d)
  {
    var t := s + [Digit(d)];
    assert t[..|t| - 1] == s;
  }

  lemma {:induction false} PaddedValue(n: nat, radix: nat, width: nat)
    requires 2 <= radix <= 10 && n < Power(radix, width)
    ensures Value(Padded(n, radix, width), radix) == Some(n)
    ensures forall c :: c in Padded(n, radix, width) ==> '0' <= c <= '9'
  {
    if width > 0 {
      DivideDigit(n, radix, Power(radix, width - 1));
      PaddedValue(n / radix, radix, width - 1);
      ValueSnoc(Padded(n / radix, radix, width - 1), n % radix, radix);
    }
  }

  /** As many decimal digits as needed. */
  function Decimal(n: nat): (s: string)
    ensures s != "" && '0' <= s[0] <= '9'
  {
    if n < 10 then [Digit(n)] else Decimal(n / 10) + [Digit(n % 10)]
  }

  lemma {:induction false} DecimalValue(n: nat)
    ensures Value(Decimal(n), 10) == Some(n)
  {
    if n < 10 {
      ValueSnoc("", n, 10);
      assert "" + [Digit(n)] == [Digit(n)];
    } else {
      DecimalValue(n / 10);
      ValueSnoc(Decimal(n / 10), n % 10, 10);
    }
  }

  function Signed(n: int): (s: string)
    ensures s != "" && (s[0] == '-' || '0' <= s[0] <= '9')
  {
    if n < 0 then "-" + Decimal(-n) else Decimal(n)
  }

  const I32_MIN := -0x8000_0000
  const I32_MAX := 0x7fff_ffff

  /** `str::parse::<i32>`: an optional sign, at least one digit, no overflow. */
  function ParseI32(s: string): Option<int> {
    var signed := s != "" && s[0] in {'+', '-'};
    var digits := if signed then s[1..] else s;
    if digits == "" then None
    else
      match Value(digits, 10)
      case None => None
      case Some(v) =>
        var magnitude: int := v;
        var n := if signed && s[0] == '-' then -magnitude else magnitude;
        if I32_MIN <= n <= I32_MAX then Some(n) else None
  }

  lemma ParseSigned(n: int)
    requires I32_MIN <= n <= I32_MAX
    ensures ParseI32(Signed(n)) == Some(n)
  {
    if n < 0 {
      DecimalValue(-n);
      assert Signed(n)[1..] == Decimal(-n);
    } else {
      DecimalValue(n);
    }
  }
}
