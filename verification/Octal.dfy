/** Permission bits as text (src/protocol.rs). */
module Octal {
  import opened Common
  import opened Numerals

  const U32_MAX := 0xffff_ffff

  /** `{:04o}` of the low twelve bits: they never need more than four digits. */
  function OctalMode(mode: nat): string {
    Padded(mode % 4096, 8, 4)
  }

  /** Without the prefix "0o" and one plus sign. */
  function Digits(s: string): string {
    var signed := if "0o" <= s then s[2..] else s;
    if signed != "" && signed[0] == '+' then signed[1..] else signed
  }

  /** `u32::from_str_radix(_, 8)` after an optional "0o". */
  function ParseOctalMode(s: string): Option<nat> {
    var digits := Digits(s);
    if digits == "" then None
    else
      match Value(digits, 8)
      case None => None
      case Some(n) => if n <= U32_MAX then Some(n) else None
  }

  lemma DigitsPrefixed(s: string)
    requires s != "" && forall c :: c in s ==> '0' <= c <= '9'
    ensures ParseOctalMode("0o" + s) == ParseOctalMode(s) && !("0o" <= s) && s[0] != '+'
  {
    hide Value;
    assert s[0] in s && (|s| > 1 ==> s[1] in s);
    var t := "0o" + s;
    assert t[2..] == s && "0o" <= t;
  }

  /** Octal digits of any width, with or without the prefix. */
  lemma DigitsParse(mode: nat, width: nat)
    requires 1 <= width && mode < Power(8, width) && mode <= U32_MAX
    ensures ParseOctalMode(Padded(mode, 8, width)) == Some(mode)
    ensures ParseOctalMode("0o" + Padded(mode, 8, width)) == Some(mode)
  {
    PaddedValue(mode, 8, width);
    DigitsPrefixed(Padded(mode, 8, width));
    hide Padded, Value;
  }

  lemma OneMoreDigit(n: nat, width: nat, all: string)
    requires |all| == width + 1 && Padded(n / 8, 8, width) == all[..width] && all[width] == Digit(n % 8)
    ensures Padded(n, 8, width + 1) == all
  {
    assert all == all[..width] + [all[width]];
  }

  lemma ThreeDigits()
    ensures Padded(493, 8, 3) == "755"
  {
    OneMoreDigit(7, 0, "7");
    OneMoreDigit(61, 1, "75");
    OneMoreDigit(493, 2, "755");
    hide Padded;
  }

  lemma FourDigits()
    ensures Padded(493, 8, 4) == "0755"
  {
    OneMoreDigit(0, 0, "0");
    OneMoreDigit(7, 1, "07");
    OneMoreDigit(61, 2, "075");
    OneMoreDigit(493, 3, "0755");
    hide Padded;
  }

  /** `755`, `0755` and `0o755` are the same mode. */
  lemma UsualForms()
    ensures ParseOctalMode("755") == ParseOctalMode("0755") == ParseOctalMode("0o755") == Some(493)
  {
    assert Power(8, 3) == 512 && Power(8, 4) == 4096 by { assert Power(8, 2) == 64; }
    ThreeDigits();
    FourDigits();
    DigitsParse(493, 3);
    DigitsParse(493, 4);
    assert "0o" + "755" == "0o755";
    hide Padded, ParseOctalMode;
  }

  /** The ways to write a mode: octal digits, with or without a plus sign and the prefix. */
  predicate Spells(s: string, mode: nat, width: nat) {
    && 1 <= width && mode < Power(8, width) && mode <= U32_MAX
    && var digits := Padded(mode, 8, width);
    s == digits || s == "+" + digits || s == "0o" + digits || s == "0o" + ("+" + digits)
  }

  /** Those texts are accepted, each as the mode it spells, and no others. */
  lemma AcceptsExactly(s: string, mode: nat)
    ensures ParseOctalMode(s) == Some(mode) <==> exists width: nat :: Spells(s, mode, width)
  {
    if ParseOctalMode(s) == Some(mode) {
      var digits := Digits(s);
      SpelledBy(s, digits, mode);
      assert Spells(s, mode, |digits|);
    }
    if width: nat :| Spells(s, mode, width) {
      DigitsParse(mode, width);
      SignedDigitsParse(mode, width);
      hide ParseOctalMode, Padded, Power;
    }
  }

  lemma SpelledBy(s: string, digits: string, mode: nat)
    requires digits == Digits(s) && digits != "" && Value(digits, 8) == Some(mode) && mode <= U32_MAX
    ensures Spells(s, mode, |digits|)
  {
    ValueSpelled(digits, mode);
    hide Padded, Value, Power;
    var signed := if "0o" <= s then s[2..] else s;
    assert "0o" <= s ==> s == "0o" + signed;
    assert signed == digits || signed == "+" + digits;
  }

  lemma SignedDigitsParse(mode: nat, width: nat)
    requires 1 <= width && mode < Power(8, width) && mode <= U32_MAX
    ensures ParseOctalMode("+" + Padded(mode, 8, width)) == Some(mode)
    ensures ParseOctalMode("0o" + ("+" + Padded(mode, 8, width))) == Some(mode)
  {
    PaddedValue(mode, 8, width);
    DigitsSigned(Padded(mode, 8, width));
    hide Value, Padded, Power, Digits;
  }

  lemma DigitsSigned(digits: string)
    ensures Digits("+" + digits) == digits == Digits("0o" + ("+" + digits))
  {
    var signed := "+" + digits;
    var prefixed := "0o" + signed;
    assert signed[0] == '+' && "0o"[0] == '0';
    assert signed[1..] == digits && prefixed[2..] == signed && "0o" <= prefixed;
  }

  lemma {:induction false} ValueSpelled(s: string, n: nat)
    requires Value(s, 8) == Some(n)
    ensures n < Power(8, |s|) && s == Padded(n, 8, |s|)
  {
    if s != "" {
      var front := s[..|s| - 1];
      ValueSpelled(front, n / 8);
      OneMoreDigit(n, |front|, s);
    }
  }

  /** What a response reports can be passed back as `--mode`: the low twelve bits survive. */
  lemma ModeRoundTrip(mode: nat)
    ensures ParseOctalMode(OctalMode(mode)) == Some(mode % 4096)
  {
    assert Power(8, 4) == 4096 by { assert Power(8, 2) == 64; }
    PaddedValue(mode % 4096, 8, 4);
    var s := OctalMode(mode);
    assert s[0] in s && s[1] in s;
  }
}
