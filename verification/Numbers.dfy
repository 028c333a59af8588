/**
 Numbers as text: what lib/libc/printf.c prints for a number, what lib/libc/atoi.c and
 hex2unsigned of app/aboot/fastboot.c read, and that reading undoes printing.
 */
module Numbers {
  import opened Bits

  const TWO_32: nat := 0x1_0000_0000
  const TWO_64: nat := 0x1_0000_0000_0000_0000

  /** The character for a digit, as in the tables of longlong_to_hexstring. */
  function DigitChar(d: nat, caps: bool): char
    requires d < 16
  {
    if d < 10 then ('0' as int + d) as char
    else if caps then ('A' as int + d - 10) as char
    else ('a' as int + d - 10) as char
  }

  /** n in the given base, most significant digit first. */
  function Digits(n: nat, base: nat, caps: bool): (s: string)
    requires 2 <= base <= 16
    ensures s != ""
  {
    if n < base then [DigitChar(n, caps)]
    else Digits(n / base, base, caps) + [DigitChar(n % base, caps)]
  }

  /** longlong_to_string: n is an unsigned 64-bit word, read as signed when `signed` is set. */
  function DecimalText(n: nat, signed: bool, showSign: bool): string
    requires n < TWO_64
  {
    var negative := signed && n >= TWO_64 / 2;
    (if negative then "-" else if showSign then "+" else "")
    + Digits(if negative then TWO_64 - n else n, 10, false)
  }

  function HexText(n: nat, caps: bool): string {
    Digits(n, 16, caps)
  }

  // ---------- reading ----------

  predicate IsDigit(c: char) {
    '0' <= c <= '9'
  }

  predicate IsHexDigit(c: char) {
    IsDigit(c) || 'a' <= c <= 'f' || 'A' <= c <= 'F'
  }

  predicate IsIn(c: char, base: nat) {
    if base == 16 then IsHexDigit(c) else IsDigit(c)
  }

  /** hexval. */
  function HexVal(c: char): (d: nat)
    ensures d < 16
    ensures IsDigit(c) ==> d < 10 && d == c as int - '0' as int
  {
    if '0' <= c <= '9' then c as int - '0' as int
    else if 'a' <= c <= 'f' then c as int - 'a' as int + 10
    else if 'A' <= c <= 'F' then c as int - 'A' as int + 10
    else 0
  }

  /** How many characters of s from the front are digits. */
  function DigitRun(s: string, base: nat): (k: nat)
    ensures k <= |s|
    ensures forall i :: 0 <= i < k ==> IsIn(s[i], base)
    ensures k < |s| ==> !IsIn(s[k], base)
  {
    if s == "" || !IsIn(s[0], base) then 0 else 1 + DigitRun(s[1..], base)
  }

  /** The number a string of digits denotes, without bound. */
  function Value(s: string, base: nat): nat {
    if s == "" then 0 else Value(s[..|s| - 1], base) * base + HexVal(s[|s| - 1])
  }

  /** The number at the front of s, as an unsigned 32-bit word. */
  function Leading(s: string, base: nat): nat {
    Value(s[..DigitRun(s, base)], base) % TWO_32
  }

  predicate HasHexPrefix(s: string) {
    |s| >= 2 && s[0] == '0' && s[1] == 'x'
  }

  function ToSigned(v: int): int {
    var u := v % TWO_32;
    if u < TWO_32 / 2 then u else u - TWO_32
  }

  function Atoul(s: string): nat {
    if HasHexPrefix(s) then Leading(s[2..], 16) else Leading(s, 10)
  }

  function Atol(s: string): int {
    if HasHexPrefix(s) then ToSigned(Leading(s[2..], 16))
    else if s != "" && s[0] == '-' then ToSigned(-(Leading(s[1..], 10) as int))
    else ToSigned(Leading(s, 10))
  }

  /** hex2unsigned has no prefix, and stops at the first character that is not a digit. */
  function Hex2Unsigned(s: string): nat {
    Leading(s, 16)
  }

  // ---------- reading undoes printing ----------

  lemma DigitCharFacts(d: nat, base: nat, caps: bool)
    requires d < base && (base == 10 || base == 16)
    ensures IsIn(DigitChar(d, caps), base) && HexVal(DigitChar(d, caps)) == d
  {
  }

  /** The digits of n are digits, and denote n. */
  lemma {:induction false} DigitsValue(n: nat, base: nat, caps: bool)
    requires base == 10 || base == 16
    ensures forall i :: 0 <= i < |Digits(n, base, caps)| ==> IsIn(Digits(n, base, caps)[i], base)
    ensures Value(Digits(n, base, caps), base) == n
    decreases n
  {
    DigitCharFacts(n % base, base, caps);
    if n < base {
      assert Digits(n, base, caps)[..0] == "";
    } else {
      DigitsValue(n / base, base, caps);
      var s := Digits(n, base, caps);
      assert s[..|s| - 1] == Digits(n / base, base, caps);
    }
  }

  lemma {:induction false} RunOfDigits(s: string, base: nat)
    requires forall i :: 0 <= i < |s| ==> IsIn(s[i], base)
    ensures DigitRun(s, base) == |s|
  {
    if s != "" {
      RunOfDigits(s[1..], base);
    }
  }

  /** A whole string of digits is read completely. */
  lemma LeadingAll(s: string, base: nat)
    requires forall i :: 0 <= i < |s| ==> IsIn(s[i], base)
    ensures Leading(s, base) == Value(s, base) % TWO_32
  {
    RunOfDigits(s, base);
    assert s[..|s|] == s;
  }

  lemma LeadingDigits(n: nat, base: nat, caps: bool)
    requires n < TWO_32 && (base == 10 || base == 16)
    ensures Leading(Digits(n, base, caps), base) == n
  {
    DigitsValue(n, base, caps);
    LeadingAll(Digits(n, base, caps), base);
  }

  /** Decimal text never looks like a hexadecimal prefix or a sign. */
  lemma PlainDecimal(n: nat)
    ensures !HasHexPrefix(Digits(n, 10, false)) && Digits(n, 10, false)[0] != '-'
  {
    DigitsValue(n, 10, false);
    var s := Digits(n, 10, false);
    assert IsIn(s[0], 10);
    assert |s| >= 2 ==> IsIn(s[1], 10);
  }

  /** A 32-bit int as va_arg hands it to longlong_to_string. */
  function Widen(v: int): nat
    requires -0x8000_0000 <= v < 0x8000_0000
  {
    if v < 0 then v + TWO_64 else v
  }

  /** atol undoes "%d" for every 32-bit int. */
  lemma AtolUndoesDecimal(v: int)
    requires -0x8000_0000 <= v < 0x8000_0000
    ensures Atol(DecimalText(Widen(v), true, false)) == v
  {
    hide Digits, Leading;
    var n: nat := if v < 0 then -v else v;
    LeadingDigits(n, 10, false);
    PlainDecimal(n);
    var s, d := DecimalText(Widen(v), true, false), Digits(n, 10, false);
    if v < 0 {
      assert s == "-" + d && s[1..] == d;
    } else {
      assert s == d;
    }
  }

  /** atol undoes "%+d" exactly for numbers that are not positive: it stops at a plus sign. */
  lemma AtolStopsAtPlus(v: int)
    requires -0x8000_0000 <= v < 0x8000_0000
    ensures Atol(DecimalText(Widen(v), true, true)) == v <==> v <= 0
  {
    hide Digits;
    if v < 0 {
      AtolUndoesDecimal(v);
      assert DecimalText(Widen(v), true, true) == DecimalText(Widen(v), true, false);
    } else {
      var s := DecimalText(v, true, true);
      assert s[0] == '+';
      assert s[..0] == "";
      assert Atol(s) == 0;
    }
  }

  /** atoul undoes "%u" and "%#x" for every 32-bit word. */
  lemma AtoulUndoesPrinting(n: nat)
    requires n < TWO_32
    ensures Atoul(DecimalText(n, false, false)) == n
    ensures Atoul("0x" + HexText(n, false)) == n
  {
    LeadingDigits(n, 10, false);
    LeadingDigits(n, 16, false);
    PlainDecimal(n);
    hide Digits, Leading;
    assert DecimalText(n, false, false) == Digits(n, 10, false);
    assert ("0x" + HexText(n, false))[2..] == HexText(n, false);
  }

  /** atol reads what "%#x" prints as the 32-bit int with the same bits. */
  lemma AtolReadsHex(n: nat, caps: bool)
    requires n < TWO_32
    ensures Atol("0x" + HexText(n, caps)) == if n < 0x8000_0000 then n else n - 0x1_0000_0000
  {
    LeadingDigits(n, 16, caps);
    hide Digits, Leading;
    assert ("0x" + HexText(n, caps))[2..] == HexText(n, caps);
  }

  lemma {:induction false} RunStops(s: string, rest: string, base: nat)
    requires (forall i :: 0 <= i < |s| ==> IsIn(s[i], base)) && (rest == "" || !IsIn(rest[0], base))
    ensures DigitRun(s + rest, base) == |s|
  {
    if s == "" {
      assert s + rest == rest;
    } else {
      assert (s + rest)[1..] == s[1..] + rest;
      RunStops(s[1..], rest, base);
    }
  }

  /** What follows the digits is not read, and a number of more than 32 bits is read modulo 2^32. */
  lemma LeadingStops(n: nat, base: nat, caps: bool, rest: string)
    requires (base == 10 || base == 16) && (rest == "" || !IsIn(rest[0], base))
    ensures Leading(Digits(n, base, caps) + rest, base) == n % TWO_32
  {
    hide Digits, Value, DigitRun;
    var s := Digits(n, base, caps);
    DigitsValue(n, base, caps);
    RunStops(s, rest, base);
    assert (s + rest)[..|s|] == s;
  }

  /** Decimal numbers with anything behind: the digits are read, up to the first other character. */
  lemma DecimalReadersStop(n: nat, rest: string)
    requires rest == "" || !IsDigit(rest[0])
    requires n != 0 || rest == "" || rest[0] != 'x'
    ensures Atoul(Digits(n, 10, false) + rest) == n % TWO_32
    ensures Atol(Digits(n, 10, false) + rest) == ToSigned(n)
  {
    hide Digits, Leading;
    LeadingStops(n, 10, false, rest);
    NoPrefix(n, rest);
    NegatedWord(n);
  }

  lemma NegativeReaderStops(n: nat, rest: string)
    requires rest == "" || !IsDigit(rest[0])
    ensures Atol("-" + Digits(n, 10, false) + rest) == ToSigned(0 - n)
  {
    hide Digits, Leading;
    LeadingStops(n, 10, false, rest);
    NegatedWord(n);
    var s := "-" + Digits(n, 10, false) + rest;
    assert s[1..] == Digits(n, 10, false) + rest && s[0] == '-';
  }

  lemma HexReadersStop(n: nat, caps: bool, rest: string)
    requires rest == "" || !IsHexDigit(rest[0])
    ensures Atoul("0x" + (HexText(n, caps) + rest)) == n % TWO_32
    ensures Atol("0x" + (HexText(n, caps) + rest)) == ToSigned(n)
    ensures Hex2Unsigned(HexText(n, caps) + rest) == n % TWO_32
  {
    hide Digits, Leading;
    LeadingStops(n, 16, caps, rest);
    NegatedWord(n);
    assert ("0x" + (HexText(n, caps) + rest))[2..] == HexText(n, caps) + rest;
  }

  lemma NegatedWord(n: nat)
    ensures ToSigned(0 - n % TWO_32) == ToSigned(0 - n) && ToSigned(n % TWO_32) == ToSigned(n)
  {
    var q, r := n / 0x1_0000_0000, n % 0x1_0000_0000;
    assert n == q * 0x1_0000_0000 + r;
    if r == 0 {
      assert 0 - n == (0 - q) * 0x1_0000_0000;
    } else {
      assert 0 - n == (0 - q - 1) * 0x1_0000_0000 + (0x1_0000_0000 - r);
    }
  }

  /** Only a zero followed by an x can be taken for the prefix, and digits for no sign. */
  lemma NoPrefix(n: nat, rest: string)
    ensures var s := Digits(n, 10, false) + rest;
            && s[0] != '-' && (HasHexPrefix(s) ==> n == 0 && rest != "" && rest[0] == 'x')
  {
    var d := Digits(n, 10, false);
    DigitsValue(n, 10, false);
    Canonical(n, 10, false);
    assert IsIn(d[0], 10);
    if |d| >= 2 {
      assert IsIn(d[1], 10) && (d + rest)[1] == d[1];
    }
  }

  /** There is no zero in front, except for zero itself. */
  lemma {:induction false} Canonical(n: nat, base: nat, caps: bool)
    requires 2 <= base <= 16
    ensures Digits(n, base, caps)[0] == '0' ==> n == 0 && Digits(n, base, caps) == "0"
    decreases n
  {
    if n >= base {
      Canonical(n / base, base, caps);
      QuotientPositive(n, base);
    }
  }

  lemma QuotientPositive(n: nat, base: nat)
    requires 0 < base <= n
    ensures n / base > 0
  {
  }

  /** Digits above nine are letters, all capital or all small. */
  lemma {:induction false} LettersOf(n: nat, caps: bool)
    ensures forall i :: 0 <= i < |HexText(n, caps)| ==>
              var c := HexText(n, caps)[i]; IsDigit(c) || (if caps then 'A' <= c <= 'F' else 'a' <= c <= 'f')
    decreases n
  {
    var d := DigitChar(n % 16, caps);
    assert IsDigit(d) || (if caps then 'A' <= d <= 'F' else 'a' <= d <= 'f');
    if n >= 16 {
      LettersOf(n / 16, caps);
      assert HexText(n, caps) == HexText(n / 16, caps) + [d];
    }
  }

  /** "%#X" prints the prefix 0X, which atoul does not know: it reads zero, which is right only for zero. */
  lemma AtoulMissesCapitalPrefix(n: nat)
    requires n < TWO_32
    ensures Atoul("0X" + HexText(n, true)) == 0
    ensures Atoul("0X" + HexText(n, true)) == n <==> n == 0
  {
    var s := "0X" + HexText(n, true);
    assert s[0] == '0' && s[1] == 'X';
    assert DigitRun(s, 10) == 1 by { assert s[1..][0] == 'X'; }
    assert s[..1] == "0" && "0"[..0] == "";
  }

  /** Padding on the left to the given width. */
  function PadLeft(s: string, width: nat, c: char): string {
    if |s| < width then seq(width - |s|, _ => c) + s else s
  }

  lemma {:induction false} ZerosInFront(k: nat, s: string, base: nat)
    ensures Value(seq(k, _ => '0') + s, base) == Value(s, base)
    decreases |s| + k
  {
    var z: string := seq(k, _ => '0');
    if s == "" {
      if k > 0 {
        var z': string := seq(k - 1, _ => '0');
        assert z + s == z && z[..k - 1] == z' && z' + s == z';
        ZerosInFront(k - 1, s, base);
        assert Value(z', base) == 0;
        assert Value(z, base) == Value(z', base) * base + 0;
      }
    } else {
      var t := s[..|s| - 1];
      ZerosInFront(k, t, base);
      assert (z + s)[..|z + s| - 1] == z + t;
    }
  }

  /** hex2unsigned undoes "%08x", and any other width, for every 32-bit word. */
  lemma Hex2UnsignedUndoesPadded(n: nat, width: nat, caps: bool)
    requires n < TWO_32
    ensures Hex2Unsigned(PadLeft(HexText(n, caps), width, '0')) == n
  {
    hide Digits, Value, Leading;
    var s := HexText(n, caps);
    DigitsValue(n, 16, caps);
    PaddedDigits(s, width);
    LeadingAll(PadLeft(s, width, '0'), 16);
  }

  /** Zeros in front of digits are digits, and do not change the value. */
  lemma PaddedDigits(s: string, width: nat)
    requires forall i :: 0 <= i < |s| ==> IsIn(s[i], 16)
    ensures var t := PadLeft(s, width, '0');
            (forall i :: 0 <= i < |t| ==> IsIn(t[i], 16)) && Value(t, 16) == Value(s, 16)
  {
    if |s| < width {
      ZerosInFront(width - |s|, s, 16);
      var t := PadLeft(s, width, '0');
      forall i | 0 <= i < |t|
        ensures IsIn(t[i], 16)
      {
        if i >= width - |s| {
          assert t[i] == s[i - (width - |s|)];
        }
      }
    }
  }

  // ---------- sizes ----------

  function Power(base: nat, k: nat): nat {
    if k == 0 then 1 else base * Power(base, k - 1)
  }

  /** k digits are enough below base^k. */
  lemma {:induction false} DigitsFit(n: nat, base: nat, caps: bool, k: nat)
    requires 2 <= base <= 16 && k >= 1 && n < Power(base, k)
    ensures |Digits(n, base, caps)| <= k
    decreases n
  {
    hide Power;
    PowerStep(base, k);
    if n >= base {
      PowerStep(base, 0);
      DivBound(n, base, Power(base, k - 1));
      DigitsFit(n / base, base, caps, k - 1);
    }
  }

  lemma PowerStep(base: nat, k: nat)
    ensures Power(base, k) == if k == 0 then 1 else base * Power(base, k - 1)
  {
  }

  lemma DivBound(n: nat, base: nat, p: nat)
    requires base > 0 && n < base * p
    ensures n / base < p
  {
    if n / base >= p {
      MulMonotone(base, p, n / base);
    }
  }

  lemma MulMonotone(b: nat, x: nat, y: nat)
    requires x <= y
    ensures b * x <= b * y
  {
  }

  lemma BigPowers()
    ensures Power(10, 20) >= TWO_64 && Power(16, 16) == TWO_64
  {
    assert Power(10, 4) == 10000;
    assert Power(10, 8) == 10000 * Power(10, 4);
    assert Power(10, 12) == 10000 * Power(10, 8);
    assert Power(10, 16) == 10000 * Power(10, 12);
    assert Power(10, 20) == 10000 * Power(10, 16);
    assert Power(16, 4) == 0x1_0000;
    assert Power(16, 8) == 0x1_0000 * Power(16, 4);
    assert Power(16, 12) == 0x1_0000 * Power(16, 8);
    assert Power(16, 16) == 0x1_0000 * Power(16, 12);
  }

  /** Every 64-bit value fits the 32-byte buffer, terminator included. */
  lemma TextFits(n: nat, signed: bool, showSign: bool, caps: bool)
    requires n < TWO_64
    ensures |DecimalText(n, signed, showSign)| + 1 <= 22
    ensures |HexText(n, caps)| + 1 <= 17
  {
    hide Digits, Power;
    BigPowers();
    var v := if signed && n >= TWO_64 / 2 then TWO_64 - n else n;
    DigitsFit(v, 10, false, 20);
    DigitsFit(n, 16, caps, 16);
  }
}
