/**
 The loops that print and read numbers: longlong_to_string and longlong_to_hexstring fill a
 buffer from its end, atol, atoul and hex2unsigned run along a string. A string is read as C
 reads it, with a zero character behind its last.
 */
module NumberCode {
  import opened Bits
  import opened Numbers

  /** sizeof(num_buffer). */
  const BUFFER: nat := 32

  /** The C string that starts at pos. */
  ghost predicate HoldsString(buf: array<char>, pos: nat, text: string)
    reads buf
  {
    pos + |text| + 1 == buf.Length && buf[pos..buf.Length - 1] == text && buf[buf.Length - 1] == '\0'
  }

  /** Fills buf backwards; the string starts at the returned position. */
  method LongLongToString(buf: array<char>, n: nat, signed: bool, showSign: bool) returns (pos: nat)
    requires buf.Length == BUFFER && n < TWO_64
    modifies buf
    ensures HoldsString(buf, pos, DecimalText(n, signed, showSign))
  {
    hide Digits, DigitChar;
    var u: nat, negative := n, false;
    if signed && n >= TWO_64 / 2 {
      negative := true;
      u := (TWO_64 - n) % TWO_64;
    }
    TextFits(n, signed, showSign, false);
    pos := FillDecimal(buf, u);
    if negative {
      pos := pos - 1;
      buf[pos] := '-';
    } else if showSign {
      pos := pos - 1;
      buf[pos] := '+';
    }
  }

  /** The terminator and, from the last, the digits. */
  method FillDecimal(buf: array<char>, n: nat) returns (pos: nat)
    requires buf.Length == BUFFER && |Digits(n, 10, false)| < BUFFER
    modifies buf
    ensures HoldsString(buf, pos, Digits(n, 10, false))
  {
    hide Digits, DigitChar;
    var u := n;
    ghost var text := Digits(n, 10, false);
    pos := BUFFER - 1;
    buf[pos] := '\0';
    while u >= 10
      invariant pos <= BUFFER - 1 && buf[BUFFER - 1] == '\0'
      invariant text == Digits(u, 10, false) + buf[pos..BUFFER - 1]
    {
      DigitsStep(u, 10, false);
      var digit := u % 10;
      u := u / 10;
      pos := pos - 1;
      buf[pos] := DigitChar(digit, false);
      assert buf[pos..BUFFER - 1] == [buf[pos]] + buf[pos + 1..BUFFER - 1];
    }
    DigitsStep(u, 10, false);
    pos := pos - 1;
    buf[pos] := DigitChar(u, false);
    assert buf[pos..BUFFER - 1] == [buf[pos]] + buf[pos + 1..BUFFER - 1];
  }

  lemma DigitsStep(u: nat, base: nat, caps: bool)
    requires 2 <= base <= 16
    ensures u >= base ==> Digits(u, base, caps) == Digits(u / base, base, caps) + [DigitChar(u % base, caps)]
    ensures u < base ==> Digits(u, base, caps) == [DigitChar(u, caps)]
    ensures |Digits(u, base, caps)| >= 1
  {
  }

  /** The digits still to be stored; none for zero, whose one digit the first turn stores. */
  function Remaining(u: nat, caps: bool): string {
    if u == 0 then "" else Digits(u, 16, caps)
  }

  lemma RemainingStep(u: nat, caps: bool)
    ensures u > 0 ==> Remaining(u, caps) == Remaining(u / 16, caps) + [DigitChar(u % 16, caps)]
    ensures HexText(u, caps) == Remaining(u / 16, caps) + [DigitChar(u % 16, caps)]
  {
    hide DigitChar;
    assert u < 16 ==> u / 16 == 0 && u % 16 == u;
    assert u < 16 ==> Digits(u, 16, caps) == "" + [DigitChar(u, caps)];
  }

  method LongLongToHexString(buf: array<char>, n: nat, caps: bool) returns (pos: nat)
    requires buf.Length == BUFFER && n < TWO_64
    modifies buf
    ensures HoldsString(buf, pos, HexText(n, caps))
  {
    hide Remaining, HexText, DigitChar;
    TextFits(n, false, false, caps);
    RemainingStep(n, caps);
    pos := BUFFER - 1;
    buf[pos] := '\0';
    // even zero has one digit
    pos := pos - 1;
    buf[pos] := DigitChar(n % 16, caps);
    var u: nat := n / 16;
    assert buf[pos..BUFFER - 1] == [buf[pos]];
    while u != 0
      invariant pos < BUFFER - 1 && buf[BUFFER - 1] == '\0'
      invariant HexText(n, caps) == Remaining(u, caps) + buf[pos..BUFFER - 1]
    {
      RemainingStep(u, caps);
      NotTooLong(u, caps);
      pos := pos - 1;
      buf[pos] := DigitChar(u % 16, caps);
      u := u / 16;
      assert buf[pos..BUFFER - 1] == [buf[pos]] + buf[pos + 1..BUFFER - 1];
    }
    NothingRemains(caps);
  }

  lemma NotTooLong(u: nat, caps: bool)
    requires u > 0
    ensures |Remaining(u, caps)| >= 1
  {
  }

  lemma NothingRemains(caps: bool)
    ensures Remaining(0, caps) == ""
  {
  }

  // ---------- reading ----------

  /** s[i] as C sees it. */
  function CharAt(s: string, i: nat): char {
    if i < |s| then s[i] else '\0'
  }

  /** One more digit of a number kept modulo 2^32. */
  lemma NextDigit(v: int, w: int, base: nat, d: int)
    requires v % TWO_32 == w % TWO_32
    ensures (v * base + d) % TWO_32 == (w * base + d) % TWO_32
  {
    var q := v / TWO_32 - w / TWO_32;
    assert v == w + q * TWO_32;
    assert v * base + d == w * base + d + (q * base) * TWO_32 by {
      Regroup(w, q, base);
    }
    ModShift(w * base + d, q * base);
  }

  lemma Regroup(w: int, q: int, base: int)
    ensures (w + q * TWO_32) * base == w * base + (q * base) * TWO_32
  {
  }

  lemma ModShift(x: int, k: int)
    ensures (x + k * TWO_32) % TWO_32 == x % TWO_32
  {
  }

  /** The loop reads exactly the digits in front. */
  lemma {:induction false} RunAt(s: string, i: nat, base: nat)
    requires i <= |s| && forall j :: 0 <= j < i ==> IsIn(s[j], base)
    requires i == |s| || !IsIn(s[i], base)
    ensures DigitRun(s, base) == i
  {
    if i > 0 {
      RunAt(s[1..], i - 1, base);
    }
  }

  lemma ValueStep(s: string, i: nat, base: nat)
    requires i < |s|
    ensures Value(s[..i + 1], base) == Value(s[..i], base) * base + HexVal(s[i])
  {
    assert s[..i + 1][..i] == s[..i];
  }

  method AtoulLoop(num: string) returns (value: nat)
    ensures value == Atoul(num)
  {
    value := 0;
    if CharAt(num, 0) == '0' && CharAt(num, 1) == 'x' {
      value := HexLoop(num[2..]);
    } else {
      value := DecimalLoop(num);
    }
  }

  /** Read the hexadecimal digits at the front. */
  method HexLoop(num: string) returns (value: nat)
    ensures value == Leading(num, 16)
  {
    hide Value;
    value := 0;
    var i := 0;
    EmptyValue(num, 16);
    while CharAt(num, i) != '\0' && IsHexDigit(CharAt(num, i))
      invariant i <= |num| && forall j :: 0 <= j < i ==> IsIn(num[j], 16)
      invariant value == Value(num[..i], 16) % TWO_32
      decreases |num| - i
    {
      ValueStep(num, i, 16);
      NextDigit(value, Value(num[..i], 16), 16, HexVal(num[i]));
      value := (value * 16 + HexVal(num[i])) % TWO_32;
      i := i + 1;
    }
    RunAt(num, i, 16);
  }

  lemma EmptyValue(s: string, base: nat)
    ensures Value(s[..0], base) == 0
  {
  }

  /** Read the decimal digits at the front. */
  method DecimalLoop(num: string) returns (value: nat)
    ensures value == Leading(num, 10)
  {
    hide Value;
    value := 0;
    var i := 0;
    EmptyValue(num, 10);
    while CharAt(num, i) != '\0' && IsDigit(CharAt(num, i))
      invariant i <= |num| && forall j :: 0 <= j < i ==> IsIn(num[j], 10)
      invariant value == Value(num[..i], 10) % TWO_32
      decreases |num| - i
    {
      ValueStep(num, i, 10);
      NextDigit(value, Value(num[..i], 10), 10, HexVal(num[i]));
      value := (value * 10 + num[i] as int - '0' as int) % TWO_32;
      i := i + 1;
    }
    RunAt(num, i, 10);
  }

  /** atol keeps its value in a signed word. */
  method AtolLoop(num: string) returns (value: int)
    ensures value == Atol(num)
  {
    var neg, u := false, 0;
    if CharAt(num, 0) == '0' && CharAt(num, 1) == 'x' {
      u := HexLoop(num[2..]);
    } else {
      if CharAt(num, 0) == '-' {
        neg := true;
        u := DecimalLoop(num[1..]);
      } else {
        u := DecimalLoop(num);
      }
    }
    value := ToSigned(u);
    if neg {
      value := ToSigned(-value);
    }
  }

  /** Shifting in a hexadecimal digit is multiplying and adding, on 32-bit words. */
  lemma ShiftOr(n: nat, d: nat)
    requires n < TWO_32 && d < 16
    ensures Or(n * 16 % TWO_32, d) == (n * 16 + d) % TWO_32
  {
    hide Or;
    var m := n * 16 % TWO_32 / 16;
    assert n * 16 % TWO_32 == m * 16;
    assert Pow2(4) == 16;
    OrSum(d, m, 4);
    OrCommutes(m * 16, d);
  }

  lemma {:induction false} OrCommutes(x: nat, y: nat)
    ensures Or(x, y) == Or(y, x)
    decreases x + y
  {
    if x != 0 || y != 0 {
      OrCommutes(x / 2, y / 2);
    }
  }

  method Hex2UnsignedLoop(x: string) returns (n: nat)
    ensures n == Hex2Unsigned(x)
  {
    hide Value, Or;
    n := 0;
    var i := 0;
    EmptyValue(x, 16);
    while CharAt(x, i) != '\0'
      invariant i <= |x| && forall j :: 0 <= j < i ==> IsIn(x[j], 16)
      invariant n == Value(x[..i], 16) % TWO_32
      decreases |x| - i
    {
      var c := x[i];
      var d := 0;
      if '0' <= c <= '9' {
        d := c as int - '0' as int;
      } else if 'a' <= c <= 'f' {
        d := c as int - 'a' as int + 10;
      } else if 'A' <= c <= 'F' {
        d := c as int - 'A' as int + 10;
      } else {
        RunAt(x, i, 16);
        return;
      }
      ValueStep(x, i, 16);
      NextDigit(n, Value(x[..i], 16), 16, d);
      ShiftOr(n, d);
      n := Or(n * 16 % TWO_32, d);
      i := i + 1;
    }
    RunAt(x, i, 16);
  }
}
