/**
 vsnprintf of lib/libc/printf.c: what a format prints without any limit, and the method that
 stores it in a buffer of limited size.
 */
module Printf {
  import opened Basics
  import opened Numbers
  import opened NumberCode

  /** A C string: no zero character inside. */
  type CString = s: string | '\0' !in s

  /** An argument as passed: an integer of any width, or a pointer to a string. */
  datatype Arg = Int(v: int) | Str(s: Option<CString>)

  datatype Flags = Flags(isLong: bool, isLongLong: bool, half: bool, halfHalf: bool, sizeT: bool, alt: bool,
                         caps: bool, showSign: bool, left: bool, leadZero: bool)

  const NO_FLAGS := Flags(false, false, false, false, false, false, false, false, false, false)

  // ---------- one conversion ----------

  /** Reading more arguments than were passed is undefined in C; here it yields zero. */
  function FirstArg(args: seq<Arg>): Arg {
    if args == [] then Int(0) else args[0]
  }

  function OtherArgs(args: seq<Arg>): seq<Arg> {
    if args == [] then [] else args[1..]
  }

  function IntOf(a: Arg): int {
    if a.Int? then a.v else 0
  }

  function TextOf(a: Arg): string {
    if a.Str? && a.s.Some? then a.s.value else "<null>"
  }

  /** The modulus of the type that va_arg is asked for. */
  function Modulus(f: Flags): nat {
    if f.isLongLong then TWO_64
    else if f.isLong then TWO_32
    else if f.halfHalf then 0x100
    else if f.half then 0x1_0000
    else TWO_32
  }

  /** The argument, cut to its type and widened to unsigned long long. */
  function SignedWord(f: Flags, v: int): (n: nat)
    ensures n < TWO_64
  {
    var u := v % Modulus(f);
    if u < Modulus(f) / 2 then u else u + TWO_64 - Modulus(f)
  }

  function UnsignedWord(f: Flags, v: int): (n: nat)
    ensures n < TWO_64
  {
    v % Modulus(f)
  }

  function Pad(n: nat, c: char): string {
    seq(n, _ => c)
  }

  /** The shared output code. */
  function Justify(s: string, f: Flags, width: nat): string {
    var missing: nat := if width > |s| then width - |s| else 0;
    if f.left then s + Pad(missing, ' ')
    else Pad(missing, if f.leadZero then '0' else ' ') + s
  }

  function HexPrefix(f: Flags): string {
    if !f.alt then "" else if f.caps then "0X" else "0x"
  }

  /** The flags that the conversion character itself sets. */
  function WithConversion(c: char, f: Flags): Flags {
    if c == 'D' || c == 'U' then f.(isLong := true)
    else if c == 'p' then f.(isLong := true, alt := true)
    else if c == 'X' then f.(caps := true)
    else f
  }

  function LowByte(v: int): char {
    (v % 0x100) as char
  }

  predicate IsNumber(c: char) {
    c in {'D', 'i', 'd', 'U', 'u', 'p', 'X', 'x'}
  }

  /** The digits and sign of a number. */
  function NumberIs(c: char, f: Flags, v: int): string {
    if c == 'D' || c == 'i' || c == 'd' then DecimalText(SignedWord(f, v), true, f.showSign)
    else if c == 'U' || c == 'u' then DecimalText(UnsignedWord(f, v), false, f.showSign)
    else HexText(UnsignedWord(f, v), f.caps)
  }

  function NumberOut(c: char, f: Flags, width: nat, v: int): string {
    (if c == 'p' || c == 'X' || c == 'x' then HexPrefix(f) else "") + Justify(NumberIs(c, f, v), f, width)
  }

  /** What one conversion prints. */
  function Convert(c: char, f0: Flags, width: nat, a: Arg): string {
    var f := WithConversion(c, f0);
    if c == '%' then "%"
    else if c == 'c' then [LowByte(IntOf(a))]
    else if c == 's' then Justify(TextOf(a), f, width)
    else if IsNumber(c) then NumberOut(c, f, width, IntOf(a))
    else if c == 'n' then ""
    else ['%', c]
  }

  predicate TakesArg(c: char) {
    c in {'c', 's', 'D', 'i', 'd', 'U', 'u', 'p', 'X', 'x', 'n'}
  }

  function ArgsAfter(c: char, args: seq<Arg>): seq<Arg> {
    if TakesArg(c) then OtherArgs(args) else args
  }

  // ---------- a whole format ----------

  predicate IsFlag(c: char) {
    IsDigit(c) || c in {'.', '-', '+', '#', 'l', 'h', 'z'}
  }

  function FlagsAfter(c: char, f: Flags, width: nat): Flags {
    match c
    case '0' => if width == 0 then f.(leadZero := true) else f
    case '-' => f.(left := true)
    case '+' => f.(showSign := true)
    case '#' => f.(alt := true)
    case 'l' => f.(isLongLong := f.isLongLong || f.isLong, isLong := true)
    case 'h' => f.(halfHalf := f.halfHalf || f.half, half := true)
    case 'z' => f.(sizeT := true)
    case _ => f
  }

  function WidthAfter(c: char, width: nat): nat {
    if IsDigit(c) then (width * 10 + HexVal(c)) % TWO_32 else width
  }

  /** What the format prints when nothing limits it. */
  function Format(fmt: string, args: seq<Arg>): string
    decreases |fmt|, 1
  {
    if fmt == "" then ""
    else if fmt[0] == '%' then FormatSpec(fmt[1..], NO_FLAGS, 0, args)
    else [fmt[0]] + Format(fmt[1..], args)
  }

  /** Behind a percent sign. */
  function FormatSpec(fmt: string, f: Flags, width: nat, args: seq<Arg>): string
    decreases |fmt|, 0
  {
    if fmt == "" then ""
    else if IsFlag(fmt[0]) then
      FormatSpec(fmt[1..], FlagsAfter(fmt[0], f, width), WidthAfter(fmt[0], width), args)
    else
      Convert(fmt[0], f, width, FirstArg(args)) + Format(fmt[1..], ArgsAfter(fmt[0], args))
  }

  // ---------- storing it ----------

  /** What is stored before the terminator: with a limit of two or more, at most limit - 1 characters. */
  function Stored(out: string, limit: nat): (s: string)
    ensures |s| <= |out|
  {
    if limit >= 2 && |out| > limit - 1 then out[..limit - 1] else out
  }

  lemma WithinLimit(out: string, limit: nat)
    ensures var s := Stored(out, limit);
            && s == out[..|s|] && |s| == (if limit >= 2 && |out| >= limit then limit - 1 else |out|)
            && (|s| + 1 <= limit <==> limit >= 2 || (limit == 1 && out == ""))
  {
  }

  /** Where the output stands: pos characters of out are in str, and unless the limit stopped
      the output, rest is still to come. */
  ghost predicate Emitted(str: array<char>, before: seq<char>, limit: nat, out: string, pos: nat, full: bool, rest: string)
    reads str
  {
    && str.Length == |before| && |Stored(out, limit)| < str.Length
    && pos <= |out| && pos < str.Length && str[..pos] == out[..pos] && str[pos..] == before[pos..]
    && (full ==> limit >= 2 && pos == limit - 1)
    && (!full ==> out == out[..pos] + rest && (limit >= 2 ==> pos < limit - 1))
  }

  /** OUTPUT_CHAR. */
  method OutputChar(str: array<char>, limit: nat, pos: nat, c: char, ghost before: seq<char>, ghost out: string, ghost rest: string)
    returns (pos': nat, full: bool)
    requires Emitted(str, before, limit, out, pos, false, [c] + rest)
    modifies str
    ensures Emitted(str, before, limit, out, pos', full, rest)
  {
    assert out == out[..pos] + [c] + rest;
    str[pos] := c;
    pos' := pos + 1;
    full := pos' + 1 == limit;
  }

  /** Output a string, character by character, until the limit. */
  method OutputString(str: array<char>, limit: nat, pos: nat, s: string, ghost before: seq<char>, ghost out: string, ghost rest: string)
    returns (pos': nat, full: bool)
    requires Emitted(str, before, limit, out, pos, false, s + rest)
    modifies str
    ensures Emitted(str, before, limit, out, pos', full, rest)
  {
    hide Emitted;
    pos', full := pos, false;
    var i := 0;
    assert s == s[0..];
    while i < |s|
      invariant i <= |s| && Emitted(str, before, limit, out, pos', false, s[i..] + rest)
    {
      assert s[i..] + rest == [s[i]] + (s[i + 1..] + rest);
      pos', full := OutputChar(str, limit, pos', s[i], before, out, s[i + 1..] + rest);
      if full {
        StillFull(str, before, limit, out, pos', s[i + 1..] + rest, rest);
        return;
      }
      i := i + 1;
    }
    assert s[i..] + rest == rest;
  }

  lemma StillFull(str: array<char>, before: seq<char>, limit: nat, out: string, pos: nat, rest: string, rest': string)
    requires Emitted(str, before, limit, out, pos, true, rest)
    ensures Emitted(str, before, limit, out, pos, true, rest')
  {
  }

  /** Output as many padding characters as the text falls short of the width. */
  method OutputPadding(str: array<char>, limit: nat, pos: nat, width: nat, have: nat, c: char,
                       ghost before: seq<char>, ghost out: string, ghost rest: string)
    returns (pos': nat, full: bool)
    requires Emitted(str, before, limit, out, pos, false, Pad(if width > have then width - have else 0, c) + rest)
    modifies str
    ensures Emitted(str, before, limit, out, pos', full, rest)
  {
    hide Emitted;
    pos', full := pos, false;
    var formatNum := width;
    while formatNum > have
      invariant Emitted(str, before, limit, out, pos', false,
                        Pad(if formatNum > have then formatNum - have else 0, c) + rest)
    {
      PadStep(formatNum - have, c, rest);
      pos', full := OutputChar(str, limit, pos', c, before, out, Pad(formatNum - have - 1, c) + rest);
      if full {
        StillFull(str, before, limit, out, pos', Pad(formatNum - have - 1, c) + rest, rest);
        return;
      }
      formatNum := formatNum - 1;
    }
    assert Pad(0, c) + rest == rest;
  }

  lemma PadStep(n: nat, c: char, rest: string)
    requires n > 0
    ensures Pad(n, c) + rest == [c] + (Pad(n - 1, c) + rest)
  {
  }

  /** The shared output code: the text, padded to the width on one side. */
  method OutputJustified(str: array<char>, limit: nat, pos: nat, s: string, f: Flags, width: nat,
                         ghost before: seq<char>, ghost out: string, ghost rest: string)
    returns (pos': nat, full: bool)
    requires Emitted(str, before, limit, out, pos, false, Justify(s, f, width) + rest)
    modifies str
    ensures Emitted(str, before, limit, out, pos', full, rest)
  {
    hide Emitted, Pad;
    ghost var missing: nat := if width > |s| then width - |s| else 0;
    if f.left {
      ghost var pad := Pad(missing, ' ');
      assert Justify(s, f, width) + rest == s + (pad + rest);
      pos', full := OutputString(str, limit, pos, s, before, out, pad + rest);
      if full {
        StillFull(str, before, limit, out, pos', pad + rest, rest);
        return;
      }
      pos', full := OutputPadding(str, limit, pos', width, |s|, ' ', before, out, rest);
    } else {
      var outchar := if f.leadZero then '0' else ' ';
      assert Justify(s, f, width) + rest == Pad(missing, outchar) + (s + rest);
      pos', full := OutputPadding(str, limit, pos, width, |s|, outchar, before, out, s + rest);
      if full {
        StillFull(str, before, limit, out, pos', s + rest, rest);
        return;
      }
      pos', full := OutputString(str, limit, pos', s, before, out, rest);
    }
  }

  /** The text of a number, printed into a local buffer of 32 bytes. */
  method NumberText(hex: bool, n: nat, signed: bool, f: Flags) returns (s: string)
    requires n < TWO_64
    ensures s == if hex then HexText(n, f.caps) else DecimalText(n, signed, f.showSign)
  {
    var numBuffer := new char[BUFFER];
    var at;
    if hex {
      at := LongLongToHexString(numBuffer, n, f.caps);
    } else {
      at := LongLongToString(numBuffer, n, signed, f.showSign);
    }
    s := numBuffer[at..BUFFER - 1];
  }

  /** The number conversions. */
  method OutputNumber(str: array<char>, limit: nat, pos: nat, c: char, f: Flags, width: nat, v: int,
                      ghost before: seq<char>, ghost out: string, ghost rest: string)
    returns (pos': nat, full: bool)
    requires IsNumber(c)
    requires Emitted(str, before, limit, out, pos, false, NumberOut(c, f, width, v) + rest)
    modifies str
    ensures Emitted(str, before, limit, out, pos', full, rest)
  {
    hide Emitted, Justify, DecimalText, HexText, SignedWord, UnsignedWord;
    var s;
    pos', full := pos, false;
    assert "" + Justify(NumberIs(c, f, v), f, width) == Justify(NumberIs(c, f, v), f, width);
    ghost var tail := Justify(NumberIs(c, f, v), f, width) + rest;
    if c == 'D' || c == 'i' || c == 'd' {
      s := NumberText(false, SignedWord(f, v), true, f);
    } else if c == 'U' || c == 'u' {
      s := NumberText(false, UnsignedWord(f, v), false, f);
    } else {
      s := NumberText(true, UnsignedWord(f, v), false, f);
      assert NumberOut(c, f, width, v) + rest == HexPrefix(f) + tail;
      pos', full := OutputString(str, limit, pos, HexPrefix(f), before, out, tail);
      if full {
        StillFull(str, before, limit, out, pos', tail, rest);
        return;
      }
    }
    pos', full := OutputJustified(str, limit, pos', s, f, width, before, out, rest);
  }

  lemma ConvertCases(c: char, f0: Flags, width: nat, a: Arg)
    ensures c == '%' ==> Convert(c, f0, width, a) == ['%']
    ensures c == 'c' ==> Convert(c, f0, width, a) == [LowByte(IntOf(a))]
    ensures c == 's' ==> Convert(c, f0, width, a) == Justify(TextOf(a), WithConversion(c, f0), width)
    ensures IsNumber(c) ==> Convert(c, f0, width, a) == NumberOut(c, WithConversion(c, f0), width, IntOf(a))
    ensures c == 'n' ==> Convert(c, f0, width, a) == ""
    ensures c !in {'%', 'c', 's', 'n'} && !IsNumber(c) ==> Convert(c, f0, width, a) == ['%', c]
  {
    hide Justify, NumberOut, WithConversion;
  }

  /** The conversion switch. */
  method OutputConversion(str: array<char>, limit: nat, pos: nat, c: char, f0: Flags, width: nat, a: Arg,
                          ghost before: seq<char>, ghost out: string, ghost rest: string)
    returns (pos': nat, full: bool)
    requires Emitted(str, before, limit, out, pos, false, Convert(c, f0, width, a) + rest)
    modifies str
    ensures Emitted(str, before, limit, out, pos', full, rest)
  {
    hide Emitted, Justify, Convert, WithConversion, DecimalText, HexText, SignedWord, UnsignedWord;
    ConvertCases(c, f0, width, a);
    var f := WithConversion(c, f0);
    if c == '%' {
      pos', full := OutputChar(str, limit, pos, '%', before, out, rest);
    } else if c == 'c' {
      pos', full := OutputChar(str, limit, pos, LowByte(IntOf(a)), before, out, rest);
    } else if c == 's' {
      pos', full := OutputJustified(str, limit, pos, TextOf(a), f, width, before, out, rest);
    } else if IsNumber(c) {
      pos', full := OutputNumber(str, limit, pos, c, f, width, IntOf(a), before, out, rest);
    } else if c == 'n' {
      assert "" + rest == rest;
      pos', full := pos, false;
    } else {
      assert ['%', c] + rest == ['%'] + ([c] + rest);
      pos', full := OutputString(str, limit, pos, ['%', c], before, out, rest);
    }
  }

  /** vsnprintf: stores the format's output, cut at the limit, and a terminator, and nothing else. */
  method Vsnprintf(str: array<char>, limit: nat, fmt: CString, args: seq<Arg>) returns (written: nat)
    requires |Stored(Format(fmt, args), limit)| < str.Length
    modifies str
    ensures written == if limit >= 2 && |Format(fmt, args)| >= limit then limit - 1 else |Format(fmt, args)|
    ensures str[..written] == Format(fmt, args)[..written] && str[written] == '\0'
    ensures str[written + 1..] == old(str[written + 1..])
    ensures written + 1 <= limit <==> limit >= 2 || (limit == 1 && Format(fmt, args) == "")
  {
    hide Emitted, Format, FormatSpec, Convert, Stored;
    ghost var out, before := Format(fmt, args), str[..];
    var pos: nat, full := 0, false;
    var i, a := 0, args;
    Start(str, limit, out);
    assert fmt[0..] == fmt;
    while !full && i < |fmt|
      invariant i <= |fmt|
      invariant Emitted(str, before, limit, out, pos, full, Format(fmt[i..], a))
      decreases |fmt| - i
    {
      FormatStep(fmt[i..], a);
      assert fmt[i..][1..] == fmt[i + 1..];
      var c := fmt[i];
      i := i + 1;
      if c != '%' {
        pos, full := OutputChar(str, limit, pos, c, before, out, Format(fmt[i..], a));
        continue;
      }
      var flags, formatNum := NO_FLAGS, 0;
      while i < |fmt| && IsFlag(fmt[i])
        invariant i <= |fmt|
        invariant Emitted(str, before, limit, out, pos, false, FormatSpec(fmt[i..], flags, formatNum, a))
      {
        SpecStep(fmt[i..], flags, formatNum, a);
        assert fmt[i..][1..] == fmt[i + 1..];
        flags, formatNum := FlagsAfter(fmt[i], flags, formatNum), WidthAfter(fmt[i], formatNum);
        i := i + 1;
      }
      SpecStep(fmt[i..], flags, formatNum, a);
      if i < |fmt| {
        assert fmt[i..][1..] == fmt[i + 1..];
        var conversion, arg := fmt[i], FirstArg(a);
        i := i + 1;
        a := ArgsAfter(conversion, a);
        pos, full := OutputConversion(str, limit, pos, conversion, flags, formatNum, arg, before, out, Format(fmt[i..], a));
      }
    }
    FormatStep(fmt[i..], a);
    Finish(str, before, limit, out, pos, full, Format(fmt[i..], a), i == |fmt|);
    str[pos] := '\0';
    written := pos;
    WithinLimit(out, limit);
  }

  lemma Start(str: array<char>, limit: nat, out: string)
    requires |Stored(out, limit)| < str.Length
    ensures limit >= 2 || limit == 0 || limit == 1
    ensures Emitted(str, str[..], limit, out, 0, false, out)
  {
    assert out[..0] + out == out;
  }

  lemma FormatStep(fmt: string, args: seq<Arg>)
    ensures fmt == "" ==> Format(fmt, args) == ""
    ensures fmt != "" && fmt[0] == '%' ==> Format(fmt, args) == FormatSpec(fmt[1..], NO_FLAGS, 0, args)
    ensures fmt != "" && fmt[0] != '%' ==> Format(fmt, args) == [fmt[0]] + Format(fmt[1..], args)
  {
  }

  lemma SpecStep(fmt: string, f: Flags, width: nat, args: seq<Arg>)
    ensures fmt == "" ==> FormatSpec(fmt, f, width, args) == "" == Format("", args)
    ensures fmt != "" && IsFlag(fmt[0]) ==>
              FormatSpec(fmt, f, width, args) == FormatSpec(fmt[1..], FlagsAfter(fmt[0], f, width), WidthAfter(fmt[0], width), args)
    ensures fmt != "" && !IsFlag(fmt[0]) ==>
              FormatSpec(fmt, f, width, args) == Convert(fmt[0], f, width, FirstArg(args)) + Format(fmt[1..], ArgsAfter(fmt[0], args))
  {
  }

  /** Where the output ends. */
  lemma Finish(str: array<char>, before: seq<char>, limit: nat, out: string, pos: nat, full: bool, rest: string, atEnd: bool)
    requires Emitted(str, before, limit, out, pos, full, rest) && (full || (atEnd && rest == ""))
    ensures pos == |Stored(out, limit)| && pos < str.Length && str[..pos] == Stored(out, limit) && str[pos..] == before[pos..]
  {
  }

  // ---------- numbers through the formatter ----------

  /** A format of flags and one conversion. */
  lemma OneSpec(c: char, f: Flags, width: nat, a: Arg)
    requires !IsFlag(c)
    ensures FormatSpec([c], f, width, [a]) == Convert(c, f, width, a)
  {
    SpecStep([c], f, width, [a]);
    assert [c][1..] == "";
    FormatStep("", ArgsAfter(c, [a]));
  }

  lemma FormatX08(n: nat)
    requires n < TWO_32
    ensures Format("%08x", [Int(n)]) == PadLeft(HexText(n, false), 8, '0')
  {
    hide Format, FormatSpec, HexText;
    var a := [Int(n)];
    var f := NO_FLAGS.(leadZero := true);
    FormatStep("%08x", a);
    assert "%08x"[1..] == "08x" && "08x"[1..] == "8x" && "8x"[1..] == "x";
    SpecStep("08x", NO_FLAGS, 0, a);
    SpecStep("8x", f, 0, a);
    OneSpec('x', f, 8, Int(n));
    assert UnsignedWord(f, n) == n;
  }

  lemma FormatAltX(n: nat)
    requires n < TWO_32
    ensures Format("%#x", [Int(n)]) == "0x" + HexText(n, false)
  {
    hide Format, FormatSpec, HexText;
    var a := [Int(n)];
    var f := NO_FLAGS.(alt := true);
    FormatStep("%#x", a);
    assert "%#x"[1..] == "#x" && "#x"[1..] == "x";
    SpecStep("#x", NO_FLAGS, 0, a);
    OneSpec('x', f, 0, Int(n));
    assert UnsignedWord(f, n) == n;
  }

  lemma FormatD(v: int)
    requires -0x8000_0000 <= v < 0x8000_0000
    ensures Format("%d", [Int(v)]) == DecimalText(Widen(v), true, false)
  {
    hide Format, FormatSpec, DecimalText;
    var a := [Int(v)];
    FormatStep("%d", a);
    assert "%d"[1..] == "d";
    OneSpec('d', NO_FLAGS, 0, Int(v));
    assert SignedWord(NO_FLAGS, v) == Widen(v);
  }

  /** Printed with "%08x", "%#x" or "%d", a number is read back by hex2unsigned, atoul or atol. */
  lemma PrintedNumbers(n: nat, v: int)
    requires n < TWO_32 && -0x8000_0000 <= v < 0x8000_0000
    ensures Hex2Unsigned(Format("%08x", [Int(n)])) == n
    ensures Atoul(Format("%#x", [Int(n)])) == n
    ensures Atol(Format("%d", [Int(v)])) == v
  {
    hide Format, Hex2Unsigned, Atoul, Atol, HexText, DecimalText;
    FormatX08(n);
    FormatAltX(n);
    FormatD(v);
    Hex2UnsignedUndoesPadded(n, 8, false);
    AtoulUndoesPrinting(n);
    AtolUndoesDecimal(v);
  }
}
