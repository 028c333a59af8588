/**
 What a format prints, item by item: literal text and conversions, each with its own flags,
 width and argument.
 */
module Formats {
  import opened Basics
  import opened Bits
  import opened Numbers
  import opened Printf

  /** Flags, minimal width (0 for none) and length modifier of a conversion. */
  datatype Spec = Spec(flags: string, width: nat, length: Length)

  datatype Length = Plain | L | LL | H | HH | Z

  function LengthText(l: Length): string {
    match l
    case Plain => ""
    case L => "l"
    case LL => "ll"
    case H => "h"
    case HH => "hh"
    case Z => "z"
  }

  /** Plain text, or a conversion with the argument it converts. */
  datatype Item = Literal(text: string) | Conversion(spec: Spec, c: char, a: Arg)

  predicate SpecOk(s: Spec) {
    && (forall i :: 0 <= i < |s.flags| ==> s.flags[i] in {'-', '+', '#', '0'})
    && s.width < TWO_32
  }

  /** The conversions that take an argument. */
  predicate Takes(c: char) {
    c in {'d', 'i', 'D', 'u', 'U', 'x', 'X', 'p', 'c', 's', 'n'}
  }

  predicate ItemOk(item: Item) {
    match item
    case Literal(text) => '%' !in text
    case Conversion(spec, c, a) =>
      && SpecOk(spec) && !IsDigit(c) && c !in {'.', '-', '+', '#', 'l', 'h', 'z'}
      && (Takes(c) ==> (a.Str? <==> c == 's'))
  }

  predicate ItemsOk(items: seq<Item>) {
    forall i :: 0 <= i < |items| ==> ItemOk(items[i])
  }

  // ---------- the format and its arguments ----------

  function Render(items: seq<Item>): string {
    if items == [] then "" else RenderOne(items[0]) + Render(items[1..])
  }

  function RenderOne(item: Item): string {
    match item
    case Literal(text) => text
    case Conversion(spec, c, _) =>
      "%" + (spec.flags + ((if spec.width == 0 then "" else Digits(spec.width, 10, false)) + (LengthText(spec.length) + [c])))
  }

  function Arguments(items: seq<Item>): seq<Arg> {
    if items == [] then [] else ArgumentOf(items[0]) + Arguments(items[1..])
  }

  function ArgumentOf(item: Item): seq<Arg> {
    if item.Conversion? && Takes(item.c) then [item.a] else []
  }

  // ---------- what an item prints ----------

  /** At least `width` characters: blanks behind for a minus flag, otherwise blanks or zeros in front. */
  function Fill(body: string, s: Spec): (out: string)
    ensures |out| == if |body| < s.width then s.width else |body|
  {
    var n: nat := if |body| < s.width then s.width - |body| else 0;
    if '-' in s.flags then body + seq(n, _ => ' ')
    else seq(n, _ => if '0' in s.flags then '0' else ' ') + body
  }

  /** The number of values of the type a conversion reads. */
  function Range(c: char, length: Length): nat {
    if length == LL then 0x1_0000_0000_0000_0000
    else if c in {'D', 'U', 'p'} then 0x1_0000_0000
    else if length == H then 0x1_0000
    else if length == HH then 0x100
    else 0x1_0000_0000
  }

  /** The representative of v between -range / 2 and range / 2. */
  function Residue(v: int, range: nat): int
    requires range > 0
  {
    if v % range < range / 2 then v % range else v % range - range
  }

  function Shown(item: Item): string {
    match item
    case Literal(text) => text
    case Conversion(s, c, a) =>
      if c == '%' then "%"
      else if c == 'n' then ""
      else if c == 'c' then [(IntOf(a) % 0x100) as char]
      else if c == 's' then Fill(if a.Str? && a.s.Some? then a.s.value else "<null>", s)
      else if c in {'d', 'i', 'D'} then
        var n := Residue(IntOf(a), Range(c, s.length));
        Fill((if n < 0 then "-" else if '+' in s.flags then "+" else "") + Digits(if n < 0 then -n else n, 10, false), s)
      else if c in {'u', 'U'} then
        Fill((if '+' in s.flags then "+" else "") + Digits(IntOf(a) % Range(c, s.length), 10, false), s)
      else if c in {'x', 'X', 'p'} then
        (if '#' in s.flags || c == 'p' then (if c == 'X' then "0X" else "0x") else "")
        + Fill(Digits(IntOf(a) % Range(c, s.length), 16, c == 'X'), s)
      else "%" + [c]
  }

  function AllShown(items: seq<Item>): string {
    if items == [] then "" else Shown(items[0]) + AllShown(items[1..])
  }

  // ---------- reading a conversion ----------

  function WithFlags(f: Flags, fs: string): Flags {
    f.(left := f.left || '-' in fs, showSign := f.showSign || '+' in fs, alt := f.alt || '#' in fs,
       leadZero := f.leadZero || '0' in fs)
  }

  lemma {:induction false} ReadFlags(fs: string, f: Flags, rest: string, args: seq<Arg>)
    requires forall i :: 0 <= i < |fs| ==> fs[i] in {'-', '+', '#', '0'}
    ensures FormatSpec(fs + rest, f, 0, args) == FormatSpec(rest, WithFlags(f, fs), 0, args)
  {
    hide FormatSpec, WithFlags, FlagsAfter, WidthAfter, IsFlag;
    if fs == "" {
      assert fs + rest == rest;
      NoFlags(f);
    } else {
      assert (fs + rest)[0] == fs[0] && (fs + rest)[1..] == fs[1..] + rest;
      SpecStep(fs + rest, f, 0, args);
      OneFlag(fs, f);
      ReadFlags(fs[1..], FlagsAfter(fs[0], f, 0), rest, args);
    }
  }

  lemma NoFlags(f: Flags)
    ensures WithFlags(f, "") == f
  {
  }

  lemma OneFlag(fs: string, f: Flags)
    requires fs != "" && fs[0] in {'-', '+', '#', '0'}
    ensures IsFlag(fs[0]) && WidthAfter(fs[0], 0) == 0
    ensures WithFlags(FlagsAfter(fs[0], f, 0), fs[1..]) == WithFlags(f, fs)
  {
    assert fs == [fs[0]] + fs[1..];
  }

  lemma {:induction false} ReadWidth(n: nat, f: Flags, rest: string, args: seq<Arg>)
    requires 0 < n < TWO_32
    ensures FormatSpec(Digits(n, 10, false) + rest, f, 0, args) == FormatSpec(rest, f, n, args)
    decreases n
  {
    hide FormatSpec;
    var d := [DigitChar(n % 10, false)];
    assert (d + rest)[1..] == rest;
    if n < 10 {
      SpecStep(d + rest, f, 0, args);
    } else {
      assert Digits(n, 10, false) + rest == Digits(n / 10, 10, false) + (d + rest);
      ReadWidth(n / 10, f, d + rest, args);
      SpecStep(d + rest, f, n / 10, args);
      assert WidthAfter(d[0], n / 10) == n;
    }
  }

  function WithLength(f: Flags, length: Length): Flags {
    match length
    case Plain => f
    case L => f.(isLong := true)
    case LL => f.(isLong := true, isLongLong := true)
    case H => f.(half := true)
    case HH => f.(half := true, halfHalf := true)
    case Z => f.(sizeT := true)
  }

  lemma ReadLength(length: Length, f: Flags, width: nat, rest: string, args: seq<Arg>)
    requires !f.isLong && !f.isLongLong && !f.half && !f.halfHalf
    ensures FormatSpec(LengthText(length) + rest, f, width, args) == FormatSpec(rest, WithLength(f, length), width, args)
  {
    hide FormatSpec;
    var text := LengthText(length);
    if text == "" {
      assert text + rest == rest;
    } else if |text| == 1 {
      assert (text + rest)[1..] == rest;
      SpecStep(text + rest, f, width, args);
    } else {
      var one := [text[1]] + rest;
      assert (text + rest)[1..] == one && one[1..] == rest;
      SpecStep(text + rest, f, width, args);
      SpecStep(one, FlagsAfter(text[0], f, width), width, args);
    }
  }

  /** The flags of a whole conversion. */
  function FlagsOf(s: Spec): Flags {
    WithLength(WithFlags(NO_FLAGS, s.flags), s.length)
  }

  lemma ReadSpec(s: Spec, c: char, rest: string, args: seq<Arg>)
    requires SpecOk(s)
    ensures Format(RenderOne(Conversion(s, c, Int(0))) + rest, args) == FormatSpec([c] + rest, FlagsOf(s), s.width, args)
  {
    hide FormatSpec, Format, Digits, LengthText;
    var w := if s.width == 0 then "" else Digits(s.width, 10, false);
    var r1 := LengthText(s.length) + ([c] + rest);
    var r2 := w + r1;
    var whole := "%" + (s.flags + (w + (LengthText(s.length) + [c]))) + rest;
    assert whole[1..] == s.flags + r2;
    FormatStep(whole, args);
    ReadFlags(s.flags, NO_FLAGS, r2, args);
    if s.width == 0 {
      assert r2 == r1;
    } else {
      ReadWidth(s.width, WithFlags(NO_FLAGS, s.flags), r1, args);
    }
    ReadLength(s.length, WithFlags(NO_FLAGS, s.flags), s.width, [c] + rest, args);
  }

  // ---------- converting ----------

  lemma JustifyIsFill(body: string, s: Spec, f: Flags)
    requires f.left == ('-' in s.flags) && f.leadZero == ('0' in s.flags)
    ensures Justify(body, f, s.width) == Fill(body, s)
  {
  }

  function SignAndDigits(n: int, plus: bool): string {
    (if n < 0 then "-" else if plus then "+" else "") + Digits(if n < 0 then -n else n, 10, false)
  }

  /** The text of a number in two's complement is that of the number it stands for. */
  lemma SignedText(f: Flags, v: int, range: nat)
    requires Modulus(f) == range
    ensures DecimalText(SignedWord(f, v), true, f.showSign) == SignAndDigits(Residue(v, range), f.showSign)
  {
    hide Digits;
  }

  lemma UnsignedText(f: Flags, v: int)
    ensures DecimalText(UnsignedWord(f, v), false, f.showSign)
         == (if f.showSign then "+" else "") + Digits(v % Modulus(f), 10, false)
  {
    hide Digits;
  }

  /** A conversion prints what it shows. */
  lemma ConvertShows(s: Spec, c: char, a: Arg)
    requires ItemOk(Conversion(s, c, a))
    ensures Convert(c, FlagsOf(s), s.width, a) == Shown(Conversion(s, c, a))
  {
    hide Justify, Fill, Digits, Residue, Convert, NumberOut, Shown, FlagsOf;
    ConvertCases(c, FlagsOf(s), s.width, a);
    if c == 's' {
      TextShows(s, a);
    } else if IsNumber(c) {
      NumberShows(s, c, a);
    } else {
      OtherShows(s, c, a);
    }
  }

  lemma FlagsAre(s: Spec, c: char)
    requires SpecOk(s)
    ensures var f := WithConversion(c, FlagsOf(s));
            && f.left == ('-' in s.flags) && f.leadZero == ('0' in s.flags) && f.showSign == ('+' in s.flags)
            && f.alt == ('#' in s.flags || c == 'p') && f.caps == (c == 'X')
  {
    hide FlagsOf, WithConversion;
    FlagsOfAre(s);
    ConversionFlags(c, FlagsOf(s));
  }

  lemma ConversionFlags(c: char, f: Flags)
    ensures var g := WithConversion(c, f);
            g.left == f.left && g.leadZero == f.leadZero && g.showSign == f.showSign
    ensures WithConversion(c, f).alt == (f.alt || c == 'p')
    ensures WithConversion(c, f).caps == (f.caps || c == 'X')
  {
    if c == 'D' || c == 'U' {
    } else if c == 'p' {
    } else if c == 'X' {
    } else {
    }
  }

  lemma FlagsOfAre(s: Spec)
    ensures var f := FlagsOf(s);
            && f.left == ('-' in s.flags) && f.leadZero == ('0' in s.flags) && f.showSign == ('+' in s.flags)
            && f.alt == ('#' in s.flags) && !f.caps
  {
    hide WithLength;
    LengthKeeps(WithFlags(NO_FLAGS, s.flags), s.length);
  }

  lemma LengthKeeps(f: Flags, length: Length)
    ensures var g := WithLength(f, length);
            g.left == f.left && g.leadZero == f.leadZero && g.showSign == f.showSign && g.alt == f.alt && g.caps == f.caps
  {
    match length
    case Plain =>
    case L =>
    case LL =>
    case H =>
    case HH =>
    case Z =>
  }

  lemma OtherShows(s: Spec, c: char, a: Arg)
    requires ItemOk(Conversion(s, c, a)) && c != 's' && !IsNumber(c)
    ensures Shown(Conversion(s, c, a)) ==
            if c == '%' then ['%'] else if c == 'c' then [LowByte(IntOf(a))] else if c == 'n' then "" else ['%', c]
  {
    assert "%" + [c] == ['%', c];
  }

  lemma TextShows(s: Spec, a: Arg)
    requires SpecOk(s)
    ensures Justify(TextOf(a), WithConversion('s', FlagsOf(s)), s.width) == Shown(Conversion(s, 's', a))
  {
    hide Justify, Fill, FlagsOf, WithConversion;
    FlagsAre(s, 's');
    JustifyIsFill(TextOf(a), s, WithConversion('s', FlagsOf(s)));
  }

  lemma RangeIs(s: Spec, c: char)
    requires SpecOk(s) && IsNumber(c)
    ensures Modulus(WithConversion(c, FlagsOf(s))) == Range(c, s.length)
  {
  }

  lemma NumberShows(s: Spec, c: char, a: Arg)
    requires IsNumber(c) && SpecOk(s)
    ensures NumberOut(c, WithConversion(c, FlagsOf(s)), s.width, IntOf(a)) == Shown(Conversion(s, c, a))
  {
    hide Justify, Fill, Digits, DecimalText, SignedWord, UnsignedWord, Residue, FlagsOf, WithConversion, Modulus;
    var f, v := WithConversion(c, FlagsOf(s)), IntOf(a);
    FlagsAre(s, c);
    RangeIs(s, c);
    JustifyIsFill(NumberIs(c, f, v), s, f);
    SignedText(f, v, Range(c, s.length));
    UnsignedText(f, v);
    UnsignedIs(f, v);
  }

  lemma UnsignedIs(f: Flags, v: int)
    ensures UnsignedWord(f, v) == v % Modulus(f)
  {
  }

  // ---------- the whole format ----------

  lemma {:induction false} FormatLiteral(text: string, rest: string, args: seq<Arg>)
    requires '%' !in text
    ensures Format(text + rest, args) == text + Format(rest, args)
  {
    hide Format;
    if text == "" {
      assert text + rest == rest;
    } else {
      FormatStep(text + rest, args);
      assert (text + rest)[1..] == text[1..] + rest;
      FormatLiteral(text[1..], rest, args);
      assert text == [text[0]] + text[1..];
    }
  }

  lemma FormatOne(item: Item, rest: string, args: seq<Arg>)
    requires ItemOk(item)
    ensures Format(RenderOne(item) + rest, ArgumentOf(item) + args) == Shown(item) + Format(rest, args)
  {
    hide Format, FormatSpec, Convert, Shown;
    match item
    case Literal(text) =>
      assert [] + args == args;
      FormatLiteral(text, rest, args);
      LiteralShown(text);
    case Conversion(s, c, a) =>
      var all := ArgumentOf(item) + args;
      ReadSpec(s, c, rest, all);
      SpecStep([c] + rest, FlagsOf(s), s.width, all);
      assert ([c] + rest)[1..] == rest;
      ConvertShows(s, c, a);
      if Takes(c) {
        assert all[0] == a && all[1..] == args;
      } else {
        assert all == args;
        NoArgument(s, c, a, FirstArg(all));
      }
  }

  lemma LiteralShown(text: string)
    ensures Shown(Literal(text)) == text
  {
  }

  lemma NoArgument(s: Spec, c: char, a: Arg, b: Arg)
    requires !Takes(c)
    ensures Convert(c, FlagsOf(s), s.width, a) == Convert(c, FlagsOf(s), s.width, b)
  {
    hide Convert;
    ConvertCases(c, FlagsOf(s), s.width, a);
    ConvertCases(c, FlagsOf(s), s.width, b);
  }

  /** A format made of items prints what each of them shows, in order, each conversion reading its own
      argument; what follows is printed with the arguments that are left. */
  lemma {:induction false} FormatShowsItems(items: seq<Item>, rest: string, args: seq<Arg>)
    requires ItemsOk(items)
    ensures Format(Render(items) + rest, Arguments(items) + args) == AllShown(items) + Format(rest, args)
  {
    hide Format, RenderOne, Shown, ItemOk, ArgumentOf;
    if items == [] {
      assert Render(items) + rest == rest && Arguments(items) + args == args;
    } else {
      var i, others := items[0], items[1..];
      assert forall j :: 0 <= j < |others| ==> others[j] == items[j + 1];
      FormatShowsItems(others, rest, args);
      FormatOne(i, Render(others) + rest, Arguments(others) + args);
      hide Render, Arguments, AllShown, ItemsOk;
      Regroup(RenderOne(i), Render(others), rest);
      Regroup(ArgumentOf(i), Arguments(others), args);
      Regroup(Shown(i), AllShown(others), Format(rest, args));
      ItemsUnfold(items);
    }
  }

  lemma Regroup<T>(a: seq<T>, b: seq<T>, c: seq<T>)
    ensures a + (b + c) == (a + b) + c
  {
  }

  lemma ItemsUnfold(items: seq<Item>)
    requires items != []
    ensures Render(items) == RenderOne(items[0]) + Render(items[1..])
    ensures Arguments(items) == ArgumentOf(items[0]) + Arguments(items[1..])
    ensures AllShown(items) == Shown(items[0]) + AllShown(items[1..])
  {
    hide RenderOne, ArgumentOf, Shown;
  }

  /** So a whole format prints exactly what its items show, in order. */
  lemma FormatExactly(items: seq<Item>)
    requires ItemsOk(items)
    ensures Format(Render(items), Arguments(items)) == AllShown(items)
  {
    hide Format;
    FormatShowsItems(items, "", []);
    FormatStep("", []);
    assert Render(items) + "" == Render(items) && Arguments(items) + [] == Arguments(items);
  }

  /** A conversion that breaks off at the end of the format prints nothing. */
  lemma {:induction false} CutOff(fs: string, args: seq<Arg>)
    requires forall i :: 0 <= i < |fs| ==> IsFlag(fs[i])
    ensures Format("%" + fs, args) == ""
  {
    hide Format, FormatSpec;
    FormatStep("%" + fs, args);
    assert ("%" + fs)[1..] == fs;
    OnlyFlags(fs, NO_FLAGS, 0, args);
  }

  lemma {:induction false} OnlyFlags(fs: string, f: Flags, width: nat, args: seq<Arg>)
    requires forall i :: 0 <= i < |fs| ==> IsFlag(fs[i])
    ensures FormatSpec(fs, f, width, args) == ""
  {
    SpecStep(fs, f, width, args);
    hide FormatSpec;
    if fs != "" {
      OnlyFlags(fs[1..], FlagsAfter(fs[0], f, width), WidthAfter(fs[0], width), args);
    }
  }

  /** There is no precision: a point anywhere before the conversion is ignored, and digits behind it
      go on the width. */
  lemma {:induction false} PointIgnored(before: string, behind: string, f: Flags, width: nat, args: seq<Arg>)
    requires forall i :: 0 <= i < |before| ==> IsFlag(before[i])
    ensures FormatSpec(before + "." + behind, f, width, args) == FormatSpec(before + behind, f, width, args)
  {
    hide FormatSpec, FlagsAfter, WidthAfter;
    var s, s' := before + "." + behind, before + behind;
    if before == "" {
      assert s == "." + behind && s[1..] == behind && s' == behind;
      SpecStep(s, f, width, args);
      PointIs(f, width);
    } else {
      assert s[1..] == before[1..] + "." + behind && s'[1..] == before[1..] + behind;
      SpecStep(s, f, width, args);
      SpecStep(s', f, width, args);
      PointIgnored(before[1..], behind, FlagsAfter(before[0], f, width), WidthAfter(before[0], width), args);
    }
  }

  lemma PointIs(f: Flags, width: nat)
    ensures IsFlag('.') && FlagsAfter('.', f, width) == f && WidthAfter('.', width) == width
  {
  }

  function WithZero(f: Flags, zero: bool): Flags {
    f.(leadZero := zero)
  }

  lemma OneDigit(c: char, f: Flags, width: nat, rest: string, args: seq<Arg>)
    requires IsDigit(c)
    ensures FormatSpec([c] + rest, f, width, args)
         == FormatSpec(rest, WithZero(f, f.leadZero || (c == '0' && width == 0)), (width * 10 + HexVal(c)) % TWO_32, args)
  {
    hide FormatSpec;
    assert ([c] + rest)[1..] == rest;
    SpecStep([c] + rest, f, width, args);
    DigitRead(c, f, width);
  }

  /** Any run of digits is the width, modulo 2^32. */
  lemma {:induction false} AnyWidth(ds: string, f: Flags, rest: string, args: seq<Arg>) returns (zero: bool)
    requires forall i :: 0 <= i < |ds| ==> IsDigit(ds[i])
    ensures FormatSpec(ds + rest, f, 0, args) == FormatSpec(rest, WithZero(f, zero), Value(ds, 10) % TWO_32, args)
    decreases |ds|
  {
    hide FormatSpec, Value, WithZero, HexVal, IsDigit;
    if ds == "" {
      assert ds + rest == rest;
      zero := f.leadZero;
      NoDigits(f);
    } else {
      var n := |ds| - 1;
      var w := Value(ds[..n], 10);
      var before := AnyWidth(ds[..n], f, [ds[n]] + rest, args);
      zero := before || (ds[n] == '0' && w % TWO_32 == 0);
      assert ds + rest == ds[..n] + ([ds[n]] + rest);
      OneDigit(ds[n], WithZero(f, before), w % TWO_32, rest, args);
      ZeroTwice(f, before, zero);
      ValueSnoc(ds);
      WidthWord(w, HexVal(ds[n]));
    }
  }

  lemma ZeroTwice(f: Flags, a: bool, b: bool)
    ensures WithZero(WithZero(f, a), b) == WithZero(f, b) && WithZero(f, a).leadZero == a
  {
  }

  lemma NoDigits(f: Flags)
    ensures Value("", 10) == 0 && WithZero(f, f.leadZero) == f
  {
  }

  lemma ValueSnoc(ds: string)
    requires ds != ""
    ensures Value(ds, 10) == Value(ds[..|ds| - 1], 10) * 10 + HexVal(ds[|ds| - 1])
  {
  }

  lemma DigitRead(c: char, f: Flags, width: nat)
    requires IsDigit(c)
    ensures IsFlag(c) && FlagsAfter(c, f, width) == f.(leadZero := f.leadZero || (c == '0' && width == 0))
    ensures WidthAfter(c, width) == (width * 10 + HexVal(c)) % TWO_32
  {
  }

  lemma WidthWord(w: nat, d: nat)
    ensures (w % TWO_32 * 10 + d) % TWO_32 == (w * 10 + d) % TWO_32
  {
    var q, r := w / TWO_32, w % TWO_32;
    var x := r * 10 + d;
    var q', r' := x / TWO_32, x % TWO_32;
    assert w * 10 + d == (q * 10 + q') * TWO_32 + r';
    ModUnique(w * 10 + d, TWO_32, q * 10 + q', r');
  }
}
