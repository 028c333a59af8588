/**
 memmove, memcpy and memset of lib/libc/string, which copy and fill a word at a time, on memory
 as an array of bytes indexed by address.
 */
module MemoryCode {
  import opened Bits
  import opened MemorySpec

  function Positive(len: int): nat {
    if len > 0 then len else 0
  }

  /** count - len on unsigned words. */
  function Minus(count: nat, len: int): nat {
    (count - len) % WORD_RANGE
  }

  lemma MinusInt(count: nat)
    requires count < WORD_RANGE
    ensures Minus(count, AsInt(count)) == 0
    ensures count < INT_LIMIT ==> AsInt(count) == count
    ensures count >= INT_LIMIT ==> AsInt(count) < 0
  {
  }

  lemma MinusNat(count: nat, len: nat)
    requires len <= count < WORD_RANGE
    ensures Minus(count, len) == count - len
  {
  }

  /** Blocks of equal alignment are at least a word apart. */
  lemma WordApart(d: nat, s: nat)
    requires d != s && d % 4 == s % 4
    ensures d + 4 <= s || s + 4 <= d
  {
  }

  /** The byte mover going up: nothing for a counter that is not positive. */
  method BytesUp(mem: array<Byte>, d: nat, s: nat, len: int) returns (d': nat, s': nat)
    requires d + Positive(len) <= mem.Length && s + Positive(len) <= mem.Length
    modifies mem
    ensures mem[..] == Up(old(mem[..]), d, s, Positive(len))
    ensures d' == d + Positive(len) && s' == s + Positive(len)
  {
    d', s' := d, s;
    var left := len;
    while left > 0
      invariant left <= len && d' == d + Positive(len) - Positive(left) && s' == s + Positive(len) - Positive(left)
      invariant mem[..] == Up(old(mem[..]), d, s, d' - d)
    {
      mem[d'] := mem[s'];
      d', s', left := d' + 1, s' + 1, left - 1;
    }
  }

  /** The byte mover going down, from the ends of the blocks. */
  method BytesDown(mem: array<Byte>, d: nat, s: nat, len: int) returns (d': nat, s': nat)
    requires Positive(len) <= d <= mem.Length && Positive(len) <= s <= mem.Length
    modifies mem
    ensures d' == d - Positive(len) && s' == s - Positive(len)
    ensures mem[..] == Down(old(mem[..]), d', s', Positive(len))
  {
    d', s' := d, s;
    var left := len;
    while left > 0
      invariant left <= len && d' == d - Positive(len) + Positive(left) && s' == s - Positive(len) + Positive(left)
      invariant mem[..] == Down(old(mem[..]), d', s', d - d')
    {
      d', s', left := d' - 1, s' - 1, left - 1;
      mem[d'] := mem[s'];
    }
  }

  method CopyWord(mem: array<Byte>, d: nat, s: nat)
    requires d + 4 <= mem.Length && s + 4 <= mem.Length && d % 4 == 0 && s % 4 == 0
    modifies mem
    ensures mem[..] == PutWord(old(mem[..]), d, Word(old(mem[..]), s))
  {
    var w := Word(mem[..], s);
    StoreWord(mem, d, w);
  }

  /** Words are stored at word boundaries only. */
  method StoreWord(mem: array<Byte>, d: nat, w: nat)
    requires d + 4 <= mem.Length && d % 4 == 0
    modifies mem
    ensures mem[..] == PutWord(old(mem[..]), d, w)
  {
    mem[d] := w % 0x100;
    mem[d + 1] := w / 0x100 % 0x100;
    mem[d + 2] := w / 0x1_0000 % 0x100;
    mem[d + 3] := w / 0x100_0000 % 0x100;
  }

  method WordsUp(mem: array<Byte>, d: nat, s: nat, words: nat) returns (d': nat, s': nat)
    requires d + 4 * words <= mem.Length && s + 4 * words <= mem.Length
    requires words > 0 ==> d != s && d % 4 == 0 && s % 4 == 0
    modifies mem
    ensures mem[..] == Up(old(mem[..]), d, s, 4 * words)
    ensures d' == d + 4 * words && s' == s + 4 * words
  {
    hide Up, PutWord, Word;
    d', s' := d, s;
    UpNothing(mem[..], d, s);
    var left: nat := words;
    while left > 0
      invariant left <= words && d' == d + 4 * (words - left) && s' == s + 4 * (words - left)
      invariant mem[..] == Up(old(mem[..]), d, s, d' - d)
    {
      WordApart(d', s');
      WordCopy(mem[..], d', s');
      UpPhases(old(mem[..]), d, s, d' - d, 4);
      CopyWord(mem, d', s');
      d', s', left := d' + 4, s' + 4, left - 1;
    }
  }

  lemma UpNothing(m: seq<Byte>, d: nat, s: nat)
    requires d <= |m| && s <= |m|
    ensures Up(m, d, s, 0) == m == Down(m, d, s, 0)
  {
  }

  method WordsDown(mem: array<Byte>, d: nat, s: nat, words: nat) returns (d': nat, s': nat)
    requires 4 * words <= d <= mem.Length && 4 * words <= s <= mem.Length
    requires words > 0 ==> d != s && d % 4 == 0 && s % 4 == 0
    modifies mem
    ensures d' == d - 4 * words && s' == s - 4 * words
    ensures mem[..] == Down(old(mem[..]), d', s', 4 * words)
  {
    hide Down, PutWord, Word;
    d', s' := d, s;
    UpNothing(mem[..], d, s);
    var left: nat := words;
    while left > 0
      invariant left <= words && d' == d - 4 * (words - left) && s' == s - 4 * (words - left)
      invariant mem[..] == Down(old(mem[..]), d', s', d - d')
    {
      d', s', left := d' - 4, s' - 4, left - 1;
      WordApart(d', s');
      WordCopy(mem[..], d', s');
      DownPhases(old(mem[..]), d', s', d - d' - 4, 4);
      CopyWord(mem, d', s');
    }
  }

  lemma NextBoundary(a: nat)
    ensures (a + (4 - a % 4)) % 4 == 0
  {
  }

  /** How many bytes go to the byte mover before the words, copying upwards, and how many remain. */
  method LeadUp(d: nat, s: nat, n: nat) returns (len: int, rest: nat)
    requires n < WORD_RANGE
    ensures if Miscounts(d, s, n) then Positive(len) == rest == 0 else Positive(len) + rest == n
    ensures rest >= 4 ==> (d + Positive(len)) % 4 == 0 && (s + Positive(len)) % 4 == 0
  {
    hide And, Or, Xor, Minus, AsInt;
    len, rest := 0, n;
    BothAligned(d, s);
    SameAlignment(d, s);
    LowBits(d);
    MinusInt(n);
    if And(Or(d, s), 3) != 0 {
      if And(Xor(d, s), 3) != 0 || n < 4 {
        len := AsInt(n);
      } else {
        len := 4 - And(d, 3);
        NextBoundary(d);
        NextBoundary(s);
        MinusNat(n, len);
      }
      rest := Minus(n, len);
    }
  }

  /** The same downwards, from the ends of the blocks. */
  method LeadDown(d: nat, s: nat, n: nat) returns (len: int, rest: nat)
    requires n < WORD_RANGE
    ensures if Miscounts(d, s, n) then Positive(len) == rest == 0 else Positive(len) + rest == n
    ensures rest >= 4 ==> Positive(len) <= d && Positive(len) <= s
    ensures rest >= 4 ==> (d - Positive(len)) % 4 == 0 && (s - Positive(len)) % 4 == 0
  {
    hide And, Or, Xor, Minus, AsInt;
    len, rest := 0, n;
    BothAligned(d, s);
    SameAlignment(d, s);
    LowBits(d);
    MinusInt(n);
    if And(Or(d, s), 3) != 0 {
      if And(Xor(d, s), 3) != 0 || n <= 4 {
        len := AsInt(n);
      } else {
        len := And(d, 3);
        MinusNat(n, len);
      }
      rest := Minus(n, len);
    }
  }

  lemma Rest(n: nat)
    ensures And(n, 3) == n - n / 4 * 4
  {
    hide And;
    LowBits(n);
  }

  lemma ShiftedAlignment(d: nat, s: nat, k: nat)
    ensures (d + k) % 4 == (s + k) % 4 <==> d % 4 == s % 4
    ensures forall n :: Miscounts(d + k, s + k, n) <==> Miscounts(d, s, n)
  {
  }

  /** The upward half of memmove, and all of memcpy. */
  method CopyUp(mem: array<Byte>, dest: nat, src: nat, count: nat)
    requires dest + count <= mem.Length && src + count <= mem.Length && count < WORD_RANGE
    requires dest != src
    modifies mem
    ensures mem[..] == if Miscounts(dest, src, count) then old(mem[..]) else Up(old(mem[..]), dest, src, count)
  {
    hide Up, And, Miscounts;
    var len, n := LeadUp(dest, src, count);
    Rest(n);
    var d, s := BytesUp(mem, dest, src, len);
    d, s := WordsUp(mem, d, s, n / 4);
    UpPhases(old(mem[..]), dest, src, Positive(len), n / 4 * 4);
    d, s := BytesUp(mem, d, s, And(n, 3));
    UpPhases(old(mem[..]), dest, src, Positive(len) + n / 4 * 4, And(n, 3));
    UpNothing(old(mem[..]), dest, src);
  }

  /** Bytes, words, bytes, from the ends of the blocks downwards. */
  method PhasesDown(mem: array<Byte>, dEnd: nat, sEnd: nat, len: int, n: nat)
    requires Positive(len) + n <= dEnd <= mem.Length && Positive(len) + n <= sEnd <= mem.Length && dEnd != sEnd
    requires n >= 4 ==> (dEnd - Positive(len)) % 4 == 0 && (sEnd - Positive(len)) % 4 == 0
    modifies mem
    ensures mem[..] == Down(old(mem[..]), dEnd - Positive(len) - n, sEnd - Positive(len) - n, Positive(len) + n)
  {
    hide Down, And;
    Rest(n);
    var d, s := BytesDown(mem, dEnd, sEnd, len);
    d, s := WordsDown(mem, d, s, n / 4);
    DownPhases(old(mem[..]), d, s, Positive(len), 4 * (n / 4));
    d, s := BytesDown(mem, d, s, And(n, 3));
    DownPhases(old(mem[..]), d, s, Positive(len) + 4 * (n / 4), And(n, 3));
  }

  /** The downward half of memmove. */
  method CopyDown(mem: array<Byte>, dest: nat, src: nat, count: nat)
    requires dest + count <= mem.Length && src + count <= mem.Length && count < WORD_RANGE
    requires dest != src
    modifies mem
    ensures mem[..] == if Miscounts(dest, src, count) then old(mem[..]) else Down(old(mem[..]), dest, src, count)
  {
    hide Down, And, Miscounts;
    ShiftedAlignment(dest, src, count);
    var len, n := LeadDown(dest + count, src + count, count);
    PhasesDown(mem, dest + count, src + count, len, n);
    UpNothing(old(mem[..]), dest + count, src + count);
  }

  method MemmoveBytes(mem: array<Byte>, dest: nat, src: nat, count: nat) returns (r: nat)
    requires dest + count <= mem.Length <= WORD_RANGE && src + count <= mem.Length && count < WORD_RANGE
    modifies mem
    ensures r == dest && mem[..] == Memmove(old(mem[..]), dest, src, count)
  {
    r := dest;
    if count == 0 || dest == src {
      return;
    }
    if Signed(dest) < Signed(src) {
      CopyUp(mem, dest, src, count);
    } else {
      CopyDown(mem, dest, src, count);
    }
  }

  method MemcpyBytes(mem: array<Byte>, dest: nat, src: nat, count: nat) returns (r: nat)
    requires dest + count <= mem.Length <= WORD_RANGE && src + count <= mem.Length && count < WORD_RANGE
    modifies mem
    ensures r == dest && mem[..] == Memcpy(old(mem[..]), dest, src, count)
  {
    r := dest;
    if count == 0 || dest == src {
      return;
    }
    CopyUp(mem, dest, src, count);
  }

  // ---------- memset ----------

  lemma FillMore(m: seq<Byte>, d: nat, k: nat, n: nat, byte: Byte)
    requires d + k + n <= |m|
    ensures Fill(Fill(m, d, k, byte), d + k, n, byte) == Fill(m, d, k + n, byte)
    ensures Fill(m, d, 0, byte) == m
  {
  }

  /** The byte in all four places of a word, by doubling it twice. */
  function Replicated(byte: nat): nat {
    var cc := Or(byte, byte * 0x100);
    Or(cc, cc * 0x1_0000) % WORD_RANGE
  }

  lemma BytePowers()
    ensures Pow2(8) == 0x100 && Pow2(16) == 0x1_0000
  {
    assert Pow2(4) == 16;
    assert Pow2(8) == 16 * Pow2(4);
    assert Pow2(12) == 16 * Pow2(8);
    assert Pow2(16) == 16 * Pow2(12);
  }

  lemma ReplicatedIs(byte: nat)
    requires byte < 0x100
    ensures Replicated(byte) == byte * 0x101_0101
  {
    hide Pow2, Or;
    BytePowers();
    OrSum(byte, byte, 8);
    OrSum(byte * 0x101, byte * 0x101, 16);
  }

  lemma WordFill(m: seq<Byte>, d: nat, byte: Byte)
    requires d + 4 <= |m|
    ensures PutWord(m, d, Replicated(byte)) == Fill(m, d, 4, byte)
  {
    hide Replicated;
    ReplicatedIs(byte);
    FourPlaces(byte);
    FourBytes(m, d, Replicated(byte), byte);
  }

  lemma FourPlaces(byte: Byte)
    ensures var w: nat := byte * 0x101_0101;
            w % 0x100 == w / 0x100 % 0x100 == w / 0x1_0000 % 0x100 == w / 0x100_0000 % 0x100 == byte
  {
    Split(byte, byte, byte, byte);
  }

  lemma FourBytes(m: seq<Byte>, d: nat, w: nat, byte: Byte)
    requires d + 4 <= |m|
    requires w % 0x100 == w / 0x100 % 0x100 == w / 0x1_0000 % 0x100 == w / 0x100_0000 % 0x100 == byte
    ensures PutWord(m, d, w) == Fill(m, d, 4, byte)
  {
  }

  /** Masking the negated address gives the bytes up to the next word boundary. */
  lemma ToBoundary(s: nat)
    requires s < WORD_RANGE
    ensures And((WORD_RANGE - s) % WORD_RANGE, 3) == (4 - s % 4) % 4
  {
    hide And;
    LowBits((WORD_RANGE - s) % WORD_RANGE);
  }

  lemma FillOne(m: seq<Byte>, d: nat, byte: Byte)
    requires d < |m|
    ensures Fill(m, d, 1, byte) == m[d := byte]
  {
  }

  method FillBytes(mem: array<Byte>, s: nat, len: nat, byte: Byte) returns (xs: nat)
    requires s + len <= mem.Length
    modifies mem
    ensures mem[..] == Fill(old(mem[..]), s, len, byte) && xs == s + len
  {
    hide Fill;
    xs := s;
    FillMore(mem[..], s, 0, 0, byte);
    var left: nat := len;
    while left > 0
      invariant left <= len && xs == s + len - left
      invariant mem[..] == Fill(old(mem[..]), s, xs - s, byte)
    {
      FillMore(old(mem[..]), s, xs - s, 1, byte);
      FillOne(mem[..], xs, byte);
      mem[xs] := byte;
      xs, left := xs + 1, left - 1;
    }
  }

  method FillWords(mem: array<Byte>, s: nat, words: nat, cc: nat, ghost byte: Byte) returns (xs: nat)
    requires s + 4 * words <= mem.Length && s % 4 == 0 && cc == Replicated(byte)
    modifies mem
    ensures mem[..] == Fill(old(mem[..]), s, 4 * words, byte) && xs == s + 4 * words
  {
    hide Fill, PutWord, Replicated;
    xs := s;
    FillMore(mem[..], s, 0, 0, byte);
    var left: nat := words;
    while left > 0
      invariant left <= words && xs == s + 4 * (words - left)
      invariant mem[..] == Fill(old(mem[..]), s, xs - s, byte)
    {
      FillMore(old(mem[..]), s, xs - s, 4, byte);
      WordFill(mem[..], xs, byte);
      StoreWord(mem, xs, cc);
      xs, left := xs + 4, left - 1;
    }
  }

  /** memset on any length and alignment equals the plain byte fill. */
  method MemsetBytes(mem: array<Byte>, s: nat, c: int, count: nat) returns (r: nat)
    requires s + count <= mem.Length <= WORD_RANGE && s < WORD_RANGE
    modifies mem
    ensures r == s && mem[..] == Fill(old(mem[..]), s, count, c % 0x100)
  {
    hide And, Fill, Replicated;
    var byte: Byte := c % 0x100;
    var xs, n, len := s, count, And((WORD_RANGE - s) % WORD_RANGE, 3);
    ToBoundary(s);
    FillMore(old(mem[..]), s, 0, 0, byte);
    if n > len {
      n := n - len;
      var cc := Replicated(byte);
      // single bytes up to the first word boundary
      xs := FillBytes(mem, xs, len, byte);
      // whole words from there
      FillMore(old(mem[..]), s, len, 4 * (n / 4), byte);
      xs := FillWords(mem, xs, n / 4, cc, byte);
      Rest(n);
      n := And(n, 3);
    }
    // and what is left over
    FillMore(old(mem[..]), s, xs - s, n, byte);
    xs := FillBytes(mem, xs, n, byte);
    r := s;
  }
}
