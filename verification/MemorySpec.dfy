/**
 What memmove, memcpy and memset do to memory, byte by byte, and when copying byte by byte in a
 given direction moves the source block unharmed.
 */
module MemorySpec {
  import opened Bits

  type Byte = b: int | 0 <= b < 256

  const WORD_RANGE: nat := 0x1_0000_0000
  const INT_LIMIT: nat := 0x8000_0000

  /** An address read as a signed long. */
  function Signed(a: nat): int {
    if a < INT_LIMIT then a else a - WORD_RANGE
  }

  /** A size converted to int. */
  function AsInt(n: nat): int {
    Signed(n % WORD_RANGE)
  }

  /** n bytes at s copied to d, lowest address first. */
  function Up(m: seq<Byte>, d: nat, s: nat, n: nat): (r: seq<Byte>)
    requires d + n <= |m| && s + n <= |m|
    ensures |r| == |m|
  {
    if n == 0 then m
    else
      var r := Up(m, d, s, n - 1);
      r[d + n - 1 := r[s + n - 1]]
  }

  /** n bytes at s copied to d, highest address first. */
  function Down(m: seq<Byte>, d: nat, s: nat, n: nat): (r: seq<Byte>)
    requires d + n <= |m| && s + n <= |m|
    ensures |r| == |m|
    decreases n
  {
    if n == 0 then m
    else
      var r := Down(m, d + 1, s + 1, n - 1);
      r[d := r[s]]
  }

  /** The n bytes at d are what the n bytes at s were; nothing else changed. */
  function Move(m: seq<Byte>, d: nat, s: nat, n: nat): (r: seq<Byte>)
    requires d + n <= |m| && s + n <= |m|
    ensures |r| == |m|
  {
    m[..d] + m[s..s + n] + m[d + n..]
  }

  /** The n bytes at d are all `byte`; nothing else changed. */
  function Fill(m: seq<Byte>, d: nat, n: nat, byte: Byte): (r: seq<Byte>)
    requires d + n <= |m|
    ensures |r| == |m|
  {
    m[..d] + seq<Byte>(n, _ => byte) + m[d + n..]
  }

  // ---------- copying byte by byte ----------

  ghost predicate Kept(m: seq<Byte>, r: seq<Byte>, lo: nat, hi: nat) {
    |r| == |m| && forall a :: 0 <= a < |m| && !(lo <= a < hi) ==> r[a] == m[a]
  }

  ghost predicate Copied(m: seq<Byte>, r: seq<Byte>, d: nat, s: nat, n: nat)
    requires d + n <= |r| && s + n <= |m|
  {
    forall a :: d <= a < d + n ==> r[a] == m[a - d + s]
  }

  lemma {:induction false} UpKeeps(m: seq<Byte>, d: nat, s: nat, n: nat)
    requires d + n <= |m| && s + n <= |m|
    ensures Kept(m, Up(m, d, s, n), d, d + n)
  {
    if n > 0 {
      UpKeeps(m, d, s, n - 1);
    }
  }

  /** Upwards, a destination inside the source repeats the bytes before it. */
  lemma {:induction false} UpRepeats(m: seq<Byte>, d: nat, s: nat, n: nat)
    requires d + n <= |m| && s + n <= |m| && s < d
    ensures Copied(Up(m, d, s, n), Up(m, d, s, n), d, s, n)
  {
    if n > 0 {
      UpRepeats(m, d, s, n - 1);
    }
  }

  /** Any other destination gets the source. */
  lemma {:induction false} UpCopies(m: seq<Byte>, d: nat, s: nat, n: nat)
    requires d + n <= |m| && s + n <= |m| && (d <= s || s + n <= d)
    ensures Copied(m, Up(m, d, s, n), d, s, n)
  {
    if n > 0 {
      UpCopies(m, d, s, n - 1);
      UpKeeps(m, d, s, n - 1);
    }
  }

  lemma UpBytes(m: seq<Byte>, d: nat, s: nat, n: nat)
    requires d + n <= |m| && s + n <= |m|
    ensures Kept(m, Up(m, d, s, n), d, d + n)
    ensures s < d ==> Copied(Up(m, d, s, n), Up(m, d, s, n), d, s, n)
    ensures d <= s || s + n <= d ==> Copied(m, Up(m, d, s, n), d, s, n)
  {
    hide Up, Kept, Copied;
    UpKeeps(m, d, s, n);
    if s < d {
      UpRepeats(m, d, s, n);
    }
    if d <= s || s + n <= d {
      UpCopies(m, d, s, n);
    }
  }

  lemma {:induction false} DownKeeps(m: seq<Byte>, d: nat, s: nat, n: nat)
    requires d + n <= |m| && s + n <= |m|
    ensures Kept(m, Down(m, d, s, n), d, d + n)
    decreases n
  {
    if n > 0 {
      DownKeeps(m, d + 1, s + 1, n - 1);
    }
  }

  lemma {:induction false} DownRepeats(m: seq<Byte>, d: nat, s: nat, n: nat)
    requires d + n <= |m| && s + n <= |m| && d < s
    ensures Copied(Down(m, d, s, n), Down(m, d, s, n), d, s, n)
    decreases n
  {
    if n > 0 {
      DownRepeats(m, d + 1, s + 1, n - 1);
      OneMoreBelow(Down(m, d + 1, s + 1, n - 1), d, s, n);
    }
  }

  lemma OneMoreBelow(r: seq<Byte>, d: nat, s: nat, n: nat)
    requires n > 0 && d < s && s + n <= |r| && Copied(r, r, d + 1, s + 1, n - 1)
    ensures Copied(r[d := r[s]], r[d := r[s]], d, s, n)
  {
    var r' := r[d := r[s]];
    forall a | d <= a < d + n
      ensures r'[a] == r'[a - d + s]
    {
      if a > d {
        assert r[a] == r[a - (d + 1) + (s + 1)];
      }
    }
  }

  lemma {:induction false} DownCopies(m: seq<Byte>, d: nat, s: nat, n: nat)
    requires d + n <= |m| && s + n <= |m| && (s <= d || d + n <= s)
    ensures Copied(m, Down(m, d, s, n), d, s, n)
    decreases n
  {
    if n > 0 {
      DownCopies(m, d + 1, s + 1, n - 1);
      DownKeeps(m, d + 1, s + 1, n - 1);
    }
  }

  lemma DownBytes(m: seq<Byte>, d: nat, s: nat, n: nat)
    requires d + n <= |m| && s + n <= |m|
    ensures Kept(m, Down(m, d, s, n), d, d + n)
    ensures d < s ==> Copied(Down(m, d, s, n), Down(m, d, s, n), d, s, n)
    ensures s <= d || d + n <= s ==> Copied(m, Down(m, d, s, n), d, s, n)
  {
    hide Down, Kept, Copied;
    DownKeeps(m, d, s, n);
    if d < s {
      DownRepeats(m, d, s, n);
    }
    if s <= d || d + n <= s {
      DownCopies(m, d, s, n);
    }
  }

  /** A memory that shows a wrong copy: one at address a, zero elsewhere. */
  function Spot(len: nat, a: nat): (m: seq<Byte>)
    ensures |m| == len
  {
    seq<Byte>(len, i => if i == a then 1 else 0)
  }

  /** Copying upwards is a move exactly when the destination does not start inside the source. */
  lemma UpMoves(len: nat, d: nat, s: nat, n: nat)
    requires d + n <= len && s + n <= len
    ensures (forall m: seq<Byte> :: |m| == len ==> Up(m, d, s, n) == Move(m, d, s, n)) <==> !(s < d < s + n)
  {
    if s < d < s + n {
      var m := Spot(len, s);
      UpBytes(m, d, s, n);
      assert Up(m, d, s, n)[d] == Up(m, d, s, n)[s] == 1;
      assert Up(m, d, s, n)[d + (d - s)] == 1;
      assert Move(m, d, s, n)[d + (d - s)] == m[d] == 0;
    } else {
      forall m: seq<Byte> | |m| == len
        ensures Up(m, d, s, n) == Move(m, d, s, n)
      {
        UpBytes(m, d, s, n);
      }
    }
  }

  /** Copying downwards is a move exactly when the source does not start inside the destination. */
  lemma DownMoves(len: nat, d: nat, s: nat, n: nat)
    requires d + n <= len && s + n <= len
    ensures (forall m: seq<Byte> :: |m| == len ==> Down(m, d, s, n) == Move(m, d, s, n)) <==> !(d < s < d + n)
  {
    if d < s < d + n {
      var last := s + n - 1;
      var m := Spot(len, last);
      DownBytes(m, d, s, n);
      assert Down(m, d, s, n)[d + n - 1] == Down(m, d, s, n)[last] == 1;
      assert Down(m, d, s, n)[d + n - 1 - (s - d)] == 1;
      assert Move(m, d, s, n)[d + n - 1 - (s - d)] == m[d + n - 1] == 0;
    } else {
      forall m: seq<Byte> | |m| == len
        ensures Down(m, d, s, n) == Move(m, d, s, n)
      {
        DownBytes(m, d, s, n);
      }
    }
  }

  // ---------- memmove and memcpy ----------

  /** The byte mover's counter is an int: it cannot count to 2^31. */
  predicate Miscounts(d: nat, s: nat, n: nat) {
    d % 4 != s % 4 && n >= INT_LIMIT
  }

  function Memmove(m: seq<Byte>, d: nat, s: nat, n: nat): seq<Byte>
    requires d + n <= |m| && s + n <= |m|
  {
    if n == 0 || d == s || Miscounts(d, s, n) then m
    else if Signed(d) < Signed(s) then Up(m, d, s, n)
    else Down(m, d, s, n)
  }

  function Memcpy(m: seq<Byte>, d: nat, s: nat, n: nat): seq<Byte>
    requires d + n <= |m| && s + n <= |m|
  {
    if n == 0 || d == s || Miscounts(d, s, n) then m else Up(m, d, s, n)
  }

  /** The blocks overlap, and one starts below 2^31 and the other not, so that comparing the
      addresses as signed words gets their order wrong. */
  predicate Straddles(d: nat, s: nat, n: nat) {
    d < s + n && s < d + n && (d < INT_LIMIT <= s || s < INT_LIMIT <= d)
  }

  lemma NothingToMove(len: nat, d: nat, s: nat, n: nat)
    requires d + n <= len && s + n <= len && (n == 0 || d == s)
    ensures forall m: seq<Byte> :: |m| == len ==> Move(m, d, s, n) == m
  {
    forall m: seq<Byte> | |m| == len
      ensures Move(m, d, s, n) == m
    {
      assert m == m[..d] + m[d..d + n] + m[d + n..];
    }
  }

  /** A block that was to move, and did not. */
  lemma StillNotMoved(len: nat, d: nat, s: nat, n: nat)
    requires d + n <= len && s + n <= len && n > 0 && d != s
    ensures Move(Spot(len, s), d, s, n) != Spot(len, s)
  {
    assert Move(Spot(len, s), d, s, n)[d] == 1;
  }

  /** memmove moves the block for every memory, overlap, length and alignment, except when the
      blocks straddle 2^31 or when 2^31 or more bytes go to a different alignment. */
  lemma MemmoveExactly(len: nat, d: nat, s: nat, n: nat)
    requires d + n <= len <= WORD_RANGE && s + n <= len
    ensures (forall m: seq<Byte> :: |m| == len ==> Memmove(m, d, s, n) == Move(m, d, s, n)) <==>
            !Straddles(d, s, n) && !Miscounts(d, s, n)
  {
    hide Up, Down, Move, Spot;
    if n == 0 || d == s {
      NothingToMove(len, d, s, n);
    } else if Miscounts(d, s, n) {
      StillNotMoved(len, d, s, n);
      assert |Spot(len, s)| == len;
    } else if Signed(d) < Signed(s) {
      UpMoves(len, d, s, n);
      assert forall m: seq<Byte> :: |m| == len ==> Memmove(m, d, s, n) == Up(m, d, s, n);
    } else {
      DownMoves(len, d, s, n);
      assert forall m: seq<Byte> :: |m| == len ==> Memmove(m, d, s, n) == Down(m, d, s, n);
    }
  }

  /** memcpy copies exactly when the destination does not start inside the source, with the same
      limit on the byte mover. */
  lemma MemcpyExactly(len: nat, d: nat, s: nat, n: nat)
    requires d + n <= len && s + n <= len
    ensures (forall m: seq<Byte> :: |m| == len ==> Memcpy(m, d, s, n) == Move(m, d, s, n)) <==>
            !(s < d < s + n) && !Miscounts(d, s, n)
  {
    hide Up, Move, Spot;
    if n == 0 || d == s {
      NothingToMove(len, d, s, n);
    } else if Miscounts(d, s, n) {
      StillNotMoved(len, d, s, n);
      assert |Spot(len, s)| == len;
    } else {
      UpMoves(len, d, s, n);
      assert forall m: seq<Byte> :: |m| == len ==> Memcpy(m, d, s, n) == Up(m, d, s, n);
    }
  }

  // ---------- phases ----------

  /** An upward copy in two phases. */
  lemma {:induction false} UpPhases(m: seq<Byte>, d: nat, s: nat, k: nat, n: nat)
    requires d + k + n <= |m| && s + k + n <= |m|
    ensures Up(Up(m, d, s, k), d + k, s + k, n) == Up(m, d, s, k + n)
    decreases n
  {
    if n > 0 {
      UpPhases(m, d, s, k, n - 1);
    }
  }

  /** A downward copy in two phases. */
  lemma {:induction false} DownPhases(m: seq<Byte>, d: nat, s: nat, k: nat, n: nat)
    requires d + k + n <= |m| && s + k + n <= |m|
    ensures Down(Down(m, d + n, s + n, k), d, s, n) == Down(m, d, s, k + n)
    decreases n
  {
    if n > 0 {
      DownPhases(m, d + 1, s + 1, k, n - 1);
    }
  }

  // ---------- masks and words ----------

  lemma OrStep(x: nat, y: nat)
    ensures Or(x, y) / 2 == Or(x / 2, y / 2) && (Or(x, y) % 2 == 0 <==> x % 2 == 0 && y % 2 == 0)
  {
  }

  lemma XorStep(x: nat, y: nat)
    ensures Xor(x, y) / 2 == Xor(x / 2, y / 2) && (Xor(x, y) % 2 == 0 <==> x % 2 == y % 2)
  {
  }

  lemma LowBits(x: nat)
    ensures And(x, 3) == x % 4
    ensures x % 4 == 0 <==> x % 2 == 0 && x / 2 % 2 == 0
  {
    assert Pow2(2) == 4;
    AndLowMask(x, 2);
  }

  /** The joint mask test is zero exactly when both addresses are word aligned. */
  lemma BothAligned(d: nat, s: nat)
    ensures And(Or(d, s), 3) == 0 <==> d % 4 == 0 && s % 4 == 0
  {
    LowBits(Or(d, s));
    LowBits(d);
    LowBits(s);
    OrStep(d, s);
    OrStep(d / 2, s / 2);
  }

  /** The difference test is zero exactly when both addresses are equally aligned. */
  lemma SameAlignment(d: nat, s: nat)
    ensures And(Xor(d, s), 3) == 0 <==> d % 4 == s % 4
  {
    LowBits(Xor(d, s));
    XorStep(d, s);
    XorStep(d / 2, s / 2);
    FourOf(d);
    FourOf(s);
  }

  lemma FourOf(x: nat)
    ensures x % 4 == x / 2 % 2 * 2 + x % 2
  {
  }

  function At(m: seq<Byte>, a: nat): nat
    requires a < |m|
  {
    m[a]
  }

  /** A little-endian word. */
  function Word(m: seq<Byte>, a: nat): nat
    requires a + 4 <= |m|
  {
    At(m, a) + 0x100 * (At(m, a + 1) + 0x100 * (At(m, a + 2) + 0x100 * At(m, a + 3)))
  }

  function PutWord(m: seq<Byte>, a: nat, w: nat): (r: seq<Byte>)
    requires a + 4 <= |m|
    ensures |r| == |m|
  {
    m[a := w % 0x100][a + 1 := w / 0x100 % 0x100][a + 2 := w / 0x1_0000 % 0x100][a + 3 := w / 0x100_0000 % 0x100]
  }

  lemma Split(b0: Byte, b1: Byte, b2: Byte, b3: Byte)
    ensures var w: nat := (b0 as int) + 0x100 * ((b1 as int) + 0x100 * ((b2 as int) + 0x100 * (b3 as int)));
            w % 0x100 == b0 && w / 0x100 % 0x100 == b1 && w / 0x1_0000 % 0x100 == b2 && w / 0x100_0000 % 0x100 == b3
  {
  }

  /** Copying one word is copying its four bytes, in either order, when they are a word apart. */
  lemma WordCopy(m: seq<Byte>, d: nat, s: nat)
    requires d + 4 <= |m| && s + 4 <= |m| && (d + 4 <= s || s + 4 <= d)
    ensures PutWord(m, d, Word(m, s)) == Up(m, d, s, 4) == Down(m, d, s, 4)
  {
    Split(m[s], m[s + 1], m[s + 2], m[s + 3]);
    UpBytes(m, d, s, 4);
    DownBytes(m, d, s, 4);
    hide Up, Down;
    assert PutWord(m, d, Word(m, s)) == Up(m, d, s, 4);
    assert Up(m, d, s, 4) == Down(m, d, s, 4);
  }
}
