/**
 The memory of lib/heap/heap.c as tiles: free chunks and live blocks that cover the heap from
 its base to its end without gap or overlap. heap_alloc carves the lowest chunk that is large
 enough, heap_free turns a block back into free space and merges it with its neighbours.
 */
module HeapTiles {
  import opened Basics
  import opened Bits

  /** sizeof(struct alloc_struct_begin) and sizeof(struct free_heap_chunk). */
  const HEADER: nat := 12
  const CHUNK: nat := 12

  /** Words are numbers below 2^32. */
  const WORDS: nat := 0x1_0000_0000

  /** A live block remembers the pointer handed out and the number of bytes asked for. */
  datatype Tile = Free(addr: nat, len: nat) | Live(addr: nat, len: nat, ptr: nat, request: nat)

  /** The tiles fill [lo, hi) in address order; every tile can hold a chunk and is a whole number of words. */
  ghost predicate Contiguous(t: seq<Tile>, lo: nat, hi: nat) {
    if t == [] then lo == hi
    else t[0].addr == lo && CHUNK <= t[0].len && t[0].len % 4 == 0 && Contiguous(t[1..], lo + t[0].len, hi)
  }

  /** No two free chunks abut. */
  ghost predicate Coalesced(t: seq<Tile>) {
    forall i :: 0 <= i < |t| - 1 ==> t[i].Live? || t[i + 1].Live?
  }

  /** Header and requested bytes lie inside the block. */
  ghost predicate BlockOk(b: Tile) {
    b.Live? ==> b.addr + HEADER <= b.ptr && b.ptr % 4 == 0 && b.ptr + b.request <= b.addr + b.len
  }

  ghost predicate Tiling(t: seq<Tile>, lo: nat, hi: nat) {
    && Contiguous(t, lo, hi)
    && Coalesced(t)
    && (forall i :: 0 <= i < |t| ==> BlockOk(t[i]))
  }

  function Total(t: seq<Tile>): nat {
    if t == [] then 0 else t[0].len + Total(t[1..])
  }

  function LiveSet(t: seq<Tile>): set<Tile> {
    set b | b in t && b.Live?
  }

  // ---------- sizes ----------

  function RoundUp(a: nat, b: nat): nat
    requires 0 < b <= WORDS
  {
    WordRange();
    And((a + (b - 1)) % WORDS, Not(b - 1, 32))
  }

  /** The mask test on unsigned words. */
  predicate BadAlignment(alignment: nat) {
    And(alignment, (alignment + WORDS - 1) % WORDS) != 0
  }

  function Boundary(alignment: nat): nat {
    if alignment < 16 then 16 else alignment
  }

  /** What the alignment may cost. */
  function Slack(alignment: nat): nat {
    if alignment > 0 then Boundary(alignment) else 0
  }

  /** The bytes heap_alloc needs for header, request and alignment. */
  function Padded(request: nat, alignment: nat): nat {
    var size := if request + HEADER < CHUNK then CHUNK else request + HEADER;
    RoundUp(size, 4) + Slack(alignment)
  }

  /** The size it computes, in 32-bit words. */
  function SizeWord(request: nat, alignment: nat): nat {
    var size := (request + HEADER) % WORDS;
    (RoundUp(if size < CHUNK then CHUNK else size, 4) + Slack(alignment)) % WORDS
  }

  /** The same in plain arithmetic: the least multiple of 4 not below header and request, and where an
      alignment is asked for, the larger of it and 16 on top. */
  function Needed(request: nat, alignment: nat): nat {
    (request + 15) / 4 * 4 + if alignment == 0 then 0 else if alignment < 16 then 16 else alignment
  }

  /** Both arguments are words, and padding does not wrap; a bad alignment is refused before any padding. */
  predicate Representable(request: nat, alignment: nat) {
    && request < WORDS && alignment < WORDS
    && (BadAlignment(alignment) || (request + 16 <= WORDS && Needed(request, alignment) < WORDS))
  }

  /** The pointer handed out for a block at addr. */
  function Payload(addr: nat, alignment: nat): nat
    requires alignment < WORDS
  {
    if alignment > 0 then RoundUp(addr + HEADER, Boundary(alignment)) else addr + HEADER
  }

  lemma WordRange()
    ensures Pow2(32) == WORDS && Pow2(2) == 4 && Pow2(4) == 16
  {
    assert Pow2(8) == 16 * Pow2(4);
    assert Pow2(16) == 0x100 * Pow2(8);
    assert Pow2(24) == 0x100 * Pow2(16);
    assert Pow2(32) == 0x100 * Pow2(24);
  }

  // ---------- operations ----------

  /** Index of the first free chunk of at least size bytes; |t| when there is none. */
  function FirstFit(t: seq<Tile>, size: nat): (i: nat)
    ensures i <= |t|
    ensures i < |t| ==> t[i].Free? && size <= t[i].len
    ensures forall j :: 0 <= j < i ==> t[j].Live? || t[j].len < size
  {
    if t == [] then 0
    else if t[0].Free? && size <= t[0].len then 0
    else 1 + FirstFit(t[1..], size)
  }

  /** A chunk is split when what would be left can hold more than a chunk header. */
  function Carve(c: Tile, size: nat, ptr: nat, request: nat): seq<Tile>
    requires size <= c.len
  {
    if c.len > size + CHUNK then [Live(c.addr, size, ptr, request), Free(c.addr + size, c.len - size)]
    else [Live(c.addr, c.len, ptr, request)]
  }

  function Alloc(t: seq<Tile>, request: nat, alignment: nat): (seq<Tile>, Option<nat>)
    requires alignment < WORDS
  {
    var size := Padded(request, alignment);
    var i := FirstFit(t, size);
    if BadAlignment(alignment) || i == |t| then (t, None)
    else
      var ptr := Payload(t[i].addr, alignment);
      (t[..i] + Carve(t[i], size, ptr, request) + t[i + 1..], Some(ptr))
  }

  predicate FreeAt(t: seq<Tile>, i: int) {
    0 <= i < |t| && t[i].Free?
  }

  /** Tile i becomes free space and absorbs the free chunks next to it. */
  function Release(t: seq<Tile>, i: nat): seq<Tile>
    requires i < |t|
  {
    var left := if FreeAt(t, i - 1) then 1 else 0;
    var right := if FreeAt(t, i + 1) then 1 else 0;
    t[..i - left] + [Free(t[i - left].addr, Total(t[i - left..i + 1 + right]))] + t[i + 1 + right..]
  }

  /** The index of the live block with this pointer; |t| when there is none. */
  function Find(t: seq<Tile>, ptr: nat): (i: nat)
    ensures i <= |t|
    ensures i < |t| ==> t[i].Live? && t[i].ptr == ptr
    ensures i == |t| ==> forall j :: 0 <= j < |t| ==> t[j].Free? || t[j].ptr != ptr
  {
    if t == [] then 0
    else if t[0].Live? && t[0].ptr == ptr then 0
    else 1 + Find(t[1..], ptr)
  }

  // ---------- rounding ----------

  /** Clearing the remainder leaves the multiple just below. */
  lemma MultipleBelow(x: nat, b: nat)
    requires b > 0
    ensures (x - x % b) % b == 0 && x - b < x - x % b <= x
  {
    var q, m := x / b, x % b;
    assert x == q * b + m;
    ModUnique(q * b, b, q, 0);
  }

  /** ROUNDUP to a power of two is the least multiple not below. */
  lemma RoundUpLeast(a: nat, k: nat)
    requires k <= 32 && a + Pow2(k) <= WORDS
    ensures Pow2(k) <= WORDS
    ensures var r := RoundUp(a, Pow2(k));
            r % Pow2(k) == 0 && a <= r < a + Pow2(k)
  {
    hide Pow2, And;
    WordRange();
    Pow2Monotone(k, 32);
    assert (a + (Pow2(k) - 1)) % WORDS == a + (Pow2(k) - 1);
    AndHighMask(a + (Pow2(k) - 1), k, 32);
    MultipleBelow(a + (Pow2(k) - 1), Pow2(k));
  }

  /** The mask test accepts exactly zero and the powers of two. */
  lemma BadAlignmentExactly(alignment: nat) returns (k: nat)
    requires alignment < WORDS
    ensures !BadAlignment(alignment) ==> alignment == 0 || (alignment == Pow2(k) && k < 32)
    ensures BadAlignment(alignment) ==> alignment != 0 && forall j: nat :: alignment != Pow2(j)
  {
    hide Pow2, And;
    WordRange();
    k := 0;
    if alignment == 0 {
      AndBound(0, WORDS - 1);
      ModUnique(WORDS - 1, WORDS, 0, WORDS - 1);
    } else {
      ModUnique(alignment + WORDS - 1, WORDS, 1, alignment - 1);
      k := PowerOfTwoTest(alignment);
      if alignment == Pow2(k) && k >= 32 {
        Pow2Monotone(32, k);
      }
    }
  }

  /** The alignment actually used is a power of two of at least 16, and a multiple of the one asked for. */
  lemma BoundaryPower(alignment: nat) returns (k: nat)
    requires 0 < alignment < WORDS && !BadAlignment(alignment)
    ensures 4 <= k < 32 && Boundary(alignment) == Pow2(k)
    ensures Boundary(alignment) % alignment == 0
  {
    hide Pow2, BadAlignment;
    SmallPowers();
    k := BadAlignmentExactly(alignment);
    if alignment < 16 {
      if k >= 4 {
        Pow2Monotone(4, k);
        assert false;
      }
      k := 4;
    } else {
      AtLeastFour(k);
      ModUnique(alignment, alignment, 1, 0);
    }
  }

  lemma AtLeastFour(k: nat)
    requires Pow2(k) >= 16
    ensures k >= 4
  {
    if k < 4 {
      Pow2Monotone(k, 3);
    }
  }

  lemma SmallPowers()
    ensures Pow2(0) == 1 && Pow2(1) == 2 && Pow2(2) == 4 && Pow2(3) == 8 && Pow2(4) == 16
  {
  }

  lemma {:induction false} FourDivides(k: nat, x: nat)
    requires k >= 2 && x % Pow2(k) == 0
    ensures x % 4 == 0
    decreases k
  {
    if k > 2 {
      HalfDivides(x, Pow2(k - 1));
      FourDivides(k - 1, x);
    }
  }

  lemma HalfDivides(x: nat, m: nat)
    requires m > 0 && x % (2 * m) == 0
    ensures x % m == 0
  {
    var q := x / (2 * m);
    assert x == q * (2 * m) == (2 * q) * m;
    ModUnique(x, m, 2 * q, 0);
  }

  /** What the size arithmetic guarantees without alignment. */
  lemma WordsFit(request: nat)
    requires request + 16 <= WORDS
    ensures var size := RoundUp(request + HEADER, 4);
            size % 4 == 0 && request + HEADER <= size < request + HEADER + 4
  {
    hide And, RoundUp;
    RoundUpLeast(request + HEADER, 2);
  }

  /** The masks and tests of heap_alloc compute exactly the bytes needed. */
  lemma PaddedExactly(request: nat, alignment: nat)
    requires request + 16 <= WORDS
    ensures Padded(request, alignment) == Needed(request, alignment)
  {
    hide RoundUp;
    WordsFit(request);
    LeastWords(request, RoundUp(request + HEADER, 4));
  }

  lemma LeastWords(request: nat, n: nat)
    requires n % 4 == 0 && request + HEADER <= n < request + HEADER + 4
    ensures n == (request + 15) / 4 * 4
  {
  }

  /** Rounding the payload up to the boundary costs less than the boundary. */
  lemma AlignedPayload(addr: nat, alignment: nat)
    requires 0 < alignment < WORDS && !BadAlignment(alignment)
    requires addr + HEADER + Boundary(alignment) <= WORDS
    ensures Boundary(alignment) % 4 == 0
    ensures var ptr := Payload(addr, alignment);
            addr + HEADER <= ptr < addr + HEADER + Boundary(alignment) && ptr % Boundary(alignment) == 0 && ptr % 4 == 0
  {
    hide Pow2, BadAlignment, RoundUp, Boundary;
    var k := BoundaryPower(alignment);
    ModUnique(Pow2(k), Pow2(k), 1, 0);
    FourDivides(k, Pow2(k));
    RoundUpLeast(addr + HEADER, k);
    FourDivides(k, Payload(addr, alignment));
  }

  /** Header, alignment and request fit in the padded size. */
  lemma PaddedFits(addr: nat, request: nat, alignment: nat)
    requires Representable(request, alignment) && !BadAlignment(alignment) && addr % 4 == 0
    requires addr + Padded(request, alignment) <= WORDS
    ensures Padded(request, alignment) == Needed(request, alignment)
    ensures var ptr := Payload(addr, alignment);
            && CHUNK <= Padded(request, alignment) && Padded(request, alignment) % 4 == 0
            && addr + HEADER <= ptr && ptr % 4 == 0 && ptr + request <= addr + Padded(request, alignment)
            && LeastAligned(addr + HEADER, alignment, ptr)
  {
    hide Pow2, BadAlignment, RoundUp, Boundary, Slack, Payload, LeastAligned;
    PaddedExactly(request, alignment);
    WordsFit(request);
    var size := RoundUp(request + HEADER, 4);
    PayloadFits(addr, request, alignment, size);
  }

  lemma PaddedPositive(request: nat, alignment: nat)
    requires Representable(request, alignment) && !BadAlignment(alignment)
    ensures Padded(request, alignment) >= CHUNK && Padded(request, alignment) == Needed(request, alignment)
  {
    hide RoundUp, BadAlignment;
    WordsFit(request);
    PaddedExactly(request, alignment);
  }

  /** The pointer for a block of `size` bytes plus slack. */
  lemma PayloadFits(addr: nat, request: nat, alignment: nat, size: nat)
    requires alignment < WORDS && !BadAlignment(alignment) && addr % 4 == 0
    requires size % 4 == 0 && request + HEADER <= size && addr + size + Slack(alignment) <= WORDS
    ensures (size + Slack(alignment)) % 4 == 0
    ensures var ptr := Payload(addr, alignment);
            && addr + HEADER <= ptr && ptr % 4 == 0 && ptr + request <= addr + size + Slack(alignment)
            && LeastAligned(addr + HEADER, alignment, ptr)
  {
    hide Pow2, BadAlignment, RoundUp, Boundary;
    if alignment > 0 {
      hide Payload;
      BoundaryIs(alignment);
      AlignedPayload(addr, alignment);
      SumOfWords(size, Boundary(alignment));
    }
  }

  /** ptr is the first address from a on that is a multiple of the alignment asked for and of 16; a
      itself when none was asked for. */
  predicate LeastAligned(a: nat, alignment: nat, ptr: nat) {
    if alignment == 0 then ptr == a
    else var b := if alignment < 16 then 16 else alignment; ptr % b == 0 && a <= ptr < a + b
  }

  lemma BoundaryIs(alignment: nat)
    ensures Boundary(alignment) == if alignment < 16 then 16 else alignment
  {
  }

  lemma SumOfWords(x: nat, y: nat)
    requires x % 4 == 0 && y % 4 == 0
    ensures (x + y) % 4 == 0
  {
  }

  // ---------- when the size arithmetic wraps ----------

  /** An accepted alignment costs at most 2^31 bytes. */
  lemma SlackBound(alignment: nat)
    requires alignment < WORDS && !BadAlignment(alignment)
    ensures Slack(alignment) <= 0x8000_0000
  {
    hide Pow2, BadAlignment, Boundary;
    if alignment > 0 {
      var k := BoundaryPower(alignment);
      Pow2Monotone(k, 31);
      WordRange();
      assert Pow2(32) == 2 * Pow2(31) by { DoublePower(31); }
    }
  }

  lemma DoublePower(k: nat)
    ensures Pow2(k + 1) == 2 * Pow2(k)
  {
  }

  /** The computed size is the size needed exactly when padding does not wrap; when it does, the
      computed size cannot even hold header and request. */
  lemma SizeWordExactly(request: nat, alignment: nat)
    requires request < WORDS && alignment < WORDS && !BadAlignment(alignment)
    ensures Representable(request, alignment) ==>
              SizeWord(request, alignment) == Padded(request, alignment) == Needed(request, alignment)
    ensures Representable(request, alignment) <==> request + HEADER <= SizeWord(request, alignment)
  {
    hide BadAlignment, RoundUp, Slack, Needed;
    SlackBound(alignment);
    if request + 16 <= WORDS {
      WordsFit(request);
      PaddedExactly(request, alignment);
    } else if request + HEADER < WORDS {
      RoundsToNothing(request + HEADER);
    } else {
      WordsFit(0);
    }
  }

  /** Rounding up near the top of the address range wraps to zero. */
  lemma RoundsToNothing(a: nat)
    requires a < WORDS < a + 4
    ensures RoundUp(a, 4) < 4
  {
    WordRange();
    AndBound((a + 3) % WORDS, Not(3, 32));
    hide And;
  }

  /** For instance, half the address range at an alignment of as much is searched for as 12 bytes. */
  lemma PaddingCanWrap()
    ensures !BadAlignment(0x8000_0000) && SizeWord(0x8000_0000, 0x8000_0000) == 12
    ensures !Representable(0x8000_0000, 0x8000_0000)
  {
    hide RoundUp, BadAlignment;
    TopAlignment();
    WordsFit(0x8000_0000);
  }

  lemma TopAlignment()
    ensures !BadAlignment(0x8000_0000)
  {
    hide BadAlignment, Pow2;
    WordRange();
    DoublePower(31);
    var k := BadAlignmentExactly(0x8000_0000);
    assert Pow2(31) == 0x8000_0000;
  }
}
