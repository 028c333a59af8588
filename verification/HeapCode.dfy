/**
 lib/heap/heap.c with its free list and its memory updated in place. The ghost field tiles says
 what the memory means; every method is proved to move it as HeapTiles says.
 */
module HeapCode {
  import opened Basics
  import opened Bits
  import opened HeapTiles
  import opened HeapLaws
  import opened HeapList

  const NULL: nat := 0

  class Heap {
    /** theheap.base and theheap.len, and the address of theheap.free_list. */
    const base: nat
    const len: nat
    const head: nat
    /** theheap.free_list. */
    var freeList: seq<nat>
    var mem: Memory
    ghost var tiles: seq<Tile>

    /** The list head, seen as a chunk, must not sit at the end of a chunk. */
    ghost predicate Shape()
      reads this
    {
      && HeapRange(base, base + len) && !(base < head <= base + len)
      && Tiling(tiles, base, base + len)
      && freeList == Addrs(tiles)
    }

    ghost predicate Valid()
      reads this
    {
      Shape() && AllStored(mem, tiles)
    }

    /** Everything is described in memory except tile i, which is about to become a free chunk. */
    ghost predicate Pending(i: nat)
      reads this
    {
      && Shape() && i < |tiles| && tiles[i].Live? && ChunkLen(mem, tiles[i].addr) == tiles[i].len
      && forall j :: 0 <= j < |tiles| && j != i ==> Stored(mem, tiles[j])
    }

    /** heap_init. */
    constructor (base: nat, len: nat, head: nat)
      requires HeapRange(base, base + len) && !(base < head <= base + len)
      ensures Valid() && this.base == base && this.len == len && this.head == head
      ensures tiles == Start(base, base + len)
    {
      this.base := base;
      this.len := len;
      this.head := head;
      freeList := [];
      mem := map[];
      tiles := [Live(base, len, base + HEADER, 0)];
      new;
      WholeHeap(base, len);
      HeapCreateFreeChunk(base, len);
      var _ := HeapInsertFreeChunk(base, 0);
    }

    method HeapCreateFreeChunk(ptr: nat, len: nat)
      modifies this`mem
      ensures mem == old(mem)[ptr + 8 := len]
    {
      mem := mem[ptr + 8 := len];
    }

    /** Link the chunk in address order. next is the chunk it was inserted before; off the end of
        the list it is the list head itself, seen as a chunk. k is the chunk's place in the list. */
    method LinkChunk(chunk: nat, ghost i: nat) returns (next: nat, k: nat)
      requires Pending(i) && tiles[i].addr == chunk
      modifies this`freeList
      ensures k == |Addrs(tiles[..i])|
      ensures freeList == Addrs(tiles[..i]) + [chunk] + Addrs(tiles[i + 1..])
      ensures next == if Addrs(tiles[i + 1..]) == [] then head else Addrs(tiles[i + 1..])[0]
    {
      hide Contiguous, Coalesced, BlockOk, Stored;
      Sides(tiles, base, base + len, i);
      k := 0;
      while k < |freeList| && !(chunk < freeList[k])
        invariant k <= |Addrs(tiles[..i])|
      {
        k := k + 1;
      }
      next := if k < |freeList| then freeList[k] else head;
      freeList := freeList[..k] + [chunk] + freeList[k..];
    }

    /** Merge the linked chunk with the one before it in the list, if they touch. */
    method MergePrevious(chunk: nat, ghost i: nat, k: nat) returns (r: nat)
      requires Tiling(tiles, base, base + len) && i < |tiles| && tiles[i].Live? && tiles[i].addr == chunk
      requires ChunkLen(mem, chunk) == tiles[i].len
      requires forall j :: 0 <= j < |tiles| && j != i ==> Stored(mem, tiles[j])
      requires k == |Addrs(tiles[..i])| && freeList == Addrs(tiles[..i]) + [chunk] + Addrs(tiles[i + 1..])
      modifies this`freeList, this`mem
      ensures r == tiles[From(tiles, i)].addr && freeList == Addrs(tiles[..From(tiles, i)]) + [r] + Addrs(tiles[i + 1..])
      ensures ChunkLen(mem, r) == Total(tiles[From(tiles, i)..i + 1])
      ensures OnlyIn(old(mem), mem, r, chunk + tiles[i].len)
    {
      hide Contiguous, Coalesced, BlockOk, Total;
      r := chunk;
      TileAt(tiles, base, base + len, i);
      assert tiles[i..i + 1] == [tiles[i]];
      TotalTwo(tiles[i], tiles[i]);
      NeighboursListed(tiles, i);
      if k > 0 {
        var last := freeList[k - 1];
        ghost var m := ChunkBefore(tiles, base, base + len, i);
        assert Stored(mem, tiles[m]);
        if last + ChunkLen(mem, last) == r {
          assert tiles[i - 1..i + 1] == [tiles[i - 1], tiles[i]];
          TotalTwo(tiles[i - 1], tiles[i]);
          AddrsAround(tiles[..i], i - 1);
          assert tiles[..i][..i - 1] == tiles[..i - 1] && tiles[..i][i..] == [];
          mem := mem[last + 8 := ChunkLen(mem, last) + ChunkLen(mem, r)];
          freeList := freeList[..k] + freeList[k + 1..];
          r := last;
        }
      }
    }

    /** Join chunk r and the one behind it if they touch; `next` always is an address. */
    method MergeNext(r: nat, ghost i: nat, next: nat)
      requires Tiling(tiles, base, base + len) && !(base < head <= base + len) && i < |tiles| && tiles[i].Live?
      requires forall j :: i < j < |tiles| ==> Stored(mem, tiles[j])
      requires r == tiles[From(tiles, i)].addr && freeList == Addrs(tiles[..From(tiles, i)]) + [r] + Addrs(tiles[i + 1..])
      requires ChunkLen(mem, r) == Total(tiles[From(tiles, i)..i + 1])
      requires next == if Addrs(tiles[i + 1..]) == [] then head else Addrs(tiles[i + 1..])[0]
      modifies this`freeList, this`mem
      ensures freeList == Addrs(tiles[..From(tiles, i)]) + [r] + Addrs(tiles[To(tiles, i)..])
      ensures ChunkLen(mem, r) == Total(tiles[From(tiles, i)..To(tiles, i)])
      ensures OnlyIn(old(mem), mem, r, tiles[To(tiles, i) - 1].addr + tiles[To(tiles, i) - 1].len)
    {
      hide Contiguous, Coalesced, BlockOk, Without;
      ghost var p := From(tiles, i);
      TileAt(tiles, base, base + len, p);
      MergedEnd(tiles, base, base + len, p, i);
      NeighboursListed(tiles, i);
      if Addrs(tiles[i + 1..]) != [] {
        ghost var m := ChunkAfter(tiles, base, base + len, i);
        assert Stored(mem, tiles[m]);
      }
      if r + ChunkLen(mem, r) == next {
        mem := mem[r + 8 := ChunkLen(mem, r) + ChunkLen(mem, next)];
        DeleteNext(tiles, base, base + len, p, i);
        MergedEnd(tiles, base, base + len, p, i + 1);
        freeList := Without(freeList, next);
      }
    }

    method HeapInsertFreeChunk(chunk: nat, ghost i: nat) returns (r: nat)
      requires Pending(i) && tiles[i].addr == chunk
      modifies this`freeList, this`mem, this`tiles
      ensures Valid() && tiles == Release(old(tiles), i)
      ensures PayloadKept(old(mem), mem, old(tiles), tiles)
      ensures r == old(tiles[From(tiles, i)].addr)
    {
      hide Tiling, Stored, BlockOk, HeapRange, OnlyIn;
      ghost var t, hi := tiles, base + len;
      var next, k := LinkChunk(chunk, i);
      ghost var m0 := mem;
      r := MergePrevious(chunk, i, k);
      StillStored(m0, mem, t, base, hi, i);
      ghost var m1 := mem;
      MergeNext(r, i, next);
      MergedReach(t, base, hi, i);
      OnlyInTrans(m0, m1, mem, r, chunk + t[i].len, t[To(t, i) - 1].addr + t[To(t, i) - 1].len);
      ReleaseStored(m0, mem, t, base, hi, i);
      ReleaseOk(t, base, hi, i);
      tiles := Release(tiles, i);
    }

    /** Walk the list for the first chunk of at least size bytes. */
    method FindChunk(size: nat) returns (k: nat)
      requires Valid()
      ensures k < |freeList| <==> FirstFit(tiles, size) < |tiles|
      ensures k < |freeList| ==> var i := FirstFit(tiles, size);
                                 freeList[k] == tiles[i].addr && k == |Addrs(tiles[..i])|
      ensures k <= |freeList|
    {
      k := 0;
      while k < |freeList| && !(ChunkLen(mem, freeList[k]) >= size)
        invariant k <= |freeList|
        invariant forall j :: 0 <= j < k ==> ChunkLen(mem, freeList[j]) < size
      {
        k := k + 1;
      }
      FitIsListed(mem, tiles, size, k);
    }

    /** Take entry k of the list for a block of the given size with the given pointer: what the block
        does not need becomes a free chunk in its place in the list, and the header is written. */
    method TakeChunk(k: nat, chunk: nat, size: nat, ptr: nat)
      requires k < |freeList| && freeList[k] == chunk && size <= ChunkLen(mem, chunk) && ptr >= HEADER
      modifies this`freeList, this`mem
      ensures mem == CarveWords(old(mem), Free(chunk, ChunkLen(old(mem), chunk)), size, ptr)
      ensures freeList == old(freeList[..k]) + (if ChunkLen(old(mem), chunk) > size + CHUNK then [chunk + size] else [])
                          + old(freeList[k + 1..])
    {
      if ChunkLen(mem, chunk) > size + CHUNK {
        var newchunk := chunk + size;
        mem := mem[newchunk + 8 := ChunkLen(mem, chunk) - size];
        mem := mem[chunk + 8 := size];
        freeList := freeList[..k] + [newchunk] + freeList[k + 1..];
      } else {
        freeList := freeList[..k] + freeList[k + 1..];
      }
      var blockLen := ChunkLen(mem, chunk);
      mem := mem[ptr - 12 := HEAP_MAGIC][ptr - 8 := chunk][ptr - 4 := blockLen];
    }

    /** heap_alloc, with sizes and alignments that are words and whose padding does not wrap. */
    method HeapAlloc(request: nat, alignment: nat) returns (ptr: nat)
      requires Valid() && Representable(request, alignment)
      modifies this`freeList, this`mem, this`tiles
      ensures Valid() && (tiles, if ptr == NULL then None else Some(ptr)) == Alloc(old(tiles), request, alignment)
      ensures PayloadKept(old(mem), mem, old(tiles), tiles)
    {
      hide SizeWord, BadAlignment, Padded, Needed, Payload, Tiling, FirstFit, Addrs, AllStored, Stored, PayloadKept, OnlyIn,
        Granted, LiveSet, CarveWords;
      NothingMoved(mem, tiles);
      if BadAlignment(alignment) {
        return NULL;
      }
      SizeWordExactly(request, alignment);
      var size := SizeWord(request, alignment);
      var k := FindChunk(size);
      if k == |freeList| {
        return NULL;
      }
      ghost var t, i, m0 := tiles, FirstFit(tiles, size), mem;
      FitFacts(t, base, base + len, request, alignment);
      var chunk := freeList[k];
      TileIsStored(mem, t, i);
      AddrsAround(t, i);
      assert freeList[..k] == Addrs(t[..i]) && freeList[k + 1..] == Addrs(t[i + 1..]);
      ptr := Payload(chunk, alignment);
      TakeChunk(k, chunk, size, ptr);
      CarveStored(m0, mem, t[i], size, ptr, request);
      AllocStored(m0, mem, t, base, base + len, request, alignment);
      AllocOk(t, base, base + len, request, alignment);
      tiles := Alloc(t, request, alignment).0;
    }

    /** heap_free. */
    method HeapFree(ptr: nat)
      requires Valid() && (ptr != NULL ==> Find(tiles, ptr) < |tiles|)
      modifies this`freeList, this`mem, this`tiles
      ensures Valid() && tiles == Apply(old(tiles), OpFree(ptr))
      ensures PayloadKept(old(mem), mem, old(tiles), tiles)
    {
      hide Tiling, HeapRange, Release, Addrs;
      if ptr == NULL {
        return;
      }
      ghost var i, m0 := Find(tiles, ptr), mem;
      assert Stored(mem, tiles[i]);
      var chunk, size := Word(mem, ptr - 8), Word(mem, ptr - 4);
      HeapCreateFreeChunk(chunk, size);
      OnlyThere(m0, chunk, size, tiles, base, base + len, i);
      ghost var m1 := mem;
      var _ := HeapInsertFreeChunk(chunk, i);
      KeptBoth(m0, m1, mem, old(tiles), base, base + len, i);
    }

    /** A client writes a word of the bytes it asked for. */
    method Store(ptr: nat, offset: nat, value: nat)
      requires Valid() && Find(tiles, ptr) < |tiles|
      requires offset < tiles[Find(tiles, ptr)].request
      modifies this`mem
      ensures Valid() && mem == old(mem)[ptr + offset := value]
    {
      mem := mem[ptr + offset := value];
      PayloadFree(old(mem), mem, tiles, base, base + len, Find(tiles, ptr), ptr + offset);
    }
  }

  /** The memory handed to heap_init: one tile that is not on the free list, and becomes free. */
  lemma WholeHeap(base: nat, len: nat)
    requires HeapRange(base, base + len)
    ensures var t := [Live(base, len, base + HEADER, 0)];
            Tiling(t, base, base + len) && Addrs(t) == [] && Release(t, 0) == Start(base, base + len)
  {
    var t := [Live(base, len, base + HEADER, 0)];
    TotalTwo(t[0], t[0]);
    assert t[1..] == [] && t[0..1] == t && t[..0] == [];
    assert Release(t, 0) == [] + [Free(base, len)] + [];
  }

  lemma TotalTwo(a: Tile, b: Tile)
    ensures Total([a]) == a.len && Total([a, b]) == a.len + b.len
  {
    assert [a, b][1..] == [b] && [b][1..] == [] && [a][1..] == [];
  }

  /** Tiles p up to and including i end where tile i ends. */
  lemma MergedEnd(t: seq<Tile>, lo: nat, hi: nat, p: nat, i: nat)
    requires Contiguous(t, lo, hi) && p <= i < |t|
    ensures t[p].addr + Total(t[p..i + 1]) == t[i].addr + t[i].len <= hi && lo < t[i].addr + t[i].len
  {
    assert Total([t[i]]) == t[i].len;
    hide Contiguous, Total;
    TileAt(t, lo, hi, p);
    TileAt(t, lo, hi, i);
    assert t[..i + 1] == t[..p] + t[p..i + 1] && t[..i + 1] == t[..i] + [t[i]];
    TotalConcat(t[..p], t[p..i + 1]);
    TotalConcat(t[..i], [t[i]]);
  }

  lemma MergedReach(t: seq<Tile>, lo: nat, hi: nat, i: nat)
    requires Tiling(t, lo, hi) && i < |t|
    ensures t[i].addr + t[i].len <= t[To(t, i) - 1].addr + t[To(t, i) - 1].len
  {
    if FreeAt(t, i + 1) {
      InOrder(t, lo, hi, i, i + 1);
    }
  }

  lemma StillStored(mem: Memory, mem': Memory, t: seq<Tile>, lo: nat, hi: nat, i: nat)
    requires Tiling(t, lo, hi) && i < |t| && t[i].Live?
    requires forall j :: 0 <= j < |t| && j != i ==> Stored(mem, t[j])
    requires OnlyIn(mem, mem', t[From(t, i)].addr, t[i].addr + t[i].len)
    ensures forall j :: i < j < |t| ==> Stored(mem', t[j])
  {
    hide Tiling, Stored, OnlyIn;
    forall j | i < j < |t|
      ensures Stored(mem', t[j])
    {
      OthersStored(mem, mem', t, lo, hi, From(t, i), i + 1, j);
    }
  }

  /** Unlinking the free neighbour above tile i. */
  lemma DeleteNext(t: seq<Tile>, lo: nat, hi: nat, p: nat, i: nat)
    requires Contiguous(t, lo, hi) && p <= i < |t| && FreeAt(t, i + 1)
    ensures Total(t[p..i + 2]) == Total(t[p..i + 1]) + t[i + 1].len
    ensures Without(Addrs(t[..p]) + [t[p].addr] + Addrs(t[i + 1..]), t[i + 1].addr)
         == Addrs(t[..p]) + [t[p].addr] + Addrs(t[i + 2..])
  {
    assert t[p..i + 2] == t[p..i + 1] + [t[i + 1]];
    TotalConcat(t[p..i + 1], [t[i + 1]]);
    var x, a, b := t[i + 1].addr, Addrs(t[..p]) + [t[p].addr], Addrs(t[i + 2..]);
    AddrsAround(t[i + 1..], 0);
    assert t[i + 1..][1..] == t[i + 2..] && t[i + 1..][..0] == [];
    assert Addrs(t[i + 1..]) == [x] + b;
    forall j | 0 <= j < |a|
      ensures a[j] != x
    {
      var m := p;
      if j < |a| - 1 {
        m := TileOf(t[..p], j);
      }
      InOrder(t, lo, hi, m, i + 1);
      TileAt(t, lo, hi, m);
    }
    WithoutAfter(a, x, b);
    assert a + [x] + b == a + ([x] + b);
  }

  /** The first listed chunk that is large enough is the first free tile that is. */
  lemma FitIsListed(mem: Memory, t: seq<Tile>, size: nat, k: nat)
    requires AllStored(mem, t) && k <= |Addrs(t)|
    requires forall j :: 0 <= j < k ==> ChunkLen(mem, Addrs(t)[j]) < size
    requires k < |Addrs(t)| ==> ChunkLen(mem, Addrs(t)[k]) >= size
    ensures k < |Addrs(t)| <==> FirstFit(t, size) < |t|
    ensures k < |Addrs(t)| ==> var i := FirstFit(t, size); Addrs(t)[k] == t[i].addr && k == |Addrs(t[..i])|
  {
    hide Addrs, Word;
    var i := FirstFit(t, size);
    if k < |Addrs(t)| {
      var m := TileOf(t, k);
      assert Stored(mem, t[m]);
      if i < m {
        assert Stored(mem, t[i]);
        EntryBefore(t, i, m);
      }
    } else if i < |t| {
      assert Stored(mem, t[i]) && t[..|t|] == t;
      EntryBefore(t, i, |t|);
    }
  }

  lemma FitFacts(t: seq<Tile>, lo: nat, hi: nat, request: nat, alignment: nat)
    requires Tiling(t, lo, hi) && lo % 4 == 0 && hi <= WORDS
    requires Representable(request, alignment) && !BadAlignment(alignment)
    requires FirstFit(t, Padded(request, alignment)) < |t|
    ensures var c := t[FirstFit(t, Padded(request, alignment))];
            && c.Free? && lo <= c.addr && CHUNK <= Padded(request, alignment) <= c.len
            && var ptr := Payload(c.addr, alignment);
            && c.addr + HEADER <= ptr && ptr % 4 == 0 && ptr + request <= c.addr + Padded(request, alignment)
  {
    hide Pow2, BadAlignment, Padded, Payload, Coalesced, BlockOk;
    var i := FirstFit(t, Padded(request, alignment));
    TileAt(t, lo, hi, i);
    Aligned(t, lo, hi, i);
    PaddedFits(t[i].addr, request, alignment);
  }

  lemma NothingMoved(mem: Memory, t: seq<Tile>)
    ensures PayloadKept(mem, mem, t, t)
  {
  }

  lemma TileIsStored(mem: Memory, t: seq<Tile>, i: nat)
    requires AllStored(mem, t) && i < |t| && t[i].Free?
    ensures ChunkLen(mem, t[i].addr) == t[i].len
  {
    assert Stored(mem, t[i]);
  }

  /** The words heap_alloc writes into the chunk it takes, in the order in which it writes them. */
  function CarveWords(mem: Memory, c: Tile, size: nat, ptr: nat): Memory
    requires HEADER <= ptr && size <= c.len
  {
    var m := if c.len > size + CHUNK then mem[c.addr + size + 8 := c.len - size][c.addr + 8 := size] else mem;
    m[ptr - 12 := HEAP_MAGIC][ptr - 8 := c.addr][ptr - 4 := ChunkLen(m, c.addr)]
  }

  lemma CarveStored(mem: Memory, mem': Memory, c: Tile, size: nat, ptr: nat, request: nat)
    requires c.Free? && CHUNK <= size <= c.len && ChunkLen(mem, c.addr) == c.len
    requires c.addr + HEADER <= ptr && ptr + request <= c.addr + size && mem' == CarveWords(mem, c, size, ptr)
    ensures AllStored(mem', Carve(c, size, ptr, request))
    ensures OnlyIn(mem, mem', c.addr, c.addr + c.len)
  {
  }

  /** Words, list and payloads after the chunk of the first fit was carved. */
  lemma AllocStored(mem: Memory, mem': Memory, t: seq<Tile>, lo: nat, hi: nat, request: nat, alignment: nat)
    requires Tiling(t, lo, hi) && AllStored(mem, t) && alignment < WORDS && !BadAlignment(alignment)
    requires var size := Padded(request, alignment);
             var i := FirstFit(t, size);
             && i < |t| && OnlyIn(mem, mem', t[i].addr, t[i].addr + t[i].len)
             && AllStored(mem', Carve(t[i], size, Payload(t[i].addr, alignment), request))
    ensures var t' := Alloc(t, request, alignment).0;
            var size := Padded(request, alignment);
            var i := FirstFit(t, size);
            && AllStored(mem', t') && PayloadKept(mem, mem', t, t')
            && Addrs(t') == Addrs(t[..i]) + (if t[i].len > size + CHUNK then [t[i].addr + size] else []) + Addrs(t[i + 1..])
  {
    hide Pow2, BadAlignment, Padded, Payload, Tiling, FirstFit, AllStored, OnlyIn, PayloadKept, Addrs;
    var size := Padded(request, alignment);
    var i := FirstFit(t, size);
    var ptr := Payload(t[i].addr, alignment);
    ReplacedStored(mem, mem', t, lo, hi, i, Carve(t[i], size, ptr, request));
    AddrsCarve(t[i], size, ptr, request);
  }

  /** Replacing a free tile by others whose words lie inside it. */
  lemma ReplacedStored(mem: Memory, mem': Memory, t: seq<Tile>, lo: nat, hi: nat, i: nat, c: seq<Tile>)
    requires Tiling(t, lo, hi) && AllStored(mem, t) && i < |t| && t[i].Free?
    requires OnlyIn(mem, mem', t[i].addr, t[i].addr + t[i].len) && AllStored(mem', c)
    ensures var t' := t[..i] + c + t[i + 1..];
            && AllStored(mem', t') && PayloadKept(mem, mem', t, t')
            && Addrs(t') == Addrs(t[..i]) + Addrs(c) + Addrs(t[i + 1..])
  {
    hide Tiling, Stored, OnlyIn, PayloadKept, Addrs;
    var t' := t[..i] + c + t[i + 1..];
    forall j | 0 <= j < |t'|
      ensures Stored(mem', t'[j])
    {
      if j < i {
        OthersStored(mem, mem', t, lo, hi, i, i + 1, j);
      } else if i + |c| <= j {
        OthersStored(mem, mem', t, lo, hi, i, i + 1, j + 1 - |c|);
      } else {
        assert t'[j] == c[j - i];
      }
    }
    OthersKept(mem, mem', t, t', lo, hi, i, i + 1);
    AddrsConcat(t[..i] + c, t[i + 1..]);
    AddrsConcat(t[..i], c);
  }

  lemma AddrsCarve(c: Tile, size: nat, ptr: nat, request: nat)
    requires size <= c.len
    ensures Addrs(Carve(c, size, ptr, request)) == if c.len > size + CHUNK then [c.addr + size] else []
  {
    var r := Carve(c, size, ptr, request);
    assert r[1..] == (if c.len > size + CHUNK then [r[1]] else []);
    if c.len > size + CHUNK {
      AddrsOne(r[1]);
    }
  }

  /** Turning block i into a chunk writes inside the block. */
  lemma OnlyThere(mem: Memory, chunk: nat, size: nat, t: seq<Tile>, lo: nat, hi: nat, i: nat)
    requires Tiling(t, lo, hi) && AllStored(mem, t) && i < |t| && t[i].Live?
    requires chunk == t[i].addr && size == t[i].len
    ensures var mem' := mem[chunk + 8 := size];
            && OnlyIn(mem, mem', t[i].addr, t[i].addr + t[i].len)
            && forall j :: 0 <= j < |t| && j != i ==> Stored(mem', t[j])
  {
    hide Contiguous, Coalesced, Stored, BlockOk;
    TileAt(t, lo, hi, i);
    var mem' := mem[chunk + 8 := size];
    assert OnlyIn(mem, mem', t[i].addr, t[i].addr + t[i].len);
    forall j | 0 <= j < |t| && j != i
      ensures Stored(mem', t[j])
    {
      OthersStored(mem, mem', t, lo, hi, i, i + 1, j);
    }
  }

  lemma KeptBoth(m0: Memory, m1: Memory, m2: Memory, t: seq<Tile>, lo: nat, hi: nat, i: nat)
    requires Tiling(t, lo, hi) && i < |t| && t[i].Live?
    requires OnlyIn(m0, m1, t[i].addr, t[i].addr + t[i].len) && PayloadKept(m1, m2, t, Release(t, i))
    ensures PayloadKept(m0, m2, t, Release(t, i))
  {
    ReleaseOk(t, lo, hi, i);
    NotLive(Release(t, i), t[i]);
    hide Tiling, Release, OnlyIn;
    OthersKept(m0, m1, t, Release(t, i), lo, hi, i, i + 1);
  }

  /** Words of the payload describe no tile. */
  lemma PayloadFree(mem: Memory, mem': Memory, t: seq<Tile>, lo: nat, hi: nat, i: nat, a: nat)
    requires Tiling(t, lo, hi) && AllStored(mem, t) && i < |t| && t[i].Live?
    requires t[i].ptr <= a < t[i].ptr + t[i].request && OnlyIn(mem, mem', a, a + 1)
    ensures AllStored(mem', t)
  {
    hide Contiguous, Coalesced;
    assert BlockOk(t[i]);
    forall j | 0 <= j < |t|
      ensures Stored(mem', t[j])
    {
      assert Stored(mem, t[j]);
      if j != i {
        OthersStored(mem, mem', t, lo, hi, i, i + 1, j);
      }
    }
  }
}
