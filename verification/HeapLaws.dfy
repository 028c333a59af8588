/**
 What heap_alloc and heap_free keep and promise, over all heaps and all histories: the tiles
 always cover the heap, free space is always maximally merged, and therefore the free list is
 a function of the live blocks alone.
 */
module HeapLaws {
  import opened Basics
  import opened Bits
  import opened HeapTiles

  // ---------- shape of a tiling ----------

  lemma {:induction false} TotalConcat(a: seq<Tile>, b: seq<Tile>)
    ensures Total(a + b) == Total(a) + Total(b)
  {
    if a == [] {
      assert a + b == b;
    } else {
      assert (a + b)[0] == a[0] && (a + b)[1..] == a[1..] + b;
      TotalConcat(a[1..], b);
    }
  }

  lemma {:induction false} ContiguousConcat(a: seq<Tile>, b: seq<Tile>, lo: nat, hi: nat)
    ensures Contiguous(a + b, lo, hi) <==> Contiguous(a, lo, lo + Total(a)) && Contiguous(b, lo + Total(a), hi)
  {
    if a == [] {
      assert a + b == b;
    } else {
      assert (a + b)[0] == a[0] && (a + b)[1..] == a[1..] + b;
      ContiguousConcat(a[1..], b, lo + a[0].len, hi);
    }
  }

  lemma {:induction false} TotalIs(t: seq<Tile>, lo: nat, hi: nat)
    requires Contiguous(t, lo, hi)
    ensures hi == lo + Total(t)
    ensures t != [] ==> lo + CHUNK <= hi
  {
    if t != [] {
      TotalIs(t[1..], lo + t[0].len, hi);
    }
  }

  /** Where tile i sits. */
  lemma TileAt(t: seq<Tile>, lo: nat, hi: nat, i: nat)
    requires Contiguous(t, lo, hi) && i < |t|
    ensures t[i].addr == lo + Total(t[..i]) && t[i].addr + t[i].len <= hi
    ensures CHUNK <= t[i].len && t[i].len % 4 == 0
    ensures Contiguous(t[..i], lo, t[i].addr) && Contiguous(t[i + 1..], t[i].addr + t[i].len, hi)
  {
    assert t == t[..i] + t[i..];
    ContiguousConcat(t[..i], t[i..], lo, hi);
    assert t[i..][1..] == t[i + 1..];
    TotalIs(t[i + 1..], t[i].addr + t[i].len, hi);
  }

  /** Tiles lie in address order and do not overlap. */
  lemma InOrder(t: seq<Tile>, lo: nat, hi: nat, i: nat, j: nat)
    requires Contiguous(t, lo, hi) && i < j < |t|
    ensures t[i].addr + t[i].len <= t[j].addr
  {
    TileAt(t, lo, hi, j);
    assert t[..j][i] == t[i];
    TileAt(t[..j], lo, t[j].addr, i);
  }

  lemma {:induction false} Aligned(t: seq<Tile>, lo: nat, hi: nat, i: nat)
    requires Contiguous(t, lo, hi) && i < |t| && lo % 4 == 0
    ensures t[i].addr % 4 == 0
  {
    if i > 0 {
      Aligned(t[1..], lo + t[0].len, hi, i - 1);
    }
  }

  lemma LiveConcat(a: seq<Tile>, b: seq<Tile>)
    ensures LiveSet(a + b) == LiveSet(a) + LiveSet(b)
  {
  }

  /** A tiling in three pieces, the middle one tile. */
  lemma Split(t: seq<Tile>, i: nat)
    requires i < |t|
    ensures t == t[..i] + [t[i]] + t[i + 1..]
    ensures LiveSet(t) == LiveSet(t[..i]) + LiveSet([t[i]]) + LiveSet(t[i + 1..])
  {
    assert t == t[..i] + [t[i]] + t[i + 1..];
    LiveConcat(t[..i] + [t[i]], t[i + 1..]);
    LiveConcat(t[..i], [t[i]]);
  }

  /** No other tile starts where tile i starts. */
  lemma NotElsewhere(t: seq<Tile>, lo: nat, hi: nat, i: nat)
    requires Contiguous(t, lo, hi) && i < |t|
    ensures forall c :: c in t[..i] || c in t[i + 1..] ==> c.addr != t[i].addr
  {
    forall c | c in t[..i] || c in t[i + 1..]
      ensures c.addr != t[i].addr
    {
      if c in t[..i] {
        var j :| 0 <= j < i && t[j] == c;
        TileAt(t, lo, hi, j);
        InOrder(t, lo, hi, j, i);
      } else {
        TileAt(t, lo, hi, i);
        var j :| 0 <= j < |t[i + 1..]| && t[i + 1..][j] == c;
        InOrder(t, lo, hi, i, i + 1 + j);
      }
    }
  }

  // ---------- replacing a stretch of tiles ----------

  /** Replacing a stretch of tiles by others that fill the same addresses. */
  lemma Replace(a: seq<Tile>, was: seq<Tile>, now: seq<Tile>, b: seq<Tile>, lo: nat, hi: nat)
    requires Contiguous(a + was + b, lo, hi)
    requires Contiguous(now, lo + Total(a), lo + Total(a) + Total(was))
    ensures Contiguous(a + now + b, lo, hi)
  {
    hide Contiguous, Total;
    ContiguousConcat(a + was, b, lo, hi);
    ContiguousConcat(a, was, lo, lo + Total(a + was));
    TotalConcat(a, was);
    TotalIs(now, lo + Total(a), lo + Total(a) + Total(was));
    TotalConcat(a, now);
    TotalConcat(a + was, b);
    ContiguousConcat(a, now, lo, lo + Total(a + now));
    ContiguousConcat(a + now, b, lo, hi);
  }

  lemma CarveFills(c: Tile, size: nat, ptr: nat, request: nat)
    requires c.Free? && CHUNK <= size <= c.len && size % 4 == 0 && c.len % 4 == 0
    requires c.addr + HEADER <= ptr && ptr % 4 == 0 && ptr + request <= c.addr + size
    ensures Contiguous(Carve(c, size, ptr, request), c.addr, c.addr + c.len)
    ensures forall i :: 0 <= i < |Carve(c, size, ptr, request)| ==> BlockOk(Carve(c, size, ptr, request)[i])
    ensures var b := Carve(c, size, ptr, request)[0];
            b.Live? && b.ptr == ptr && b.request == request && LiveSet(Carve(c, size, ptr, request)) == {b}
  {
    var r := Carve(c, size, ptr, request);
    if c.len > size + CHUNK {
      assert r[1..] == [Free(c.addr + size, c.len - size)] && r[1..][1..] == [];
    } else {
      assert r[1..] == [];
    }
  }

  /** heap_alloc keeps the tiling, and a successful call adds exactly one live block: the lowest
      chunk large enough, with header and requested bytes inside it and the pointer aligned. */
  lemma AllocOk(t: seq<Tile>, lo: nat, hi: nat, request: nat, alignment: nat)
    requires Tiling(t, lo, hi) && lo % 4 == 0 && hi <= WORDS
    requires Representable(request, alignment)
    ensures var (t', ptr) := Alloc(t, request, alignment);
            && Tiling(t', lo, hi)
            && (ptr == None ==> t' == t)
            && (ptr.Some? ==>
                  var i := FirstFit(t, Needed(request, alignment));
                  && i < |t'| && Granted(t'[i], t, request, alignment, ptr.value)
                  && t'[i] !in LiveSet(t) && LiveSet(t') == LiveSet(t) + {t'[i]})
  {
    hide Padded, Needed, Payload, BadAlignment, LeastAligned, Pow2, Contiguous, Coalesced, LiveSet;
    var size := Padded(request, alignment);
    var i := FirstFit(t, size);
    var (t', ptr) := Alloc(t, request, alignment);
    if ptr.Some? {
      TileAt(t, lo, hi, i);
      Aligned(t, lo, hi, i);
      PaddedFits(t[i].addr, request, alignment);
      CarveFills(t[i], size, ptr.value, request);
      CarvedOk(t, lo, hi, i, Carve(t[i], size, ptr.value, request));
    }
  }

  /** Replacing a free chunk by a live block and perhaps the rest of the chunk. */
  lemma CarvedOk(t: seq<Tile>, lo: nat, hi: nat, i: nat, c: seq<Tile>)
    requires Tiling(t, lo, hi) && i < |t| && t[i].Free?
    requires Contiguous(c, t[i].addr, t[i].addr + t[i].len)
    requires forall j :: 0 <= j < |c| ==> BlockOk(c[j])
    requires 1 <= |c| <= 2 && c[0].Live? && LiveSet(c) == {c[0]}
    ensures var t' := t[..i] + c + t[i + 1..];
            && Tiling(t', lo, hi) && t'[i] == c[0]
            && t'[i] !in LiveSet(t) && LiveSet(t') == LiveSet(t) + {t'[i]}
  {
    AllocShape(t, lo, hi, i, c);
    NotElsewhere(t, lo, hi, i);
    assert c[0].addr == t[i].addr;
    hide Tiling, Contiguous, BlockOk;
    Split(t, i);
    LiveConcat(t[..i] + c, t[i + 1..]);
    LiveConcat(t[..i], c);
    assert LiveSet([t[i]]) == {};
  }

  /** The contract of a successful heap_alloc, for the block b it made of a chunk of t: the chunk is the
      lowest long enough, the block is as long as needed, or up to 12 bytes longer where the rest of
      the chunk is too short to be split off, and the pointer is the first aligned address behind the header. */
  ghost predicate Granted(b: Tile, t: seq<Tile>, request: nat, alignment: nat, ptr: nat)
    requires alignment < WORDS
  {
    var n := Needed(request, alignment);
    var i := FirstFit(t, n);
    && b.Live? && b.ptr == ptr && b.request == request && BlockOk(b)
    && i < |t| && b.addr == t[i].addr && LeastAligned(b.addr + 12, alignment, ptr)
    && b.len == if t[i].len > n + 12 then n else t[i].len
  }

  lemma AllocShape(t: seq<Tile>, lo: nat, hi: nat, i: nat, c: seq<Tile>)
    requires Tiling(t, lo, hi) && i < |t| && t[i].Free?
    requires Contiguous(c, t[i].addr, t[i].addr + t[i].len)
    requires forall j :: 0 <= j < |c| ==> BlockOk(c[j])
    requires 1 <= |c| <= 2 && c[0].Live?
    ensures Tiling(t[..i] + c + t[i + 1..], lo, hi)
  {
    hide BlockOk;
    TileAt(t, lo, hi, i);
    assert t == t[..i] + [t[i]] + t[i + 1..];
    assert Total([t[i]]) == t[i].len;
    Replace(t[..i], [t[i]], c, t[i + 1..], lo, hi);
    var r := t[..i] + c + t[i + 1..];
    var d := |c| - 1;
    assert forall j :: i + |c| <= j < |r| ==> r[j] == t[j - d];
    forall j | 0 <= j < |r| - 1
      ensures r[j].Live? || r[j + 1].Live?
    {
      if j >= i + |c| - 1 {
        assert t[j - d].Live? || t[j - d + 1].Live?;
      }
    }
  }

  /** heap_free keeps the tiling and removes exactly the freed block from the live ones. */
  lemma ReleaseOk(t: seq<Tile>, lo: nat, hi: nat, i: nat)
    requires Tiling(t, lo, hi) && i < |t| && t[i].Live?
    ensures Tiling(Release(t, i), lo, hi)
    ensures LiveSet(Release(t, i)) == LiveSet(t) - {t[i]}
  {
    hide BlockOk, Contiguous, Total, LiveSet;
    var left := if FreeAt(t, i - 1) then 1 else 0;
    var right := if FreeAt(t, i + 1) then 1 else 0;
    var p, q := i - left, i + 1 + right;
    MergedTiles(t, lo, hi, p, q);
    var r := Release(t, i);
    assert r[p].Free? && r == t[..p] + [r[p]] + t[q..];
    assert forall j :: p < j < |r| ==> r[j] == t[j - p - 1 + q];
    BlockOfFree(r[p]);
    forall j | 0 <= j < |r| - 1
      ensures r[j].Live? || r[j + 1].Live?
    {
      if j == p {
        assert r[j + 1] == t[q];
      } else if j > p {
        assert t[j - p - 1 + q].Live? || t[j - p + q].Live?;
      }
    }
    ReleaseLive(t, lo, hi, i, p, q, r);
  }

  /** Tiles p up to q replaced by one chunk of their total length. */
  lemma MergedTiles(t: seq<Tile>, lo: nat, hi: nat, p: nat, q: nat)
    requires Contiguous(t, lo, hi) && p < q <= |t|
    ensures Contiguous(t[..p] + [Free(t[p].addr, Total(t[p..q]))] + t[q..], lo, hi)
  {
    var m := t[p..q];
    assert t == t[..p] + m + t[q..];
    TileAt(t, lo, hi, p);
    ContiguousConcat(t[..p] + m, t[q..], lo, hi);
    ContiguousConcat(t[..p], m, lo, lo + Total(t[..p] + m));
    TotalConcat(t[..p], m);
    var f := Free(t[p].addr, Total(m));
    MergedFits(m, f.addr, f.addr + f.len);
    OneTile(f);
    hide Contiguous, Total;
    Replace(t[..p], m, [f], t[q..], lo, hi);
  }

  lemma OneTile(f: Tile)
    requires CHUNK <= f.len && f.len % 4 == 0
    ensures Contiguous([f], f.addr, f.addr + f.len)
  {
    assert [f][1..] == [];
  }

  lemma BlockOfFree(f: Tile)
    requires f.Free?
    ensures BlockOk(f)
  {
  }

  lemma {:induction false} MergedFits(m: seq<Tile>, lo: nat, hi: nat)
    requires Contiguous(m, lo, hi) && m != []
    ensures CHUNK <= Total(m) && Total(m) % 4 == 0
  {
    if |m| > 1 {
      MergedFits(m[1..], lo + m[0].len, hi);
    }
  }

  lemma ReleaseLive(t: seq<Tile>, lo: nat, hi: nat, i: nat, p: nat, q: nat, r: seq<Tile>)
    requires Contiguous(t, lo, hi) && p <= i < q <= |t| && t[i].Live?
    requires forall j :: p <= j < q && j != i ==> t[j].Free?
    requires p < |r| && r[p].Free? && r == t[..p] + [r[p]] + t[q..]
    ensures LiveSet(r) == LiveSet(t) - {t[i]}
  {
    hide Contiguous;
    assert t == t[..p] + t[p..q] + t[q..];
    LiveConcat(t[..p] + t[p..q], t[q..]);
    LiveConcat(t[..p], t[p..q]);
    LiveConcat(t[..p] + [r[p]], t[q..]);
    LiveConcat(t[..p], [r[p]]);
    assert LiveSet([r[p]]) == {};
    assert LiveSet(t[p..q]) == {t[i]} by {
      assert t[p..q][i - p] == t[i];
      forall b | b in t[p..q] && b.Live?
        ensures b == t[i]
      {
        var j :| 0 <= j < q - p && t[p..q][j] == b;
      }
    }
    NotElsewhere(t, lo, hi, i);
    assert forall c :: c in t[..p] ==> c in t[..i];
    assert forall c :: c in t[q..] ==> c in t[i + 1..];
  }

  // ---------- the live blocks determine the free list ----------

  /** A live first block is the first block of every heap with the same live blocks. */
  lemma FirstLive(t: seq<Tile>, u: seq<Tile>, lo: nat, hi: nat)
    requires Contiguous(t, lo, hi) && Contiguous(u, lo, hi)
    requires t != [] && t[0].Live? && t[0] in LiveSet(u)
    ensures u != [] && u[0] == t[0]
  {
    var j :| 0 <= j < |u| && u[j] == t[0];
    if j > 0 {
      InOrder(u, lo, hi, 0, j);
    }
  }

  /** A free first chunk reaches as far as in any heap with the same live blocks. */
  lemma FreeAsLong(t: seq<Tile>, u: seq<Tile>, lo: nat, hi: nat)
    requires Contiguous(t, lo, hi) && Contiguous(u, lo, hi) && Coalesced(t)
    requires t != [] && u != [] && t[0].Free? && u[0].Free? && LiveSet(t) <= LiveSet(u)
    ensures u[0].len <= t[0].len
  {
    TileAt(u, lo, hi, 0);
    if |t| == 1 {
      assert t[1..] == [];
    } else {
      assert t[1].Live? && t[1] in LiveSet(t);
      var j :| 0 <= j < |u| && u[j] == t[1];
      InOrder(u, lo, hi, 0, j);
    }
  }

  lemma DropFirst(t: seq<Tile>, lo: nat, hi: nat)
    requires Contiguous(t, lo, hi) && t != []
    ensures LiveSet(t[1..]) == LiveSet(t) - {t[0]}
  {
    NotElsewhere(t, lo, hi, 0);
    assert t == [t[0]] + t[1..];
  }

  /** Maximal merging makes the free list a function of the live blocks. */
  lemma {:induction false} LiveDetermines(t: seq<Tile>, u: seq<Tile>, lo: nat, hi: nat)
    requires Contiguous(t, lo, hi) && Contiguous(u, lo, hi) && Coalesced(t) && Coalesced(u)
    requires LiveSet(t) == LiveSet(u)
    ensures t == u
  {
    TotalIs(t, lo, hi);
    TotalIs(u, lo, hi);
    if t != [] && u != [] {
      if t[0].Live? {
        FirstLive(t, u, lo, hi);
      } else if u[0].Live? {
        FirstLive(u, t, lo, hi);
      } else {
        FreeAsLong(t, u, lo, hi);
        FreeAsLong(u, t, lo, hi);
      }
      DropFirst(t, lo, hi);
      DropFirst(u, lo, hi);
      assert t == [t[0]] + t[1..] && u == [u[0]] + u[1..];
      LiveDetermines(t[1..], u[1..], lo + t[0].len, hi);
    }
  }

  /** A pointer names at most one live block. */
  lemma PointerUnique(t: seq<Tile>, lo: nat, hi: nat, i: nat, j: nat)
    requires Tiling(t, lo, hi) && i < |t| && j < |t| && t[i].Live? && t[j].Live? && t[i].ptr == t[j].ptr
    ensures i == j
  {
    assert BlockOk(t[i]) && BlockOk(t[j]);
    if i < j {
      InOrder(t, lo, hi, i, j);
    } else if j < i {
      InOrder(t, lo, hi, j, i);
    }
  }

  /** heap_free right after heap_alloc restores the very same heap, split or not. */
  lemma AllocThenFree(t: seq<Tile>, lo: nat, hi: nat, request: nat, alignment: nat)
    requires Tiling(t, lo, hi) && lo % 4 == 0 && hi <= WORDS
    requires Representable(request, alignment)
    ensures var (t', ptr) := Alloc(t, request, alignment);
            ptr.Some? ==> Find(t', ptr.value) < |t'| && Release(t', Find(t', ptr.value)) == t
  {
    hide Pow2, Payload, Padded, BadAlignment, FirstFit, Contiguous, Coalesced;
    AllocOk(t, lo, hi, request, alignment);
    var (t', ptr) := Alloc(t, request, alignment);
    if ptr.Some? {
      hide Alloc, BlockOk;
      var i := FirstFit(t, Padded(request, alignment));
      var j := Find(t', ptr.value);
      PointerUnique(t', lo, hi, i, j);
      ReleaseOk(t', lo, hi, j);
      LiveDetermines(Release(t', j), t, lo, hi);
    }
  }

  // ---------- NULL means no room ----------

  /** The bytes [a, a + n) lie in the heap and meet no live block. */
  ghost predicate Room(t: seq<Tile>, lo: nat, hi: nat, a: nat, n: nat) {
    && lo <= a && a + n <= hi
    && forall i :: 0 <= i < |t| && t[i].Live? ==> t[i].addr + t[i].len <= a || a + n <= t[i].addr
  }

  /** Any stretch of unused bytes lies inside one free chunk. */
  lemma {:induction false} RoomIsOneChunk(t: seq<Tile>, lo: nat, hi: nat, a: nat, n: nat) returns (i: nat)
    requires Contiguous(t, lo, hi) && Coalesced(t) && n > 0 && Room(t, lo, hi, a, n)
    ensures i < |t| && t[i].Free? && t[i].addr <= a && a + n <= t[i].addr + t[i].len
  {
    TotalIs(t, lo, hi);
    if a < lo + t[0].len {
      i := 0;
      if |t| == 1 {
        assert t[1..] == [];
      } else {
        InOrder(t, lo, hi, 0, 1);
        assert t[1..][0] == t[1];
      }
    } else {
      assert forall j :: 0 <= j < |t| - 1 ==> t[1..][j] == t[j + 1];
      var j := RoomIsOneChunk(t[1..], lo + t[0].len, hi, a, n);
      i := j + 1;
    }
  }

  /** NULL is returned exactly when the alignment is not a power of two or the heap has no
      stretch of unused bytes anywhere that is long enough for header, request and alignment. */
  lemma NullExactly(t: seq<Tile>, lo: nat, hi: nat, request: nat, alignment: nat)
    requires Tiling(t, lo, hi) && Representable(request, alignment)
    ensures Alloc(t, request, alignment).1 == None <==>
            BadAlignment(alignment) || forall a :: !Room(t, lo, hi, a, Needed(request, alignment))
  {
    hide Padded, Needed, BadAlignment;
    var size := Padded(request, alignment);
    var i := FirstFit(t, size);
    if !BadAlignment(alignment) {
      PaddedPositive(request, alignment);
    }
    if BadAlignment(alignment) {
    } else if i < |t| {
      TileAt(t, lo, hi, i);
      assert Room(t, lo, hi, t[i].addr, size) by { ChunkIsRoom(t, lo, hi, i, size); }
    } else {
      forall a
        ensures !Room(t, lo, hi, a, size)
      {
        if Room(t, lo, hi, a, size) {
          var j := RoomIsOneChunk(t, lo, hi, a, size);
        }
      }
    }
  }

  lemma ChunkIsRoom(t: seq<Tile>, lo: nat, hi: nat, i: nat, n: nat)
    requires Contiguous(t, lo, hi) && i < |t| && t[i].Free? && n <= t[i].len
    ensures Room(t, lo, hi, t[i].addr, n)
  {
    TileAt(t, lo, hi, i);
    forall j | 0 <= j < |t| && t[j].Live?
      ensures t[j].addr + t[j].len <= t[i].addr || t[i].addr + n <= t[j].addr
    {
      if j < i {
        InOrder(t, lo, hi, j, i);
      } else {
        InOrder(t, lo, hi, i, j);
      }
    }
  }

  // ---------- histories ----------

  datatype Op = OpAlloc(request: nat, alignment: nat) | OpFree(ptr: nat)

  /** Sizes and alignments are 32-bit words whose padding does not wrap. */
  predicate InRange(op: Op) {
    op.OpAlloc? ==> Representable(op.request, op.alignment)
  }

  /** heap_free(NULL) does nothing; any other pointer must be live. */
  predicate Allowed(t: seq<Tile>, op: Op) {
    InRange(op) && (op.OpFree? && op.ptr != 0 ==> Find(t, op.ptr) < |t|)
  }

  function Apply(t: seq<Tile>, op: Op): seq<Tile>
    requires Allowed(t, op)
  {
    match op
    case OpAlloc(request, alignment) => Alloc(t, request, alignment).0
    case OpFree(ptr) => if ptr == 0 then t else Release(t, Find(t, ptr))
  }

  /** heap_init. */
  function Start(lo: nat, hi: nat): seq<Tile>
    requires lo <= hi
  {
    [Free(lo, hi - lo)]
  }

  ghost predicate HeapRange(lo: nat, hi: nat) {
    lo % 4 == 0 && hi % 4 == 0 && lo + CHUNK <= hi <= WORDS
  }

  /** The run is legal from t and ends in u. */
  ghost predicate Runs(t: seq<Tile>, ops: seq<Op>, u: seq<Tile>)
    decreases |ops|
  {
    if ops == [] then t == u
    else Allowed(t, ops[0]) && Runs(Apply(t, ops[0]), ops[1..], u)
  }

  lemma StepOk(t: seq<Tile>, lo: nat, hi: nat, op: Op)
    requires HeapRange(lo, hi) && Tiling(t, lo, hi) && Allowed(t, op)
    ensures Tiling(Apply(t, op), lo, hi)
  {
    hide Tiling, Pow2, Padded, Payload;
    match op
    case OpAlloc(request, alignment) => AllocOk(t, lo, hi, request, alignment);
    case OpFree(ptr) => if ptr != 0 { ReleaseOk(t, lo, hi, Find(t, ptr)); }
  }

  /** Every reachable heap is tiled and maximally merged. */
  lemma {:induction false} RunOk(t: seq<Tile>, lo: nat, hi: nat, ops: seq<Op>, u: seq<Tile>)
    requires HeapRange(lo, hi) && Tiling(t, lo, hi) && Runs(t, ops, u)
    ensures Tiling(u, lo, hi)
    decreases |ops|
  {
    hide Tiling, Pow2, Apply, Allowed, HeapRange;
    if ops != [] {
      StepOk(t, lo, hi, ops[0]);
      RunOk(Apply(t, ops[0]), lo, hi, ops[1..], u);
    }
  }

  lemma StartOk(lo: nat, hi: nat)
    requires HeapRange(lo, hi)
    ensures Tiling(Start(lo, hi), lo, hi)
  {
    assert Start(lo, hi)[1..] == [];
  }

  /** History does not matter: heaps with the same live blocks have the same free list. */
  lemma HistoryIndependent(lo: nat, hi: nat, ops: seq<Op>, ops': seq<Op>, u: seq<Tile>, u': seq<Tile>)
    requires HeapRange(lo, hi) && Runs(Start(lo, hi), ops, u) && Runs(Start(lo, hi), ops', u')
    requires LiveSet(u) == LiveSet(u')
    ensures u == u'
  {
    hide Runs, HeapRange;
    StartOk(lo, hi);
    RunOk(Start(lo, hi), lo, hi, ops, u);
    RunOk(Start(lo, hi), lo, hi, ops', u');
    LiveDetermines(u, u', lo, hi);
  }

  /** Whenever nothing is live, the heap is the single chunk it started as. */
  lemma AllFreed(lo: nat, hi: nat, ops: seq<Op>, u: seq<Tile>)
    requires HeapRange(lo, hi) && Runs(Start(lo, hi), ops, u) && LiveSet(u) == {}
    ensures u == [Free(lo, hi - lo)]
  {
    assert LiveSet(Start(lo, hi)) == {};
    assert Runs(Start(lo, hi), [], Start(lo, hi));
    HistoryIndependent(lo, hi, ops, [], u, Start(lo, hi));
  }

  /** The pointers of the live blocks. */
  function Pointers(t: seq<Tile>): set<nat> {
    set b | b in LiveSet(t) :: b.ptr
  }

  function FreeEach(t: seq<Tile>, ptrs: seq<nat>): seq<Tile>
    decreases |ptrs|
  {
    if ptrs == [] || Find(t, ptrs[0]) == |t| then t
    else FreeEach(Release(t, Find(t, ptrs[0])), ptrs[1..])
  }

  /** Freeing all live blocks, in any order, leaves the single chunk [lo, hi). */
  lemma {:induction false} FreeAllInAnyOrder(t: seq<Tile>, lo: nat, hi: nat, ptrs: seq<nat>)
    requires HeapRange(lo, hi) && Tiling(t, lo, hi) && Distinct(ptrs)
    requires forall p :: p in ptrs <==> p in Pointers(t)
    ensures FreeEach(t, ptrs) == [Free(lo, hi - lo)]
    decreases |ptrs|
  {
    if ptrs == [] {
      assert forall b :: b in LiveSet(t) ==> b.ptr in Pointers(t);
      assert LiveSet(t) == {};
      StartOk(lo, hi);
      assert LiveSet(Start(lo, hi)) == {};
      LiveDetermines(t, Start(lo, hi), lo, hi);
    } else {
      var i := Find(t, ptrs[0]);
      Present(t, ptrs[0]);
      ReleaseOk(t, lo, hi, i);
      PointersLeft(t, lo, hi, i);
      assert ptrs == [ptrs[0]] + ptrs[1..];
      assert Distinct(ptrs[1..]) && ptrs[0] !in ptrs[1..];
      FreeAllInAnyOrder(Release(t, i), lo, hi, ptrs[1..]);
    }
  }

  lemma Present(t: seq<Tile>, p: nat)
    requires p in Pointers(t)
    ensures Find(t, p) < |t|
  {
    var b :| b in LiveSet(t) && b.ptr == p;
    var j :| 0 <= j < |t| && t[j] == b;
  }

  lemma PointersLeft(t: seq<Tile>, lo: nat, hi: nat, i: nat)
    requires Tiling(t, lo, hi) && i < |t| && t[i].Live?
    ensures Pointers(Release(t, i)) == Pointers(t) - {t[i].ptr}
  {
    ReleaseOk(t, lo, hi, i);
    hide Release, Contiguous, Coalesced;
    forall b | b in LiveSet(t) && b.ptr == t[i].ptr
      ensures b == t[i]
    {
      var j :| 0 <= j < |t| && t[j] == b;
      PointerUnique(t, lo, hi, i, j);
    }
  }
}
