/**
 The free list as the addresses of the free tiles, and the words by which the heap's memory
 represents the tiles: the length of every free chunk, the header of every live block.
 */
module HeapList {
  import opened Basics
  import opened Bits
  import opened HeapTiles
  import opened HeapLaws

  const HEAP_MAGIC: nat := 0x48454150

  /** Words of memory by address. */
  type Memory = map<nat, nat>

  function Word(mem: Memory, a: nat): nat {
    if a in mem then mem[a] else 0
  }

  /** chunk->len. */
  function ChunkLen(mem: Memory, chunk: nat): nat {
    Word(mem, chunk + 8)
  }

  function Addrs(t: seq<Tile>): seq<nat> {
    if t == [] then [] else (if t[0].Free? then [t[0].addr] else []) + Addrs(t[1..])
  }

  /** The words that describe one tile. */
  ghost predicate Stored(mem: Memory, c: Tile) {
    match c
    case Free(addr, len) => ChunkLen(mem, addr) == len
    case Live(addr, len, ptr, _) =>
      ptr >= HEADER && Word(mem, ptr - 12) == HEAP_MAGIC && Word(mem, ptr - 8) == addr && Word(mem, ptr - 4) == len
  }

  ghost predicate AllStored(mem: Memory, t: seq<Tile>) {
    forall i :: 0 <= i < |t| ==> Stored(mem, t[i])
  }

  /** Payload words of blocks live in both t and u. */
  ghost predicate PayloadKept(mem: Memory, mem': Memory, t: seq<Tile>, u: seq<Tile>) {
    forall b, a: nat :: b in t && b in u && b.Live? && b.ptr <= a < b.ptr + b.request ==> Word(mem, a) == Word(mem', a)
  }

  /** The only words that changed lie in [lo, hi). */
  ghost predicate OnlyIn(mem: Memory, mem': Memory, lo: nat, hi: nat) {
    forall a: nat :: a < lo || hi <= a ==> Word(mem, a) == Word(mem', a)
  }

  // ---------- the list ----------

  lemma {:induction false} AddrsConcat(a: seq<Tile>, b: seq<Tile>)
    ensures Addrs(a + b) == Addrs(a) + Addrs(b)
  {
    if a == [] {
      assert a + b == b;
    } else {
      assert (a + b)[0] == a[0] && (a + b)[1..] == a[1..] + b;
      AddrsConcat(a[1..], b);
    }
  }

  lemma AddrsOne(c: Tile)
    ensures Addrs([c]) == if c.Free? then [c.addr] else []
  {
    assert [c][1..] == [];
  }

  /** The list around tile i. */
  lemma AddrsAround(t: seq<Tile>, i: nat)
    requires i < |t|
    ensures Addrs(t) == Addrs(t[..i]) + Addrs([t[i]]) + Addrs(t[i + 1..])
    ensures Addrs([t[i]]) == if t[i].Free? then [t[i].addr] else []
  {
    hide Addrs;
    AddrsOne(t[i]);
    AddrsConcat(t[..i], [t[i]]);
    AddrsConcat(t[..i] + [t[i]], t[i + 1..]);
    Split(t, i);
  }

  /** The tile behind entry j of the list. */
  lemma {:induction false} TileOf(t: seq<Tile>, j: nat) returns (m: nat)
    requires j < |Addrs(t)|
    ensures m < |t| && t[m].Free? && t[m].addr == Addrs(t)[j] && |Addrs(t[..m])| == j
  {
    if t[0].Free? && j == 0 {
      m := 0;
      assert t[..0] == [];
    } else {
      var m' := TileOf(t[1..], if t[0].Free? then j - 1 else j);
      m := m' + 1;
      assert t[..m] == [t[0]] + t[1..][..m'];
      AddrsConcat([t[0]], t[1..][..m']);
      assert [t[0]][1..] == [];
    }
  }

  /** Entries come in tile order. */
  lemma EntryBefore(t: seq<Tile>, i: nat, j: nat)
    requires i < j <= |t| && t[i].Free?
    ensures |Addrs(t[..i])| < |Addrs(t[..j])|
    ensures |Addrs(t[..i])| < |Addrs(t)| && Addrs(t)[|Addrs(t[..i])|] == t[i].addr
  {
    AddrsAround(t, i);
    assert t[..j][..i] == t[..i] && t[..j][i] == t[i];
    AddrsAround(t[..j], i);
  }

  /** The list has the chunks below tile i first, then the chunks above it. */
  lemma Sides(t: seq<Tile>, lo: nat, hi: nat, i: nat)
    requires Contiguous(t, lo, hi) && i < |t| && t[i].Live?
    ensures Addrs(t) == Addrs(t[..i]) + Addrs(t[i + 1..])
    ensures forall j :: 0 <= j < |Addrs(t[..i])| ==> Addrs(t)[j] < t[i].addr
    ensures forall j :: |Addrs(t[..i])| <= j < |Addrs(t)| ==> t[i].addr < Addrs(t)[j]
  {
    AddrsAround(t, i);
    forall j | 0 <= j < |Addrs(t[..i])|
      ensures Addrs(t)[j] < t[i].addr
    {
      var m := TileOf(t[..i], j);
      InOrder(t, lo, hi, m, i);
      TileAt(t, lo, hi, m);
    }
    forall j | |Addrs(t[..i])| <= j < |Addrs(t)|
      ensures t[i].addr < Addrs(t)[j]
    {
      var m := TileOf(t[i + 1..], j - |Addrs(t[..i])|);
      InOrder(t, lo, hi, i, i + 1 + m);
      TileAt(t, lo, hi, i);
    }
  }

  /** The chunk listed before tile i ends where the tile starts exactly when it is its neighbour. */
  lemma ChunkBefore(t: seq<Tile>, lo: nat, hi: nat, i: nat) returns (m: nat)
    requires Contiguous(t, lo, hi) && i < |t| && Addrs(t[..i]) != []
    ensures m < i && t[m].Free? && t[m].addr == Addrs(t[..i])[|Addrs(t[..i])| - 1]
    ensures t[m].addr + t[m].len == t[i].addr <==> FreeAt(t, i - 1)
    ensures FreeAt(t, i - 1) ==> m == i - 1
  {
    m := TileOf(t[..i], |Addrs(t[..i])| - 1);
    assert t[..i][m] == t[m] && t[..i][..m] == t[..m];
    if FreeAt(t, i - 1) && m < i - 1 {
      EntryBefore(t, i - 1, i);
      EntryBefore(t, m, i - 1);
    }
    TileAt(t, lo, hi, i);
    if m == i - 1 {
      Neighbours(t, lo, hi, m);
    } else {
      InOrder(t, lo, hi, m, i - 1);
      InOrder(t, lo, hi, i - 1, i);
      TileAt(t, lo, hi, i - 1);
    }
  }

  lemma Neighbours(t: seq<Tile>, lo: nat, hi: nat, m: nat)
    requires Contiguous(t, lo, hi) && m + 1 < |t|
    ensures t[m].addr + t[m].len == t[m + 1].addr
  {
    TileAt(t, lo, hi, m);
    assert t[m + 1..][0] == t[m + 1];
  }

  /** The chunk listed after tile i starts where the tile ends exactly when it is its neighbour. */
  lemma ChunkAfter(t: seq<Tile>, lo: nat, hi: nat, i: nat) returns (m: nat)
    requires Contiguous(t, lo, hi) && i < |t| && Addrs(t[i + 1..]) != []
    ensures i < m < |t| && t[m].Free? && t[m].addr == Addrs(t[i + 1..])[0]
    ensures t[i].addr + t[i].len == t[m].addr <==> FreeAt(t, i + 1)
    ensures FreeAt(t, i + 1) ==> m == i + 1
  {
    var m' := TileOf(t[i + 1..], 0);
    m := i + 1 + m';
    if FreeAt(t, i + 1) && m' > 0 {
      EntryBefore(t[i + 1..], 0, m');
    }
    Neighbours(t, lo, hi, i);
    if m > i + 1 {
      InOrder(t, lo, hi, i + 1, m);
      TileAt(t, lo, hi, i + 1);
    }
  }

  /** Deleting an entry that no earlier entry equals. */
  lemma {:induction false} WithoutAfter(a: seq<nat>, x: nat, b: seq<nat>)
    requires x !in a
    ensures Without(a + [x] + b, x) == a + b
  {
    if a == [] {
      assert [] + [x] + b == [x] + b && [] + b == b;
    } else {
      assert (a + [x] + b)[1..] == a[1..] + [x] + b;
      WithoutAfter(a[1..], x, b);
      assert [a[0]] + (a[1..] + b) == a + b;
    }
  }

  /** Free neighbours are on the list. */
  lemma NeighboursListed(t: seq<Tile>, i: nat)
    requires i < |t|
    ensures FreeAt(t, i - 1) ==> Addrs(t[..i]) != []
    ensures FreeAt(t, i + 1) ==> Addrs(t[i + 1..]) != []
  {
    if FreeAt(t, i - 1) {
      EntryBefore(t, i - 1, i);
    }
    if FreeAt(t, i + 1) {
      assert t[i + 1..][0] == t[i + 1];
    }
  }

  /** The list after the tiles p up to q became one chunk. */
  lemma AddrsMerged(t: seq<Tile>, p: nat, q: nat, f: Tile)
    requires p < q <= |t| && f.Free?
    ensures Addrs(t[..p] + [f] + t[q..]) == Addrs(t[..p]) + [f.addr] + Addrs(t[q..])
  {
    AddrsConcat(t[..p] + [f], t[q..]);
    AddrsConcat(t[..p], [f]);
    assert [f][1..] == [];
  }

  // ---------- the words ----------

  /** A tile is described by words of its own. */
  lemma StoredFrame(mem: Memory, mem': Memory, c: Tile, lo: nat, hi: nat)
    requires Stored(mem, c) && BlockOk(c) && CHUNK <= c.len && OnlyIn(mem, mem', lo, hi)
    requires hi <= c.addr || c.addr + c.len <= lo
    ensures Stored(mem', c)
  {
  }

  /** Writing inside the tiles from p up to q leaves the other tiles described as before. */
  lemma OthersStored(mem: Memory, mem': Memory, t: seq<Tile>, lo: nat, hi: nat, p: nat, q: nat, j: nat)
    requires Tiling(t, lo, hi) && p < q <= |t| && j < |t| && (j < p || q <= j) && Stored(mem, t[j])
    requires OnlyIn(mem, mem', t[p].addr, t[q - 1].addr + t[q - 1].len)
    ensures Stored(mem', t[j])
  {
    TileAt(t, lo, hi, j);
    assert BlockOk(t[j]);
    if j < p {
      InOrder(t, lo, hi, j, p);
    } else {
      InOrder(t, lo, hi, q - 1, j);
    }
    StoredFrame(mem, mem', t[j], t[p].addr, t[q - 1].addr + t[q - 1].len);
  }

  /** Writing inside the tiles from p up to q leaves the payload of all other blocks alone. */
  lemma OthersKept(mem: Memory, mem': Memory, t: seq<Tile>, u: seq<Tile>, lo: nat, hi: nat, p: nat, q: nat)
    requires Tiling(t, lo, hi) && p < q <= |t|
    requires OnlyIn(mem, mem', t[p].addr, t[q - 1].addr + t[q - 1].len)
    requires forall j :: p <= j < q && t[j].Live? ==> t[j] !in u
    ensures PayloadKept(mem, mem', t, u)
  {
    forall b, a: nat | b in t && b in u && b.Live? && b.ptr <= a < b.ptr + b.request
      ensures Word(mem, a) == Word(mem', a)
    {
      var j :| 0 <= j < |t| && t[j] == b;
      assert BlockOk(t[j]);
      if j < p {
        InOrder(t, lo, hi, j, p);
      } else {
        InOrder(t, lo, hi, q - 1, j);
      }
    }
  }

  lemma OnlyInTrans(m0: Memory, m1: Memory, m2: Memory, lo: nat, mid: nat, hi: nat)
    requires OnlyIn(m0, m1, lo, mid) && OnlyIn(m1, m2, lo, hi) && mid <= hi
    ensures OnlyIn(m0, m2, lo, hi)
  {
  }

  /** First and one past the last of the tiles that tile i merges with. */
  function From(t: seq<Tile>, i: nat): (p: nat)
    ensures i <= |t| ==> p <= i
  {
    if FreeAt(t, i - 1) then i - 1 else i
  }

  function To(t: seq<Tile>, i: nat): (q: nat)
    ensures i < q && (i < |t| ==> q <= |t|)
  {
    if FreeAt(t, i + 1) then i + 2 else i + 1
  }

  /** The words and the list that a release must leave behind. */
  lemma ReleaseStored(mem: Memory, mem': Memory, t: seq<Tile>, lo: nat, hi: nat, i: nat)
    requires Tiling(t, lo, hi) && i < |t| && t[i].Live?
    requires forall j :: 0 <= j < |t| && j != i ==> Stored(mem, t[j])
    requires ChunkLen(mem', t[From(t, i)].addr) == Total(t[From(t, i)..To(t, i)])
    requires OnlyIn(mem, mem', t[From(t, i)].addr, t[To(t, i) - 1].addr + t[To(t, i) - 1].len)
    ensures AllStored(mem', Release(t, i))
    ensures Addrs(Release(t, i)) == Addrs(t[..From(t, i)]) + [t[From(t, i)].addr] + Addrs(t[To(t, i)..])
    ensures PayloadKept(mem, mem', t, Release(t, i))
  {
    hide Tiling, Addrs, Total, BlockOk, OnlyIn, Word;
    var p, q := From(t, i), To(t, i);
    var f := Free(t[p].addr, Total(t[p..q]));
    var r := Release(t, i);
    assert r == t[..p] + [f] + t[q..];
    AddrsMerged(t, p, q, f);
    forall j | 0 <= j < |r|
      ensures Stored(mem', r[j])
    {
      if j != p {
        OthersStored(mem, mem', t, lo, hi, p, q, if j < p then j else j - p - 1 + q);
      }
    }
    ReleaseOk(t, lo, hi, i);
    hide LiveSet, PayloadKept, Stored;
    assert t[i] !in LiveSet(r);
    NotLive(r, t[i]);
    OthersKept(mem, mem', t, r, lo, hi, p, q);
  }

  lemma NotLive(t: seq<Tile>, b: Tile)
    requires b !in LiveSet(t) && b.Live?
    ensures b !in t
  {
  }
}
