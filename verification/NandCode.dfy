/**
 flash_write, flash_read_ext and flash_erase of platform/msm_shared/nand_wince.c over a device
 whose reads, writes, erases and bad-block marks may fail at any time. No extra bytes per page.
 */
module NandCode {
  import opened Basics
  import opened Bits
  import opened NandModel

  // ---------- what has failed ----------

  /** Failures in the order in which they occurred: blocks not reported bad that failed to erase,
      blocks in which a page failed to write, blocks that could not be marked, pages that failed to read. */
  datatype Log = Log(erase: seq<nat>, write: seq<nat>, mark: seq<nat>, read: seq<nat>)

  ghost predicate Extends(l0: Log, l: Log) {
    l0.erase <= l.erase && l0.write <= l.write && l0.mark <= l.mark && l0.read <= l.read
  }

  /** The entries added since. */
  function Since(before: seq<nat>, now: seq<nat>): set<nat> {
    if |before| <= |now| then set x | x in now[|before|..] else {}
  }

  lemma SinceMore(a: seq<nat>, b: seq<nat>, c: seq<nat>)
    requires a <= b <= c
    ensures Since(a, b) <= Since(a, c) && Since(b, c) <= Since(a, c)
  {
    assert c[..|b|] == b;
    forall x | x in b[|a|..]
      ensures x in c[|a|..]
    {
      var i :| 0 <= i < |b| - |a| && b[|a|..][i] == x;
      assert c[|a|..][i] == b[|a| + i];
    }
    forall x | x in c[|b|..]
      ensures x in c[|a|..]
    {
      var i :| 0 <= i < |c| - |b| && c[|b|..][i] == x;
      assert c[|a|..][i + |b| - |a|] == c[|b| + i];
    }
  }

  lemma SinceOne(a: seq<nat>, b: seq<nat>, x: nat)
    requires a <= b
    ensures Since(a, b + [x]) == Since(a, b) + {x}
  {
    assert (b + [x])[|a|..] == b[|a|..] + [x];
  }

  lemma SinceNone(a: seq<nat>)
    ensures Since(a, a) == {}
  {
  }

  /** Blocks are given up only for a reason: lost ones failed to erase or to be marked, and newly
      marked ones had a page fail. */
  ghost predicate Blamed(before: set<nat>, bad: set<nat>, lost: set<nat>, l0: Log, l: Log) {
    && Extends(l0, l)
    && lost <= Since(l0.erase, l.erase) + Since(l0.mark, l.mark)
    && bad - before <= Since(l0.write, l.write)
  }

  lemma StartBlamed(bad: set<nat>, l: Log)
    ensures Blamed(bad, bad, {}, l, l)
  {
  }

  /** One more block given up. */
  lemma BlameMore(before: set<nat>, bad: set<nat>, bad': set<nat>, lost: set<nat>, lost': set<nat>, l0: Log, l: Log, l': Log)
    requires Blamed(before, bad, lost, l0, l) && Extends(l, l')
    requires lost' - lost <= Since(l.erase, l'.erase) + Since(l.mark, l'.mark)
    requires bad' - bad <= Since(l.write, l'.write)
    ensures Blamed(before, bad', lost', l0, l')
  {
    SinceMore(l0.erase, l.erase, l'.erase);
    SinceMore(l0.write, l.write, l'.write);
    SinceMore(l0.mark, l.mark, l'.mark);
    hide Since;
    assert lost' <= lost + (lost' - lost) && bad' - before <= (bad - before) + (bad' - bad);
  }

  // ---------- progress of flash_write ----------

  /** The pages before `page` hold the first src bytes of the image, and the rest of a block that
      is being filled is erased. */
  ghost predicate Progress(c: Content, skip: set<nat>, ptn: Partition, page: nat, data: seq<Byte>, src: nat) {
    var g := Good(FirstPage(ptn), page, skip);
    && FirstPage(ptn) <= page <= LastPage(ptn) && src <= |data|
    && AllProgrammed(c, g) && Bytes(c, g) == data[..src]
    && (page % BLOCK_PAGES != 0 ==> Filling(c, skip, page))
  }

  /** The block of this page is in use, and erased from this page on. */
  ghost predicate Filling(c: Content, skip: set<nat>, page: nat) {
    && page / BLOCK_PAGES !in skip
    && forall p :: page <= p < BlockStart(page) + BLOCK_PAGES ==> c(p).Erased?
  }

  ghost predicate SameBefore(c: Content, c': Content, page: nat) {
    forall p: nat :: p < page ==> c'(p) == c(p)
  }

  lemma BytesBefore(c: Content, c': Content, lo: nat, page: nat, skip: set<nat>)
    requires AllProgrammed(c, Good(lo, page, skip)) && SameBefore(c, c', page)
    ensures AllProgrammed(c', Good(lo, page, skip))
    ensures Bytes(c', Good(lo, page, skip)) == Bytes(c, Good(lo, page, skip))
  {
    GoodBounds(lo, page, skip);
    hide Bytes, Good;
    BytesSame(c, c', Good(lo, page, skip));
  }

  lemma AlignedBlock(page: nat)
    ensures BlockStart(page) == page / BLOCK_PAGES * BLOCK_PAGES && BlockStart(page) % BLOCK_PAGES == 0
    ensures BlockStart(page) / BLOCK_PAGES == page / BLOCK_PAGES
    ensures page % BLOCK_PAGES == 0 ==> (page + BLOCK_PAGES) % BLOCK_PAGES == 0 && BlockStart(page) == page
  {
  }

  /** Giving up the block at page: it counts as skipped from now on. */
  lemma SkipBlock(c: Content, c': Content, skip: set<nat>, skip': set<nat>, ptn: Partition, page: nat,
                  data: seq<Byte>, src: nat)
    requires Progress(c, skip, ptn, page, data, src) && page % BLOCK_PAGES == 0 && page < LastPage(ptn)
    requires SameBefore(c, c', page)
    requires page / BLOCK_PAGES in skip'
    requires forall b :: b * BLOCK_PAGES < page ==> (b in skip <==> b in skip')
    ensures Progress(c', skip', ptn, page + BLOCK_PAGES, data, src)
  {
    hide Bytes, Good;
    var lo := FirstPage(ptn);
    GoodSame(lo, page, skip, skip');
    BytesBefore(c, c', lo, page, skip');
    GoodSplit(lo, page, page + BLOCK_PAGES, skip');
    AlignedBlock(page);
    GoodInBlock(page / BLOCK_PAGES, BLOCK_PAGES, skip');
    assert Good(page, page + BLOCK_PAGES, skip') == [];
    assert Good(lo, page + BLOCK_PAGES, skip') == Good(lo, page, skip');
  }

  /** A page was programmed with the next bytes of the image. */
  lemma NextPage(c: Content, c': Content, skip: set<nat>, ptn: Partition, page: nat, data: seq<Byte>, src: nat, len: nat)
    requires Progress(c, skip, ptn, page, data, src) && Filling(c, skip, page) && page < LastPage(ptn)
    requires src + len <= |data| && c'(page) == Programmed(data[src..src + len])
    requires forall p: nat :: p != page ==> c'(p) == c(p)
    ensures Progress(c', skip, ptn, page + 1, data, src + len)
  {
    var lo := FirstPage(ptn);
    assert Good(lo, page + 1, skip) == Good(lo, page, skip) + [page];
    BytesBefore(c, c', lo, page, skip);
    var g := Good(lo, page, skip);
    hide Good;
    assert [page][..0] == [] && Bytes(c', []) == [];
    assert Bytes(c', [page]) == c'(page).data;
    BytesConcat(c', g, [page]);
    assert data[..src + len] == data[..src] + data[src..src + len];
    AlignedBlock(page);
    if (page + 1) % BLOCK_PAGES != 0 {
      assert (page + 1) / BLOCK_PAGES == page / BLOCK_PAGES;
      assert BlockStart(page + 1) == BlockStart(page);
    }
  }

  /** Rolling back to the start of the block undoes exactly the pages written in it. */
  lemma Rollback(c: Content, skip: set<nat>, ptn: Partition, page: nat, data: seq<Byte>, src: nat, pageSize: nat)
    requires Progress(c, skip, ptn, page, data, src) && PageSized(c, pageSize)
    ensures page % BLOCK_PAGES * pageSize <= src
    ensures Progress(c, skip, ptn, BlockStart(page), data, src - page % BLOCK_PAGES * pageSize)
  {
    hide Bytes, Good;
    var lo, start := FirstPage(ptn), BlockStart(page);
    AlignedBlock(page);
    BlockStartsInside(ptn, page);
    GoodSplit(lo, start, page, skip);
    GoodInBlock(page / BLOCK_PAGES, page % BLOCK_PAGES, skip);
    LastPagesBytes(c, Good(lo, start, skip), Good(start, page, skip), data, src, pageSize);
  }

  lemma BlockStartsInside(ptn: Partition, page: nat)
    requires FirstPage(ptn) <= page
    ensures FirstPage(ptn) <= BlockStart(page)
  {
  }

  lemma LastPagesBytes(c: Content, a: seq<nat>, b: seq<nat>, data: seq<Byte>, src: nat, pageSize: nat)
    requires AllProgrammed(c, a + b) && PageSized(c, pageSize) && src <= |data| && Bytes(c, a + b) == data[..src]
    ensures |b| * pageSize <= src && AllProgrammed(c, a) && Bytes(c, a) == data[..src - |b| * pageSize]
  {
    hide Bytes;
    assert forall p :: p in a || p in b ==> p in a + b;
    BytesConcat(c, a, b);
    BytesLength(c, b, pageSize);
    assert data[..src] == Bytes(c, a) + Bytes(c, b);
    assert data[..|Bytes(c, a)|] == Bytes(c, a);
  }

  /** A freshly erased block starts to be filled. */
  lemma BeginBlock(c: Content, c': Content, skip: set<nat>, ptn: Partition, page: nat, data: seq<Byte>, src: nat)
    requires Progress(c, skip, ptn, page, data, src) && page % BLOCK_PAGES == 0 && page / BLOCK_PAGES !in skip
    requires SameBefore(c, c', page)
    requires forall p: nat :: p / BLOCK_PAGES == page / BLOCK_PAGES ==> c'(p).Erased?
    ensures Progress(c', skip, ptn, page, data, src) && Filling(c', skip, page)
  {
    BytesBefore(c, c', FirstPage(ptn), page, skip);
    hide Bytes, Good;
  }

  /** When the image is complete, it is stored; later blocks do not matter. */
  lemma Complete(c: Content, c': Content, skip: set<nat>, ptn: Partition, page: nat, data: seq<Byte>, pageSize: nat)
    returns (n: nat)
    requires Progress(c, skip, ptn, page, data, |data|) && SameBefore(c, c', page) && PageSized(c, pageSize)
    ensures n == |Good(FirstPage(ptn), page, skip)|
    ensures Stored(c', skip, ptn, data, n) && n * pageSize == |data| && n <= |Usable(ptn, skip)|
  {
    var lo := FirstPage(ptn);
    n := |Good(lo, page, skip)|;
    GoodSplit(lo, page, LastPage(ptn), skip);
    BytesBefore(c, c', lo, page, skip);
    BytesLength(c, Good(lo, page, skip), pageSize);
    hide Bytes, Good;
    assert Usable(ptn, skip)[..n] == Good(lo, page, skip);
    assert data[..|data|] == data;
  }

  lemma Masks(page: nat)
    requires page < Pow2(32)
    ensures And(page, 63) == page % BLOCK_PAGES
    ensures 63 < Pow2(32) && And(page, Not(63, 32)) == BlockStart(page)
  {
    Pow2Monotone(6, 32);
    assert Pow2(6) == 64 by { assert Pow2(3) == 8; }
    AndLowMask(page, 6);
    AndHighMask(page, 6, 32);
    assert HighMask(6, 32) == Not(63, 32);
  }

  /** Pages outside the partition are as before. */
  ghost predicate OnlyPartition(c: Content, c': Content, ptn: Partition) {
    forall p: nat :: p < FirstPage(ptn) || LastPage(ptn) <= p ==> c'(p) == c(p)
  }

  /** Blocks given up or newly marked lie in the partition, before the page. */
  ghost predicate GivenUp(before: set<nat>, bad: set<nat>, lost: set<nat>, ptn: Partition, page: nat) {
    && before <= bad && lost !! bad
    && forall b :: b in lost || (b in bad && b !in before) ==> ptn.start <= b && (b + 1) * BLOCK_PAGES <= page
  }

  lemma BlockOfPage(c: Content, c': Content, ptn: Partition, page: nat)
    requires FirstPage(ptn) <= page < LastPage(ptn)
    requires forall p: nat :: p / BLOCK_PAGES != page / BLOCK_PAGES ==> c'(p) == c(p)
    ensures OnlyPartition(c, c', ptn)
    ensures SameBefore(c, c', BlockStart(page))
    ensures ptn.start <= page / BLOCK_PAGES && (page / BLOCK_PAGES + 1) * BLOCK_PAGES == BlockStart(page) + BLOCK_PAGES <= LastPage(ptn)
  {
  }

  lemma OnlyPartitionTrans(c0: Content, c1: Content, c2: Content, ptn: Partition)
    requires OnlyPartition(c0, c1, ptn) && OnlyPartition(c1, c2, ptn)
    ensures OnlyPartition(c0, c2, ptn)
  {
  }

  /** The image does not come out even, or does not fit: exactly then flash_write fails. */
  lemma TooShort(c: Content, skip: set<nat>, ptn: Partition, page: nat, data: seq<Byte>, src: nat, pageSize: nat)
    requires Progress(c, skip, ptn, page, data, src) && PageSized(c, pageSize)
    ensures 0 < |data| - src < pageSize ==> |data| % pageSize != 0
    ensures page == LastPage(ptn) && src < |data| ==> |Usable(ptn, skip)| * pageSize < |data|
  {
    hide Good, Bytes;
    var g := Good(FirstPage(ptn), page, skip);
    BytesLength(c, g, pageSize);
    if 0 < |data| - src < pageSize {
      ModUnique(|data|, pageSize, |g|, |data| - src);
    }
  }

  lemma Fits(n: nat, total: nat, len: nat, pageSize: nat)
    requires pageSize > 0 && n <= total && n * pageSize == len
    ensures len % pageSize == 0 && len <= total * pageSize
  {
    ModUnique(len, pageSize, n, 0);
    assert (total - n) * pageSize >= 0;
  }

  // ---------- steps of flash_write ----------

  lemma StartProgress(c: Content, bad: set<nat>, ptn: Partition, data: seq<Byte>)
    ensures Progress(c, bad + {}, ptn, FirstPage(ptn), data, 0) && GivenUp(bad, bad, {}, ptn, FirstPage(ptn))
    ensures OnlyPartition(c, c, ptn) && FirstPage(ptn) <= LastPage(ptn)
  {
    assert Bytes(c, []) == data[..0];
  }

  lemma InPartition(c: Content, skip: set<nat>, ptn: Partition, page: nat, data: seq<Byte>, src: nat)
    requires Progress(c, skip, ptn, page, data, src)
    ensures FirstPage(ptn) <= page <= LastPage(ptn)
  {
  }

  lemma GivenUpLater(before: set<nat>, bad: set<nat>, lost: set<nat>, ptn: Partition, page: nat, page': nat)
    requires GivenUp(before, bad, lost, ptn, page) && page <= page'
    ensures GivenUp(before, bad, lost, ptn, page')
  {
  }

  lemma GivenUpBlock(before: set<nat>, bad: set<nat>, lost: set<nat>, ptn: Partition, page: nat)
    requires GivenUp(before, bad, lost, ptn, page)
    ensures GivenUp(before, bad, lost, ptn, BlockStart(page))
  {
  }

  /** The block at page is given up: marked bad, or lost. */
  lemma GiveUp(before: set<nat>, bad: set<nat>, bad': set<nat>, lost: set<nat>, lost': set<nat>, ptn: Partition, page: nat)
    requires GivenUp(before, bad, lost, ptn, page) && page % BLOCK_PAGES == 0
    requires FirstPage(ptn) <= page < LastPage(ptn)
    requires bad <= bad' <= bad + {page / BLOCK_PAGES}
    requires lost' == if page / BLOCK_PAGES in bad' then lost else lost + {page / BLOCK_PAGES}
    ensures GivenUp(before, bad', lost', ptn, page + BLOCK_PAGES) && page + BLOCK_PAGES <= LastPage(ptn)
    ensures page / BLOCK_PAGES in bad' + lost'
    ensures forall b :: b * BLOCK_PAGES < page ==> (b in bad + lost <==> b in bad' + lost')
  {
  }

  lemma NotGivenUp(before: set<nat>, bad: set<nat>, lost: set<nat>, ptn: Partition, page: nat)
    requires GivenUp(before, bad, lost, ptn, page) && page / BLOCK_PAGES !in bad
    ensures page / BLOCK_PAGES !in bad + lost
  {
  }

  /** An operation on the block of this page stays inside the partition and leaves earlier blocks alone. */
  lemma BlockTouched(c0: Content, c: Content, c': Content, ptn: Partition, page: nat)
    requires OnlyPartition(c0, c, ptn) && FirstPage(ptn) <= page < LastPage(ptn)
    requires forall p: nat :: p / BLOCK_PAGES != page / BLOCK_PAGES ==> c'(p) == c(p)
    ensures OnlyPartition(c0, c', ptn) && SameBefore(c, c', BlockStart(page))
  {
    BlockOfPage(c, c', ptn, page);
  }

  lemma InBlock(c: Content, skip: set<nat>, ptn: Partition, page: nat, data: seq<Byte>, src: nat)
    requires Progress(c, skip, ptn, page, data, src) && (page % BLOCK_PAGES == 0 ==> Filling(c, skip, page))
    ensures Filling(c, skip, page) && c(page).Erased?
  {
  }

  /** A page failed: back to the start of its block. */
  lemma FailedPage(c: Content, c': Content, skip: set<nat>, ptn: Partition, page: nat, data: seq<Byte>, src: nat, pageSize: nat)
    requires Progress(c, skip, ptn, page, data, src) && PageSized(c, pageSize)
    requires SameBefore(c, c', BlockStart(page))
    ensures page % BLOCK_PAGES * pageSize <= src
    ensures Progress(c', skip, ptn, BlockStart(page), data, src - page % BLOCK_PAGES * pageSize)
    ensures FirstPage(ptn) <= BlockStart(page) && BlockStart(page) % BLOCK_PAGES == 0
  {
    hide Good, Bytes;
    Rollback(c, skip, ptn, page, data, src, pageSize);
    BytesBefore(c, c', FirstPage(ptn), BlockStart(page), skip);
    AlignedBlock(page);
  }

  /** The first n pages of an image, or all of it if it is shorter. */
  function FirstPages(data: seq<Byte>, n: nat, pageSize: nat): (d: seq<Byte>)
    ensures n * pageSize == |data| ==> d == data
  {
    if n * pageSize <= |data| then data[..n * pageSize] else data
  }

  /** Usable pages behind the image are erased, unless an erase failed on their block. */
  ghost predicate Swept(c: Content, skip: set<nat>, ptn: Partition, n: nat, failures: set<nat>) {
    && n <= |Usable(ptn, skip)|
    && forall p :: p in Usable(ptn, skip)[n..] ==> c(p).Erased? || p / BLOCK_PAGES in failures
  }

  /** A page that an attempt to erase its block left behind. */
  ghost predicate Swiped(c: Content, bad: set<nat>, failures: set<nat>, p: nat) {
    c(p).Erased? || p / BLOCK_PAGES in bad || p / BLOCK_PAGES in failures
  }

  lemma SweptOk(c: Content, c': Content, bad: set<nat>, lost: set<nat>, ptn: Partition, page: nat, data: seq<Byte>, n: nat,
                failures: set<nat>)
    requires Progress(c, bad + lost, ptn, page, data, |data|) && SameBefore(c, c', BlockStart(page + 63))
    requires n == |Good(FirstPage(ptn), page, bad + lost)|
    requires forall p: nat :: BlockStart(page + 63) <= p < LastPage(ptn) ==>
               Swiped(c', bad, failures, p)
    ensures Swept(c', bad + lost, ptn, n, failures)
  {
    hide Good, Bytes;
    var skip := bad + lost;
    GoodSplit(FirstPage(ptn), page, LastPage(ptn), skip);
    GoodBounds(page, LastPage(ptn), skip);
    assert Usable(ptn, skip)[n..] == Good(page, LastPage(ptn), skip);
    Partial(page);
    forall p | p in Good(page, LastPage(ptn), skip)
      ensures c'(p).Erased? || p / BLOCK_PAGES in failures
    {
      if p >= BlockStart(page + 63) {
        assert Swiped(c', bad, failures, p);
      }
    }
  }

  /** One more block erased, bad or failed. */
  lemma SwipedMore(c: Content, c': Content, bad: set<nat>, f: set<nat>, f': set<nat>, lo: nat, page: nat)
    requires page % BLOCK_PAGES == 0 && f <= f'
    requires forall p: nat :: lo <= p < page ==> Swiped(c, bad, f, p)
    requires forall p: nat :: p / BLOCK_PAGES != page / BLOCK_PAGES ==> c'(p) == c(p)
    requires page / BLOCK_PAGES in bad || page / BLOCK_PAGES in f'
             || forall p: nat :: p / BLOCK_PAGES == page / BLOCK_PAGES ==> c'(p).Erased?
    ensures forall p: nat :: lo <= p < page + BLOCK_PAGES ==> Swiped(c', bad, f', p)
  {
    forall p: nat | lo <= p < page + BLOCK_PAGES
      ensures Swiped(c', bad, f', p)
    {
      if p < page {
        assert Swiped(c, bad, f, p);
      }
    }
  }

  lemma BeforeRest(c: Content, c': Content, page: nat)
    requires SameBefore(c, c', BlockStart(page + 63))
    ensures SameBefore(c, c', page)
  {
    Partial(page);
  }

  lemma Partial(page: nat)
    ensures page % BLOCK_PAGES != 0 ==> BlockStart(page + 63) == BlockStart(page) + BLOCK_PAGES
    ensures page % BLOCK_PAGES == 0 ==> BlockStart(page + 63) == page
    ensures page <= BlockStart(page + 63) && BlockStart(page + 63) % BLOCK_PAGES == 0
  {
  }

  /** What the loop of flash_write keeps. */
  ghost predicate Writing(c0: Content, c: Content, before: set<nat>, bad: set<nat>, lost: set<nat>,
                          ptn: Partition, page: nat, data: seq<Byte>, src: nat) {
    && Progress(c, bad + lost, ptn, page, data, src)
    && OnlyPartition(c0, c, ptn)
    && GivenUp(before, bad, lost, ptn, page)
    && Ruined(c, lost)
  }

  /** What happens to the current block, or a later one, leaves the lost blocks as they are. */
  lemma StillRuined(c: Content, c': Content, before: set<nat>, bad: set<nat>, lost: set<nat>, ptn: Partition, page: nat)
    requires Ruined(c, lost) && GivenUp(before, bad, lost, ptn, page) && SameBefore(c, c', BlockStart(page))
    ensures Ruined(c', lost)
  {
  }

  lemma StartWriting(c: Content, bad: set<nat>, ptn: Partition, data: seq<Byte>)
    ensures Writing(c, c, bad, bad, {}, ptn, FirstPage(ptn), data, 0)
  {
    StartProgress(c, bad, ptn, data);
  }

  /** What the loop invariant means wherever the loop stops. */
  lemma WritingMeans(c0: Content, c: Content, before: set<nat>, bad: set<nat>, lost: set<nat>,
                     ptn: Partition, page: nat, data: seq<Byte>, src: nat, pageSize: nat)
    requires Writing(c0, c, before, bad, lost, ptn, page, data, src) && PageSized(c, pageSize)
    ensures FirstPage(ptn) <= page <= LastPage(ptn) && OnlyPartition(c0, c, ptn)
    ensures GivenUp(before, bad, lost, ptn, LastPage(ptn))
    ensures 0 < |data| - src < pageSize ==> |data| % pageSize != 0
    ensures page == LastPage(ptn) && src < |data| ==> |Usable(ptn, bad + lost)| * pageSize < |data|
  {
    hide Progress, OnlyPartition, GivenUp;
    InPartition(c, bad + lost, ptn, page, data, src);
    TooShort(c, bad + lost, ptn, page, data, src, pageSize);
    GivenUpLater(before, bad, lost, ptn, page, LastPage(ptn));
  }

  /** The block at page is given up: it could not be erased, or was erased and marked after a failure. */
  lemma WritingSkips(c0: Content, c: Content, c': Content, before: set<nat>, bad: set<nat>, bad': set<nat>,
                     lost: set<nat>, lost': set<nat>, ptn: Partition, page: nat, data: seq<Byte>, src: nat)
    requires Writing(c0, c, before, bad, lost, ptn, page, data, src)
    requires page % BLOCK_PAGES == 0 && page < LastPage(ptn)
    requires forall p: nat :: p / BLOCK_PAGES != page / BLOCK_PAGES ==> c'(p) == c(p)
    requires bad <= bad' <= bad + {page / BLOCK_PAGES}
    requires lost' == if page / BLOCK_PAGES in bad' then lost else lost + {page / BLOCK_PAGES}
    requires page / BLOCK_PAGES in bad' || forall p: nat :: p / BLOCK_PAGES == page / BLOCK_PAGES ==> c'(p).Garbage?
    ensures Writing(c0, c', before, bad', lost', ptn, page + BLOCK_PAGES, data, src)
    ensures page + BLOCK_PAGES <= LastPage(ptn)
  {
    hide Progress, OnlyPartition, GivenUp, Ruined, SameBefore;
    InPartition(c, bad + lost, ptn, page, data, src);
    AlignedBlock(page);
    BlockTouched(c0, c, c', ptn, page);
    GiveUp(before, bad, bad', lost, lost', ptn, page);
    SkipBlock(c, c', bad + lost, bad' + lost', ptn, page, data, src);
    StillRuined(c, c', before, bad, lost, ptn, page);
    OneMoreRuined(c', lost, lost', page);
  }

  lemma OneMoreRuined(c: Content, lost: set<nat>, lost': set<nat>, page: nat)
    requires Ruined(c, lost) && lost' <= lost + {page / BLOCK_PAGES}
    requires page / BLOCK_PAGES !in lost' || forall p: nat :: p / BLOCK_PAGES == page / BLOCK_PAGES ==> c(p).Garbage?
    ensures Ruined(c, lost')
  {
  }

  /** The block at page was erased. */
  lemma WritingBegins(c0: Content, c: Content, c': Content, before: set<nat>, bad: set<nat>, lost: set<nat>,
                      ptn: Partition, page: nat, data: seq<Byte>, src: nat)
    requires Writing(c0, c, before, bad, lost, ptn, page, data, src)
    requires page % BLOCK_PAGES == 0 && page < LastPage(ptn) && page / BLOCK_PAGES !in bad
    requires forall p: nat :: p / BLOCK_PAGES != page / BLOCK_PAGES ==> c'(p) == c(p)
    requires forall p: nat :: p / BLOCK_PAGES == page / BLOCK_PAGES ==> c'(p).Erased?
    ensures Writing(c0, c', before, bad, lost, ptn, page, data, src) && Filling(c', bad + lost, page)
  {
    hide Progress, OnlyPartition, GivenUp, Ruined, SameBefore;
    InPartition(c, bad + lost, ptn, page, data, src);
    AlignedBlock(page);
    BlockTouched(c0, c, c', ptn, page);
    NotGivenUp(before, bad, lost, ptn, page);
    BeginBlock(c, c', bad + lost, ptn, page, data, src);
    StillRuined(c, c', before, bad, lost, ptn, page);
  }

  lemma WritingFills(c0: Content, c: Content, before: set<nat>, bad: set<nat>, lost: set<nat>,
                     ptn: Partition, page: nat, data: seq<Byte>, src: nat)
    requires Writing(c0, c, before, bad, lost, ptn, page, data, src)
    requires page % BLOCK_PAGES == 0 ==> Filling(c, bad + lost, page)
    ensures Filling(c, bad + lost, page) && c(page).Erased? && page / BLOCK_PAGES !in bad + lost
  {
    InBlock(c, bad + lost, ptn, page, data, src);
  }

  /** The page was written. */
  lemma WritingAdvances(c0: Content, c: Content, c': Content, before: set<nat>, bad: set<nat>, lost: set<nat>,
                        ptn: Partition, page: nat, data: seq<Byte>, src: nat, pageSize: nat)
    requires Writing(c0, c, before, bad, lost, ptn, page, data, src)
    requires Filling(c, bad + lost, page) && page < LastPage(ptn) && src + pageSize <= |data|
    requires c'(page) == Programmed(data[src..src + pageSize])
    requires forall p: nat :: p != page ==> c'(p) == c(p)
    ensures Writing(c0, c', before, bad, lost, ptn, page + 1, data, src + pageSize)
  {
    hide Progress, OnlyPartition, GivenUp, Filling, Ruined, SameBefore;
    InPartition(c, bad + lost, ptn, page, data, src);
    BlockTouched(c0, c, c', ptn, page);
    NextPage(c, c', bad + lost, ptn, page, data, src, pageSize);
    GivenUpLater(before, bad, lost, ptn, page, page + 1);
    StillRuined(c, c', before, bad, lost, ptn, page);
  }

  /** The page failed: the source goes back to what was at the start of the block. */
  lemma WritingRollsBack(c0: Content, c: Content, c': Content, before: set<nat>, bad: set<nat>, lost: set<nat>,
                         ptn: Partition, page: nat, data: seq<Byte>, src: nat, pageSize: nat)
    requires Writing(c0, c, before, bad, lost, ptn, page, data, src) && PageSized(c, pageSize)
    requires page < LastPage(ptn)
    requires forall p: nat :: p != page ==> c'(p) == c(p)
    ensures page % BLOCK_PAGES * pageSize <= src
    ensures Writing(c0, c', before, bad, lost, ptn, BlockStart(page), data, src - page % BLOCK_PAGES * pageSize)
    ensures BlockStart(page) % BLOCK_PAGES == 0 && BlockStart(page) <= page < BlockStart(page) + BLOCK_PAGES
  {
    hide Progress, OnlyPartition, GivenUp, Ruined, SameBefore;
    InPartition(c, bad + lost, ptn, page, data, src);
    BlockTouched(c0, c, c', ptn, page);
    FailedPage(c, c', bad + lost, ptn, page, data, src, pageSize);
    GivenUpBlock(before, bad, lost, ptn, page);
    StillRuined(c, c', before, bad, lost, ptn, page);
  }

  /** The image is complete and the rest of the partition swept. */
  lemma WritingEnds(c0: Content, c: Content, c': Content, before: set<nat>, bad: set<nat>, lost: set<nat>,
                    ptn: Partition, page: nat, data: seq<Byte>, pageSize: nat, failures: set<nat>) returns (n: nat)
    requires Writing(c0, c, before, bad, lost, ptn, page, data, |data|) && PageSized(c, pageSize) && pageSize > 0
    requires SameBefore(c, c', BlockStart(page + 63)) && OnlyPartition(c, c', ptn)
    requires forall p: nat :: BlockStart(page + 63) <= p < LastPage(ptn) ==>
               Swiped(c', bad, failures, p)
    ensures n * pageSize == |data| && Stored(c', bad + lost, ptn, data, n) && Swept(c', bad + lost, ptn, n, failures)
    ensures OnlyPartition(c0, c', ptn) && Ruined(c', lost)
    ensures |data| % pageSize == 0 && |data| <= |Usable(ptn, bad + lost)| * pageSize
    ensures lost == {} || (FirstPage(ptn) < page && (page - 1) / BLOCK_PAGES !in bad + lost) ==> Ahead(ptn, bad, lost, n)
  {
    hide Progress, OnlyPartition, GivenUp, Stored, Swept, Ruined, SameBefore, Ahead;
    BeforeRest(c, c', page);
    RuinedBefore(c, c', before, bad, lost, ptn, page);
    InPartition(c, bad + lost, ptn, page, data, |data|);
    n := Complete(c, c', bad + lost, ptn, page, data, pageSize);
    SweptOk(c, c', bad, lost, ptn, page, data, n, failures);
    OnlyPartitionTrans(c0, c, c', ptn);
    Fits(n, |Usable(ptn, bad + lost)|, |data|, pageSize);
    if lost == {} || (FirstPage(ptn) < page && (page - 1) / BLOCK_PAGES !in bad + lost) {
      AllAhead(before, bad, lost, ptn, page, n);
    }
  }

  lemma RuinedBefore(c: Content, c': Content, before: set<nat>, bad: set<nat>, lost: set<nat>, ptn: Partition, page: nat)
    requires Ruined(c, lost) && GivenUp(before, bad, lost, ptn, page) && SameBefore(c, c', page)
    ensures Ruined(c', lost)
  {
  }

  /** When the last thing to happen was that a page was written, every lost block lies ahead of it. */
  lemma AllAhead(before: set<nat>, bad: set<nat>, lost: set<nat>, ptn: Partition, page: nat, n: nat)
    requires GivenUp(before, bad, lost, ptn, page) && page <= LastPage(ptn)
    requires n == |Good(FirstPage(ptn), page, bad + lost)|
    requires lost == {} || (FirstPage(ptn) < page && (page - 1) / BLOCK_PAGES !in bad + lost)
    ensures Ahead(ptn, bad, lost, n)
  {
    if lost != {} {
      var skip := bad + lost;
      GoodSplit(FirstPage(ptn), page, LastPage(ptn), skip);
      assert Good(FirstPage(ptn), page, skip) == Good(FirstPage(ptn), page - 1, skip) + [page - 1];
      hide Good;
      assert Usable(ptn, skip)[n - 1] == page - 1;
      forall b | b in lost
        ensures ptn.start <= b && (b + 1) * BLOCK_PAGES <= page - 1
      {
        assert (b * BLOCK_PAGES + (BLOCK_PAGES - 1)) / BLOCK_PAGES == b;
      }
    }
  }

  /** Every page before the current one that is not skipped holds its part of the image. */
  lemma WrittenSoFar(c0: Content, c: Content, before: set<nat>, bad: set<nat>, lost: set<nat>,
                     ptn: Partition, page: nat, data: seq<Byte>, src: nat, pageSize: nat) returns (n: nat)
    requires Writing(c0, c, before, bad, lost, ptn, page, data, src) && PageSized(c, pageSize) && src <= |data|
    ensures n * pageSize == src && Stored(c, bad + lost, ptn, data[..n * pageSize], n)
    ensures |data| - src < pageSize ==> |data| < (n + 1) * pageSize
    ensures page == LastPage(ptn) ==> n == |Usable(ptn, bad + lost)|
  {
    hide OnlyPartition, GivenUp, Good, Bytes;
    var skip := bad + lost;
    GoodSplit(FirstPage(ptn), page, LastPage(ptn), skip);
    n := |Good(FirstPage(ptn), page, skip)|;
    BytesLength(c, Good(FirstPage(ptn), page, skip), pageSize);
    assert Usable(ptn, skip)[..n] == Good(FirstPage(ptn), page, skip);
    assert (n + 1) * pageSize == n * pageSize + pageSize;
  }

  /** A page failed in block b, which was then erased and marked, or not. */
  lemma BlameFailedPage(before: set<nat>, bad: set<nat>, bad': set<nat>, lost: set<nat>, lost': set<nat>,
                        l0: Log, l: Log, l1: Log, l2: Log, b: nat)
    requires Blamed(before, bad, lost, l0, l) && Extends(l, l1) && Extends(l1, l2)
    requires b in Since(l.write, l1.write) && bad' <= bad + {b}
    requires lost' - lost <= Since(l1.mark, l2.mark)
    ensures Blamed(before, bad', lost', l0, l2)
  {
    SinceMore(l.write, l1.write, l2.write);
    SinceMore(l.mark, l1.mark, l2.mark);
    hide Since, Blamed;
    BlameMore(before, bad, bad', lost, lost', l0, l, l2);
  }

  lemma BlamedLater(before: set<nat>, bad: set<nat>, lost: set<nat>, l0: Log, l: Log, l': Log)
    requires Blamed(before, bad, lost, l0, l) && Extends(l, l')
    ensures Blamed(before, bad, lost, l0, l') && Extends(l0, l)
  {
    hide Since;
    BlameMore(before, bad, bad, lost, lost, l0, l, l');
  }

  lemma SweptSince(c: Content, skip: set<nat>, ptn: Partition, n: nat, l0: Log, l: Log, l': Log)
    requires Swept(c, skip, ptn, n, Since(l.erase, l'.erase)) && l0.erase <= l.erase <= l'.erase
    ensures Swept(c, skip, ptn, n, Since(l0.erase, l'.erase))
  {
    SinceMore(l0.erase, l.erase, l'.erase);
    hide Since, Usable;
  }

  // ---------- progress of flash_read_ext ----------

  /** The pages flash_read_ext asks for, in unsigned 32-bit arithmetic. */
  function PageCount(bytes: nat, pageSize: nat): nat
    requires pageSize > 0
  {
    (bytes + pageSize - 1) % 0x1_0000_0000 / pageSize
  }

  /** That is enough for the bytes exactly when rounding up does not wrap; when it does, no page is asked for. */
  lemma PageCountExactly(bytes: nat, pageSize: nat)
    requires 0 < pageSize <= 0x1_0000_0000 && bytes < 0x1_0000_0000
    ensures bytes <= PageCount(bytes, pageSize) * pageSize <==> bytes + pageSize <= 0x1_0000_0000
    ensures bytes + pageSize > 0x1_0000_0000 ==> PageCount(bytes, pageSize) == 0
  {
    var x := bytes + pageSize - 1;
    if x < 0x1_0000_0000 {
      var q := x / pageSize;
      assert x == q * pageSize + x % pageSize;
      assert x % 0x1_0000_0000 == x;
    } else {
      assert x % 0x1_0000_0000 == x - 0x1_0000_0000;
      DivSmall(x - 0x1_0000_0000, pageSize);
    }
  }

  lemma DivSmall(x: nat, m: nat)
    requires x < m
    ensures x / m == 0
  {
  }

  /** The search for the starting block has passed |startBlock - start| blocks, all but `left` of
      the k / 64 usable ones it must pass among them. */
  ghost predicate Searching(bad: set<nat>, ptn: Partition, k: nat, page: nat, startBlock: nat, left: nat) {
    && left <= k / BLOCK_PAGES && ptn.start <= startBlock
    && |Good(FirstPage(ptn), startBlock * BLOCK_PAGES, bad)| == BLOCK_PAGES * (k / BLOCK_PAGES - left)
    && page == startBlock * BLOCK_PAGES + left * BLOCK_PAGES + k % BLOCK_PAGES
    && (k < BLOCK_PAGES ==> startBlock == ptn.start)
    && (left == 0 && k >= BLOCK_PAGES ==> ptn.start < startBlock && startBlock - 1 !in bad)
  }

  lemma StartSearch(bad: set<nat>, ptn: Partition, k: nat)
    ensures Searching(bad, ptn, k, FirstPage(ptn) + k, ptn.start, k / BLOCK_PAGES)
  {
  }

  lemma SearchStep(bad: set<nat>, ptn: Partition, k: nat, page: nat, startBlock: nat, left: nat)
    requires Searching(bad, ptn, k, page, startBlock, left) && left > 0
    ensures startBlock in bad ==> Searching(bad, ptn, k, page + BLOCK_PAGES, startBlock + 1, left)
    ensures startBlock !in bad ==> Searching(bad, ptn, k, page, startBlock + 1, left - 1)
  {
    GoodSplit(FirstPage(ptn), startBlock * BLOCK_PAGES, startBlock * BLOCK_PAGES + BLOCK_PAGES, bad);
    GoodInBlock(startBlock, BLOCK_PAGES, bad);
    hide Good;
  }

  /** The logical page that the next read delivers. */
  ghost function Logical(bad: set<nat>, ptn: Partition, page: nat): nat {
    |Good(FirstPage(ptn), BlockStart(page), bad)| + page % BLOCK_PAGES
  }

  /** The readable ones among the usable pages from logical page k on and before `page`. */
  ghost function Part(bad: set<nat>, ptn: Partition, k: nat, page: nat, failed: set<nat>): seq<nat> {
    var v := Good(FirstPage(ptn), page, bad);
    if k <= |v| then Readable(v[k..], failed) else []
  }

  ghost predicate Reading(bad: set<nat>, ptn: Partition, k: nat, page: nat, d: seq<nat>, failed: set<nat>) {
    && FirstPage(ptn) <= page && k <= Logical(bad, ptn, page)
    && d == Part(bad, ptn, k, page, failed)
    && (forall p :: p in failed ==> p < page)
    && (Logical(bad, ptn, page) == k
        || (page <= LastPage(ptn) && (page % BLOCK_PAGES == 0 || page / BLOCK_PAGES !in bad)))
  }

  /** At the start page nothing has been delivered, and the start page lies in the partition
      exactly when enough usable blocks come before its last block. */
  lemma StartReading(bad: set<nat>, ptn: Partition, k: nat, page: nat, startBlock: nat)
    requires Searching(bad, ptn, k, page, startBlock, 0) && startBlock <= ptn.start + ptn.length
    ensures Reading(bad, ptn, k, page, [], {})
    ensures page < LastPage(ptn) <==> CanRead(bad, ptn, k, 0, {})
  {
    hide Readable;
    var lo, start := FirstPage(ptn), startBlock * BLOCK_PAGES;
    assert BlockStart(page) == start && page % BLOCK_PAGES == k % BLOCK_PAGES;
    GoodSplit(lo, start, page, bad);
    GoodCount(start, page, bad);
    var v := Good(lo, page, bad);
    if |v| == k {
      assert v[k..] == [];
      NothingReadable({});
    }
    StartInside(bad, ptn, k, page, startBlock);
  }

  lemma NothingReadable(failed: set<nat>)
    ensures Readable([], failed) == []
  {
  }

  lemma StartInside(bad: set<nat>, ptn: Partition, k: nat, page: nat, startBlock: nat)
    requires Searching(bad, ptn, k, page, startBlock, 0) && startBlock <= ptn.start + ptn.length
    ensures page < LastPage(ptn) <==> CanRead(bad, ptn, k, 0, {})
  {
    hide Good, Readable;
    var lo, start := FirstPage(ptn), startBlock * BLOCK_PAGES;
    if startBlock < ptn.start + ptn.length {
      GoodSplit(lo, start, LastPage(ptn) - BLOCK_PAGES, bad);
    } else if ptn.length > 0 && k >= BLOCK_PAGES {
      GoodSplit(lo, start - BLOCK_PAGES, start, bad);
      GoodInBlock(startBlock - 1, BLOCK_PAGES, bad);
    }
  }

  /** The search ran off the partition: it has too few usable blocks. */
  lemma SearchFailed(bad: set<nat>, ptn: Partition, k: nat, page: nat, startBlock: nat, left: nat, n: nat)
    requires Searching(bad, ptn, k, page, startBlock, left) && left > 0 && startBlock == ptn.start + ptn.length
    ensures !CanRead(bad, ptn, k, n, {})
  {
    hide Good, Readable;
    if ptn.length > 0 {
      GoodSplit(FirstPage(ptn), LastPage(ptn) - BLOCK_PAGES, LastPage(ptn), bad);
    }
  }

  /** A bad block: same offset in the next block. */
  lemma ReadBadBlock(bad: set<nat>, ptn: Partition, k: nat, page: nat, d: seq<nat>, failed: set<nat>)
    requires Reading(bad, ptn, k, page, d, failed) && page / BLOCK_PAGES in bad && page < LastPage(ptn)
    ensures Reading(bad, ptn, k, page + BLOCK_PAGES, d, failed)
  {
    hide Good, Readable;
    var lo, start, next := FirstPage(ptn), BlockStart(page), BlockStart(page) + BLOCK_PAGES;
    AlignedBlock(page);
    BlockStartsInside(ptn, page);
    assert BlockStart(page + BLOCK_PAGES) == next;
    GoodInBlock(page / BLOCK_PAGES, BLOCK_PAGES, bad);
    GoodInBlock(page / BLOCK_PAGES, page % BLOCK_PAGES, bad);
    GoodSplit(lo, start, next, bad);
    GoodSplit(lo, start, page, bad);
    GoodSplit(lo, next, page + BLOCK_PAGES, bad);
    GoodCount(next, page + BLOCK_PAGES, bad);
    assert Good(lo, page, bad) == Good(lo, start, bad);
    var v, v' := Good(lo, page, bad), Good(lo, page + BLOCK_PAGES, bad);
    if page % BLOCK_PAGES == 0 {
      assert Good(next, next, bad) == [] by { EmptyRange(next, bad); }
      assert v' == v;
    } else {
      assert |v| < k && |v'| <= k;
      if |v'| == k {
        assert v'[k..] == [];
        NothingReadable(failed);
      }
    }
  }

  lemma EmptyRange(lo: nat, skip: set<nat>)
    ensures Good(lo, lo, skip) == []
  {
  }

  /** A page was read, or failed to read. */
  lemma ReadNextPage(bad: set<nat>, ptn: Partition, k: nat, page: nat, d: seq<nat>, failed: set<nat>)
    requires Reading(bad, ptn, k, page, d, failed) && page / BLOCK_PAGES !in bad && page < LastPage(ptn)
    ensures Reading(bad, ptn, k, page + 1, d + [page], failed)
    ensures Reading(bad, ptn, k, page + 1, d, failed + {page})
  {
    hide Good, Readable, Logical;
    LogicalGood(bad, ptn, page);
    LogicalNext(bad, ptn, page);
    var v := Good(FirstPage(ptn), page, bad);
    assert (v + [page])[k..] == v[k..] + [page];
    GoodBounds(FirstPage(ptn), page, bad);
    OneMoreReadable(v[k..], page, failed);
  }

  lemma LogicalGood(bad: set<nat>, ptn: Partition, page: nat)
    requires FirstPage(ptn) <= page && page / BLOCK_PAGES !in bad
    ensures |Good(FirstPage(ptn), page, bad)| == Logical(bad, ptn, page)
    ensures Good(FirstPage(ptn), page + 1, bad) == Good(FirstPage(ptn), page, bad) + [page]
  {
    AlignedBlock(page);
    BlockStartsInside(ptn, page);
    GoodInBlock(page / BLOCK_PAGES, page % BLOCK_PAGES, bad);
    GoodSplit(FirstPage(ptn), BlockStart(page), page, bad);
  }

  lemma OneMoreReadable(a: seq<nat>, page: nat, failed: set<nat>)
    requires page !in a && page !in failed
    ensures Readable(a + [page], failed) == Readable(a, failed) + [page]
    ensures Readable(a + [page], failed + {page}) == Readable(a, failed)
  {
    assert (a + [page])[..|a|] == a;
    ReadableSame(a, failed, failed + {page});
  }

  lemma LogicalNext(bad: set<nat>, ptn: Partition, page: nat)
    requires FirstPage(ptn) <= page && page / BLOCK_PAGES !in bad
    ensures Logical(bad, ptn, page + 1) == Logical(bad, ptn, page) + 1
    ensures (page + 1) % BLOCK_PAGES == 0 || (page + 1) / BLOCK_PAGES == page / BLOCK_PAGES
  {
    hide Good;
    var lo, start := FirstPage(ptn), BlockStart(page);
    AlignedBlock(page);
    BlockStartsInside(ptn, page);
    if (page + 1) % BLOCK_PAGES == 0 {
      assert BlockStart(page + 1) == start + BLOCK_PAGES;
      GoodSplit(lo, start, start + BLOCK_PAGES, bad);
      GoodInBlock(page / BLOCK_PAGES, BLOCK_PAGES, bad);
    } else {
      assert BlockStart(page + 1) == start;
    }
  }

  /** While inside the partition, what was delivered is the beginning of what can be delivered. */
  lemma DeliveredPrefix(bad: set<nat>, ptn: Partition, k: nat, page: nat, d: seq<nat>, failed: set<nat>)
    requires Reading(bad, ptn, k, page, d, failed) && page < LastPage(ptn)
    ensures |d| <= |Deliverable(bad, ptn, k, failed)| && Deliverable(bad, ptn, k, failed)[..|d|] == d
    ensures forall p :: p in d ==> p < page
  {
    hide Good, Readable;
    var lo := FirstPage(ptn);
    GoodSplit(lo, page, LastPage(ptn), bad);
    GoodBounds(lo, page, bad);
    var v, w := Good(lo, page, bad), Good(page, LastPage(ptn), bad);
    if k <= |v| {
      assert (v + w)[k..] == v[k..] + w;
      ReadableConcat(v[k..], w, failed);
      ReadableSubset(v[k..], failed);
      assert forall p :: p in v[k..] ==> p in v;
    }
  }

  lemma {:induction false} ReadableSubset(a: seq<nat>, failed: set<nat>)
    ensures forall p :: p in Readable(a, failed) ==> p in a && p !in failed
  {
    if a != [] {
      ReadableSubset(a[..|a| - 1], failed);
    }
  }

  lemma MatchesOneMore(c: Content, d: seq<nat>, page: nat, image: seq<Byte>, data: seq<Byte>, pageSize: nat)
    requires Matches(c, d, image, pageSize) && |data| == pageSize && Holds(c(page), data)
    ensures Matches(c, d + [page], image + data, pageSize)
  {
    var all := image + data;
    assert (d + [page])[..|d|] == d && all[..|all| - pageSize] == image && all[|all| - pageSize..] == data;
  }

  /** At the end of the partition everything that can be delivered has been. */
  lemma DeliveredAll(bad: set<nat>, ptn: Partition, k: nat, page: nat, d: seq<nat>, failed: set<nat>)
    requires Reading(bad, ptn, k, page, d, failed) && LastPage(ptn) <= page
    ensures d == Deliverable(bad, ptn, k, failed)
  {
    hide Good, Readable;
    if page > LastPage(ptn) {
      var lo, start := FirstPage(ptn), BlockStart(page);
      AlignedBlock(page);
      assert LastPage(ptn) <= start;
      GoodSplit(lo, LastPage(ptn), start, bad);
      GoodSplit(lo, start, page, bad);
      GoodCount(start, page, bad);
      NothingReadable(failed);
      assert |Usable(ptn, bad)| <= k;
      if |Usable(ptn, bad)| == k {
        assert Usable(ptn, bad)[k..] == [];
      }
      if |Good(lo, page, bad)| == k {
        assert Good(lo, page, bad)[k..] == [];
      }
    }
  }

  lemma EmptyMatches(c: Content, pageSize: nat)
    ensures Matches(c, [], [], pageSize)
  {
  }

  /** All n pages are in, before the end of the partition. */
  lemma ReadDone(bad: set<nat>, ptn: Partition, k: nat, page: nat, d: seq<nat>, failed: set<nat>, n: nat, startPage: nat)
    requires Reading(bad, ptn, k, page, d, failed) && page < LastPage(ptn) && |d| == n
    requires if n == 0 then page == startPage else d[n - 1] + 1 == page
    requires startPage < LastPage(ptn) <==> CanRead(bad, ptn, k, 0, {})
    ensures CanRead(bad, ptn, k, n, failed)
    ensures n <= |Deliverable(bad, ptn, k, failed)| && Deliverable(bad, ptn, k, failed)[..n] == d
  {
    hide Good, Readable, Reading;
    DeliveredPrefix(bad, ptn, k, page, d, failed);
  }

  /** The end of the partition came first, or together with the last page. */
  lemma ReadFell(bad: set<nat>, ptn: Partition, k: nat, page: nat, d: seq<nat>, failed: set<nat>, n: nat, startPage: nat)
    requires Reading(bad, ptn, k, page, d, failed) && LastPage(ptn) <= page && |d| <= n
    requires n == 0 ==> page == startPage
    requires |d| == n > 0 ==> d[n - 1] + 1 == page <= LastPage(ptn)
    requires startPage < LastPage(ptn) <==> CanRead(bad, ptn, k, 0, {})
    ensures !CanRead(bad, ptn, k, n, failed)
  {
    hide Good, Readable, Reading;
    DeliveredAll(bad, ptn, k, page, d, failed);
  }

  lemma LostForAReason(before: set<nat>, bad: set<nat>, lost: set<nat>, ptn: Partition, l0: Log, l: Log)
    requires GivenUp(before, bad, lost, ptn, LastPage(ptn)) && Blamed(before, bad, lost, l0, l)
    ensures lost !! bad && lost <= Since(l0.erase, l.erase) + Since(l0.mark, l.mark) && Extends(l0, l)
  {
    hide Since;
  }

  /** From offset 0, and with no read error, the usable pages are delivered. */
  lemma ReadsUsable(bad: set<nat>, ptn: Partition, n: nat)
    requires 0 < n <= |Usable(ptn, bad)|
    ensures Deliverable(bad, ptn, 0, {}) == Usable(ptn, bad)
    ensures CanRead(bad, ptn, 0, n, {}) <==> Usable(ptn, bad)[n - 1] + 1 != LastPage(ptn)
  {
    hide Good, Readable;
    assert Usable(ptn, bad)[0..] == Usable(ptn, bad);
    ReadableAll(Usable(ptn, bad));
  }

  /** A whole number of pages: its page count does not wrap, since the page size divides 2^32. */
  lemma WholePages(n: nat, len: nat, pageSize: nat)
    requires pageSize > 0 && n * pageSize == len && 0 < len < 0x1_0000_0000
    requires exists j: nat :: pageSize == Pow2(j)
    ensures n > 0 && PageCount(len, pageSize) == n && 0 / pageSize == 0 && 0 % pageSize == 0
  {
    hide Pow2;
    var j :| pageSize == Pow2(j);
    var m := FitsWord(j, n, len);
    MulLess(n, m, pageSize);
    assert (n + 1) * pageSize == len + pageSize;
    MulOrder(n + 1, m, pageSize);
    assert (len + pageSize - 1) % 0x1_0000_0000 == len + pageSize - 1;
    ModUnique(len + pageSize - 1, pageSize, n, pageSize - 1);
  }

  /** A power of two that fits a word divides 2^32. */
  lemma FitsWord(j: nat, n: nat, len: nat) returns (m: nat)
    requires n * Pow2(j) == len && 0 < len < 0x1_0000_0000
    ensures m * Pow2(j) == 0x1_0000_0000
  {
    hide Pow2;
    WordPower();
    BelowWord(j, n, len);
    m := Pow2(32 - j);
    PowAdd(32 - j, j);
  }

  lemma BelowWord(j: nat, n: nat, len: nat)
    requires n * Pow2(j) == len && 0 < len < 0x1_0000_0000
    ensures j < 32
  {
    hide Pow2;
    WordPower();
    if j >= 32 {
      Pow2Monotone(32, j);
      MulAtLeast(n, Pow2(j));
    }
  }

  lemma WordPower()
    ensures Pow2(32) == 0x1_0000_0000
  {
    assert Pow2(8) == 0x100;
    assert Pow2(16) == 0x100 * Pow2(8);
    assert Pow2(24) == 0x100 * Pow2(16);
    assert Pow2(32) == 0x100 * Pow2(24);
  }

  lemma MulLess(a: nat, b: nat, m: nat)
    requires a * m < b * m
    ensures a < b
  {
    if a >= b {
      MulOrder(b, a, m);
    }
  }

  lemma MulOrder(a: nat, b: nat, m: nat)
    requires a <= b
    ensures a * m <= b * m
  {
  }

  lemma LastPageTest(bad: set<nat>, ptn: Partition, data: seq<Byte>, n: nat, pageSize: nat)
    requires 0 < n <= |Usable(ptn, bad)| && pageSize > 0 && n * pageSize == |data|
    ensures Usable(ptn, bad)[n - 1] + 1 != LastPage(ptn) <==>
            |data| < |Usable(ptn, bad)| * pageSize || ptn.start + ptn.length - 1 in bad
  {
    hide Good;
    EndsOnLastPage(ptn, bad, n);
    var u := |Usable(ptn, bad)|;
    assert u * pageSize == n * pageSize + (u - n) * pageSize;
    if n < u {
      MulAtLeast(u - n, pageSize);
    }
  }

  class Flash {
    const pageSize: nat
    /** Blocks the device reports bad. */
    var bad: set<nat>
    var content: Content
    ghost var log: Log

    ghost predicate Valid()
      reads this
    {
      && pageSize > 0
      && PageSized(content, pageSize)
    }

    // ---------- the device ----------

    method BlockIsBad(page: nat) returns (isBad: bool)
      ensures isBad <==> page / BLOCK_PAGES in bad
    {
      isBad := page / BLOCK_PAGES in bad;
    }

    /** 0, or -1 for a page that cannot be read, or -2 for a bad block. */
    method ReadPage(page: nat) returns (result: int, data: seq<Byte>)
      requires Valid()
      modifies this`log
      ensures result == -2 <==> page / BLOCK_PAGES in bad
      ensures result == 0 || result == -1 || result == -2
      ensures result == 0 ==> |data| == pageSize && Holds(content(page), data)
      ensures log == if result == -1 then old(log).(read := old(log).read + [page]) else old(log)
    {
      result, data := 0, [];
      if page / BLOCK_PAGES in bad {
        result := -2;
      } else if * {
        result := -1;
        log := log.(read := log.read + [page]);
      } else {
        match content(page)
        case Programmed(d) => data := d;
        case Erased => data := seq(pageSize, _ => 0xff);
        case Garbage =>
          var byte: Byte := *;
          data := seq<Byte>(pageSize, _ => byte);
      }
    }

    method EraseBlock(page: nat) returns (failed: bool)
      requires Valid()
      modifies this`content, this`log
      ensures Valid()
      ensures forall p: nat :: p / BLOCK_PAGES != page / BLOCK_PAGES ==> content(p) == old(content)(p)
      ensures page / BLOCK_PAGES in bad ==> failed
      ensures !failed ==> forall p: nat :: p / BLOCK_PAGES == page / BLOCK_PAGES ==> content(p).Erased?
      ensures failed && page / BLOCK_PAGES !in bad ==>
                forall p: nat :: p / BLOCK_PAGES == page / BLOCK_PAGES ==> content(p).Garbage?
      ensures log == if failed && page / BLOCK_PAGES !in bad
                     then old(log).(erase := old(log).erase + [page / BLOCK_PAGES]) else old(log)
    {
      var c, b := content, page / BLOCK_PAGES;
      if b in bad {
        failed := true;
      } else if * {
        failed := true;
        content := (p: nat) => if p / BLOCK_PAGES == b then Garbage else c(p);
        log := log.(erase := log.erase + [b]);
      } else {
        failed := false;
        content := (p: nat) => if p / BLOCK_PAGES == b then Erased else c(p);
      }
    }

    /** Only an erased page may be programmed. */
    method WritePage(page: nat, data: seq<Byte>) returns (failed: bool)
      requires Valid() && |data| == pageSize && content(page).Erased?
      modifies this`content, this`log
      ensures Valid()
      ensures forall p: nat :: p != page ==> content(p) == old(content)(p)
      ensures !failed ==> content(page) == Programmed(data)
      ensures log == if failed then old(log).(write := old(log).write + [page / BLOCK_PAGES]) else old(log)
    {
      var c := content;
      if * {
        failed := true;
        content := (p: nat) => if p == page then Garbage else c(p);
        log := log.(write := log.write + [page / BLOCK_PAGES]);
      } else {
        failed := false;
        content := (p: nat) => if p == page then Programmed(data) else c(p);
      }
    }

    method MarkBadBlock(page: nat)
      requires Valid()
      modifies this`content, this`bad, this`log
      ensures Valid()
      ensures forall p: nat :: p / BLOCK_PAGES != page / BLOCK_PAGES ==> content(p) == old(content)(p)
      ensures forall p: nat :: p / BLOCK_PAGES == page / BLOCK_PAGES ==> content(p).Garbage?
      ensures bad == old(bad) + {page / BLOCK_PAGES} || bad == old(bad)
      ensures log == if page / BLOCK_PAGES in bad then old(log)
                     else old(log).(mark := old(log).mark + [page / BLOCK_PAGES])
    {
      var c, b := content, page / BLOCK_PAGES;
      content := (p: nat) => if p / BLOCK_PAGES == b then Garbage else c(p);
      var marked: bool := *;
      if marked || b in bad {
        bad := bad + {b};
      } else {
        log := log.(mark := log.mark + [b]);
      }
    }

    // ---------- flash_erase ----------

    /** Every block of the partition is erased, bad or has failed now; nothing else changes. */
    method FlashErase(ptn: Partition) returns (r: int)
      requires Valid() && LastPage(ptn) <= Pow2(32)
      modifies this`content, this`log
      ensures Valid() && r == 0 && OnlyPartition(old(content), content, ptn) && Extends(old(log), log)
      ensures forall p: nat :: FirstPage(ptn) <= p < LastPage(ptn) ==>
                Swiped(content, bad, Since(old(log).erase, log.erase), p)
    {
      hide Since;
      var block, count := ptn.start, ptn.length;
      while count > 0
        invariant Valid() && block + count == ptn.start + ptn.length && block >= ptn.start
        invariant OnlyPartition(old(content), content, ptn) && Extends(old(log), log)
        invariant forall p: nat :: FirstPage(ptn) <= p < block * BLOCK_PAGES ==>
                    Swiped(content, bad, Since(old(log).erase, log.erase), p)
      {
        count := count - 1;
        ghost var c := content;
        ghost var f := Since(old(log).erase, log.erase);
        SinceOne(old(log).erase, log.erase, block);
        var _ := EraseBlock(block * BLOCK_PAGES);
        SwipedMore(c, content, bad, f, Since(old(log).erase, log.erase), FirstPage(ptn), block * BLOCK_PAGES);
        BlockOfPage(c, content, ptn, block * BLOCK_PAGES);
        OnlyPartitionTrans(old(content), c, content, ptn);
        block := block + 1;
      }
      r := 0;
    }

    // ---------- flash_write ----------

    /** A page failed: erase its block and mark it bad. */
    method AbandonBlock(page: nat, ghost lost: set<nat>) returns (ghost lost': set<nat>)
      requires Valid() && page % BLOCK_PAGES == 0
      modifies this`content, this`bad, this`log
      ensures Valid() && Extends(old(log), log)
      ensures forall p: nat :: p / BLOCK_PAGES != page / BLOCK_PAGES ==> content(p) == old(content)(p)
      ensures forall p: nat :: p / BLOCK_PAGES == page / BLOCK_PAGES ==> content(p).Garbage?
      ensures old(bad) <= bad <= old(bad) + {page / BLOCK_PAGES}
      ensures lost' == if page / BLOCK_PAGES in bad then lost else lost + {page / BLOCK_PAGES}
      ensures lost' - lost <= Since(old(log).mark, log.mark)
    {
      hide Since;
      SinceNone(log.mark);
      SinceOne(log.mark, log.mark, page / BLOCK_PAGES);
      var _ := EraseBlock(page);
      MarkBadBlock(page);
      lost' := if page / BLOCK_PAGES in bad then lost else lost + {page / BLOCK_PAGES};
    }

    /** Erase the blocks of the partition behind the page. */
    method EraseRest(ptn: Partition, from: nat)
      requires Valid() && FirstPage(ptn) <= from <= LastPage(ptn) && LastPage(ptn) + 63 < Pow2(32)
      modifies this`content, this`log
      ensures Valid() && OnlyPartition(old(content), content, ptn)
      ensures Extends(old(log), log) && log.write == old(log).write && log.mark == old(log).mark
      ensures SameBefore(old(content), content, BlockStart(from + 63))
      ensures forall p: nat :: BlockStart(from + 63) <= p < LastPage(ptn) ==>
                Swiped(content, bad, Since(old(log).erase, log.erase), p)
    {
      hide Pow2, And, PageSized, Since;
      Masks(from + 63);
      Partial(from);
      var page, lastpage := And(from + 63, Not(63, 32)), LastPage(ptn);
      while page < lastpage
        invariant Valid() && BlockStart(from + 63) <= page && page % BLOCK_PAGES == 0
        invariant OnlyPartition(old(content), content, ptn)
        invariant Extends(old(log), log) && log.write == old(log).write && log.mark == old(log).mark
        invariant SameBefore(old(content), content, BlockStart(from + 63))
        invariant forall p: nat :: BlockStart(from + 63) <= p < page ==>
                    Swiped(content, bad, Since(old(log).erase, log.erase), p)
      {
        ghost var c := content;
        ghost var f := Since(old(log).erase, log.erase);
        SinceOne(old(log).erase, log.erase, page / BLOCK_PAGES);
        var _ := EraseBlock(page);
        SwipedMore(c, content, bad, f, Since(old(log).erase, log.erase), BlockStart(from + 63), page);
        BlockTouched(old(content), c, content, ptn, page);
        AlignedBlock(page);
        page := page + 64;
      }
    }

    /** Write the image into the partition, block by block. lost are the blocks it gave up that the
        device does not report bad: an erase failed on them, or marking them did. n is the number of
        pages written. */
    method FlashWrite(ptn: Partition, data: seq<Byte>) returns (r: int, ghost lost: set<nat>, ghost n: nat)
      requires Valid() && LastPage(ptn) + 63 < Pow2(32)
      modifies this`content, this`bad, this`log
      ensures Valid() && OnlyPartition(old(content), content, ptn)
      ensures GivenUp(old(bad), bad, lost, ptn, LastPage(ptn)) && Blamed(old(bad), bad, lost, old(log), log)
      ensures r == 0 || r == -1
      ensures r == 0 <==>
              ptn.kind != Modem && |data| % pageSize == 0 && |data| <= |Usable(ptn, bad + lost)| * pageSize
      ensures r == 0 ==> n * pageSize == |data|
      ensures r == -1 && ptn.kind != Modem ==> n * pageSize <= |data|
      ensures r == -1 && ptn.kind != Modem ==> |data| < (n + 1) * pageSize || n == |Usable(ptn, bad + lost)|
      ensures ptn.kind != Modem ==> Stored(content, bad + lost, ptn, FirstPages(data, n, pageSize), n)
      ensures r == 0 ==> Swept(content, bad + lost, ptn, n, Since(old(log).erase, log.erase))
      ensures r == 0 ==> Ahead(ptn, bad, lost, n) && Ruined(content, lost)
      ensures ptn.kind == Modem ==> unchanged(this)
    {
      hide Writing, OnlyPartition, GivenUp, Blamed, Pow2, PageSized, Usable, Stored, Swept, Since, Ahead, Ruined;
      n := 0;
      StartWriting(content, bad, ptn, data);
      StartBlamed(bad, log);
      WritingMeans(content, content, bad, bad, {}, ptn, FirstPage(ptn), data, 0, pageSize);
      if ptn.kind == Modem {
        return -1, {}, n;
      }
      var page;
      r, page, lost, n := WriteImage(ptn, data);
      if r == 0 {
        ghost var c, l := content, log;
        EraseRest(ptn, page);
        BlamedLater(old(bad), bad, lost, old(log), l, log);
        n := WritingEnds(old(content), c, content, old(bad), bad, lost, ptn, page, data, pageSize, Since(l.erase, log.erase));
        SweptSince(content, bad + lost, ptn, n, old(log), l, log);
      }
    }

    /** One turn of the writing loop: a page written, or a block given up and the source rolled
        back to what it was at the start of that block. */
    method WriteNext(ptn: Partition, data: seq<Byte>, page0: nat, src0: nat, ghost lost0: set<nat>,
                     ghost c0: Content, ghost bad0: set<nat>, ghost l0: Log)
      returns (page: nat, src: nat, ghost lost: set<nat>)
      requires Valid() && page0 < LastPage(ptn) < Pow2(32) && src0 + pageSize <= |data|
      requires Writing(c0, content, bad0, bad, lost0, ptn, page0, data, src0)
      requires Blamed(bad0, bad, lost0, l0, log)
      modifies this`content, this`bad, this`log
      ensures Valid() && page0 < page && src <= |data|
      ensures src == |data| ==> page == page0 + 1 && page0 / BLOCK_PAGES !in bad + lost
      ensures Writing(c0, content, bad0, bad, lost, ptn, page, data, src)
      ensures Blamed(bad0, bad, lost, l0, log)
    {
      hide Writing, Filling, Pow2, And, PageSized, BlockStart, Blamed, Since;
      page, src, lost := page0, src0, lost0;
      ghost var b, l := page / BLOCK_PAGES, log;
      SinceOne(l.erase, l.erase, b);
      SinceOne(l.write, l.write, b);
      Masks(page);
      ghost var c := content;
      if And(page, 63) == 0 {
        var failed := EraseBlock(page);
        if failed {
          lost := if b in bad then lost else lost + {b};
          BlameMore(bad0, bad, bad, lost0, lost, l0, l, log);
          WritingSkips(c0, c, content, bad0, bad, bad, lost0, lost, ptn, page, data, src);
          page := page + 64;
          return;
        }
        WritingBegins(c0, c, content, bad0, bad, lost, ptn, page, data, src);
      }
      WritingFills(c0, content, bad0, bad, lost, ptn, page, data, src);
      c := content;
      var failed := WritePage(page, data[src..src + pageSize]);
      if failed {
        WritingRollsBack(c0, c, content, bad0, bad, lost, ptn, page, data, src, pageSize);
        src := src - And(page, 63) * pageSize;
        page := And(page, Not(63, 32));
        ghost var c1, bad1, l1 := content, bad, log;
        lost := AbandonBlock(page, lost);
        BlameFailedPage(bad0, bad1, bad, lost0, lost, l0, l, l1, log, b);
        WritingSkips(c0, c1, content, bad0, bad1, bad, lost0, lost, ptn, page, data, src);
        page := page + 64;
        return;
      }
      WritingAdvances(c0, c, content, bad0, bad, lost, ptn, page, data, src, pageSize);
      page := page + 1;
      src := src + pageSize;
    }

    /** The writing loop: source offset and remaining bytes always add up to the image. */
    method WriteImage(ptn: Partition, data: seq<Byte>) returns (r: int, page: nat, ghost lost: set<nat>, ghost n: nat)
      requires Valid() && LastPage(ptn) + 63 < Pow2(32)
      modifies this`content, this`bad, this`log
      ensures Valid() && (r == 0 || r == -1) && FirstPage(ptn) <= page <= LastPage(ptn)
      ensures OnlyPartition(old(content), content, ptn)
      ensures GivenUp(old(bad), bad, lost, ptn, LastPage(ptn)) && Blamed(old(bad), bad, lost, old(log), log)
      ensures r == 0 ==> Writing(old(content), content, old(bad), bad, lost, ptn, page, data, |data|)
      ensures r == 0 ==> lost == {} || (FirstPage(ptn) < page && (page - 1) / BLOCK_PAGES !in bad + lost)
      ensures r == -1 ==> |data| % pageSize != 0 || |Usable(ptn, bad + lost)| * pageSize < |data|
      ensures n * pageSize <= |data| && Stored(content, bad + lost, ptn, data[..n * pageSize], n)
      ensures |data| < (n + 1) * pageSize || n == |Usable(ptn, bad + lost)|
    {
      hide Writing, OnlyPartition, GivenUp, Blamed, Filling, Pow2, And, PageSized, Usable, BlockStart, Stored;
      lost, page := {}, FirstPage(ptn);
      var lastpage := LastPage(ptn);
      StartWriting(content, bad, ptn, data);
      StartBlamed(bad, log);
      var src: nat, bytes: nat := 0, |data|;
      while bytes > 0
        invariant Valid() && src + bytes == |data|
        invariant Writing(old(content), content, old(bad), bad, lost, ptn, page, data, src)
        invariant Blamed(old(bad), bad, lost, old(log), log)
        invariant bytes == 0 ==> lost == {} || (FirstPage(ptn) < page && (page - 1) / BLOCK_PAGES !in bad + lost)
        decreases lastpage - page
      {
        WritingMeans(old(content), content, old(bad), bad, lost, ptn, page, data, src, pageSize);
        n := WrittenSoFar(old(content), content, old(bad), bad, lost, ptn, page, data, src, pageSize);
        if bytes < pageSize {
          return -1, page, lost, n;
        }
        if page >= lastpage {
          return -1, page, lost, n;
        }
        page, src, lost := WriteNext(ptn, data, page, src, lost, old(content), old(bad), old(log));
        bytes := |data| - src;
      }
      WritingMeans(old(content), content, old(bad), bad, lost, ptn, page, data, src, pageSize);
      n := WrittenSoFar(old(content), content, old(bad), bad, lost, ptn, page, data, src, pageSize);
      r := 0;
    }

    // ---------- flash_read_ext ----------

    /** Pages k, k + 1, ... of the usable blocks, without those that fail to read; bytes is rounded
        up to whole pages. Success is reported exactly when CanRead says so. */
    method FlashReadExt(ptn: Partition, offset: nat, bytes: nat)
      returns (r: int, image: seq<Byte>, ghost failed: set<nat>)
      requires Valid() && ptn.kind == Apps
      requires exists j: nat :: pageSize == Pow2(j)
      requires LastPage(ptn) + offset / pageSize + BLOCK_PAGES <= Pow2(32)
      modifies this`log
      ensures r == 0 || r == -1
      ensures Extends(old(log), log) && log == old(log).(read := log.read) && failed == Since(old(log).read, log.read)
      ensures var k, n := offset / pageSize, PageCount(bytes, pageSize);
              && (r == 0 <==> offset % pageSize == 0 && CanRead(bad, ptn, k, n, failed))
              && (r == 0 ==> |Deliverable(bad, ptn, k, failed)| >= n
                             && Matches(content, Deliverable(bad, ptn, k, failed)[..n], image, pageSize))
    {
      hide Good, Readable, Pow2, And, PageSized, Searching, Reading, Matches, Deliverable, CanRead, Since;
      SinceNone(log.read);
      ghost var k := offset / pageSize;
      ghost var j :| pageSize == Pow2(j);
      AndLowMask(offset, j);
      var page: nat := ptn.start * 64 + offset / pageSize;
      var lastpage := LastPage(ptn);
      var n := PageCount(bytes, pageSize);
      image, failed := [], {};
      if And(offset, pageSize - 1) != 0 {
        return -1, image, failed;
      }
      Masks(page);
      var currentBlock := (page - And(page, 63)) / 64;
      var startBlock, left;
      page, startBlock, left := FindStart(ptn, k, page, currentBlock);
      if left > 0 {
        SearchFailed(bad, ptn, k, page, startBlock, left, n);
        return -1, image, failed;
      }
      StartReading(bad, ptn, k, page, startBlock);
      r, image, failed := ReadPages(ptn, k, page, n);
    }

    /** Turn the logical start page into a physical one: a bad block on the way costs a block. */
    method FindStart(ptn: Partition, ghost k: nat, page0: nat, currentBlock: nat)
      returns (page: nat, startBlock: nat, left: nat)
      requires page0 == FirstPage(ptn) + k && currentBlock == ptn.start + k / BLOCK_PAGES
      ensures Searching(bad, ptn, k, page, startBlock, left) && startBlock <= ptn.start + ptn.length
      ensures left > 0 ==> startBlock == ptn.start + ptn.length
    {
      hide Searching;
      page, startBlock, left := page0, ptn.start, 0;
      StartSearch(bad, ptn, k);
      if startBlock < currentBlock {
        left := currentBlock - startBlock;
        while left > 0 && startBlock < ptn.start + ptn.length
          invariant startBlock <= ptn.start + ptn.length && Searching(bad, ptn, k, page, startBlock, left)
          decreases ptn.start + ptn.length - startBlock
        {
          SearchStep(bad, ptn, k, page, startBlock, left);
          var isBad := BlockIsBad(startBlock * 64);
          if isBad {
            page := page + 64;
          } else {
            left := left - 1;
          }
          startBlock := startBlock + 1;
        }
      }
    }

    /** The reading loop, from the start page on. */
    method ReadPages(ptn: Partition, ghost k: nat, startPage: nat, n: nat)
      returns (r: int, image: seq<Byte>, ghost failed: set<nat>)
      requires Valid() && Reading(bad, ptn, k, startPage, [], {})
      requires startPage < LastPage(ptn) <==> CanRead(bad, ptn, k, 0, {})
      modifies this`log
      ensures r == 0 || r == -1
      ensures Extends(old(log), log) && log == old(log).(read := log.read) && failed == Since(old(log).read, log.read)
      ensures r == 0 <==> CanRead(bad, ptn, k, n, failed)
      ensures r == 0 ==> |Deliverable(bad, ptn, k, failed)| >= n
                         && Matches(content, Deliverable(bad, ptn, k, failed)[..n], image, pageSize)
    {
      hide PageSized, Reading, Deliverable, CanRead, Matches, Holds, Since;
      EmptyMatches(content, pageSize);
      SinceNone(log.read);
      var page: nat, lastpage: nat, count: nat := startPage, LastPage(ptn), n;
      image, failed := [], {};
      ghost var d: seq<nat> := [];
      while page < lastpage
        invariant Reading(bad, ptn, k, page, d, failed)
        invariant Extends(old(log), log) && log == old(log).(read := log.read) && failed == Since(old(log).read, log.read)
        invariant count + |d| == n && Matches(content, d, image, pageSize)
        invariant n == 0 ==> page == startPage
        invariant count == 0 && n > 0 ==> d[n - 1] + 1 == page <= lastpage
        decreases lastpage - page
      {
        if count == 0 {
          ReadDone(bad, ptn, k, page, d, failed, n, startPage);
          return 0, image, failed;
        }
        SinceOne(old(log).read, log.read, page);
        var result, data := ReadPage(page);
        if result == -1 {
          // an unreadable page is left out
          ReadNextPage(bad, ptn, k, page, d, failed);
          failed := failed + {page};
          page := page + 1;
          continue;
        } else if result == -2 {
          // the whole block is left out, the place within the block kept
          ReadBadBlock(bad, ptn, k, page, d, failed);
          page := page + 64;
          continue;
        }
        ReadNextPage(bad, ptn, k, page, d, failed);
        MatchesOneMore(content, d, page, image, data, pageSize);
        page := page + 1;
        image := image + data;
        d := d + [page - 1];
        count := count - 1;
      }
      ReadFell(bad, ptn, k, page, d, failed, n, startPage);
      r := -1;
    }

    /** Write an image and read it back. It is certain to come back exactly when the writer lost no
        block, that is, gave none up without the device reporting it bad. Then, if no page fails to
        read, the read reports success unless the image fills the usable pages and the last block is
        usable. */
    method WriteThenRead(ptn: Partition, data: seq<Byte>)
      returns (w: int, r: int, image: seq<Byte>, ghost lost: set<nat>, ghost n: nat)
      requires Valid() && ptn.kind == Apps && LastPage(ptn) + 63 < Pow2(32) && 0 < |data| < 0x1_0000_0000
      requires exists j: nat :: pageSize == Pow2(j)
      modifies this
      ensures lost !! bad && lost <= Since(old(log).erase, log.erase) + Since(old(log).mark, log.mark)
      ensures w == 0 ==> n * pageSize == |data| && n <= |Usable(ptn, bad)|
      ensures w == 0 ==>
                ((forall i :: Matches(content, Usable(ptn, bad)[..n], i, pageSize) ==> i == data) <==> lost == {})
      ensures w == 0 && r == 0 && Since(old(log).read, log.read) == {} ==>
                Matches(content, Usable(ptn, bad)[..n], image, pageSize)
      ensures w == 0 && r == 0 && Since(old(log).read, log.read) == {} && lost == {} ==> image == data
      ensures w == 0 && Since(old(log).read, log.read) == {} ==>
                (r == 0 <==> |data| < |Usable(ptn, bad)| * pageSize || ptn.start + ptn.length - 1 in bad)
    {
      hide Pow2, PageSized, Stored, Swept, GivenUp, OnlyPartition, CanRead, Matches, Deliverable, Usable, Since, Ahead, Ruined;
      ghost var failed;
      w, lost, n := FlashWrite(ptn, data);
      ghost var l := log;
      r, image, failed := FlashReadExt(ptn, 0, |data|);
      SinceMore(old(log).read, l.read, log.read);
      LostForAReason(old(bad), bad, lost, ptn, old(log), l);
      if w == 0 {
        WholePages(n, |data|, pageSize);
        CertainExactly(content, bad, lost, ptn, data, n, pageSize);
        LastPageTest(bad, ptn, data, n, pageSize);
        if Since(old(log).read, log.read) == {} {
          assert failed == {};
          ReadsUsable(bad, ptn, n);
        }
      }
    }
  }
}
