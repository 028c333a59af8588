/**
 What an image on the NAND flash is: the bytes of the pages of the usable blocks of a partition,
 in order. A block is 64 pages; flash_write skips blocks that fail, flash_read_ext skips the
 blocks the device reports bad.
 */
module NandModel {
  import opened Basics

  type Byte = b: int | 0 <= b < 256

  const BLOCK_PAGES: nat := 64

  /** What a page holds. Failed operations and unknown history leave garbage. */
  datatype Page = Erased | Programmed(data: seq<Byte>) | Garbage

  type Content = nat -> Page

  datatype Kind = Apps | Modem | Other

  /** struct ptentry: first block, number of blocks, type. */
  datatype Partition = Partition(start: nat, length: nat, kind: Kind)

  function FirstPage(ptn: Partition): nat {
    ptn.start * BLOCK_PAGES
  }

  function LastPage(ptn: Partition): nat {
    (ptn.start + ptn.length) * BLOCK_PAGES
  }

  function BlockStart(page: nat): nat {
    page - page % BLOCK_PAGES
  }

  /** The pages of [lo, hi) outside the blocks in skip, in order. */
  function Good(lo: nat, hi: nat, skip: set<nat>): seq<nat>
    decreases hi
  {
    if hi <= lo then []
    else Good(lo, hi - 1, skip) + if (hi - 1) / BLOCK_PAGES in skip then [] else [hi - 1]
  }

  /** The logical image space of a partition. */
  function Usable(ptn: Partition, skip: set<nat>): seq<nat> {
    Good(FirstPage(ptn), LastPage(ptn), skip)
  }

  ghost predicate AllProgrammed(content: Content, pages: seq<nat>) {
    forall p :: p in pages ==> content(p).Programmed?
  }

  /** The bytes on the given pages. */
  ghost function Bytes(content: Content, pages: seq<nat>): seq<Byte>
    requires AllProgrammed(content, pages)
  {
    if pages == [] then []
    else Bytes(content, pages[..|pages| - 1]) + content(pages[|pages| - 1]).data
  }

  /** The pages that did not fail to read. */
  function Readable(pages: seq<nat>, failed: set<nat>): seq<nat> {
    if pages == [] then []
    else Readable(pages[..|pages| - 1], failed) + if pages[|pages| - 1] in failed then [] else [pages[|pages| - 1]]
  }

  /** What reading a page without error may deliver. */
  ghost predicate Holds(page: Page, bytes: seq<Byte>) {
    match page
    case Programmed(data) => bytes == data
    case Erased => forall i :: 0 <= i < |bytes| ==> bytes[i] == 0xff
    case Garbage => true
  }

  /** The image is made of the given pages, pageSize bytes each. */
  ghost predicate Matches(content: Content, pages: seq<nat>, image: seq<Byte>, pageSize: nat) {
    if pages == [] then image == []
    else
      && pageSize <= |image|
      && Holds(content(pages[|pages| - 1]), image[|image| - pageSize..])
      && Matches(content, pages[..|pages| - 1], image[..|image| - pageSize], pageSize)
  }

  // ---------- outcomes ----------

  /** The image occupies the first n usable pages, page by page, without gap. */
  ghost predicate Stored(content: Content, skip: set<nat>, ptn: Partition, data: seq<Byte>, n: nat) {
    && n <= |Usable(ptn, skip)|
    && AllProgrammed(content, Usable(ptn, skip)[..n]) && Bytes(content, Usable(ptn, skip)[..n]) == data
  }

  /** The pages flash_read_ext can deliver from logical page k on. */
  ghost function Deliverable(bad: set<nat>, ptn: Partition, k: nat, failed: set<nat>): seq<nat> {
    if k <= |Usable(ptn, bad)| then Readable(Usable(ptn, bad)[k..], failed) else []
  }

  /** When flash_read_ext succeeds for n pages from logical page k: enough readable pages, and
      the last one delivered is not the last page of the partition. */
  ghost predicate CanRead(bad: set<nat>, ptn: Partition, k: nat, n: nat, failed: set<nat>) {
    var d := Deliverable(bad, ptn, k, failed);
    if n == 0 then
      ptn.length > 0 && k / BLOCK_PAGES * BLOCK_PAGES <= |Good(FirstPage(ptn), LastPage(ptn) - BLOCK_PAGES, bad)|
    else
      n <= |d| && d[n - 1] + 1 != LastPage(ptn)
  }

  // ---------- pages ----------

  lemma {:induction false} GoodBounds(lo: nat, hi: nat, skip: set<nat>)
    ensures forall p :: p in Good(lo, hi, skip) <==> lo <= p < hi && p / BLOCK_PAGES !in skip
    ensures forall i, j :: 0 <= i < j < |Good(lo, hi, skip)| ==> Good(lo, hi, skip)[i] < Good(lo, hi, skip)[j]
    decreases hi
  {
    if lo < hi {
      GoodBounds(lo, hi - 1, skip);
      var q := Good(lo, hi - 1, skip);
      assert forall i :: 0 <= i < |q| ==> q[i] in q;
    }
  }

  lemma {:induction false} GoodSplit(lo: nat, mid: nat, hi: nat, skip: set<nat>)
    requires lo <= mid <= hi
    ensures Good(lo, hi, skip) == Good(lo, mid, skip) + Good(mid, hi, skip)
    decreases hi
  {
    if mid < hi {
      GoodSplit(lo, mid, hi - 1, skip);
    }
  }

  /** Only the blocks that meet the range matter. */
  lemma {:induction false} GoodSame(lo: nat, hi: nat, s: set<nat>, s': set<nat>)
    requires forall b :: lo / BLOCK_PAGES <= b && b * BLOCK_PAGES < hi ==> (b in s <==> b in s')
    ensures Good(lo, hi, s) == Good(lo, hi, s')
    decreases hi
  {
    if lo < hi {
      GoodSame(lo, hi - 1, s, s');
      assert lo / BLOCK_PAGES <= (hi - 1) / BLOCK_PAGES;
    }
  }

  /** Inside one block all pages count, or none. */
  lemma {:induction false} GoodInBlock(b: nat, m: nat, skip: set<nat>)
    requires m <= BLOCK_PAGES
    ensures |Good(b * BLOCK_PAGES, b * BLOCK_PAGES + m, skip)| == if b in skip then 0 else m
    decreases m
  {
    if m > 0 {
      GoodInBlock(b, m - 1, skip);
      assert (b * BLOCK_PAGES + m - 1) / BLOCK_PAGES == b;
    }
  }

  lemma {:induction false} GoodCount(lo: nat, hi: nat, skip: set<nat>)
    ensures |Good(lo, hi, skip)| <= if lo < hi then hi - lo else 0
    decreases hi
  {
    if lo < hi {
      GoodCount(lo, hi - 1, skip);
    }
  }

  // ---------- bytes ----------

  lemma {:induction false} BytesConcat(content: Content, a: seq<nat>, b: seq<nat>)
    requires AllProgrammed(content, a) && AllProgrammed(content, b)
    ensures AllProgrammed(content, a + b) && Bytes(content, a + b) == Bytes(content, a) + Bytes(content, b)
    decreases |b|
  {
    if b == [] {
      assert a + b == a;
    } else {
      var i := |b| - 1;
      assert (a + b)[|a + b| - 1] == b[i] && (a + b)[..|a + b| - 1] == a + b[..i];
      BytesConcat(content, a, b[..i]);
    }
  }

  lemma {:induction false} BytesLength(content: Content, pages: seq<nat>, pageSize: nat)
    requires AllProgrammed(content, pages)
    requires forall p :: p in pages ==> |content(p).data| == pageSize
    ensures |Bytes(content, pages)| == |pages| * pageSize
    decreases |pages|
  {
    if pages != [] {
      BytesLength(content, pages[..|pages| - 1], pageSize);
      assert |pages| * pageSize == (|pages| - 1) * pageSize + pageSize;
    }
  }

  lemma {:induction false} BytesSame(c: Content, c': Content, pages: seq<nat>)
    requires AllProgrammed(c, pages) && forall p :: p in pages ==> c'(p) == c(p)
    ensures AllProgrammed(c', pages) && Bytes(c', pages) == Bytes(c, pages)
    decreases |pages|
  {
    if pages != [] {
      assert pages[|pages| - 1] in pages;
      BytesSame(c, c', pages[..|pages| - 1]);
    }
  }

  lemma {:induction false} MatchesProgrammed(content: Content, pages: seq<nat>, image: seq<Byte>, pageSize: nat)
    requires Matches(content, pages, image, pageSize) && AllProgrammed(content, pages)
    ensures image == Bytes(content, pages)
    decreases |pages|
  {
    if pages != [] {
      var i := |image| - pageSize;
      assert pages[|pages| - 1] in pages && image == image[..i] + image[i..];
      MatchesProgrammed(content, pages[..|pages| - 1], image[..i], pageSize);
    }
  }

  lemma {:induction false} MatchesLength(content: Content, pages: seq<nat>, image: seq<Byte>, pageSize: nat)
    requires Matches(content, pages, image, pageSize)
    ensures |image| == |pages| * pageSize
    decreases |pages|
  {
    if pages != [] {
      MatchesLength(content, pages[..|pages| - 1], image[..|image| - pageSize], pageSize);
      assert |pages| * pageSize == (|pages| - 1) * pageSize + pageSize;
    }
  }

  lemma {:induction false} ReadableConcat(a: seq<nat>, b: seq<nat>, failed: set<nat>)
    ensures Readable(a + b, failed) == Readable(a, failed) + Readable(b, failed)
    decreases |b|
  {
    if b == [] {
      assert a + b == a;
    } else {
      var i := |b| - 1;
      assert (a + b)[|a + b| - 1] == b[i] && (a + b)[..|a + b| - 1] == a + b[..i];
      ReadableConcat(a, b[..i], failed);
    }
  }

  lemma {:induction false} ReadableSame(a: seq<nat>, failed: set<nat>, failed': set<nat>)
    requires forall p :: p in a ==> (p in failed <==> p in failed')
    ensures Readable(a, failed) == Readable(a, failed')
    decreases |a|
  {
    if a != [] {
      assert a[|a| - 1] in a;
      ReadableSame(a[..|a| - 1], failed, failed');
    }
  }

  lemma {:induction false} ReadableAll(a: seq<nat>)
    ensures Readable(a, {}) == a
    decreases |a|
  {
    if a != [] {
      ReadableAll(a[..|a| - 1]);
    }
  }

  // ---------- main results ----------

  /** Writing then reading is the identity: what flash_read_ext delivers from offset 0 of a
      partition on which an image is stored is that image, whichever blocks are bad. It reports
      success exactly when the image does not end on the last page of the partition. */
  lemma RoundTrip(content: Content, bad: set<nat>, ptn: Partition, data: seq<Byte>, pageSize: nat, n: nat,
                  ok: bool, image: seq<Byte>)
    requires n > 0 && Stored(content, bad, ptn, data, n)
    requires ok <==> CanRead(bad, ptn, 0, n, {})
    requires ok ==> Matches(content, Deliverable(bad, ptn, 0, {})[..n], image, pageSize)
    ensures ok ==> image == data
    ensures ok <==> Usable(ptn, bad)[n - 1] + 1 != LastPage(ptn)
  {
    hide Good, Bytes, Matches, Readable;
    var u := Usable(ptn, bad);
    assert u[0..] == u;
    ReadableAll(u);
    if ok {
      MatchesProgrammed(content, u[..n], image, pageSize);
    }
  }

  /** The image ends on the last page exactly when it fills every usable page and the last block is usable. */
  lemma EndsOnLastPage(ptn: Partition, bad: set<nat>, n: nat)
    requires 0 < n <= |Usable(ptn, bad)|
    ensures Usable(ptn, bad)[n - 1] + 1 == LastPage(ptn) <==>
            n == |Usable(ptn, bad)| && ptn.start + ptn.length - 1 !in bad
  {
    hide Good;
    var u, last := Usable(ptn, bad), LastPage(ptn);
    GoodBounds(FirstPage(ptn), last, bad);
    GoodBounds(FirstPage(ptn), last - 1, bad);
    assert u[0] in u && u[n - 1] in u;
    if n < |u| {
      assert u[n - 1] < u[n] && u[n] in u;
    }
    LastBlock(ptn);
    GoodLast(FirstPage(ptn), last, bad);
  }

  lemma GoodLast(lo: nat, hi: nat, skip: set<nat>)
    requires lo < hi
    ensures Good(lo, hi, skip) == Good(lo, hi - 1, skip) + if (hi - 1) / BLOCK_PAGES in skip then [] else [hi - 1]
  {
  }

  lemma LastBlock(ptn: Partition)
    requires ptn.length > 0
    ensures (LastPage(ptn) - 1) / BLOCK_PAGES == ptn.start + ptn.length - 1
  {
  }

  // ---------- lost blocks ----------

  ghost predicate PageSized(c: Content, pageSize: nat) {
    forall p: nat :: c(p).Programmed? ==> |c(p).data| == pageSize
  }

  /** Nothing is known of what lost blocks hold. */
  ghost predicate Ruined(c: Content, lost: set<nat>) {
    forall p: nat :: p / BLOCK_PAGES in lost ==> c(p).Garbage?
  }

  /** Every lost block lies in the partition, ahead of the last page of an image of n pages. */
  ghost predicate Ahead(ptn: Partition, bad: set<nat>, lost: set<nat>, n: nat) {
    lost == {} ||
      (0 < n <= |Usable(ptn, bad + lost)|
       && forall b :: b in lost ==> ptn.start <= b && (b + 1) * BLOCK_PAGES <= Usable(ptn, bad + lost)[n - 1])
  }

  lemma {:induction false} Least(s: set<nat>) returns (b: nat)
    requires s != {}
    ensures b in s && forall x :: x in s ==> b <= x
    decreases |s|
  {
    b :| b in s;
    var rest := s - {b};
    assert s == rest + {b};
    if rest != {} {
      var c := Least(rest);
      if c < b {
        b := c;
      }
    }
  }

  lemma {:induction false} GoodMore(lo: nat, hi: nat, s: set<nat>, t: set<nat>)
    requires s <= t
    ensures |Good(lo, hi, t)| <= |Good(lo, hi, s)|
    decreases hi
  {
    if lo < hi {
      GoodMore(lo, hi - 1, s, t);
    }
  }

  /** A reader that skips only the bad blocks meets a page of a lost block within the first n pages. */
  lemma LostPage(ptn: Partition, bad: set<nat>, lost: set<nat>, n: nat) returns (c: nat)
    requires lost != {} && lost !! bad && Ahead(ptn, bad, lost, n)
    ensures c < n && c < |Usable(ptn, bad)| && Usable(ptn, bad)[c] / BLOCK_PAGES in lost
  {
    hide Good;
    var b := Least(lost);
    LastIsBehind(ptn, bad, lost, n, b);
    c := FirstPageOf(ptn, bad, lost, b, n);
  }

  lemma LastIsBehind(ptn: Partition, bad: set<nat>, lost: set<nat>, n: nat, b: nat)
    requires b in lost && Ahead(ptn, bad, lost, n)
    ensures 0 < n <= |Usable(ptn, bad + lost)| && b * BLOCK_PAGES + BLOCK_PAGES <= Usable(ptn, bad + lost)[n - 1] < LastPage(ptn)
    ensures FirstPage(ptn) <= b * BLOCK_PAGES
  {
    hide Good;
    GoodBounds(FirstPage(ptn), LastPage(ptn), bad + lost);
    assert Usable(ptn, bad + lost)[n - 1] in Usable(ptn, bad + lost);
  }

  /** Before the first lost block, writer and reader agree; there the reader goes on. */
  lemma FirstPageOf(ptn: Partition, bad: set<nat>, lost: set<nat>, b: nat, n: nat) returns (c: nat)
    requires b in lost && b !in bad && forall x :: x in lost ==> b <= x
    requires FirstPage(ptn) <= b * BLOCK_PAGES < LastPage(ptn)
    requires 0 < n <= |Usable(ptn, bad + lost)| && b * BLOCK_PAGES < Usable(ptn, bad + lost)[n - 1]
    ensures c < n && c < |Usable(ptn, bad)| && Usable(ptn, bad)[c] == b * BLOCK_PAGES
    ensures Usable(ptn, bad)[c] / BLOCK_PAGES in lost
  {
    hide Good;
    var lo, p, hi := FirstPage(ptn), b * BLOCK_PAGES, LastPage(ptn);
    GoodSplit(lo, p, hi, bad);
    GoodSplit(lo, p, hi, bad + lost);
    GoodSame(lo, p, bad, bad + lost);
    var first := Good(lo, p, bad + lost);
    c := |first|;
    GoodBounds(lo, p, bad + lost);
    assert forall i :: 0 <= i < c ==> first[i] in first;
    FirstOf(p, hi, bad);
  }

  /** The pages that are read are the pages that were written exactly when no block was lost. */
  lemma SamePagesExactly(ptn: Partition, bad: set<nat>, lost: set<nat>, n: nat)
    requires lost !! bad && n <= |Usable(ptn, bad + lost)| && Ahead(ptn, bad, lost, n)
    ensures n <= |Usable(ptn, bad)|
    ensures Usable(ptn, bad)[..n] == Usable(ptn, bad + lost)[..n] <==> lost == {}
  {
    hide Good, Ahead;
    GoodMore(FirstPage(ptn), LastPage(ptn), bad, bad + lost);
    if lost == {} {
      assert bad + lost == bad;
    } else {
      var c := LostPage(ptn, bad, lost, n);
      GoodBounds(FirstPage(ptn), LastPage(ptn), bad + lost);
      var u, w := Usable(ptn, bad), Usable(ptn, bad + lost);
      assert w[c] in w;
      assert u[..n][c] == u[c] && w[..n][c] == w[c];
    }
  }

  /** One of the images that the pages may deliver: `byte` wherever nothing is known. */
  ghost function AnyImage(content: Content, pages: seq<nat>, pageSize: nat, byte: Byte): seq<Byte> {
    if pages == [] then []
    else AnyImage(content, pages[..|pages| - 1], pageSize, byte) + AnyPage(content(pages[|pages| - 1]), pageSize, byte)
  }

  ghost function AnyPage(page: Page, pageSize: nat, byte: Byte): seq<Byte> {
    match page
    case Programmed(data) => data
    case Erased => seq<Byte>(pageSize, _ => 0xff)
    case Garbage => seq<Byte>(pageSize, _ => byte)
  }

  lemma {:induction false} AnyMatches(content: Content, pages: seq<nat>, pageSize: nat, byte: Byte)
    requires PageSized(content, pageSize)
    ensures Matches(content, pages, AnyImage(content, pages, pageSize, byte), pageSize)
    decreases |pages|
  {
    if pages != [] {
      var last := |pages| - 1;
      AnyMatches(content, pages[..last], pageSize, byte);
      var front, page := AnyImage(content, pages[..last], pageSize, byte), AnyPage(content(pages[last]), pageSize, byte);
      assert |page| == pageSize;
      var image := front + page;
      assert image[..|image| - pageSize] == front && image[|image| - pageSize..] == page;
    }
  }

  lemma {:induction false} AnyDiffers(content: Content, pages: seq<nat>, pageSize: nat, i: nat)
    requires PageSized(content, pageSize) && pageSize > 0 && i < |pages| && content(pages[i]).Garbage?
    ensures AnyImage(content, pages, pageSize, 0) != AnyImage(content, pages, pageSize, 1)
    decreases |pages|
  {
    var last := |pages| - 1;
    AnyMatches(content, pages, pageSize, 0);
    AnyMatches(content, pages, pageSize, 1);
    var x, y := AnyImage(content, pages, pageSize, 0), AnyImage(content, pages, pageSize, 1);
    if i == last {
      assert x[|x| - 1] == 0 && y[|y| - 1] == 1;
    } else {
      AnyDiffers(content, pages[..last], pageSize, i);
      assert x[..|x| - pageSize] == AnyImage(content, pages[..last], pageSize, 0);
      assert y[..|y| - pageSize] == AnyImage(content, pages[..last], pageSize, 1);
    }
  }

  /** A page of which nothing is known may deliver something else. */
  lemma AnotherImage(content: Content, pages: seq<nat>, data: seq<Byte>, pageSize: nat, i: nat) returns (other: seq<Byte>)
    requires PageSized(content, pageSize) && pageSize > 0 && i < |pages| && content(pages[i]).Garbage?
    ensures Matches(content, pages, other, pageSize) && other != data
  {
    hide AnyImage, Matches;
    AnyMatches(content, pages, pageSize, 0);
    AnyMatches(content, pages, pageSize, 1);
    AnyDiffers(content, pages, pageSize, i);
    other := AnyImage(content, pages, pageSize, if AnyImage(content, pages, pageSize, 0) == data then 1 else 0);
  }

  /** Reading back is certain to deliver the image exactly when the writer lost no block: a block it
      gave up and could not get reported bad. */
  lemma CertainExactly(content: Content, bad: set<nat>, lost: set<nat>, ptn: Partition, data: seq<Byte>, n: nat, pageSize: nat)
    requires pageSize > 0 && PageSized(content, pageSize) && Stored(content, bad + lost, ptn, data, n)
    requires lost !! bad && Ahead(ptn, bad, lost, n) && Ruined(content, lost)
    ensures n <= |Usable(ptn, bad)|
    ensures (forall image :: Matches(content, Usable(ptn, bad)[..n], image, pageSize) ==> image == data) <==> lost == {}
  {
    hide Good, Ahead, Bytes, Matches, AnyImage;
    SamePagesExactly(ptn, bad, lost, n);
    var pages := Usable(ptn, bad)[..n];
    if lost == {} {
      assert bad + lost == bad;
      forall image | Matches(content, pages, image, pageSize)
        ensures image == data
      {
        MatchesProgrammed(content, pages, image, pageSize);
      }
    } else {
      var c := LostPage(ptn, bad, lost, n);
      var other := AnotherImage(content, pages, data, pageSize, c);
      assert Matches(content, Usable(ptn, bad)[..n], other, pageSize);
    }
  }

  /** For instance, on a device whose block 0 failed to erase and is not reported bad, reading back an
      image of one page succeeds and may deliver any other page of bytes. */
  lemma LostBlockIsRead(pageSize: nat, data: seq<Byte>, other: seq<Byte>)
    requires |data| == |other| == pageSize
    ensures var ptn, content := Partition(0, 2, Apps), LostContent(data);
            && Ruined(content, {0}) && Stored(content, {0}, ptn, data, 1)
            && CanRead({}, ptn, 0, 1, {}) && Matches(content, Deliverable({}, ptn, 0, {})[..1], other, pageSize)
  {
    hide Bytes, Readable, Good;
    var ptn, content := Partition(0, 2, Apps), LostContent(data);
    TwoBlocks();
    var u, v := Usable(ptn, {0}), Usable(ptn, {});
    assert u[..1] == [64] && v[..1] == [0] && v[0..] == v;
    OneProgrammed(content, 64);
    ReadableAll(v);
    assert [0][..0] == [] && other[..0] == [];
    assert Matches(content, [0], other, pageSize);
  }

  /** What a failed erase of block 0 and a page written to block 1 leave. */
  function LostContent(data: seq<Byte>): Content {
    (p: nat) => if p < 64 then Garbage else if p == 64 then Programmed(data) else Erased
  }

  lemma TwoBlocks()
    ensures var u, v := Good(0, 128, {0}), Good(0, 128, {});
            |u| >= 1 && u[0] == 64 && |v| >= 1 && v[0] == 0
  {
    GoodSplit(0, 64, 128, {0});
    GoodInBlock(0, 64, {0});
    FirstOf(64, 128, {0});
    FirstOf(0, 128, {});
  }

  lemma OneProgrammed(content: Content, p: nat)
    requires content(p).Programmed?
    ensures AllProgrammed(content, [p]) && Bytes(content, [p]) == content(p).data
  {
    assert [p][..0] == [];
    assert Bytes(content, []) == [];
  }

  lemma {:induction false} FirstOf(lo: nat, hi: nat, skip: set<nat>)
    requires lo < hi && lo / BLOCK_PAGES !in skip
    ensures Good(lo, hi, skip) != [] && Good(lo, hi, skip)[0] == lo
    decreases hi
  {
    if lo < hi - 1 {
      FirstOf(lo, hi - 1, skip);
    }
  }
}
