/**
 The paged allocator: pages of objects handed out block by block, and a free list threaded through
 the released blocks themselves.

 A pointer is a page number and an object offset in that page; `links` is the word the allocator
 stores at the start of a released block.  Pages are kept in list order, newest first.
 */
module BatchAllocator {
  import opened Arithmetic

  datatype Ptr = Ptr(page: nat, offset: nat)

  datatype Link = Null | To(p: Ptr)

  datatype Batch = Batch(id: nat, used: nat, end: nat)

  /** Objects handed out so far, over all pages. */
  function Used(bs: seq<Batch>): nat {
    if bs == [] then 0 else bs[0].used + Used(bs[1..])
  }

  /** Objects never handed out. */
  function Unused(bs: seq<Batch>): int {
    if bs == [] then 0 else bs[0].end - bs[0].used + Unused(bs[1..])
  }

  /** Objects in all pages. */
  function Total(bs: seq<Batch>): nat {
    if bs == [] then 0 else bs[0].end + Total(bs[1..])
  }

  lemma {:induction false} UsedAndUnused(bs: seq<Batch>)
    ensures Used(bs) + Unused(bs) == Total(bs)
  {
    if bs != [] {
      UsedAndUnused(bs[1..]);
    }
  }

  /** The objects of `n` blocks. */
  function Objects(n: nat, size: nat): nat {
    if n == 0 then 0 else Objects(n - 1, size) + size
  }

  lemma {:induction false} ObjectsIsProduct(n: nat, size: nat)
    ensures Objects(n, size) == n * size
  {
    if n > 0 {
      ObjectsIsProduct(n - 1, size);
    }
  }

  /** Multiples of `n` are at least `n` apart. */
  lemma MultiplesApart(a: nat, b: nat, n: nat)
    requires n > 0 && a % n == 0 && b % n == 0 && a < b
    ensures a + n <= b
  {
    var i, j := a / n, b / n;
    assert a == i * n && b == j * n;
    if j <= i {
      assert false;
    }
    MulAtLeast(j - i, n);
    assert (j - i) * n == j * n - i * n;
  }

  lemma NextMultiple(a: nat, n: nat)
    requires n > 0 && a % n == 0
    ensures (a + n) % n == 0
  {
    var i := a / n;
    assert a + n == (i + 1) * n + 0;
    RemainderUnique(a + n, n, i + 1, 0);
  }

  /** The blocks of one page that were handed out at least once. */
  ghost predicate InPage(b: Batch, size: nat, p: Ptr) {
    size > 0 && p.page == b.id && p.offset % size == 0 && p.offset < b.used
  }

  ghost predicate Handed(bs: seq<Batch>, size: nat, p: Ptr) {
    exists i :: 0 <= i < |bs| && InPage(bs[i], size, p)
  }

  /** Two blocks of `size` objects have no object in common. */
  predicate Disjoint(p: Ptr, q: Ptr, size: nat) {
    p.page != q.page || p.offset + size <= q.offset || q.offset + size <= p.offset
  }

  /** The free list as the stored words chain it. */
  ghost predicate Chained(head: Link, links: map<Ptr, Link>, free: seq<Ptr>)
    decreases |free|
  {
    if free == [] then head == Null
    else head == To(free[0]) && free[0] in links && Chained(links[free[0]], links, free[1..])
  }

  /** Storing a word into a block that is not on the list leaves the list alone. */
  lemma {:induction false} ChainKeeps(head: Link, links: map<Ptr, Link>, free: seq<Ptr>, p: Ptr, w: Link)
    requires Chained(head, links, free) && p !in free
    ensures Chained(head, links[p := w], free)
    decreases |free|
  {
    if free != [] {
      ChainKeeps(links[free[0]], links, free[1..], p, w);
    }
  }

  ghost predicate Distinct(s: seq<Ptr>) {
    forall i, j :: 0 <= i < j < |s| ==> s[i] != s[j]
  }

  /**
   The list of pages: the newest is the current one, every older one is full, the oldest is the empty
   dummy.  Only blocks that divide the page keep `used` from passing `end`.
   */
  ghost predicate PagesOk(size: nat, perPage: nat, bs: seq<Batch>) {
    && size > 0 && perPage >= 16 && |bs| > 0
    && (forall i :: 0 <= i < |bs| ==>
          && bs[i].id == |bs| - 1 - i
          && bs[i].end == (if i == |bs| - 1 then 0 else perPage)
          && bs[i].used % size == 0
          && (perPage % size == 0 ==> bs[i].used <= bs[i].end))
    && bs[|bs| - 1].used == 0
    && (forall i :: 0 < i < |bs| ==> bs[i].used == bs[i].end)
  }

  /** Every block ever handed out is either live or on the free list, once, and nothing else is. */
  ghost predicate BlocksOk(size: nat, bs: seq<Batch>, live: set<Ptr>, free: seq<Ptr>, head: Link, links: map<Ptr, Link>) {
    && (forall p :: p in live || p in free <==> Handed(bs, size, p))
    && (forall p :: p in live ==> p !in free)
    && Distinct(free)
    && Chained(head, links, free)
    && Objects(|live| + |free|, size) == Used(bs)
  }

  lemma TakeOk(size: nat, bs: seq<Batch>, live: set<Ptr>, free: seq<Ptr>, head: Link, links: map<Ptr, Link>)
    requires BlocksOk(size, bs, live, free, head, links) && free != []
    ensures head == To(free[0]) && free[0] in links && free[0] !in live
    ensures BlocksOk(size, bs, live + {free[0]}, free[1..], links[free[0]], links)
  {
  }

  lemma ReleaseOk(size: nat, bs: seq<Batch>, live: set<Ptr>, free: seq<Ptr>, head: Link, links: map<Ptr, Link>, p: Ptr)
    requires BlocksOk(size, bs, live, free, head, links) && p in live
    ensures BlocksOk(size, bs, live - {p}, [p] + free, To(p), links[p := head])
  {
    ChainKeeps(head, links, free, p, head);
    assert ([p] + free)[1..] == free;
    assert |live - {p}| == |live| - 1;
  }

  function Bumped(bs: seq<Batch>, size: nat): seq<Batch>
    requires |bs| > 0
  {
    bs[0 := bs[0].(used := bs[0].used + size)]
  }

  lemma BumpHands(size: nat, perPage: nat, bs: seq<Batch>, q: Ptr)
    requires PagesOk(size, perPage, bs)
    ensures Handed(Bumped(bs, size), size, q) <==> Handed(bs, size, q) || q == Ptr(bs[0].id, bs[0].used)
    ensures !Handed(bs, size, Ptr(bs[0].id, bs[0].used))
  {
    var bs' := Bumped(bs, size);
    if Handed(bs', size, q) {
      var i :| 0 <= i < |bs'| && InPage(bs'[i], size, q);
      if i > 0 || q.offset < bs[0].used {
        assert InPage(bs[i], size, q);
      } else if q.offset > bs[0].used {
        MultiplesApart(bs[0].used, q.offset, size);
      }
    }
    if Handed(bs, size, q) {
      var i :| 0 <= i < |bs| && InPage(bs[i], size, q);
      assert InPage(bs'[i], size, q);
    }
    if q == Ptr(bs[0].id, bs[0].used) {
      assert InPage(bs'[0], size, q);
    }
  }

  lemma BumpOk(size: nat, perPage: nat, bs: seq<Batch>, live: set<Ptr>, free: seq<Ptr>, head: Link, links: map<Ptr, Link>)
    requires PagesOk(size, perPage, bs) && BlocksOk(size, bs, live, free, head, links) && bs[0].used != bs[0].end
    ensures var p := Ptr(bs[0].id, bs[0].used);
      && p !in live && p !in free
      && PagesOk(size, perPage, Bumped(bs, size))
      && BlocksOk(size, Bumped(bs, size), live + {p}, free, head, links)
  {
    var p, bs' := Ptr(bs[0].id, bs[0].used), Bumped(bs, size);
    forall q ensures (q in live + {p} || q in free <==> Handed(bs', size, q)) && !(p in live || p in free) {
      BumpHands(size, perPage, bs, q);
    }
    BumpPages(size, perPage, bs);
    assert bs'[1..] == bs[1..];
  }

  lemma BumpPages(size: nat, perPage: nat, bs: seq<Batch>)
    requires PagesOk(size, perPage, bs) && bs[0].used != bs[0].end
    ensures PagesOk(size, perPage, Bumped(bs, size))
  {
    NextMultiple(bs[0].used, size);
    if perPage % size == 0 { MultiplesApart(bs[0].used, bs[0].end, size); }
  }

  lemma NewPageOk(size: nat, perPage: nat, bs: seq<Batch>, live: set<Ptr>, free: seq<Ptr>, head: Link, links: map<Ptr, Link>)
    requires PagesOk(size, perPage, bs) && BlocksOk(size, bs, live, free, head, links) && bs[0].used == bs[0].end
    ensures var bs' := [Batch(|bs|, 0, perPage)] + bs;
      PagesOk(size, perPage, bs') && BlocksOk(size, bs', live, free, head, links) && Unused(bs) == 0
  {
    var bs' := [Batch(|bs|, 0, perPage)] + bs;
    SmallRemainder(0, size);
    assert bs'[1..] == bs;
    AllFull(bs);
    forall q ensures Handed(bs', size, q) <==> Handed(bs, size, q) {
      if Handed(bs, size, q) {
        var i :| 0 <= i < |bs| && InPage(bs[i], size, q);
        assert InPage(bs'[i + 1], size, q);
      }
      if Handed(bs', size, q) {
        var i :| 0 <= i < |bs'| && InPage(bs'[i], size, q);
        assert InPage(bs[i - 1], size, q);
      }
    }
    assert PagesOk(size, perPage, bs') by {
      forall i | 0 < i < |bs'| ensures bs'[i] == bs[i - 1] {}
    }
  }

  lemma {:induction false} AllFull(bs: seq<Batch>)
    requires forall i :: 0 <= i < |bs| ==> bs[i].used == bs[i].end
    ensures Unused(bs) == 0
  {
    if bs != [] {
      AllFull(bs[1..]);
    }
  }

  /** The pages with room for another block: a full current page gets a new one in front of it. */
  function WithRoom(bs: seq<Batch>, perPage: nat): (r: seq<Batch>)
    requires |bs| > 0
    ensures |r| > 0
  {
    if bs[0].used == bs[0].end then [Batch(|bs|, 0, perPage)] + bs else bs
  }

  /** The block that the next allocation carves when nothing is on the free list. */
  function NextBlock(bs: seq<Batch>, perPage: nat): Ptr
    requires |bs| > 0
  {
    var r := WithRoom(bs, perPage); Ptr(r[0].id, r[0].used)
  }

  class BatchAllocator {
    const size: nat               // objectPerAllocation
    const objectsPerPage: nat
    var batches: seq<Batch>
    var current: nat              // index of currentBatch_; |batches| when it is null
    var freeHead: Link
    var links: map<Ptr, Link>

    ghost var live: set<Ptr>      // handed out and not released
    ghost var free: seq<Ptr>      // released, in list order

    ghost predicate Valid()
      reads this
    {
      && current == 0
      && PagesOk(size, objectsPerPage, batches)
      && BlocksOk(size, batches, live, free, freeHead, links)
    }

    /** Starts with an empty dummy page, for every page size that the source accepts. */
    constructor (size: nat, objectsPerPage: nat)
      requires size > 0 && objectsPerPage >= 16
      ensures Valid() && this.size == size && this.objectsPerPage == objectsPerPage
      ensures live == {} && NeverReleased(0)
    {
      this.size := size;
      this.objectsPerPage := objectsPerPage;
      batches := [Batch(0, 0, 0)];
      current := 0;
      freeHead := Null;
      links := map[];
      live, free := {}, [];
      SmallRemainder(0, size);
    }

    /** Hand out a block: from the free list, else from the current page, else from a new page. */
    method Allocate() returns (p: Ptr)
      requires Valid()
      modifies this
      ensures Valid()
      ensures p !in old(live) && live == old(live) + {p}
      ensures free == if old(free) == [] then [] else old(free)[1..]
      ensures old(free) != [] ==> p == old(free)[0] && batches == old(batches)
      ensures old(free) == [] ==> p == NextBlock(old(batches), objectsPerPage)
      ensures old(free) == [] ==> batches == Bumped(WithRoom(old(batches), objectsPerPage), size)
      ensures |batches| > |old(batches)| ==> old(free) == [] && Unused(old(batches)) == 0
    {
      if freeHead != Null {
        p := PopFree();
      } else {
        NextPage();
        p := Carve();
      }
    }

    /** Take the first block of the free list. */
    method PopFree() returns (p: Ptr)
      requires Valid() && freeHead != Null
      modifies `freeHead, `live, `free
      ensures Valid()
      ensures old(free) != [] && p == old(free)[0] && p !in old(live)
      ensures live == old(live) + {p} && free == old(free)[1..]
    {
      TakeOk(size, batches, live, free, freeHead, links);
      p := freeHead.p;
      freeHead := links[p];
      live, free := live + {p}, free[1..];
    }

    /** Take the next block of the current page. */
    method Carve() returns (p: Ptr)
      requires Valid() && batches[0].used != batches[0].end
      modifies `batches, `live
      ensures Valid()
      ensures p == Ptr(old(batches)[0].id, old(batches)[0].used) && batches == Bumped(old(batches), size)
      ensures p !in old(live) && live == old(live) + {p}
    {
      BumpOk(size, objectsPerPage, batches, live, free, freeHead, links);
      ghost var batches' := Bumped(batches, size);
      p := Ptr(batches[current].id, batches[current].used);
      ghost var live' := live + {p};
      assert p !in live && BlocksOk(size, batches', live', free, freeHead, links);
      batches := batches[current := batches[current].(used := batches[current].used + size)];
      live := live';
      assert batches == batches';
    }

    /** Make sure that the current page has room, walking the older pages before asking for a new one. */
    method NextPage()
      requires Valid()
      modifies `batches, `current
      ensures Valid() && batches[0].used != batches[0].end
      ensures batches == WithRoom(old(batches), objectsPerPage)
      ensures |batches| > |old(batches)| ==> Unused(old(batches)) == 0
    {
      if batches[current].used == batches[current].end {
        NewPageOk(size, objectsPerPage, batches, live, free, freeHead, links);
        current := current + 1;
        while current < |batches| && batches[current].used == batches[current].end
          invariant 0 < current <= |batches| && batches == old(batches)
        {
          current := current + 1;
        }
        if current == |batches| {
          batches := [Batch(|batches|, 0, objectsPerPage)] + batches;
          current := 0;
        }
      }
    }

    /** Take back a live block: its first word becomes the free-list link. */
    method Release(p: Ptr)
      requires Valid() && p in live
      modifies this
      ensures Valid()
      ensures live == old(live) - {p} && free == [p] + old(free) && batches == old(batches)
    {
      ReleaseOk(size, batches, live, free, freeHead, links, p);
      links := links[p := freeHead];
      freeHead := To(p);
      live, free := live - {p}, [p] + free;
    }

    /** After `n` allocations and no release. */
    ghost predicate NeverReleased(n: nat)
      reads this
    {
      Valid() && free == [] && batches == Pages(size, objectsPerPage, n)
    }

    method AllocateNext(ghost n: nat) returns (p: Ptr)
      requires NeverReleased(n)
      modifies this
      ensures NeverReleased(n + 1) && p == Block(size, objectsPerPage, n)
    {
      p := Allocate();
    }

    /** A caller that allocates `n` blocks from a new allocator and releases none gets the first `n` carved blocks. */
    method AllocateFirst(n: nat) returns (ps: seq<Ptr>)
      requires NeverReleased(0)
      modifies this
      ensures NeverReleased(n) && |ps| == n && forall i :: 0 <= i < n ==> ps[i] == Block(size, objectsPerPage, i)
    {
      ps := [];
      for i := 0 to n
        invariant NeverReleased(i) && |ps| == i && forall k :: 0 <= k < i ==> ps[k] == Block(size, objectsPerPage, k)
      {
        var p := AllocateNext(i);
        ps := ps + [p];
      }
    }
  }

  // ---------- what the invariant means for a caller ----------

  /** Live blocks have no object in common, and lie inside their page when blocks divide the page. */
  lemma LiveBlocksDisjoint(size: nat, perPage: nat, bs: seq<Batch>, live: set<Ptr>, free: seq<Ptr>, head: Link, links: map<Ptr, Link>, p: Ptr, q: Ptr)
    requires PagesOk(size, perPage, bs) && BlocksOk(size, bs, live, free, head, links) && p in live && q in live
    ensures p != q ==> Disjoint(p, q, size)
    ensures perPage % size == 0 ==> exists i :: 0 <= i < |bs| && bs[i].id == p.page && p.offset + size <= bs[i].end
  {
    assert Handed(bs, size, p) && Handed(bs, size, q);
    if p.page == q.page {
      if p.offset < q.offset { MultiplesApart(p.offset, q.offset, size); }
      if q.offset < p.offset { MultiplesApart(q.offset, p.offset, size); }
    }
    if perPage % size == 0 {
      var i :| 0 <= i < |bs| && InPage(bs[i], size, p);
      SmallRemainder(0, size);
      MultiplesApart(p.offset, bs[i].end, size);
    }
  }

  /** Live, free-listed and never-used objects together are all the objects of all pages. */
  lemma ObjectsConserved(size: nat, bs: seq<Batch>, live: set<Ptr>, free: seq<Ptr>, head: Link, links: map<Ptr, Link>)
    requires BlocksOk(size, bs, live, free, head, links)
    ensures size * |live| + size * |free| + Unused(bs) == Total(bs)
  {
    UsedAndUnused(bs);
    ObjectsIsProduct(|live| + |free|, size);
    assert (|live| + |free|) * size == size * |live| + size * |free|;
  }

  // ---------- allocations without release, for every page size ----------

  /** The pages after `n` allocations from a new allocator without any release. */
  function Pages(size: nat, perPage: nat, n: nat): (bs: seq<Batch>)
    ensures |bs| > 0
  {
    if n == 0 then [Batch(0, 0, 0)] else Bumped(WithRoom(Pages(size, perPage, n - 1), perPage), size)
  }

  /** The block that allocation number `n` hands out, counting from 0. */
  function Block(size: nat, perPage: nat, n: nat): Ptr { NextBlock(Pages(size, perPage, n), perPage) }

  /** The bytes asked of malloc for a page, an `unsigned int`: `h` for the header and `b` for each object. */
  function MallocSize(h: nat, b: nat, size: nat, perPage: nat): nat { (h + b * (size * perPage)) % 0x1_0000_0000 }

  /** The block lies in the memory of its page. */
  predicate InMemory(p: Ptr, h: nat, b: nat, size: nat, perPage: nat) {
    h + b * (p.offset + size) <= MallocSize(h, b, size, perPage)
  }

  lemma {:induction false} PagesStayOk(size: nat, perPage: nat, n: nat)
    requires size > 0 && perPage >= 16
    ensures PagesOk(size, perPage, Pages(size, perPage, n))
    ensures var r := WithRoom(Pages(size, perPage, n), perPage); PagesOk(size, perPage, r) && r[0].used != r[0].end
  {
    SmallRemainder(0, size);
    if n > 0 {
      PagesStayOk(size, perPage, n - 1);
      BumpPages(size, perPage, WithRoom(Pages(size, perPage, n - 1), perPage));
    }
    RoomOk(size, perPage, Pages(size, perPage, n));
  }

  lemma RoomOk(size: nat, perPage: nat, bs: seq<Batch>)
    requires PagesOk(size, perPage, bs)
    ensures var r := WithRoom(bs, perPage); PagesOk(size, perPage, r) && r[0].used != r[0].end
  {
    SmallRemainder(0, size);
    if bs[0].used == bs[0].end {
      var r := [Batch(|bs|, 0, perPage)] + bs;
      forall i | 0 < i < |r| ensures r[i] == bs[i - 1] {}
    }
  }

  /** Blocks that divide the page never leave it. */
  lemma EvenBlockInPage(size: nat, perPage: nat, n: nat)
    requires size > 0 && perPage >= 16 && perPage % size == 0
    ensures Block(size, perPage, n).offset + size <= perPage
  {
    PagesStayOk(size, perPage, n);
    var r := WithRoom(Pages(size, perPage, n), perPage);
    MultiplesApart(r[0].used, r[0].end, size);
  }

  /**
   The first real page takes every block as long as it is not full; when blocks do not divide the page it
   is never seen as full and takes every block there is.
   */
  lemma {:induction false} FirstPage(size: nat, perPage: nat, n: nat)
    requires size > 0 && perPage >= 16 && (perPage % size != 0 || n * size < perPage)
    ensures Block(size, perPage, n) == Ptr(1, n * size)
    ensures WithRoom(Pages(size, perPage, n), perPage) == [Batch(1, n * size, perPage), Batch(0, 0, 0)]
  {
    if n > 0 {
      assert (n - 1) * size + size == n * size;
      FirstPage(size, perPage, n - 1);
      RemainderUnique(n * size, size, n, 0);
      assert Pages(size, perPage, n) == [Batch(1, n * size, perPage), Batch(0, 0, 0)];
    }
  }

  /** Then, unless the byte size wraps, block `n` lies in the page's memory exactly while `n` is below the page size. */
  lemma UnevenBlockInMemoryIff(h: nat, b: nat, size: nat, perPage: nat, n: nat)
    requires b > 0 && size > 0 && perPage >= 16 && perPage % size != 0
    ensures Block(size, perPage, n) == Ptr(1, n * size)
    ensures h + b * (size * perPage) < 0x1_0000_0000 ==>
      (InMemory(Block(size, perPage, n), h, b, size, perPage) <==> n < perPage)
  {
    FirstPage(size, perPage, n);
    UnwrappedMemory(Block(size, perPage, n), h, b, size, perPage);
    BlocksFit(n, perPage, size);
  }

  /** A byte size that does not wrap holds all the objects that were asked for. */
  lemma UnwrappedMemory(p: Ptr, h: nat, b: nat, size: nat, perPage: nat)
    requires b > 0
    ensures h + b * (size * perPage) < 0x1_0000_0000 ==>
      (InMemory(p, h, b, size, perPage) <==> p.offset + size <= size * perPage)
  {
    ScaleOrder(b, p.offset + size, size * perPage);
  }

  lemma ScaleOrder(b: nat, x: int, y: int)
    requires b > 0
    ensures b * x <= b * y <==> x <= y
  {
    assert b * y - b * x == b * (y - x);
    if x > y { MulAtLeast(x - y, b); assert b * (y - x) == -((x - y) * b); } else { assert b * (y - x) >= 0; }
  }

  /** Block `n` ends within `m` blocks exactly when it is one of the first `m`. */
  lemma BlocksFit(n: nat, m: nat, size: nat)
    requires size > 0
    ensures n * size + size <= size * m <==> n < m
  {
    assert n * size + size == size * (n + 1);
    ScaleOrder(size, n + 1, m);
  }

  /** A block whose end is 2^32 objects away is outside every page. */
  lemma FarBlockOutside(p: Ptr, h: nat, b: nat, size: nat, perPage: nat)
    requires b > 0 && p.offset + size >= 0x1_0000_0000
    ensures !InMemory(p, h, b, size, perPage)
  {
    ScaleOrder(p.offset + size, 1, b);
  }

  /** The last block of a page that blocks divide ends where the page ends. */
  lemma LastBlock(size: nat, perPage: nat) returns (n: nat)
    requires size > 0 && perPage >= 16 && perPage % size == 0
    ensures Block(size, perPage, n).offset + size == perPage
  {
    var q := perPage / size;
    assert perPage == q * size;
    n := q - 1;
    assert n * size + size == q * size;
    FirstPage(size, perPage, n);
  }

  /** What a caller can check: blocks divide the page, and its byte size, cut to 32 bits, covers the page. */
  predicate PageHolds(h: nat, b: nat, size: nat, perPage: nat)
    requires size > 0
  {
    perPage % size == 0 && MallocSize(h, b, size, perPage) >= h + b * perPage
  }

  /** Every block lies in the memory of its page, however many are allocated, if and only if the page holds its blocks. */
  lemma BlocksInMemoryIff(h: nat, b: nat, size: nat, perPage: nat)
    requires b > 0 && size > 0 && perPage >= 16
    ensures (forall n: nat :: InMemory(Block(size, perPage, n), h, b, size, perPage)) <==> PageHolds(h, b, size, perPage)
  {
    if perPage % size != 0 {
      var n: nat := 0x1_0000_0000;
      FirstPage(size, perPage, n);
      ScaleOrder(n, 1, size);
      FarBlockOutside(Block(size, perPage, n), h, b, size, perPage);
    } else {
      var last := LastBlock(size, perPage);
      if PageHolds(h, b, size, perPage) {
        forall n: nat ensures InMemory(Block(size, perPage, n), h, b, size, perPage) {
          EvenBlockInPage(size, perPage, n);
          ScaleOrder(b, Block(size, perPage, n).offset + size, perPage);
        }
      } else {
        assert !InMemory(Block(size, perPage, last), h, b, size, perPage);
      }
    }
  }

  /**
   The instance the array code declares, pages of 255 values in blocks of 8: block 255 starts where the
   memory of the page ends, whatever the sizes of header and values.
   */
  lemma ArrayPagesOverrun(h: nat, b: nat)
    requires b > 0
    ensures Block(8, 255, 255) == Ptr(1, 8 * 255) && !InMemory(Block(8, 255, 255), h, b, 8, 255)
  {
    UnevenBlockInMemoryIff(h, b, 8, 255, 255);
  }

  /** A page of 2^28 objects of 16 bytes that blocks of one divide: its byte size is cut to the header, and no block fits. */
  lemma WrappedPageOverruns()
    ensures 0x1000_0000 % 1 == 0 && MallocSize(24, 16, 1, 0x1000_0000) == 24
    ensures Block(1, 0x1000_0000, 0) == Ptr(1, 0) && !InMemory(Block(1, 0x1000_0000, 0), 24, 16, 1, 0x1000_0000)
  {
    FirstPage(1, 0x1000_0000, 0);
  }
}
