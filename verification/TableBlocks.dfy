/** The page heap inside the address space it serves: its region of the kernel directory is a part
    of the flat map, so that the blocks it hands out are fit to be page tables. */
module TableBlocks {
  import opened PageEntry
  import opened RadixTree
  import opened FlatSpace
  import opened FrameMemory
  import opened AddressSpace
  import opened AddressRuns
  import opened SpaceEffects
  import opened VirtualMemory
  import H = PageHeaps

  /** The first page of the region, the one of 0xffffffffe0000000, and how many there are. */
  const HEAP_KEY: nat := 0xF_FFFE_0000
  const HEAP_PAGES: nat := 0x8000
  const HEAP_ATTR: Attr := Attr(true, false, true, false)

  /** What the kernel directory says about page `p` of the region. */
  function At(f: Flat, p: nat): Entry {
    Entries(f, 0, HEAP_KEY + p)
  }

  predicate SamePage(frames: map<nat, nat>, f: Flat, p: nat) {
    if p in frames then At(f, p).p && At(f, p).base == frames[p] else !At(f, p).p && At(f, p).base != INVALID_PAGE
  }

  /** The heap's `frames` are the kernel directory's flat map on the region, and both take
      their frames from one bitmap. */
  ghost predicate Linked(h: H.Heap, f: Flat) {
    h.used == f.used && forall p: nat :: p < HEAP_PAGES ==> SamePage(h.frames, f, p)
  }

  lemma RegionPlace(p: nat)
    requires p < HEAP_PAGES
    ensures LOWER_KEYS <= HEAP_KEY + p < KEYS && IsKernelKey(HEAP_KEY + p) && HEAP_KEY + p != SCRATCH
  {
    hide IsKernelKey;
    KernelKeyIndices(HEAP_KEY + p);
    ScratchPlace();
  }

  /** A mapped page of the heap is in the region. */
  lemma PageInRegion(h: H.Heap, p: nat)
    requires H.Whole(h, {}, {}) && p in h.frames
    ensures p < HEAP_PAGES
  {
    hide H.Partition, H.Recorded, H.Pages, H.Framed;
  }

  // ----- one page

  lemma PutAt(f: Flat, p: nat, e: Entry)
    requires Coherent(f.spaces) && 0 in f.spaces && p < HEAP_PAGES
    ensures Has(f, 0, HEAP_KEY + p)
    ensures forall q: nat :: q < HEAP_PAGES ==> At(Put(f, 0, HEAP_KEY + p, e), q) == if q == p then e else At(f, q)
  {
    hide Put, IsKernelKey;
    NotPresent(f, p);
    RegionPlace(p);
    PutEntries(f, 0, HEAP_KEY + p, e);
  }

  lemma MapPageLinked(h: H.Heap, f: Flat, p: nat)
    requires Linked(h, f) && Isolated(f) && p < HEAP_PAGES && p !in h.frames && |f.used| < INVALID_PAGE
    ensures var frame, g := NextFree(h.used), MapFresh(f, 0, HEAP_KEY + p, HEAP_ATTR);
      Linked(h.(frames := h.frames[p := frame], used := h.used + {frame}), g) && Isolated(g)
  {
    hide FramesHeld, FramesDistinct, LowerPublic, UpperHeld, UpperDistinct, Coherent, NextFree, At, SetEntry;
    var k := HEAP_KEY + p;
    RegionPlace(p);
    assert SamePage(h.frames, f, p);
    var e := MapEntry(Entries(f, 0, k), NextFree(f.used), HEAP_ATTR);
    PutAt(TakeFrame(f, k), p, e);
    SameAt(f, TakeFrame(f, k));
    NotPresent(f, p);
    MapFreshOwned(f, 0, k, HEAP_ATTR);
    MapFreshUpper(f, 0, k, HEAP_ATTR);
    var frames, g := h.frames[p := NextFree(h.used)], MapFresh(f, 0, k, HEAP_ATTR);
    forall q: nat | q < HEAP_PAGES ensures SamePage(frames, g, q) {
      assert SamePage(h.frames, f, q);
    }
  }

  lemma SameAt(f: Flat, g: Flat)
    requires f.spaces == g.spaces
    ensures forall q: nat :: At(f, q) == At(g, q)
  {
  }

  lemma NotPresent(f: Flat, p: nat)
    requires Coherent(f.spaces) && 0 in f.spaces && p < HEAP_PAGES
    ensures Has(f, 0, HEAP_KEY + p) && f.spaces[0][HEAP_KEY + p] == At(f, p)
  {
  }

  lemma FreePageLinked(h: H.Heap, f: Flat, p: nat)
    requires Linked(h, f) && Isolated(f) && p < HEAP_PAGES && p in h.frames
    ensures var g := FreePage(f, 0, HEAP_KEY + p);
      Linked(h.(frames := h.frames - {p}, used := h.used - {h.frames[p]}), g) && Isolated(g)
  {
    hide FramesHeld, FramesDistinct, LowerPublic, UpperHeld, UpperDistinct, Coherent, At, SetEntry;
    var k := HEAP_KEY + p;
    RegionPlace(p);
    assert SamePage(h.frames, f, p);
    NotPresent(f, p);
    PutAt(f, p, UnmapEntry(Entries(f, 0, k)));
    SameAt(Unmap(f, 0, k), FreePage(f, 0, k));
    FreePageIsolated(f, 0, k);
    forall q: nat | q < HEAP_PAGES ensures SamePage(h.frames - {p}, FreePage(f, 0, k), q) {
      assert SamePage(h.frames, f, q);
    }
  }

  // ----- one block

  /** What the first `n` page mappings of a block make of the flat map. */
  function MapPages(f: Flat, index: nat, n: nat): Flat {
    if n == 0 then f
    else MapFresh(MapPages(f, index, n - 1), 0, HEAP_KEY + index * H.BLOCK_SIZE + n - 1, HEAP_ATTR)
  }

  function MapBlock(f: Flat, index: nat): Flat {
    MapPages(f, index, if index * H.BLOCK_SIZE < H.STATIC_SIZE then 0 else H.BLOCK_SIZE)
  }

  function FreeBlock(f: Flat, index: nat): Flat {
    if index * H.BLOCK_SIZE < H.STATIC_SIZE then f
    else FreePage(FreePage(f, 0, HEAP_KEY + index * H.BLOCK_SIZE), 0, HEAP_KEY + index * H.BLOCK_SIZE + 1)
  }

  function Mapped(h: H.Heap, index: nat, n: nat): H.Heap {
    h.(frames := H.FramesAfter(h.frames, h.used, index, n), used := H.UsedAfter(h.used, n))
  }

  lemma {:induction false} MapPagesLinked(h: H.Heap, f: Flat, index: nat, n: nat)
    requires Linked(h, f) && Isolated(f) && index < H.REGION_BLOCKS && n <= H.BLOCK_SIZE
    requires |f.used| + n <= INVALID_PAGE
    requires forall p :: p in h.frames ==> p / H.BLOCK_SIZE != index
    ensures Linked(Mapped(h, index, n), MapPages(f, index, n)) && Isolated(MapPages(f, index, n))
    ensures |MapPages(f, index, n).used| <= |f.used| + n
    ensures forall p :: p in Mapped(h, index, n).frames ==> p in h.frames || p < index * H.BLOCK_SIZE + n
    decreases n
  {
    hide Linked, Isolated, MapFresh, NextFree;
    if n > 0 {
      MapPagesLinked(h, f, index, n - 1);
      var h1, f1, p := Mapped(h, index, n - 1), MapPages(f, index, n - 1), index * H.BLOCK_SIZE + n - 1;
      assert p / H.BLOCK_SIZE == index;
      MapPageLinked(h1, f1, p);
      LinkedUsed(h1, f1);
      LinkedUsed(Mapped(h, index, n), MapPages(f, index, n));
    }
  }

  /** Page `p` of the region is present, may be written and not executed. */
  predicate HeapPage(f: Flat, p: nat) {
    At(f, p).p && At(f, p).rw && At(f, p).nx
  }

  /** The pages of a block are mapped as the heap asks for, wherever they were mapped before. */
  lemma {:induction false} MapPagesRights(h: H.Heap, f: Flat, index: nat, n: nat, m: nat)
    requires Linked(h, f) && Isolated(f) && index < H.REGION_BLOCKS && m < n <= H.BLOCK_SIZE
    requires |f.used| + n <= INVALID_PAGE && forall p :: p in h.frames ==> p / H.BLOCK_SIZE != index
    ensures HeapPage(MapPages(f, index, n), index * H.BLOCK_SIZE + m)
    decreases n
  {
    hide Linked, Isolated, MapFresh, NextFree, At, H.FramesAfter, H.UsedAfter, OnlyPage;
    MapPagesLinked(h, f, index, n - 1);
    var g, p := MapPages(f, index, n - 1), index * H.BLOCK_SIZE + n - 1;
    RegionHas(g, p);
    MapEffect(g, 0, HEAP_KEY + p, HEAP_ATTR);
    var e := Entries(g, 0, HEAP_KEY + p);
    var e' := Entry(true, e.rw || HEAP_ATTR.rw, e.us || HEAP_ATTR.public, e.nx || HEAP_ATTR.noexec, NextFree(g.used));
    if m < n - 1 {
      MapPagesRights(h, f, index, n - 1, m);
    }
    SeenAt(g, MapFresh(g, 0, HEAP_KEY + p, HEAP_ATTR), p, e', index * H.BLOCK_SIZE + m);
  }

  lemma RegionHas(f: Flat, p: nat)
    requires Isolated(f) && p < HEAP_PAGES
    ensures Coherent(f.spaces) && 0 in f.spaces && Has(f, 0, HEAP_KEY + p)
  {
    hide FramesHeld, FramesDistinct, LowerPublic, UpperHeld, UpperDistinct;
    NotPresent(f, p);
  }

  lemma SeenAt(f: Flat, g: Flat, p: nat, e: Entry, q: nat)
    requires OnlyPage(f, g, 0, HEAP_KEY + p, e) && 0 in f.spaces
    ensures At(g, q) == if q == p then e else At(f, q)
  {
    hide IsKernelKey;
    assert SeenIn(f, 0, HEAP_KEY + p, 0);
  }

  lemma LinkedUsed(h: H.Heap, f: Flat)
    requires Linked(h, f)
    ensures h.used == f.used
  {
  }

  lemma NotMappedYet(h: H.Heap, index: nat)
    requires H.Whole(h, {}, {}) && index !in h.marked && index * H.BLOCK_SIZE >= H.STATIC_SIZE
    ensures forall p :: p in h.frames ==> p / H.BLOCK_SIZE != index
  {
    hide H.Recorded, H.Tabled, H.Framed, H.PoolIndices;
  }

  /** An allocation of the heap is, on the flat map, the mapping of the block's pages. */
  lemma AllocLinked(h: H.Heap, h': H.Heap, f: Flat, index: nat)
    requires H.Whole(h, {}, {}) && Linked(h, f) && Isolated(f) && H.MapsBlock(h, h', index)
    requires index < H.REGION_BLOCKS && |f.used| + H.BLOCK_SIZE <= INVALID_PAGE
    ensures Linked(h', MapBlock(f, index)) && Isolated(MapBlock(f, index))
    ensures index * H.BLOCK_SIZE >= H.STATIC_SIZE ==>
      && HeapPage(MapBlock(f, index), index * H.BLOCK_SIZE)
      && HeapPage(MapBlock(f, index), index * H.BLOCK_SIZE + 1)
  {
    hide H.Whole, Isolated, H.FramesAfter, H.UsedAfter, MapPages, At, HeapPage;
    if index * H.BLOCK_SIZE >= H.STATIC_SIZE {
      NotMappedYet(h, index);
      MapPagesLinked(h, f, index, H.BLOCK_SIZE);
      MapPagesRights(h, f, index, H.BLOCK_SIZE, 0);
      MapPagesRights(h, f, index, H.BLOCK_SIZE, 1);
    } else {
      H.NothingTaken(h.frames, h.used, index);
      NoPagesMapped(f, index);
    }
  }

  lemma NoPagesMapped(f: Flat, index: nat)
    ensures MapPages(f, index, 0) == f
  {
  }

  lemma TwoPages(h: H.Heap, index: nat)
    requires H.Whole(h, {}, {}) && index in h.live && index * H.BLOCK_SIZE >= H.STATIC_SIZE
    ensures var p := index * H.BLOCK_SIZE; p + 1 < HEAP_PAGES && p in h.frames && p + 1 in h.frames
  {
    hide H.Partition, H.Recorded, H.Framed, H.PoolIndices;
    var p := index * H.BLOCK_SIZE;
    assert p / H.BLOCK_SIZE == index && (p + 1) / H.BLOCK_SIZE == index;
    PageInRegion(h, p + 1);
  }

  lemma TwoFrames(frames: map<nat, nat>, index: nat, p: nat)
    requires index * H.BLOCK_SIZE == p >= H.STATIC_SIZE && p in frames && p + 1 in frames
    ensures H.PagesOf(index) == {p, p + 1}
    ensures H.FreedFrames(frames, index) == {frames[p], frames[p + 1]}
  {
    H.NoPages(index);
    H.FirstPagesStep(index, 1);
    assert H.FirstPages(index, H.BLOCK_SIZE) == {p, p + 1};
    hide H.FirstPages;
  }

  lemma FreeLinked(h: H.Heap, h': H.Heap, f: Flat, index: nat)
    requires H.Whole(h, {}, {}) && Linked(h, f) && Isolated(f) && index in h.live && H.Frees(h, h', index)
    ensures Linked(h', FreeBlock(f, index)) && Isolated(FreeBlock(f, index))
  {
    hide H.Whole, Isolated, H.PagesOf, H.FreedUpTo, FreePage, At;
    if index * H.BLOCK_SIZE >= H.STATIC_SIZE {
      hide H.FreedFrames;
      TwoPages(h, index);
      var p := index * H.BLOCK_SIZE;
      TwoFrames(h.frames, index, p);
      FreePageLinked(h, f, p);
      var h1 := h.(frames := h.frames - {p}, used := h.used - {h.frames[p]});
      FreePageLinked(h1, FreePage(f, 0, HEAP_KEY + p), p + 1);
      assert h'.frames == h1.frames - {p + 1} && h'.used == h1.used - {h1.frames[p + 1]};
    } else {
      assert h'.frames == h.frames && h'.used == h.used;
    }
  }

  // ----- blocks as page tables

  /** Every table lives in a block that was handed out, and knows its physical page. */
  ghost predicate TablesInBlocks(ts: Tables, h: H.Heap) {
    forall t :: t in ts ==> H.Holds(h.live, H.Block(t, ts[t].phys))
  }

  function AsSupply(bs: seq<H.Block>): seq<TableBlock> {
    seq(|bs|, i requires 0 <= i < |bs| => TableBlock(bs[i].index, bs[i].phys))
  }

  /** A mapped page of the region is set aside, and no other page of the region shares its frame. */
  lemma RegionFrames(h: H.Heap, f: Flat, p: nat, q: nat)
    requires Linked(h, f) && Isolated(f) && p < HEAP_PAGES && q < HEAP_PAGES && p in h.frames && q in h.frames
    ensures h.frames[p] in f.reserved && (h.frames[p] == h.frames[q] ==> p == q)
  {
    hide Owned;
    RegionPlace(p);
    RegionPlace(q);
    assert SamePage(h.frames, f, p) && SamePage(h.frames, f, q);
    assert High(f.spaces, 0, HEAP_KEY + p) == At(f, p) && High(f.spaces, 0, HEAP_KEY + q) == At(f, q);
    hide High, At, IsKernelKey;
    assert p != q ==> !OneSlot(0, HEAP_KEY + p, 0, HEAP_KEY + q);
  }

  lemma BlockPage(h: H.Heap, b: H.Block)
    requires H.Whole(h, {}, {}) && H.Holds(h.live, b)
    ensures b.index * H.BLOCK_SIZE in h.frames && h.frames[b.index * H.BLOCK_SIZE] == b.phys
    ensures b.index * H.BLOCK_SIZE < HEAP_PAGES
  {
    hide H.Partition, H.Pages, H.Framed, H.Tabled;
    assert H.AtPage(h.frames, b.index, b.phys);
    PageInRegion(h, b.index * H.BLOCK_SIZE);
  }

  lemma TwoBlocksApart(h: H.Heap, f: Flat, b: H.Block, c: H.Block)
    requires H.Whole(h, {}, {}) && Linked(h, f) && Isolated(f) && H.Holds(h.live, b) && H.Holds(h.live, c)
    ensures b.phys in f.reserved && (b.phys == c.phys ==> b.index == c.index)
  {
    hide H.Whole, Linked, Isolated;
    BlockPage(h, b);
    BlockPage(h, c);
    RegionFrames(h, f, b.index * H.BLOCK_SIZE, c.index * H.BLOCK_SIZE);
  }

  /** Blocks handed out by the heap that are no tables yet are what the page tables need: not in
      use, in frames of their own, which are set aside. */
  lemma SupplyIsFresh(h: H.Heap, f: Flat, ts: Tables, bs: seq<H.Block>)
    requires H.Whole(h, {}, {}) && Linked(h, f) && Isolated(f) && TablesInBlocks(ts, h)
    requires forall i :: 0 <= i < |bs| ==> H.Holds(h.live, bs[i]) && bs[i].index !in ts
    requires forall i, j :: 0 <= i < j < |bs| ==> bs[i].index != bs[j].index
    ensures FreshSupply(ts, AsSupply(bs), f.reserved) && TablesReserved(ts, f.reserved)
  {
    hide H.Whole, Linked, Isolated, H.Holds;
    forall t | t in ts ensures ts[t].phys in f.reserved {
      TwoBlocksApart(h, f, H.Block(t, ts[t].phys), H.Block(t, ts[t].phys));
    }
    forall i | 0 <= i < |bs| ensures bs[i].phys in f.reserved {
      TwoBlocksApart(h, f, bs[i], bs[i]);
    }
    forall i, t | 0 <= i < |bs| && t in ts ensures ts[t].phys != bs[i].phys {
      TwoBlocksApart(h, f, bs[i], H.Block(t, ts[t].phys));
    }
    forall i, j | 0 <= i < j < |bs| ensures bs[i].phys != bs[j].phys {
      TwoBlocksApart(h, f, bs[i], bs[j]);
    }
  }

  /** The pages of a block that is no table can be given back: no table is on their frames. */
  lemma PageMayGo(h: H.Heap, f: Flat, ts: Tables, p: nat)
    requires H.Whole(h, {}, {}) && Linked(h, f) && Isolated(f) && TablesInBlocks(ts, h)
    requires p in h.frames && p / H.BLOCK_SIZE !in ts
    ensures At(f, p).p && At(f, p).base in f.reserved && forall t :: t in ts ==> ts[t].phys != At(f, p).base
  {
    hide H.Whole, Isolated, H.Holds, At;
    PageInRegion(h, p);
    assert SamePage(h.frames, f, p);
    RegionFrames(h, f, p, p);
    forall t | t in ts ensures ts[t].phys != h.frames[p] {
      BlockPage(h, H.Block(t, ts[t].phys));
      RegionFrames(h, f, p, t * H.BLOCK_SIZE);
      assert t * H.BLOCK_SIZE / H.BLOCK_SIZE == t;
    }
  }

  // ----- everything else leaves the region alone

  predicate Outside(k: nat) {
    k < HEAP_KEY || HEAP_KEY + HEAP_PAGES <= k
  }

  /** Nobody but the heap maps or unmaps pages of its region. */
  predicate Elsewhere(s: VmStep) {
    s.MapPage? || s.UnmapFree? ==> Outside(KeyOf(s.vaddr))
  }

  lemma PutOutside(f: Flat, d: nat, k: nat, e: Entry, p: nat)
    requires Coherent(f.spaces) && 0 in f.spaces && Has(f, d, k) && Outside(k) && p < HEAP_PAGES
    ensures At(Put(f, d, k, e), p) == At(f, p)
  {
    PutEntries(f, d, k, e);
  }

  lemma FaultElsewhere(h: H.Heap, f: Flat, d: nat, k: nat, p: nat)
    requires Linked(h, f) && Coherent(f.spaces) && 0 in f.spaces && Has(f, d, k) && p < HEAP_PAGES
    ensures At(ServeFault(f, d, k), p) == At(f, p)
  {
    hide Put, NextFree;
    if Outside(k) {
      PutOutside(TakeFrame(f, k), d, k, FaultEntry(Entries(f, d, k), NextFree(f.used)), p);
    } else {
      RegionPlace(k - HEAP_KEY);
      assert SamePage(h.frames, f, k - HEAP_KEY);
      assert Entries(f, d, k) == At(f, k - HEAP_KEY);
    }
  }

  lemma MapElsewhere(f: Flat, d: nat, k: nat, a: Attr, p: nat)
    requires Coherent(f.spaces) && 0 in f.spaces && Has(f, d, k) && Outside(k) && p < HEAP_PAGES
    ensures At(MapFresh(f, d, k, a), p) == At(f, p)
  {
    hide Put, NextFree;
    PutOutside(f, d, k, MapEntry(Entries(f, d, k), INVALID_PAGE, a), p);
    PutOutside(TakeFrame(f, k), d, k, MapEntry(Entries(f, d, k), NextFree(f.used), a), p);
  }

  lemma FreeElsewhere(f: Flat, d: nat, k: nat, p: nat)
    requires Coherent(f.spaces) && 0 in f.spaces && Has(f, d, k) && Outside(k) && p < HEAP_PAGES
    ensures At(FreePage(f, d, k), p) == At(f, p)
  {
    PutOutside(f, d, k, UnmapEntry(Entries(f, d, k)), p);
  }

  lemma RegionStays(h: H.Heap, f: Flat, s: VmStep, p: nat)
    requires Linked(h, f) && Isolated(f) && VmEnabled(f, s) && Elsewhere(s) && p < HEAP_PAGES
    ensures At(VmApply(f, s), p) == At(f, p)
  {
    hide Linked, UpperHeld, UpperDistinct, FramesHeld, FramesDistinct, LowerPublic, Coherent;
    hide MapFresh, ServeFault, Fork, PageCopied, FreePage, Outside;
    match s
    case MapPage(d, vaddr, a) => MapElsewhere(f, d, KeyOf(vaddr), a, p);
    case HandleFault(d, vaddr) => FaultElsewhere(h, f, d, KeyOf(vaddr), p);
    case MapKernel(d) =>
    case Clone(d, child, keys) =>
      RegionPlace(p);
      ForkPreserves(f, d, child, keys);
    case UnmapUserSpace(d) =>
    case Destroy(d) =>
    case UnmapFree(d, vaddr) => FreeElsewhere(f, d, KeyOf(vaddr), p);
  }

  /** The frames of the region stay in use whatever else happens. */
  lemma RegionHeld(h: H.Heap, f: Flat, s: VmStep, p: nat)
    requires H.Whole(h, {}, {}) && Linked(h, f) && Isolated(f) && VmEnabled(f, s) && Elsewhere(s) && p in h.frames
    ensures h.frames[p] in VmApply(f, s).used
  {
    hide H.Whole, FramesHeld, FramesDistinct, LowerPublic, Coherent, VmApply;
    PageInRegion(h, p);
    RegionPlace(p);
    RegionFrames(h, f, p, p);
    if s.UnmapFree? {
      var k := KeyOf(s.vaddr);
      assert SamePage(h.frames, f, p);
      assert High(f.spaces, 0, HEAP_KEY + p) == At(f, p) && High(f.spaces, s.d, k) == Entries(f, s.d, k);
      assert !OneSlot(0, HEAP_KEY + p, s.d, k);
    }
    ReservedStays(f, s, h.frames[p]);
  }

  lemma MemoryLinked(h: H.Heap, f: Flat, s: VmStep)
    requires H.Whole(h, {}, {}) && Linked(h, f) && Isolated(f) && VmEnabled(f, s) && Elsewhere(s)
    ensures var g := VmApply(f, s); var h' := h.(used := g.used);
      H.Whole(h', {}, {}) && Linked(h', g) && Isolated(g)
  {
    hide H.Partition, H.Recorded, H.Pages, H.Tabled, Isolated, VmEnabled, VmApply, Elsewhere, At;
    VmStepIsolated(f, s);
    forall p: nat | p < HEAP_PAGES ensures SamePage(h.frames, VmApply(f, s), p) {
      RegionStays(h, f, s, p);
      assert SamePage(h.frames, f, p);
    }
    forall p | p in h.frames ensures h.frames[p] in VmApply(f, s).used {
      RegionHeld(h, f, s, p);
    }
  }

  // ----- tables come and go

  /** Blocks that were handed out and hold no table. */
  ghost predicate Spare(h: H.Heap, ts: Tables, bs: seq<H.Block>) {
    && (forall i :: 0 <= i < |bs| ==> H.Holds(h.live, bs[i]) && bs[i].index !in ts)
    && (forall i, j :: 0 <= i < j < |bs| ==> bs[i].index != bs[j].index)
  }

  /** New tables are in blocks that were handed out, so all tables are. */
  lemma StillInBlocks(ts: Tables, ts': Tables, h: H.Heap, bs: seq<H.Block>)
    requires TablesInBlocks(ts, h) && TablesFrom(ts, ts', AsSupply(bs))
    requires forall i :: 0 <= i < |bs| ==> H.Holds(h.live, bs[i])
    ensures TablesInBlocks(ts', h)
  {
    hide H.Holds;
    forall t | t in ts' ensures H.Holds(h.live, H.Block(t, ts'[t].phys)) {
      if !(t in ts && ts'[t].phys == ts[t].phys) {
        var i :| 0 <= i < |bs| && AsSupply(bs)[i] == TableBlock(t, ts'[t].phys);
        assert bs[i] == H.Block(t, ts'[t].phys);
      } else {
        assert H.Holds(h.live, H.Block(t, ts[t].phys));
      }
    }
  }

  /** A block that holds no table can be given back: the tables keep theirs. */
  lemma FreeKeepsTables(ts: Tables, h: H.Heap, h': H.Heap, index: nat)
    requires TablesInBlocks(ts, h) && H.Frees(h, h', index) && index !in ts
    ensures TablesInBlocks(ts, h')
  {
    hide H.Whole, H.PagesOf, H.FreedFrames;
    forall t | t in ts ensures H.Holds(h'.live, H.Block(t, ts[t].phys)) {
      assert H.Holds(h.live, H.Block(t, ts[t].phys));
    }
  }

  lemma AllocKeepsTables(ts: Tables, h: H.Heap, h': H.Heap, index: nat)
    requires TablesInBlocks(ts, h) && H.MapsBlock(h, h', index)
    ensures TablesInBlocks(ts, h')
  {
    hide H.FramesAfter, H.UsedAfter;
    forall t | t in ts ensures H.Holds(h'.live, H.Block(t, ts[t].phys)) {
      assert H.Holds(h.live, H.Block(t, ts[t].phys));
    }
  }

  // ----- runs of all three together

  datatype Paging = Paging(heap: H.Heap, flat: Flat, tables: Tables)

  /** `bs` are the blocks that an operation may put new tables into. `Alloc` is one block marked and
      mapped, be it for a caller or for the pool; its own page table may be one of `bs`. `Build`
      is boot putting the first tables of the kernel directory into blocks. */
  datatype PagingStep =
    | Memory(s: VmStep, bs: seq<H.Block>)
    | Alloc(index: nat, bs: seq<H.Block>)
    | Free(index: nat)
    | Build(bs: seq<H.Block>)

  /** The tables change as the operations of `Vm` say. A block is given back when the table that
      lived there has been taken down. */
  ghost predicate PagingNext(x: Paging, step: PagingStep, y: Paging) {
    match step
    case Memory(s, bs) =>
      && VmEnabled(x.flat, s) && Elsewhere(s) && Spare(x.heap, x.tables, bs)
      && y.flat == VmApply(x.flat, s) && y.heap == x.heap.(used := y.flat.used)
      && TablesAfter(s, x.tables, y.tables, AsSupply(bs))
    case Alloc(index, bs) =>
      && H.MapsBlock(x.heap, y.heap, index) && H.Whole(y.heap, {}, {}) && y.flat == MapBlock(x.flat, index)
      && index < H.REGION_BLOCKS && |x.flat.used| + H.BLOCK_SIZE <= INVALID_PAGE
      && Spare(y.heap, x.tables, bs) && Grown(x.tables, y.tables, AsSupply(bs), [])
    case Free(index) =>
      && index in x.heap.live && index !in x.tables && H.Frees(x.heap, y.heap, index)
      && y.flat == FreeBlock(x.flat, index) && y.tables.Keys == x.tables.Keys && TablesFrom(x.tables, y.tables, [])
    case Build(bs) =>
      && y.heap == x.heap && y.flat == x.flat && Spare(x.heap, x.tables, bs)
      && Grown(x.tables, y.tables, AsSupply(bs), [])
  }

  /** Boot has mapped the static pages of the heap where the linker put them; no block is handed
      out and no table is in one yet. */
  ghost predicate PagingStart(x: Paging) {
    && Booted(x.flat) && x.heap == H.BootHeap(x.heap.start, x.flat.used) && Linked(x.heap, x.flat)
    && x.tables == map[]
  }

  function StaticEntry(start: nat, k: nat): Entry {
    if HEAP_KEY <= k < HEAP_KEY + H.STATIC_SIZE then Entry(true, true, false, true, start + k - HEAP_KEY) else ZERO
  }

  function StaticSpace(start: nat): FlatMap {
    map k: nat | k < KEYS :: StaticEntry(start, k)
  }

  /** Runs do start: the static pages of the heap are mapped, and nothing else is. */
  lemma SomePagingStart(start: nat) returns (x: Paging)
    ensures PagingStart(x) && x.heap.start == start
  {
    hide IsKernelKey;
    var used := H.StaticFrames(start);
    var f := Flat(map[0 := StaticSpace(start)], used, used, map[]);
    x := Paging(H.BootHeap(start, used), f, map[]);
    forall d: nat, k: nat ensures High(f.spaces, d, k) == if d == 0 && k < KEYS then StaticEntry(start, k) else ZERO {
    }
    forall d: nat, k: nat | High(f.spaces, d, k).p ensures High(f.spaces, d, k).base in used {
      StaticFrameUsed(start, k - HEAP_KEY);
    }
    forall p: nat | p < HEAP_PAGES ensures SamePage(x.heap.frames, f, p) {
      assert At(f, p) == StaticEntry(start, HEAP_KEY + p);
    }
    assert Full(StaticSpace(start));
  }

  lemma StaticFrameUsed(start: nat, p: nat)
    requires p < H.STATIC_SIZE
    ensures start + p in H.StaticFrames(start)
  {
    assert p in H.StaticMap(start) && H.StaticMap(start)[p] == start + p;
  }

  ghost predicate IsPagingRun(run: seq<Paging>, steps: seq<PagingStep>) {
    && |run| == |steps| + 1 && PagingStart(run[0])
    && forall i :: 0 <= i < |steps| ==> PagingNext(run[i], steps[i], run[i + 1])
  }

  ghost predicate Together(x: Paging) {
    H.Whole(x.heap, {}, {}) && Linked(x.heap, x.flat) && Isolated(x.flat) && TablesInBlocks(x.tables, x.heap)
  }

  lemma PagingStepKeeps(x: Paging, step: PagingStep, y: Paging)
    requires Together(x) && PagingNext(x, step, y)
    ensures Together(y)
  {
    hide H.Whole, Linked, Isolated, H.MapsBlock, MapBlock, FreeBlock, VmEnabled, VmApply, Elsewhere, TablesInBlocks,
      TablesFrom, AsSupply, H.PagesOf, H.FreedFrames, H.Holds;
    match step
    case Memory(s, bs) =>
      MemoryLinked(x.heap, x.flat, s);
      MemoryTables(x, s, bs, y);
    case Alloc(index, bs) =>
      AllocLinked(x.heap, y.heap, x.flat, index);
      AllocKeepsTables(x.tables, x.heap, y.heap, index);
      StillInBlocks(x.tables, y.tables, y.heap, bs);
    case Free(index) =>
      FreeLinked(x.heap, y.heap, x.flat, index);
      FreeKeepsTables(x.tables, x.heap, y.heap, index);
      NoNewTables(x.tables, y.tables, y.heap);
    case Build(bs) => StillInBlocks(x.tables, y.tables, y.heap, bs);
  }

  /** Mapping, new directories, fork and taking directories down keep every table in a block. */
  lemma MemoryTables(x: Paging, s: VmStep, bs: seq<H.Block>, y: Paging)
    requires Together(x) && PagingNext(x, Memory(s, bs), y)
    ensures TablesInBlocks(y.tables, y.heap)
  {
    hide H.Whole, Linked, Isolated, VmEnabled, VmApply, Elsewhere, TablesFrom, H.Holds;
    SameBlocks(x.tables, x.heap, y.heap);
    if s.HandleFault? || s.Destroy? || s.UnmapFree? {
      NoNewTables(x.tables, y.tables, y.heap);
    } else {
      StillInBlocks(x.tables, y.tables, y.heap, bs);
    }
  }

  lemma SameBlocks(ts: Tables, h: H.Heap, h': H.Heap)
    requires TablesInBlocks(ts, h) && h'.live == h.live
    ensures TablesInBlocks(ts, h')
  {
  }

  lemma NoNewTables(ts: Tables, ts': Tables, h: H.Heap)
    requires TablesInBlocks(ts, h) && TablesFrom(ts, ts', [])
    ensures TablesInBlocks(ts', h)
  {
    assert AsSupply([]) == [];
    StillInBlocks(ts, ts', h, []);
  }

  lemma BootTogether(x: Paging)
    requires PagingStart(x)
    ensures Together(x)
  {
    hide UpperHeld, UpperDistinct, H.Whole;
    BootOwned(x.flat);
    StaticUsed(x);
    H.AtBoot(x.heap.start, x.flat.used);
  }

  lemma StaticUsed(x: Paging)
    requires PagingStart(x)
    ensures forall p: nat :: p in H.StaticFrames(x.heap.start) ==> p in x.flat.used
  {
    forall n: nat | n in H.StaticFrames(x.heap.start) ensures n in x.flat.used {
      var p :| p in H.StaticMap(x.heap.start) && H.StaticMap(x.heap.start)[p] == n;
      RegionPlace(p);
      assert SamePage(x.heap.frames, x.flat, p);
      assert High(x.flat.spaces, 0, HEAP_KEY + p) == At(x.flat, p);
    }
  }

  lemma {:induction false} PagingRunKeeps(run: seq<Paging>, steps: seq<PagingStep>, i: nat)
    requires IsPagingRun(run, steps) && i < |run|
    ensures Together(run[i])
    decreases i
  {
    hide Together, PagingNext, PagingStart;
    if i == 0 {
      BootTogether(run[0]);
    } else {
      PagingRunKeeps(run, steps, i - 1);
      PagingStepKeeps(run[i - 1], steps[i - 1], run[i]);
    }
  }

  /** In every run, blocks handed out that hold no table are a fresh supply for the page tables. */
  lemma SupplyInRuns(run: seq<Paging>, steps: seq<PagingStep>, n: nat, bs: seq<H.Block>)
    requires IsPagingRun(run, steps) && n < |run| && Spare(run[n].heap, run[n].tables, bs)
    ensures FreshSupply(run[n].tables, AsSupply(bs), run[n].flat.reserved)
  {
    hide IsPagingRun, H.Whole, Linked, Isolated, TablesInBlocks, H.Holds, AsSupply, FreshSupply, TablesReserved;
    PagingRunKeeps(run, steps, n);
    SupplyIsFresh(run[n].heap, run[n].flat, run[n].tables, bs);
  }

  /** In every run a page table is in a block handed out, on a frame that is set aside, that no
      other table is on and that is under no present lower-half page. */
  lemma TablesInRuns(run: seq<Paging>, steps: seq<PagingStep>, n: nat, t: TableId, u: TableId, d: nat, k: nat)
    requires IsPagingRun(run, steps) && n < |run| && t in run[n].tables && u in run[n].tables
    ensures var x := run[n];
      && t in x.heap.live && x.heap.live[t] == x.tables[t].phys && x.tables[t].phys in x.flat.reserved
      && (x.tables[t].phys == x.tables[u].phys ==> t == u)
      && (Low(x.flat.spaces, d, k).p ==> Low(x.flat.spaces, d, k).base != x.tables[t].phys)
  {
    hide IsPagingRun, H.Whole, Linked, Low, Coherent, UpperHeld, UpperDistinct;
    PagingRunKeeps(run, steps, n);
    var x := run[n];
    assert H.Holds(x.heap.live, H.Block(t, x.tables[t].phys)) && H.Holds(x.heap.live, H.Block(u, x.tables[u].phys));
    TwoBlocksApart(x.heap, x.flat, H.Block(t, x.tables[t].phys), H.Block(u, x.tables[u].phys));
  }
}
