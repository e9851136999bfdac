/** The kernel heap of source/KHeap.cpp as a list of blocks. Positions and sizes count
    4-byte words: every header and every block size in the source is a multiple of 4 bytes. */
module HeapModel {
  import opened Common

  const HEADER: nat := 1
  const MIN_BLOCK: nat := 2
  const PAGE_WORDS: nat := 1024
  const U32: nat := 0x1_0000_0000

  /** `start` is the position of the header, `size` includes it. */
  datatype Block = Block(start: nat, size: nat, used: bool)

  function EndOf(b: Block): nat {
    b.start + b.size
  }

  /** The blocks cover the heap from its start to `end` without gap or overlap. */
  ghost predicate Tiles(bs: seq<Block>, end: nat) {
    && bs != [] && bs[0].start == 0 && EndOf(bs[|bs| - 1]) == end
    && (forall i :: 0 <= i < |bs| ==> bs[i].size >= MIN_BLOCK)
    && (forall i :: 0 <= i < |bs| - 1 ==> bs[i + 1].start == EndOf(bs[i]))
  }

  // ----- request size, in the 32-bit arithmetic of the source

  /** Header added, rounded up to a multiple of 4, both modulo 2^32. */
  function RoundedBytes(size: nat): nat {
    var s := (size + 4) % U32;
    var r := (s + 3) % U32;
    r - r % 4
  }

  function Need(size: nat): nat {
    RoundedBytes(size) / 4
  }

  /** The rounded request covers the payload and its header exactly when nothing wraps. */
  lemma RoundingIsSafe(size: nat)
    requires size < U32
    ensures RoundedBytes(size) >= size + 4 <==> size <= U32 - 8
    ensures 0 < size <= U32 - 8 ==> size + 4 <= 4 * Need(size) <= size + 7 && MIN_BLOCK <= Need(size) < U32 / 4
  {
  }

  /** Every larger request wraps around to no block at all, or to a header without payload. */
  lemma HugeRequestWraps(size: nat)
    requires U32 - 8 < size < U32
    ensures RoundedBytes(size) == if size < U32 - 3 then 0 else 4
  {
    if size < U32 - 4 {
      assert (size + 4) % U32 == size + 4 && (size + 7) % U32 == size + 7 - U32;
    } else {
      assert (size + 4) % U32 == size + 4 - U32;
    }
  }

  // ----- the operations

  /** The lowest free block strictly larger than the request. */
  function FirstFit(bs: seq<Block>, need: nat): (r: Option<nat>)
    ensures r.Some? ==>
      r.value < |bs| && Suits(bs[r.value], need) && forall j :: 0 <= j < r.value ==> !Suits(bs[j], need)
    ensures r.None? ==> forall j :: 0 <= j < |bs| ==> !Suits(bs[j], need)
  {
    FirstFitFrom(bs, need, 0)
  }

  predicate Suits(b: Block, need: nat) {
    !b.used && need < b.size
  }

  function FirstFitFrom(bs: seq<Block>, need: nat, i: nat): (r: Option<nat>)
    requires i <= |bs|
    ensures r.Some? ==>
      i <= r.value < |bs| && Suits(bs[r.value], need) && forall j :: i <= j < r.value ==> !Suits(bs[j], need)
    ensures r.None? ==> forall j :: i <= j < |bs| ==> !Suits(bs[j], need)
    decreases |bs| - i
  {
    if i == |bs| then None
    else if Suits(bs[i], need) then Some(i)
    else FirstFitFrom(bs, need, i + 1)
  }

  function Mark(bs: seq<Block>, i: nat, used: bool): seq<Block>
    requires i < |bs|
  {
    bs[i := bs[i].(used := used)]
  }

  function Split(bs: seq<Block>, i: nat, need: nat): seq<Block>
    requires i < |bs| && need <= bs[i].size
  {
    var b := bs[i];
    bs[..i] + [Block(b.start, need, b.used), Block(b.start + need, b.size - need, false)] + bs[i + 1..]
  }

  /** Size of the last block if it is free, as the growth computation counts it. */
  function FreeTail(bs: seq<Block>): nat
    requires bs != []
  {
    if bs[|bs| - 1].used then 0 else bs[|bs| - 1].size
  }

  /** The missing bytes in pages, rounded up; the sum is taken modulo 2^32. */
  function PagesNeeded(bs: seq<Block>, need: nat): nat
    requires bs != [] && FreeTail(bs) <= need
  {
    (4 * (need - FreeTail(bs)) + 0x1000 - 1) % U32 / 0x1000
  }

  /** The most words by which a block can fall short before that sum wraps: 2^32 - 2^12 bytes. */
  const MAX_GROWTH: nat := 0x3FFF_FC00

  /** Some block suits, or the last one does not fall short by too much. */
  predicate Growable(bs: seq<Block>, need: nat)
    requires bs != []
  {
    FirstFit(bs, need).Some? || need - FreeTail(bs) <= MAX_GROWTH
  }

  /** The pages cover what is missing exactly when their number does not wrap. */
  lemma PageCountIsSafe(bs: seq<Block>, need: nat)
    requires bs != [] && FreeTail(bs) <= need && 4 * need < U32
    ensures FreeTail(bs) + PagesNeeded(bs, need) * PAGE_WORDS >= need <==> need - FreeTail(bs) <= MAX_GROWTH
    ensures need - FreeTail(bs) <= MAX_GROWTH ==>
      PagesNeeded(bs, need) == (need - FreeTail(bs) + PAGE_WORDS - 1) / PAGE_WORDS
    ensures need - FreeTail(bs) > MAX_GROWTH ==> PagesNeeded(bs, need) == 0
  {
    var bytes := 4 * (need - FreeTail(bs)) + 0x1000 - 1;
    if need - FreeTail(bs) <= MAX_GROWTH {
      assert bytes % U32 == bytes;
    } else {
      assert bytes % U32 == bytes - U32;
    }
  }

  /** `pages` more pages: a new free block after a used last block, else a longer last block. */
  function Grow(bs: seq<Block>, pages: nat): seq<Block>
    requires bs != []
  {
    var b := bs[|bs| - 1];
    if pages == 0 then bs
    else if b.used then bs + [Block(EndOf(b), pages * PAGE_WORDS, false)]
    else bs[|bs| - 1 := b.(size := b.size + pages * PAGE_WORDS)]
  }

  lemma GrowAgain(bs: seq<Block>, pages: nat)
    requires bs != []
    ensures Grow(Grow(bs, pages), 1) == Grow(bs, pages + 1)
  {
  }

  datatype Allocation = Allocation(blocks: seq<Block>, index: nat, pages: nat)

  function Malloc(bs: seq<Block>, need: nat): Allocation
    requires bs != []
  {
    match FirstFit(bs, need)
    case Some(i) =>
      if need >= bs[i].size - MIN_BLOCK then Allocation(Mark(bs, i, true), i, 0)
      else Allocation(Mark(Split(bs, i, need), i, true), i, 0)
    case None =>
      assert FreeTail(bs) <= need;
      var pages := PagesNeeded(bs, need);
      var gs := Grow(bs, pages);
      Allocation(TakeEnd(gs, need), |gs| - 1, pages)
  }

  /** The last block is taken, and split first when enough is left over. */
  function TakeEnd(gs: seq<Block>, need: nat): seq<Block>
    requires gs != []
  {
    var i := |gs| - 1;
    if need + MIN_BLOCK <= gs[i].size then Mark(Split(gs, i, need), i, true) else Mark(gs, i, true)
  }

  /** What an allocation does when no block suits. */
  lemma GrownShape(bs: seq<Block>, need: nat)
    requires bs != [] && FirstFit(bs, need).None?
    ensures FreeTail(bs) <= need
    ensures var a, gs := Malloc(bs, need), Grow(bs, PagesNeeded(bs, need));
      a == Allocation(TakeEnd(gs, need), |gs| - 1, PagesNeeded(bs, need))
  {
    hide PagesNeeded, Grow, TakeEnd;
  }

  // ----- what they keep

  lemma MarkTiles(bs: seq<Block>, end: nat, i: nat, used: bool)
    requires Tiles(bs, end) && i < |bs|
    ensures Tiles(Mark(bs, i, used), end)
  {
  }

  lemma SplitTiles(bs: seq<Block>, end: nat, i: nat, need: nat)
    requires Tiles(bs, end) && i < |bs| && MIN_BLOCK <= need && need + MIN_BLOCK <= bs[i].size
    ensures Tiles(Split(bs, i, need), end)
  {
    var cs := Split(bs, i, need);
    forall j | 0 <= j < |cs| ensures cs[j].size >= MIN_BLOCK && (j < |cs| - 1 ==> cs[j + 1].start == EndOf(cs[j])) {
      if j < i {
        assert cs[j] == bs[j];
      } else if j > i + 1 {
        assert cs[j] == bs[j - 1];
      }
    }
  }

  lemma GrowTiles(bs: seq<Block>, end: nat, pages: nat)
    requires Tiles(bs, end)
    ensures Tiles(Grow(bs, pages), end + pages * PAGE_WORDS)
    ensures FreeTail(Grow(bs, pages)) == FreeTail(bs) + pages * PAGE_WORDS
  {
  }

  /** Tiling survives an allocation, which moves the end by the pages it mapped. */
  lemma MallocTiles(bs: seq<Block>, end: nat, need: nat)
    requires Tiles(bs, end) && need >= MIN_BLOCK
    ensures var a := Malloc(bs, need); Tiles(a.blocks, end + a.pages * PAGE_WORDS)
  {
    match FirstFit(bs, need)
    case Some(i) => FoundTiles(bs, end, need, i);
    case None => GrownTiles(bs, end, need);
  }

  lemma FoundTiles(bs: seq<Block>, end: nat, need: nat, i: nat)
    requires Tiles(bs, end) && need >= MIN_BLOCK && FirstFit(bs, need) == Some(i)
    ensures Tiles(Malloc(bs, need).blocks, end)
  {
    if need < bs[i].size - MIN_BLOCK {
      SplitTiles(bs, end, i, need);
      MarkTiles(Split(bs, i, need), end, i, true);
    } else {
      MarkTiles(bs, end, i, true);
    }
  }

  lemma GrownTiles(bs: seq<Block>, end: nat, need: nat)
    requires Tiles(bs, end) && need >= MIN_BLOCK && FirstFit(bs, need) == None
    ensures var a := Malloc(bs, need); Tiles(a.blocks, end + a.pages * PAGE_WORDS)
  {
    hide PagesNeeded;
    var pages := PagesNeeded(bs, need);
    var gs, end' := Grow(bs, pages), end + pages * PAGE_WORDS;
    var i := |gs| - 1;
    GrowTiles(bs, end, pages);
    if need + MIN_BLOCK <= gs[i].size {
      SplitTiles(gs, end', i, need);
      MarkTiles(Split(gs, i, need), end', i, true);
    } else {
      MarkTiles(gs, end', i, true);
    }
  }

  /** The block handed out: big enough, at most two words (8 bytes) too big, free before or
      new, and the lowest that suits when one does. */
  lemma MallocFits(bs: seq<Block>, end: nat, need: nat)
    requires Tiles(bs, end) && MIN_BLOCK <= need < U32 / 4 && Growable(bs, need)
    ensures var a := Malloc(bs, need);
      && a.index < |a.blocks| && a.blocks[a.index].used
      && need <= a.blocks[a.index].size <= need + MIN_BLOCK
      && (a.index < |bs| ==> !bs[a.index].used && a.blocks[a.index].start == bs[a.index].start)
      && (a.index == |bs| ==> a.blocks[a.index].start == end)
      && a.index <= |bs|
    ensures (exists j :: 0 <= j < |bs| && Suits(bs[j], need)) ==>
      var a := Malloc(bs, need);
      a.pages == 0 && a.index < |bs| && Suits(bs[a.index], need) && forall j :: 0 <= j < a.index ==> !Suits(bs[j], need)
  {
    match FirstFit(bs, need)
    case Some(i) =>
    case None =>
      PageCountIsSafe(bs, need);
      GrowTiles(bs, end, PagesNeeded(bs, need));
  }

  /** The block handed out is large enough and was free exactly when the growth does not wrap. */
  lemma MallocServes(bs: seq<Block>, end: nat, need: nat)
    requires Tiles(bs, end) && MIN_BLOCK <= need < U32 / 4
    ensures var a := Malloc(bs, need);
      && a.index < |a.blocks|
      && (a.blocks[a.index].size >= need && (a.index < |bs| ==> !bs[a.index].used) <==> Growable(bs, need))
  {
    if Growable(bs, need) {
      MallocFits(bs, end, need);
    } else {
      PageCountIsSafe(bs, need);
    }
  }

  /** A free block of exactly the requested size is handed out only as the last block, when no
      larger block is free. */
  lemma ExactFit(bs: seq<Block>, end: nat, need: nat, i: nat)
    requires Tiles(bs, end) && need >= MIN_BLOCK && i < |bs| && !bs[i].used && bs[i].size == need
    ensures Malloc(bs, need).index == i <==> i == |bs| - 1 && FirstFit(bs, need).None?
  {
  }

  /** An exact block that is passed over for a larger one further up. */
  lemma ExactPassedOver()
    ensures var bs := [Block(0, 2, true), Block(2, 4, false), Block(6, 10, false)];
      Tiles(bs, 16) && !bs[1].used && bs[1].size == 4 && Malloc(bs, 4).index == 2
  {
    var bs := [Block(0, 2, true), Block(2, 4, false), Block(6, 10, false)];
    assert Suits(bs[2], 4) && !Suits(bs[1], 4) && !Suits(bs[0], 4);
    assert FirstFit(bs, 4) == Some(2);
  }

  /** Without a suitable block the heap grows by the least number of pages that makes the
      last block large enough, which is none when it fits exactly. */
  lemma GrowthIsMinimal(bs: seq<Block>, end: nat, need: nat, fewer: nat)
    requires Tiles(bs, end) && need < U32 / 4 && FirstFit(bs, need).None? && Growable(bs, need)
    ensures FreeTail(Grow(bs, Malloc(bs, need).pages)) >= need
    ensures fewer < Malloc(bs, need).pages ==> FreeTail(Grow(bs, fewer)) < need
    ensures Malloc(bs, need).pages == 0 <==> FreeTail(bs) == need
  {
    PageCountIsSafe(bs, need);
    GrowTiles(bs, end, Malloc(bs, need).pages);
    GrowTiles(bs, end, fewer);
  }

  /** Every used block is still there, unchanged, and every old boundary is still a boundary. */
  lemma MallocKeeps(bs: seq<Block>, end: nat, need: nat, i: nat)
    requires Tiles(bs, end) && MIN_BLOCK <= need < U32 / 4 && Growable(bs, need) && i < |bs|
    ensures var a := Malloc(bs, need);
      exists j ::
        && 0 <= j < |a.blocks| && a.blocks[j].start == bs[i].start
        && (bs[i].used ==> a.blocks[j] == bs[i] && j != a.index)
  {
    var a := Malloc(bs, need);
    MallocFits(bs, end, need);
    if i <= a.index {
      assert a.blocks[i].start == bs[i].start;
    } else if |a.blocks| == |bs| {
      assert a.blocks[i] == bs[i];
    } else {
      assert a.blocks[i + 1] == bs[i];
    }
  }

  lemma {:induction false} StartsGrow(bs: seq<Block>, end: nat, i: nat, j: nat)
    requires Tiles(bs, end) && i < j < |bs|
    ensures EndOf(bs[i]) <= bs[j].start
    decreases j - i
  {
    if i + 1 < j {
      StartsGrow(bs, end, i, j - 1);
    }
  }

  lemma BelowEnd(bs: seq<Block>, end: nat)
    requires Tiles(bs, end)
    ensures forall i :: 0 <= i < |bs| ==> EndOf(bs[i]) <= end
  {
    forall i | 0 <= i < |bs| ensures EndOf(bs[i]) <= end {
      if i < |bs| - 1 {
        StartsGrow(bs, end, i, |bs| - 1);
      }
    }
  }

  /** The words a client may use in block `b`. */
  predicate InPayload(b: Block, k: nat) {
    b.start < k < EndOf(b)
  }

  lemma GrowKeepsHeaders(bs: seq<Block>, pages: nat)
    requires bs != []
    ensures Grow(bs, pages) != []
    ensures forall k :: IsHeader(bs, k) ==> IsHeader(Grow(bs, pages), k)
  {
    forall k | IsHeader(bs, k) ensures IsHeader(Grow(bs, pages), k) {
      var j :| 0 <= j < |bs| && bs[j].start == k;
      assert Grow(bs, pages)[j].start == k;
    }
  }

  predicate IsHeader(bs: seq<Block>, k: nat) {
    exists i :: 0 <= i < |bs| && bs[i].start == k
  }

  /** Payloads are disjoint and contain no header. */
  lemma PayloadsDisjoint(bs: seq<Block>, end: nat, i: nat, k: nat)
    requires Tiles(bs, end) && i < |bs| && InPayload(bs[i], k)
    ensures !IsHeader(bs, k) && k < end
    ensures forall j :: 0 <= j < |bs| && j != i ==> !InPayload(bs[j], k)
  {
    forall j | 0 <= j < |bs| && j != i ensures bs[j].start != k && !InPayload(bs[j], k) {
      StartsGrow(bs, end, if i < j then i else j, if i < j then j else i);
    }
    if i < |bs| - 1 {
      StartsGrow(bs, end, i, |bs| - 1);
    }
  }

  // ----- whole runs of kmalloc and kfree

  /** `live` maps the header of each block in client hands to the bytes that were asked for. */
  datatype HeapState = HeapState(blocks: seq<Block>, end: nat, live: map<nat, nat>)

  /** `Store` is a client writing a word of its payload. */
  datatype HeapOp = Alloc(size: nat) | Free(start: nat) | Store(at: nat)

  function IndexOf(bs: seq<Block>, start: nat): (i: nat)
    requires IsHeader(bs, start)
    ensures i < |bs| && bs[i].start == start
  {
    if bs[0].start == start then 0 else 1 + IndexOf(bs[1..], start)
  }

  /** Neither the rounding of a request nor the page count wraps; only a live block is freed;
      clients write into their own payloads. */
  predicate Legal(h: HeapState, op: HeapOp)
    requires h.blocks != []
  {
    match op
    case Alloc(size) => size <= U32 - 8 && (size > 0 ==> Growable(h.blocks, Need(size)))
    case Free(start) => start in h.live && IsHeader(h.blocks, start)
    case Store(at) => exists i :: 0 <= i < |h.blocks| && h.blocks[i].start in h.live && InPayload(h.blocks[i], at)
  }

  function HeapStep(h: HeapState, op: HeapOp): HeapState
    requires h.blocks != [] && Legal(h, op)
  {
    match op
    case Alloc(size) =>
      if size == 0 then h else
      var a := Malloc(h.blocks, Need(size));
      HeapState(a.blocks, h.end + a.pages * PAGE_WORDS,
                if a.index < |a.blocks| then h.live[a.blocks[a.index].start := size] else h.live)
    case Free(start) => h.(blocks := Mark(h.blocks, IndexOf(h.blocks, start), false), live := h.live - {start})
    case Store(_) => h
  }

  /** Block `i` belongs to a client and is as large as the client asked. */
  predicate Serves(h: HeapState, i: int, p: nat) {
    && 0 <= i < |h.blocks| && p in h.live
    && h.blocks[i].start == p && h.blocks[i].used && 4 * (h.blocks[i].size - HEADER) >= h.live[p]
  }

  /** Used blocks are exactly the live ones and the boot block at position 0. */
  ghost predicate HeapInv(h: HeapState) {
    && Tiles(h.blocks, h.end) && h.blocks[0].used && 0 !in h.live
    && (forall p :: p in h.live ==> exists i :: Serves(h, i, p))
    && (forall i :: 0 < i < |h.blocks| && h.blocks[i].used ==> h.blocks[i].start in h.live)
  }

  lemma SameStartSameBlock(bs: seq<Block>, end: nat, i: nat, j: nat)
    requires Tiles(bs, end) && i < |bs| && j < |bs| && bs[i].start == bs[j].start
    ensures i == j
  {
    if i < j {
      StartsGrow(bs, end, i, j);
    } else if j < i {
      StartsGrow(bs, end, j, i);
    }
  }

  lemma AllocKeepsInv(h: HeapState, size: nat)
    requires HeapInv(h) && size > 0 && Legal(h, Alloc(size))
    ensures HeapInv(HeapStep(h, Alloc(size)))
    ensures var a := Malloc(h.blocks, Need(size));
      a.index < |a.blocks| && a.blocks[a.index].start !in h.live && a.blocks[a.index].start != 0
  {
    hide Malloc, Need, RoundedBytes;
    var need := Need(size);
    var a := Malloc(h.blocks, need);
    var h' := HeapStep(h, Alloc(size));
    RoundingIsSafe(size);
    MallocTiles(h.blocks, h.end, need);
    MallocFits(h.blocks, h.end, need);
    var p := a.blocks[a.index].start;
    AllocIsNew(h, need);
    assert Serves(h', a.index, p);
    forall q | q in h.live ensures exists j :: Serves(h', j, q) {
      var i :| Serves(h, i, q);
      MallocKeeps(h.blocks, h.end, need, i);
      var j :| 0 <= j < |a.blocks| && a.blocks[j] == h.blocks[i];
      assert Serves(h', j, q);
    }
    MallocUsed(h.blocks, h.end, need);
  }

  /** The position handed out was not in use: the block was free, or lies beyond the old end. */
  lemma AllocIsNew(h: HeapState, need: nat)
    requires HeapInv(h) && MIN_BLOCK <= need < U32 / 4 && Growable(h.blocks, need)
    ensures var a := Malloc(h.blocks, need);
      && 0 < a.index < |a.blocks| && a.blocks[a.index].start !in h.live && a.blocks[a.index].start != 0
  {
    hide Malloc;
    var a := Malloc(h.blocks, need);
    MallocFits(h.blocks, h.end, need);
    MallocTiles(h.blocks, h.end, need);
    MallocUsed(h.blocks, h.end, need);
    var p := a.blocks[a.index].start;
    StartsGrow(a.blocks, h.end + a.pages * PAGE_WORDS, 0, a.index);
    if p in h.live {
      var i :| Serves(h, i, p);
      if a.index < |h.blocks| {
        SameStartSameBlock(h.blocks, h.end, i, a.index);
      } else if i < |h.blocks| - 1 {
        StartsGrow(h.blocks, h.end, i, |h.blocks| - 1);
      }
    }
  }

  /** No block becomes used except the one handed out. */
  lemma MallocUsed(bs: seq<Block>, end: nat, need: nat)
    requires Tiles(bs, end) && MIN_BLOCK <= need < U32 / 4 && Growable(bs, need)
    ensures var a := Malloc(bs, need);
      && a.blocks[0].start == bs[0].start && (bs[0].used ==> a.blocks[0].used)
      && forall j :: 0 <= j < |a.blocks| && j != a.index && a.blocks[j].used ==>
           exists i :: 0 <= i < |bs| && bs[i] == a.blocks[j] && (j > 0 ==> i > 0)
  {
    var a := Malloc(bs, need);
    MallocFits(bs, end, need);
    forall j | 0 <= j < |a.blocks| && j != a.index && a.blocks[j].used
      ensures exists i :: 0 <= i < |bs| && bs[i] == a.blocks[j] && (j > 0 ==> i > 0)
    {
      if j < a.index || |a.blocks| == |bs| {
        assert bs[j] == a.blocks[j];
      } else {
        assert j > a.index + 1;
        assert bs[j - 1] == a.blocks[j];
      }
    }
  }

  lemma FreeKeepsInv(h: HeapState, start: nat)
    requires HeapInv(h) && Legal(h, Free(start))
    ensures HeapInv(HeapStep(h, Free(start)))
  {
    var k := IndexOf(h.blocks, start);
    var h' := HeapStep(h, Free(start));
    MarkTiles(h.blocks, h.end, k, false);
    forall q | q in h'.live ensures exists j :: Serves(h', j, q) {
      var i :| Serves(h, i, q);
      assert Serves(h', i, q);
    }
    forall i | 0 < i < |h'.blocks| && h'.blocks[i].used ensures h'.blocks[i].start in h'.live {
      if h.blocks[i].start == start {
        SameStartSameBlock(h.blocks, h.end, i, k);
      }
    }
  }

  /** The first 2 MB, in words. */
  const INITIAL_WORDS: nat := 0x8_0000

  /** After `init`: the boot information in use, the rest free, nothing handed out. */
  function InitState(b: nat): HeapState
    requires b <= INITIAL_WORDS
  {
    HeapState([Block(0, b, true), Block(b, INITIAL_WORDS - b, false)], INITIAL_WORDS, map[])
  }

  predicate AfterInit(h: HeapState) {
    |h.blocks| == 2 && MIN_BLOCK <= h.blocks[0].size <= INITIAL_WORDS - MIN_BLOCK && h == InitState(h.blocks[0].size)
  }

  lemma InitInv(h: HeapState)
    requires AfterInit(h)
    ensures HeapInv(h)
  {
  }

  /** Past the bound of `Growable` the heap does not grow and its last block is handed out
      whatever it is. Two requests after `init` suffice: the first takes the rest of the heap
      exactly, the second is given that block again. The source asserts that this does not happen. */
  lemma WrappedGrowth(h: HeapState)
    requires AfterInit(h)
    ensures var rest := 4 * (h.blocks[1].size - HEADER);
      && Legal(h, Alloc(rest))
      && var h' := HeapStep(h, Alloc(rest));
         && h'.live == map[h.blocks[1].start := rest]
         && var a := Malloc(h'.blocks, Need(U32 - 8));
            && !Growable(h'.blocks, Need(U32 - 8)) && a.pages == 0
            && a.index < |a.blocks| && a.blocks[a.index].start in h'.live
  {
    var rest := 4 * (h.blocks[1].size - HEADER);
    RoundingIsSafe(rest);
    PageCountIsSafe(h.blocks, Need(rest));
    var h' := HeapStep(h, Alloc(rest));
    assert h'.blocks == [h.blocks[0], h.blocks[1].(used := true)];
    RoundingIsSafe(U32 - 8);
    PageCountIsSafe(h'.blocks, Need(U32 - 8));
  }

  ghost predicate IsHeapRun(hs: seq<HeapState>, ops: seq<HeapOp>) {
    && |hs| == |ops| + 1 && AfterInit(hs[0])
    && forall i :: 0 <= i < |ops| ==>
         hs[i].blocks != [] && Legal(hs[i], ops[i]) && hs[i + 1] == HeapStep(hs[i], ops[i])
  }

  lemma {:induction false} HeapRunInv(hs: seq<HeapState>, ops: seq<HeapOp>, n: nat)
    requires IsHeapRun(hs, ops) && n < |hs|
    ensures HeapInv(hs[n])
  {
    if n == 0 {
      InitInv(hs[0]);
    } else {
      HeapRunInv(hs, ops, n - 1);
      match ops[n - 1]
      case Alloc(size) =>
        if size > 0 {
          AllocKeepsInv(hs[n - 1], size);
        }
      case Free(start) => FreeKeepsInv(hs[n - 1], start);
      case Store(_) =>
    }
  }

  /** A header position stays a header position for ever. */
  lemma {:induction false} BoundariesStay(hs: seq<HeapState>, ops: seq<HeapOp>, m: nat, n: nat, k: nat)
    requires IsHeapRun(hs, ops) && m <= n < |hs| && IsHeader(hs[m].blocks, k)
    ensures IsHeader(hs[n].blocks, k)
    decreases n - m
  {
    hide HeapInv, Malloc, Need;
    if m < n {
      BoundariesStay(hs, ops, m, n - 1, k);
      HeapRunInv(hs, ops, n - 1);
      var h := hs[n - 1];
      BoundaryStays(h, ops[n - 1], k);
    }
  }

  lemma BoundaryStays(h: HeapState, op: HeapOp, k: nat)
    requires HeapInv(h) && Legal(h, op) && IsHeader(h.blocks, k)
    ensures IsHeader(HeapStep(h, op).blocks, k)
  {
    hide Malloc, Need;
    var i :| 0 <= i < |h.blocks| && h.blocks[i].start == k;
    match op
    case Alloc(size) =>
      if size > 0 {
        RoundingIsSafe(size);
        MallocKeeps(h.blocks, h.end, Need(size), i);
      }
    case Free(start) =>
      assert HeapStep(h, op).blocks[i].start == k;
    case Store(_) =>
  }

  // ----- memory over a run

  /** What a step may do to memory: the heap writes words that are headers afterwards, a client
      the one word it stores. */
  ghost predicate MemoryStep(h': HeapState, op: HeapOp, m: seq<int>, m': seq<int>) {
    && |m'| == |m|
    && forall k :: 0 <= k < |m| && (if op.Store? then k != op.at else !IsHeader(h'.blocks, k)) ==> m'[k] == m[k]
  }

  ghost predicate IsMemoryRun(hs: seq<HeapState>, ops: seq<HeapOp>, mems: seq<seq<int>>) {
    && IsHeapRun(hs, ops) && |mems| == |hs|
    && forall i :: 0 <= i < |ops| ==> MemoryStep(hs[i + 1], ops[i], mems[i], mems[i + 1])
  }

  /** While a block stays in client hands it is the same block, and a word of its payload keeps
      its value until the client stores another one, whatever the heap does meanwhile. */
  lemma {:induction false} LivePayloadUntouched(hs: seq<HeapState>, ops: seq<HeapOp>, mems: seq<seq<int>>,
                                                m: nat, n: nat, p: nat, b: Block, k: nat)
    requires IsMemoryRun(hs, ops, mems) && m <= n < |hs| && k < |mems[m]|
    requires forall j :: m <= j <= n ==> p in hs[j].live
    requires forall j :: m <= j < n ==> ops[j] != Store(k)
    requires b in hs[m].blocks && b.start == p && InPayload(b, k)
    ensures b in hs[n].blocks && b.used && !IsHeader(hs[n].blocks, k)
    ensures |mems[n]| == |mems[m]| && mems[n][k] == mems[m][k]
    decreases n - m
  {
    hide HeapInv, HeapStep, Legal, IsHeader;
    HeapRunInv(hs, ops, n);
    if m < n {
      LivePayloadUntouched(hs, ops, mems, m, n - 1, p, b, k);
      HeapRunInv(hs, ops, n - 1);
      assert hs[n] == HeapStep(hs[n - 1], ops[n - 1]) && MemoryStep(hs[n], ops[n - 1], mems[n - 1], mems[n]);
      assert p in hs[n].live && ops[n - 1] != Store(k);
      LiveBlockStays(hs[n - 1], ops[n - 1], b);
    } else {
      LiveBlockUsed(hs[m], b);
    }
    LivePayloadNoHeader(hs[n], b, k);
  }

  lemma LivePayloadNoHeader(h: HeapState, b: Block, k: nat)
    requires HeapInv(h) && b in h.blocks && InPayload(b, k)
    ensures !IsHeader(h.blocks, k)
  {
    var i :| 0 <= i < |h.blocks| && h.blocks[i] == b;
    PayloadsDisjoint(h.blocks, h.end, i, k);
  }

  lemma LiveBlockUsed(h: HeapState, b: Block)
    requires HeapInv(h) && b in h.blocks && b.start in h.live
    ensures b.used
  {
    var i :| Serves(h, i, b.start);
    var j :| 0 <= j < |h.blocks| && h.blocks[j] == b;
    SameStartSameBlock(h.blocks, h.end, i, j);
  }

  lemma LiveBlockStays(h: HeapState, op: HeapOp, b: Block)
    requires HeapInv(h) && Legal(h, op) && b in h.blocks && b.used && b.start in HeapStep(h, op).live
    ensures b in HeapStep(h, op).blocks
  {
    hide Malloc, Need;
    var i :| 0 <= i < |h.blocks| && h.blocks[i] == b;
    match op
    case Alloc(size) =>
      if size > 0 {
        RoundingIsSafe(size);
        MallocKeeps(h.blocks, h.end, Need(size), i);
      }
    case Free(start) =>
      assert HeapStep(h, op).blocks[i] == b;
    case Store(_) =>
  }

  /** At any time, two different live blocks have disjoint payloads, each as large as asked. */
  lemma LivePayloadsDisjoint(hs: seq<HeapState>, ops: seq<HeapOp>, n: nat, p: nat, q: nat)
    requires IsHeapRun(hs, ops) && n < |hs| && p in hs[n].live && q in hs[n].live && p != q
    ensures exists i, j :: Serves(hs[n], i, p) && Serves(hs[n], j, q)
              && forall k :: !(InPayload(hs[n].blocks[i], k) && InPayload(hs[n].blocks[j], k))
  {
    HeapRunInv(hs, ops, n);
    hide IsHeapRun;
    ServedApart(hs[n], p, q);
  }

  lemma ServedApart(h: HeapState, p: nat, q: nat)
    requires HeapInv(h) && p in h.live && q in h.live && p != q
    ensures exists i, j :: Serves(h, i, p) && Serves(h, j, q)
              && forall k :: !(InPayload(h.blocks[i], k) && InPayload(h.blocks[j], k))
  {
    var i :| Serves(h, i, p);
    var j :| Serves(h, j, q);
    forall k | InPayload(h.blocks[i], k) ensures !InPayload(h.blocks[j], k) {
      PayloadsDisjoint(h.blocks, h.end, i, k);
    }
  }
}
