/** The page heap that page tables live in (source/PageHeap.cpp, instance of 2-page blocks with
    a pool of 16 and 32 static pages). Mapping a new block may need a page table, which comes
    from this very heap: the allocator re-enters itself and draws on its pool. */
module PageHeaps {
  import opened FrameMemory

  const BLOCK_SIZE: nat := 2
  const POOL_SIZE: nat := 16
  const STATIC_SIZE: nat := 32
  const TABLE_PAGES: nat := 512
  const REGION_TABLES: nat := 64         // 128 MB between this heap and the next one
  const REGION_BLOCKS: nat := 16384

  /** A block with the physical page that was recorded for it. */
  datatype Block = Block(index: nat, phys: nat)

  function PoolIndices(pool: seq<Block>): set<nat> {
    set i | 0 <= i < |pool| :: pool[i].index
  }

  /** The page table of the heap region that maps a block: both its pages are in the same one. */
  function TableOf(index: nat): nat {
    index * BLOCK_SIZE / TABLE_PAGES
  }

  lemma OneTablePerBlock(index: nat)
    ensures TableOf(index) == index / 256 == (index * BLOCK_SIZE) / TABLE_PAGES ==
      (index * BLOCK_SIZE + 1) / TABLE_PAGES
    ensures index < REGION_BLOCKS ==> TableOf(index) < REGION_TABLES
  {
  }

  /** The marked blocks are the live ones, the pooled ones and those in between. */
  ghost predicate Partition(marked: set<nat>, pool: seq<Block>, live: map<nat, nat>, limbo: set<nat>) {
    && marked == live.Keys + PoolIndices(pool) + limbo
    && live.Keys !! PoolIndices(pool) && limbo !! live.Keys && limbo !! PoolIndices(pool)
    && forall i, j :: 0 <= i < j < |pool| ==> pool[i].index != pool[j].index
  }

  /** What was recorded is what the kernel directory translates the first page to. */
  predicate Recorded(pool: seq<Block>, live: map<nat, nat>, frames: map<nat, nat>) {
    && (forall i :: 0 <= i < |pool| ==> AtPage(frames, pool[i].index, pool[i].phys))
    && (forall b :: b in live ==> AtPage(frames, b, live[b]))
  }

  predicate AtPage(frames: map<nat, nat>, index: nat, phys: nat) {
    index * BLOCK_SIZE in frames && frames[index * BLOCK_SIZE] == phys
  }

  /** The mapped pages are the static ones, those of the settled blocks, and `extra`. */
  ghost predicate Pages(frames: map<nat, nat>, settled: set<nat>, extra: set<nat>) {
    forall p: nat :: p in frames <==> p < STATIC_SIZE || p / BLOCK_SIZE in settled || p in extra
  }

  /** Every mapped page has its page table, which is in the region. */
  ghost predicate Tabled(frames: map<nat, nat>, tables: set<nat>) {
    && (forall p: nat :: p in frames ==> p / TABLE_PAGES in tables)
    && 0 in tables && forall t :: t in tables ==> t < REGION_TABLES
  }

  /** The frames are distinct and in use; the static pages are where boot put them. */
  ghost predicate Framed(frames: map<nat, nat>, used: set<nat>, start: nat) {
    && (forall p :: p in frames ==> frames[p] in used)
    && (forall p, q :: p in frames && q in frames && p != q ==> frames[p] != frames[q])
    && (forall p: nat :: p < STATIC_SIZE ==> p in frames && frames[p] == start + p)
  }

  /** The first `n` pages of a block. */
  function FirstPages(index: nat, n: nat): set<nat> {
    if n == 0 then {} else FirstPages(index, n - 1) + {index * BLOCK_SIZE + n - 1}
  }

  function PagesOf(index: nat): set<nat> {
    FirstPages(index, BLOCK_SIZE)
  }

  lemma PagesOfIs(index: nat)
    ensures forall p: nat :: p in PagesOf(index) <==> p / BLOCK_SIZE == index
  {
    assert FirstPages(index, 0) == {};
    assert FirstPages(index, 1) == {index * BLOCK_SIZE};
    assert FirstPages(index, 2) == {index * BLOCK_SIZE, index * BLOCK_SIZE + 1};
  }

  /** The heap as a value; `live` are the blocks handed out, with the page recorded for them,
      `frames` and `tables` its part of the kernel directory. */
  datatype Heap = Heap(marked: set<nat>, pool: seq<Block>, live: map<nat, nat>,
                       frames: map<nat, nat>, tables: set<nat>, used: set<nat>, start: nat)

  /** The blocks that have an owner. */
  function Settled(h: Heap): set<nat> {
    h.live.Keys + PoolIndices(h.pool)
  }

  /** Everything about the heap, with the blocks of `limbo` in between and some more pages
      mapped. */
  ghost predicate Whole(h: Heap, limbo: set<nat>, extra: set<nat>) {
    && Partition(h.marked, h.pool, h.live, limbo) && Recorded(h.pool, h.live, h.frames)
    && Pages(h.frames, Settled(h), extra) && Tabled(h.frames, h.tables) && Framed(h.frames, h.used, h.start)
  }

  // ----- blocks change hands

  lemma PoolSplit(pool: seq<Block>, n: nat)
    requires n + 1 == |pool|
    ensures PoolIndices(pool) == PoolIndices(pool[..n]) + {pool[n].index}
  {
    forall x | x in PoolIndices(pool[..n]) + {pool[n].index} ensures x in PoolIndices(pool) {
      if x in PoolIndices(pool[..n]) {
        var i :| 0 <= i < n && pool[..n][i].index == x;
        assert pool[i].index == x;
      }
    }
  }

  /** The last block of the pool is taken out. */
  lemma PopPool(h: Heap, limbo: set<nat>, extra: set<nat>)
    requires h.pool != [] && Whole(h, limbo, extra)
    ensures var n := |h.pool| - 1; var b := h.pool[n];
      && Whole(h.(pool := h.pool[..n]), limbo + {b.index}, extra + PagesOf(b.index))
      && AtPage(h.frames, b.index, b.phys) && b.index !in limbo
  {
    hide Tabled, Framed, PagesOf;
    var pool, n := h.pool, |h.pool| - 1;
    PagesOfIs(pool[n].index);
    PoolSplit(pool, n);
    assert pool[n].index !in PoolIndices(pool[..n]);
  }

  /** A block in between is handed out. */
  lemma HandOut(h: Heap, limbo: set<nat>, extra: set<nat>, b: Block)
    requires b.index !in limbo && Whole(h, limbo + {b.index}, extra + PagesOf(b.index))
    requires AtPage(h.frames, b.index, b.phys)
    ensures Whole(h.(live := h.live[b.index := b.phys]), limbo, extra)
  {
    hide Tabled, Framed, PagesOf;
    PagesOfIs(b.index);
  }

  /** A block in between goes into the pool. */
  lemma PushPool(h: Heap, b: Block)
    requires Whole(h, {b.index}, PagesOf(b.index)) && AtPage(h.frames, b.index, b.phys)
    ensures Whole(h.(pool := h.pool + [b]), {}, {})
  {
    hide Tabled, Framed, PagesOf;
    var pool, pool' := h.pool, h.pool + [b];
    PagesOfIs(b.index);
    PoolSplit(pool', |pool|);
    assert pool'[..|pool|] == pool;
    forall i | 0 <= i < |pool| ensures pool[i].index != b.index {
      assert pool[i].index in PoolIndices(pool);
    }
  }

  /** A block handed out comes back; if it is static its pages stay. */
  lemma TakeBack(h: Heap, index: nat)
    requires Whole(h, {}, {}) && index in h.live
    ensures Whole(h.(live := h.live - {index}), {index},
                  if index * BLOCK_SIZE < STATIC_SIZE then {} else PagesOf(index))
    ensures forall p: nat :: p / BLOCK_SIZE == index ==> p in h.frames
  {
    hide Tabled, Framed, PoolIndices, PagesOf, Pages, Recorded;
    Withdrawn(h.marked, h.pool, h.live, index);
    StillRecorded(h.pool, h.live, h.frames, index);
    PagesWithout(h.frames, Settled(h), index);
  }

  lemma Withdrawn(marked: set<nat>, pool: seq<Block>, live: map<nat, nat>, index: nat)
    requires Partition(marked, pool, live, {}) && index in live
    ensures Partition(marked, pool, live - {index}, {index})
    ensures (live - {index}).Keys + PoolIndices(pool) == live.Keys + PoolIndices(pool) - {index}
  {
    hide PoolIndices;
    assert (live - {index}).Keys == live.Keys - {index};
  }

  lemma StillRecorded(pool: seq<Block>, live: map<nat, nat>, frames: map<nat, nat>, index: nat)
    requires Recorded(pool, live, frames)
    ensures Recorded(pool, live - {index}, frames)
  {
  }

  lemma PagesWithout(frames: map<nat, nat>, settled: set<nat>, index: nat)
    requires Pages(frames, settled, {}) && index in settled
    ensures Pages(frames, settled - {index}, if index * BLOCK_SIZE < STATIC_SIZE then {} else PagesOf(index))
    ensures forall p: nat :: p / BLOCK_SIZE == index ==> p in frames
  {
    hide PagesOf;
    PagesOfIs(index);
  }

  /** A free block is marked. */
  lemma Mark(h: Heap, index: nat)
    requires Whole(h, {}, {}) && index !in h.marked
    ensures Whole(h.(marked := h.marked + {index}), {index}, {})
  {
    hide Recorded, Pages, Tabled, Framed, PoolIndices;
  }

  lemma Unmark(h: Heap, index: nat)
    requires Whole(h, {index}, {})
    ensures Whole(h.(marked := h.marked - {index}), {}, {}) && index in h.marked
  {
    hide Recorded, Pages, Tabled, Framed, PoolIndices;
  }

  // ----- pages are mapped

  lemma MapOnePage(h: Heap, limbo: set<nat>, extra: set<nat>, page: nat, frame: nat)
    requires Whole(h, limbo, extra) && page !in h.frames && frame !in h.used && page / TABLE_PAGES < REGION_TABLES
    ensures var h' := h.(frames := h.frames[page := frame], tables := h.tables + {page / TABLE_PAGES},
                           used := h.used + {frame});
      Whole(h', limbo, extra + {page})
  {
    hide PoolIndices;
  }

  lemma UnmapRecorded(frames: map<nat, nat>, pool: seq<Block>, live: map<nat, nat>, page: nat)
    requires Recorded(pool, live, frames) && page / BLOCK_SIZE !in live.Keys + PoolIndices(pool)
    ensures Recorded(pool, live, frames - {page})
  {
    forall i | 0 <= i < |pool| ensures AtPage(frames - {page}, pool[i].index, pool[i].phys) {
      assert pool[i].index in PoolIndices(pool);
      assert AtPage(frames, pool[i].index, pool[i].phys);
    }
    forall b | b in live ensures AtPage(frames - {page}, b, live[b]) {
      assert AtPage(frames, b, live[b]);
    }
  }

  lemma UnmapOnePage(h: Heap, extra: set<nat>, index: nat, page: nat)
    requires Whole(h, {index}, extra) && page in h.frames && page >= STATIC_SIZE && page in extra
    requires page / BLOCK_SIZE == index
    ensures Whole(h.(frames := h.frames - {page}, used := h.used - {h.frames[page]}), {index}, extra - {page})
    ensures h.frames[page] in h.used
  {
    hide Recorded, PoolIndices;
    UnmapRecorded(h.frames, h.pool, h.live, page);
  }

  /** The pages of a block from the `n`th on. */
  function LastPages(index: nat, n: nat): set<nat> {
    PagesOf(index) - FirstPages(index, n)
  }

  lemma LastPagesStep(index: nat, n: nat)
    requires n < BLOCK_SIZE
    ensures index * BLOCK_SIZE + n in LastPages(index, n) && (index * BLOCK_SIZE + n) / BLOCK_SIZE == index
    ensures LastPages(index, n + 1) == LastPages(index, n) - {index * BLOCK_SIZE + n}
    ensures LastPages(index, 0) == PagesOf(index) && LastPages(index, BLOCK_SIZE) == {}
  {
    PagesOfIs(index);
    NoPages(index);
  }

  lemma NoPages(index: nat)
    ensures FirstPages(index, 0) == {} && PagesOf(index) == FirstPages(index, BLOCK_SIZE)
    ensures FirstPages(index, 1) == {index * BLOCK_SIZE}
  {
    assert FirstPages(index, 1) == FirstPages(index, 0) + {index * BLOCK_SIZE};
  }

  /** The next page of the block in progress is not mapped yet. */
  lemma NotMapped(h: Heap, index: nat, n: nat)
    requires Whole(h, {index}, FirstPages(index, n)) && index * BLOCK_SIZE >= STATIC_SIZE && n < BLOCK_SIZE
    ensures index * BLOCK_SIZE + n !in h.frames
    ensures FirstPages(index, n + 1) == FirstPages(index, n) + {index * BLOCK_SIZE + n}
  {
    hide Recorded, Tabled, Framed, PoolIndices, FirstPages;
    NoPages(index);
    FirstPagesStep(index, n);
  }

  lemma FirstPagesStep(index: nat, n: nat)
    ensures FirstPages(index, n + 1) == FirstPages(index, n) + {index * BLOCK_SIZE + n}
  {
  }

  /** A static block is mapped already, where boot put it. */
  lemma StaticBlock(h: Heap, index: nat)
    requires Whole(h, {index}, {}) && index * BLOCK_SIZE < STATIC_SIZE
    ensures Whole(h, {index}, PagesOf(index)) && TableOf(index) in h.tables
    ensures AtPage(h.frames, index, h.start + index * BLOCK_SIZE)
  {
    hide Recorded, PoolIndices, PagesOf, Partition;
    PagesOfIs(index);
  }

  lemma InRegion(h: Heap, limbo: set<nat>, extra: set<nat>)
    requires Whole(h, limbo, extra)
    ensures |h.tables| <= REGION_TABLES
  {
    FewBelow(h.tables, REGION_TABLES);
  }

  lemma {:induction false} FewBelow(s: set<nat>, n: nat)
    requires forall t :: t in s ==> t < n
    ensures |s| <= n
    decreases n
  {
    if n > 0 {
      FewBelow(s - {n - 1}, n - 1);
    }
  }

  lemma MoreUsed(h: Heap, limbo: set<nat>, extra: set<nat>, frame: nat)
    requires Whole(h, limbo, extra)
    ensures Whole(h.(used := h.used + {frame}), limbo, extra)
  {
    hide Partition, Recorded, Pages, Tabled, PoolIndices;
  }

  // ----- how long the pool lasts

  /** Blocks per page table. */
  const TABLE_BLOCKS: nat := 256

  /** The page tables that exist are the lowest ones. */
  ghost predicate LowestTables(tables: set<nat>) {
    forall t: nat :: t in tables <==> t < |tables|
  }

  /** A marked block has its page table. */
  lemma MarkedIsTabled(h: Heap, b: nat)
    requires Whole(h, {}, {}) && b in h.marked
    ensures TableOf(b) in h.tables
  {
    hide Recorded, Framed, PoolIndices;
    OneTablePerBlock(b);
    assert b * BLOCK_SIZE / BLOCK_SIZE == b;
    assert b * BLOCK_SIZE in h.frames;
  }

  /** The lowest free block is in one of the page tables, or in the first that is missing. */
  lemma NextTable(h: Heap)
    requires Whole(h, {}, {}) && LowestTables(h.tables)
    ensures TableOf(NextFree(h.marked)) <= |h.tables|
  {
    hide Whole;
    var i, n := NextFree(h.marked), |h.tables|;
    OneTablePerBlock(i);
    if TableOf(i) > n {
      OneTablePerBlock(TABLE_BLOCKS * n);
      MarkedIsTabled(h, TABLE_BLOCKS * n);
    }
  }

  lemma NewTableIsLowest(tables: set<nat>, t: nat)
    requires LowestTables(tables) && t <= |tables|
    ensures LowestTables(tables + {t})
  {
    assert t in tables ==> tables + {t} == tables;
  }

  /** There are at most as many marked blocks as the page tables map. */
  lemma MarkedBound(h: Heap)
    requires Whole(h, {}, {}) && LowestTables(h.tables)
    ensures |h.marked| <= TABLE_BLOCKS * |h.tables|
  {
    hide Whole;
    forall b | b in h.marked ensures b < TABLE_BLOCKS * |h.tables| {
      MarkedIsTabled(h, b);
      OneTablePerBlock(b);
    }
    FewBelow(h.marked, TABLE_BLOCKS * |h.tables|);
  }

  /** What is left of the pool, counted since it was filled last: `since` blocks were handed out
      when there were `base` page tables then, or since boot when `base` is 0. */
  ghost predicate Budget(h: Heap, since: nat, base: nat) {
    && LowestTables(h.tables)
    && (if base == 0 then h.pool == [] && |h.tables| == 1 && |h.marked| <= since
        else |h.pool| + |h.tables| >= POOL_SIZE + base && |h.marked| <= TABLE_BLOCKS * base + since)
  }

  lemma FewerMarked(h: Heap, h': Heap, since: nat, base: nat)
    requires Budget(h, since, base) && h'.pool == h.pool && h'.tables == h.tables && h'.marked <= h.marked
    ensures Budget(h', since, base)
  {
    assert h.marked == h'.marked + (h.marked - h'.marked);
  }

  lemma SomeTable(h: Heap)
    requires Whole(h, {}, {})
    ensures |h.tables| > 0
  {
    assert 0 in h.tables;
  }

  /** So many blocks can be handed out before the pool has to be filled again. */
  function Reach(base: nat): nat {
    if base == 0 then TABLE_BLOCKS else TABLE_BLOCKS * POOL_SIZE
  }

  /** Within that reach the next block can always be mapped. */
  lemma WithinReach(h: Heap, since: nat, base: nat)
    requires Budget(h, since, base) && since < Reach(base)
    ensures TableOf(NextFree(h.marked)) in h.tables || h.pool != []
    ensures base == 0 ==> TableOf(NextFree(h.marked)) in h.tables
  {
    hide NextFree;
    NextFreeBound(h.marked);
    OneTablePerBlock(NextFree(h.marked));
  }

  // ----- at boot

  function StaticMap(start: nat): map<nat, nat> {
    map p: nat {:trigger p / TABLE_PAGES} | p < STATIC_SIZE :: start + p
  }

  function StaticFrames(start: nat): set<nat> {
    set p | p in StaticMap(start) :: StaticMap(start)[p]
  }

  function BootHeap(start: nat, used: set<nat>): Heap {
    Heap({}, [], map[], StaticMap(start), {0}, used, start)
  }

  lemma AtBoot(start: nat, used: set<nat>)
    requires forall p: nat :: p in StaticFrames(start) ==> p in used
    ensures Whole(BootHeap(start, used), {}, {}) && Budget(BootHeap(start, used), 0, 0) && UsedFrames([]) == {}
  {
    assert PoolIndices([]) == {};
  }

  // ----- marks

  lemma MarkedAppend(marks: seq<bool>)
    ensures UsedFrames(marks + [false]) == UsedFrames(marks)
  {
  }

  lemma MarkedSet(marks: seq<bool>, i: nat)
    requires i < |marks| && i == NextFree(UsedFrames(marks))
    ensures UsedFrames(marks[i := true]) == UsedFrames(marks) + {i}
    ensures |UsedFrames(marks[i := true])| == |UsedFrames(marks)| + 1
  {
    assert UsedFrames(marks[i := true]) == UsedFrames(marks) + {i};
  }

  lemma MarkedClear(marks: seq<bool>, i: nat)
    requires i in UsedFrames(marks)
    ensures i < |marks| && UsedFrames(marks[i := false]) == UsedFrames(marks) - {i}
    ensures |UsedFrames(marks[i := false])| == |UsedFrames(marks)| - 1
  {
    assert UsedFrames(marks[i := false]) == UsedFrames(marks) - {i};
  }

  lemma FirstClear(marks: seq<bool>, i: nat)
    requires i <= |marks| && (i < |marks| ==> !marks[i]) && forall k :: 0 <= k < i ==> marks[k]
    ensures i == NextFree(UsedFrames(marks))
  {
    var n := NextFree(UsedFrames(marks));
    assert forall k: nat :: k < i ==> k in UsedFrames(marks);
    assert i !in UsedFrames(marks);
  }

  predicate Holds(live: map<nat, nat>, b: Block) {
    b.index in live && live[b.index] == b.phys
  }

  /** Blocks handed out stay handed out, with the same record. */
  predicate Keeps(live: map<nat, nat>, live': map<nat, nat>) {
    forall k :: k in live ==> k in live' && live'[k] == live[k]
  }

  /** What one block allocation takes from the pool: nothing if the block's page table is
      there, and one block, for that table, if it is not. */
  predicate Drew(pool: seq<Block>, tables: set<nat>, pool': seq<Block>, tables': set<nat>, t: nat) {
    if t in tables then pool' == pool && tables' == tables
    else pool != [] && pool' == pool[..|pool| - 1] && tables' == tables + {t}
  }

  // ----- what an allocation maps

  /** The frames in use after `n` more have been taken, each the lowest free one. */
  function UsedAfter(used: set<nat>, n: nat): set<nat> {
    if n == 0 then used else UsedAfter(used, n - 1) + {NextFree(UsedAfter(used, n - 1))}
  }

  /** The mapped pages after the first `n` pages of a block have been mapped on those frames. */
  function FramesAfter(frames: map<nat, nat>, used: set<nat>, index: nat, n: nat): map<nat, nat> {
    if n == 0 then frames
    else FramesAfter(frames, used, index, n - 1)[index * BLOCK_SIZE + n - 1 := NextFree(UsedAfter(used, n - 1))]
  }

  lemma NothingTaken(frames: map<nat, nat>, used: set<nat>, index: nat)
    ensures UsedAfter(used, 0) == used && FramesAfter(frames, used, index, 0) == frames
  {
  }

  lemma NothingDrawn(pool: seq<Block>, tables: set<nat>, t: nat)
    requires t in tables
    ensures Drew(pool, tables, pool, tables, t)
  {
  }

  /** Block `index` gets marked; unless it is static, its pages are mapped and nothing else is. */
  predicate MapsBlock(h: Heap, h': Heap, index: nat) {
    var n := if index * BLOCK_SIZE < STATIC_SIZE then 0 else BLOCK_SIZE;
    && index == NextFree(h.marked) && h'.marked == h.marked + {index}
    && h'.frames == FramesAfter(h.frames, h.used, index, n) && h'.used == UsedAfter(h.used, n)
    && Keeps(h.live, h'.live) && h'.start == h.start
  }

  /** One allocation, as the rest of the kernel sees it. */
  ghost predicate Allocates(h: Heap, h': Heap, b: Block) {
    MapsBlock(h, h', b.index) && Whole(h', {}, {}) && Holds(h'.live, b)
  }

  /** One block given back. */
  ghost predicate Frees(h: Heap, h': Heap, index: nat) {
    && Whole(h', {}, {}) && h'.live == h.live - {index} && h'.start == h.start
    && h'.frames == h.frames - (if index * BLOCK_SIZE < STATIC_SIZE then {} else PagesOf(index))
    && h'.used == h.used - FreedFrames(h.frames, index)
  }

  lemma GivenBack(h: Heap, h': Heap, index: nat)
    requires Whole(h', {}, {}) && h'.live == h.live - {index} && h'.start == h.start
    requires h'.used == h.used - FreedFrames(h.frames, index)
    requires h'.frames == if index * BLOCK_SIZE < STATIC_SIZE then h.frames else h.frames - PagesOf(index)
    ensures Frees(h, h', index)
  {
    hide Whole, PagesOf, FreedFrames;
    assert h.frames - {} == h.frames;
  }

  class PageHeap {
    var marks: seq<bool>
    var pool: seq<Block>
    var allocating: bool
    var usedBlockCount: nat
    const mem: Memory
    /** The kernel directory, as far as this heap's region goes: page tables, and mapped pages. */
    var tables: set<nat>
    var frames: map<nat, nat>
    const start: nat
    /** Blocks handed out, with the physical page recorded for them. */
    ghost var live: map<nat, nat>
    /** How many blocks were handed out since the pool was filled last, and the page tables then. */
    ghost var since: nat
    ghost var base: nat

    ghost function Marked(): set<nat>
      reads this
    {
      UsedFrames(marks)
    }

    ghost function Value(): Heap
      reads this, mem
    {
      Heap(Marked(), pool, live, frames, tables, mem.Used(), start)
    }

    ghost predicate State(limbo: set<nat>, extra: set<nat>)
      reads this, mem
    {
      && Whole(Value(), limbo, extra) && mem.Valid()
      && usedBlockCount + (if allocating then 1 else 0) == |Marked()|
    }

    /** At rest: marked blocks are exactly the live and the pooled ones, and are counted. */
    ghost predicate Valid()
      reads this, mem
    {
      !allocating && State({}, {}) && |pool| <= POOL_SIZE && Budget(Value(), since, base)
    }

    /** The next block can be mapped: its page table is there, or the pool has one to spare. */
    ghost predicate Ready()
      reads this
    {
      TableOf(NextFree(Marked())) in tables || pool != []
    }

    /** After boot the static pages are mapped, at consecutive frames, and nothing is handed out. */
    constructor (mem: Memory, start: nat)
      requires mem.Valid() && forall p: nat :: p in StaticFrames(start) ==> p in mem.Used()
      ensures Valid() && since == base == 0 && pool == [] && live == map[] && Marked() == {} && this.mem == mem
      ensures this.start == start
    {
      hide Whole, Budget, UsedFrames, StaticMap, StaticFrames;
      marks, pool, allocating, usedBlockCount := [], [], false, 0;
      this.mem, this.start := mem, start;
      tables, frames := {0}, StaticMap(start);
      live, since, base := map[], 0, 0;
      new;
      AtBoot(start, mem.Used());
    }

    /** The pool's last block is taken out. */
    method TakeFromPool(ghost limbo: set<nat>, ghost extra: set<nat>) returns (b: Block)
      requires State(limbo, extra) && pool != []
      modifies this`pool
      ensures State(limbo + {b.index}, extra + PagesOf(b.index)) && AtPage(frames, b.index, b.phys) && b.index !in limbo
      ensures b == old(pool)[|old(pool)| - 1] && pool == old(pool)[..|old(pool)| - 1]
    {
      hide Whole, PagesOf, UsedFrames, AtPage;
      PopPool(Value(), limbo, extra);
      b := pool[|pool| - 1];
      pool := pool[..|pool| - 1];
    }

    method PutInPool(b: Block)
      requires State({b.index}, PagesOf(b.index)) && AtPage(frames, b.index, b.phys)
      modifies this`pool
      ensures State({}, {}) && pool == old(pool) + [b]
    {
      hide Whole, PagesOf, UsedFrames, AtPage;
      PushPool(Value(), b);
      pool := pool + [b];
    }

    ghost method HandOutBlock(b: Block, limbo: set<nat>, extra: set<nat>)
      requires State(limbo + {b.index}, extra + PagesOf(b.index)) && AtPage(frames, b.index, b.phys)
      requires b.index !in limbo
      requires b.index !in live
      modifies this`live
      ensures State(limbo, extra) && live == old(live)[b.index := b.phys] && Keeps(old(live), live)
    {
      hide Whole, PagesOf, UsedFrames, AtPage;
      HandOut(Value(), limbo, extra, b);
      live := live[b.index := b.phys];
    }

    /** A block in between is nobody's. */
    lemma NotLive(b: Block, limbo: set<nat>, extra: set<nat>)
      requires State(limbo + {b.index}, extra)
      ensures b.index !in live
    {
      hide Recorded, Pages, Tabled, Framed, PoolIndices, UsedFrames;
    }

    // ----- one allocation

    /** The scan for the lowest free block; the map grows by one when all are taken. */
    method FirstFree() returns (i: nat)
      requires State({}, {})
      modifies this`marks
      ensures State({}, {}) && Marked() == old(Marked()) && i == NextFree(Marked()) && i < |marks|
    {
      hide Whole, UsedFrames, NextFree;
      i := 0;
      while i < |marks| && marks[i]
        invariant 0 <= i <= |marks| && marks == old(marks) && forall k :: 0 <= k < i ==> marks[k]
      {
        i := i + 1;
      }
      FirstClear(marks, i);
      if i == |marks| {
        MarkedAppend(marks);
        marks := marks + [false];
      }
    }

    method BeginAllocation(index: nat)
      requires !allocating && State({}, {}) && index == NextFree(Marked()) && index < |marks|
      modifies this`marks, this`allocating
      ensures allocating && State({index}, {}) && Marked() == old(Marked()) + {index}
    {
      hide Whole, UsedFrames;
      MarkedSet(marks, index);
      Mark(Value(), index);
      allocating := true;
      marks := marks[index := true];
    }

    method EndAllocation(ghost limbo: set<nat>, ghost extra: set<nat>)
      requires allocating && State(limbo, extra)
      modifies this`usedBlockCount, this`allocating
      ensures !allocating && State(limbo, extra)
    {
      hide Whole, UsedFrames;
      usedBlockCount := usedBlockCount + 1;
      allocating := false;
    }

    /** `allocBlock`: from the pool when re-entered, else the lowest free block. */
    method AllocBlock(ghost limbo: set<nat>, ghost extra: set<nat>) returns (b: Block)
      requires State(limbo, extra)
      requires if allocating then pool != [] else limbo == {} && extra == {} && Ready() && |Marked()| < REGION_BLOCKS
      modifies this, mem
      ensures State(limbo + {b.index}, extra + PagesOf(b.index)) && AtPage(frames, b.index, b.phys) && b.index !in limbo
      ensures allocating == old(allocating) && Keeps(old(live), live) && since == old(since) && base == old(base)
      ensures old(allocating) ==>
        && b == old(pool)[|old(pool)| - 1] && pool == old(pool)[..|old(pool)| - 1] && live == old(live)
        && marks == old(marks) && tables == old(tables) && frames == old(frames) && mem.Used() == old(mem.Used())
      ensures !old(allocating) ==>
        && MapsBlock(old(Value()), Value(), b.index)
        && Drew(old(pool), old(tables), pool, tables, TableOf(b.index))
      decreases if allocating then 0 else 3
    {
      hide State, PagesOf, NextFree, UsedFrames, AtPage, TableOf, Drew, UsedAfter, FramesAfter;
      if allocating {
        b := TakeFromPool(limbo, extra);
      } else {
        var i := FirstFree();
        b := AllocPage(i);
        assert {} + {i} == {i} && {} + PagesOf(i) == PagesOf(i);
      }
    }

    lemma Unmapped(index: nat, n: nat)
      requires State({index}, FirstPages(index, n)) && index * BLOCK_SIZE >= STATIC_SIZE && n < BLOCK_SIZE
      ensures index * BLOCK_SIZE + n !in frames
      ensures FirstPages(index, n + 1) == FirstPages(index, n) + {index * BLOCK_SIZE + n}
    {
      hide Whole, FirstPages, UsedFrames;
      NotMapped(Value(), index, n);
    }

    lemma Static(index: nat)
      requires State({index}, {}) && index * BLOCK_SIZE < STATIC_SIZE
      ensures State({index}, PagesOf(index)) && AtPage(frames, index, start + index * BLOCK_SIZE)
      ensures TableOf(index) in tables
    {
      hide Whole, PagesOf, UsedFrames;
      StaticBlock(Value(), index);
    }

    /** `allocPage`: marks the block and maps its pages, unless they are static. */
    method AllocPage(index: nat) returns (b: Block)
      requires !allocating && State({}, {}) && Ready() && index == NextFree(Marked()) && index < |marks|
      requires |Marked()| < REGION_BLOCKS
      modifies this, mem
      ensures b.index == index && State({index}, PagesOf(index)) && AtPage(frames, index, b.phys)
      ensures !allocating && Keeps(old(live), live) && since == old(since) && base == old(base)
      ensures Drew(old(pool), old(tables), pool, tables, TableOf(index)) && MapsBlock(old(Value()), Value(), index)
      decreases 2
    {
      hide State, NextFree, UsedFrames, TableOf, FirstPages, UsedAfter, FramesAfter, Drew;
      NextFreeBound(Marked());
      OneTablePerBlock(index);
      NoPages(index);
      BeginAllocation(index);
      var phys;
      if index * BLOCK_SIZE >= STATIC_SIZE {
        phys := MapBlockPages(index);
      } else {
        phys := start + index * BLOCK_SIZE;
        Static(index);
        NothingTaken(frames, mem.Used(), index);
        NothingDrawn(pool, tables, TableOf(index));
      }
      EndAllocation({index}, PagesOf(index));
      b := Block(index, phys);
    }

    /** The pages of a block are mapped one after the other; the first may need a page table. */
    method MapBlockPages(index: nat) returns (phys: nat)
      requires allocating && State({index}, {}) && index * BLOCK_SIZE >= STATIC_SIZE && index < REGION_BLOCKS
      requires TableOf(index) in tables || pool != []
      modifies this, mem
      ensures allocating && State({index}, PagesOf(index)) && AtPage(frames, index, phys)
      ensures marks == old(marks) && Keeps(old(live), live) && since == old(since) && base == old(base)
      ensures Drew(old(pool), old(tables), pool, tables, TableOf(index))
      ensures frames == FramesAfter(old(frames), old(mem.Used()), index, BLOCK_SIZE)
      ensures mem.Used() == UsedAfter(old(mem.Used()), BLOCK_SIZE)
      decreases 2, 0
    {
      hide State, NextFree, UsedFrames, TableOf, FirstPages;
      OneTablePerBlock(index);
      NoPages(index);
      Unmapped(index, 0);
      phys := MapHeapPage(index * BLOCK_SIZE, {index}, FirstPages(index, 0));
      for n := 1 to BLOCK_SIZE
        invariant allocating && State({index}, FirstPages(index, n)) && AtPage(frames, index, phys)
        invariant marks == old(marks) && Keeps(old(live), live) && since == old(since) && base == old(base)
        invariant Drew(old(pool), old(tables), pool, tables, TableOf(index))
        invariant frames == FramesAfter(old(frames), old(mem.Used()), index, n)
        invariant mem.Used() == UsedAfter(old(mem.Used()), n)
      {
        Unmapped(index, n);
        var _ := MapHeapPage(index * BLOCK_SIZE + n, {index}, FirstPages(index, n));
      }
    }

    /** `mapPage` of the kernel directory on a page of this heap: a missing page table is
        allocated from the heap itself, and the refill at the end finds it busy. */
    method MapHeapPage(page: nat, ghost limbo: set<nat>, ghost extra: set<nat>) returns (frame: nat)
      requires allocating && State(limbo, extra) && page !in frames && page / TABLE_PAGES < REGION_TABLES
      requires page / TABLE_PAGES in tables || pool != []
      modifies this, mem
      ensures allocating && State(limbo, extra + {page}) && frames == old(frames)[page := frame]
      ensures frame == NextFree(old(mem.Used())) && mem.Used() == old(mem.Used()) + {frame}
      ensures marks == old(marks) && Keeps(old(live), live) && since == old(since) && base == old(base)
      ensures Drew(old(pool), old(tables), pool, tables, page / TABLE_PAGES)
      decreases 1
    {
      hide Whole, NextFree, UsedFrames, AtPage, PagesOf;
      ghost var used := mem.Used();
      frame := mem.GetFreePage();
      MoreUsed(Value().(used := used), limbo, extra, frame);
      if page / TABLE_PAGES !in tables {
        PopPool(Value().(used := used), limbo, extra);
        var table := AllocBlock(limbo, extra);
        NotLive(table, limbo, extra + PagesOf(table.index));
        HandOut(Value().(used := used), limbo, extra, table);
        HandOutBlock(table, limbo, extra);
      }
      MapOnePage(Value().(used := used), limbo, extra, page, frame);
      tables := tables + {page / TABLE_PAGES};
      frames := frames[page := frame];
      RefillPool();
    }

    /** `refillPool`: nothing when re-entered; else the pool ends up full. */
    method RefillPool()
      requires allocating || (Valid() && since < Reach(base) && RoomToFill())
      modifies this, mem
      ensures old(allocating) ==> unchanged(this) && unchanged(mem)
      ensures !old(allocating) ==> Valid() && |pool| == POOL_SIZE && since == 0 && base > 0 && Keeps(old(live), live)
      decreases if allocating then 0 else 4
    {
      hide Whole, NextFree, UsedFrames, TableOf, LowestTables, Reach;
      if allocating {
        return;
      }
      WithinReach(Value(), since, base);
      while |pool| < POOL_SIZE
        invariant !allocating && State({}, {}) && |pool| <= POOL_SIZE && LowestTables(tables)
        invariant (|pool| < POOL_SIZE ==> Ready()) && RoomToFill() && Keeps(old(live), live)
        decreases REGION_TABLES - |tables|, POOL_SIZE - |pool|
      {
        InRegion(Value(), {}, {});
        AddToPool();
        InRegion(Value(), {}, {});
      }
      MarkedBound(Value());
      SomeTable(Value());
      since, base := 0, |tables|;
    }

    /** One turn of the refill: the pool gains a block, or a page table takes it. */
    method AddToPool()
      requires !allocating && State({}, {}) && Ready() && |Marked()| < REGION_BLOCKS && LowestTables(tables)
      modifies this, mem
      ensures !allocating && State({}, {}) && LowestTables(tables) && Keeps(old(live), live) && pool != []
      ensures |Marked()| == |old(Marked())| + 1 && |pool| + |tables| == |old(pool)| + |old(tables)| + 1
      ensures |old(pool)| <= |pool| <= |old(pool)| + 1
      ensures MapsBlock(old(Value()), Value(), NextFree(old(Marked())))
      decreases if allocating then 0 else 4, 0
    {
      hide Whole, UsedFrames, AtPage, PagesOf, TableOf, LowestTables, UsedAfter, FramesAfter;
      NextTable(Value());
      NewTableIsLowest(tables, TableOf(NextFree(Marked())));
      var b := AllocBlock({}, {});
      assert {} + {b.index} == {b.index} && {} + PagesOf(b.index) == PagesOf(b.index);
      PutInPool(b);
    }

    /** The region has blocks for a full pool and for every page table still missing. */
    ghost predicate RoomToFill()
      reads this
    {
      |Marked()| + (POOL_SIZE - |pool|) + (REGION_TABLES - |tables|) <= REGION_BLOCKS
    }

    /** `kmalloc`. The assertion on an empty pool is not reached within the reach of the pool. */
    method Kmalloc() returns (b: Block)
      requires Valid() && since < Reach(base) && |Marked()| < REGION_BLOCKS
      modifies this, mem
      ensures Valid() && b.index !in old(Marked()) && Holds(live, b) && Marked() == old(Marked()) + {b.index}
      ensures Keeps(old(live), live) && |pool| >= |old(pool)| - 1
      ensures since == old(since) + 1 && base == old(base) && Spent(old(pool), old(tables))
      ensures Allocates(old(Value()), Value(), b)
    {
      hide UsedAfter, FramesAfter, Whole, NextFree, UsedFrames, AtPage, PagesOf, TableOf, LowestTables, Reach;
      WithinReach(Value(), since, base);
      NextTable(Value());
      NewTableIsLowest(tables, TableOf(NextFree(Marked())));
      b := AllocBlock({}, {});
      NotLive(b, {}, {} + PagesOf(b.index));
      HandOutBlock(b, {}, {});
      since := since + 1;
    }

    /** What an allocation costs: nothing, or one pooled block for a new page table. */
    ghost predicate Spent(pool0: seq<Block>, tables0: set<nat>)
      reads this
    {
      |pool| + |tables| == |pool0| + |tables0|
    }

    /** The tables for one mapping, at most three on a path, and the refill that ends it. */
    method ForMapping(n: nat)
      requires Valid() && n <= 3 && since + n < Reach(base)
      requires |Marked()| + n + POOL_SIZE + REGION_TABLES <= REGION_BLOCKS
      modifies this, mem
      ensures Valid() && |pool| == POOL_SIZE && since == 0 && base > 0 && Keeps(old(live), live)
    {
      hide State, Budget, Reach, UsedFrames, Allocates;
      for i := 0 to n
        invariant Valid() && since == old(since) + i && base == old(base) && Keeps(old(live), live)
        invariant |Marked()| <= |old(Marked())| + i
      {
        var b := Kmalloc();
      }
      RefillPool();
    }

    /** The two tables of a new directory, with no refill. */
    method ForDirectory()
      requires Valid() && since + 2 <= Reach(base) && |Marked()| + 2 <= REGION_BLOCKS
      modifies this, mem
      ensures Valid() && since == old(since) + 2 && base == old(base) && Keeps(old(live), live)
    {
      hide State, Budget, Reach, UsedFrames, Allocates;
      var root := Kmalloc();
      var mid := Kmalloc();
    }

    /** `kfree`: the pages of a block that is not static are unmapped and their frames freed;
        the page table stays. */
    method Kfree(index: nat)
      requires Valid() && index in live
      modifies this, mem
      ensures Valid() && live == old(live) - {index} && Marked() == old(Marked()) - {index}
      ensures pool == old(pool) && tables == old(tables) && since == old(since) && base == old(base)
      ensures mem.Used() == old(mem.Used()) - FreedFrames(old(frames), index)
      ensures Frees(old(Value()), Value(), index)
    {
      hide State, Budget, UsedFrames, PagesOf, FreedFrames, Frees, Whole;
      ghost var h := Value();
      WithdrawBlock(index);
      if index * BLOCK_SIZE >= STATIC_SIZE {
        FreePages(index);
      } else {
        StaticStays(frames, mem.Used(), index);
      }
      UnmarkBlock(index);
      FewerMarked(h, Value(), since, base);
      AtRest();
      GivenBack(h, Value(), index);
    }

    lemma AtRest()
      requires State({}, {})
      ensures Whole(Value(), {}, {})
    {
    }

    /** The loop of `kfree` over the pages of the block. */
    method FreePages(index: nat)
      requires State({index}, PagesOf(index)) && index * BLOCK_SIZE >= STATIC_SIZE
      requires forall p: nat :: p / BLOCK_SIZE == index ==> p in frames
      modifies this`frames, mem
      ensures State({index}, {}) && mem.Used() == old(mem.Used()) - FreedFrames(old(frames), index)
      ensures frames == old(frames) - PagesOf(index)
    {
      hide State, UsedFrames, PagesOf, FirstPages, FreedUpTo, LastPages;
      NothingFreedYet(frames, index);
      LastPagesStep(index, 0);
      AllPages(frames, index);
      for n := 0 to BLOCK_SIZE
        invariant State({index}, LastPages(index, n))
        invariant mem.Used() == old(mem.Used()) - FreedUpTo(old(frames), index, n)
        invariant frames == old(frames) - (PagesOf(index) - LastPages(index, n))
        invariant forall p :: p in LastPages(index, n) ==> Same(old(frames), frames, p)
      {
        LastPagesStep(index, n);
        assert Same(old(frames), frames, index * BLOCK_SIZE + n);
        OneMoreFreed(old(frames), index, n);
        UnmapHeapPage(index, index * BLOCK_SIZE + n, LastPages(index, n));
      }
      LastPagesStep(index, 0);
    }

    ghost method WithdrawBlock(index: nat)
      requires State({}, {}) && index in live
      modifies this`live
      ensures State({index}, if index * BLOCK_SIZE < STATIC_SIZE then {} else PagesOf(index))
      ensures live == old(live) - {index}
      ensures forall p: nat :: p / BLOCK_SIZE == index ==> p in frames
    {
      hide Whole, UsedFrames, PagesOf;
      TakeBack(Value(), index);
      live := live - {index};
    }

    method UnmapHeapPage(ghost index: nat, page: nat, ghost extra: set<nat>)
      requires State({index}, extra) && page in frames && page in extra && page >= STATIC_SIZE
      requires page / BLOCK_SIZE == index
      modifies this`frames, mem
      ensures State({index}, extra - {page}) && frames == old(frames) - {page}
      ensures mem.Used() == old(mem.Used()) - {old(frames)[page]}
    {
      hide Whole, UsedFrames;
      UnmapOnePage(Value(), extra, index, page);
      mem.SetPageFree(frames[page]);
      frames := frames - {page};
    }

    method UnmarkBlock(index: nat)
      requires !allocating && State({index}, {})
      modifies this`marks, this`usedBlockCount
      ensures State({}, {}) && Marked() == old(Marked()) - {index}
    {
      hide Whole, UsedFrames;
      Unmark(Value(), index);
      MarkedClear(marks, index);
      usedBlockCount := usedBlockCount - 1;
      marks := marks[index := false];
    }
  }

  predicate Same(frames: map<nat, nat>, frames': map<nat, nat>, page: nat) {
    page in frames && page in frames' && frames[page] == frames'[page]
  }

  /** The frames under the first `n` pages of a block. */
  function FreedUpTo(frames: map<nat, nat>, index: nat, n: nat): set<nat> {
    set p | p in FirstPages(index, n) && p in frames :: frames[p]
  }

  lemma NothingFreedYet(frames: map<nat, nat>, index: nat)
    ensures FreedUpTo(frames, index, 0) == {}
  {
  }

  lemma OneMoreFreed(frames: map<nat, nat>, index: nat, n: nat)
    requires index * BLOCK_SIZE + n in frames
    ensures FreedUpTo(frames, index, n + 1) == FreedUpTo(frames, index, n) + {frames[index * BLOCK_SIZE + n]}
  {
    var page := index * BLOCK_SIZE + n;
    assert FirstPages(index, n + 1) == FirstPages(index, n) + {page};
    assert page in FirstPages(index, n + 1);
  }

  lemma AllPages(frames: map<nat, nat>, index: nat)
    requires forall p: nat :: p / BLOCK_SIZE == index ==> p in frames
    ensures forall p :: p in LastPages(index, 0) ==> Same(frames, frames, p)
  {
    PagesOfIs(index);
  }

  lemma StaticStays(frames: map<nat, nat>, used: set<nat>, index: nat)
    requires index * BLOCK_SIZE < STATIC_SIZE
    ensures used - FreedFrames(frames, index) == used
  {
  }

  /** What `kfree` gives back: nothing for a static block. */
  function FreedFrames(frames: map<nat, nat>, index: nat): set<nat> {
    if index * BLOCK_SIZE < STATIC_SIZE then {} else FreedUpTo(frames, index, BLOCK_SIZE)
  }
}
