/** source/KHeap.cpp on raw memory: headers live in band, in the words they describe. */
module KernelHeap {
  import opened Common
  import opened HeapModel

  type word = w: int | 0 <= w < U32

  /** The reserved region, 0xfffffffff0000000 up to the top: 2^28 bytes. */
  const REGION_WORDS: nat := 0x400_0000

  // ----- the packed header: used in bit 0, an unused bit, the size in words above

  function SizeOf(w: word): nat {
    w / 4
  }

  predicate UsedBit(w: word) {
    w % 2 == 1
  }

  function WithSize(w: word, size: nat): (r: word)
    requires size < 0x4000_0000
    ensures SizeOf(r) == size && UsedBit(r) == UsedBit(w)
  {
    HeaderBits(size, w % 4);
    HeaderBits(w / 4, w % 4);
    4 * size + w % 4
  }

  function WithUsed(w: word, used: bool): (r: word)
    ensures SizeOf(r) == SizeOf(w) && UsedBit(r) == used
  {
    HeaderBits(w / 4, w % 4);
    var bits := w % 4 - w % 4 % 2 + if used then 1 else 0;
    HeaderBits(w / 4, bits);
    4 * (w / 4) + bits
  }

  lemma QuarterIs(x: int, q: int, r: int)
    requires x == 4 * q + r && 0 <= r < 4
    ensures x / 4 == q
  {
  }

  lemma ParityIs(x: int, q: int, r: int)
    requires x == 2 * q + r && 0 <= r < 2
    ensures x % 2 == r
  {
  }

  /** Size and the two low bits do not get into each other's way. */
  lemma HeaderBits(size: int, bits: int)
    requires 0 <= bits < 4
    ensures (4 * size + bits) / 4 == size && (4 * size + bits) % 2 == bits % 2
  {
    QuarterIs(4 * size + bits, size, bits);
    var high := if bits < 2 then 0 else 1;
    ParityIs(bits, high, bits - 2 * high);
    ParityIs(4 * size + bits, 2 * size + high, bits - 2 * high);
  }

  predicate Encodes(w: word, b: Block) {
    SizeOf(w) == b.size && UsedBit(w) == b.used
  }

  // ----- one more page, whatever the fresh page contains

  datatype Raw = Raw(mem: seq<word>, last: nat, end: nat)

  predicate RawOk(r: Raw) {
    r.last < r.end <= |r.mem| <= REGION_WORDS && r.last + SizeOf(r.mem[r.last]) == r.end
  }

  function OnePage(r: Raw): (r': Raw)
    requires RawOk(r) && r.end + PAGE_WORDS <= |r.mem|
    ensures RawOk(r') && |r'.mem| == |r.mem| && r'.end == r.end + PAGE_WORDS
  {
    var w := r.mem[r.last];
    if UsedBit(w) then
      Raw(r.mem[r.end := WithSize(WithSize(r.mem[r.end], 0), PAGE_WORDS)], r.end, r.end + PAGE_WORDS)
    else
      Raw(r.mem[r.last := WithSize(w, SizeOf(w) + PAGE_WORDS)], r.last, r.end + PAGE_WORDS)
  }

  /** One more page, when the fresh word reads unused: only the word of the new last block
      changes, and it describes that block. */
  lemma PageAdded(r: Raw, b: Block)
    requires RawOk(r) && Encodes(r.mem[r.last], b) && b.start == r.last && EndOf(b) == r.end
    requires r.end + PAGE_WORDS <= |r.mem| <= REGION_WORDS && r.end % PAGE_WORDS == 0 && !UsedBit(r.mem[r.end])
    ensures var r', bs := OnePage(r), Grow([b], 1);
      && r'.last == bs[|bs| - 1].start && Encodes(r'.mem[r'.last], bs[|bs| - 1])
      && forall k :: 0 <= k < |r.mem| && k != r'.last ==> r'.mem[k] == r.mem[k]
  {
  }

  lemma NextPage(end: nat)
    requires end % PAGE_WORDS == 0
    ensures (end + PAGE_WORDS) % PAGE_WORDS == 0
  {
  }

  /** Then every block of the longer tiling is described by the word at its start. */
  lemma PageDescribed(r: Raw, r': Raw, bs: seq<Block>)
    requires bs != [] && bs[|bs| - 1].start == r.last && EndOf(bs[|bs| - 1]) == r.end && r.last < r.end < r'.end
    requires forall i :: 0 <= i < |bs| - 1 ==> bs[i].start < r.last
    requires |r'.mem| == |r.mem| >= r'.end && r'.last < |r'.mem|
    requires forall i :: 0 <= i < |bs| ==> bs[i].start < |r.mem| && Encodes(r.mem[bs[i].start], bs[i])
    requires var b := Grow([bs[|bs| - 1]], 1); r'.last == b[|b| - 1].start && Encodes(r'.mem[r'.last], b[|b| - 1])
    requires forall k :: 0 <= k < |r.mem| && k != r'.last ==> r'.mem[k] == r.mem[k]
    ensures var gs := Grow(bs, 1);
      && gs[|gs| - 1].start == r'.last
      && forall i :: 0 <= i < |gs| ==> gs[i].start < r'.end && Encodes(r'.mem[gs[i].start], gs[i])
  {
    hide Encodes, Grow;
    var gs := Grow(bs, 1);
    GrowsAtEnd(bs);
    forall i | 0 <= i < |gs| - 1 ensures gs[i].start < r'.end && Encodes(r'.mem[gs[i].start], gs[i]) {
      assert gs[i] == bs[i] && Encodes(r.mem[bs[i].start], bs[i]);
    }
  }

  lemma GrowsAtEnd(bs: seq<Block>)
    requires bs != []
    ensures var gs, b := Grow(bs, 1), Grow([bs[|bs| - 1]], 1);
      && gs[|gs| - 1] == b[|b| - 1] && |bs| <= |gs| <= |bs| + 1
      && (|gs| == |bs| ==> gs[|gs| - 1].start == bs[|bs| - 1].start)
      && (|gs| > |bs| ==> gs[|gs| - 1].start == EndOf(bs[|bs| - 1]))
      && forall i :: 0 <= i < |gs| - 1 ==> gs[i] == bs[i]
  {
  }

  function Pages(r: Raw, n: nat): (r': Raw)
    requires RawOk(r) && r.end + n * PAGE_WORDS <= |r.mem|
    ensures RawOk(r') && |r'.mem| == |r.mem| && r'.end == r.end + n * PAGE_WORDS
    decreases n
  {
    if n == 0 then r else Pages(OnePage(r), n - 1)
  }

  lemma {:induction false} FreeTailGrows(r: Raw, n: nat)
    requires RawOk(r) && r.end + n * PAGE_WORDS <= |r.mem| && !UsedBit(r.mem[r.last])
    ensures Pages(r, n).last == r.last && !UsedBit(Pages(r, n).mem[r.last])
    decreases n
  {
    if n > 0 {
      FreeTailGrows(OnePage(r), n - 1);
    }
  }

  lemma {:induction false} LastMovesUp(r: Raw, n: nat)
    requires RawOk(r) && r.end + n * PAGE_WORDS <= |r.mem|
    ensures Pages(r, n).last >= r.last
    decreases n
  {
    if n > 0 {
      LastMovesUp(OnePage(r), n - 1);
    }
  }

  /** After a used last block, growth by `n` pages yields one free block of `n` pages exactly
      when the first word of the fresh memory has its used bit clear. */
  lemma FreshWordDecides(r: Raw, n: nat)
    requires RawOk(r) && n > 0 && r.end + n * PAGE_WORDS <= |r.mem| && UsedBit(r.mem[r.last])
    ensures (Pages(r, n).last == r.end && !UsedBit(Pages(r, n).mem[r.end])) <==> !UsedBit(r.mem[r.end])
  {
    var r1 := OnePage(r);
    if !UsedBit(r.mem[r.end]) {
      FreeTailGrows(r1, n - 1);
    } else if n > 1 {
      LastMovesUp(OnePage(r1), n - 2);
    }
  }

  /** A fresh word that is not clear: the page after a used block of 1024 words starts with 1. */
  lemma DirtyFreshWord()
    ensures var r := Raw([4 * PAGE_WORDS + 1] + seq(PAGE_WORDS - 1, _ => 0) + [1] + seq(PAGE_WORDS - 1, _ => 0),
                         0, PAGE_WORDS);
      RawOk(r) && UsedBit(r.mem[r.last]) && |r.mem| == r.end + PAGE_WORDS && UsedBit(Pages(r, 1).mem[r.end])
  {
    var r := Raw([4 * PAGE_WORDS + 1] + seq(PAGE_WORDS - 1, _ => 0) + [1] + seq(PAGE_WORDS - 1, _ => 0), 0, PAGE_WORDS);
    assert r.mem[r.last] == 4 * PAGE_WORDS + 1 && r.mem[r.end] == 1;
    FreshWordDecides(r, 1);
  }

  class KHeap {
    const mem: array<word>
    var end: nat
    var last: nat
    ghost var blocks: seq<Block>
    /** What clients hold: the header of each block, and the bytes that were asked for. */
    ghost var live: map<nat, nat>

    /** Every block of the tiling is described by the word at its start. */
    ghost predicate Coherent()
      reads this`end, this`blocks, mem
    {
      && mem.Length <= REGION_WORDS && end <= mem.Length && end % PAGE_WORDS == 0
      && Tiles(blocks, end)
      && (forall i :: 0 <= i < |blocks| ==> blocks[i].start < end && Encodes(mem[blocks[i].start], blocks[i]))
    }

    ghost predicate Formed()
      reads this`end, this`last, this`blocks, mem
    {
      Coherent() && last == blocks[|blocks| - 1].start
    }

    ghost function State(): HeapState
      reads this
    {
      HeapState(blocks, end, live)
    }

    /** Between two calls: the blocks in use are the boot block and what clients hold. */
    ghost predicate Valid()
      reads this, mem
    {
      Formed() && HeapInv(State())
    }

    /** No word of a payload that a client held before has changed. */
    twostate predicate PayloadsKept()
      reads this, mem
    {
      forall i, k: nat ::
        && 0 <= i < |old(blocks)| && old(blocks)[i].start in old(live)
        && InPayload(old(blocks)[i], k) && k < mem.Length ==>
          mem[k] == old(mem[k])
    }

    /** The assumption about memory that is not mapped yet: a page handed to the heap starts
        with a word whose used bit is clear. */
    ghost predicate FreshClean()
      reads this`end, mem
    {
      forall k :: end <= k < mem.Length && k % PAGE_WORDS == 0 ==> !UsedBit(mem[k])
    }

    /** `init`: the boot information is the first block and stays used, the rest of the first
        2 MB is free. Its size is found in the first 8-aligned word after the header. */
    constructor (mem: array<word>)
      requires INITIAL_WORDS <= mem.Length <= REGION_WORDS
      requires 4 < mem[2] && (mem[2] + 3) / 4 + HEADER + MIN_BLOCK <= INITIAL_WORDS
      modifies mem
      ensures this.mem == mem && Valid() && State() == InitState((old(mem[2]) + 3) / 4 + HEADER)
    {
      var b := (mem[2] + 3) / 4 + HEADER;
      this.mem, end, last := mem, INITIAL_WORDS, b;
      blocks, live := InitState(b).blocks, map[];
      new;
      mem[0] := WithUsed(WithSize(mem[0], b), true);
      mem[b] := WithUsed(WithSize(mem[b], INITIAL_WORDS - b), false);
      InitInv(State());
    }

    method SetUsed(block: nat, used: bool, ghost i: nat)
      requires Coherent() && i < |blocks| && block == blocks[i].start
      modifies mem, this`blocks
      ensures Coherent() && blocks == Mark(old(blocks), i, used)
      ensures forall k :: 0 <= k < mem.Length && k != block ==> mem[k] == old(mem[k])
    {
      forall j | 0 <= j < |blocks| && j != i ensures blocks[j].start != block {
        SameStart(i, j);
      }
      mem[block] := WithUsed(mem[block], used);
      MarkTiles(blocks, end, i, used);
      blocks := Mark(blocks, i, used);
    }

    lemma SameStart(i: nat, j: nat)
      requires Tiles(blocks, end) && i < |blocks| && j < |blocks| && i != j
      ensures blocks[i].start != blocks[j].start
    {
      if blocks[i].start == blocks[j].start {
        SameStartSameBlock(blocks, end, i, j);
      }
    }

    /** `splitBlock` of the block at position `block`, which is number `i`. */
    method SplitBlock(block: nat, need: nat, ghost i: nat) returns (next: nat)
      requires Coherent() && i < |blocks| && block == blocks[i].start
      requires !blocks[i].used && MIN_BLOCK <= need && need + MIN_BLOCK <= blocks[i].size
      modifies mem, this`blocks
      ensures Coherent() && blocks == Split(old(blocks), i, need) && next == block + need
      ensures forall k :: 0 <= k < mem.Length && k != block && k != next ==> mem[k] == old(mem[k])
    {
      hide Tiles, SizeOf, UsedBit, WithSize, WithUsed;
      ghost var bs := blocks;
      BelowEnd(bs, end);
      SplitTiles(bs, end, i, need);
      var fullSize := SizeOf(mem[block]);
      next := block + need;
      mem[block] := WithSize(mem[block], need);
      mem[next] := WithUsed(WithSize(mem[next], fullSize - need), false);
      blocks := Split(bs, i, need);
      BelowEnd(blocks, end);
      forall j | 0 <= j < |blocks| && j != i && j != i + 1
        ensures blocks[j].start != block && blocks[j].start != next && Encodes(mem[blocks[j].start], blocks[j])
      {
        SameStart(i, j);
        SameStart(i + 1, j);
        assert blocks[j] == bs[if j < i then j else j - 1];
      }
    }

    /** One turn of the loop in `enlargeHeap`. */
    method AddPage()
      requires RawOk(Raw(mem[..], last, end)) && end + PAGE_WORDS <= mem.Length
      modifies mem, this`last, this`end
      ensures Raw(mem[..], last, end) == OnePage(old(Raw(mem[..], last, end)))
    {
      ghost var r := Raw(mem[..], last, end);
      end := end + PAGE_WORDS;
      var block := last;
      if UsedBit(mem[last]) {
        block := last + SizeOf(mem[last]);
        mem[block] := WithSize(mem[block], 0);
        last := block;
      }
      mem[block] := WithSize(mem[block], SizeOf(mem[block]) + PAGE_WORDS);
      assert mem[..] == OnePage(r).mem;
    }

    /** The same turn seen on the tiling. */
    method GrowByPage()
      requires Formed() && FreshClean() && end + PAGE_WORDS <= mem.Length
      modifies this`end, this`last, this`blocks, mem
      ensures Formed() && FreshClean() && end == old(end) + PAGE_WORDS
      ensures blocks == Grow(old(blocks), 1)
      ensures forall k :: 0 <= k < mem.Length && !IsHeader(blocks, k) ==> mem[k] == old(mem[k])
    {
      hide Tiles, OnePage, Encodes, UsedBit, Grow;
      ghost var bs, n := blocks, |blocks| - 1;
      Layout();
      ghost var r := Raw(mem[..], last, end);
      PageAdded(r, bs[n]);
      AddPage();
      PageDescribed(r, Raw(mem[..], last, end), bs);
      GrowTiles(bs, r.end, 1);
      NextPage(r.end);
      blocks := Grow(bs, 1);
      assert forall k :: 0 <= k < mem.Length ==> mem[k] == mem[..][k] && old(mem[k]) == r.mem[k];
      assert blocks[|blocks| - 1].start == last && IsHeader(blocks, last);
    }

    /** Where the blocks and the last header are. */
    lemma Layout()
      requires Formed()
      ensures blocks != [] && last == blocks[|blocks| - 1].start && EndOf(blocks[|blocks| - 1]) == end && last < end
      ensures Encodes(mem[last], blocks[|blocks| - 1])
      ensures forall i :: 0 <= i < |blocks| - 1 ==> blocks[i].start < last
    {
      forall i | 0 <= i < |blocks| - 1 ensures blocks[i].start < last {
        StartsGrow(blocks, end, i, |blocks| - 1);
      }
    }

    method EnlargeHeap(pages: nat)
      requires Formed() && FreshClean() && end + pages * PAGE_WORDS <= mem.Length
      modifies this`end, this`last, this`blocks, mem
      ensures Formed() && FreshClean() && end == old(end) + pages * PAGE_WORDS
      ensures blocks == Grow(old(blocks), pages)
      ensures forall k :: 0 <= k < mem.Length && !IsHeader(blocks, k) ==> mem[k] == old(mem[k])
    {
      for i := 0 to pages
        invariant Formed() && FreshClean() && end == old(end) + i * PAGE_WORDS
        invariant blocks == Grow(old(blocks), i)
        invariant forall k :: 0 <= k < mem.Length && !IsHeader(blocks, k) ==> mem[k] == old(mem[k])
      {
        GrowKeepsHeaders(blocks, 1);
        GrowAgain(old(blocks), i);
        hide Formed, FreshClean, IsHeader, Grow;
        GrowByPage();
      }
    }

    /** The scan of `kmalloc`: walk from header to header until a free block suits. */
    method Scan(need: nat) returns (found: bool, block: nat, ghost i: nat)
      requires Formed()
      ensures found == FirstFit(blocks, need).Some?
      ensures found ==> i == FirstFit(blocks, need).value && block == blocks[i].start
      ensures !found ==> block == last
    {
      var ptr := 0;
      i, block, found := 0, 0, false;
      BelowEnd(blocks, end);
      while ptr < end
        invariant i <= |blocks|
        invariant ptr == if i < |blocks| then blocks[i].start else end
        invariant i > 0 ==> block == blocks[i - 1].start
        invariant FirstFit(blocks, need) == FirstFitFrom(blocks, need, i)
        decreases |blocks| - i
      {
        block := ptr;
        assert Encodes(mem[ptr], blocks[i]);
        var blockSize := SizeOf(mem[block]);
        if !UsedBit(mem[block]) && need < blockSize {
          found := true;
          return;
        }
        ptr := ptr + blockSize;
        i := i + 1;
      }
    }

    method TakeWhole(block: nat, ghost i: nat)
      requires Formed() && i < |blocks| && block == blocks[i].start
      modifies this`end, this`last, this`blocks, mem
      ensures Formed() && end == old(end) && blocks == Mark(old(blocks), i, true) && i < |blocks|
      ensures blocks[i].start == block
      ensures forall k :: 0 <= k < mem.Length && !IsHeader(blocks, k) ==> mem[k] == old(mem[k])
      ensures forall k :: end <= k < mem.Length ==> mem[k] == old(mem[k])
    {
      hide Tiles;
      SetUsed(block, true, i);
      assert blocks[i].start == block;
    }

    /** The split, the new last block if the old one was split, and the used bit. */
    method TakeFront(block: nat, need: nat, ghost i: nat)
      requires Formed() && i < |blocks| && block == blocks[i].start
      requires !blocks[i].used && MIN_BLOCK <= need && need + MIN_BLOCK <= blocks[i].size
      modifies this`end, this`last, this`blocks, mem
      ensures Formed() && end == old(end) && blocks == Mark(Split(old(blocks), i, need), i, true) && i < |blocks|
      ensures blocks[i].start == block
      ensures forall k :: 0 <= k < mem.Length && !IsHeader(blocks, k) ==> mem[k] == old(mem[k])
      ensures forall k :: end <= k < mem.Length ==> mem[k] == old(mem[k])
    {
      hide Tiles, Encodes;
      ghost var n := |blocks| - 1;
      if i < n {
        SameStart(i, n);
      }
      BelowEnd(blocks, end);
      var next := SplitBlock(block, need, i);
      if block == last {
        last := next;
      }
      SetUsed(block, true, i);
      assert blocks[i].start == block && blocks[i + 1].start == next;
    }

    /** A block that suits is taken whole, or split first when enough is left over. */
    method TakeFound(block: nat, need: nat, ghost i: nat)
      requires Formed() && MIN_BLOCK <= need && FirstFit(blocks, need) == Some(i) && block == blocks[i].start
      modifies this`end, this`last, this`blocks, mem
      ensures Formed() && end == old(end) && blocks == Malloc(old(blocks), need).blocks
      ensures Malloc(old(blocks), need).index == i && Malloc(old(blocks), need).pages == 0 && i < |blocks|
      ensures blocks[i].start == block
      ensures forall k :: 0 <= k < mem.Length && !IsHeader(blocks, k) ==> mem[k] == old(mem[k])
      ensures forall k :: end <= k < mem.Length ==> mem[k] == old(mem[k])
    {
      assert Encodes(mem[block], blocks[i]) && Suits(blocks[i], need);
      hide Formed, IsHeader, Mark, Split;
      if need >= SizeOf(mem[block]) - MIN_BLOCK {
        TakeWhole(block, i);
      } else {
        TakeFront(block, need, i);
      }
    }

    /** After growth the last block is large enough; it is split when it is too large. */
    method TakeLast(need: nat)
      requires Formed() && MIN_BLOCK <= need <= FreeTail(blocks)
      modifies this`end, this`last, this`blocks, mem
      ensures Formed() && end == old(end)
      ensures blocks == TakeEnd(old(blocks), need)
      ensures forall k :: 0 <= k < mem.Length && !IsHeader(blocks, k) ==> mem[k] == old(mem[k])
      ensures forall k :: end <= k < mem.Length ==> mem[k] == old(mem[k])
    {
      ghost var i := |blocks| - 1;
      var block := last;
      assert Encodes(mem[block], blocks[i]);
      hide Formed, IsHeader, Mark, Split;
      if need <= SizeOf(mem[block]) - MIN_BLOCK {
        TakeFront(block, need, i);
      } else {
        TakeWhole(block, i);
      }
    }

    /** The address handed to the client is the word after the header; a request for 0 bytes
        yields a null pointer. The heap must not outgrow its region. */
    method Kmalloc(size: nat) returns (r: Option<nat>)
      requires Valid() && FreshClean() && Legal(State(), Alloc(size))
      requires size > 0 ==> end + Malloc(blocks, Need(size)).pages * PAGE_WORDS <= mem.Length
      modifies this, mem
      ensures Valid() && FreshClean() && State() == HeapStep(old(State()), Alloc(size))
      ensures size == 0 ==> r == None
      ensures size > 0 ==> r.Some? && r.value >= HEADER
      ensures size > 0 ==> r.value - HEADER !in old(live) && live == old(live)[r.value - HEADER := size]
      ensures MemoryStep(State(), Alloc(size), old(mem[..]), mem[..]) && PayloadsKept()
    {
      hide Formed, HeapInv, Malloc, Growable, Need, IsHeader, RoundedBytes, Tiles;
      if size == 0 {
        return None;
      }
      var need := Need(size);
      RoundingIsSafe(size);
      AllocKeepsInv(State(), size);
      var found, block, i := Scan(need);
      if found {
        TakeFound(block, need, i);
      } else {
        block := TakeGrown(need);
      }
      live := live[block := size];
      r := Some(block + HEADER);
      PayloadsStay(Alloc(size));
    }

    /** Words that are no headers afterwards are kept, so the payloads held before are. */
    twostate lemma PayloadsStay(op: HeapOp)
      requires old(Valid()) && Legal(old(State()), op) && State() == HeapStep(old(State()), op) && op.Alloc?
      requires HeapInv(State()) && MemoryStep(State(), op, old(mem[..]), mem[..])
      ensures PayloadsKept()
    {
      hide HeapStep, Legal, Formed;
      var h := old(State());
      forall i, k: nat |
        0 <= i < |h.blocks| && h.blocks[i].start in h.live && InPayload(h.blocks[i], k) && k < mem.Length
        ensures mem[k] == old(mem[k])
      {
        LiveBlockUsed(h, h.blocks[i]);
        LiveStays(h, op, h.blocks[i].start);
        LiveBlockStays(h, op, h.blocks[i]);
        LivePayloadNoHeader(State(), h.blocks[i], k);
        assert mem[..][k] == mem[k] && old(mem[..])[k] == old(mem[k]);
      }
    }

    method TakeGrown(need: nat) returns (block: nat)
      requires Formed() && FreshClean() && MIN_BLOCK <= need < U32 / 4 && FirstFit(blocks, need).None?
      requires Growable(blocks, need)
      requires end + Malloc(blocks, need).pages * PAGE_WORDS <= mem.Length
      modifies this`end, this`last, this`blocks, mem
      ensures Formed() && FreshClean()
      ensures var a := Malloc(old(blocks), need);
        && blocks == a.blocks && end == old(end) + a.pages * PAGE_WORDS
        && a.index < |blocks| && block == blocks[a.index].start
      ensures forall k :: 0 <= k < mem.Length && !IsHeader(blocks, k) ==> mem[k] == old(mem[k])
    {
      hide Formed, IsHeader, Malloc, PagesNeeded, Growable, Grow, TakeEnd;
      ghost var bs := blocks;
      Layout();
      GrownShape(bs, need);
      Tiled();
      GrowthIsMinimal(bs, end, need, 0);
      var pages := GrowthPages(need);
      EnlargeHeap(pages);
      Layout();
      ghost var gs := blocks;
      block := last;
      TakeEndKeepsHeaders(gs, need);
      TakeLast(need);
    }

    lemma Tiled()
      requires Formed()
      ensures Tiles(blocks, end)
    {
    }

    static lemma TakeEndKeepsHeaders(gs: seq<Block>, need: nat)
      requires gs != []
      ensures |TakeEnd(gs, need)| >= |gs| && TakeEnd(gs, need)[|gs| - 1].start == gs[|gs| - 1].start
      ensures forall k :: IsHeader(gs, k) ==> IsHeader(TakeEnd(gs, need), k)
    {
      forall k | IsHeader(gs, k) ensures IsHeader(TakeEnd(gs, need), k) {
        var j :| 0 <= j < |gs| && gs[j].start == k;
        assert TakeEnd(gs, need)[j].start == k;
      }
    }

    /** The number of pages, computed in bytes and modulo 2^32 as the source does. */
    method GrowthPages(need: nat) returns (pages: nat)
      requires Formed() && FirstFit(blocks, need).None?
      ensures pages == PagesNeeded(blocks, need) == Malloc(blocks, need).pages
    {
      BelowEnd(blocks, end);
      assert Encodes(mem[last], blocks[|blocks| - 1]);
      assert !Suits(blocks[|blocks| - 1], need);
      var size, blockSize := 4 * need, if UsedBit(mem[last]) then 0 else 4 * SizeOf(mem[last]);
      pages := (size - blockSize + 0x1000 - 1) % U32 / 0x1000;
      assert size - blockSize == 4 * (need - FreeTail(blocks));
    }

    /** `kfree`: only the used bit of the header is cleared; blocks are not merged. */
    method Kfree(ptr: Option<nat>)
      requires Valid() && FreshClean()
      requires ptr.Some? ==> ptr.value >= HEADER && Legal(State(), Free(ptr.value - HEADER))
      modifies this, mem
      ensures Valid() && FreshClean()
      ensures ptr.None? ==> State() == old(State()) && mem[..] == old(mem[..])
      ensures ptr.Some? ==> State() == HeapStep(old(State()), Free(ptr.value - HEADER))
      ensures forall k :: 0 <= k < mem.Length && (ptr.None? || k != ptr.value - HEADER) ==> mem[k] == old(mem[k])
      ensures PayloadsKept()
    {
      hide Tiles, HeapInv, Encodes;
      if ptr.Some? {
        var block := ptr.value - HEADER;
        FreeKeepsInv(State(), block);
        NoHeaderInPayloads(State(), block);
        SetUsed(block, false, IndexOf(blocks, block));
        live := live - {block};
      }
    }
  }

  lemma LiveStays(h: HeapState, op: HeapOp, p: nat)
    requires HeapInv(h) && Legal(h, op) && op.Alloc? && p in h.live
    ensures p in HeapStep(h, op).live
  {
  }

  lemma NoHeaderInPayloads(h: HeapState, start: nat)
    requires HeapInv(h) && IsHeader(h.blocks, start)
    ensures forall i :: 0 <= i < |h.blocks| ==> !InPayload(h.blocks[i], start)
  {
    forall i | 0 <= i < |h.blocks| ensures !InPayload(h.blocks[i], start) {
      if InPayload(h.blocks[i], start) {
        PayloadsDisjoint(h.blocks, h.end, i, start);
      }
    }
  }
}
