/** The memory system on flat maps: who owns which physical frame, and what fork keeps. Every
    operation of module VirtualMemory has its effect here. */
module AddressSpace {
  import opened PageEntry
  import opened FlatSpace
  import opened FrameMemory

  type Bytes = seq<nat>

  /** `reserved` are the frames in use that do not belong to the lower half of a process: what
      was set aside at boot, and what was taken for a page of the upper half and not given back
      since, whether or not that page is still there. */
  datatype Flat = Flat(spaces: Spaces, used: set<nat>, reserved: set<nat>, contents: map<nat, Bytes>)

  /** The page through which fork fills the child's frames. */
  const SCRATCH: nat := KeyOf(0xffff_ffff_aa00_0000)
  const SCRATCH_ATTR: Attr := Attr(true, false, true, false)

  /** What `_mapPageTo` accepts: outside it the kernel panics. */
  predicate Allowed(vaddr: nat, a: Attr) {
    (vaddr < 0xffff_ffff_0000_0000 ==> a.public) && (vaddr > 0xffff_ffff_c000_0000 ==> !a.public)
  }

  // ----- operations

  function Read(contents: map<nat, Bytes>, frame: nat): Bytes {
    if frame in contents then contents[frame] else []
  }

  /** Frame `y` holds in `b` what frame `x` holds in `a`. */
  predicate SameBytes(a: map<nat, Bytes>, x: nat, b: map<nat, Bytes>, y: nat) {
    Read(b, y) == Read(a, x) && (x in a ==> y in b && b[y] == a[x])
  }

  predicate Has(f: Flat, d: nat, k: nat) {
    d in f.spaces && k in f.spaces[d]
  }

  function Entries(f: Flat, d: nat, k: nat): Entry {
    if Has(f, d, k) then f.spaces[d][k] else ZERO
  }

  function Put(f: Flat, d: nat, k: nat, e: Entry): Flat {
    f.(spaces := SetEntry(f.spaces, d, k, e))
  }

  function MapAt(f: Flat, d: nat, k: nat, frame: nat, a: Attr): Flat {
    Put(f, d, k, MapEntry(Entries(f, d, k), frame, a))
  }

  function TakeFrame(f: Flat, k: nat): Flat {
    var frame := NextFree(f.used);
    f.(used := f.used + {frame}, reserved := if k < LOWER_KEYS then f.reserved else f.reserved + {frame})
  }

  /** `mapPage`: on the lowest free frame, or deferred on none. */
  function MapFresh(f: Flat, d: nat, k: nat, a: Attr): Flat {
    if a.defer then MapAt(f, d, k, INVALID_PAGE, a)
    else MapAt(TakeFrame(f, k), d, k, NextFree(f.used), a)
  }

  predicate Deferred(e: Entry) {
    !e.p && e.base == INVALID_PAGE
  }

  /** `handleFault`: a deferred page gets its frame, anything else is left alone. */
  function ServeFault(f: Flat, d: nat, k: nat): Flat {
    if Deferred(Entries(f, d, k)) then Put(TakeFrame(f, k), d, k, FaultEntry(Entries(f, d, k), NextFree(f.used)))
    else f
  }

  function Unmap(f: Flat, d: nat, k: nat): Flat {
    Put(f, d, k, UnmapEntry(Entries(f, d, k)))
  }

  /** `mapKernel` for a new directory. */
  function AddDirectory(f: Flat, d: nat): Flat
    requires 0 in f.spaces
  {
    f.(spaces := f.spaces[d := KernelOnly(f.spaces[0])])
  }

  /** The parent maps `frame` at the scratch page, copies its page `k` there, and unmaps it. */
  function FillFrame(f: Flat, parent: nat, k: nat, frame: nat): Flat {
    var f1 := MapAt(f, parent, SCRATCH, frame, SCRATCH_ATTR);
    var source, target := Entries(f1, parent, k).base, Entries(f1, parent, SCRATCH).base;
    var f2 := f1.(contents := f1.contents[target := Read(f1.contents, source)]);
    Unmap(f2, parent, SCRATCH)
  }

  /** One turn of the loop in `clone`. */
  function CopyPage(f: Flat, parent: nat, child: nat, k: nat): Flat {
    var a := GetAttributes(Entries(f, parent, k));
    var f1 := MapFresh(f, child, k, a);
    if a.defer then f1 else FillFrame(f1, parent, k, NextFree(f.used))
  }

  function CopyPages(f: Flat, parent: nat, child: nat, keys: seq<nat>): Flat {
    if keys == [] then f
    else CopyPage(CopyPages(f, parent, child, keys[..|keys| - 1]), parent, child, keys[|keys| - 1])
  }

  /** `clone`: a new directory, and every valid lower-half page of the parent copied. */
  function Fork(f: Flat, parent: nat, child: nat, keys: seq<nat>): Flat
    requires 0 in f.spaces
  {
    CopyPages(AddDirectory(f, child), parent, child, keys)
  }

  /** The frames under the present lower-half pages. */
  function LowerFrames(sp: FlatMap): set<nat> {
    set k | k in sp && k < LOWER_KEYS && sp[k].p :: sp[k].base
  }

  function Teardown(f: Flat, d: nat): Flat
    requires 0 in f.spaces && d in f.spaces
  {
    f.(spaces := f.spaces[d := KernelOnly(f.spaces[0])], used := f.used - LowerFrames(f.spaces[d]))
  }

  /** The pages `forEachUserPage` visits: the valid ones of the lower half, ascending. */
  ghost predicate IsUserKeys(sp: FlatMap, keys: seq<nat>) {
    && (forall i, j :: 0 <= i < j < |keys| ==> keys[i] < keys[j])
    && (forall k :: k in keys <==> k in sp && k < LOWER_KEYS && IsValid(sp[k]))
  }

  // ----- ownership

  /** The lower-half entry of page `k` in directory `d`. */
  function Low(ss: Spaces, d: nat, k: nat): Entry {
    if d in ss && k < LOWER_KEYS && k in ss[d] then ss[d][k] else ZERO
  }

  predicate MayHold(f: Flat, frame: nat) {
    frame in f.used && frame !in f.reserved && frame != INVALID_PAGE
  }

  ghost predicate FramesHeld(f: Flat) {
    forall d: nat, k: nat :: Low(f.spaces, d, k).p ==> MayHold(f, Low(f.spaces, d, k).base)
  }

  ghost predicate FramesDistinct(f: Flat) {
    forall d: nat, k: nat, d': nat, k': nat :: (d, k) != (d', k') ==>
      !(Low(f.spaces, d, k).p && Low(f.spaces, d', k').p && Low(f.spaces, d, k).base == Low(f.spaces, d', k').base)
  }

  /** Every valid lower-half page is open to user mode. */
  ghost predicate LowerPublic(f: Flat) {
    forall d: nat, k: nat :: IsValid(Low(f.spaces, d, k)) ==> Low(f.spaces, d, k).us
  }

  ghost predicate Owned(f: Flat) {
    Coherent(f.spaces) && 0 in f.spaces && f.reserved <= f.used && FramesHeld(f) && FramesDistinct(f) && LowerPublic(f)
  }

  /** Writing an entry touches at most one page of one directory in the lower half. */
  lemma PutLow(f: Flat, d: nat, k: nat, e: Entry)
    requires Has(f, d, k)
    ensures forall d': nat, k': nat :: 
      Low(Put(f, d, k, e).spaces, d', k') == (if d == d' && k == k' && k < LOWER_KEYS then e else Low(f.spaces, d', k'))
  {
    assert IsKernelKey(k) ==> k >= LOWER_KEYS;
  }

  /** What may be written into a lower-half entry without disturbing ownership. */
  ghost predicate MayPut(f: Flat, e: Entry) {
    && (e.p ==> MayHold(f, e.base))
    && (e.p ==> forall d: nat, k: nat :: Low(f.spaces, d, k).p ==> Low(f.spaces, d, k).base != e.base)
    && (IsValid(e) ==> e.us)
  }

  lemma PutOwned(f: Flat, d: nat, k: nat, e: Entry)
    requires Owned(f) && Has(f, d, k) && (k < LOWER_KEYS ==> MayPut(f, e))
    ensures Owned(Put(f, d, k, e))
  {
    SetEntryCoherent(f.spaces, d, k, e);
    PutLow(f, d, k, e);
    hide Coherent, SetEntry, Low;
  }

  lemma TakeFrameOwned(f: Flat, k: nat)
    requires Owned(f)
    ensures Owned(TakeFrame(f, k))
  {
    hide Coherent, Low;
  }

  /** Below the upper half every allowed mapping is public. */
  lemma LowerIsPublic(vaddr: nat, a: Attr)
    requires vaddr < 0x1_0000_0000_0000_0000 && Allowed(vaddr, a) && KeyOf(vaddr) < LOWER_KEYS
    ensures a.public
  {
  }

  /** A frame just taken may go into any lower-half entry. */
  lemma FreshMayPut(f: Flat, k: nat, e: Entry)
    requires Owned(f) && k < LOWER_KEYS && |f.used| < INVALID_PAGE
    requires e.p && e.us && e.base == NextFree(f.used)
    ensures MayPut(TakeFrame(f, k), e)
  {
    hide Coherent, Low;
    NextFreeBound(f.used);
  }

  lemma MapFreshOwned(f: Flat, d: nat, k: nat, a: Attr)
    requires Owned(f) && Has(f, d, k) && !f.spaces[d][k].p && |f.used| < INVALID_PAGE && (k < LOWER_KEYS ==> a.public)
    ensures Owned(MapFresh(f, d, k, a))
  {
    hide Owned;
    if a.defer {
      PutOwned(f, d, k, MapEntry(f.spaces[d][k], INVALID_PAGE, a));
    } else {
      var e := MapEntry(f.spaces[d][k], NextFree(f.used), a);
      TakeFrameOwned(f, k);
      if k < LOWER_KEYS {
        FreshMayPut(f, k, e);
      }
      PutOwned(TakeFrame(f, k), d, k, e);
    }
  }

  lemma FaultOwned(f: Flat, d: nat, k: nat)
    requires Owned(f) && Has(f, d, k) && |f.used| < INVALID_PAGE
    ensures Owned(ServeFault(f, d, k))
  {
    hide Coherent;
    if Deferred(f.spaces[d][k]) {
      var e := FaultEntry(Entries(f, d, k), NextFree(f.used));
      TakeFrameOwned(f, k);
      if k < LOWER_KEYS {
        assert Low(f.spaces, d, k) == f.spaces[d][k];
        FreshMayPut(f, k, e);
      }
      PutOwned(TakeFrame(f, k), d, k, e);
    }
  }

  /** A directory that holds only the kernel has nothing in the lower half. */
  lemma KernelOnlyLow(ss: Spaces, d: nat, sp: FlatMap)
    ensures forall d': nat, k: nat :: Low(ss[d := KernelOnly(sp)], d', k) == if d' == d then ZERO else Low(ss, d', k)
  {
    var ss' := ss[d := KernelOnly(sp)];
    forall d': nat, k: nat ensures Low(ss', d', k) == if d' == d then ZERO else Low(ss, d', k) {
      assert IsKernelKey(k) ==> k >= LOWER_KEYS;
    }
  }

  /** Emptying the lower half of `d` disturbs nobody else, if the others keep their frames. */
  lemma EmptiedOwned(f: Flat, f': Flat, d: nat)
    requires Owned(f) && Coherent(f'.spaces) && 0 in f'.spaces && f'.reserved == f.reserved <= f'.used
    requires forall d': nat, k: nat :: Low(f'.spaces, d', k) == if d' == d then ZERO else Low(f.spaces, d', k)
    requires forall d': nat, k: nat :: d' != d && Low(f.spaces, d', k).p ==> Low(f.spaces, d', k).base in f'.used
    ensures Owned(f')
  {
    hide Coherent, Low;
    forall d': nat, k: nat | Low(f'.spaces, d', k).p ensures MayHold(f', Low(f'.spaces, d', k).base) {
      assert Low(f.spaces, d', k).p;
    }
  }

  lemma AddDirectoryOwned(f: Flat, d: nat)
    requires Owned(f) && d !in f.spaces
    ensures Owned(AddDirectory(f, d))
  {
    KernelOnlyCoherent(f.spaces, d, 0);
    KernelOnlyLow(f.spaces, d, f.spaces[0]);
    EmptiedOwned(f, AddDirectory(f, d), d);
  }

  /** Teardown gives back exactly the frames of the lower half, and nobody else held them. */
  lemma TeardownOwned(f: Flat, d: nat)
    requires Owned(f) && d in f.spaces
    ensures Owned(Teardown(f, d))
  {
    KernelOnlyCoherent(f.spaces, d, 0);
    KernelOnlyLow(f.spaces, d, f.spaces[0]);
    LowerFramesLow(f.spaces, d);
    hide Low, LowerFrames;
    EmptiedOwned(f, Teardown(f, d), d);
  }

  lemma LowerFramesLow(ss: Spaces, d: nat)
    requires d in ss
    ensures forall x :: x in LowerFrames(ss[d]) <==> exists k: nat :: Low(ss, d, k).p && Low(ss, d, k).base == x
  {
    forall x | x in LowerFrames(ss[d]) ensures exists k: nat :: Low(ss, d, k).p && Low(ss, d, k).base == x {
      var k :| k in ss[d] && k < LOWER_KEYS && ss[d][k].p && ss[d][k].base == x;
      assert Low(ss, d, k).p;
    }
  }

  /** A directory that goes away takes no frame with it. */
  lemma DestroyOwned(f: Flat, d: nat)
    requires Owned(f) && d != 0
    ensures Owned(f.(spaces := f.spaces - {d}))
  {
    assert forall d': nat, k: nat :: Low(f.spaces - {d}, d', k) == if d' == d then ZERO else Low(f.spaces, d', k);
    assert Coherent(f.spaces - {d});
    EmptiedOwned(f, f.(spaces := f.spaces - {d}), d);
  }

  /** Frames set aside go back one at a time. */
  lemma KernelFreeOwned(f: Flat, frame: nat)
    requires Owned(f) && frame in f.reserved
    ensures Owned(f.(used := f.used - {frame}, reserved := f.reserved - {frame}))
  {
    hide Coherent, Low;
  }

  // ----- fork

  /** The child's page `k` stands for the parent's: same attributes, same deferral, its own
      frame with the same bytes. */
  ghost predicate PageCopied(f: Flat, g: Flat, parent: nat, child: nat, k: nat) {
    var old_, new_ := Low(f.spaces, parent, k), Low(g.spaces, child, k);
    && IsValid(new_) && GetAttributes(new_) == GetAttributes(old_)
    && (new_.p ==> new_.base !in f.used && SameBytes(f.contents, old_.base, g.contents, new_.base))
  }

  /** The scratch page may have been used; it is not mapped now, and the rest of the upper
      half is as it was. */
  ghost predicate UpperKept(f: Flat, g: Flat, parent: nat) {
    && g.spaces.Keys == f.spaces.Keys
    && (forall d, k :: d in f.spaces && LOWER_KEYS <= k < KEYS && (d, k) != (parent, SCRATCH) ==>
         Entries(g, d, k) == Entries(f, d, k))
    && !Entries(g, parent, SCRATCH).p
  }

  /** After the pages in `done` have been cloned. */
  ghost predicate CopiedUpTo(f: Flat, g: Flat, parent: nat, child: nat, done: set<nat>) {
    && Owned(g) && UpperKept(f, g, parent)
    && f.used <= g.used && |g.used| <= |f.used| + |done|
    && (forall x :: x in f.used ==> SameBytes(f.contents, x, g.contents, x))
    && (forall d: nat, k: nat :: d != child ==> Low(g.spaces, d, k) == Low(f.spaces, d, k))
    && (forall k: nat :: if k in done then PageCopied(f, g, parent, child, k) else Low(g.spaces, child, k) == ZERO)
  }

  ghost predicate CanClone(f: Flat, parent: nat, child: nat) {
    && Owned(f) && parent in f.spaces && child in f.spaces && parent != child
    && !Entries(f, parent, SCRATCH).p
  }

  lemma PutEntries(f: Flat, d: nat, k: nat, e: Entry)
    requires Has(f, d, k) && Coherent(f.spaces)
    ensures Put(f, d, k, e).spaces.Keys == f.spaces.Keys
    ensures forall d': nat, k': nat :: d' in f.spaces ==>
      Entries(Put(f, d, k, e), d', k') == if k' == k && (d' == d || IsKernelKey(k)) then e else Entries(f, d', k')
  {
  }

  lemma ScratchPlace()
    ensures LOWER_KEYS <= SCRATCH < KEYS && !IsKernelKey(SCRATCH)
  {
  }

  /** Filling a frame through the scratch page changes that frame's bytes, and no mapping. */
  lemma FillFrameEffect(f: Flat, parent: nat, k: nat, frame: nat)
    requires Owned(f) && parent in f.spaces && k < LOWER_KEYS && Has(f, parent, k) && Has(f, parent, SCRATCH)
    ensures var h := FillFrame(f, parent, k, frame);
      && Owned(h) && UpperKept(f, h, parent) && h.used == f.used
      && (forall d': nat, k': nat :: Low(h.spaces, d', k') == Low(f.spaces, d', k'))
      && h.contents == f.contents[frame := Read(f.contents, Low(f.spaces, parent, k).base)]
  {
    ScratchPlace();
    hide IsKernelKey;
    var e := MapEntry(f.spaces[parent][SCRATCH], frame, SCRATCH_ATTR);
    var f1 := MapAt(f, parent, SCRATCH, frame, SCRATCH_ATTR);
    PutEntries(f, parent, SCRATCH, e);
    PutLow(f, parent, SCRATCH, e);
    PutOwned(f, parent, SCRATCH, e);
    assert Entries(f1, parent, SCRATCH) == e && Entries(f1, parent, k) == Entries(f, parent, k);
    var f2 := f1.(contents := f1.contents[frame := Read(f1.contents, f.spaces[parent][k].base)]);
    assert Owned(f2);
    assert Has(f2, parent, SCRATCH);
    PutEntries(f2, parent, SCRATCH, UnmapEntry(e));
    PutLow(f2, parent, SCRATCH, UnmapEntry(e));
    PutOwned(f2, parent, SCRATCH, UnmapEntry(e));
  }

  lemma MapFreshEffect(f: Flat, child: nat, k: nat, a: Attr)
    requires Owned(f) && Has(f, child, k) && k < LOWER_KEYS && Low(f.spaces, child, k) == ZERO && a.public
    requires |f.used| < INVALID_PAGE
    ensures var h, frame := MapFresh(f, child, k, a), if a.defer then INVALID_PAGE else NextFree(f.used);
      && Owned(h) && h.contents == f.contents
      && h.used == (if a.defer then f.used else f.used + {frame})
      && h.spaces.Keys == f.spaces.Keys
      && (forall d': nat, k': nat :: LOWER_KEYS <= k' && d' in f.spaces ==> Entries(h, d', k') == Entries(f, d', k'))
      && (forall d': nat, k': nat :: Low(h.spaces, d', k') ==
           if d' == child && k' == k then MapEntry(ZERO, frame, a) else Low(f.spaces, d', k'))
  {
    MapFreshOwned(f, child, k, a);
    hide Owned;
    var frame := if a.defer then INVALID_PAGE else NextFree(f.used);
    var g := if a.defer then f else TakeFrame(f, k);
    assert IsKernelKey(k) ==> k >= LOWER_KEYS;
    assert Coherent(f.spaces) by { OwnedCoherent(f); }
    PutEntries(g, child, k, MapEntry(ZERO, frame, a));
    PutLow(g, child, k, MapEntry(ZERO, frame, a));
    hide Low, Put, Entries;
  }

  lemma OwnedCoherent(f: Flat)
    requires Owned(f)
    ensures Coherent(f.spaces)
  {
  }

  /** What one turn of the clone loop does to the store it starts from. */
  ghost predicate CopyStep(g: Flat, h: Flat, parent: nat, child: nat, k: nat, e: Entry) {
    && Owned(h) && UpperKept(g, h, parent)
    && (forall d': nat, k': nat :: Low(h.spaces, d', k') == if d' == child && k' == k then e else Low(g.spaces, d', k'))
    && IsValid(e) && GetAttributes(e) == GetAttributes(Low(g.spaces, parent, k))
    && (if e.p then
          && e.base !in g.used && h.used == g.used + {e.base}
          && h.contents == g.contents[e.base := Read(g.contents, Low(g.spaces, parent, k).base)]
        else h.used == g.used && h.contents == g.contents)
  }

  lemma CopyDeferred(g: Flat, parent: nat, child: nat, k: nat, e: Entry)
    requires CanClone(g, parent, child) && k < LOWER_KEYS && |g.used| < INVALID_PAGE
    requires Has(g, parent, k) && Has(g, child, k) && Has(g, parent, SCRATCH)
    requires Deferred(Low(g.spaces, parent, k)) && Low(g.spaces, child, k) == ZERO
    requires e == MapEntry(ZERO, INVALID_PAGE, GetAttributes(Low(g.spaces, parent, k)))
    ensures CopyStep(g, CopyPage(g, parent, child, k), parent, child, k, e)
  {
    ScratchPlace();
    var a := GetAttributes(Low(g.spaces, parent, k));
    assert a.public && g.spaces[parent][k] == Low(g.spaces, parent, k);
    hide Owned, Low;
    MapFreshEffect(g, child, k, a);
    hide MapFresh;
  }

  lemma SourceEntry(g: Flat, parent: nat, k: nat)
    requires Owned(g) && k < LOWER_KEYS && IsValid(Low(g.spaces, parent, k))
    ensures Entries(g, parent, k) == Low(g.spaces, parent, k) && Low(g.spaces, parent, k).us
  {
  }

  lemma CopyPresent(g: Flat, parent: nat, child: nat, k: nat, e: Entry)
    requires CanClone(g, parent, child) && k < LOWER_KEYS && |g.used| < INVALID_PAGE
    requires Has(g, parent, k) && Has(g, child, k) && Has(g, parent, SCRATCH)
    requires Low(g.spaces, parent, k).p && Low(g.spaces, child, k) == ZERO
    requires e == MapEntry(ZERO, NextFree(g.used), GetAttributes(Low(g.spaces, parent, k)))
    ensures CopyStep(g, CopyPage(g, parent, child, k), parent, child, k, e)
  {
    hide Owned, Low, MapFresh, FillFrame, Entries, Has;
    ScratchPlace();
    NextFreeBound(g.used);
    SourceEntry(g, parent, k);
    var a := GetAttributes(Low(g.spaces, parent, k));
    MapFreshEffect(g, child, k, a);
    var h := MapFresh(g, child, k, a);
    assert Low(h.spaces, parent, k) == Low(g.spaces, parent, k);
    StillHas(g, h, parent, k);
    FillFrameEffect(h, parent, k, NextFree(g.used));
  }

  lemma StillHas(g: Flat, h: Flat, parent: nat, k: nat)
    requires Owned(g) && Owned(h) && g.spaces.Keys == h.spaces.Keys && parent in g.spaces && k < KEYS
    ensures Has(h, parent, k) && Has(h, parent, SCRATCH)
  {
    ScratchPlace();
  }

  lemma CopyPageEffect(g: Flat, parent: nat, child: nat, k: nat) returns (e: Entry)
    requires CanClone(g, parent, child) && k < LOWER_KEYS && |g.used| < INVALID_PAGE
    requires IsValid(Low(g.spaces, parent, k)) && Low(g.spaces, child, k) == ZERO
    ensures Has(g, parent, k) && Has(g, child, k) && Has(g, parent, SCRATCH)
    ensures CopyStep(g, CopyPage(g, parent, child, k), parent, child, k, e)
  {
    StillHas(g, g, parent, k);
    StillHas(g, g, child, k);
    hide Owned, CopyPage, CopyStep;
    var a := GetAttributes(Low(g.spaces, parent, k));
    e := MapEntry(ZERO, if a.defer then INVALID_PAGE else NextFree(g.used), a);
    if a.defer {
      CopyDeferred(g, parent, child, k, e);
    } else {
      CopyPresent(g, parent, child, k, e);
    }
  }

  /** One more page cloned. */
  lemma CopyPageKeeps(f: Flat, g: Flat, parent: nat, child: nat, done: set<nat>, k: nat)
    requires CanClone(f, parent, child) && CopiedUpTo(f, g, parent, child, done) && k !in done
    requires k < LOWER_KEYS && IsValid(Low(f.spaces, parent, k)) && |f.used| + |done| < INVALID_PAGE
    ensures Has(g, parent, k) && Has(g, child, k) && Has(g, parent, SCRATCH)
    ensures CopiedUpTo(f, CopyPage(g, parent, child, k), parent, child, done + {k})
  {
    hide Low, CopyPage, PageCopied;
    assert CanClone(g, parent, child);
    var e := CopyPageEffect(g, parent, child, k);
    var h := CopyPage(g, parent, child, k);
    ReadSource(f, g, parent, child, done, k);
    StillCopied(f, g, h, parent, child, done, k, e);
    UpperKeptTwice(f, g, h, parent);
  }

  lemma UpperKeptTwice(f: Flat, g: Flat, h: Flat, parent: nat)
    requires UpperKept(f, g, parent) && UpperKept(g, h, parent)
    ensures UpperKept(f, h, parent)
  {
    hide Entries;
  }

  /** The page still to be copied reads as it did when the clone began. */
  lemma ReadSource(f: Flat, g: Flat, parent: nat, child: nat, done: set<nat>, k: nat)
    requires CanClone(f, parent, child) && CopiedUpTo(f, g, parent, child, done)
    ensures var e := Low(f.spaces, parent, k);
      Low(g.spaces, parent, k) == e && (e.p ==> SameBytes(f.contents, e.base, g.contents, e.base))
  {
    hide Low, PageCopied;
  }

  lemma StillCopied(f: Flat, g: Flat, h: Flat, parent: nat, child: nat, done: set<nat>, k: nat, e: Entry)
    requires CopiedUpTo(f, g, parent, child, done) && k !in done && parent != child
    requires CopyStep(g, h, parent, child, k, e) && Low(g.spaces, parent, k) == Low(f.spaces, parent, k)
    requires IsValid(Low(f.spaces, parent, k))
    requires var source := Low(f.spaces, parent, k);
      source.p ==> SameBytes(f.contents, source.base, g.contents, source.base)
    ensures f.used <= h.used && |h.used| <= |f.used| + |done + {k}|
    ensures forall x :: x in f.used ==> SameBytes(f.contents, x, h.contents, x)
    ensures forall d: nat, k: nat :: d != child ==> Low(h.spaces, d, k) == Low(f.spaces, d, k)
    ensures forall k': nat ::
      if k' in done + {k} then PageCopied(f, h, parent, child, k') else Low(h.spaces, child, k') == ZERO
  {
    hide UpperKept, Owned, Low;
    forall k': nat | k' in done ensures PageCopied(f, h, parent, child, k') {
      assert PageCopied(f, g, parent, child, k');
      OldCopyKept(f, g, h, parent, child, k, k', e);
    }
    assert PageCopied(f, h, parent, child, k);
    hide PageCopied;
  }

  lemma OldCopyKept(f: Flat, g: Flat, h: Flat, parent: nat, child: nat, k: nat, k': nat, e: Entry)
    requires Owned(g) && CopyStep(g, h, parent, child, k, e) && PageCopied(f, g, parent, child, k') && k' != k
    ensures PageCopied(f, h, parent, child, k')
  {
    hide UpperKept, FramesDistinct, LowerPublic, Coherent, Low;
    var c := Low(g.spaces, child, k');
    assert c.p ==> MayHold(g, c.base);
  }

  lemma {:induction false} CopyPagesKeep(f: Flat, parent: nat, child: nat, keys: seq<nat>)
    requires CanClone(f, parent, child) && |f.used| + |keys| <= INVALID_PAGE
    requires forall i, j :: 0 <= i < j < |keys| ==> keys[i] != keys[j]
    requires forall k :: k in keys ==> k < LOWER_KEYS && IsValid(Low(f.spaces, parent, k))
    requires forall k: nat :: Low(f.spaces, child, k) == ZERO
    ensures CopiedUpTo(f, CopyPages(f, parent, child, keys), parent, child, KeySet(keys)) && |KeySet(keys)| == |keys|
    decreases |keys|
  {
    hide CanClone, CopyPage, Low, CopiedUpTo, KeySet, Has, IsValid;
    if keys == [] {
      NothingCopied(f, parent, child);
      assert KeySet([]) == {} by { EmptyKeySet(); }
    } else {
      var n := |keys| - 1;
      KeySetStep(keys);
      assert keys[n] in keys;
      CopyPagesKeep(f, parent, child, keys[..n]);
      CopyPageKeeps(f, CopyPages(f, parent, child, keys[..n]), parent, child, KeySet(keys[..n]), keys[n]);
    }
  }

  lemma EmptyKeySet()
    ensures KeySet([]) == {}
  {
  }

  lemma KeySetStep(keys: seq<nat>)
    requires keys != [] && forall i, j :: 0 <= i < j < |keys| ==> keys[i] != keys[j]
    ensures var n := |keys| - 1;
      && KeySet(keys) == KeySet(keys[..n]) + {keys[n]} && keys[n] !in KeySet(keys[..n])
      && (forall k :: k in keys[..n] ==> k in keys)
  {
  }

  function KeySet(keys: seq<nat>): set<nat> {
    set k | k in keys
  }

  lemma NothingCopied(f: Flat, parent: nat, child: nat)
    requires CanClone(f, parent, child) && forall k: nat :: Low(f.spaces, child, k) == ZERO
    ensures CopiedUpTo(f, f, parent, child, {})
  {
  }

  /** The state that the loop of a fork ends in. */
  lemma ForkCopies(f: Flat, parent: nat, child: nat, keys: seq<nat>)
    requires Owned(f) && parent in f.spaces && child !in f.spaces && !Entries(f, parent, SCRATCH).p
    requires IsUserKeys(f.spaces[parent], keys) && |f.used| + |keys| <= INVALID_PAGE
    ensures CopiedUpTo(AddDirectory(f, child), Fork(f, parent, child, keys), parent, child, KeySet(keys))
    ensures forall d': nat, k: nat ::
      Low(AddDirectory(f, child).spaces, d', k) == (if d' == child then ZERO else Low(f.spaces, d', k))
    ensures forall k: nat :: k in keys <==> IsValid(Low(f.spaces, parent, k))
  {
    var f0 := AddDirectory(f, child);
    AddDirectoryOwned(f, child);
    KernelOnlyLow(f.spaces, child, f.spaces[0]);
    assert forall d': nat, k: nat :: Low(f0.spaces, d', k) == if d' == child then ZERO else Low(f.spaces, d', k);
    assert forall k: nat :: k in keys <==> IsValid(Low(f.spaces, parent, k));
    assert CanClone(f0, parent, child);
    CopyPagesKeep(f0, parent, child, keys);
  }

  /** Fork preserves meaning. The child has the parent's lower half: the same pages, the same
      attributes, the same deferral, the same bytes in frames that were free. No mapping of
      the parent or of anybody else has changed, and the scratch page is unmapped again. */
  lemma ForkPreserves(f: Flat, parent: nat, child: nat, keys: seq<nat>)
    requires Owned(f) && parent in f.spaces && child !in f.spaces && !Entries(f, parent, SCRATCH).p
    requires IsUserKeys(f.spaces[parent], keys) && |f.used| + |keys| <= INVALID_PAGE
    ensures var g := Fork(f, parent, child, keys);
      && Owned(g)
      && (forall k: nat :: if IsValid(Low(f.spaces, parent, k)) then PageCopied(f, g, parent, child, k)
                           else Low(g.spaces, child, k) == ZERO)
      && (forall d, k: nat :: d in f.spaces && (d, k) != (parent, SCRATCH) ==> Entries(g, d, k) == Entries(f, d, k))
      && !Entries(g, parent, SCRATCH).p
      && (forall x :: x in f.used ==> SameBytes(f.contents, x, g.contents, x))
      && BytesCopied(f.spaces, f.contents, g.spaces, g.contents, parent, child)
      && (forall x :: x in f.used && x in f.contents ==> x in g.contents && g.contents[x] == f.contents[x])
  {
    ForkCopies(f, parent, child, keys);
    EverybodyKept(f, AddDirectory(f, child), Fork(f, parent, child, keys), parent, child, KeySet(keys));
    CopiedBytes(f, Fork(f, parent, child, keys), parent, child);
  }

  /** Under every present user page of the parent that holds bytes, the child has a page, on a
      frame that holds the same bytes. */
  ghost predicate BytesCopied(ss: Spaces, a: map<nat, Bytes>, ss': Spaces, b: map<nat, Bytes>,
                              parent: nat, child: nat) {
    forall k: nat :: Low(ss, parent, k).p && Low(ss, parent, k).base in a ==>
      && Low(ss', child, k).p && Low(ss', child, k).base in b
      && b[Low(ss', child, k).base] == a[Low(ss, parent, k).base]
  }

  lemma CopiedBytes(f: Flat, g: Flat, parent: nat, child: nat)
    requires forall k: nat :: IsValid(Low(f.spaces, parent, k)) ==> PageCopied(f, g, parent, child, k)
    ensures BytesCopied(f.spaces, f.contents, g.spaces, g.contents, parent, child)
  {
    hide Low;
    forall k: nat | Low(f.spaces, parent, k).p ensures PageCopied(f, g, parent, child, k) && Low(g.spaces, child, k).p {
      assert IsValid(Low(f.spaces, parent, k));
    }
  }

  lemma EverybodyKept(f: Flat, f0: Flat, g: Flat, parent: nat, child: nat, done: set<nat>)
    requires Owned(f) && child !in f.spaces && f0 == AddDirectory(f, child) && CopiedUpTo(f0, g, parent, child, done)
    ensures forall d, k: nat :: d in f.spaces && (d, k) != (parent, SCRATCH) ==> Entries(g, d, k) == Entries(f, d, k)
  {
    forall d, k: nat | d in f.spaces && (d, k) != (parent, SCRATCH) ensures Entries(g, d, k) == Entries(f, d, k) {
      assert d in f0.spaces && f0.spaces[d] == f.spaces[d];
      if k < LOWER_KEYS {
        assert Low(g.spaces, d, k) == Low(f0.spaces, d, k);
      }
    }
  }
}
