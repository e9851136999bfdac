/** Runs of the memory system: frame ownership, and the isolation of user pages from everything
    that the kernel keeps in physical memory. */
module AddressRuns {
  import opened PageEntry
  import opened FlatSpace
  import opened FrameMemory
  import opened AddressSpace

  // ----- the upper half

  /** The upper-half entry of page `k` in directory `d`. */
  function High(ss: Spaces, d: nat, k: nat): Entry {
    if d in ss && k >= LOWER_KEYS && k in ss[d] then ss[d][k] else ZERO
  }

  predicate OneSlot(d: nat, k: nat, d': nat, k': nat) {
    k == k' && (d == d' || IsKernelKey(k))
  }

  /** What is mapped in the upper half is set aside. */
  ghost predicate UpperHeld(f: Flat) {
    forall d: nat, k: nat :: High(f.spaces, d, k).p ==> High(f.spaces, d, k).base in f.reserved
  }

  /** No frame is mapped twice in the upper half, except through the shared kernel gigabyte. */
  ghost predicate UpperDistinct(f: Flat) {
    forall d: nat, k: nat, d': nat, k': nat :: !OneSlot(d, k, d', k') ==>
      !(High(f.spaces, d, k).p && High(f.spaces, d', k').p && High(f.spaces, d, k).base == High(f.spaces, d', k').base)
  }

  ghost predicate Isolated(f: Flat) {
    Owned(f) && UpperHeld(f) && UpperDistinct(f)
  }

  lemma PutHigh(f: Flat, d: nat, k: nat, e: Entry)
    requires Has(f, d, k)
    ensures forall d': nat, k': nat ::
      High(Put(f, d, k, e).spaces, d', k') ==
        (if k' == k && k >= LOWER_KEYS && d' in f.spaces && (d' == d || IsKernelKey(k)) then e
         else High(f.spaces, d', k'))
  {
  }

  /** Nobody else has the frame in the upper half. */
  ghost predicate OnlyAt(f: Flat, frame: nat, d: nat, k: nat) {
    forall d': nat, k': nat :: High(f.spaces, d', k').p && High(f.spaces, d', k').base == frame ==>
      OneSlot(d, k, d', k')
  }

  lemma PutUpper(f: Flat, d: nat, k: nat, e: Entry)
    requires UpperHeld(f) && UpperDistinct(f) && Has(f, d, k)
    requires k >= LOWER_KEYS && e.p ==> e.base in f.reserved && OnlyAt(f, e.base, d, k)
    ensures UpperHeld(Put(f, d, k, e)) && UpperDistinct(Put(f, d, k, e))
  {
    hide High, SetEntry, Has;
    PutHigh(f, d, k, e);
  }

  lemma TakeFrameUpper(f: Flat, k: nat)
    requires Owned(f) && UpperHeld(f) && UpperDistinct(f)
    ensures var g := TakeFrame(f, k); UpperHeld(g) && UpperDistinct(g) && g.spaces == f.spaces
    ensures forall d :: OnlyAt(TakeFrame(f, k), NextFree(f.used), d, k)
    ensures k >= LOWER_KEYS ==> NextFree(f.used) in TakeFrame(f, k).reserved
  {
    hide High, Coherent, FramesHeld, FramesDistinct, LowerPublic;
  }

  lemma MapFreshUpper(f: Flat, d: nat, k: nat, a: Attr)
    requires Isolated(f) && Has(f, d, k)
    ensures UpperHeld(MapFresh(f, d, k, a)) && UpperDistinct(MapFresh(f, d, k, a))
  {
    hide Owned, UpperHeld, UpperDistinct;
    TakeFrameUpper(f, k);
    var e := Entries(f, d, k);
    if a.defer {
      PutUpper(f, d, k, MapEntry(e, INVALID_PAGE, a));
    } else {
      PutUpper(TakeFrame(f, k), d, k, MapEntry(e, NextFree(f.used), a));
    }
  }

  lemma FaultUpper(f: Flat, d: nat, k: nat)
    requires Isolated(f) && Has(f, d, k)
    ensures UpperHeld(ServeFault(f, d, k)) && UpperDistinct(ServeFault(f, d, k))
  {
    hide Owned, UpperHeld, UpperDistinct;
    TakeFrameUpper(f, k);
    if Deferred(Entries(f, d, k)) {
      PutUpper(TakeFrame(f, k), d, k, FaultEntry(Entries(f, d, k), NextFree(f.used)));
    }
  }

  /** A directory that is new, or emptied, sees at most the kernel gigabyte. */
  lemma KernelOnlyUpper(f: Flat, f': Flat, d: nat)
    requires UpperHeld(f) && UpperDistinct(f) && Coherent(f.spaces) && 0 in f.spaces && f'.reserved == f.reserved
    requires f'.spaces == f.spaces[d := KernelOnly(f.spaces[0])]
    ensures UpperHeld(f') && UpperDistinct(f')
  {
    forall d': nat, k: nat
      ensures High(f'.spaces, d', k) ==
        (if d' == d then if k < KEYS && IsKernelKey(k) then High(f.spaces, 0, k) else ZERO else High(f.spaces, d', k))
    {
      assert k < KEYS && IsKernelKey(k) ==> k >= LOWER_KEYS;
    }
    KernelOnlyDistinct(f, f', d);
  }

  lemma KernelOnlyDistinct(f: Flat, f': Flat, d: nat)
    requires UpperHeld(f) && UpperDistinct(f) && f'.reserved == f.reserved
    requires forall d': nat, k: nat ::
      High(f'.spaces, d', k) ==
        (if d' == d then if k < KEYS && IsKernelKey(k) then High(f.spaces, 0, k) else ZERO else High(f.spaces, d', k))
    ensures UpperHeld(f') && UpperDistinct(f')
  {
    hide High, IsKernelKey;
  }

  lemma DestroyUpper(f: Flat, d: nat)
    requires UpperHeld(f) && UpperDistinct(f)
    ensures var f' := f.(spaces := f.spaces - {d}); UpperHeld(f') && UpperDistinct(f')
  {
    var f' := f.(spaces := f.spaces - {d});
    assert forall d': nat, k: nat :: High(f'.spaces, d', k) == if d' == d then ZERO else High(f.spaces, d', k);
  }

  lemma ForkUpper(f: Flat, parent: nat, child: nat, keys: seq<nat>)
    requires Isolated(f) && parent in f.spaces && child !in f.spaces && !Entries(f, parent, SCRATCH).p
    requires IsUserKeys(f.spaces[parent], keys) && |f.used| + |keys| <= INVALID_PAGE
    ensures var g := Fork(f, parent, child, keys); UpperHeld(g) && UpperDistinct(g)
  {
    hide UpperHeld, UpperDistinct, FramesHeld, FramesDistinct, LowerPublic, CopyPages, PageCopied, Low;
    var f0, g := AddDirectory(f, child), Fork(f, parent, child, keys);
    KernelOnlyUpper(f, f0, child);
    ForkKeepsUpper(f, parent, child, keys);
    CopyReserved(f0, parent, child, keys);
    SameUpper(f0, g);
  }

  /** Where nothing new is mapped in the upper half, nothing changes there. */
  lemma SameUpper(f: Flat, g: Flat)
    requires UpperHeld(f) && UpperDistinct(f) && f.reserved <= g.reserved
    requires forall d: nat, k: nat :: High(g.spaces, d, k).p ==> High(g.spaces, d, k) == High(f.spaces, d, k)
    ensures UpperHeld(g) && UpperDistinct(g)
  {
    hide High;
  }

  lemma ForkKeepsUpper(f: Flat, parent: nat, child: nat, keys: seq<nat>)
    requires Owned(f) && parent in f.spaces && child !in f.spaces && !Entries(f, parent, SCRATCH).p
    requires IsUserKeys(f.spaces[parent], keys) && |f.used| + |keys| <= INVALID_PAGE
    ensures var f0, g := AddDirectory(f, child), Fork(f, parent, child, keys);
      forall d: nat, k: nat :: High(g.spaces, d, k).p ==> High(g.spaces, d, k) == High(f0.spaces, d, k)
  {
    hide FramesHeld, FramesDistinct, LowerPublic, CopyPages, PageCopied, Low;
    var f0, g := AddDirectory(f, child), Fork(f, parent, child, keys);
    ForkCopies(f, parent, child, keys);
    forall d: nat, k: nat | High(g.spaces, d, k).p ensures High(g.spaces, d, k) == High(f0.spaces, d, k) {
      assert Entries(g, d, k) == High(g.spaces, d, k);
      assert (d, k) != (parent, SCRATCH);
      assert Entries(g, d, k) == Entries(f0, d, k);
    }
  }

  // ----- giving a kernel page back

  /** The page heap unmaps a page and frees the frame that was under it. */
  function FreePage(f: Flat, d: nat, k: nat): Flat {
    var frame, g := Entries(f, d, k).base, Unmap(f, d, k);
    g.(used := g.used - {frame}, reserved := g.reserved - {frame})
  }

  lemma FreePageIsolated(f: Flat, d: nat, k: nat)
    requires Isolated(f) && Has(f, d, k) && k >= LOWER_KEYS && Entries(f, d, k).p
    ensures Isolated(FreePage(f, d, k))
  {
    hide FramesHeld, FramesDistinct, LowerPublic, Coherent;
    var e := UnmapEntry(Entries(f, d, k));
    assert High(f.spaces, d, k) == Entries(f, d, k);
    PutOwned(f, d, k, e);
    PutUpper(f, d, k, e);
    KernelFreeOwned(Unmap(f, d, k), Entries(f, d, k).base);
    FrameGone(f, d, k);
  }

  lemma FrameGone(f: Flat, d: nat, k: nat)
    requires UpperHeld(f) && UpperDistinct(f) && Has(f, d, k) && k >= LOWER_KEYS && Entries(f, d, k).p
    requires UpperHeld(Unmap(f, d, k)) && UpperDistinct(Unmap(f, d, k))
    ensures UpperHeld(FreePage(f, d, k)) && UpperDistinct(FreePage(f, d, k))
  {
    var frame, g, h := Entries(f, d, k).base, Unmap(f, d, k), FreePage(f, d, k);
    assert High(f.spaces, d, k) == Entries(f, d, k);
    PutHigh(f, d, k, UnmapEntry(Entries(f, d, k)));
    FreedNowhere(f, g, frame, d, k);
    hide High, Unmap;
  }

  lemma FreedNowhere(f: Flat, g: Flat, frame: nat, d: nat, k: nat)
    requires UpperDistinct(f) && High(f.spaces, d, k).p && High(f.spaces, d, k).base == frame
    requires forall d': nat, k': nat :: High(g.spaces, d', k').p ==>
      High(g.spaces, d', k') == High(f.spaces, d', k') && !OneSlot(d, k, d', k')
    ensures forall d': nat, k': nat :: High(g.spaces, d', k').p ==> High(g.spaces, d', k').base != frame
  {
    hide High;
  }

  // ----- every frame of the lower halves is accounted for

  predicate HoldsFrame(ss: Spaces, d: nat, k: nat, x: nat) {
    Low(ss, d, k).p && Low(ss, d, k).base == x
  }

  /** Every frame in use is set aside, under a present lower-half page, or in `loose`. */
  ghost predicate Accounted(f: Flat, loose: set<nat>) {
    forall x :: x in f.used && x !in f.reserved && x !in loose ==>
      exists d: nat, k: nat :: HoldsFrame(f.spaces, d, k, x)
  }

  lemma PutAccounted(f: Flat, d: nat, k: nat, e: Entry, loose: set<nat>)
    requires Has(f, d, k) && !Low(f.spaces, d, k).p && Accounted(f, loose)
    ensures Accounted(Put(f, d, k, e), if k < LOWER_KEYS && e.p then loose - {e.base} else loose)
  {
    hide SetEntry, Has, Low;
    PutLow(f, d, k, e);
    var g := Put(f, d, k, e);
    forall x | x in g.used && x !in g.reserved && x !in (if k < LOWER_KEYS && e.p then loose - {e.base} else loose)
      ensures exists d': nat, k': nat :: HoldsFrame(g.spaces, d', k', x)
    {
      if x in loose {
        assert HoldsFrame(g.spaces, d, k, x);
      } else {
        var d': nat, k': nat :| HoldsFrame(f.spaces, d', k', x);
        assert HoldsFrame(g.spaces, d', k', x);
      }
    }
  }

  /** Where the lower halves are the same, so is the account. */
  lemma SameAccounted(f: Flat, g: Flat)
    requires Accounted(f, {}) && g.used - g.reserved <= f.used - f.reserved
    requires forall d: nat, k: nat :: Low(g.spaces, d, k) == Low(f.spaces, d, k)
    ensures Accounted(g, {})
  {
    hide Low;
    forall x | x in g.used && x !in g.reserved ensures exists d: nat, k: nat :: HoldsFrame(g.spaces, d, k, x) {
      assert x in f.used - f.reserved;
      var d: nat, k: nat :| HoldsFrame(f.spaces, d, k, x);
      assert HoldsFrame(g.spaces, d, k, x);
    }
  }

  lemma TakeFrameAccounted(f: Flat, k: nat)
    requires Accounted(f, {})
    ensures Accounted(TakeFrame(f, k), if k < LOWER_KEYS then {NextFree(f.used)} else {})
  {
    hide Low;
  }

  lemma MapFreshAccounted(f: Flat, d: nat, k: nat, a: Attr)
    requires Accounted(f, {}) && Has(f, d, k) && !Entries(f, d, k).p
    ensures Accounted(MapFresh(f, d, k, a), {})
  {
    hide Accounted;
    assert {NextFree(f.used)} - {NextFree(f.used)} == {};
    var e := Entries(f, d, k);
    if a.defer {
      PutAccounted(f, d, k, MapEntry(e, INVALID_PAGE, a), {});
    } else {
      TakeFrameAccounted(f, k);
      PutAccounted(TakeFrame(f, k), d, k, MapEntry(e, NextFree(f.used), a),
                   if k < LOWER_KEYS then {NextFree(f.used)} else {});
    }
  }

  lemma FaultAccounted(f: Flat, d: nat, k: nat)
    requires Accounted(f, {}) && Has(f, d, k)
    ensures Accounted(ServeFault(f, d, k), {})
  {
    hide Accounted;
    assert {NextFree(f.used)} - {NextFree(f.used)} == {};
    var e := Entries(f, d, k);
    if Deferred(e) {
      TakeFrameAccounted(f, k);
      PutAccounted(TakeFrame(f, k), d, k, FaultEntry(e, NextFree(f.used)),
                   if k < LOWER_KEYS then {NextFree(f.used)} else {});
    }
  }

  lemma CopyPageAccounted(g: Flat, parent: nat, child: nat, k: nat)
    requires CanClone(g, parent, child) && k < LOWER_KEYS && |g.used| < INVALID_PAGE
    requires IsValid(Low(g.spaces, parent, k)) && Low(g.spaces, child, k) == ZERO && Accounted(g, {})
    ensures Accounted(CopyPage(g, parent, child, k), {})
  {
    hide Accounted, FramesHeld, FramesDistinct, LowerPublic;
    StillHas(g, g, parent, k);
    StillHas(g, g, child, k);
    SourceEntry(g, parent, k);
    var a := GetAttributes(Low(g.spaces, parent, k));
    var h := MapFresh(g, child, k, a);
    MapFreshAccounted(g, child, k, a);
    MapFreshEffect(g, child, k, a);
    if !a.defer {
      StillHas(g, h, parent, k);
      FillFrameEffect(h, parent, k, NextFree(g.used));
      SameAccounted(h, FillFrame(h, parent, k, NextFree(g.used)));
    }
  }

  lemma {:induction false} CopyPagesAccounted(f: Flat, parent: nat, child: nat, keys: seq<nat>)
    requires CanClone(f, parent, child) && |f.used| + |keys| <= INVALID_PAGE && Accounted(f, {})
    requires forall i, j :: 0 <= i < j < |keys| ==> keys[i] != keys[j]
    requires forall k :: k in keys ==> k < LOWER_KEYS && IsValid(Low(f.spaces, parent, k))
    requires forall k: nat :: Low(f.spaces, child, k) == ZERO
    ensures Accounted(CopyPages(f, parent, child, keys), {})
    decreases |keys|
  {
    hide Accounted, CopyPage, Low, CanClone, CopiedUpTo, KeySet, Has, IsValid;
    if keys != [] {
      var n := |keys| - 1;
      var g := CopyPages(f, parent, child, keys[..n]);
      KeySetStep(keys);
      CopyPagesAccounted(f, parent, child, keys[..n]);
      CopyPagesKeep(f, parent, child, keys[..n]);
      assert keys[n] in keys;
      ReadSource(f, g, parent, child, KeySet(keys[..n]), keys[n]);
      NotYetCopied(f, g, parent, child, KeySet(keys[..n]), keys[n]);
      CopyPageAccounted(g, parent, child, keys[n]);
    }
  }

  lemma NotYetCopied(f: Flat, g: Flat, parent: nat, child: nat, done: set<nat>, k: nat)
    requires CanClone(f, parent, child) && CopiedUpTo(f, g, parent, child, done) && k !in done
    ensures CanClone(g, parent, child) && Low(g.spaces, child, k) == ZERO && |g.used| <= |f.used| + |done|
  {
    hide Low, Owned, PageCopied;
  }

  lemma ForkAccounted(f: Flat, parent: nat, child: nat, keys: seq<nat>)
    requires Owned(f) && parent in f.spaces && child !in f.spaces && !Entries(f, parent, SCRATCH).p
    requires IsUserKeys(f.spaces[parent], keys) && |f.used| + |keys| <= INVALID_PAGE && Accounted(f, {})
    ensures Accounted(Fork(f, parent, child, keys), {})
  {
    hide Accounted, FramesHeld, FramesDistinct, LowerPublic, Coherent, CopyPages;
    var f0 := AddDirectory(f, child);
    AddDirectoryOwned(f, child);
    ForkCopies(f, parent, child, keys);
    EmptyAccounted(f, f0, child);
    CopyPagesAccounted(f0, parent, child, keys);
  }

  /** A directory without lower-half pages may come or go. */
  lemma EmptyAccounted(f: Flat, g: Flat, d: nat)
    requires Accounted(f, {}) && g.used == f.used && g.reserved == f.reserved
    requires forall d': nat, k: nat :: Low(g.spaces, d', k) == (if d' == d then ZERO else Low(f.spaces, d', k))
    requires forall k: nat :: !Low(f.spaces, d, k).p
    ensures Accounted(g, {})
  {
    hide Low;
    forall x | x in g.used && x !in g.reserved ensures exists d': nat, k: nat :: HoldsFrame(g.spaces, d', k, x) {
      var d': nat, k: nat :| HoldsFrame(f.spaces, d', k, x);
      assert HoldsFrame(g.spaces, d', k, x);
    }
  }

  lemma TeardownAccounted(f: Flat, d: nat)
    requires Owned(f) && d in f.spaces && Accounted(f, {})
    ensures Accounted(Teardown(f, d), {})
  {
    var g := Teardown(f, d);
    KernelOnlyLow(f.spaces, d, f.spaces[0]);
    LowerFramesLow(f.spaces, d);
    hide Low, LowerFrames, KernelOnly, Owned;
    forall x | x in g.used && x !in g.reserved ensures exists d': nat, k: nat :: HoldsFrame(g.spaces, d', k, x) {
      var d': nat, k: nat :| HoldsFrame(f.spaces, d', k, x);
      assert d' != d;
      assert HoldsFrame(g.spaces, d', k, x);
    }
  }

  lemma FreePageAccounted(f: Flat, d: nat, k: nat)
    requires Accounted(f, {}) && Has(f, d, k) && k >= LOWER_KEYS
    ensures Accounted(FreePage(f, d, k), {})
  {
    PutLow(f, d, k, UnmapEntry(Entries(f, d, k)));
    SameAccounted(f, FreePage(f, d, k));
  }

  // ----- runs

  /** What the kernel does with address spaces. `Clone` carries the pages it visits; `FreePage`
      is the page heap returning a page of the upper half. */
  datatype VmStep =
    | MapPage(d: nat, vaddr: nat, a: Attr)
    | HandleFault(d: nat, vaddr: nat)
    | MapKernel(d: nat)
    | Clone(d: nat, child: nat, keys: seq<nat>)
    | UnmapUserSpace(d: nat)
    | Destroy(d: nat)
    | UnmapFree(d: nat, vaddr: nat)

  /** The demands of the source: what it asserts or panics on, a 64-bit address, and frame
      numbers that fit an entry. A directory goes after its user space has been unmapped. */
  ghost predicate VmEnabled(f: Flat, s: VmStep) {
    match s
    case MapPage(d, vaddr, a) =>
      && Has(f, d, KeyOf(vaddr)) && vaddr < 0x1_0000_0000_0000_0000 && Allowed(vaddr, a)
      && !Entries(f, d, KeyOf(vaddr)).p && |f.used| < INVALID_PAGE
    case HandleFault(d, vaddr) => Has(f, d, KeyOf(vaddr)) && |f.used| < INVALID_PAGE
    case MapKernel(d) => 0 in f.spaces && d !in f.spaces
    case Clone(d, child, keys) =>
      && 0 in f.spaces && d in f.spaces && child !in f.spaces && !Entries(f, d, SCRATCH).p
      && IsUserKeys(f.spaces[d], keys) && |f.used| + |keys| <= INVALID_PAGE
    case UnmapUserSpace(d) => 0 in f.spaces && d in f.spaces && d != 0
    case Destroy(d) => d != 0 && forall k: nat :: !Low(f.spaces, d, k).p
    case UnmapFree(d, vaddr) => Has(f, d, KeyOf(vaddr)) && KeyOf(vaddr) >= LOWER_KEYS && Entries(f, d, KeyOf(vaddr)).p
  }

  ghost function VmApply(f: Flat, s: VmStep): Flat
    requires VmEnabled(f, s)
  {
    match s
    case MapPage(d, vaddr, a) => MapFresh(f, d, KeyOf(vaddr), a)
    case HandleFault(d, vaddr) => ServeFault(f, d, KeyOf(vaddr))
    case MapKernel(d) => AddDirectory(f, d)
    case Clone(d, child, keys) => Fork(f, d, child, keys)
    case UnmapUserSpace(d) => Teardown(f, d)
    case Destroy(d) => f.(spaces := f.spaces - {d})
    case UnmapFree(d, vaddr) => FreePage(f, d, KeyOf(vaddr))
  }

  /** After boot: one directory, nothing in its lower half, every used frame set aside, and no
      frame mapped twice. */
  ghost predicate Booted(f: Flat) {
    && f.spaces.Keys == {0} && Coherent(f.spaces) && f.reserved == f.used
    && (forall k: nat :: Low(f.spaces, 0, k) == ZERO) && UpperHeld(f) && UpperDistinct(f)
  }

  /** Runs do start: a directory with nothing in it, and some frames set aside. */
  lemma SomeBoot(used: set<nat>) returns (f: Flat)
    ensures Booted(f) && f.used == used
  {
    f := Flat(map[0 := EmptySpace()], used, used, map[]);
    assert Full(EmptySpace());
  }

  function EmptySpace(): FlatMap {
    map k: nat | k < KEYS :: ClearEntry(k)
  }

  function ClearEntry(k: nat): Entry {
    ZERO
  }

  ghost predicate IsVmRun(run: seq<Flat>, steps: seq<VmStep>) {
    && |run| == |steps| + 1 && Booted(run[0])
    && forall i :: 0 <= i < |steps| ==> VmEnabled(run[i], steps[i]) && run[i + 1] == VmApply(run[i], steps[i])
  }

  lemma VmStepIsolated(f: Flat, s: VmStep)
    requires Isolated(f) && VmEnabled(f, s)
    ensures Isolated(VmApply(f, s))
  {
    hide UpperHeld, UpperDistinct, FramesHeld, FramesDistinct, LowerPublic, Coherent;
    hide MapFresh, ServeFault, Fork, PageCopied, FreePage;
    match s
    case MapPage(d, vaddr, a) =>
      if KeyOf(vaddr) < LOWER_KEYS {
        LowerIsPublic(vaddr, a);
      }
      MapFreshOwned(f, d, KeyOf(vaddr), a);
      MapFreshUpper(f, d, KeyOf(vaddr), a);
    case HandleFault(d, vaddr) =>
      FaultOwned(f, d, KeyOf(vaddr));
      FaultUpper(f, d, KeyOf(vaddr));
    case MapKernel(d) =>
      AddDirectoryOwned(f, d);
      KernelOnlyUpper(f, AddDirectory(f, d), d);
    case Clone(d, child, keys) =>
      ForkPreserves(f, d, child, keys);
      ForkUpper(f, d, child, keys);
    case UnmapUserSpace(d) =>
      TeardownOwned(f, d);
      KernelOnlyUpper(f, Teardown(f, d), d);
    case Destroy(d) =>
      DestroyOwned(f, d);
      DestroyUpper(f, d);
    case UnmapFree(d, vaddr) => FreePageIsolated(f, d, KeyOf(vaddr));
  }

  lemma {:induction false} RunIsolated(run: seq<Flat>, steps: seq<VmStep>, i: nat)
    requires IsVmRun(run, steps) && i < |run|
    ensures Isolated(run[i])
    decreases i
  {
    hide UpperHeld, UpperDistinct;
    if i == 0 {
      BootOwned(run[0]);
    } else {
      RunIsolated(run, steps, i - 1);
      VmStepIsolated(run[i - 1], steps[i - 1]);
    }
  }

  lemma VmStepAccounted(f: Flat, s: VmStep)
    requires Isolated(f) && Accounted(f, {}) && VmEnabled(f, s)
    ensures Accounted(VmApply(f, s), {})
  {
    hide Accounted, UpperHeld, UpperDistinct, FramesHeld, FramesDistinct, LowerPublic, Coherent;
    hide MapFresh, ServeFault, Fork, FreePage;
    match s
    case MapPage(d, vaddr, a) => MapFreshAccounted(f, d, KeyOf(vaddr), a);
    case HandleFault(d, vaddr) => FaultAccounted(f, d, KeyOf(vaddr));
    case MapKernel(d) =>
      KernelOnlyLow(f.spaces, d, f.spaces[0]);
      EmptyAccounted(f, AddDirectory(f, d), d);
    case Clone(d, child, keys) => ForkAccounted(f, d, child, keys);
    case UnmapUserSpace(d) => TeardownAccounted(f, d);
    case Destroy(d) => EmptyAccounted(f, f.(spaces := f.spaces - {d}), d);
    case UnmapFree(d, vaddr) => FreePageAccounted(f, d, KeyOf(vaddr));
  }

  lemma {:induction false} RunAccounted(run: seq<Flat>, steps: seq<VmStep>, i: nat)
    requires IsVmRun(run, steps) && i < |run|
    ensures Accounted(run[i], {})
    decreases i
  {
    hide UpperHeld, UpperDistinct, VmEnabled, VmApply, Isolated;
    if i > 0 {
      RunAccounted(run, steps, i - 1);
      RunIsolated(run, steps, i - 1);
      VmStepAccounted(run[i - 1], steps[i - 1]);
    }
  }

  /** In every reachable state the frames in use are those set aside and those under present
      lower-half pages, and no frame is both: none is lost by a lower half. The ones set aside
      may be lost: module FrameLoss says which. */
  lemma NoUserFrameLost(run: seq<Flat>, steps: seq<VmStep>, i: nat, x: nat)
    requires IsVmRun(run, steps) && i < |run|
    ensures x in run[i].used && x !in run[i].reserved <==> exists d: nat, k: nat :: HoldsFrame(run[i].spaces, d, k, x)
  {
    hide IsVmRun, UpperHeld, UpperDistinct, Coherent, Low;
    RunAccounted(run, steps, i);
    RunIsolated(run, steps, i);
  }

  /** Hence when no lower-half page is left, all the frames taken for them have been returned. */
  lemma UserFramesReturned(run: seq<Flat>, steps: seq<VmStep>, i: nat)
    requires IsVmRun(run, steps) && i < |run| && forall d: nat, k: nat :: !Low(run[i].spaces, d, k).p
    ensures run[i].used == run[i].reserved
  {
    hide IsVmRun, UpperHeld, UpperDistinct, Coherent, Low;
    RunIsolated(run, steps, i);
    forall x | x in run[i].used ensures x in run[i].reserved {
      NoUserFrameLost(run, steps, i, x);
    }
  }

  lemma BootOwned(f: Flat)
    requires Booted(f)
    ensures Owned(f)
  {
    forall d: nat, k: nat ensures Low(f.spaces, d, k) == ZERO {
      assert d in f.spaces ==> d == 0;
    }
  }

  /** In every reachable state no two present lower-half pages share a frame, and each of their
      frames is marked used. */
  lemma FrameOwnership(run: seq<Flat>, steps: seq<VmStep>, i: nat, d: nat, k: nat, d': nat, k': nat)
    requires IsVmRun(run, steps) && i < |run| && Low(run[i].spaces, d, k).p && Low(run[i].spaces, d', k').p
    ensures Low(run[i].spaces, d, k).base in run[i].used
    ensures Low(run[i].spaces, d, k).base == Low(run[i].spaces, d', k').base <==> d == d' && k == k'
  {
    hide IsVmRun, UpperHeld, UpperDistinct, Coherent, Low;
    RunIsolated(run, steps, i);
  }

  /** In every reachable state a user page shares its frame with no page of any upper half. */
  lemma UserIsolation(run: seq<Flat>, steps: seq<VmStep>, i: nat, d: nat, k: nat, d': nat, k': nat)
    requires IsVmRun(run, steps) && i < |run| && Low(run[i].spaces, d, k).p && High(run[i].spaces, d', k').p
    ensures Low(run[i].spaces, d, k).base != High(run[i].spaces, d', k').base
  {
    hide IsVmRun, Coherent, Low, High;
    RunIsolated(run, steps, i);
  }

  /** The step gives back the frame itself. */
  predicate GivesBack(f: Flat, s: VmStep, frame: nat) {
    s.UnmapFree? && Entries(f, s.d, KeyOf(s.vaddr)).base == frame
  }

  /** A frame that is set aside is not handed out: until the kernel itself gives it back it
      stays in use, and no process holds it. */
  lemma ReservedStays(f: Flat, s: VmStep, frame: nat)
    requires Isolated(f) && VmEnabled(f, s) && frame in f.reserved && !GivesBack(f, s, frame)
    ensures frame in VmApply(f, s).reserved && frame in VmApply(f, s).used
    ensures forall d: nat, k: nat :: Low(VmApply(f, s).spaces, d, k).p ==> Low(VmApply(f, s).spaces, d, k).base != frame
  {
    hide Low, UpperHeld, UpperDistinct, Coherent, CopyPages, SetEntry, KernelOnly;
    VmStepIsolated(f, s);
    if s.Clone? {
      CopyReserved(AddDirectory(f, s.child), s.d, s.child, s.keys);
    }
  }

  lemma {:induction false} CopyReserved(f: Flat, parent: nat, child: nat, keys: seq<nat>)
    ensures f.reserved <= CopyPages(f, parent, child, keys).reserved
    decreases |keys|
  {
    if keys != [] {
      CopyReserved(f, parent, child, keys[..|keys| - 1]);
    }
  }
}
