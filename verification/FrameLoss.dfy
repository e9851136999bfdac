/** Frames that stay marked in the bitmap although no page is on them any more. Taking a directory
    down frees the frames of its lower half only; what it had mapped for itself in the upper half,
    outside the kernel gigabyte, goes with its tables. */
module FrameLoss {
  import opened PageEntry
  import opened FlatSpace
  import opened FrameMemory
  import opened AddressSpace
  import opened AddressRuns

  /** Page `k` of directory `d` is present on frame `x`. */
  predicate Under(f: Flat, d: nat, k: nat, x: nat) {
    Entries(f, d, k).p && Entries(f, d, k).base == x
  }

  /** In use, and under no present page of any directory. */
  ghost predicate Idle(f: Flat, x: nat) {
    x in f.used && forall d: nat, k: nat :: !Under(f, d, k, x)
  }

  /** An upper-half page that a directory does not share with the others. */
  predicate PrivateUpper(k: nat) {
    k >= LOWER_KEYS && !IsKernelKey(k)
  }

  /** The step takes down a directory. */
  predicate TakesDown(s: VmStep) {
    s.UnmapUserSpace? || s.Destroy?
  }

  /** Some present private upper-half page of the directory that goes is on frame `x`. */
  ghost predicate Drops(f: Flat, s: VmStep, x: nat) {
    TakesDown(s) && exists k: nat :: PrivateUpper(k) && Under(f, s.d, k, x)
  }

  // ----- where a frame can be

  lemma EntriesAre(f: Flat, d: nat, k: nat)
    ensures Entries(f, d, k) == if k < LOWER_KEYS then Low(f.spaces, d, k) else High(f.spaces, d, k)
  {
  }

  /** A frame under a page is in use, and set aside exactly if the page is in the upper half. */
  lemma UnderHeld(f: Flat, d: nat, k: nat, x: nat)
    requires Isolated(f) && Under(f, d, k, x)
    ensures x in f.used && (x in f.reserved <==> k >= LOWER_KEYS)
  {
    hide Low, High, Coherent, FramesDistinct, LowerPublic, UpperDistinct, Entries;
    EntriesAre(f, d, k);
  }

  /** A frame is under one page only, which other directories may share in the kernel gigabyte. */
  lemma OnePlace(f: Flat, d: nat, k: nat, d': nat, k': nat, x: nat)
    requires Isolated(f) && Under(f, d, k, x) && Under(f, d', k', x)
    ensures OneSlot(d, k, d', k')
  {
    hide Low, High, Coherent, FramesHeld, LowerPublic, UpperHeld, Entries, IsKernelKey;
    UnderHeld(f, d, k, x);
    UnderHeld(f, d', k', x);
    EntriesAre(f, d, k);
    EntriesAre(f, d', k');
    if k < LOWER_KEYS {
      assert (d, k) == (d', k');
    }
  }

  lemma UnderKept(f: Flat, g: Flat, d: nat, k: nat, x: nat)
    requires Entries(f, d, k) == Entries(g, d, k)
    ensures Under(f, d, k, x) <==> Under(g, d, k, x)
  {
  }

  // ----- steps that lose nothing

  /** One entry that was not present is written, on a frame just taken or on none. */
  lemma PutIdle(f: Flat, g: Flat, d: nat, k: nat, e: Entry, x: nat)
    requires Isolated(f) && Has(f, d, k) && !Entries(f, d, k).p && g.spaces == Put(f, d, k, e).spaces
    requires if e.p then g.used == f.used + {e.base} && e.base !in f.used else g.used == f.used
    ensures Idle(g, x) <==> Idle(f, x)
  {
    hide Isolated, Put, Has;
    PutSees(f, g, d, k, e);
    NobodyThere(f, d, k);
    if e.p && x == e.base {
      assert Under(g, d, k, x);
    } else {
      forall d': nat, k': nat ensures Under(g, d', k', x) <==> Under(f, d', k', x) {
        assert k' == k && (d' == d || IsKernelKey(k)) ==> !Entries(f, d', k').p;
      }
    }
  }

  lemma PutSees(f: Flat, g: Flat, d: nat, k: nat, e: Entry)
    requires Isolated(f) && Has(f, d, k) && g.spaces == Put(f, d, k, e).spaces
    ensures Entries(g, d, k) == e
    ensures forall d': nat, k': nat :: !(k' == k && (d' == d || IsKernelKey(k))) ==>
      Entries(g, d', k') == Entries(f, d', k')
    ensures forall d': nat :: IsKernelKey(k) ==> Entries(g, d', k) == if d' in f.spaces then e else Entries(f, d', k)
  {
    hide FramesHeld, FramesDistinct, LowerPublic, UpperHeld, UpperDistinct;
    PutEntries(f, d, k, e);
  }

  /** What one directory does not have in the kernel gigabyte, nobody has. */
  lemma NobodyThere(f: Flat, d: nat, k: nat)
    requires Isolated(f) && Has(f, d, k) && !Entries(f, d, k).p
    ensures forall d': nat :: d' == d || IsKernelKey(k) ==> !Entries(f, d', k).p
  {
    hide FramesHeld, FramesDistinct, LowerPublic, UpperHeld, UpperDistinct;
  }

  lemma MapIdle(f: Flat, d: nat, k: nat, a: Attr, x: nat)
    requires Isolated(f) && Has(f, d, k) && !Entries(f, d, k).p
    ensures Idle(MapFresh(f, d, k, a), x) <==> Idle(f, x)
  {
    hide Isolated, Idle, SetEntry;
    var frame := if a.defer then INVALID_PAGE else NextFree(f.used);
    PutIdle(f, MapFresh(f, d, k, a), d, k, MapEntry(Entries(f, d, k), frame, a), x);
  }

  lemma FaultIdle(f: Flat, d: nat, k: nat, x: nat)
    requires Isolated(f) && Has(f, d, k)
    ensures Idle(ServeFault(f, d, k), x) <==> Idle(f, x)
  {
    hide Isolated, Idle, SetEntry;
    if Deferred(Entries(f, d, k)) {
      PutIdle(f, ServeFault(f, d, k), d, k, FaultEntry(Entries(f, d, k), NextFree(f.used)), x);
    }
  }

  /** What a directory that holds the kernel only sees. */
  lemma KernelOnlySees(f: Flat, g: Flat, d: nat)
    requires Isolated(f) && g.spaces == f.spaces[d := KernelOnly(f.spaces[0])]
    ensures forall d': nat, k: nat :: d' != d ==> Entries(g, d', k) == Entries(f, d', k)
    ensures forall k: nat :: Entries(g, d, k) == if IsKernelKey(k) then Entries(f, 0, k) else ZERO
  {
    hide FramesHeld, FramesDistinct, LowerPublic, UpperHeld, UpperDistinct, Coherent;
  }

  lemma AddIdle(f: Flat, d: nat, x: nat)
    requires Isolated(f) && 0 in f.spaces && d !in f.spaces
    ensures Idle(AddDirectory(f, d), x) <==> Idle(f, x)
  {
    hide Isolated, KernelOnly, IsKernelKey;
    var g := AddDirectory(f, d);
    KernelOnlySees(f, g, d);
    forall d': nat, k: nat | d' != d ensures Under(g, d', k, x) <==> Under(f, d', k, x) {
      UnderKept(f, g, d', k, x);
    }
    forall k: nat ensures !Under(f, d, k, x) && (Under(g, d, k, x) ==> Under(f, 0, k, x)) {
      assert Entries(f, d, k) == ZERO;
    }
  }

  // ----- fork

  lemma {:induction false} CopyLeavesReserved(f: Flat, parent: nat, child: nat, keys: seq<nat>)
    requires forall k :: k in keys ==> k < LOWER_KEYS
    ensures CopyPages(f, parent, child, keys).reserved == f.reserved
    decreases |keys|
  {
    hide MapAt, Unmap, NextFree;
    if keys != [] {
      var n := |keys| - 1;
      assert keys[n] in keys && forall k :: k in keys[..n] ==> k in keys;
      CopyLeavesReserved(f, parent, child, keys[..n]);
      CopyPageReserved(CopyPages(f, parent, child, keys[..n]), parent, child, keys[n]);
    }
  }

  lemma CopyPageReserved(f: Flat, parent: nat, child: nat, k: nat)
    requires k < LOWER_KEYS
    ensures CopyPage(f, parent, child, k).reserved == f.reserved
  {
  }

  /** Everybody keeps their pages, and the child has frames that were free. */
  lemma ForkSees(f: Flat, parent: nat, child: nat, keys: seq<nat>)
    requires Isolated(f) && parent in f.spaces && child !in f.spaces && !Entries(f, parent, SCRATCH).p
    requires IsUserKeys(f.spaces[parent], keys) && |f.used| + |keys| <= INVALID_PAGE
    ensures var g := Fork(f, parent, child, keys);
      && f.used <= g.used && g.reserved == f.reserved
      && (forall d: nat, k: nat, x: nat :: d != child ==> (Under(g, d, k, x) <==> Under(f, d, k, x)))
      && (forall k: nat, x: nat :: x in f.used && Under(g, child, k, x) ==> exists d: nat :: Under(f, d, k, x))
  {
    hide FramesHeld, FramesDistinct, LowerPublic, UpperHeld, UpperDistinct, Coherent, CopyPages, Low, KernelOnly,
      IsKernelKey;
    var f0, g := AddDirectory(f, child), Fork(f, parent, child, keys);
    ForkPreserves(f, parent, child, keys);
    ForkCopies(f, parent, child, keys);
    CopyLeavesReserved(f0, parent, child, keys);
    KernelOnlySees(f, f0, child);
    forall d: nat, k: nat, x: nat | d != child ensures Under(g, d, k, x) <==> Under(f, d, k, x) {
      assert g.spaces.Keys == f0.spaces.Keys;
      if d in f.spaces && (d, k) != (parent, SCRATCH) {
        UnderKept(f, g, d, k, x);
      }
    }
    forall k: nat, x: nat | x in f.used && Under(g, child, k, x) ensures exists d: nat :: Under(f, d, k, x) {
      ChildSees(f, f0, g, parent, child, k, x);
      assert Under(f, 0, k, x);
    }
  }

  lemma ChildSees(f: Flat, f0: Flat, g: Flat, parent: nat, child: nat, k: nat, x: nat)
    requires child !in f.spaces && f0.spaces.Keys == f.spaces.Keys + {child} && parent != child
    requires UpperKept(f0, g, parent)
    requires Owned(g) && x in f.used && Under(g, child, k, x)
    requires forall k: nat :: Entries(f0, child, k) == if IsKernelKey(k) then Entries(f, 0, k) else ZERO
    requires IsValid(Low(g.spaces, child, k)) ==> PageCopied(f, g, parent, child, k)
    ensures Under(f, 0, k, x)
  {
    hide FramesHeld, FramesDistinct, LowerPublic;
    EntriesAre(g, child, k);
    assert k < KEYS;
  }

  lemma ForkIdle(f: Flat, parent: nat, child: nat, keys: seq<nat>, x: nat)
    requires Isolated(f) && Accounted(f, {}) && parent in f.spaces && child !in f.spaces
    requires !Entries(f, parent, SCRATCH).p && IsUserKeys(f.spaces[parent], keys) && |f.used| + |keys| <= INVALID_PAGE
    ensures Idle(Fork(f, parent, child, keys), x) <==> Idle(f, x)
  {
    hide FramesHeld, FramesDistinct, LowerPublic, UpperHeld, UpperDistinct, Coherent, Under, Fork, IsUserKeys, Low;
    var g := Fork(f, parent, child, keys);
    ForkSees(f, parent, child, keys);
    ForkAccounted(f, parent, child, keys);
    if x in g.used && x !in f.used {
      var d: nat, k: nat :| HoldsFrame(g.spaces, d, k, x);
      HolderUnder(g, d, k, x);
    }
    forall k: nat ensures !Under(f, child, k, x) {
      NotThere(f, child, k, x);
    }
  }

  lemma HolderUnder(f: Flat, d: nat, k: nat, x: nat)
    requires HoldsFrame(f.spaces, d, k, x)
    ensures Under(f, d, k, x)
  {
  }

  lemma NotThere(f: Flat, d: nat, k: nat, x: nat)
    requires d !in f.spaces
    ensures !Under(f, d, k, x)
  {
  }

  // ----- giving a kernel page back

  lemma FreePageIdle(f: Flat, d: nat, k: nat, x: nat)
    requires Isolated(f) && Has(f, d, k) && k >= LOWER_KEYS && Entries(f, d, k).p
    ensures Idle(FreePage(f, d, k), x) <==> Idle(f, x)
  {
    hide Isolated, SetEntry, Has;
    var g, frame := FreePage(f, d, k), Entries(f, d, k).base;
    PutSees(f, g, d, k, UnmapEntry(Entries(f, d, k)));
    assert Under(f, d, k, frame);
    UnderHeld(f, d, k, frame);
    if x != frame {
      forall d': nat, k': nat ensures Under(g, d', k', x) <==> Under(f, d', k', x) {
        if k' == k && (d' == d || IsKernelKey(k)) {
          SharedEntry(f, d, d', k);
        }
      }
    }
  }

  lemma SharedEntry(f: Flat, d: nat, d': nat, k: nat)
    requires Isolated(f) && Has(f, d, k) && (d' == d || IsKernelKey(k))
    ensures Entries(f, d', k) == if d' in f.spaces then Entries(f, d, k) else ZERO
  {
    hide FramesHeld, FramesDistinct, LowerPublic, UpperHeld, UpperDistinct;
  }

  // ----- taking a directory down

  /** What is left of the pages of directory `d`: nothing, or the kernel gigabyte. */
  ghost predicate Stripped(f: Flat, g: Flat, d: nat) {
    && (forall d': nat, k: nat :: d' != d ==> Entries(g, d', k) == Entries(f, d', k))
    && (forall k: nat :: Entries(g, d, k).p ==> IsKernelKey(k) && Entries(g, d, k) == Entries(f, 0, k))
  }

  /** The frames under the lower half are freed, the ones of private upper-half pages are not. */
  lemma StripIdle(f: Flat, g: Flat, d: nat, x: nat)
    requires Isolated(f) && d != 0 && Stripped(f, g, d) && g.used <= f.used
    requires forall y :: y in f.used && y !in g.used <==> exists k: nat :: k < LOWER_KEYS && Under(f, d, k, y)
    ensures Idle(g, x) <==> Idle(f, x) || exists k: nat :: PrivateUpper(k) && Under(f, d, k, x)
  {
    hide Isolated, IsKernelKey, Entries;
    if k: nat :| PrivateUpper(k) && Under(f, d, k, x) {
      PrivateIsLost(f, g, d, k, x);
    } else {
      forall d': nat, k: nat | Under(f, d', k, x) && x in g.used ensures !Idle(g, x) {
        OthersHold(f, g, d, d', k, x);
      }
      forall d': nat, k: nat | Under(g, d', k, x) ensures !Idle(f, x) {
        assert Under(f, if d' == d then 0 else d', k, x);
      }
      if Idle(f, x) {
        assert forall k: nat :: !Under(f, d, k, x);
      }
    }
  }

  lemma PrivateIsLost(f: Flat, g: Flat, d: nat, k: nat, x: nat)
    requires Isolated(f) && d != 0 && Stripped(f, g, d)
    requires forall y :: y in f.used && y !in g.used ==> exists k: nat :: k < LOWER_KEYS && Under(f, d, k, y)
    requires PrivateUpper(k) && Under(f, d, k, x)
    ensures Idle(g, x)
  {
    hide Isolated, IsKernelKey, Entries;
    UnderHeld(f, d, k, x);
    if x !in g.used {
      var k': nat :| k' < LOWER_KEYS && Under(f, d, k', x);
      OnePlace(f, d, k, d, k', x);
    }
    forall d': nat, k': nat ensures !Under(g, d', k', x) {
      if Under(g, d', k', x) {
        var e := if d' == d then 0 else d';
        assert Under(f, e, k', x);
        OnePlace(f, d, k, e, k', x);
      }
    }
  }

  lemma OthersHold(f: Flat, g: Flat, d: nat, d': nat, k: nat, x: nat)
    requires Isolated(f) && d != 0 && Stripped(f, g, d) && Under(f, d', k, x) && x in g.used
    requires forall y :: y in f.used && y !in g.used <== exists k: nat :: k < LOWER_KEYS && Under(f, d, k, y)
    requires !(PrivateUpper(k) && Under(f, d, k, x))
    ensures !Idle(g, x)
  {
    hide Isolated, IsKernelKey;
    if d' != d {
      assert Under(g, d', k, x);
    } else if IsKernelKey(k) {
      ZeroSees(f, d, k);
      assert Under(g, 0, k, x);
    }
  }

  lemma ZeroSees(f: Flat, d: nat, k: nat)
    requires Isolated(f) && IsKernelKey(k) && Entries(f, d, k).p
    ensures Entries(f, 0, k) == Entries(f, d, k)
  {
    hide FramesHeld, FramesDistinct, LowerPublic, UpperHeld, UpperDistinct;
  }

  lemma TeardownIdle(f: Flat, d: nat, x: nat)
    requires Isolated(f) && 0 in f.spaces && d in f.spaces && d != 0
    ensures Idle(Teardown(f, d), x) <==> Idle(f, x) || exists k: nat :: PrivateUpper(k) && Under(f, d, k, x)
  {
    hide Isolated, KernelOnly, LowerFrames, Low, Entries, IsKernelKey, Idle;
    var g := Teardown(f, d);
    KernelOnlySees(f, g, d);
    LowerFramesLow(f.spaces, d);
    forall y ensures y in f.used && y !in g.used <==> exists k: nat :: k < LOWER_KEYS && Under(f, d, k, y) {
      if y in LowerFrames(f.spaces[d]) {
        var k: nat :| Low(f.spaces, d, k).p && Low(f.spaces, d, k).base == y;
        LowUnder(f, d, k, y);
      }
      if k: nat :| k < LOWER_KEYS && Under(f, d, k, y) {
        UnderHeld(f, d, k, y);
        EntriesAre(f, d, k);
      }
    }
    StripIdle(f, g, d, x);
  }

  lemma LowUnder(f: Flat, d: nat, k: nat, x: nat)
    requires Isolated(f) && Low(f.spaces, d, k).p && Low(f.spaces, d, k).base == x
    ensures k < LOWER_KEYS && Under(f, d, k, x) && x in f.used
  {
    hide FramesDistinct, LowerPublic, UpperHeld, UpperDistinct, Coherent;
  }

  lemma DestroyIdle(f: Flat, d: nat, x: nat)
    requires Isolated(f) && d != 0 && forall k: nat :: !Low(f.spaces, d, k).p
    ensures var g := f.(spaces := f.spaces - {d});
      Idle(g, x) <==> Idle(f, x) || exists k: nat :: PrivateUpper(k) && Under(f, d, k, x)
  {
    hide Isolated, Idle, IsKernelKey, Low;
    var g := f.(spaces := f.spaces - {d});
    forall k: nat | k < LOWER_KEYS ensures !Entries(f, d, k).p {
      EntriesAre(f, d, k);
    }
    StripIdle(f, g, d, x);
  }

  // ----- runs

  /** A step leaves exactly those frames idle that were so before and those that it drops. */
  lemma IdleStep(f: Flat, s: VmStep, x: nat)
    requires Isolated(f) && Accounted(f, {}) && VmEnabled(f, s)
    ensures Idle(VmApply(f, s), x) <==> Idle(f, x) || Drops(f, s, x)
  {
    hide Isolated, Accounted, Idle, Under, MapFresh, ServeFault, Fork, FreePage, Teardown, AddDirectory;
    match s
    case MapPage(d, vaddr, a) => MapIdle(f, d, KeyOf(vaddr), a, x);
    case HandleFault(d, vaddr) => FaultIdle(f, d, KeyOf(vaddr), x);
    case MapKernel(d) => AddIdle(f, d, x);
    case Clone(d, child, keys) => ForkIdle(f, d, child, keys, x);
    case UnmapUserSpace(d) => TeardownIdle(f, d, x);
    case Destroy(d) => DestroyIdle(f, d, x);
    case UnmapFree(d, vaddr) => FreePageIdle(f, d, KeyOf(vaddr), x);
  }

  /** Idle now, and not because boot left it so. A frame that was free at boot, or that boot had
      mapped and the kernel gave back, is lost as soon as it is idle. */
  ghost predicate Lost(run: seq<Flat>, n: nat, x: nat) {
    n < |run| && Idle(run[n], x) && !Idle(run[0], x)
  }

  /** Step `i` of the run drops the frame. */
  ghost predicate DropsAt(run: seq<Flat>, steps: seq<VmStep>, i: nat, x: nat) {
    i < |steps| && i < |run| && Drops(run[i], steps[i], x)
  }

  lemma {:induction false} IdleInRuns(run: seq<Flat>, steps: seq<VmStep>, n: nat, x: nat)
    requires IsVmRun(run, steps) && n < |run|
    ensures Idle(run[n], x) <==> Idle(run[0], x) || exists i: nat :: i < n && DropsAt(run, steps, i, x)
    decreases n
  {
    hide Idle, Drops, VmEnabled, VmApply, Booted, Isolated, Accounted;
    if n > 0 {
      IdleInRuns(run, steps, n - 1, x);
      RunIsolated(run, steps, n - 1);
      RunAccounted(run, steps, n - 1);
      assert VmEnabled(run[n - 1], steps[n - 1]) && run[n] == VmApply(run[n - 1], steps[n - 1]);
      IdleStep(run[n - 1], steps[n - 1], x);
      assert Drops(run[n - 1], steps[n - 1], x) ==> DropsAt(run, steps, n - 1, x);
    }
  }

  /** What a frame is dropped from was mapped there, so that it was not idle yet. */
  lemma DroppedWasMapped(f: Flat, s: VmStep, x: nat)
    requires Drops(f, s, x)
    ensures !Idle(f, x)
  {
  }

  /** In every run the lost frames are exactly those that were, at some step, under a present
      private upper-half page of the directory that the step took down. */
  lemma LostExactly(run: seq<Flat>, steps: seq<VmStep>, n: nat, x: nat)
    requires IsVmRun(run, steps) && n < |run|
    ensures Lost(run, n, x) <==> exists i: nat :: i < n && DropsAt(run, steps, i, x)
  {
    hide Idle, Drops, IsVmRun;
    IdleInRuns(run, steps, n, x);
    if i: nat :| i < n && DropsAt(run, steps, i, x) {
      DroppedWasMapped(run[i], steps[i], x);
      IdleInRuns(run, steps, i, x);
    }
  }

  /** The directory that the step takes down has no present private upper-half page. */
  ghost predicate CleanStep(f: Flat, s: VmStep) {
    TakesDown(s) ==> forall k: nat :: PrivateUpper(k) ==> !Entries(f, s.d, k).p
  }

  lemma CleanDropsNothing(f: Flat, s: VmStep)
    ensures CleanStep(f, s) <==> forall x: nat :: !Drops(f, s, x)
  {
    if !CleanStep(f, s) {
      var k: nat :| PrivateUpper(k) && Entries(f, s.d, k).p;
      assert Under(f, s.d, k, Entries(f, s.d, k).base);
      assert Drops(f, s, Entries(f, s.d, k).base);
    }
  }

  /** A step loses no frame if and only if it takes down no directory with such a page. */
  lemma StepLosesNothingIff(run: seq<Flat>, steps: seq<VmStep>, i: nat)
    requires IsVmRun(run, steps) && i < |steps|
    ensures CleanStep(run[i], steps[i]) <==> forall x: nat :: Lost(run, i + 1, x) ==> Lost(run, i, x)
  {
    hide Idle, Drops, IsVmRun, CleanStep;
    RunLength(run, steps);
    CleanDropsNothing(run[i], steps[i]);
    forall x: nat ensures Drops(run[i], steps[i], x) <==> Lost(run, i + 1, x) && !Lost(run, i, x) {
      LostExactly(run, steps, i, x);
      LostExactly(run, steps, i + 1, x);
      if Drops(run[i], steps[i], x) {
        assert DropsAt(run, steps, i, x);
        DroppedWasMapped(run[i], steps[i], x);
      }
    }
  }

  /** Hence a run loses nothing if and only if every directory it takes down is clean before. */
  lemma NothingLostIff(run: seq<Flat>, steps: seq<VmStep>, n: nat)
    requires IsVmRun(run, steps) && n < |run| == |steps| + 1
    ensures (forall x: nat :: !Lost(run, n, x)) <==> forall i: nat :: i < n ==> CleanStep(run[i], steps[i])
  {
    hide Idle, Drops, IsVmRun, CleanStep, Lost;
    forall i: nat | i < n && !CleanStep(run[i], steps[i]) ensures exists x: nat :: Lost(run, n, x) {
      CleanDropsNothing(run[i], steps[i]);
      var x: nat :| Drops(run[i], steps[i], x);
      assert DropsAt(run, steps, i, x);
      LostExactly(run, steps, n, x);
    }
    forall x: nat | Lost(run, n, x) ensures exists i: nat :: i < n && !CleanStep(run[i], steps[i]) {
      LostExactly(run, steps, n, x);
      var i: nat :| i < n && DropsAt(run, steps, i, x);
      CleanDropsNothing(run[i], steps[i]);
    }
  }

  lemma RunLength(run: seq<Flat>, steps: seq<VmStep>)
    requires IsVmRun(run, steps)
    ensures |run| == |steps| + 1
  {
  }

  /** Where every frame in use is: under a present page, as boot left it, or lost. */
  lemma FrameAccount(run: seq<Flat>, steps: seq<VmStep>, n: nat, x: nat)
    requires IsVmRun(run, steps) && n < |run|
    ensures x in run[n].used <==>
      || (exists d: nat, k: nat :: Under(run[n], d, k, x))
      || Idle(run[0], x)
      || exists i: nat :: i < n && DropsAt(run, steps, i, x)
  {
    hide IsVmRun, Isolated, Under, DropsAt;
    IdleInRuns(run, steps, n, x);
    RunIsolated(run, steps, n);
    if d: nat, k: nat :| Under(run[n], d, k, x) {
      UnderHeld(run[n], d, k, x);
    }
  }

  // ----- a run that loses a frame

  /** The first page of the stack that boot maps for the first task. */
  const FIRST_STACK: nat := 0xffff_ffff_9fff_c000
  const STACK_ATTR: Attr := Attr(true, false, false, false)

  lemma StackPlace()
    ensures PrivateUpper(KeyOf(FIRST_STACK)) && KeyOf(FIRST_STACK) < KEYS && Allowed(FIRST_STACK, STACK_ATTR)
  {
    hide IsKernelKey, Idx;
    assert KeyOf(FIRST_STACK) == 0xF_FFF9_FFFC;
    KernelKeyIndices(0xF_FFF9_FFFC);
  }

  /** The first task gets a directory and a stack page in it, and its user space is unmapped: the
      frame of the stack is still marked, boot had not set it aside, and no page is on it. */
  lemma StackFrameLost(f: Flat) returns (run: seq<Flat>, steps: seq<VmStep>)
    requires Booted(f) && |f.used| < INVALID_PAGE
    ensures IsVmRun(run, steps) && |run| == 4 && run[0] == f
    ensures steps == [MapKernel(1), MapPage(1, FIRST_STACK, STACK_ATTR), UnmapUserSpace(1)]
    ensures var x := NextFree(f.used); x !in f.used && x in run[3].used && Lost(run, 3, x)
  {
    hide UpperHeld, UpperDistinct, Coherent, KernelOnly, SetEntry, LowerFrames, IsKernelKey, NextFree;
    var k, x := KeyOf(FIRST_STACK), NextFree(f.used);
    StackPlace();
    BootOwned(f);
    var f1 := AddDirectory(f, 1);
    KernelOnlySees(f, f1, 1);
    NewSpaceFull(f, 1, k);
    var f2 := MapFresh(f1, 1, k, STACK_ATTR);
    StackMapped(f1, k, x);
    var f3 := Teardown(f2, 1);
    run, steps := [f, f1, f2, f3], [MapKernel(1), MapPage(1, FIRST_STACK, STACK_ATTR), UnmapUserSpace(1)];
    assert Drops(f2, steps[2], x);
    RunOfThree(run, steps);
    assert DropsAt(run, steps, 2, x);
    LostExactly(run, steps, 3, x);
  }

  lemma NewSpaceFull(f: Flat, d: nat, k: nat)
    requires Coherent(f.spaces) && 0 in f.spaces && k < KEYS
    ensures Has(AddDirectory(f, d), d, k)
  {
  }

  lemma StackMapped(f: Flat, k: nat, x: nat)
    requires Has(f, 1, k) && Entries(f, 1, k) == ZERO && x == NextFree(f.used)
    ensures var g := MapFresh(f, 1, k, STACK_ATTR);
      Under(g, 1, k, x) && 1 in g.spaces && g.spaces.Keys == f.spaces.Keys
  {
    hide NextFree;
  }

  lemma RunOfThree(run: seq<Flat>, steps: seq<VmStep>)
    requires |run| == 4 && |steps| == 3 && Booted(run[0])
    requires VmEnabled(run[0], steps[0]) && run[1] == VmApply(run[0], steps[0])
    requires VmEnabled(run[1], steps[1]) && run[2] == VmApply(run[1], steps[1])
    requires VmEnabled(run[2], steps[2]) && run[3] == VmApply(run[2], steps[2])
    ensures IsVmRun(run, steps)
  {
    hide Booted, VmEnabled, VmApply;
  }
}
