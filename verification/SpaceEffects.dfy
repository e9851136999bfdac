/** What the operations on address spaces do, entry by entry: the rights and the frame of the page,
    the frames taken or given back, and that nothing else changes. */
module SpaceEffects {
  import opened PageEntry
  import opened FlatSpace
  import opened FrameMemory
  import opened AddressSpace
  import opened AddressRuns

  /** The entry of page `k` of directory `d` is seen there and, in the kernel gigabyte, everywhere. */
  predicate SeenIn(f: Flat, d: nat, k: nat, d': nat) {
    d' in f.spaces && (d' == d || IsKernelKey(k))
  }

  /** Page `k` of `d` becomes `e` wherever it is seen, and no other page of any directory changes. */
  ghost predicate OnlyPage(f: Flat, g: Flat, d: nat, k: nat, e: Entry) {
    && g.spaces.Keys == f.spaces.Keys
    && (forall d': nat :: SeenIn(f, d, k, d') ==> Entries(g, d', k) == e)
    && (forall d': nat, k': nat :: !(k' == k && SeenIn(f, d, k, d')) ==> Entries(g, d', k') == Entries(f, d', k'))
  }

  /** `x` is free, and every frame below it is in use. */
  predicate LowestFree(used: set<nat>, x: nat) {
    x !in used && forall j :: 0 <= j < x ==> j in used
  }

  lemma PutOnlyPage(f: Flat, g: Flat, d: nat, k: nat, e: Entry)
    requires Coherent(f.spaces) && Has(f, d, k) && g.spaces == Put(f, d, k, e).spaces
    ensures OnlyPage(f, g, d, k, e)
  {
    PutEntries(f, d, k, e);
    forall d': nat, k': nat | !(k' == k && SeenIn(f, d, k, d')) ensures Entries(g, d', k') == Entries(f, d', k') {
      if d' in f.spaces {
        assert Entries(Put(f, d, k, e), d', k') == Entries(f, d', k');
      }
    }
  }

  /** Mapping a page at a given frame: present there, with every right that it had or that is
      asked for; in a slot that was clear the attributes are those asked for. */
  lemma MapAtEffect(f: Flat, d: nat, k: nat, frame: nat, a: Attr)
    requires Coherent(f.spaces) && Has(f, d, k)
    ensures var e := Entries(f, d, k);
      var e' := Entry(!a.defer, e.rw || a.rw, e.us || a.public, e.nx || a.noexec, frame);
      && OnlyPage(f, MapAt(f, d, k, frame, a), d, k, e')
      && (e == ZERO && (a.defer <==> frame == INVALID_PAGE) ==> GetAttributes(e') == a)
    ensures var g := MapAt(f, d, k, frame, a); g.used == f.used && g.reserved == f.reserved && g.contents == f.contents
  {
    hide OnlyPage, Coherent, SetEntry, Has;
    PutOnlyPage(f, MapAt(f, d, k, frame, a), d, k, MapEntry(Entries(f, d, k), frame, a));
  }

  /** Mapping a page on a frame of its own, in either half: the lowest free frame is taken and
      nothing else; a deferred page takes none. */
  lemma MapEffect(f: Flat, d: nat, k: nat, a: Attr)
    requires Coherent(f.spaces) && Has(f, d, k) && |f.used| < INVALID_PAGE
    ensures var g, e, frame := MapFresh(f, d, k, a), Entries(f, d, k), NextFree(f.used);
      var e' := Entry(!a.defer, e.rw || a.rw, e.us || a.public, e.nx || a.noexec,
                      if a.defer then INVALID_PAGE else frame);
      && LowestFree(f.used, frame) && OnlyPage(f, g, d, k, e') && (e == ZERO ==> GetAttributes(e') == a)
      && g.used == (if a.defer then f.used else f.used + {frame}) && g.contents == f.contents
      && g.reserved == (if a.defer || k < LOWER_KEYS then f.reserved else f.reserved + {frame})
  {
    hide OnlyPage, Coherent, SetEntry, NextFree;
    NextFreeBound(f.used);
    var frame := if a.defer then INVALID_PAGE else NextFree(f.used);
    PutOnlyPage(f, MapFresh(f, d, k, a), d, k, MapEntry(Entries(f, d, k), frame, a));
  }

  /** Serving a fault: a page that waits for a frame becomes present on the lowest free one, with
      the rights it was given before; any other fault changes nothing. */
  lemma FaultEffect(f: Flat, d: nat, k: nat)
    requires Coherent(f.spaces) && Has(f, d, k)
    ensures var g, e, frame := ServeFault(f, d, k), Entries(f, d, k), NextFree(f.used);
      if !e.p && e.base == INVALID_PAGE then
        && LowestFree(f.used, frame) && OnlyPage(f, g, d, k, Entry(true, e.rw, e.us, e.nx, frame))
        && g.used == f.used + {frame} && g.contents == f.contents
        && g.reserved == (if k < LOWER_KEYS then f.reserved else f.reserved + {frame})
      else g == f
  {
    hide OnlyPage, Coherent, SetEntry, NextFree, Has;
    PutOnlyPage(f, Put(f, d, k, FaultEntry(Entries(f, d, k), NextFree(f.used))), d, k,
                FaultEntry(Entries(f, d, k), NextFree(f.used)));
    SameOnlyPage(f, Put(f, d, k, FaultEntry(Entries(f, d, k), NextFree(f.used))), ServeFault(f, d, k), d, k,
                 FaultEntry(Entries(f, d, k), NextFree(f.used)));
  }

  lemma SameOnlyPage(f: Flat, g: Flat, g': Flat, d: nat, k: nat, e: Entry)
    requires OnlyPage(f, g, d, k, e)
    ensures g'.spaces == g.spaces ==> OnlyPage(f, g', d, k, e)
  {
  }

  /** Unmapping a page: not present and without a frame, its rights kept; no frame is freed. */
  lemma UnmapEffect(f: Flat, d: nat, k: nat)
    requires Coherent(f.spaces) && Has(f, d, k)
    ensures var g, e := Unmap(f, d, k), Entries(f, d, k);
      && OnlyPage(f, g, d, k, Entry(false, e.rw, e.us, e.nx, 0))
      && g.used == f.used && g.reserved == f.reserved && g.contents == f.contents
  {
    hide OnlyPage, Coherent, SetEntry, Has;
    PutOnlyPage(f, Unmap(f, d, k), d, k, UnmapEntry(Entries(f, d, k)));
  }

  /** A new directory: the kernel gigabyte as directory 0 has it, and nothing else. */
  lemma AddDirectoryEffect(f: Flat, d: nat)
    requires Coherent(f.spaces) && 0 in f.spaces
    ensures var g := AddDirectory(f, d);
      && g.spaces.Keys == f.spaces.Keys + {d}
      && (forall k: nat :: Entries(g, d, k) == if IsKernelKey(k) then Entries(f, 0, k) else ZERO)
      && (forall d': nat, k: nat :: d' != d ==> Entries(g, d', k) == Entries(f, d', k))
      && g.used == f.used && g.reserved == f.reserved && g.contents == f.contents
  {
  }

  /** Taking down a user space: the kernel gigabyte stays, every other page of the directory goes,
      and a frame is freed if and only if a present lower-half page was on it. */
  lemma TeardownEffect(f: Flat, d: nat)
    requires Coherent(f.spaces) && 0 in f.spaces && d in f.spaces
    ensures var g := Teardown(f, d);
      && g.spaces.Keys == f.spaces.Keys
      && (forall k: nat :: Entries(g, d, k) == if IsKernelKey(k) then Entries(f, 0, k) else ZERO)
      && (forall d': nat, k: nat :: d' != d ==> Entries(g, d', k) == Entries(f, d', k))
      && (forall x :: x in g.used <==>
            x in f.used && !exists k: nat :: k < LOWER_KEYS && Entries(f, d, k).p && Entries(f, d, k).base == x)
      && g.reserved == f.reserved && g.contents == f.contents
  {
    var g := Teardown(f, d);
    LowerFramesLow(f.spaces, d);
    hide LowerFrames;
    forall x ensures x in LowerFrames(f.spaces[d]) <==>
      exists k: nat :: k < LOWER_KEYS && Entries(f, d, k).p && Entries(f, d, k).base == x
    {
      if x in LowerFrames(f.spaces[d]) {
        var k: nat :| Low(f.spaces, d, k).p && Low(f.spaces, d, k).base == x;
        assert k < LOWER_KEYS && Entries(f, d, k) == Low(f.spaces, d, k);
      }
      if k: nat :| k < LOWER_KEYS && Entries(f, d, k).p && Entries(f, d, k).base == x {
        assert Low(f.spaces, d, k) == Entries(f, d, k);
      }
    }
  }

  /** Giving a kernel page back: unmapped, and the frame it had is free and no longer set aside. */
  lemma FreePageEffect(f: Flat, d: nat, k: nat)
    requires Coherent(f.spaces) && Has(f, d, k)
    ensures var g, e := FreePage(f, d, k), Entries(f, d, k);
      && OnlyPage(f, g, d, k, Entry(false, e.rw, e.us, e.nx, 0))
      && g.used == f.used - {e.base} && g.reserved == f.reserved - {e.base} && g.contents == f.contents
  {
    hide OnlyPage, Coherent, SetEntry, Has;
    PutOnlyPage(f, FreePage(f, d, k), d, k, UnmapEntry(Entries(f, d, k)));
  }
}
