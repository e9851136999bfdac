/** source/PageDirectory.cpp: page directories edited in place. Every operation is proved
    against its effect on the flat maps of module AddressSpace. */
module VirtualMemory {
  import opened Common
  import opened PageEntry
  import opened RadixTree
  import opened DirectoryTables
  import opened DirectoryStore
  import opened FlatSpace
  import opened AddressSpace
  import opened AddressRuns
  import opened SpaceEffects
  import opened FrameMemory
  import opened UserPages

  /** A block of the page heap, as its `kmalloc` returns it. */
  datatype TableBlock = TableBlock(id: TableId, phys: nat)

  /** Blocks that are not in use yet, in the order in which they will be handed out. The page
      heap has them mapped in the upper half, so their frames are set aside. */
  ghost predicate FreshSupply(ts: Tables, supply: seq<TableBlock>, reserved: set<nat>) {
    && (forall i :: 0 <= i < |supply| ==> supply[i].phys in reserved)
    && (forall i :: 0 <= i < |supply| ==> supply[i].id !in ts)
    && (forall i, t :: 0 <= i < |supply| && t in ts ==> ts[t].phys != supply[i].phys)
    && (forall i, j :: 0 <= i < j < |supply| ==> supply[i].id != supply[j].id && supply[i].phys != supply[j].phys)
  }

  /** Every table lives in a frame that is set aside. */
  ghost predicate TablesReserved(ts: Tables, reserved: set<nat>) {
    forall t :: t in ts ==> ts[t].phys in reserved
  }

  /** Every table was there before, on the same frame, or is in a block of the supply. */
  ghost predicate TablesFrom(ts: Tables, ts': Tables, supply: seq<TableBlock>) {
    forall t :: t in ts' ==> (t in ts && ts'[t].phys == ts[t].phys) || TableBlock(t, ts'[t].phys) in supply
  }

  /** No table goes away, and what is left of the supply comes from it. */
  ghost predicate Grown(ts: Tables, ts': Tables, supply: seq<TableBlock>, rest: seq<TableBlock>) {
    ts.Keys <= ts'.Keys && TablesFrom(ts, ts', supply) && forall b :: b in rest ==> b in supply
  }

  lemma GrownTwice(a: Tables, b: Tables, c: Tables, supply: seq<TableBlock>, mid: seq<TableBlock>,
                   rest: seq<TableBlock>)
    requires Grown(a, b, supply, mid) && Grown(b, c, mid, rest)
    ensures Grown(a, c, supply, rest)
  {
  }

  lemma ThenDestroyed(d: nat, n: nat, a: Tables, b: Tables, c: Tables, supply: seq<TableBlock>, rest: seq<TableBlock>)
    requires Grown(a, b, supply, rest) && TablesAfter(VmStep.Destroy(n), b, c, [])
    ensures TablesAfter(VmStep.UnmapUserSpace(d), a, c, supply)
  {
  }

  /** What the parent's page holds, the child's page holds, on a frame that was free. */
  predicate PageBytes(f: Flat, g: Flat, parent: nat, child: nat, k: nat) {
    var from, to := Low(f.spaces, parent, k), Low(g.spaces, child, k);
    from.p && from.base in f.contents ==>
      to.p && to.base !in f.used && to.base in g.contents && g.contents[to.base] == f.contents[from.base]
  }

  lemma CopiedPage(f: Flat, parent: nat, child: nat, k: nat)
    requires CanClone(f, parent, child) && k < LOWER_KEYS && |f.used| < INVALID_PAGE
    requires IsValid(Low(f.spaces, parent, k)) && Low(f.spaces, child, k) == ZERO
    ensures PageBytes(f, CopyPage(f, parent, child, k), parent, child, k)
  {
    hide Owned, Low, CopyPage, UpperKept;
    var e := CopyPageEffect(f, parent, child, k);
    assert Low(CopyPage(f, parent, child, k).spaces, child, k) == e;
  }

  lemma ClonedBytes(f: Flat, g: Flat, parent: nat, child: nat, keys: seq<nat>)
    requires Owned(f) && parent in f.spaces && child !in f.spaces && !Entries(f, parent, SCRATCH).p
    requires IsUserKeys(f.spaces[parent], keys) && |f.used| + |keys| <= INVALID_PAGE
    requires 0 in f.spaces && g == Fork(f, parent, child, keys)
    ensures BytesCopied(f.spaces, f.contents, g.spaces, g.contents, parent, child)
    ensures forall x :: x in f.used && x in f.contents ==> x in g.contents && g.contents[x] == f.contents[x]
  {
    hide Owned, Fork, BytesCopied, PageCopied, Low;
    ForkPreserves(f, parent, child, keys);
  }

  lemma ClonedTables(parent: nat, child: nat, keys: seq<nat>, ts: Tables, ts': Tables, supply: seq<TableBlock>,
                     rest: seq<TableBlock>)
    requires Grown(ts, ts', supply, rest)
    ensures TablesAfter(VmStep.Clone(parent, child, keys), ts, ts', supply)
  {
  }

  lemma GrownBySame(ts: Tables, ts': Tables, supply: seq<TableBlock>)
    requires ts'.Keys == ts.Keys && forall t :: t in ts' ==> ts'[t].phys == ts[t].phys
    ensures Grown(ts, ts', supply, supply)
  {
  }

  /** What an operation does to the set of tables: only mapping and new directories add some, from
      the supply, and only taking a directory down removes some. */
  ghost predicate TablesAfter(s: VmStep, ts: Tables, ts': Tables, supply: seq<TableBlock>) {
    && TablesFrom(ts, ts', if s.HandleFault? || s.Destroy? || s.UnmapFree? then [] else supply)
    && (!s.UnmapUserSpace? && !s.Destroy? ==> ts.Keys <= ts'.Keys)
  }

  lemma OnlyPageHere(f: Flat, g: Flat, d: nat, k: nat, e: Entry)
    requires OnlyPage(f, g, d, k, e) && d in f.spaces
    ensures Entries(g, d, k) == e
  {
    assert SeenIn(f, d, k, d);
  }

  lemma SameStart(f: Flat, g: Flat, h: Flat, d: nat, k: nat)
    requires f.spaces == g.spaces
    ensures Entries(f, d, k) == Entries(g, d, k) && forall e :: OnlyPage(f, h, d, k, e) <==> OnlyPage(g, h, d, k, e)
  {
    hide IsKernelKey;
    assert forall d': nat, k': nat :: Entries(f, d', k') == Entries(g, d', k');
    assert forall d': nat :: SeenIn(f, d, k, d') == SeenIn(g, d, k, d');
    hide Entries, SeenIn;
  }

  /** Pointers that are set stay as they are, and no table goes away. */
  ghost predicate KeepsPointers(ts: Tables, ts': Tables) {
    forall t :: t in ts && TableOk(ts[t]) ==>
      && t in ts' && TableOk(ts'[t])
      && forall i :: 0 <= i < SLOTS && ts[t].next[i].Some? ==> ts'[t].next[i] == ts[t].next[i]
  }

  lemma SupplyAfterAdd(ts: Tables, t: TableId, i: nat, supply: seq<TableBlock>, reserved: set<nat>)
    requires t in ts && TableOk(ts[t]) && i < SLOTS && supply != [] && FreshSupply(ts, supply, reserved)
    requires TablesReserved(ts, reserved)
    ensures var ts' := AddTable(ts, t, i, supply[0].id, supply[0].phys);
      FreshSupply(ts', supply[1..], reserved) && TablesReserved(ts', reserved)
  {
  }

  lemma GrownByOne(ts: Tables, t: TableId, i: nat, supply: seq<TableBlock>)
    requires t in ts && TableOk(ts[t]) && i < SLOTS && supply != [] && supply[0].id !in ts
    ensures Grown(ts, AddTable(ts, t, i, supply[0].id, supply[0].phys), supply, supply[1..])
  {
    assert TableBlock(supply[0].id, supply[0].phys) in supply;
  }

  lemma AddKeepsPointers(ts: Tables, t: TableId, i: nat, u: TableId, phys: nat)
    requires t in ts && TableOk(ts[t]) && i < SLOTS && ts[t].next[i].None? && u !in ts
    ensures KeepsPointers(ts, AddTable(ts, t, i, u, phys))
  {
  }

  lemma KeepsPointersTwice(a: Tables, b: Tables, c: Tables)
    requires KeepsPointers(a, b) && KeepsPointers(b, c)
    ensures KeepsPointers(a, c)
  {
  }

  class Vm {
    var tables: Tables
    var dirs: Dirs
    var kernelPd: TableId
    var nextGen: nat
    const mem: Memory
    var contents: map<nat, Bytes>
    /** Auxiliary: where each table hangs. Only `Destroy` looks at it, to drop the tables of a
        directory from the store. */
    var lab: Labels
    ghost var reserved: set<nat>

    ghost predicate Valid()
      reads this, mem
    {
      && Store(tables, lab, dirs, kernelPd) && (forall d :: d in dirs ==> dirs[d].gen < nextGen)
      && TablesReserved(tables, reserved) && mem.Valid()
    }

    /** What the page tables, the frame bitmap and memory stand for. */
    ghost function View(): Flat
      reads this, mem
    {
      Flat(SpacesOf(tables, dirs), mem.Used(), reserved, contents)
    }

    /** What the processor finds for page `key` when directory `d` is in use. */
    ghost function Sees(d: nat, key: nat): Translation
      reads this`tables, this`dirs
    {
      if d in dirs && dirs[d].root in tables then
        HardwareWalk(tables, tables[dirs[d].root].phys, 4, key, true, true, true)
      else Fault
    }

    lemma SeesEntry(d: nat, key: nat)
      requires Valid() && d in dirs && key < KEYS
      ensures var e := Entries(View(), d, key); Sees(d, key) == if e.p then Frame(e.base, e.rw, e.us, !e.nx) else Fault
    {
      hide Walk, SpacesOf, HardwareWalk, Sound, GensDistinct, AllHeld, Connected, UsedFrames;
      LeafSeen(tables, lab, dirs, kernelPd, d, key);
      HardwareAgrees(tables, lab, dirs[d].gen, dirs[d].root, key);
    }

    /** After page `key` of `d` has become `e`, every directory that shares it finds that. */
    lemma SeesChanged(f: Flat, d: nat, key: nat, e: Entry)
      requires Valid() && d in dirs && key < KEYS && f.spaces.Keys == dirs.Keys && OnlyPage(f, View(), d, key, e)
      ensures forall d' :: d' in dirs && (d' == d || IsKernelKey(key)) ==>
        Sees(d', key) == if e.p then Frame(e.base, e.rw, e.us, !e.nx) else Fault
    {
      hide Store, SpacesOf, IsKernelKey, UsedFrames, TablesReserved;
      forall d' | d' in dirs && (d' == d || IsKernelKey(key))
        ensures Sees(d', key) == if e.p then Frame(e.base, e.rw, e.us, !e.nx) else Fault
      {
        SeesEntry(d', key);
        assert SeenIn(f, d, key, d');
      }
    }

    /** The kernel's own directory: its root, the table below it, and the page directory of
        the kernel gigabyte that every later directory will share. */
    constructor (mem: Memory, root: TableBlock, mid: TableBlock, kpd: TableBlock)
      requires mem.Valid() && root.id != mid.id && root.id != kpd.id && mid.id != kpd.id
      requires root.phys != mid.phys && root.phys != kpd.phys && mid.phys != kpd.phys
      requires {root.phys, mid.phys, kpd.phys} <= mem.Used()
      ensures Valid() && this.mem == mem && View().spaces.Keys == {0} && View().reserved == View().used == mem.Used()
      ensures forall k: nat :: Entries(View(), 0, k) == ZERO
    {
      hide Leaf, SpaceOf, BootTables, BootLabels, Store, TablesReserved, UsedFrames;
      this.mem := mem;
      tables := BootTables(root.id, root.phys, mid.id, mid.phys, kpd.id, kpd.phys);
      dirs, kernelPd, nextGen, contents := map[0 := Directory(root.id, 0)], kpd.id, 1, map[];
      lab, reserved := BootLabels(root.id, mid.id, kpd.id), mem.Used();
      new;
      BootStore(root.id, root.phys, mid.id, mid.phys, kpd.id, kpd.phys);
      SpaceOfFull(tables, root.id);
      BootReserved(root, mid, kpd, mem.Used());
    }

    /** The creating walk: every missing table on the path of `key` is put in place. */
    method GetEntry(ghost d: nat, t: TableId, level: nat, key: nat, supply: seq<TableBlock>)
      returns (u: TableId, rest: seq<TableBlock>)
      requires Store(tables, lab, dirs, kernelPd) && d in dirs && key < KEYS && 1 <= level <= 4
      requires t in tables && t in lab && lab[t] == PathLabel(dirs[d].gen, level, key)
      requires FreshSupply(tables, supply, reserved) && TablesReserved(tables, reserved) && |supply| >= level - 1
      modifies this`tables, this`lab
      ensures Store(tables, lab, dirs, kernelPd) && SpacesOf(tables, dirs) == old(SpacesOf(tables, dirs))
      ensures Walk(tables, t, level, 1, key) == Some(u)
      ensures KeepsPointers(old(tables), tables)
      ensures FreshSupply(tables, rest, reserved) && TablesReserved(tables, reserved)
      ensures |rest| >= |supply| - (level - 1) && Grown(old(tables), tables, supply, rest)
      decreases level
    {
      hide Grown, Sound, InPlace, FreshSupply, TablesReserved, SpacesOf, KeepsPointers, ChildLabel, Ordinary, AddTable;
      rest := supply;
      OnTable(tables, lab, dirs, kernelPd, t);
      if level == 1 {
        u := t;
        KeepsPointersRefl(tables);
        GrownBySame(tables, tables, supply);
        return;
      }
      var i := Idx(level, key);
      ChildOnPath(dirs[d].gen, level, key);
      if tables[t].next[i].None? {
        PathOrdinary(tables, lab, dirs, kernelPd, d, t, level, key);
        var block := supply[0];
        FirstBlock(tables, supply, reserved);
        AddTableStore(tables, lab, dirs, kernelPd, t, i, block.id, block.phys);
        SupplyAfterAdd(tables, t, i, supply, reserved);
        AddKeepsPointers(tables, t, i, block.id, block.phys);
        GrownByOne(tables, t, i, supply);
        AddedAt(tables, t, i, block.id, block.phys);
        tables, lab := AddTable(tables, t, i, block.id, block.phys), lab[block.id := ChildLabel(lab[t], i)];
        rest := supply[1..];
      } else {
        SlotLeadsOn(tables, lab, dirs, kernelPd, t, i);
        KeepsPointersRefl(tables);
        GrownBySame(tables, tables, supply);
      }
      ghost var mid, left := tables, rest;
      var next := tables[t].next[i].value;
      u, rest := GetEntry(d, next, level - 1, key, rest);
      KeepsPointersTwice(old(tables), mid, tables);
      GrownTwice(old(tables), mid, tables, supply, left, rest);
      WalkOn(mid, tables, t, level, key, next);
    }

    /** One last-level entry written in place. */
    method WriteEntry(ghost d: nat, u: TableId, key: nat, e: Entry)
      requires Store(tables, lab, dirs, kernelPd) && d in dirs && key < KEYS
      requires Walk(tables, dirs[d].root, 4, 1, key) == Some(u)
      requires u in tables && TableOk(tables[u])
      modifies this`tables
      ensures Store(tables, lab, dirs, kernelPd)
      ensures SpacesOf(tables, dirs) == SetEntry(old(SpacesOf(tables, dirs)), d, key, e)
      ensures tables == SetLeaf(old(tables), u, Idx(1, key), e)
      ensures old(TablesReserved(tables, reserved)) ==> TablesReserved(tables, reserved)
      ensures tables.Keys == old(tables.Keys) && forall t :: t in tables ==> tables[t].phys == old(tables)[t].phys
    {
      hide Sound, InPlace, Walk, SetEntry, SpacesOf, TablesReserved;
      SetKeepsReserved(tables, u, Idx(1, key), e, reserved);
      SetLeafStore(tables, lab, dirs, kernelPd, d, key, e);
      tables := tables[u := tables[u].(entries := tables[u].entries[Idx(1, key) := e])];
    }

    /** `mapPageTo`: the page must not be mapped yet, and its attributes must be allowed. In the
        source the page heap may map pages of its own region meanwhile, when a table has to be
        created; here the blocks of `supply` are mapped already. */
    method MapPageTo(d: nat, vaddr: nat, frame: nat, a: Attr, supply: seq<TableBlock>) returns (rest: seq<TableBlock>)
      requires Valid() && d in dirs && Allowed(vaddr, a) && !Entries(View(), d, KeyOf(vaddr)).p
      requires FreshSupply(tables, supply, reserved) && |supply| >= 3
      modifies this`tables, this`lab
      ensures Valid() && View() == MapAt(old(View()), d, KeyOf(vaddr), frame, a)
      ensures FreshSupply(tables, rest, reserved) && |rest| >= |supply| - 3
      ensures Grown(old(tables), tables, supply, rest)
      ensures Shows(old(View()), d, KeyOf(vaddr), frame, a)
    {
      hide Coherent, Grown, Shows, Store, FreshSupply, Walk, SetEntry, SetLeaf, SpacesOf, KeepsPointers, TablesReserved;
      var key := KeyOf(vaddr);
      StoreCoherent(tables, lab, dirs, kernelPd);
      SpacesHaveKeys(tables, dirs);
      LeafSeen(tables, lab, dirs, kernelPd, d, key);
      RootLabelled(tables, lab, dirs, kernelPd, d, key);
      var u;
      u, rest := GetEntry(d, dirs[d].root, 4, key, supply);
      LeafSeen(tables, lab, dirs, kernelPd, d, key);
      var e := MapEntry(tables[u].entries[Idx(1, key)], frame, a);
      SupplyAfterSet(tables, u, Idx(1, key), e, rest, reserved);
      ghost var walked := tables;
      WriteEntry(d, u, key, e);
      GrownBySame(walked, tables, rest);
      GrownTwice(old(tables), walked, tables, supply, rest, rest);
      ShowsMapping(old(View()), d, key, frame, a);
    }

    /** Page `key` of `d` is mapped at `frame`: the processor finds it there, with every right that
        is asked for or was in the slot, and faults on a deferred page. In the kernel gigabyte it
        does so in every directory, and no other page has changed. */
    ghost predicate Shows(f: Flat, d: nat, key: nat, frame: nat, a: Attr)
      reads this, mem
    {
      var e := Entries(f, d, key);
      && OnlyPage(f, View(), d, key, Entry(!a.defer, e.rw || a.rw, e.us || a.public, e.nx || a.noexec, frame))
      && forall d' :: d' in dirs && (d' == d || IsKernelKey(key)) ==>
           Sees(d', key) ==
             if a.defer then Fault else Frame(frame, e.rw || a.rw, e.us || a.public, !(e.nx || a.noexec))
    }

    lemma ShowsMapping(f: Flat, d: nat, key: nat, frame: nat, a: Attr)
      requires Valid() && d in dirs && key < KEYS && Coherent(f.spaces) && f.spaces.Keys == dirs.Keys && Has(f, d, key)
      requires View() == MapAt(f, d, key, frame, a)
      ensures Shows(f, d, key, frame, a)
    {
      hide Store, SpacesOf, Coherent, OnlyPage, SetEntry, UsedFrames, Sees, IsKernelKey;
      MapAtEffect(f, d, key, frame, a);
      var e := Entries(f, d, key);
      SeesChanged(f, d, key, Entry(!a.defer, e.rw || a.rw, e.us || a.public, e.nx || a.noexec, frame));
    }

    /** `mapPage`: on the lowest free frame, or deferred. */
    method MapPage(d: nat, vaddr: nat, a: Attr, supply: seq<TableBlock>) returns (frame: nat, rest: seq<TableBlock>)
      requires Valid() && d in dirs && Allowed(vaddr, a) && !Entries(View(), d, KeyOf(vaddr)).p
      requires |mem.Used()| < INVALID_PAGE
      requires FreshSupply(tables, supply, reserved) && |supply| >= 3
      modifies this`tables, this`lab, this`reserved, mem
      ensures Valid() && View() == MapFresh(old(View()), d, KeyOf(vaddr), a)
      ensures frame == if a.defer then INVALID_PAGE else NextFree(old(mem.Used()))
      ensures FreshSupply(tables, rest, reserved) && |rest| >= |supply| - 3
      ensures Grown(old(tables), tables, supply, rest)
      ensures TablesAfter(VmStep.MapPage(d, vaddr, a), old(tables), tables, supply)
      ensures Shows(old(View()), d, KeyOf(vaddr), frame, a)
      ensures !a.defer ==> LowestFree(old(mem.Used()), frame)
      ensures mem.Used() == if a.defer then old(mem.Used()) else old(mem.Used()) + {frame}
    {
      hide Shows, Store, FreshSupply, SpacesOf, SetEntry, NextFree, TablesReserved;
      if a.defer {
        frame := INVALID_PAGE;
      } else {
        frame := mem.GetFreePage();
        MoreReserved(tables, supply, reserved, frame);
        reserved := if KeyOf(vaddr) < LOWER_KEYS then reserved else reserved + {frame};
      }
      ghost var taken := View();
      rest := MapPageTo(d, vaddr, frame, a, supply);
      ShowsSame(old(View()), taken, d, KeyOf(vaddr), frame, a);
    }

    /** What is shown does not depend on the frames in use before. */
    lemma ShowsSame(f: Flat, g: Flat, d: nat, key: nat, frame: nat, a: Attr)
      requires f.spaces == g.spaces && Shows(g, d, key, frame, a)
      ensures Shows(f, d, key, frame, a)
    {
      hide SpacesOf, Sees, IsKernelKey, UsedFrames;
      SameStart(f, g, View(), d, key);
    }

    /** `unmapPage`: a page that is mapped; its frame is returned, not freed. */
    method UnmapPage(d: nat, vaddr: nat) returns (frame: nat)
      requires Valid() && d in dirs && Entries(View(), d, KeyOf(vaddr)).p
      modifies this`tables
      ensures Valid() && View() == Unmap(old(View()), d, KeyOf(vaddr))
      ensures frame == Entries(old(View()), d, KeyOf(vaddr)).base
      ensures tables.Keys == old(tables.Keys) && forall t :: t in tables ==> tables[t].phys == old(tables)[t].phys
      ensures Gone(old(View()), d, KeyOf(vaddr))
    {
      hide Gone, Coherent, Store, Walk, SetEntry, SpacesOf, TablesReserved;
      var key := KeyOf(vaddr);
      LeafSeen(tables, lab, dirs, kernelPd, d, key);
      var u := Walk(tables, dirs[d].root, 4, 1, key).value;
      frame := tables[u].entries[Idx(1, key)].base;
      StoreCoherent(tables, lab, dirs, kernelPd);
      SpacesHaveKeys(tables, dirs);
      WriteEntry(d, u, key, UnmapEntry(tables[u].entries[Idx(1, key)]));
      GoneAfter(old(View()), d, key);
    }

    /** The processor faults on page `key` wherever it is seen, and no other page has changed. */
    ghost predicate Gone(f: Flat, d: nat, key: nat)
      reads this, mem
    {
      var e := Entries(f, d, key);
      && OnlyPage(f, View(), d, key, Entry(false, e.rw, e.us, e.nx, 0))
      && forall d' :: d' in dirs && (d' == d || IsKernelKey(key)) ==> Sees(d', key) == Fault
    }

    lemma GoneAfter(f: Flat, d: nat, key: nat)
      requires Valid() && d in dirs && key < KEYS && Coherent(f.spaces) && f.spaces.Keys == dirs.Keys && Has(f, d, key)
      requires View() == Unmap(f, d, key)
      ensures Gone(f, d, key)
    {
      hide Store, SpacesOf, Coherent, OnlyPage, SetEntry, UsedFrames, Sees, IsKernelKey, Unmap;
      UnmapEffect(f, d, key);
      var e := Entries(f, d, key);
      SeesChanged(f, d, key, Entry(false, e.rw, e.us, e.nx, 0));
    }

    /** What the page heap does with a page of a block that it takes back: the page is unmapped
        and its frame freed. No table lives there any more. */
    method FreeKernelPage(d: nat, vaddr: nat)
      requires Valid() && d in dirs && Owned(View()) && KeyOf(vaddr) >= LOWER_KEYS && Entries(View(), d, KeyOf(vaddr)).p
      requires var frame := Entries(View(), d, KeyOf(vaddr)).base;
        frame in reserved && forall t :: t in tables ==> tables[t].phys != frame
      modifies this`tables, this`reserved, mem
      ensures Valid() && View() == FreePage(old(View()), d, KeyOf(vaddr))
      ensures TablesAfter(UnmapFree(d, vaddr), old(tables), tables, [])
    {
      hide Gone, Store, SpacesOf, Unmap, Coherent, FramesHeld, FramesDistinct, LowerPublic;
      var frame := UnmapPage(d, vaddr);
      mem.SetPageFree(frame);
      reserved := reserved - {frame};
    }

    /** No user page is on the frame of a page table. */
    lemma TablesIsolated(t: TableId, d: nat, k: nat)
      requires Valid() && Owned(View()) && t in tables && Low(View().spaces, d, k).p
      ensures Low(View().spaces, d, k).base != tables[t].phys
    {
      hide Store, SpacesOf, Low, Coherent;
    }

    /** `handleFault`: true exactly when the page was waiting for a frame. Frame numbers have
        to fit the 40 bits of an entry. */
    method HandleFault(d: nat, vaddr: nat) returns (handled: bool)
      requires Valid() && d in dirs && |mem.Used()| < INVALID_PAGE
      modifies this`tables, this`reserved, mem
      ensures Valid() && View() == ServeFault(old(View()), d, KeyOf(vaddr))
      ensures handled <==> Deferred(Entries(old(View()), d, KeyOf(vaddr)))
      ensures TablesAfter(VmStep.HandleFault(d, vaddr), old(tables), tables, [])
      ensures handled ==> Served(old(View()), d, KeyOf(vaddr))
      ensures !handled ==> View() == old(View())
    {
      hide Store, Walk, SetEntry, SpacesOf, NextFree, SetLeaf, TablesReserved, Served, Coherent;
      var key := KeyOf(vaddr);
      StoreCoherent(tables, lab, dirs, kernelPd);
      SpacesHaveKeys(tables, dirs);
      LeafSeen(tables, lab, dirs, kernelPd, d, key);
      match Walk(tables, dirs[d].root, 4, 1, key)
      case None => return false;
      case Some(u) =>
        var e := tables[u].entries[Idx(1, key)];
        if e.p || e.base != INVALID_PAGE {
          return false;
        }
        var page := mem.GetFreePage();
        MoreReserved(tables, [], reserved, page);
        reserved := if key < LOWER_KEYS then reserved else reserved + {page};
        WriteEntry(d, u, key, FaultEntry(e, page));
        handled := true;
        ServedFault(old(View()), d, key);
    }

    /** The deferred page is present on the lowest frame that was free, which alone was taken; it has
        the rights it was given when it was deferred, the processor finds it, and no other page
        has changed. */
    ghost predicate Served(f: Flat, d: nat, key: nat)
      reads this, mem
    {
      var e, x := Entries(f, d, key), Entries(View(), d, key).base;
      && LowestFree(f.used, x) && mem.Used() == f.used + {x}
      && OnlyPage(f, View(), d, key, Entry(true, e.rw, e.us, e.nx, x))
      && forall d' :: d' in dirs && (d' == d || IsKernelKey(key)) ==> Sees(d', key) == Frame(x, e.rw, e.us, !e.nx)
    }

    lemma ServedFault(f: Flat, d: nat, key: nat)
      requires Valid() && d in dirs && key < KEYS && Coherent(f.spaces) && f.spaces.Keys == dirs.Keys && Has(f, d, key)
      requires View() == ServeFault(f, d, key) && Deferred(Entries(f, d, key))
      ensures Served(f, d, key)
    {
      hide Store, SpacesOf, Coherent, OnlyPage, SetEntry, UsedFrames, Sees, IsKernelKey, ServeFault, NextFree;
      FaultEffect(f, d, key);
      var e, x := Entries(f, d, key), NextFree(f.used);
      OnlyPageHere(f, View(), d, key, Entry(true, e.rw, e.us, e.nx, x));
      SeesChanged(f, d, key, Entry(true, e.rw, e.us, e.nx, x));
    }

    /** `resolve`: the frame that the flat map gives, and that the processor finds. */
    method Resolve(d: nat, vaddr: nat) returns (frame: Option<nat>)
      requires Valid() && d in dirs
      ensures frame == if Entries(View(), d, KeyOf(vaddr)).p then Some(Entries(View(), d, KeyOf(vaddr)).base) else None
      ensures dirs[d].root in tables
      ensures var seen := HardwareWalk(tables, tables[dirs[d].root].phys, 4, KeyOf(vaddr), true, true, true);
        seen == LeafTranslation(Entries(View(), d, KeyOf(vaddr))) && (frame.Some? <==> seen.Frame?)
    {
      hide Walk, SpacesOf, HardwareWalk, Sound, GensDistinct, AllHeld, Connected;
      var key := KeyOf(vaddr);
      LeafSeen(tables, lab, dirs, kernelPd, d, key);
      HardwareAgrees(tables, lab, dirs[d].gen, dirs[d].root, key);
      match Walk(tables, dirs[d].root, 4, 1, key)
      case None => return None;
      case Some(u) =>
        var e := tables[u].entries[Idx(1, key)];
        frame := if e.p then Some(e.base) else None;
    }

    /** `mapKernel`: a root and the table below its last slot, whose own last slot is copied
        from the kernel's directory. */
    method MapKernel(d: nat, supply: seq<TableBlock>) returns (rest: seq<TableBlock>)
      requires Valid() && d !in dirs && FreshSupply(tables, supply, reserved) && |supply| >= 2
      modifies this`tables, this`lab, this`dirs, this`nextGen
      ensures Valid() && View() == AddDirectory(old(View()), d)
      ensures d in dirs && dirs == old(dirs)[d := dirs[d]]
      ensures FreshSupply(tables, rest, reserved) && rest == supply[2..]
      ensures Grown(old(tables), tables, supply, rest)
      ensures TablesAfter(VmStep.MapKernel(d), old(tables), tables, supply)
    {
      hide Grown, TablesAfter, Sound, InPlace, SpacesOf, FreshSupply, MakeDirectory, MakeLabels, EmptyTable,
        TablesReserved;
      var root, mid, g := supply[0], supply[1], nextGen;
      rest := supply[2..];
      TwoBlocks(tables, supply, reserved);
      KernelSlot(tables, lab, dirs, kernelPd);
      MakeStore(tables, lab, dirs, kernelPd, d, g, root.id, root.phys, mid.id, mid.phys);
      InSteps(tables, root.id, root.phys, mid.id, mid.phys, kernelPd);
      SupplyAfterMake(tables, supply, reserved, kernelPd);
      GrownByTwo(d, tables, supply, kernelPd);
      ghost var made := MakeDirectory(tables, root.id, root.phys, mid.id, mid.phys, kernelPd);
      // the root, then the table below its slot 511 with the right to write
      var top, low := EmptyTable(root.phys), EmptyTable(mid.phys);
      top := top.(entries := top.entries[511 := Entry(true, true, false, false, mid.phys)],
                  next := top.next[511 := Some(mid.id)]);
      // the kernel's entry and pointer are copied
      var other := tables[tables[dirs[0].root].next[511].value];
      low := low.(entries := low.entries[511 := other.entries[511]], next := low.next[511 := other.next[511]]);
      // and the root's entry is opened to user mode
      top := top.(entries := top.entries[511 := top.entries[511].(us := true)]);
      assert top.entries == EmptyTable(root.phys).entries[511 := Entry(true, true, true, false, mid.phys)];
      tables, lab := tables[root.id := top][mid.id := low], MakeLabels(lab, g, root.id, mid.id);
      assert tables == made;
      dirs, nextGen := dirs[d := Directory(root.id, g)], g + 1;
    }

    /** `forEachUserPage`: the addresses it calls back with, in order. */
    method ForEachUserPage(d: nat) returns (addrs: seq<nat>, ghost keys: seq<nat>)
      requires Valid() && d in dirs
      ensures AddressesOf(addrs, keys) && IsUserKeys(View().spaces[d], keys)
    {
      hide Slots, Links, Parents, Apart, Tops, GensDistinct, AllHeld, Connected;
      addrs, keys := Visit(tables, lab, dirs[d].root, 4, 0, 0);
      VisitedAll(tables, dirs, d, keys);
    }

    /** The destructor of a directory. The tables it gives back are given back once, and none
        of them is on a path of a directory that stays. */
    method Destroy(d: nat) returns (freed: seq<TableId>)
      requires Valid() && d in dirs && d != 0
      modifies this`tables, this`dirs
      ensures Valid() && View() == old(View()).(spaces := old(View()).spaces - {d}) && dirs == old(dirs) - {d}
      ensures Distinct(freed) && forall v :: v in freed ==> v in old(tables) && v !in tables
      ensures forall v, d', to, key :: v in freed && d' in dirs && 1 <= to <= 4 && 0 <= key < KEYS ==>
        Walk(old(tables), dirs[d'].root, 4, to, key) != Some(v)
      ensures TablesAfter(VmStep.Destroy(d), old(tables), tables, [])
    {
      hide Slots, Links, Parents, Apart, Tops, Connected, HeldSpace, SpaceOf, Walk, Spared;
      freed := Release(tables, lab, dirs[d].gen, dirs[d].root);
      DropStore(tables, lab, dirs, kernelPd, d);
      forall v, d', to, key: nat | v in freed && d' in dirs && d' != d && 1 <= to <= 4 && key < KEYS
        ensures Walk(tables, dirs[d'].root, 4, to, key) != Some(v)
      {
        FreedNotReachable(tables, lab, dirs[d].gen, v, dirs[d'].gen, dirs[d'].root, to, key);
      }
      tables, dirs := WithoutSpace(tables, lab, dirs[d].gen), dirs - {d};
    }

    /** `unmapUserSpace`: a fresh directory takes the place of the old one, whose lower half
        then gives back its frames, each once and none for a deferred page. */
    method UnmapUserSpace(d: nat, local: nat, supply: seq<TableBlock>) returns (freed: seq<TableId>)
      requires Valid() && d in dirs && d != 0 && local !in dirs && Owned(View())
      requires FreshSupply(tables, supply, reserved) && |supply| >= 2
      modifies this`tables, this`lab, this`dirs, this`nextGen, mem
      ensures Valid() && View() == Teardown(old(View()), d)
      ensures Distinct(freed) && forall v :: v in freed ==> v !in tables
      ensures TablesAfter(VmStep.UnmapUserSpace(d), old(tables), tables, supply)
    {
      hide Grown, Store, SpacesOf, Owned, FreshSupply, LowerFrames, KernelOnly;
      ghost var f := View();
      SpacesHaveKeys(tables, dirs);
      KernelInPlace(tables, lab, dirs, kernelPd);
      SwappedBack(f.spaces, KernelOnly(f.spaces[0]), d, local);
      var rest := MapKernel(local, supply);
      SwapStore(tables, lab, dirs, kernelPd, d, local);
      SwapSpaces(tables, dirs, d, local);
      dirs := Swapped(dirs, d, local);
      FreeUserPages(local, f, d);
      ghost var both := tables;
      freed := Destroy(local);
      ThenDestroyed(d, local, old(tables), both, tables, supply, rest);
    }

    /** The loop of `unmapUserSpace` over the pages of the old directory. */
    method FreeUserPages(n: nat, ghost f: Flat, ghost d: nat)
      requires Valid() && n in dirs && Owned(f) && d in f.spaces && mem.Used() == f.used
      requires View().spaces[n] == f.spaces[d]
      modifies mem
      ensures mem.Valid() && mem.Used() == f.used - LowerFrames(f.spaces[d])
    {
      hide Store, SpacesOf, Owned, LowerFrames, FramesUnder, IsUserKeys;
      var addrs, keys := ForEachUserPage(n);
      NothingFreed(f.used, f.spaces[d]);
      for j := 0 to |addrs|
        invariant mem.Valid() && mem.Used() == f.used - FramesUnder(f.spaces[d], keys[..j])
      {
        FreeNext(f, d, keys, j);
        KeyOfLower(keys[j]);
        LeafSeen(tables, lab, dirs, kernelPd, n, keys[j]);
        var e := Leaf(tables, dirs[n].root, KeyOf(addrs[j]));
        if e.p {
          mem.SetPageFree(e.base);
        }
      }
      AllFreed(f.spaces[d], keys);
    }

    /** The body of the loop in `clone`. No panic or assertion of the mapping code is reached. */
    method CopyUserPage(parent: nat, child: nat, addr: nat, supply: seq<TableBlock>) returns (rest: seq<TableBlock>)
      requires Valid() && parent in dirs && child in dirs && CanClone(View(), parent, child)
      requires |mem.Used()| < INVALID_PAGE
      requires addr == KeyOf(addr) * 0x1000 && KeyOf(addr) < LOWER_KEYS
      requires IsValid(Low(View().spaces, parent, KeyOf(addr))) && Low(View().spaces, child, KeyOf(addr)) == ZERO
      requires FreshSupply(tables, supply, reserved) && |supply| >= 6
      modifies this`tables, this`lab, this`reserved, this`contents, mem
      ensures Valid() && View() == CopyPage(old(View()), parent, child, KeyOf(addr))
      ensures FreshSupply(tables, rest, reserved) && |rest| >= |supply| - 6
      ensures Grown(old(tables), tables, supply, rest)
      ensures PageBytes(old(View()), View(), parent, child, KeyOf(addr))
    {
      hide Grown, TablesAfter, Shows, Gone, PageBytes, Store, SpacesOf, FreshSupply, Owned, MapFresh, MapAt, Unmap, Low,
        Leaf, NextFree, TablesReserved, FillFrame, LowestFree, UsedFrames;
      var key := KeyOf(addr);
      ghost var f := View();
      CopiedPage(f, parent, child, key);
      LeafSeen(tables, lab, dirs, kernelPd, parent, key);
      LeafSeen(tables, lab, dirs, kernelPd, child, key);
      MayCopy(f, parent, child, key);
      var a := GetAttributes(Leaf(tables, dirs[parent].root, key));
      var phys;
      phys, rest := MapPage(child, addr, a, supply);
      if a.defer {
        return;
      }
      MayUseScratch(f, parent, child, key, a, phys);
      ghost var mapped, left := tables, rest;
      rest := FillThroughScratch(parent, key, phys, rest);
      GrownTwice(old(tables), mapped, tables, supply, left, rest);
    }

    /** The frame is mapped at the scratch page, the bytes of page `key` are copied there, and the
        scratch page is unmapped again. */
    method FillThroughScratch(parent: nat, key: nat, phys: nat, supply: seq<TableBlock>) returns (rest: seq<TableBlock>)
      requires Valid() && parent in dirs && key < KEYS && !Entries(View(), parent, SCRATCH).p
      requires Allowed(SCRATCH_ADDRESS, SCRATCH_ATTR)
      requires Entries(MapAt(View(), parent, SCRATCH, phys, SCRATCH_ATTR), parent, SCRATCH).p
      requires FreshSupply(tables, supply, reserved) && |supply| >= 3
      modifies this`tables, this`lab, this`contents
      ensures Valid() && View() == FillFrame(old(View()), parent, key, phys)
      ensures FreshSupply(tables, rest, reserved) && |rest| >= |supply| - 3
      ensures Grown(old(tables), tables, supply, rest)
    {
      hide Grown, Shows, Gone, Store, SpacesOf, FreshSupply, MapAt, Unmap, Leaf, TablesReserved, UsedFrames;
      rest := MapPageTo(parent, SCRATCH_ADDRESS, phys, SCRATCH_ATTR, supply);
      LeafSeen(tables, lab, dirs, kernelPd, parent, SCRATCH);
      LeafSeen(tables, lab, dirs, kernelPd, parent, key);
      var to, from := Leaf(tables, dirs[parent].root, SCRATCH).base, Leaf(tables, dirs[parent].root, key).base;
      contents := contents[to := Read(contents, from)];
      ghost var before := tables;
      var _ := UnmapPage(parent, SCRATCH_ADDRESS);
      SupplySame(before, tables, rest, reserved);
      GrownBySame(before, tables, rest);
      GrownTwice(old(tables), before, tables, supply, rest, rest);
    }

    /** `clone`: the child gets a directory of its own and a copy of every user page. */
    method Clone(parent: nat, child: nat, supply: seq<TableBlock>) returns (rest: seq<TableBlock>, ghost keys: seq<nat>)
      requires Valid() && parent in dirs && child !in dirs && Owned(View()) && !Entries(View(), parent, SCRATCH).p
      requires |mem.Used()| + |UserSet(View().spaces[parent])| <= INVALID_PAGE
      requires FreshSupply(tables, supply, reserved) && |supply| >= 2 + 6 * |UserSet(View().spaces[parent])|
      modifies this`tables, this`lab, this`dirs, this`nextGen, this`reserved, this`contents, mem
      ensures Valid() && IsUserKeys(old(View()).spaces[parent], keys)
      ensures View() == Fork(old(View()), parent, child, keys)
      ensures TablesAfter(VmStep.Clone(parent, child, keys), old(tables), tables, supply)
      ensures BytesCopied(old(View()).spaces, old(contents), View().spaces, contents, parent, child)
      ensures forall x :: x in old(mem.Used()) && x in old(contents) ==>
        x in contents && contents[x] == old(contents)[x]
    {
      hide BytesCopied, PageBytes, Grown, Store, SpacesOf, FreshSupply, Owned, CopyPage, Low, IsUserKeys, AddDirectory,
        CopiedUpTo, UserSet, KeySet, CanClone;
      ghost var f := View();
      SpacesHaveKeys(tables, dirs);
      KernelInPlace(tables, lab, dirs, kernelPd);
      rest := MapKernel(child, supply);
      ghost var f0 := View();
      var addrs;
      addrs, keys := ForEachUserPage(parent);
      ReadyToClone(f, parent, child, keys);
      for j := 0 to |addrs|
        invariant Valid() && child in dirs && parent in dirs
        invariant View() == CopyPages(f0, parent, child, keys[..j])
        invariant FreshSupply(tables, rest, reserved) && |rest| >= 6 * (|addrs| - j)
        invariant Grown(old(tables), tables, supply, rest)
      {
        ReadyToCopy(f0, parent, child, keys, j);
        KeyOfLower(keys[j]);
        ghost var before, left := tables, rest;
        rest := CopyUserPage(parent, child, addrs[j], rest);
        GrownTwice(old(tables), before, tables, supply, left, rest);
        OneMore(f0, parent, child, keys, j);
      }
      assert keys[..|addrs|] == keys;
      ClonedTables(parent, child, keys, old(tables), tables, supply, rest);
      ClonedBytes(f, View(), parent, child, keys);
    }
  }

  const SCRATCH_ADDRESS: nat := 0xffff_ffff_aa00_0000

  /** The valid pages of the lower half. */
  function UserSet(sp: FlatMap): set<nat> {
    set k | k in sp && k < LOWER_KEYS && IsValid(sp[k])
  }

  lemma SupplySame(ts: Tables, ts': Tables, supply: seq<TableBlock>, reserved: set<nat>)
    requires FreshSupply(ts, supply, reserved)
    requires ts'.Keys == ts.Keys && forall t :: t in ts' ==> ts'[t].phys == ts[t].phys
    ensures FreshSupply(ts', supply, reserved)
  {
  }

  /** A user page can be mapped in the child with the attributes it has in the parent. */
  lemma MayCopy(f: Flat, parent: nat, child: nat, k: nat)
    requires CanClone(f, parent, child) && k < LOWER_KEYS && IsValid(Low(f.spaces, parent, k))
    requires Low(f.spaces, child, k) == ZERO
    ensures Has(f, parent, k) && Has(f, child, k) && Entries(f, child, k) == ZERO
    ensures Entries(f, parent, k) == Low(f.spaces, parent, k)
    ensures Allowed(k * 0x1000, GetAttributes(Entries(f, parent, k)))
  {
    StillHas(f, f, parent, k);
    StillHas(f, f, child, k);
    SourceEntry(f, parent, k);
  }

  /** And its frame can then be mapped at the scratch page. */
  lemma MayUseScratch(f: Flat, parent: nat, child: nat, k: nat, a: Attr, frame: nat)
    requires CanClone(f, parent, child) && k < LOWER_KEYS && Low(f.spaces, child, k) == ZERO && a.public
    requires |f.used| < INVALID_PAGE
    ensures var g := MapFresh(f, child, k, a);
      !Entries(g, parent, SCRATCH).p && Allowed(SCRATCH_ADDRESS, SCRATCH_ATTR)
    ensures Entries(MapAt(MapFresh(f, child, k, a), parent, SCRATCH, frame, SCRATCH_ATTR), parent, SCRATCH).p
  {
    hide Owned, MapFresh, Low, Coherent;
    ScratchPlace();
    StillHas(f, f, child, k);
    MapFreshEffect(f, child, k, a);
    var g := MapFresh(f, child, k, a);
    StillHas(g, g, parent, k);
    OwnedCoherent(g);
    PutEntries(g, parent, SCRATCH, MapEntry(Entries(g, parent, SCRATCH), frame, SCRATCH_ATTR));
  }

  lemma ReadyToClone(f: Flat, parent: nat, child: nat, keys: seq<nat>)
    requires Owned(f) && parent in f.spaces && child !in f.spaces && !Entries(f, parent, SCRATCH).p
    requires 0 in f.spaces && IsUserKeys(AddDirectory(f, child).spaces[parent], keys)
    ensures var f0 := AddDirectory(f, child);
      CanClone(f0, parent, child) && IsUserKeys(f.spaces[parent], keys) && |keys| == |UserSet(f.spaces[parent])|
      && (forall k: nat :: Low(f0.spaces, child, k) == ZERO) && f0.used == f.used
      && (forall k :: k in keys ==> k < LOWER_KEYS && IsValid(Low(f0.spaces, parent, k)))
  {
    AddDirectoryOwned(f, child);
    KernelOnlyLow(f.spaces, child, f.spaces[0]);
    CountKeys(keys);
    assert KeySet(keys) == UserSet(f.spaces[parent]);
  }

  lemma {:induction false} CountKeys(keys: seq<nat>)
    requires forall i, j :: 0 <= i < j < |keys| ==> keys[i] < keys[j]
    ensures |KeySet(keys)| == |keys|
    decreases |keys|
  {
    if keys != [] {
      KeySetStep(keys);
      CountKeys(keys[..|keys| - 1]);
    }
  }

  lemma ReadyToCopy(f0: Flat, parent: nat, child: nat, keys: seq<nat>, j: nat)
    requires CanClone(f0, parent, child) && j < |keys| && |f0.used| + |keys| <= INVALID_PAGE
    requires forall k: nat :: Low(f0.spaces, child, k) == ZERO
    requires forall k :: k in keys ==> k < LOWER_KEYS && IsValid(Low(f0.spaces, parent, k))
    requires forall x, y :: 0 <= x < y < |keys| ==> keys[x] < keys[y]
    ensures var g := CopyPages(f0, parent, child, keys[..j]);
      CanClone(g, parent, child) && |g.used| < INVALID_PAGE
      && keys[j] < LOWER_KEYS && IsValid(Low(g.spaces, parent, keys[j])) && Low(g.spaces, child, keys[j]) == ZERO
  {
    hide Owned, Low, CopyPages, PageCopied;
    assert keys[j] in keys;
    CopyPagesKeep(f0, parent, child, keys[..j]);
    assert keys[j] !in KeySet(keys[..j]);
  }

  lemma OneMore(f0: Flat, parent: nat, child: nat, keys: seq<nat>, j: nat)
    requires j < |keys|
    ensures CopyPages(f0, parent, child, keys[..j + 1]) ==
      CopyPage(CopyPages(f0, parent, child, keys[..j]), parent, child, keys[j])
  {
    var now := keys[..j + 1];
    assert now[..|now| - 1] == keys[..j];
  }

  lemma KernelInPlace(ts: Tables, lab: Labels, dirs: Dirs, kpd: TableId)
    requires Store(ts, lab, dirs, kpd)
    ensures 0 in dirs
  {
  }

  /** Making a directory, exchanging it with `d` and dropping what it got replaces `d`. */
  lemma SwappedBack(ss: Spaces, fresh_: FlatMap, d: nat, local: nat)
    requires d in ss && local !in ss
    ensures var made := ss[local := fresh_];
      var swapped := made[d := made[local]][local := made[d]];
      swapped[local] == ss[d] && swapped - {local} == ss[d := fresh_]
  {
  }

  lemma SpacesHaveKeys(ts: Tables, dirs: Dirs)
    ensures SpacesOf(ts, dirs).Keys == dirs.Keys
  {
  }

  /** The frames under the present pages among `keys`. */
  function FramesUnder(sp: FlatMap, keys: seq<nat>): set<nat> {
    set k | k in keys && k in sp && sp[k].p :: sp[k].base
  }

  lemma NothingFreed(used: set<nat>, sp: FlatMap)
    ensures used - FramesUnder(sp, []) == used
  {
  }

  lemma KeyOfLower(k: nat)
    requires k < LOWER_KEYS
    ensures KeyOf(k * 0x1000) == k
  {
  }

  /** The next frame to be freed is still in use: nobody else held it. */
  lemma FreeNext(f: Flat, d: nat, keys: seq<nat>, j: nat)
    requires Owned(f) && d in f.spaces && IsUserKeys(f.spaces[d], keys) && j < |keys|
    ensures keys[j] in f.spaces[d] && keys[j] < LOWER_KEYS
    ensures var e, done := f.spaces[d][keys[j]], FramesUnder(f.spaces[d], keys[..j]);
      FramesUnder(f.spaces[d], keys[..j + 1]) == (if e.p then done + {e.base} else done)
      && (e.p ==> e.base in f.used - done)
  {
    hide Coherent, LowerPublic;
    var sp, k := f.spaces[d], keys[j];
    assert k in keys;
    assert keys[..j + 1] == keys[..j] + [k];
    assert Low(f.spaces, d, k) == sp[k];
    if sp[k].p {
      forall x | x in FramesUnder(sp, keys[..j]) ensures x != sp[k].base {
        var k' :| k' in keys[..j] && k' in sp && sp[k'].p && sp[k'].base == x;
        assert k' in keys;
        assert Low(f.spaces, d, k') == sp[k'];
        assert (d, k') != (d, k);
      }
      assert k in keys[..j + 1];
    }
  }

  lemma AllFreed(sp: FlatMap, keys: seq<nat>)
    requires IsUserKeys(sp, keys)
    ensures keys[..|keys|] == keys && FramesUnder(sp, keys) == LowerFrames(sp)
  {
    forall k | k in sp && k < LOWER_KEYS && sp[k].p ensures k in keys {
      assert IsValid(sp[k]);
    }
  }

  lemma TwoBlocks(ts: Tables, supply: seq<TableBlock>, reserved: set<nat>)
    requires FreshSupply(ts, supply, reserved) && |supply| >= 2
    ensures FreshPair(ts, supply[0].id, supply[0].phys, supply[1].id, supply[1].phys)
  {
  }

  /** The kernel's directory has its page directory where the new one will have it. */
  lemma KernelSlot(ts: Tables, lab: Labels, dirs: Dirs, kpd: TableId)
    requires Store(ts, lab, dirs, kpd)
    ensures 0 in dirs && dirs[0].root in ts && kpd in ts
    ensures var root := ts[dirs[0].root]; TableOk(root) && root.next[511].Some? && root.next[511].value in ts
    ensures var p := ts[ts[dirs[0].root].next[511].value];
      TableOk(p) && p.next[511] == Some(kpd) && p.entries[511] == Entry(true, true, true, false, ts[kpd].phys)
  {
    hide Links, Parents, Apart, Tops, GensDistinct, AllHeld;
    KernelRoot(ts, lab, dirs, kpd);
    var p := ts[dirs[0].root].next[511].value;
    assert SlotOk(ts, lab, p, 511);
  }

  lemma InSteps(ts: Tables, root: TableId, rootPhys: nat, mid: TableId, midPhys: nat, kpd: TableId)
    requires kpd in ts
    ensures var top, low := EmptyTable(rootPhys), EmptyTable(midPhys);
      MakeDirectory(ts, root, rootPhys, mid, midPhys, kpd) ==
      ts[root := top.(entries := top.entries[511 := Entry(true, true, true, false, midPhys)],
                      next := top.next[511 := Some(mid)])]
        [mid := low.(entries := low.entries[511 := Entry(true, true, true, false, ts[kpd].phys)],
                     next := low.next[511 := Some(kpd)])]
  {
  }

  lemma SupplyAfterMake(ts: Tables, supply: seq<TableBlock>, reserved: set<nat>, kpd: TableId)
    requires FreshSupply(ts, supply, reserved) && TablesReserved(ts, reserved) && |supply| >= 2 && kpd in ts
    ensures var ts' := MakeDirectory(ts, supply[0].id, supply[0].phys, supply[1].id, supply[1].phys, kpd);
      FreshSupply(ts', supply[2..], reserved) && TablesReserved(ts', reserved)
  {
    var ts' := MakeDirectory(ts, supply[0].id, supply[0].phys, supply[1].id, supply[1].phys, kpd);
    assert forall t :: t in ts' ==> t in ts || t == supply[0].id || t == supply[1].id;
  }

  lemma GrownByTwo(d: nat, ts: Tables, supply: seq<TableBlock>, kpd: TableId)
    requires |supply| >= 2 && kpd in ts && supply[0].id !in ts && supply[1].id !in ts && supply[0].id != supply[1].id
    ensures var ts' := MakeDirectory(ts, supply[0].id, supply[0].phys, supply[1].id, supply[1].phys, kpd);
      Grown(ts, ts', supply, supply[2..]) && TablesAfter(VmStep.MapKernel(d), ts, ts', supply)
  {
    var ts' := MakeDirectory(ts, supply[0].id, supply[0].phys, supply[1].id, supply[1].phys, kpd);
    assert ts'[supply[0].id].phys == supply[0].phys && ts'[supply[1].id].phys == supply[1].phys;
    assert supply[0] in supply && supply[1] in supply;
    forall t | t in ts' ensures (t in ts && ts'[t].phys == ts[t].phys) || TableBlock(t, ts'[t].phys) in supply {
      assert t in ts || t == supply[0].id || t == supply[1].id;
    }
  }

  lemma VisitedAll(ts: Tables, dirs: Dirs, d: nat, keys: seq<nat>)
    requires d in dirs && Ascending(keys) && forall k: nat :: k in keys <==> ToVisit(ts, dirs[d].root, 4, 0, k)
    ensures IsUserKeys(SpacesOf(ts, dirs)[d], keys)
  {
    hide Walk, SpaceOf;
    SpaceOfFull(ts, dirs[d].root);
    var sp := SpaceOf(ts, dirs[d].root);
    forall k: nat ensures k in keys <==> k in sp && k < LOWER_KEYS && IsValid(sp[k]) {
      assert k in keys <==> ToVisit(ts, dirs[d].root, 4, 0, k);
    }
  }

  lemma RootLabelled(ts: Tables, lab: Labels, dirs: Dirs, kpd: TableId, d: nat, key: nat)
    requires Store(ts, lab, dirs, kpd) && d in dirs && key < KEYS
    ensures var root := dirs[d].root; root in ts && root in lab && lab[root] == PathLabel(dirs[d].gen, 4, key)
  {
    hide Sound, GensDistinct, AllHeld, Connected;
    RootOnPath(dirs[d].gen, key);
  }

  lemma BootReserved(root: TableBlock, mid: TableBlock, kpd: TableBlock, reserved: set<nat>)
    requires {root.phys, mid.phys, kpd.phys} <= reserved
    ensures TablesReserved(BootTables(root.id, root.phys, mid.id, mid.phys, kpd.id, kpd.phys), reserved)
  {
  }

  lemma MoreReserved(ts: Tables, supply: seq<TableBlock>, reserved: set<nat>, frame: nat)
    ensures FreshSupply(ts, supply, reserved) ==> FreshSupply(ts, supply, reserved + {frame})
    ensures TablesReserved(ts, reserved) ==> TablesReserved(ts, reserved + {frame})
  {
  }

  lemma SetKeepsReserved(ts: Tables, u: TableId, i: nat, e: Entry, reserved: set<nat>)
    requires u in ts && TableOk(ts[u]) && i < SLOTS
    ensures TablesReserved(ts, reserved) ==> TablesReserved(SetLeaf(ts, u, i, e), reserved)
  {
  }

  lemma SupplyAfterSet(ts: Tables, u: TableId, i: nat, e: Entry, supply: seq<TableBlock>, reserved: set<nat>)
    requires u in ts && TableOk(ts[u]) && i < SLOTS && FreshSupply(ts, supply, reserved)
    ensures FreshSupply(SetLeaf(ts, u, i, e), supply, reserved)
  {
  }

  /** What the walk finds is the entry of the flat map. */
  lemma LeafSeen(ts: Tables, lab: Labels, dirs: Dirs, kpd: TableId, d: nat, key: nat)
    requires Store(ts, lab, dirs, kpd) && d in dirs && key < KEYS
    ensures d in SpacesOf(ts, dirs) && key in SpacesOf(ts, dirs)[d]
    ensures SpacesOf(ts, dirs)[d][key] == Leaf(ts, dirs[d].root, key)
    ensures match Walk(ts, dirs[d].root, 4, 1, key)
      case None => SpacesOf(ts, dirs)[d][key] == ZERO
      case Some(u) => u in ts && TableOk(ts[u]) && SpacesOf(ts, dirs)[d][key] == ts[u].entries[Idx(1, key)]
  {
    hide Slots, Links, Parents, Apart, Tops, GensDistinct, AllHeld, Connected, Walk, SpaceOf;
    SpaceOfFull(ts, dirs[d].root);
    LastHasNoNext(ts, lab, dirs[d].root, 4, key);
  }

  lemma KeepsPointersRefl(ts: Tables)
    ensures KeepsPointers(ts, ts)
  {
  }

  lemma OnTable(ts: Tables, lab: Labels, dirs: Dirs, kpd: TableId, t: TableId)
    requires Store(ts, lab, dirs, kpd) && t in ts
    ensures TableOk(ts[t]) && t in lab
  {
  }

  lemma FirstBlock(ts: Tables, supply: seq<TableBlock>, reserved: set<nat>)
    requires FreshSupply(ts, supply, reserved) && supply != []
    ensures supply[0].id !in ts && forall v :: v in ts ==> ts[v].phys != supply[0].phys
  {
  }

  lemma AddedAt(ts: Tables, t: TableId, i: nat, u: TableId, phys: nat)
    requires t in ts && TableOk(ts[t]) && i < SLOTS && u !in ts
    ensures var ts' := AddTable(ts, t, i, u, phys); t in ts' && TableOk(ts'[t]) && ts'[t].next[i] == Some(u) && u in ts'
  {
  }

  lemma SlotLeadsOn(ts: Tables, lab: Labels, dirs: Dirs, kpd: TableId, t: TableId, i: nat)
    requires Store(ts, lab, dirs, kpd) && t in ts && TableOk(ts[t]) && t in lab && i < SLOTS && ts[t].next[i].Some?
    ensures lab[t].level >= 1
    ensures var u := ts[t].next[i].value; u in ts && u in lab && lab[u] == ChildLabel(lab[t], i)
  {
    assert SlotOk(ts, lab, t, i);
  }

  lemma WalkOn(mid: Tables, ts: Tables, t: TableId, level: nat, key: nat, next: TableId)
    requires 2 <= level <= 4 && t in mid && TableOk(mid[t]) && mid[t].next[Idx(level, key)] == Some(next)
    requires KeepsPointers(mid, ts)
    ensures Walk(ts, t, level, 1, key) == Walk(ts, next, level - 1, 1, key)
  {
  }
}
