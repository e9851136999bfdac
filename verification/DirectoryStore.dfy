/** All directories over one table store, and what each edit of the store means for the flat
    maps that the directories stand for. */
module DirectoryStore {
  import opened Common
  import opened PageEntry
  import opened RadixTree
  import opened DirectoryTables
  import opened FlatSpace

  /** A page directory: its root table, and the number of the address space it now holds. */
  datatype Directory = Directory(root: TableId, gen: nat)

  type Dirs = map<nat, Directory>

  function SpaceOf(ts: Tables, root: TableId): FlatMap {
    map k: nat | k < KEYS :: Leaf(ts, root, k)
  }

  lemma SpaceOfIs(ts: Tables, root: TableId, m: FlatMap)
    requires Full(m) && forall k: nat :: k < KEYS ==> Leaf(ts, root, k) == m[k]
    ensures SpaceOf(ts, root) == m
  {
    hide Leaf;
  }

  lemma SpaceOfFull(ts: Tables, root: TableId)
    ensures Full(SpaceOf(ts, root)) && forall k: nat :: k < KEYS ==> SpaceOf(ts, root)[k] == Leaf(ts, root, k)
  {
    hide Leaf;
  }

  lemma SameSpace(ts: Tables, root: TableId, ts': Tables, root': TableId)
    requires forall k: nat :: k < KEYS ==> Leaf(ts', root', k) == Leaf(ts, root, k)
    ensures SpaceOf(ts', root') == SpaceOf(ts, root)
  {
    SpaceOfFull(ts, root);
    hide Leaf, SpaceOf, Full;
    SpaceOfIs(ts', root', SpaceOf(ts, root));
  }

  function SpacesOf(ts: Tables, dirs: Dirs): Spaces {
    map d | d in dirs :: SpaceOf(ts, dirs[d].root)
  }

  /** Every directory has its root in place and reaches the kernel. */
  ghost predicate Roots(ts: Tables, lab: Labels, dirs: Dirs, kpd: TableId) {
    forall d :: d in dirs ==> IsRoot(ts, lab, dirs[d].gen, dirs[d].root) && Connected(ts, dirs[d].root, kpd)
  }

  /** No two directories hold the same space. */
  ghost predicate GensDistinct(dirs: Dirs) {
    forall d, d' :: d in dirs && d' in dirs && dirs[d].gen == dirs[d'].gen ==> d == d'
  }

  /** Every private table belongs to a space that some directory holds. */
  ghost predicate AllHeld(ts: Tables, lab: Labels, dirs: Dirs) {
    forall t :: t in ts && t in lab && lab[t].space.Private? ==> HeldSpace(dirs, lab[t].space.dir)
  }

  ghost predicate InPlace(ts: Tables, lab: Labels, dirs: Dirs, kpd: TableId) {
    && 0 in dirs && kpd in ts && kpd in lab && lab[kpd] == KERNEL_PD_LABEL
    && Roots(ts, lab, dirs, kpd) && GensDistinct(dirs) && AllHeld(ts, lab, dirs)
  }

  ghost predicate HeldSpace(dirs: Dirs, g: nat) {
    exists d :: d in dirs && dirs[d].gen == g
  }

  ghost predicate Store(ts: Tables, lab: Labels, dirs: Dirs, kpd: TableId) {
    Sound(ts, lab) && InPlace(ts, lab, dirs, kpd)
  }

  /** Two stores that translate alike stand for the same flat maps. */
  lemma SameSpaces(ts: Tables, ts': Tables, dirs: Dirs)
    requires forall d, k: nat :: d in dirs && k < KEYS ==> Leaf(ts', dirs[d].root, k) == Leaf(ts, dirs[d].root, k)
    ensures SpacesOf(ts', dirs) == SpacesOf(ts, dirs)
  {
    hide Leaf, SpaceOf, Full;
    forall d | d in dirs ensures SpaceOf(ts', dirs[d].root) == SpaceOf(ts, dirs[d].root) {
      SameSpace(ts, dirs[d].root, ts', dirs[d].root);
    }
  }

  lemma StoreCoherent(ts: Tables, lab: Labels, dirs: Dirs, kpd: TableId)
    requires Store(ts, lab, dirs, kpd)
    ensures Coherent(SpacesOf(ts, dirs))
  {
    hide Leaf, Sound, Connected, IsRoot, GensDistinct, AllHeld, SpaceOf;
    var ss := SpacesOf(ts, dirs);
    forall d | d in ss ensures Full(ss[d]) {
      SpaceOfFull(ts, dirs[d].root);
    }
    forall d, d', k: nat | d in ss && d' in ss && k < KEYS && IsKernelKey(k) ensures ss[d][k] == ss[d'][k] {
      KernelShared(ts, dirs[d].root, dirs[d'].root, kpd, k);
      SpaceOfFull(ts, dirs[d].root);
      SpaceOfFull(ts, dirs[d'].root);
    }
  }

  // ----- a fresh table

  lemma AddTableLeaf(ts: Tables, lab: Labels, t: TableId, i: nat, u: TableId, phys: nat, r: TableId, key: nat)
    requires Sound(ts, lab) && t in ts && i < SLOTS && ts[t].next[i].None? && u !in ts && r in ts && lab[r].level == 4
    requires lab[t].level > 1
    ensures Leaf(AddTable(ts, t, i, u, phys), r, key) == Leaf(ts, r, key)
  {
    forall w, j | w in ts && TableOk(ts[w]) && 0 <= j < SLOTS ensures ts[w].next[j] != Some(u) {
      assert SlotOk(ts, lab, w, j);
    }
    AddTableKeepsLeaves(ts, t, i, u, phys, r, 4, key);
    LastHasNoNext(ts, lab, r, 4, key);
    hide Sound, Walk;
  }

  lemma {:induction false} LastHasNoNext(ts: Tables, lab: Labels, t: TableId, level: nat, key: nat)
    requires Sound(ts, lab) && t in ts && lab[t].level == level && 1 <= level <= 4
    ensures var w := Walk(ts, t, level, 1, key); w.Some? ==> w.value in ts && lab[w.value].level == 1
    decreases level
  {
    if level > 1 {
      assert SlotOk(ts, lab, t, Idx(level, key));
      match ts[t].next[Idx(level, key)]
      case None =>
      case Some(u) => LastHasNoNext(ts, lab, u, level - 1, key);
    }
  }

  lemma AddTableStore(ts: Tables, lab: Labels, dirs: Dirs, kpd: TableId, t: TableId, i: nat, u: TableId, phys: nat)
    requires Store(ts, lab, dirs, kpd) && t in ts && i < SLOTS && lab[t].level > 1 && ts[t].next[i].None?
    requires u !in ts && (forall v :: v in ts ==> ts[v].phys != phys) && Ordinary(ChildLabel(lab[t], i))
    ensures var ts' := AddTable(ts, t, i, u, phys);
      Store(ts', lab[u := ChildLabel(lab[t], i)], dirs, kpd) && SpacesOf(ts', dirs) == SpacesOf(ts, dirs)
  {
    hide Leaf, Ordinary, ChildLabel, Slots, Links, Parents, Apart, Tops, Connected, HeldSpace;
    AddTableSound(ts, lab, t, i, u, phys);
    AddTableInPlace(ts, lab, dirs, kpd, t, i, u, phys);
    var ts' := AddTable(ts, t, i, u, phys);
    forall d, k: nat | d in dirs && k < KEYS ensures Leaf(ts', dirs[d].root, k) == Leaf(ts, dirs[d].root, k) {
      AddTableLeaf(ts, lab, t, i, u, phys, dirs[d].root, k);
    }
    SameSpaces(ts, ts', dirs);
  }

  lemma AddTableConnected(ts: Tables, t: TableId, i: nat, u: TableId, phys: nat, root: TableId, kpd: TableId)
    requires t in ts && TableOk(ts[t]) && i < SLOTS && ts[t].next[i].None? && u !in ts && Connected(ts, root, kpd)
    ensures Connected(AddTable(ts, t, i, u, phys), root, kpd)
  {
  }

  lemma AddTableInPlace(ts: Tables, lab: Labels, dirs: Dirs, kpd: TableId, t: TableId, i: nat, u: TableId, phys: nat)
    requires Typed(ts, lab) && InPlace(ts, lab, dirs, kpd) && t in ts && i < SLOTS && lab[t].level > 1
    requires ts[t].next[i].None? && u !in ts
    ensures InPlace(AddTable(ts, t, i, u, phys), lab[u := ChildLabel(lab[t], i)], dirs, kpd)
  {
    hide Connected, HeldSpace;
    forall d | d in dirs ensures Connected(AddTable(ts, t, i, u, phys), dirs[d].root, kpd) {
      AddTableConnected(ts, t, i, u, phys, dirs[d].root, kpd);
    }
  }

  /** Where a path has to be extended, it is not towards the kernel's directory. */
  lemma PathOrdinary(ts: Tables, lab: Labels, dirs: Dirs, kpd: TableId, d: nat, t: TableId, level: nat, key: nat)
    requires Store(ts, lab, dirs, kpd) && d in dirs && t in ts && 2 <= level <= 4 && key < KEYS
    requires lab[t] == PathLabel(dirs[d].gen, level, key) && ts[t].next[Idx(level, key)].None?
    ensures Ordinary(ChildLabel(lab[t], Idx(level, key)))
  {
    var root := dirs[d].root;
    var p := ts[root].next[511].value;
    assert SlotOk(ts, lab, root, 511);
    ChildOnPath(dirs[d].gen, level, key);
    KernelKeyIndices(key);
    RootOnPath(dirs[d].gen, key);
    PrefixStep(4, key);
  }

  // ----- one entry

  lemma SetLeafInPlace(ts: Tables, lab: Labels, dirs: Dirs, kpd: TableId, u: TableId, i: nat, e: Entry)
    requires InPlace(ts, lab, dirs, kpd) && u in ts && TableOk(ts[u]) && i < SLOTS
    ensures InPlace(SetLeaf(ts, u, i, e), lab, dirs, kpd)
  {
    var ts' := SetLeaf(ts, u, i, e);
    forall d | d in dirs ensures Connected(ts', dirs[d].root, kpd) {
      assert Connected(ts, dirs[d].root, kpd);
    }
    hide Connected, HeldSpace;
  }

  /** One entry written through directory `d` changes exactly one page of the flat maps. */
  lemma SetLeafStore(ts: Tables, lab: Labels, dirs: Dirs, kpd: TableId, d: nat, k: nat, e: Entry)
    requires Store(ts, lab, dirs, kpd) && d in dirs && k < KEYS && Walk(ts, dirs[d].root, 4, 1, k).Some?
    ensures var u := Walk(ts, dirs[d].root, 4, 1, k).value;
      && u in ts && TableOk(ts[u])
      && var ts' := SetLeaf(ts, u, Idx(1, k), e);
         Store(ts', lab, dirs, kpd) && SpacesOf(ts', dirs) == SetEntry(SpacesOf(ts, dirs), d, k, e)
  {
    assert IsRoot(ts, lab, dirs[d].gen, dirs[d].root);
    LastHasNoNext(ts, lab, dirs[d].root, 4, k);
    var u := Walk(ts, dirs[d].root, 4, 1, k).value;
    hide InPlace, Slots, Links, Parents, Apart, Tops, Leaf, Walk;
    SetLeafSound(ts, lab, u, Idx(1, k), e);
    SetLeafInPlace(ts, lab, dirs, kpd, u, Idx(1, k), e);
    SetLeafSpaces(ts, lab, dirs, kpd, d, k, e);
  }

  lemma SetLeafSpaces(ts: Tables, lab: Labels, dirs: Dirs, kpd: TableId, d: nat, k: nat, e: Entry)
    requires Store(ts, lab, dirs, kpd) && d in dirs && k < KEYS && Walk(ts, dirs[d].root, 4, 1, k).Some?
    requires Walk(ts, dirs[d].root, 4, 1, k).value in ts && TableOk(ts[Walk(ts, dirs[d].root, 4, 1, k).value])
    ensures var ts' := SetLeaf(ts, Walk(ts, dirs[d].root, 4, 1, k).value, Idx(1, k), e);
      SpacesOf(ts', dirs) == SetEntry(SpacesOf(ts, dirs), d, k, e)
  {
    hide Store, Leaf, Walk, SetLeaf, IsKernelKey, SpaceOf;
    var ts' := SetLeaf(ts, Walk(ts, dirs[d].root, 4, 1, k).value, Idx(1, k), e);
    var want := SetEntry(SpacesOf(ts, dirs), d, k, e);
    forall d' | d' in dirs ensures SpaceOf(ts', dirs[d'].root) == want[d'] {
      SpaceOfFull(ts, dirs[d'].root);
      forall k': nat | k' < KEYS ensures Leaf(ts', dirs[d'].root, k') == want[d'][k'] {
        SetLeafSeen(ts, lab, dirs, kpd, d, k, e, d', k');
      }
      SpaceOfIs(ts', dirs[d'].root, want[d']);
    }
  }

  lemma SetLeafSeen(ts: Tables, lab: Labels, dirs: Dirs, kpd: TableId, d: nat, k: nat, e: Entry, d': nat, k': nat)
    requires Store(ts, lab, dirs, kpd) && d in dirs && d' in dirs && k < KEYS && k' < KEYS
    requires Walk(ts, dirs[d].root, 4, 1, k).Some?
    requires Walk(ts, dirs[d].root, 4, 1, k).value in ts && TableOk(ts[Walk(ts, dirs[d].root, 4, 1, k).value])
    ensures var ts' := SetLeaf(ts, Walk(ts, dirs[d].root, 4, 1, k).value, Idx(1, k), e);
      Leaf(ts', dirs[d'].root, k') == if k == k' && (d == d' || IsKernelKey(k)) then e else Leaf(ts, dirs[d'].root, k')
  {
    assert Connected(ts, dirs[d].root, kpd) && Connected(ts, dirs[d'].root, kpd);
    hide Sound, Connected, Leaf, Walk;
    if k == k' && IsKernelKey(k) {
      KernelShared(ts, dirs[d].root, dirs[d'].root, kpd, k);
    }
    SetLeafEffect(ts, lab, dirs[d].gen, dirs[d].root, k, e, dirs[d'].gen, dirs[d'].root, k');
  }

  // ----- whole directories

  /** A place that no table holds yet, and room for two more tables. */
  ghost predicate FreshPair(ts: Tables, root: TableId, rootPhys: nat, mid: TableId, midPhys: nat) {
    && root !in ts && mid !in ts && root != mid && rootPhys != midPhys
    && forall t :: t in ts ==> ts[t].phys != rootPhys && ts[t].phys != midPhys
  }

  lemma CanMakeStore(ts: Tables, lab: Labels, dirs: Dirs, kpd: TableId, g: nat, root: TableId, rootPhys: nat,
                     mid: TableId, midPhys: nat)
    requires Store(ts, lab, dirs, kpd) && !HeldSpace(dirs, g) && FreshPair(ts, root, rootPhys, mid, midPhys)
    ensures CanMake(ts, lab, g, root, rootPhys, mid, midPhys, kpd)
  {
    hide Slots, Links, Apart, Tops, Connected, IsRoot, HeldSpace;
  }

  lemma HeldGrows(dirs: Dirs, d: nat, x: Directory)
    requires d !in dirs
    ensures HeldSpace(dirs[d := x], x.gen) && forall g :: HeldSpace(dirs, g) ==> HeldSpace(dirs[d := x], g)
  {
    var dirs' := dirs[d := x];
    assert d in dirs' && dirs'[d].gen == x.gen;
    forall g | HeldSpace(dirs, g) ensures HeldSpace(dirs', g) {
      var y :| y in dirs && dirs[y].gen == g;
      assert y in dirs' && dirs'[y].gen == g;
    }
  }

  lemma MakeConnected(ts: Tables, lab: Labels, dirs: Dirs, kpd: TableId, d: nat, g: nat, root: TableId, rootPhys: nat,
                      mid: TableId, midPhys: nat, x: nat)
    requires Typed(ts, lab) && InPlace(ts, lab, dirs, kpd) && d !in dirs && FreshPair(ts, root, rootPhys, mid, midPhys)
    requires x in dirs || x == d
    ensures var ts', lab' := MakeDirectory(ts, root, rootPhys, mid, midPhys, kpd), MakeLabels(lab, g, root, mid);
      var dirs' := dirs[d := Directory(root, g)];
      IsRoot(ts', lab', dirs'[x].gen, dirs'[x].root) && Connected(ts', dirs'[x].root, kpd)
  {
    hide HeldSpace;
    var ts' := MakeDirectory(ts, root, rootPhys, mid, midPhys, kpd);
    if x != d {
      assert IsRoot(ts, lab, dirs[x].gen, dirs[x].root) && Connected(ts, dirs[x].root, kpd);
      OldConnected(ts, ts', dirs[x].root, kpd);
    }
  }

  lemma MakeInPlace(ts: Tables, lab: Labels, dirs: Dirs, kpd: TableId, d: nat, g: nat, root: TableId, rootPhys: nat,
                    mid: TableId, midPhys: nat)
    requires Typed(ts, lab) && InPlace(ts, lab, dirs, kpd) && d !in dirs && !HeldSpace(dirs, g)
    requires FreshPair(ts, root, rootPhys, mid, midPhys)
    ensures var ts', lab' := MakeDirectory(ts, root, rootPhys, mid, midPhys, kpd), MakeLabels(lab, g, root, mid);
      InPlace(ts', lab', dirs[d := Directory(root, g)], kpd)
  {
    hide IsRoot, Connected, HeldSpace;
    var ts', lab' := MakeDirectory(ts, root, rootPhys, mid, midPhys, kpd), MakeLabels(lab, g, root, mid);
    var dirs' := dirs[d := Directory(root, g)];
    forall x | x in dirs' ensures IsRoot(ts', lab', dirs'[x].gen, dirs'[x].root) && Connected(ts', dirs'[x].root, kpd) {
      MakeConnected(ts, lab, dirs, kpd, d, g, root, rootPhys, mid, midPhys, x);
    }
    HeldGrows(dirs, d, Directory(root, g));
    DistinctGrows(dirs, d, Directory(root, g));
  }

  lemma DistinctGrows(dirs: Dirs, d: nat, x: Directory)
    requires GensDistinct(dirs) && d !in dirs && !HeldSpace(dirs, x.gen)
    ensures GensDistinct(dirs[d := x])
  {
  }

  /** A new directory sees the kernel gigabyte and nothing else; the others are unchanged. */
  lemma MakeStore(ts: Tables, lab: Labels, dirs: Dirs, kpd: TableId, d: nat, g: nat, root: TableId, rootPhys: nat,
                  mid: TableId, midPhys: nat)
    requires Store(ts, lab, dirs, kpd) && d !in dirs && !HeldSpace(dirs, g)
    requires FreshPair(ts, root, rootPhys, mid, midPhys)
    ensures var ts', dirs' := MakeDirectory(ts, root, rootPhys, mid, midPhys, kpd), dirs[d := Directory(root, g)];
      && Store(ts', MakeLabels(lab, g, root, mid), dirs', kpd)
      && SpacesOf(ts', dirs') == SpacesOf(ts, dirs)[d := KernelOnly(SpacesOf(ts, dirs)[0])]
  {
    hide Slots, Links, Parents, Apart, Tops, InPlace, HeldSpace, MakeDirectory, MakeLabels, FreshPair, SpacesOf;
    CanMakeStore(ts, lab, dirs, kpd, g, root, rootPhys, mid, midPhys);
    MakeSound(ts, lab, g, root, rootPhys, mid, midPhys, kpd);
    MakeInPlace(ts, lab, dirs, kpd, d, g, root, rootPhys, mid, midPhys);
    MakeSpaces(ts, lab, dirs, kpd, d, g, root, rootPhys, mid, midPhys);
  }

  lemma MakeSpaces(ts: Tables, lab: Labels, dirs: Dirs, kpd: TableId, d: nat, g: nat, root: TableId, rootPhys: nat,
                   mid: TableId, midPhys: nat)
    requires Store(ts, lab, dirs, kpd) && d !in dirs && !HeldSpace(dirs, g)
    requires FreshPair(ts, root, rootPhys, mid, midPhys)
    ensures var ts', dirs' := MakeDirectory(ts, root, rootPhys, mid, midPhys, kpd), dirs[d := Directory(root, g)];
      SpacesOf(ts', dirs') == SpacesOf(ts, dirs)[d := KernelOnly(SpacesOf(ts, dirs)[0])]
  {
    hide Sound, MakeDirectory, SpaceOf, KernelOnly, IsRoot, Connected, GensDistinct, AllHeld;
    hide OnlyGains, FreshPair, CanMake, HeldSpace;
    var ts' := MakeDirectory(ts, root, rootPhys, mid, midPhys, kpd);
    MakeGains(ts, root, rootPhys, mid, midPhys, kpd);
    CanMakeStore(ts, lab, dirs, kpd, g, root, rootPhys, mid, midPhys);
    KernelRoot(ts, lab, dirs, kpd);
    forall x | x in dirs ensures SpaceOf(ts', dirs[x].root) == SpaceOf(ts, dirs[x].root) {
      OldSpace(ts, ts', lab, dirs, kpd, x);
    }
    NewSpace(ts, lab, dirs[0].root, g, root, rootPhys, mid, midPhys, kpd);
  }

  lemma MakeGains(ts: Tables, root: TableId, rootPhys: nat, mid: TableId, midPhys: nat, kpd: TableId)
    requires kpd in ts && FreshPair(ts, root, rootPhys, mid, midPhys)
    ensures OnlyGains(ts, MakeDirectory(ts, root, rootPhys, mid, midPhys, kpd))
  {
  }

  lemma KernelRoot(ts: Tables, lab: Labels, dirs: Dirs, kpd: TableId)
    requires InPlace(ts, lab, dirs, kpd)
    ensures 0 in dirs && dirs[0].root in ts && Connected(ts, dirs[0].root, kpd) && dirs[0].root in lab
    ensures lab[dirs[0].root].level == 4
  {
    hide AllHeld, GensDistinct;
  }

  ghost predicate OnlyGains(ts: Tables, ts': Tables) {
    forall v :: v in ts ==> v in ts' && ts'[v] == ts[v]
  }

  lemma OldSpace(ts: Tables, ts': Tables, lab: Labels, dirs: Dirs, kpd: TableId, x: nat)
    requires Store(ts, lab, dirs, kpd) && OnlyGains(ts, ts') && x in dirs
    ensures SpaceOf(ts', dirs[x].root) == SpaceOf(ts, dirs[x].root)
  {
    hide Slots, Links, Parents, Apart, Tops, Leaf, SpaceOf, AllHeld, GensDistinct, Connected;
    forall k: nat | k < KEYS ensures Leaf(ts', dirs[x].root, k) == Leaf(ts, dirs[x].root, k) {
      SameLeaf(ts, ts', lab, dirs[x].root, k);
    }
    SameSpace(ts, dirs[x].root, ts', dirs[x].root);
  }

  lemma NewSpace(ts: Tables, lab: Labels, kernelRoot: TableId, g: nat, root: TableId, rootPhys: nat, mid: TableId,
                 midPhys: nat, kpd: TableId)
    requires CanMake(ts, lab, g, root, rootPhys, mid, midPhys, kpd) && kernelRoot in ts
    requires Connected(ts, kernelRoot, kpd)
    ensures SpaceOf(MakeDirectory(ts, root, rootPhys, mid, midPhys, kpd), root) == KernelOnly(SpaceOf(ts, kernelRoot))
  {
    hide Leaf, Connected, MakeDirectory, SpaceOf, Slots, Links, Apart, Tops;
    var ts' := MakeDirectory(ts, root, rootPhys, mid, midPhys, kpd);
    var kernel := SpaceOf(ts, kernelRoot);
    SpaceOfFull(ts, kernelRoot);
    forall k: nat | k < KEYS ensures Leaf(ts', root, k) == KernelOnly(kernel)[k] {
      NewLeaf(ts, lab, kernelRoot, g, root, rootPhys, mid, midPhys, kpd, k);
    }
    SpaceOfIs(ts', root, KernelOnly(kernel));
  }

  lemma NewLeaf(ts: Tables, lab: Labels, kernelRoot: TableId, g: nat, root: TableId, rootPhys: nat, mid: TableId,
                midPhys: nat, kpd: TableId, k: nat)
    requires CanMake(ts, lab, g, root, rootPhys, mid, midPhys, kpd) && kernelRoot in ts
    requires Connected(ts, kernelRoot, kpd) && k < KEYS
    ensures Leaf(MakeDirectory(ts, root, rootPhys, mid, midPhys, kpd), root, k) ==
      if IsKernelKey(k) then Leaf(ts, kernelRoot, k) else ZERO
  {
    hide MakeDirectory, Leaf, Slots, Links, Apart, Tops, Connected, OnlyGains;
    var ts' := MakeDirectory(ts, root, rootPhys, mid, midPhys, kpd);
    MakeGains(ts, root, rootPhys, mid, midPhys, kpd);
    MakeLeaf(ts, lab, g, root, rootPhys, mid, midPhys, kpd, k);
    if IsKernelKey(k) {
      OldConnected(ts, ts', kernelRoot, kpd);
      KernelShared(ts', kernelRoot, root, kpd, k);
      SameLeaf(ts, ts', lab, kernelRoot, k);
    }
  }

  lemma OldConnected(ts: Tables, ts': Tables, root: TableId, kpd: TableId)
    requires Connected(ts, root, kpd) && OnlyGains(ts, ts')
    ensures Connected(ts', root, kpd)
  {
  }

  function Swapped(dirs: Dirs, d: nat, n: nat): Dirs
    requires d in dirs && n in dirs
  {
    dirs[d := dirs[n]][n := dirs[d]]
  }

  lemma HeldSwapped(dirs: Dirs, d: nat, n: nat)
    requires d in dirs && n in dirs
    ensures forall g :: HeldSpace(dirs, g) ==> HeldSpace(Swapped(dirs, d, n), g)
  {
    var dirs' := Swapped(dirs, d, n);
    forall x | HeldSpace(dirs, x) ensures HeldSpace(dirs', x) {
      var y :| y in dirs && dirs[y].gen == x;
      var z := if y == d then n else if y == n then d else y;
      assert z in dirs' && dirs'[z].gen == x;
    }
  }

  /** Two directories can exchange what they hold. */
  lemma SwapStore(ts: Tables, lab: Labels, dirs: Dirs, kpd: TableId, d: nat, n: nat)
    requires Store(ts, lab, dirs, kpd) && d in dirs && n in dirs
    ensures Store(ts, lab, Swapped(dirs, d, n), kpd)
  {
    hide Sound, Roots, AllHeld, GensDistinct, HeldSpace;
    SwapRoots(ts, lab, dirs, kpd, d, n);
    SwapDistinct(dirs, d, n);
    SwapHeld(ts, lab, dirs, d, n);
  }

  lemma SwapRoots(ts: Tables, lab: Labels, dirs: Dirs, kpd: TableId, d: nat, n: nat)
    requires Roots(ts, lab, dirs, kpd) && d in dirs && n in dirs
    ensures Roots(ts, lab, Swapped(dirs, d, n), kpd)
  {
    hide IsRoot, Connected;
  }

  lemma SwapDistinct(dirs: Dirs, d: nat, n: nat)
    requires GensDistinct(dirs) && d in dirs && n in dirs
    ensures GensDistinct(Swapped(dirs, d, n))
  {
  }

  lemma SwapHeld(ts: Tables, lab: Labels, dirs: Dirs, d: nat, n: nat)
    requires AllHeld(ts, lab, dirs) && d in dirs && n in dirs
    ensures AllHeld(ts, lab, Swapped(dirs, d, n))
  {
    hide HeldSpace;
    HeldSwapped(dirs, d, n);
  }

  lemma SwapSpaces(ts: Tables, dirs: Dirs, d: nat, n: nat)
    requires d in dirs && n in dirs
    ensures SpacesOf(ts, Swapped(dirs, d, n)) ==
      SpacesOf(ts, dirs)[d := SpacesOf(ts, dirs)[n]][n := SpacesOf(ts, dirs)[d]]
  {
    hide SpaceOf;
  }

  /** Taking a directory away leaves what the others translate. */
  lemma DropStore(ts: Tables, lab: Labels, dirs: Dirs, kpd: TableId, n: nat)
    requires Store(ts, lab, dirs, kpd) && n in dirs && n != 0
    ensures var ts' := WithoutSpace(ts, lab, dirs[n].gen);
      Store(ts', lab, dirs - {n}, kpd) && SpacesOf(ts', dirs - {n}) == SpacesOf(ts, dirs) - {n}
  {
    hide Slots, Links, Parents, Apart, Tops, Connected, HeldSpace, SpacesOf, WithoutSpace;
    DropSound(ts, lab, dirs[n].gen, dirs[0].gen, dirs[0].root, kpd);
    DropInPlace(ts, lab, dirs, kpd, n);
    DropSpaces(ts, lab, dirs, kpd, n);
  }

  lemma DropSpaces(ts: Tables, lab: Labels, dirs: Dirs, kpd: TableId, n: nat)
    requires Store(ts, lab, dirs, kpd) && n in dirs && n != 0 && Sound(WithoutSpace(ts, lab, dirs[n].gen), lab)
    ensures SpacesOf(WithoutSpace(ts, lab, dirs[n].gen), dirs - {n}) == SpacesOf(ts, dirs) - {n}
  {
    hide Slots, Links, Parents, Apart, Tops, InPlace, WithoutSpace, SpaceOf;
    var ts', dirs' := WithoutSpace(ts, lab, dirs[n].gen), dirs - {n};
    forall x | x in dirs' ensures SpaceOf(ts', dirs[x].root) == SpaceOf(ts, dirs[x].root) {
      DropLeaves(ts, lab, dirs, kpd, n, x);
    }
  }

  lemma DropLeaves(ts: Tables, lab: Labels, dirs: Dirs, kpd: TableId, n: nat, x: nat)
    requires Store(ts, lab, dirs, kpd) && n in dirs && n != 0 && x in dirs && x != n
    requires Sound(WithoutSpace(ts, lab, dirs[n].gen), lab)
    ensures SpaceOf(WithoutSpace(ts, lab, dirs[n].gen), dirs[x].root) == SpaceOf(ts, dirs[x].root)
  {
    var ts' := WithoutSpace(ts, lab, dirs[n].gen);
    assert IsRoot(ts, lab, dirs[x].gen, dirs[x].root);
    hide Slots, Links, Parents, Apart, Tops, SpaceOf, Leaf;
    forall k: nat | k < KEYS ensures Leaf(ts', dirs[x].root, k) == Leaf(ts, dirs[x].root, k) {
      SameLeaf(ts', ts, lab, dirs[x].root, k);
    }
    SameSpace(ts, dirs[x].root, ts', dirs[x].root);
  }

  lemma DropInPlace(ts: Tables, lab: Labels, dirs: Dirs, kpd: TableId, n: nat)
    requires Typed(ts, lab) && Slots(ts, lab) && InPlace(ts, lab, dirs, kpd) && n in dirs && n != 0
    ensures InPlace(WithoutSpace(ts, lab, dirs[n].gen), lab, dirs - {n}, kpd)
  {
    var ts', dirs' := WithoutSpace(ts, lab, dirs[n].gen), dirs - {n};
    forall x | x in dirs' ensures IsRoot(ts', lab, dirs[x].gen, dirs[x].root) && Connected(ts', dirs[x].root, kpd) {
      var root := dirs[x].root;
      assert IsRoot(ts, lab, dirs[x].gen, root) && Connected(ts, root, kpd);
      assert SlotOk(ts, lab, root, 511);
    }
    forall x | HeldSpace(dirs, x) && x != dirs[n].gen ensures HeldSpace(dirs', x) {
      var y :| y in dirs && dirs[y].gen == x;
      assert y in dirs' && dirs'[y].gen == x;
    }
    hide HeldSpace, Connected, IsRoot;
  }

  // ----- the first directory

  function BootTables(root: TableId, rootPhys: nat, mid: TableId, midPhys: nat, kpd: TableId, kpdPhys: nat): Tables {
    MakeDirectory(map[kpd := EmptyTable(kpdPhys)], root, rootPhys, mid, midPhys, kpd)
  }

  function BootLabels(root: TableId, mid: TableId, kpd: TableId): Labels {
    MakeLabels(map[kpd := KERNEL_PD_LABEL], 0, root, mid)
  }

  lemma BootStore(root: TableId, rootPhys: nat, mid: TableId, midPhys: nat, kpd: TableId, kpdPhys: nat)
    requires root != mid && root != kpd && mid != kpd && rootPhys != midPhys && rootPhys != kpdPhys
    requires midPhys != kpdPhys
    ensures var ts, dirs := BootTables(root, rootPhys, mid, midPhys, kpd, kpdPhys), map[0 := Directory(root, 0)];
      && Store(ts, BootLabels(root, mid, kpd), dirs, kpd)
      && SpacesOf(ts, dirs).Keys == {0} && forall k: nat :: k < KEYS ==> Leaf(ts, root, k) == ZERO
  {
    hide Leaf;
    BootCanMake(root, rootPhys, mid, midPhys, kpd, kpdPhys);
    MakeSound(map[kpd := EmptyTable(kpdPhys)], map[kpd := KERNEL_PD_LABEL], 0, root, rootPhys, mid, midPhys, kpd);
    BootInPlace(root, rootPhys, mid, midPhys, kpd, kpdPhys);
    forall k: nat | k < KEYS ensures Leaf(BootTables(root, rootPhys, mid, midPhys, kpd, kpdPhys), root, k) == ZERO {
      BootLeaf(root, rootPhys, mid, midPhys, kpd, kpdPhys, k);
    }
    hide Slots, Links, Parents, Apart, Tops, CanMake, MakeDirectory, MakeLabels, InPlace;
  }

  lemma BootCanMake(root: TableId, rootPhys: nat, mid: TableId, midPhys: nat, kpd: TableId, kpdPhys: nat)
    requires root != mid && root != kpd && mid != kpd && rootPhys != midPhys && rootPhys != kpdPhys
    requires midPhys != kpdPhys
    ensures CanMake(map[kpd := EmptyTable(kpdPhys)], map[kpd := KERNEL_PD_LABEL], 0, root, rootPhys, mid, midPhys, kpd)
  {
  }

  lemma BootInPlace(root: TableId, rootPhys: nat, mid: TableId, midPhys: nat, kpd: TableId, kpdPhys: nat)
    requires root != mid && root != kpd && mid != kpd
    ensures var ts := BootTables(root, rootPhys, mid, midPhys, kpd, kpdPhys);
      InPlace(ts, BootLabels(root, mid, kpd), map[0 := Directory(root, 0)], kpd)
  {
    var dirs := map[0 := Directory(root, 0)];
    assert 0 in dirs && dirs[0].gen == 0;
    assert HeldSpace(dirs, 0);
  }

  lemma BootLeaf(root: TableId, rootPhys: nat, mid: TableId, midPhys: nat, kpd: TableId, kpdPhys: nat, k: nat)
    requires root != mid && root != kpd && mid != kpd && k < KEYS
    ensures Leaf(BootTables(root, rootPhys, mid, midPhys, kpd, kpdPhys), root, k) == ZERO
  {
    var ts := BootTables(root, rootPhys, mid, midPhys, kpd, kpdPhys);
    if Idx(4, k) == 511 {
      assert Walk(ts, root, 4, 1, k) == Walk(ts, mid, 3, 1, k);
      if Idx(3, k) == 511 {
        assert Walk(ts, mid, 3, 1, k) == Walk(ts, kpd, 2, 1, k);
      }
    }
  }
}
