/** The four-level tree of source/PageManager.hpp: tables of hardware entries, each with a
    parallel array of software pointers to the next level. Tables are named by the block of
    the page heap they live in, so that two directories can share one. */
module RadixTree {
  import opened Common
  import opened PageEntry

  type TableId = nat

  /** `phys` is the physical page of the table itself. */
  datatype Table = Table(phys: nat, entries: seq<Entry>, next: seq<Option<TableId>>)

  type Tables = map<TableId, Table>

  predicate TableOk(x: Table) {
    |x.entries| == SLOTS && |x.next| == SLOTS
  }

  /** A fresh table: its constructor clears both arrays. */
  function EmptyTable(phys: nat): (x: Table)
    ensures TableOk(x)
  {
    Table(phys, seq(SLOTS, _ => ZERO), seq(SLOTS, _ => None))
  }

  // ----- software walk

  /** The table at level `to` on the path of `key` that starts in `t` at `level`. */
  function Walk(ts: Tables, t: TableId, level: nat, to: nat, key: nat): Option<TableId>
    requires 1 <= to <= level <= 4
    decreases level
  {
    if t !in ts || !TableOk(ts[t]) then None
    else if level == to then Some(t)
    else match ts[t].next[Idx(level, key)]
         case None => None
         case Some(u) => Walk(ts, u, level - 1, to, key)
  }

  /** The entry that decides `key`, starting from a table at some level; a missing table counts
      as cleared. */
  function EntryBelow(ts: Tables, t: TableId, level: nat, key: nat): Entry
    requires 1 <= level <= 4
  {
    match Walk(ts, t, level, 1, key)
    case Some(u) => if u in ts && TableOk(ts[u]) then ts[u].entries[Idx(1, key)] else ZERO
    case None => ZERO
  }

  /** The entry that decides the translation of `key`. */
  function Leaf(ts: Tables, root: TableId, key: nat): Entry {
    EntryBelow(ts, root, 4, key)
  }

  // ----- which table is where

  datatype Space = Private(dir: nat) | Shared

  /** The level of a table, whose it is, and the upper part of the keys that pass through it. */
  datatype Label = Label(level: nat, space: Space, prefix: nat)

  type Labels = map<TableId, Label>

  function PathLabel(dir: nat, level: nat, key: nat): Label
    requires 1 <= level <= 4
  {
    Label(level, if level <= 2 && IsKernelKey(key) then Shared else Private(dir), Prefix(level, key))
  }

  /** Below slot 511 of the third-level table with prefix 511 lies the kernel's directory. */
  function ChildLabel(l: Label, i: nat): Label
    requires l.level >= 1
  {
    var prefix := l.prefix * SLOTS + i;
    Label(l.level - 1, if l.level == 3 && prefix == KERNEL_PD then Shared else l.space, prefix)
  }

  lemma ChildOnPath(dir: nat, level: nat, key: nat)
    requires 2 <= level <= 4 && key < KEYS
    ensures ChildLabel(PathLabel(dir, level, key), Idx(level, key)) == PathLabel(dir, level - 1, key)
  {
    PrefixStep(level, key);
    PrefixStep(3, key);
    PrefixStep(2, key);
  }

  predicate Typed(ts: Tables, lab: Labels) {
    forall t :: t in ts ==> t in lab && TableOk(ts[t]) && 1 <= lab[t].level <= 4
  }

  /** An interior slot is either clear in both arrays, or points to a table in both, and then
      grants every right. */
  predicate SlotOk(ts: Tables, lab: Labels, t: TableId, i: nat)
    requires Typed(ts, lab) && t in ts && i < SLOTS
  {
    match ts[t].next[i]
    case None => lab[t].level > 1 ==> ts[t].entries[i] == ZERO
    case Some(u) =>
      && lab[t].level > 1 && u in ts && lab[u] == ChildLabel(lab[t], i)
      && ts[t].entries[i] == Entry(true, true, true, false, ts[u].phys)
  }

  ghost predicate Slots(ts: Tables, lab: Labels)
    requires Typed(ts, lab)
  {
    forall t, i :: t in ts && 0 <= i < SLOTS ==> SlotOk(ts, lab, t, i)
  }

  const KERNEL_PD_LABEL: Label := Label(2, Shared, KERNEL_PD)

  /** No two tables are in the same place, or on the same physical page. */
  predicate Apart(ts: Tables, lab: Labels)
    requires Typed(ts, lab)
  {
    && (forall t, u :: t in ts && u in ts && lab[t] == lab[u] ==> t == u)
    && (forall t, u :: t in ts && u in ts && ts[t].phys == ts[u].phys ==> t == u)
  }

  /** Where a table would hang below another one, it does hang. */
  predicate LinkOk(ts: Tables, lab: Labels, t: TableId, i: nat, v: TableId)
    requires Typed(ts, lab) && t in ts && i < SLOTS && v in ts
  {
    lab[t].level > 1 && ChildLabel(lab[t], i) == lab[v] ==> ts[t].next[i] == Some(v)
  }

  ghost predicate Links(ts: Tables, lab: Labels)
    requires Typed(ts, lab)
  {
    forall t, i, v :: t in ts && 0 <= i < SLOTS && v in ts ==> LinkOk(ts, lab, t, i, v)
  }

  /** Table `t` is the one that `v` hangs from. */
  predicate IsParent(ts: Tables, lab: Labels, t: TableId, v: TableId) {
    t in ts && t in lab && v in lab && lab[t].level > 1 && ChildLabel(lab[t], lab[v].prefix % SLOTS) == lab[v]
  }

  ghost predicate Parents(ts: Tables, lab: Labels)
    requires Typed(ts, lab)
  {
    forall v :: v in ts && lab[v].level < 4 ==> exists t :: IsParent(ts, lab, t, v)
  }

  predicate Tops(ts: Tables, lab: Labels)
    requires Typed(ts, lab)
  {
    forall t :: t in ts && lab[t].level == 4 ==> lab[t].prefix == 0
  }

  /** Every table is well formed and hangs where its place says, and nowhere else. */
  ghost predicate Sound(ts: Tables, lab: Labels) {
    Typed(ts, lab) && Slots(ts, lab) && Apart(ts, lab) && Links(ts, lab) && Parents(ts, lab) && Tops(ts, lab)
  }

  /** Only one slot can lead to a given place, except to the kernel's directory. */
  lemma PlaceHasOneParent(l: Label, i: nat, l': Label, i': nat)
    requires 1 < l.level && 1 < l'.level && i < SLOTS && i' < SLOTS
    requires ChildLabel(l, i) == ChildLabel(l', i') != KERNEL_PD_LABEL
    ensures l == l' && i == i'
  {
    assert l.prefix == (l.prefix * SLOTS + i) / SLOTS;
    assert l'.prefix == (l'.prefix * SLOTS + i') / SLOTS;
  }

  lemma {:induction false} WalkFollowsLabels(ts: Tables, lab: Labels, t: TableId, level: nat, to: nat, dir: nat,
                                             key: nat)
    requires Sound(ts, lab) && 1 <= to <= level <= 4 && key < KEYS
    requires t in ts && lab[t] == PathLabel(dir, level, key)
    ensures var r := Walk(ts, t, level, to, key);
      r.Some? ==> r.value in ts && lab[r.value] == PathLabel(dir, to, key)
    decreases level
  {
    if level > to {
      assert SlotOk(ts, lab, t, Idx(level, key));
      match ts[t].next[Idx(level, key)]
      case None =>
      case Some(u) =>
        ChildOnPath(dir, level, key);
        WalkFollowsLabels(ts, lab, u, level - 1, to, dir, key);
    }
  }

  lemma {:induction false} WalkInParts(ts: Tables, t: TableId, level: nat, mid: nat, to: nat, key: nat)
    requires 1 <= to <= mid <= level <= 4
    ensures Walk(ts, t, level, to, key) ==
      match Walk(ts, t, level, mid, key) case None => None case Some(u) => Walk(ts, u, mid, to, key)
    decreases level
  {
    if level > mid && t in ts && TableOk(ts[t]) {
      match ts[t].next[Idx(level, key)]
      case None =>
      case Some(u) => WalkInParts(ts, u, level - 1, mid, to, key);
    }
  }

  // ----- writing one last-level entry

  function SetLeaf(ts: Tables, u: TableId, i: nat, e: Entry): Tables
    requires u in ts && TableOk(ts[u]) && i < SLOTS
  {
    ts[u := ts[u].(entries := ts[u].entries[i := e])]
  }

  lemma {:induction false} SetLeafKeepsWalks(ts: Tables, u: TableId, i: nat, e: Entry, t: TableId, level: nat, to: nat,
                                             key: nat)
    requires u in ts && TableOk(ts[u]) && i < SLOTS && 1 <= to <= level <= 4
    ensures Walk(SetLeaf(ts, u, i, e), t, level, to, key) == Walk(ts, t, level, to, key)
    decreases level
  {
    if level > to && t in ts && TableOk(ts[t]) {
      match ts[t].next[Idx(level, key)]
      case None =>
      case Some(v) => SetLeafKeepsWalks(ts, u, i, e, v, level - 1, to, key);
    }
  }

  lemma SetLeafSlots(ts: Tables, lab: Labels, u: TableId, i: nat, e: Entry)
    requires Typed(ts, lab) && Slots(ts, lab) && u in ts && lab[u].level == 1 && i < SLOTS
    ensures Typed(SetLeaf(ts, u, i, e), lab) && Slots(SetLeaf(ts, u, i, e), lab)
  {
    var ts' := SetLeaf(ts, u, i, e);
    forall t, j | t in ts' && 0 <= j < SLOTS ensures SlotOk(ts', lab, t, j) {
      assert SlotOk(ts, lab, t, j);
    }
  }

  /** Tables that keep their pointers keep hanging where they did. */
  lemma SamePointersSameLinks(ts: Tables, ts': Tables, lab: Labels)
    requires Typed(ts, lab) && Typed(ts', lab) && Links(ts, lab) && Parents(ts, lab)
    requires ts.Keys == ts'.Keys && forall t :: t in ts ==> ts'[t].next == ts[t].next
    ensures Links(ts', lab) && Parents(ts', lab)
  {
    forall t, j, v | t in ts' && 0 <= j < SLOTS && v in ts' ensures LinkOk(ts', lab, t, j, v) {
      assert LinkOk(ts, lab, t, j, v);
    }
    forall v | v in ts' && lab[v].level < 4 ensures exists t :: IsParent(ts', lab, t, v) {
      var t :| IsParent(ts, lab, t, v);
      assert IsParent(ts', lab, t, v);
    }
  }

  lemma SetLeafSound(ts: Tables, lab: Labels, u: TableId, i: nat, e: Entry)
    requires Sound(ts, lab) && u in ts && lab[u].level == 1 && i < SLOTS
    ensures Sound(SetLeaf(ts, u, i, e), lab)
  {
    hide Slots, Links, Parents;
    SetLeafSlots(ts, lab, u, i, e);
    SamePointersSameLinks(ts, SetLeaf(ts, u, i, e), lab);
  }

  /** Which keys of which directories are decided by the same slot. */
  predicate SameSlot(d: nat, k: nat, d': nat, k': nat) {
    k == k' && (d == d' || IsKernelKey(k))
  }

  predicate IsRoot(ts: Tables, lab: Labels, d: nat, root: TableId) {
    root in ts && root in lab && lab[root] == Label(4, Private(d), 0)
  }

  lemma RootOnPath(d: nat, key: nat)
    requires key < KEYS
    ensures PathLabel(d, 4, key) == Label(4, Private(d), 0)
  {
  }

  /** Two paths end in the same last-level slot only if they are the same path, or both are
      in the shared kernel gigabyte. */
  lemma LeafSlotsDistinct(ts: Tables, lab: Labels, d: nat, r: TableId, k: nat, d': nat, r': TableId, k': nat)
    requires Sound(ts, lab) && IsRoot(ts, lab, d, r) && IsRoot(ts, lab, d', r') && k < KEYS && k' < KEYS
    requires Walk(ts, r, 4, 1, k).Some? && Walk(ts, r, 4, 1, k) == Walk(ts, r', 4, 1, k') && Idx(1, k) == Idx(1, k')
    ensures SameSlot(d, k, d', k')
  {
    RootOnPath(d, k);
    RootOnPath(d', k');
    WalkFollowsLabels(ts, lab, r, 4, 1, d, k);
    WalkFollowsLabels(ts, lab, r', 4, 1, d', k');
    PrefixStep(1, k);
    PrefixStep(1, k');
  }

  /** One write through the path of (d, k) changes that translation and no other, except that
      the other directories see it too if it is in the kernel gigabyte. */
  lemma SetLeafEffect(ts: Tables, lab: Labels, d: nat, r: TableId, k: nat, e: Entry, d': nat, r': TableId, k': nat)
    requires Sound(ts, lab) && IsRoot(ts, lab, d, r) && IsRoot(ts, lab, d', r') && k < KEYS && k' < KEYS
    requires Walk(ts, r, 4, 1, k).Some? && Walk(ts, r, 4, 1, k).value in ts && TableOk(ts[Walk(ts, r, 4, 1, k).value])
    requires SameSlot(d, k, d', k') ==> Walk(ts, r', 4, 1, k') == Walk(ts, r, 4, 1, k)
    ensures var ts' := SetLeaf(ts, Walk(ts, r, 4, 1, k).value, Idx(1, k), e);
      Leaf(ts', r', k') == if SameSlot(d, k, d', k') then e else Leaf(ts, r', k')
  {
    hide Sound;
    var u := Walk(ts, r, 4, 1, k).value;
    SetLeafKeepsWalks(ts, u, Idx(1, k), e, r', 4, 1, k');
    if Walk(ts, r', 4, 1, k') == Some(u) && Idx(1, k) == Idx(1, k') {
      LeafSlotsDistinct(ts, lab, d, r, k, d', r', k');
    }
  }

  // ----- hanging a fresh table into an empty slot

  function AddTable(ts: Tables, t: TableId, i: nat, u: TableId, phys: nat): Tables
    requires t in ts && TableOk(ts[t]) && i < SLOTS
  {
    var x := ts[t];
    ts[u := EmptyTable(phys)]
      [t := x.(entries := x.entries[i := Entry(true, true, true, false, phys)], next := x.next[i := Some(u)])]
  }

  /** Neither the kernel's directory nor the third-level table above it: those are put in
      place when a directory is made. */
  predicate Ordinary(l: Label) {
    l != KERNEL_PD_LABEL && !(l.level == 3 && l.prefix == 511)
  }

  lemma AddTableSound(ts: Tables, lab: Labels, t: TableId, i: nat, u: TableId, phys: nat)
    requires Sound(ts, lab) && t in ts && i < SLOTS && lab[t].level > 1 && ts[t].next[i].None?
    requires u !in ts && (forall v :: v in ts ==> ts[v].phys != phys)
    requires Ordinary(ChildLabel(lab[t], i))
    ensures Sound(AddTable(ts, t, i, u, phys), lab[u := ChildLabel(lab[t], i)])
  {
    hide Slots, Parents, Links, Tops, ChildLabel, Ordinary;
    var ts', lab' := AddTable(ts, t, i, u, phys), lab[u := ChildLabel(lab[t], i)];
    PlaceFree(ts, lab, t, i);
    AddTableTyped(ts, lab, t, i, u, phys);
    AddTableSlots(ts, lab, t, i, u, phys);
    AddTableLinks(ts, lab, t, i, u, phys);
    AddTableParents(ts, lab, t, i, u, phys);
  }

  lemma PlaceFree(ts: Tables, lab: Labels, t: TableId, i: nat)
    requires Typed(ts, lab) && Links(ts, lab) && t in ts && i < SLOTS && lab[t].level > 1 && ts[t].next[i].None?
    ensures forall v :: v in ts ==> lab[v] != ChildLabel(lab[t], i)
  {
    forall v | v in ts ensures lab[v] != ChildLabel(lab[t], i) {
      assert LinkOk(ts, lab, t, i, v);
    }
  }

  lemma AddTableTyped(ts: Tables, lab: Labels, t: TableId, i: nat, u: TableId, phys: nat)
    requires Typed(ts, lab) && Tops(ts, lab) && t in ts && i < SLOTS && lab[t].level > 1 && u !in ts
    ensures var ts', lab' := AddTable(ts, t, i, u, phys), lab[u := ChildLabel(lab[t], i)];
      Typed(ts', lab') && Tops(ts', lab')
  {
  }

  lemma AddTableSlots(ts: Tables, lab: Labels, t: TableId, i: nat, u: TableId, phys: nat)
    requires Typed(ts, lab) && Slots(ts, lab) && t in ts && i < SLOTS && lab[t].level > 1 && u !in ts
    requires Typed(AddTable(ts, t, i, u, phys), lab[u := ChildLabel(lab[t], i)])
    ensures Slots(AddTable(ts, t, i, u, phys), lab[u := ChildLabel(lab[t], i)])
  {
    var ts', lab' := AddTable(ts, t, i, u, phys), lab[u := ChildLabel(lab[t], i)];
    forall v, j | v in ts' && 0 <= j < SLOTS ensures SlotOk(ts', lab', v, j) {
      if v != u {
        assert SlotOk(ts, lab, v, j);
      }
    }
  }

  lemma SlotOfPrefix(p: nat, i: nat)
    requires i < SLOTS
    ensures (p * SLOTS + i) % SLOTS == i && (p * SLOTS + i) / SLOTS == p
  {
  }

  lemma AddTableParents(ts: Tables, lab: Labels, t: TableId, i: nat, u: TableId, phys: nat)
    requires Typed(ts, lab) && Parents(ts, lab) && t in ts && i < SLOTS && lab[t].level > 1 && u !in ts
    requires Typed(AddTable(ts, t, i, u, phys), lab[u := ChildLabel(lab[t], i)])
    ensures Parents(AddTable(ts, t, i, u, phys), lab[u := ChildLabel(lab[t], i)])
  {
    var ts', lab' := AddTable(ts, t, i, u, phys), lab[u := ChildLabel(lab[t], i)];
    SlotOfPrefix(lab[t].prefix, i);
    assert IsParent(ts', lab', t, u);
    forall v | v in ts' && v != u && lab'[v].level < 4 ensures exists w :: IsParent(ts', lab', w, v) {
      var w :| IsParent(ts, lab, w, v);
      assert IsParent(ts', lab', w, v);
    }
  }

  /** Where no table hangs yet, nothing hangs further down either. */
  lemma NothingBelowYet(ts: Tables, lab: Labels, t: TableId, i: nat, j: nat, v: TableId)
    requires Typed(ts, lab) && Links(ts, lab) && Parents(ts, lab) && t in ts && lab[t].level > 1
    requires i < SLOTS && j < SLOTS && v in ts && lab[v].level < 4
    requires ts[t].next[i].None? && Ordinary(ChildLabel(lab[t], i))
    ensures ChildLabel(lab[t], i).level > 1 ==> ChildLabel(ChildLabel(lab[t], i), j) != lab[v]
  {
    var l := ChildLabel(lab[t], i);
    if l.level > 1 && ChildLabel(l, j) == lab[v] {
      var w :| IsParent(ts, lab, w, v);
      NotKernelPd(l, j);
      PlaceHasOneParent(l, j, lab[w], lab[v].prefix % SLOTS);
      PlaceFree(ts, lab, t, i);
    }
  }

  lemma NotKernelPd(l: Label, j: nat)
    requires Ordinary(l) && l.level > 1 && j < SLOTS
    ensures ChildLabel(l, j) != KERNEL_PD_LABEL
  {
  }

  lemma AddTableLinks(ts: Tables, lab: Labels, t: TableId, i: nat, u: TableId, phys: nat)
    requires Typed(ts, lab) && Links(ts, lab) && Parents(ts, lab) && Apart(ts, lab)
    requires t in ts && i < SLOTS && lab[t].level > 1 && ts[t].next[i].None?
    requires u !in ts && Ordinary(ChildLabel(lab[t], i))
    requires Typed(AddTable(ts, t, i, u, phys), lab[u := ChildLabel(lab[t], i)])
    ensures Links(AddTable(ts, t, i, u, phys), lab[u := ChildLabel(lab[t], i)])
  {
    var ts', lab' := AddTable(ts, t, i, u, phys), lab[u := ChildLabel(lab[t], i)];
    forall w, j, v | w in ts' && 0 <= j < SLOTS && v in ts' ensures LinkOk(ts', lab', w, j, v) {
      if lab'[w].level > 1 && ChildLabel(lab'[w], j) == lab'[v] {
        if v == u {
          PlaceHasOneParent(lab[t], i, lab'[w], j);
        } else if w == u {
          NothingBelowYet(ts, lab, t, i, j, v);
        } else {
          assert LinkOk(ts, lab, w, j, v);
        }
      }
    }
  }

  /** Until something is written into it, the fresh table changes no translation. */
  lemma {:induction false} AddTableKeepsLeaves(ts: Tables, t: TableId, i: nat, u: TableId, phys: nat, v: TableId,
                                               level: nat, key: nat)
    requires t in ts && TableOk(ts[t]) && i < SLOTS && ts[t].next[i].None? && u !in ts && u != v && 1 <= level <= 4
    requires forall w, j :: w in ts && TableOk(ts[w]) && 0 <= j < SLOTS ==> ts[w].next[j] != Some(u)
    ensures var ts' := AddTable(ts, t, i, u, phys);
      match Walk(ts, v, level, 1, key)
      case Some(w) => Walk(ts', v, level, 1, key) == Some(w) && w in ts && w != u
      case None => Walk(ts', v, level, 1, key) in {None, Some(u)}
    decreases level
  {
    var ts' := AddTable(ts, t, i, u, phys);
    if level > 1 && v in ts && TableOk(ts[v]) {
      match ts[v].next[Idx(level, key)]
      case Some(w) => AddTableKeepsLeaves(ts, t, i, u, phys, w, level - 1, key);
      case None =>
    }
  }

  // ----- the shared kernel gigabyte

  /** The directory reaches the kernel's page directory through slot 511, twice. */
  predicate Connected(ts: Tables, root: TableId, kpd: TableId) {
    && root in ts && TableOk(ts[root]) && ts[root].next[511].Some?
    && var p := ts[root].next[511].value;
       p in ts && TableOk(ts[p]) && ts[p].next[511] == Some(kpd)
  }

  /** Two connected directories translate every kernel key through the same entry. */
  lemma KernelShared(ts: Tables, r: TableId, r': TableId, kpd: TableId, key: nat)
    requires Connected(ts, r, kpd) && Connected(ts, r', kpd) && key < KEYS && IsKernelKey(key)
    ensures Walk(ts, r, 4, 1, key) == Walk(ts, r', 4, 1, key) && Leaf(ts, r, key) == Leaf(ts, r', key)
  {
    KernelKeyIndices(key);
    WalkToKernel(ts, r, kpd, key);
    WalkToKernel(ts, r', kpd, key);
  }

  lemma WalkToKernel(ts: Tables, r: TableId, kpd: TableId, key: nat)
    requires Connected(ts, r, kpd) && Idx(4, key) == 511 && Idx(3, key) == 511
    ensures Walk(ts, r, 4, 1, key) == Walk(ts, kpd, 2, 1, key)
  {
    var p := ts[r].next[511].value;
    assert Walk(ts, r, 4, 1, key) == Walk(ts, p, 3, 1, key);
  }

  // ----- what the processor makes of it: 4-level paging of the Intel manual, volume 3A

  datatype Translation = Fault | Frame(frame: nat, writable: bool, user: bool, executable: bool)

  ghost function TableAt(ts: Tables, phys: nat): Option<TableId> {
    if t :| t in ts && ts[t].phys == phys then Some(t) else None
  }

  /** The hardware only sees physical pages and entries, and combines rights on the way down. */
  ghost function HardwareWalk(ts: Tables, phys: nat, level: nat, key: nat, w: bool, u: bool, x: bool): Translation
    requires 1 <= level <= 4
    decreases level
  {
    match TableAt(ts, phys)
    case None => Fault
    case Some(t) =>
      if !TableOk(ts[t]) then Fault else
      var e := ts[t].entries[Idx(level, key)];
      if !e.p then Fault
      else if level == 1 then Frame(e.base, w && e.rw, u && e.us, x && !e.nx)
      else HardwareWalk(ts, e.base, level - 1, key, w && e.rw, u && e.us, x && !e.nx)
  }

  /** What an entry of the last level says by itself. */
  function LeafTranslation(e: Entry): Translation {
    if e.p then Frame(e.base, e.rw, e.us, !e.nx) else Fault
  }

  lemma TableFound(ts: Tables, lab: Labels, t: TableId)
    requires Typed(ts, lab) && Apart(ts, lab) && t in ts
    ensures TableAt(ts, ts[t].phys) == Some(t)
  {
  }

  lemma {:induction false} HardwareFollowsPointers(ts: Tables, lab: Labels, t: TableId, level: nat, key: nat)
    requires Sound(ts, lab) && 1 <= level <= 4 && t in ts && lab[t].level == level
    ensures HardwareWalk(ts, ts[t].phys, level, key, true, true, true) ==
      LeafTranslation(EntryBelow(ts, t, level, key))
    decreases level
  {
    hide Idx, Links, Parents, Tops, TableAt;
    TableFound(ts, lab, t);
    if level > 1 {
      var i := Idx(level, key);
      assert SlotOk(ts, lab, t, i);
      match ts[t].next[i]
      case None =>
      case Some(u) => HardwareFollowsPointers(ts, lab, u, level - 1, key);
    }
  }

  /** The processor finds the frame that `resolve` finds, and the effective rights of a page
      are exactly the rights of its last-level entry. */
  lemma HardwareAgrees(ts: Tables, lab: Labels, d: nat, root: TableId, key: nat)
    requires Sound(ts, lab) && IsRoot(ts, lab, d, root)
    ensures HardwareWalk(ts, ts[root].phys, 4, key, true, true, true) == LeafTranslation(Leaf(ts, root, key))
  {
    HardwareFollowsPointers(ts, lab, root, 4, key);
  }

  /** A page mapped in a slot that was never used before has, for the processor, exactly the
      rights that were asked for: at once, or after the fault that gives it its frame. */
  lemma EffectiveRights(ts: Tables, lab: Labels, d: nat, root: TableId, key: nat, frame: nat, a: Attr)
    requires Sound(ts, lab) && IsRoot(ts, lab, d, root)
    requires Leaf(ts, root, key) ==
      if a.defer then FaultEntry(MapEntry(ZERO, INVALID_PAGE, a), frame) else MapEntry(ZERO, frame, a)
    ensures HardwareWalk(ts, ts[root].phys, 4, key, true, true, true) == Frame(frame, a.rw, a.public, !a.noexec)
  {
    hide Sound, HardwareWalk, Leaf;
    HardwareAgrees(ts, lab, d, root, key);
  }
}
