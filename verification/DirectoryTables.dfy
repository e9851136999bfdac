/** Whole directories in the table store: making one that shares the kernel's gigabyte
    (`mapKernel` of source/PageDirectory.cpp) and taking one down again (the destructor of
    source/PageManager.hpp). */
module DirectoryTables {
  import opened Common
  import opened PageEntry
  import opened RadixTree

  function PointTo(x: Table, i: nat, u: TableId, phys: nat): Table
    requires TableOk(x) && i < SLOTS
  {
    x.(entries := x.entries[i := Entry(true, true, true, false, phys)], next := x.next[i := Some(u)])
  }

  /** A root and a third-level table, joined to the kernel's page directory. */
  function MakeDirectory(ts: Tables, root: TableId, rootPhys: nat, mid: TableId, midPhys: nat, kpd: TableId): Tables
    requires kpd in ts
  {
    ts[root := PointTo(EmptyTable(rootPhys), 511, mid, midPhys)]
      [mid := PointTo(EmptyTable(midPhys), 511, kpd, ts[kpd].phys)]
  }

  function MakeLabels(lab: Labels, g: nat, root: TableId, mid: TableId): Labels {
    lab[root := Label(4, Private(g), 0)][mid := Label(3, Private(g), 511)]
  }

  /** Everything about a store that is needed to add a directory to it. */
  ghost predicate CanMake(ts: Tables, lab: Labels, g: nat, root: TableId, rootPhys: nat, mid: TableId, midPhys: nat,
                          kpd: TableId) {
    && Typed(ts, lab) && Slots(ts, lab) && Apart(ts, lab) && Links(ts, lab) && Tops(ts, lab)
    && kpd in ts && lab[kpd] == KERNEL_PD_LABEL
    && (forall v :: v in ts && v != kpd && lab[v].level < 4 ==> exists t :: IsParent(ts, lab, t, v))
    && root !in ts && mid !in ts && root != mid && rootPhys != midPhys
    && (forall t :: t in ts ==> lab[t].space != Private(g) && ts[t].phys != rootPhys && ts[t].phys != midPhys)
  }

  lemma MakeApart(ts: Tables, lab: Labels, g: nat, root: TableId, rootPhys: nat, mid: TableId, midPhys: nat,
                  kpd: TableId)
    requires CanMake(ts, lab, g, root, rootPhys, mid, midPhys, kpd)
    ensures var ts', lab' := MakeDirectory(ts, root, rootPhys, mid, midPhys, kpd), MakeLabels(lab, g, root, mid);
      Typed(ts', lab') && Apart(ts', lab')
  {
    hide Slots, Links, Tops, IsParent;
  }

  lemma MakeSlots(ts: Tables, lab: Labels, g: nat, root: TableId, rootPhys: nat, mid: TableId, midPhys: nat,
                  kpd: TableId)
    requires Typed(ts, lab) && Slots(ts, lab) && kpd in ts && lab[kpd] == KERNEL_PD_LABEL
    requires root !in ts && mid !in ts && root != mid
    requires Typed(MakeDirectory(ts, root, rootPhys, mid, midPhys, kpd), MakeLabels(lab, g, root, mid))
    ensures Slots(MakeDirectory(ts, root, rootPhys, mid, midPhys, kpd), MakeLabels(lab, g, root, mid))
  {
    var ts', lab' := MakeDirectory(ts, root, rootPhys, mid, midPhys, kpd), MakeLabels(lab, g, root, mid);
    forall t, i | t in ts' && 0 <= i < SLOTS ensures SlotOk(ts', lab', t, i) {
      if t in ts {
        assert SlotOk(ts, lab, t, i);
      }
    }
  }

  lemma MakeLinks(ts: Tables, lab: Labels, g: nat, root: TableId, rootPhys: nat, mid: TableId, midPhys: nat,
                  kpd: TableId)
    requires CanMake(ts, lab, g, root, rootPhys, mid, midPhys, kpd)
    ensures var ts', lab' := MakeDirectory(ts, root, rootPhys, mid, midPhys, kpd), MakeLabels(lab, g, root, mid);
      Typed(ts', lab') && Links(ts', lab')
  {
    hide Slots, Tops, IsParent;
    var ts', lab' := MakeDirectory(ts, root, rootPhys, mid, midPhys, kpd), MakeLabels(lab, g, root, mid);
    forall t, i, v | t in ts' && 0 <= i < SLOTS && v in ts' ensures LinkOk(ts', lab', t, i, v) {
      if t in ts && v in ts {
        assert LinkOk(ts, lab, t, i, v);
      }
    }
  }

  lemma KernelPlace(g: nat)
    ensures ChildLabel(Label(4, Private(g), 0), 511 % SLOTS) == Label(3, Private(g), 511)
    ensures ChildLabel(Label(3, Private(g), 511), KERNEL_PD % SLOTS) == KERNEL_PD_LABEL
  {
  }

  lemma MakeParents(ts: Tables, lab: Labels, g: nat, root: TableId, rootPhys: nat, mid: TableId, midPhys: nat,
                    kpd: TableId)
    requires CanMake(ts, lab, g, root, rootPhys, mid, midPhys, kpd)
    ensures var ts', lab' := MakeDirectory(ts, root, rootPhys, mid, midPhys, kpd), MakeLabels(lab, g, root, mid);
      Typed(ts', lab') && Parents(ts', lab') && Tops(ts', lab')
  {
    hide Slots, Links, Apart, IsParent, MakeDirectory;
    var ts', lab' := MakeDirectory(ts, root, rootPhys, mid, midPhys, kpd), MakeLabels(lab, g, root, mid);
    MakeApart(ts, lab, g, root, rootPhys, mid, midPhys, kpd);
    NewParents(ts, lab, g, root, rootPhys, mid, midPhys, kpd);
    forall v | v in ts && v != kpd && lab[v].level < 4 ensures exists t :: IsParent(ts', lab', t, v) {
      var t :| IsParent(ts, lab, t, v);
      ParentStays(ts, lab, g, root, rootPhys, mid, midPhys, kpd, t, v);
    }
  }

  lemma NewParents(ts: Tables, lab: Labels, g: nat, root: TableId, rootPhys: nat, mid: TableId, midPhys: nat,
                   kpd: TableId)
    requires kpd in ts && kpd in lab && lab[kpd] == KERNEL_PD_LABEL && root !in ts && mid !in ts && root != mid
    ensures var ts', lab' := MakeDirectory(ts, root, rootPhys, mid, midPhys, kpd), MakeLabels(lab, g, root, mid);
      ts'.Keys == ts.Keys + {root, mid} && IsParent(ts', lab', root, mid) && IsParent(ts', lab', mid, kpd)
  {
    hide ChildLabel;
    KernelPlace(g);
  }

  lemma ParentStays(ts: Tables, lab: Labels, g: nat, root: TableId, rootPhys: nat, mid: TableId, midPhys: nat,
                    kpd: TableId, t: TableId, v: TableId)
    requires kpd in ts && root !in ts && mid !in ts && v in ts && IsParent(ts, lab, t, v)
    ensures IsParent(MakeDirectory(ts, root, rootPhys, mid, midPhys, kpd), MakeLabels(lab, g, root, mid), t, v)
  {
    hide ChildLabel;
  }

  lemma MakeSound(ts: Tables, lab: Labels, g: nat, root: TableId, rootPhys: nat, mid: TableId, midPhys: nat,
                  kpd: TableId)
    requires CanMake(ts, lab, g, root, rootPhys, mid, midPhys, kpd)
    ensures Sound(MakeDirectory(ts, root, rootPhys, mid, midPhys, kpd), MakeLabels(lab, g, root, mid))
  {
    hide Slots, Links, Parents, Apart, Tops, Typed, MakeDirectory, MakeLabels;
    MakeApart(ts, lab, g, root, rootPhys, mid, midPhys, kpd);
    MakeSlots(ts, lab, g, root, rootPhys, mid, midPhys, kpd);
    MakeLinks(ts, lab, g, root, rootPhys, mid, midPhys, kpd);
    MakeParents(ts, lab, g, root, rootPhys, mid, midPhys, kpd);
  }

  // ----- what the new directory translates

  /** A store that only gains tables keeps every walk that starts in an old one. */
  lemma {:induction false} SameWalks(ts: Tables, ts': Tables, lab: Labels, t: TableId, level: nat, to: nat, key: nat)
    requires Typed(ts, lab) && Slots(ts, lab) && t in ts && 1 <= to <= level <= 4
    requires forall v :: v in ts ==> v in ts' && ts'[v] == ts[v]
    ensures Walk(ts', t, level, to, key) == Walk(ts, t, level, to, key)
    ensures Walk(ts, t, level, to, key).Some? ==> Walk(ts, t, level, to, key).value in ts
    decreases level
  {
    if level > to {
      assert SlotOk(ts, lab, t, Idx(level, key));
      match ts[t].next[Idx(level, key)]
      case None =>
      case Some(u) => SameWalks(ts, ts', lab, u, level - 1, to, key);
    }
  }

  lemma SameLeaf(ts: Tables, ts': Tables, lab: Labels, r: TableId, key: nat)
    requires Typed(ts, lab) && Slots(ts, lab) && r in ts
    requires forall v :: v in ts ==> v in ts' && ts'[v] == ts[v]
    ensures Leaf(ts', r, key) == Leaf(ts, r, key)
  {
    SameWalks(ts, ts', lab, r, 4, 1, key);
  }

  /** The new directory is joined to the kernel, and nothing else is mapped in it. */
  lemma MakeLeaf(ts: Tables, lab: Labels, g: nat, root: TableId, rootPhys: nat, mid: TableId, midPhys: nat,
                 kpd: TableId, key: nat)
    requires CanMake(ts, lab, g, root, rootPhys, mid, midPhys, kpd) && key < KEYS
    ensures var ts' := MakeDirectory(ts, root, rootPhys, mid, midPhys, kpd);
      Connected(ts', root, kpd) && (!IsKernelKey(key) ==> Leaf(ts', root, key) == ZERO)
  {
    hide Slots, Links, Apart;
    KernelKeyIndices(key);
    var ts' := MakeDirectory(ts, root, rootPhys, mid, midPhys, kpd);
    if Idx(4, key) == 511 {
      assert Walk(ts', root, 4, 1, key) == Walk(ts', mid, 3, 1, key);
    }
  }

  // ----- taking a directory down

  /** The place `v` is somewhere below the place `l`, in the same space. */
  predicate Under(l: Label, v: Label) {
    1 <= v.level < l.level <= 4 && v.space == l.space && v.prefix / Pow512(l.level - v.level) == l.prefix
  }

  /** The slot of `l` that leads to `v`. */
  function SlotToward(l: Label, v: Label): (i: nat)
    ensures i < SLOTS
  {
    if 1 <= v.level < l.level <= 4 then v.prefix / Pow512(l.level - 1 - v.level) % SLOTS else 0
  }

  /** At or below slot 511 of a third-level table, which the destructor passes over. */
  predicate Spared(v: Label) {
    1 <= v.level <= 2 && v.prefix / Pow512(2 - v.level) % SLOTS == 511
  }

  /** Below `l` by slot `i` is at the child of slot `i`, or below it. */
  lemma UnderSplits(l: Label, i: nat, v: Label)
    requires 2 <= l.level <= 4 && i < SLOTS && l.space.Private? && !(l.level == 3 && i == 511)
    ensures ChildLabel(l, i).space == l.space
    ensures var c := ChildLabel(l, i);
      (v == c && 1 <= v.level) || Under(c, v) <==> Under(l, v) && SlotToward(l, v) == i
  {
    hide Pow512;
    if 1 <= v.level < l.level {
      var n := l.level - 1 - v.level;
      PrefixDown(v.prefix, n);
      SlotSplits(v.prefix / Pow512(n), l.prefix, i);
    }
  }

  lemma PrefixDown(x: nat, n: nat)
    requires n < 4
    ensures Pow512(n) > 0 && Pow512(n + 1) > 0 && x / Pow512(n) / SLOTS == x / Pow512(n + 1)
    ensures n == 0 ==> x / Pow512(n) == x
  {
  }

  lemma SlotSplits(x: nat, q: nat, i: nat)
    requires i < SLOTS
    ensures x == q * SLOTS + i <==> x / SLOTS == q && x % SLOTS == i
  {
  }

  lemma SparedBelow(l: Label, i: nat, v: Label)
    requires 2 <= l.level <= 4 && i < SLOTS && l.space.Private? && Under(l, v) && SlotToward(l, v) == i
    ensures l.level == 3 && i == 511 ==> Spared(v)
    ensures l.level == 2 ==> (Spared(l) <==> Spared(v))
    ensures l.level == 3 && i != 511 ==> !Spared(v)
  {
    assert v.prefix / Pow512(1) == v.prefix / SLOTS;
  }

  /** Whatever is placed below a table hangs from one of its slots. */
  lemma {:induction false} HangsBelow(ts: Tables, lab: Labels, t: TableId, v: TableId)
    requires Sound(ts, lab) && t in ts && v in ts && lab[t].space.Private? && Under(lab[t], lab[v]) && !Spared(lab[v])
    ensures ts[t].next[SlotToward(lab[t], lab[v])].Some?
    decreases lab[t].level - lab[v].level
  {
    var l, i := lab[t], SlotToward(lab[t], lab[v]);
    SparedBelow(l, i, lab[v]);
    if lab[v].level == l.level - 1 {
      UnderSplits(l, i, lab[v]);
      assert LinkOk(ts, lab, t, i, v);
    } else {
      var w :| IsParent(ts, lab, w, v);
      ParentUnder(l, lab[w], lab[v]);
      HangsBelow(ts, lab, t, w);
    }
  }

  lemma ParentUnder(l: Label, w: Label, v: Label)
    requires Under(l, v) && l.space.Private? && v.level < l.level - 1 && !Spared(v)
    requires w.level > 1 && ChildLabel(w, v.prefix % SLOTS) == v
    ensures Under(l, w) && SlotToward(l, w) == SlotToward(l, v) && !Spared(w)
  {
    SlotOfPrefix(w.prefix, v.prefix % SLOTS);
    DivTwice(v.prefix, l.level - w.level);
    DivTwice(v.prefix, l.level - 1 - w.level);
    if w.level <= 2 {
      DivTwice(v.prefix, 2 - w.level);
    }
  }

  lemma DivTwice(x: nat, k: nat)
    requires k <= 3
    ensures x / SLOTS / Pow512(k) == x / Pow512(k + 1)
  {
  }

  /** Exactly the tables that the destructor of the table at `l` gives back. */
  ghost predicate BelongsBelow(ts: Tables, lab: Labels, l: Label, v: TableId) {
    v in ts && v in lab && Under(l, lab[v]) && !Spared(lab[v])
  }

  /** One turn of the destructor's loop: what hangs from slot `i` and everything below it. */
  lemma SlotFreed(ts: Tables, lab: Labels, t: TableId, i: nat, u: TableId, v: TableId)
    requires Sound(ts, lab) && t in ts && lab[t].level > 1 && lab[t].space.Private? && i < SLOTS
    requires !(lab[t].level == 3 && i == 511) && !Spared(lab[t]) && ts[t].next[i] == Some(u)
    ensures u in ts && lab[u] == ChildLabel(lab[t], i) && !Spared(lab[u])
    ensures v == u || BelongsBelow(ts, lab, lab[u], v) <==>
      BelongsBelow(ts, lab, lab[t], v) && SlotToward(lab[t], lab[v]) == i
    ensures !BelongsBelow(ts, lab, lab[u], u)
  {
    assert SlotOk(ts, lab, t, i);
    UnderSplits(lab[t], i, lab[u]);
    SparedBelow(lab[t], i, lab[u]);
    if v in ts {
      UnderSplits(lab[t], i, lab[v]);
    }
  }

  lemma SlotSkipped(ts: Tables, lab: Labels, t: TableId, i: nat, v: TableId)
    requires Sound(ts, lab) && t in ts && lab[t].level > 1 && lab[t].space.Private? && i < SLOTS
    requires (lab[t].level == 3 && i == 511) || ts[t].next[i].None?
    requires BelongsBelow(ts, lab, lab[t], v)
    ensures SlotToward(lab[t], lab[v]) != i
  {
    if SlotToward(lab[t], lab[v]) == i {
      SparedBelow(lab[t], i, lab[v]);
      HangsBelow(ts, lab, t, v);
    }
  }

  /** The tables below `t` by a slot under `i`. */
  ghost predicate FreedUpTo(ts: Tables, lab: Labels, t: TableId, i: nat, freed: seq<TableId>)
    requires t in lab
  {
    Distinct(freed) && forall v :: v in freed <==> BelongsBelow(ts, lab, lab[t], v) && SlotToward(lab[t], lab[v]) < i
  }

  lemma FreeSlot(ts: Tables, lab: Labels, t: TableId, i: nat, u: TableId, freed: seq<TableId>, sub: seq<TableId>)
    requires Sound(ts, lab) && t in ts && lab[t].level > 1 && lab[t].space.Private? && i < SLOTS
    requires !(lab[t].level == 3 && i == 511) && !Spared(lab[t]) && ts[t].next[i] == Some(u)
    requires FreedUpTo(ts, lab, t, i, freed) && Distinct(sub)
    requires u in lab && forall v :: v in sub <==> BelongsBelow(ts, lab, lab[u], v)
    ensures FreedUpTo(ts, lab, t, i + 1, freed + sub + [u])
  {
    hide Slots, Links, Parents, Apart, Tops, Under, Spared, SlotToward, ChildLabel;
    var freed' := freed + sub + [u];
    forall v
      ensures v == u || BelongsBelow(ts, lab, lab[u], v) <==>
        BelongsBelow(ts, lab, lab[t], v) && SlotToward(lab[t], lab[v]) == i
    {
      SlotFreed(ts, lab, t, i, u, v);
    }
    SlotFreed(ts, lab, t, i, u, u);
    DisjointJoin(freed, sub, u);
  }

  lemma DisjointJoin(a: seq<TableId>, b: seq<TableId>, u: TableId)
    requires Distinct(a) && Distinct(b) && u !in a && u !in b && forall v :: v in a ==> v !in b
    ensures Distinct(a + b + [u])
  {
    var s := a + b + [u];
    forall i, j | 0 <= i < j < |s| ensures s[i] != s[j] {
      if i < |a| {
        assert s[i] in a;
        assert |a| <= j < |a| + |b| ==> s[j] in b;
      } else if j == |a| + |b| {
        assert s[i] in b;
      }
    }
  }

  lemma SkipSlot(ts: Tables, lab: Labels, t: TableId, i: nat, freed: seq<TableId>)
    requires Sound(ts, lab) && t in ts && lab[t].level > 1 && lab[t].space.Private? && i < SLOTS
    requires (lab[t].level == 3 && i == 511) || ts[t].next[i].None?
    requires FreedUpTo(ts, lab, t, i, freed)
    ensures FreedUpTo(ts, lab, t, i + 1, freed)
  {
    hide Slots, Links, Parents, Apart, Tops, Under, Spared, SlotToward, ChildLabel;
    forall v | BelongsBelow(ts, lab, lab[t], v) ensures SlotToward(lab[t], lab[v]) != i {
      SlotSkipped(ts, lab, t, i, v);
    }
  }

  /** The destructor gives back every table below `t` once, except below the slots it passes
      over. */
  method Destruct(ts: Tables, ghost lab: Labels, t: TableId, level: nat) returns (freed: seq<TableId>)
    requires Sound(ts, lab) && t in ts && lab[t].level == level && lab[t].space.Private? && !Spared(lab[t])
    ensures Distinct(freed)
    ensures forall v :: v in freed <==> BelongsBelow(ts, lab, lab[t], v)
    decreases level
  {
    freed := [];
    if level == 1 {
      return;
    }
    var i := 0;
    while i < SLOTS
      invariant 0 <= i <= SLOTS && FreedUpTo(ts, lab, t, i, freed)
    {
      if !(level == 3 && i == 511) && ts[t].next[i].Some? {
        var u := ts[t].next[i].value;
        SlotFreed(ts, lab, t, i, u, u);
        var sub := Destruct(ts, lab, u, level - 1);
        FreeSlot(ts, lab, t, i, u, freed, sub);
        freed := freed + sub + [u];
      } else {
        SkipSlot(ts, lab, t, i, freed);
      }
      i := i + 1;
    }
  }

  lemma RootAbove(l: Label, w: Label, v: Label)
    requires l.level == 4 && l.prefix == 0 && l.space.Private? && (w == l || Under(l, w))
    requires w.level > 1 && ChildLabel(w, v.prefix % SLOTS) == v && v.space == l.space && 1 <= v.level
    ensures Under(l, v)
  {
    assert w.prefix == v.prefix / SLOTS;
  }

  /** Every table of a space is below its root. */
  lemma {:induction false} PrivateIsBelowRoot(ts: Tables, lab: Labels, g: nat, root: TableId, v: TableId)
    requires Sound(ts, lab) && IsRoot(ts, lab, g, root) && v in ts
    ensures lab[v].space == Private(g) && v != root <==> Under(lab[root], lab[v])
    decreases 4 - lab[v].level
  {
    if lab[v].space == Private(g) && lab[v].level < 4 {
      var w :| IsParent(ts, lab, w, v);
      PrivateIsBelowRoot(ts, lab, g, root, w);
      RootAbove(lab[root], lab[w], lab[v]);
    }
  }

  /** `release`: the destructor of the root, then the root itself. */
  method Release(ts: Tables, ghost lab: Labels, ghost g: nat, root: TableId) returns (freed: seq<TableId>)
    requires Sound(ts, lab) && IsRoot(ts, lab, g, root)
    ensures Distinct(freed)
    ensures forall v :: v in freed <==> v in ts && lab[v].space == Private(g) && !Spared(lab[v])
  {
    freed := Destruct(ts, lab, root, 4);
    assert root !in freed;
    DisjointJoin(freed, [], root);
    assert freed + [] + [root] == freed + [root];
    freed := freed + [root];
    forall v | v in ts
      ensures BelongsBelow(ts, lab, lab[root], v) || v == root <==> lab[v].space == Private(g) && !Spared(lab[v])
    {
      PrivateIsBelowRoot(ts, lab, g, root, v);
    }
  }

  // ----- what is left

  /** No table that some directory still walks through is given back when another goes. */
  lemma FreedNotReachable(ts: Tables, lab: Labels, g: nat, v: TableId, g': nat, root: TableId, to: nat, key: nat)
    requires Sound(ts, lab) && v in ts && lab[v].space == Private(g) && g != g'
    requires IsRoot(ts, lab, g', root) && 1 <= to <= 4 && key < KEYS
    ensures Walk(ts, root, 4, to, key) != Some(v)
  {
    RootOnPath(g', key);
    WalkFollowsLabels(ts, lab, root, 4, to, g', key);
  }

  function WithoutSpace(ts: Tables, lab: Labels, g: nat): Tables
    requires Typed(ts, lab)
  {
    map t | t in ts && lab[t].space != Private(g) :: ts[t]
  }

  /** The tables of the other spaces still form a sound store. */
  lemma DropSound(ts: Tables, lab: Labels, g: nat, g': nat, root: TableId, kpd: TableId)
    requires Sound(ts, lab) && g != g' && IsRoot(ts, lab, g', root) && Connected(ts, root, kpd)
    ensures Sound(WithoutSpace(ts, lab, g), lab)
  {
    var ts' := WithoutSpace(ts, lab, g);
    DropSlots(ts, lab, g);
    forall t, i, v | t in ts' && 0 <= i < SLOTS && v in ts' ensures LinkOk(ts', lab, t, i, v) {
      assert LinkOk(ts, lab, t, i, v);
    }
    DropParents(ts, lab, g, g', root, kpd);
  }

  lemma DropSlots(ts: Tables, lab: Labels, g: nat)
    requires Typed(ts, lab) && Slots(ts, lab)
    ensures Typed(WithoutSpace(ts, lab, g), lab) && Slots(WithoutSpace(ts, lab, g), lab)
  {
    var ts' := WithoutSpace(ts, lab, g);
    forall t, i | t in ts' && 0 <= i < SLOTS ensures SlotOk(ts', lab, t, i) {
      assert SlotOk(ts, lab, t, i);
    }
  }

  lemma DropParents(ts: Tables, lab: Labels, g: nat, g': nat, root: TableId, kpd: TableId)
    requires Sound(ts, lab) && g != g' && IsRoot(ts, lab, g', root) && Connected(ts, root, kpd)
    ensures Typed(WithoutSpace(ts, lab, g), lab) && Parents(WithoutSpace(ts, lab, g), lab)
  {
    var ts' := WithoutSpace(ts, lab, g);
    forall v | v in ts' && lab[v].level < 4 ensures exists t :: IsParent(ts', lab, t, v) {
      if lab[v] == KERNEL_PD_LABEL {
        var p := ts[root].next[511].value;
        assert SlotOk(ts, lab, root, 511);
        assert IsParent(ts', lab, p, v);
      } else {
        var t :| IsParent(ts, lab, t, v);
        assert IsParent(ts', lab, t, v);
      }
    }
  }
}
