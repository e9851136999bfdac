/** `forEachUserPage` of source/PageDirectory.cpp: the walk over the lower half. */
module UserPages {
  import opened Common
  import opened PageEntry
  import opened RadixTree

  const UPPER_LIMIT: nat := 0xffff_0000_0000

  /** A page to be visited: valid, below the table `t`, in the lower half. */
  predicate ToVisit(ts: Tables, t: TableId, level: nat, prefix: nat, key: nat)
    requires 1 <= level <= 4
  {
    key < LOWER_KEYS && Prefix(level, key) == prefix && IsValid(EntryBelow(ts, t, level, key))
  }

  ghost predicate Ascending(s: seq<nat>) {
    forall i, j :: 0 <= i < j < |s| ==> s[i] < s[j]
  }

  /** Pages are compared by their slot in the table they share, then further down. */
  lemma SlotOrder(level: nat, prefix: nat, k: nat, k': nat)
    requires 1 <= level <= 4 && Prefix(level, k) == prefix == Prefix(level, k') && Idx(level, k) < Idx(level, k')
    ensures k < k'
  {
    PrefixStep(level, k);
    PrefixStep(level, k');
  }

  /** Below slot `i` of `t` are the pages below the table it points to. */
  lemma BelowSlot(ts: Tables, lab: Labels, t: TableId, level: nat, prefix: nat, i: nat, key: nat)
    requires Typed(ts, lab) && t in ts && 2 <= level <= 4 && i < SLOTS
    ensures ToVisit(ts, t, level, prefix, key) && Idx(level, key) == i <==>
      ts[t].next[i].Some? && ToVisit(ts, ts[t].next[i].value, level - 1, prefix * SLOTS + i, key)
  {
    PrefixStep(level, key);
    SlotOfPrefix(prefix, i);
    SlotOfPrefix(Prefix(level, key), Idx(level, key));
  }

  /** The pages below the slots before `i`. */
  ghost predicate VisitedBefore(ts: Tables, t: TableId, level: nat, prefix: nat, i: nat, keys: seq<nat>)
    requires 1 <= level <= 4
  {
    Ascending(keys) && forall k: nat :: k in keys <==> ToVisit(ts, t, level, prefix, k) && Idx(level, k) < i
  }

  lemma JoinVisits(ts: Tables, lab: Labels, t: TableId, level: nat, prefix: nat, i: nat, keys: seq<nat>, more: seq<nat>)
    requires Typed(ts, lab) && t in ts && 1 <= level <= 4 && i < SLOTS
    requires VisitedBefore(ts, t, level, prefix, i, keys) && FoundAt(ts, t, level, prefix, i, more)
    ensures VisitedBefore(ts, t, level, prefix, i + 1, keys + more)
  {
    hide Typed, Idx, Prefix, IsValid, EntryBelow;
    var all := keys + more;
    forall x, y | 0 <= x < y < |all| ensures all[x] < all[y] {
      if x < |keys| <= y {
        assert all[x] in keys && all[y] in more;
        SlotOrder(level, prefix, all[x], all[y]);
      }
    }
  }

  /** The offset of a slot within the address range of its table. */
  function AddressFromIndex(level: nat, i: nat): nat
    requires 1 <= level <= 4
  {
    i * Pow512(level - 1) * 0x1000
  }

  /** Where the address of a table of the lower half starts. */
  function Start(level: nat, prefix: nat): nat
    requires level <= 4
  {
    prefix * Pow512(level) * 0x1000
  }

  lemma StartStep(level: nat, prefix: nat, i: nat)
    requires 1 <= level <= 4
    ensures Start(level - 1, prefix * SLOTS + i) == Start(level, prefix) + AddressFromIndex(level, i)
  {
  }

  /** The address that the walk has put together on the way to a table. */
  predicate AddressSoFar(level: nat, prefix: nat, addr: nat)
    requires 1 <= level <= 4
  {
    if level == 4 then prefix == 0 && addr == 0
    else if level == 3 && prefix >= 256 then addr >= 0xffff_8000_0000_0000
    else addr == Start(level, prefix) && addr < 0x8000_0000_0000
  }

  /** What the walk adds for slot `i`; the root's part has its sign extended. */
  function AddressPart(level: nat, i: nat): nat
    requires 1 <= level <= 4 && i < SLOTS
  {
    if level == 4 then ExtendSign(AddressFromIndex(4, i)) else AddressFromIndex(level, i)
  }

  /** The walk passes over exactly the upper half. */
  lemma NextAddress(level: nat, prefix: nat, addr: nat, i: nat)
    requires 1 <= level <= 4 && i < SLOTS && AddressSoFar(level, prefix, addr)
    ensures level == 3 ==> (addr + AddressPart(3, i) >= UPPER_LIMIT <==> prefix >= 256)
    ensures level > 1 && !(level == 3 && prefix >= 256) ==>
      AddressSoFar(level - 1, prefix * SLOTS + i, addr + AddressPart(level, i))
    ensures level == 1 ==> addr + AddressPart(1, i) == (prefix * SLOTS + i) * 0x1000 && prefix * SLOTS + i < LOWER_KEYS
  {
    hide Start, AddressFromIndex, Pow512;
    if level == 4 {
      BelowRoot(i);
    } else if level == 3 && prefix < 256 {
      BelowThird(prefix, i);
    } else if level == 2 {
      BelowSecond(prefix, i);
    } else if level == 1 {
      BelowFirst(prefix, i);
    }
  }

  lemma BelowRoot(i: nat)
    requires i < SLOTS
    ensures AddressSoFar(3, i, ExtendSign(AddressFromIndex(4, i)))
  {
  }

  lemma BelowThird(prefix: nat, i: nat)
    requires prefix < 256 && i < SLOTS
    ensures Start(2, prefix * SLOTS + i) == Start(3, prefix) + AddressFromIndex(3, i) < 0x8000_0000_0000
  {
    StartStep(3, prefix, i);
  }

  lemma BelowSecond(prefix: nat, i: nat)
    requires Start(2, prefix) < 0x8000_0000_0000 && i < SLOTS
    ensures Start(1, prefix * SLOTS + i) == Start(2, prefix) + AddressFromIndex(2, i) < 0x8000_0000_0000
  {
    StartStep(2, prefix, i);
  }

  lemma BelowFirst(prefix: nat, i: nat)
    requires Start(1, prefix) < 0x8000_0000_0000 && i < SLOTS
    ensures Start(1, prefix) + AddressFromIndex(1, i) == (prefix * SLOTS + i) * 0x1000
    ensures prefix * SLOTS + i < LOWER_KEYS
  {
    StartStep(1, prefix, i);
  }

  lemma UpperNotVisited(ts: Tables, t: TableId, prefix: nat, key: nat)
    requires prefix >= 256
    ensures !ToVisit(ts, t, 3, prefix, key)
  {
  }

  lemma LastSlot(ts: Tables, lab: Labels, t: TableId, prefix: nat, i: nat, key: nat)
    requires Typed(ts, lab) && t in ts && i < SLOTS && prefix * SLOTS + i < LOWER_KEYS
    ensures ToVisit(ts, t, 1, prefix, key) && Idx(1, key) == i <==>
      key == prefix * SLOTS + i && IsValid(ts[t].entries[i])
  {
    PrefixStep(1, key);
    SlotOfPrefix(prefix, i);
  }

  predicate AddressesOf(addrs: seq<nat>, keys: seq<nat>) {
    |addrs| == |keys| && forall j :: 0 <= j < |addrs| ==> addrs[j] == keys[j] * 0x1000
  }

  /** The pages below slot `i`, found by the recursive call or at the last level. */
  ghost predicate FoundAt(ts: Tables, t: TableId, level: nat, prefix: nat, i: nat, more: seq<nat>)
    requires 1 <= level <= 4
  {
    Ascending(more) && forall k: nat :: k in more <==> ToVisit(ts, t, level, prefix, k) && Idx(level, k) == i
  }

  lemma FoundNothing(ts: Tables, lab: Labels, t: TableId, level: nat, prefix: nat, i: nat)
    requires Typed(ts, lab) && t in ts && 2 <= level <= 4 && i < SLOTS
    requires (level == 3 && prefix >= 256) || ts[t].next[i].None?
    ensures FoundAt(ts, t, level, prefix, i, [])
  {
    forall k: nat ensures !(ToVisit(ts, t, level, prefix, k) && Idx(level, k) == i) {
      BelowSlot(ts, lab, t, level, prefix, i, k);
      if level == 3 && prefix >= 256 {
        UpperNotVisited(ts, t, prefix, k);
      }
    }
  }

  lemma FoundBelow(ts: Tables, lab: Labels, t: TableId, level: nat, prefix: nat, i: nat, more: seq<nat>)
    requires Typed(ts, lab) && t in ts && 2 <= level <= 4 && i < SLOTS && ts[t].next[i].Some? && Ascending(more)
    requires forall k: nat :: k in more <==> ToVisit(ts, ts[t].next[i].value, level - 1, prefix * SLOTS + i, k)
    ensures FoundAt(ts, t, level, prefix, i, more)
  {
    forall k: nat ensures k in more <==> ToVisit(ts, t, level, prefix, k) && Idx(level, k) == i {
      BelowSlot(ts, lab, t, level, prefix, i, k);
    }
  }

  lemma FoundLast(ts: Tables, lab: Labels, t: TableId, prefix: nat, i: nat)
    requires Typed(ts, lab) && t in ts && i < SLOTS && prefix * SLOTS + i < LOWER_KEYS
    ensures FoundAt(ts, t, 1, prefix, i, if IsValid(ts[t].entries[i]) then [prefix * SLOTS + i] else [])
  {
    forall k: nat
      ensures ToVisit(ts, t, 1, prefix, k) && Idx(1, k) == i <==> k == prefix * SLOTS + i && IsValid(ts[t].entries[i])
    {
      LastSlot(ts, lab, t, prefix, i, k);
    }
  }

  /** Every valid page below `t` once, in ascending order, with its address. */
  method Visit(ts: Tables, ghost lab: Labels, t: TableId, level: nat, addr: nat, ghost prefix: nat)
    returns (addrs: seq<nat>, ghost keys: seq<nat>)
    requires Typed(ts, lab) && Slots(ts, lab) && t in ts && lab[t].level == level
    requires AddressSoFar(level, prefix, addr)
    ensures AddressesOf(addrs, keys) && Ascending(keys)
    ensures forall k: nat :: k in keys <==> ToVisit(ts, t, level, prefix, k)
    decreases level
  {
    hide ToVisit, AddressSoFar, AddressPart, ChildLabel;
    addrs, keys := [], [];
    var i := 0;
    while i < SLOTS
      invariant 0 <= i <= SLOTS && AddressesOf(addrs, keys) && VisitedBefore(ts, t, level, prefix, i, keys)
    {
      var here := addr + AddressPart(level, i);
      NextAddress(level, prefix, addr, i);
      ghost var more := [];
      if level == 1 {
        FoundLast(ts, lab, t, prefix, i);
        if IsValid(ts[t].entries[i]) {
          addrs := addrs + [here];
          more := [prefix * SLOTS + i];
        }
      } else if (level == 3 && here >= UPPER_LIMIT) || ts[t].next[i].None? {
        FoundNothing(ts, lab, t, level, prefix, i);
      } else {
        assert SlotOk(ts, lab, t, i);
        LevelBelow(lab[t], i);
        var sub, subKeys := Visit(ts, lab, ts[t].next[i].value, level - 1, here, prefix * SLOTS + i);
        FoundBelow(ts, lab, t, level, prefix, i, subKeys);
        addrs, more := addrs + sub, subKeys;
      }
      JoinVisits(ts, lab, t, level, prefix, i, keys, more);
      keys := keys + more;
      i := i + 1;
    }
  }

  lemma LevelBelow(l: Label, i: nat)
    requires l.level >= 1
    ensures ChildLabel(l, i).level == l.level - 1
  {
  }
}
