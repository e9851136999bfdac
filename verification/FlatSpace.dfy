/** What the page tables stand for: for every directory a flat map from 36-bit page number
    to the entry that decides its translation. */
module FlatSpace {
  import opened PageEntry

  type FlatMap = map<nat, Entry>
  type Spaces = map<nat, FlatMap>

  ghost predicate Full(sp: FlatMap) {
    forall k: nat :: k in sp <==> k < KEYS
  }

  /** Every directory is a full map, and all of them agree on the kernel gigabyte. */
  ghost predicate Coherent(ss: Spaces) {
    && (forall d :: d in ss ==> Full(ss[d]))
    && (forall d, d', k: nat :: d in ss && d' in ss && k < KEYS && IsKernelKey(k) ==> ss[d][k] == ss[d'][k])
  }

  /** Writing the entry of page `k` through directory `d`. */
  function SetEntry(ss: Spaces, d: nat, k: nat, e: Entry): Spaces {
    map x | x in ss :: if x == d || IsKernelKey(k) then ss[x][k := e] else ss[x]
  }

  /** A directory as `mapKernel` leaves it: the kernel gigabyte and nothing else. */
  function KernelOnly(kernel: FlatMap): FlatMap {
    map k | k in kernel :: if IsKernelKey(k) then kernel[k] else ZERO
  }

  lemma SetEntryCoherent(ss: Spaces, d: nat, k: nat, e: Entry)
    requires Coherent(ss) && d in ss && k < KEYS
    ensures Coherent(SetEntry(ss, d, k, e))
  {
  }

  lemma KernelOnlyCoherent(ss: Spaces, d: nat, kernel: nat)
    requires Coherent(ss) && kernel in ss
    ensures Coherent(ss[d := KernelOnly(ss[kernel])])
  {
    var ss' := ss[d := KernelOnly(ss[kernel])];
    forall x, x', k: nat | x in ss' && x' in ss' && k < KEYS && IsKernelKey(k) ensures ss'[x][k] == ss'[x'][k] {
      assert x != d ==> ss[x][k] == ss[kernel][k];
      assert x' != d ==> ss[x'][k] == ss[kernel][k];
    }
  }
}
