/** Page-table entries, their attributes, and the split of a virtual address into four
    table indices: source/PageDirectory.hpp and the index functions of source/PageManager.hpp. */
module PageEntry {

  const SLOTS: nat := 512
  const KEYS: nat := 0x10_0000_0000            // 2^36 pages of 2^12 bytes
  const LOWER_KEYS: nat := 0x8_0000_0000       // the lower half, user space
  const KERNEL_KEY: nat := 0xF_FFFC_0000       // page of 0xffffffffc0000000
  const KERNEL_PD: nat := 0x3_FFFF             // the top 1 GB: slot 511 below slot 511
  const INVALID_PAGE: nat := 0xFF_FFFF_FFFF    // 2^40 - 1

  datatype Entry = Entry(p: bool, rw: bool, us: bool, nx: bool, base: nat)

  const ZERO: Entry := Entry(false, false, false, false, 0)

  datatype Attr = Attr(rw: bool, public: bool, noexec: bool, defer: bool)

  function GetAttributes(e: Entry): Attr {
    Attr(e.rw, e.us, e.nx, !e.p && e.base == INVALID_PAGE)
  }

  /** Present, or marked for allocation on first use. */
  predicate IsValid(e: Entry) {
    e.p || e.base == INVALID_PAGE
  }

  /** The attribute setter only ever sets rights; deferring clears the present bit. */
  function SetAttributes(e: Entry, a: Attr): Entry {
    Entry(e.p && !a.defer, e.rw || a.rw, e.us || a.public, e.nx || a.noexec, e.base)
  }

  function MapEntry(e: Entry, frame: nat, a: Attr): Entry {
    SetAttributes(e.(p := true, base := frame), a)
  }

  /** Unmapping clears the present bit and the frame, and leaves the rights behind. */
  function UnmapEntry(e: Entry): Entry {
    e.(p := false, base := 0)
  }

  function FaultEntry(e: Entry, frame: nat): Entry {
    e.(p := true, base := frame)
  }

  /** Rights that a slot still carries from an earlier mapping. */
  predicate StaleWithin(e: Entry, a: Attr) {
    (e.rw ==> a.rw) && (e.us ==> a.public) && (e.nx ==> a.noexec)
  }

  /** The attributes read back are the ones given exactly when the slot carries no other
      rights from before; a slot never mapped carries none. */
  lemma AttributesReadBack(e: Entry, frame: nat, a: Attr)
    requires a.defer <==> frame == INVALID_PAGE
    ensures GetAttributes(MapEntry(e, frame, a)) == a <==> StaleWithin(e, a)
    ensures GetAttributes(MapEntry(ZERO, frame, a)) == a
  {
  }

  /** A writable mapping leaves its right behind for the read-only one that follows. */
  lemma StaleRightsSurvive()
    ensures var readOnly := Attr(false, true, true, false);
      var e := UnmapEntry(MapEntry(ZERO, 1, Attr(true, true, true, false)));
      !e.p && GetAttributes(MapEntry(e, 2, readOnly)) != readOnly
  {
  }

  // ----- keys and indices; level 4 is the root

  function Pow512(level: nat): nat
    requires level <= 4
  {
    match level
    case 0 => 1
    case 1 => 512
    case 2 => 0x4_0000
    case 3 => 0x800_0000
    case 4 => KEYS
  }

  /** The slot that page `key` uses in its table at `level`. */
  function Idx(level: nat, key: nat): (i: nat)
    requires 1 <= level <= 4
    ensures i < SLOTS
  {
    key / Pow512(level - 1) % SLOTS
  }

  /** Names the table at `level` on the path of `key`. */
  function Prefix(level: nat, key: nat): nat
    requires level <= 4
  {
    key / Pow512(level)
  }

  predicate IsKernelKey(key: nat) {
    Prefix(2, key) == KERNEL_PD
  }

  lemma PrefixStep(level: nat, key: nat)
    requires 1 <= level <= 4
    ensures Prefix(level - 1, key) == Prefix(level, key) * SLOTS + Idx(level, key)
  {
  }

  /** The kernel gigabyte is where both upper indices are 511. */
  lemma KernelKeyIndices(key: nat)
    requires key < KEYS
    ensures IsKernelKey(key) <==> Idx(4, key) == 511 && Idx(3, key) == 511
    ensures IsKernelKey(key) <==> key >= KERNEL_KEY
  {
    PrefixStep(4, key);
    PrefixStep(3, key);
  }

  // ----- addresses

  /** Bits 12 to 47 of an address. */
  function KeyOf(vaddr: nat): nat {
    vaddr / 0x1000 % KEYS
  }

  /** Page number and offset make up the low 48 bits of every address, aligned or not. */
  lemma AddressSplit(vaddr: nat)
    ensures KeyOf(vaddr) < KEYS
    ensures KeyOf(vaddr) * 0x1000 + vaddr % 0x1000 == vaddr % 0x1_0000_0000_0000
  {
    var low := vaddr % 0x1_0000_0000_0000;
    var high := vaddr / 0x1_0000_0000_0000;
    assert vaddr == (high * KEYS + low / 0x1000) * 0x1000 + low % 0x1000;
    PageIs(vaddr, high * KEYS + low / 0x1000, low % 0x1000);
    KeyIs(high * KEYS + low / 0x1000, high, low / 0x1000);
  }

  lemma PageIs(x: nat, q: nat, r: nat)
    requires x == q * 0x1000 + r && r < 0x1000
    ensures x / 0x1000 == q && x % 0x1000 == r
  {
  }

  lemma KeyIs(x: nat, q: nat, r: nat)
    requires x == q * KEYS + r && r < KEYS
    ensures x % KEYS == r
  {
  }

  /** All the addresses of a page belong to it. */
  lemma WithinPage(vaddr: nat, offset: nat)
    requires vaddr % 0x1000 == 0 && offset < 0x1000
    ensures KeyOf(vaddr + offset) == KeyOf(vaddr)
  {
    PageIs(vaddr + offset, vaddr / 0x1000, offset);
  }

  /** The top 16 bits repeat bit 47. */
  function ExtendSign(a: nat): nat
    requires a < 0x1_0000_0000_0000
  {
    if a >= 0x8000_0000_0000 then a + 0xFFFF_0000_0000_0000 else a
  }

  /** The address put together from four indices; the fields do not overlap, so the source's
      bitwise or of them is their sum. */
  function AddressOf(i4: nat, i3: nat, i2: nat, i1: nat): nat
    requires i4 < SLOTS && i3 < SLOTS && i2 < SLOTS && i1 < SLOTS
  {
    ExtendSign(i4 * 0x80_0000_0000) + i3 * 0x4000_0000 + i2 * 0x20_0000 + i1 * 0x1000
  }

  predicate Canonical(vaddr: nat) {
    vaddr < 0x8000_0000_0000 || 0xFFFF_8000_0000_0000 <= vaddr < 0x1_0000_0000_0000_0000
  }

  function KeyFrom(i4: nat, i3: nat, i2: nat, i1: nat): nat {
    i4 * 0x800_0000 + i3 * 0x4_0000 + i2 * 512 + i1
  }

  /** Splitting a key and putting it together again, both ways. */
  lemma IndicesRoundTrip(i4: nat, i3: nat, i2: nat, i1: nat)
    requires i4 < SLOTS && i3 < SLOTS && i2 < SLOTS && i1 < SLOTS
    ensures var key := KeyFrom(i4, i3, i2, i1);
      key < KEYS && Idx(4, key) == i4 && Idx(3, key) == i3 && Idx(2, key) == i2 && Idx(1, key) == i1
  {
    var key := KeyFrom(i4, i3, i2, i1);
    SlotIs(key, i4 * 0x4_0000 + i3 * 512 + i2, i1);
    SlotIs(key / 512, i4 * 512 + i3, i2);
    SlotIs(key / 512 / 512, i4, i3);
    SlotIs(i4, 0, i4);
    Shifts(key);
  }

  lemma SlotIs(x: nat, q: nat, r: nat)
    requires x == 512 * q + r && r < 512
    ensures x / 512 == q && x % 512 == r
  {
  }

  lemma Shifts(x: nat)
    ensures x / 512 / 512 == x / 0x4_0000
    ensures x / 512 / 512 / 512 == x / 0x800_0000
  {
  }

  lemma KeyRoundTrip(key: nat)
    requires key < KEYS
    ensures KeyFrom(Idx(4, key), Idx(3, key), Idx(2, key), Idx(1, key)) == key
  {
    hide Idx;
    PrefixStep(4, key);
    PrefixStep(3, key);
    PrefixStep(2, key);
    PrefixStep(1, key);
  }

  /** Page number of a page of the upper half, with its sign bits. */
  const UPPER_PAGES: nat := 0xF_FFF0_0000_0000    // 0xFFFF * KEYS

  lemma PageOfAddress(page: nat)
    ensures page * 0x1000 / 0x1000 == page && page * 0x1000 % 0x1000 == 0
  {
  }

  lemma SignBitsDrop(key: nat)
    requires key < KEYS
    ensures (key + UPPER_PAGES) % KEYS == key
  {
    assert key + UPPER_PAGES == key + 0xFFFF * KEYS;
  }

  lemma AddressIs(i4: nat, i3: nat, i2: nat, i1: nat)
    requires i4 < SLOTS && i3 < SLOTS && i2 < SLOTS && i1 < SLOTS
    ensures AddressOf(i4, i3, i2, i1) == (KeyFrom(i4, i3, i2, i1) + if i4 >= 256 then UPPER_PAGES else 0) * 0x1000
    ensures i4 >= 256 <==> KeyFrom(i4, i3, i2, i1) >= LOWER_KEYS
    ensures KeyFrom(i4, i3, i2, i1) < KEYS
  {
  }

  /** The rebuilt address is canonical, page aligned, and belongs to the key of its indices;
      the indices of a canonical page address rebuild that address. */
  lemma AddressRoundTrip(i4: nat, i3: nat, i2: nat, i1: nat)
    requires i4 < SLOTS && i3 < SLOTS && i2 < SLOTS && i1 < SLOTS
    ensures var a := AddressOf(i4, i3, i2, i1);
      Canonical(a) && a % 0x1000 == 0 && KeyOf(a) == KeyFrom(i4, i3, i2, i1)
  {
    hide AddressOf, KeyFrom;
    AddressIs(i4, i3, i2, i1);
    var key := KeyFrom(i4, i3, i2, i1);
    if i4 >= 256 {
      PageOfAddress(key + UPPER_PAGES);
      SignBitsDrop(key);
    } else {
      PageOfAddress(key);
    }
  }

  lemma CanonicalRebuilt(vaddr: nat)
    requires Canonical(vaddr) && vaddr % 0x1000 == 0
    ensures var key := KeyOf(vaddr); AddressOf(Idx(4, key), Idx(3, key), Idx(2, key), Idx(1, key)) == vaddr
  {
    hide AddressOf, KeyFrom, Idx;
    var page, key := vaddr / 0x1000, KeyOf(vaddr);
    if vaddr >= 0x8000_0000_0000 {
      SignBitsDrop(page - UPPER_PAGES);
    }
    KeyRoundTrip(key);
    AddressIs(Idx(4, key), Idx(3, key), Idx(2, key), Idx(1, key));
  }
}
