/** The physical frame bitmap of source/Memory.cpp. */
module FrameMemory {

  function UsedFrames(frames: seq<bool>): set<nat> {
    set i | 0 <= i < |frames| && frames[i]
  }

  function Above(used: set<nat>, n: nat): set<nat> {
    set x | x in used && x >= n
  }

  function LowestFrom(used: set<nat>, n: nat): (r: nat)
    ensures n <= r && r !in used && forall k :: n <= k < r ==> k in used
    decreases |Above(used, n)|
  {
    if n in used then
      assert Above(used, n + 1) + {n} == Above(used, n);
      assert n !in Above(used, n + 1);
      LowestFrom(used, n + 1)
    else n
  }

  /** The lowest number that is not in use. */
  function NextFree(used: set<nat>): (n: nat)
    ensures n !in used && forall k :: 0 <= k < n ==> k in used
  {
    LowestFrom(used, 0)
  }

  /** Frame numbers stay small: everything below the lowest free frame is in use. */
  lemma NextFreeBound(used: set<nat>)
    ensures NextFree(used) <= |used|
  {
    Below(used, NextFree(used));
  }

  lemma {:induction false} Below(used: set<nat>, n: nat)
    requires forall k :: 0 <= k < n ==> k in used
    ensures n <= |used|
    decreases n
  {
    if n > 0 {
      var rest := used - {n - 1};
      assert |rest| == |used| - 1;
      Below(rest, n - 1);
    }
  }

  function AlignUp16(n: nat): nat {
    (n + 15) / 16 * 16
  }

  function Cleared(n: nat): seq<bool> {
    seq(n, _ => false)
  }

  class Memory {
    var frames: seq<bool>
    var usedPageCount: nat

    ghost function Used(): set<nat>
      reads this
    {
      UsedFrames(frames)
    }

    /** The counter is the number of used frames. */
    ghost predicate Valid()
      reads this
    {
      usedPageCount == |Used()|
    }

    constructor ()
      ensures Valid() && Used() == {}
    {
      frames, usedPageCount := [], 0;
    }

    method SetPageUsed(page: nat)
      requires Valid() && page !in Used()
      modifies this
      ensures Valid() && Used() == old(Used()) + {page}
    {
      if |frames| <= page {
        frames := frames + Cleared(AlignUp16(page + 1) - |frames|);
      }
      assert Used() == old(Used());
      frames := frames[page := true];
      usedPageCount := usedPageCount + 1;
      assert Used() == old(Used()) + {page};
    }

    method SetPageFree(page: nat)
      requires Valid() && page in Used()
      modifies this
      ensures Valid() && Used() == old(Used()) - {page}
    {
      frames := frames[page := false];
      assert Used() == old(Used()) - {page};
      usedPageCount := usedPageCount - 1;
    }

    /** First free frame in the bitmap, or the first one beyond it: the lowest free frame. */
    method GetFreePage() returns (page: nat)
      requires Valid()
      modifies this
      ensures Valid() && page == NextFree(old(Used())) && Used() == old(Used()) + {page}
    {
      for i := 0 to |frames|
        invariant Valid() && frames == old(frames) && usedPageCount == old(usedPageCount)
        invariant forall k :: 0 <= k < i ==> frames[k]
      {
        if !frames[i] {
          SetPageUsed(i);
          return i;
        }
      }
      page := |frames|;
      frames := frames + Cleared(16);
      assert Used() == old(Used());
      SetPageUsed(page);
    }

    method SetRangeUsed(from: nat, to: nat)
      requires Valid() && from <= to && forall k :: from <= k < to ==> k !in Used()
      modifies this
      ensures Valid() && forall k :: k in Used() <==> k in old(Used()) || from <= k < to
    {
      for i := from to to
        invariant Valid() && forall k :: k in Used() <==> k in old(Used()) || from <= k < i
      {
        SetPageUsed(i);
      }
    }

    method CompleteRangeUsed(from: nat, to: nat)
      requires Valid() && from <= to
      modifies this
      ensures Valid() && forall k :: k in Used() <==> k in old(Used()) || from <= k < to
    {
      for i := from to to
        invariant Valid() && forall k :: k in Used() <==> k in old(Used()) || from <= k < i
      {
        if i >= |frames| || !frames[i] {
          SetPageUsed(i);
        }
      }
    }
  }
}
