/**
 The ledger of the allocator: every slot of every small run is handed out or on the free list of its
 bin, every large run is handed out, and nothing else is.
 */
module Ledger {
  import opened Sizes
  import opened PageBits
  import opened Chunks
  import opened Rings
  import opened Blocks

  type Live = map<int, Block>

  /** One list of free slots per bin, in the order of the links. */
  type FreeLists = seq<seq<int>>

  ghost predicate InFree(free: FreeLists, bin: int, a: int) {
    0 <= bin < |free| && a in free[bin]
  }

  ghost predicate LiveAs(live: Live, a: int, b: Block) {
    a in live && live[a] == b
  }

  ghost function Start(ref: RunRef): int {
    match ref
    case RunRef(r, _) => r
    case NoRun => 0
  }

  /** Every slot is handed out, free, or in a run the collector has condemned. */
  ghost predicate SlotsCovered(T: Tables, O: Owners, free: FreeLists, live: Live, dead: set<int>) {
    forall a, bin :: IsSlot(T, O, a, bin) ==>
      InFree(free, bin, a) || LiveAs(live, a, Small(bin)) || Start(RunOf(T, O, a)) in dead
  }

  /** What is on a free list is a slot of that bin and nothing else. */
  ghost predicate FreeAreSlots(T: Tables, O: Owners, free: FreeLists, live: Live, dead: set<int>) {
    && |free| == BINS && (forall bin :: 0 <= bin < BINS ==> Distinct(free[bin]))
    && forall bin, a :: InFree(free, bin, a) ==> IsSlot(T, O, a, bin) && a !in live && Start(RunOf(T, O, a)) !in dead
  }

  ghost predicate LivePlaced(T: Tables, O: Owners, live: Live, dead: set<int>, a: int)
    requires a in live
  {
    match live[a]
    case Small(bin) => IsSlot(T, O, a, bin) && Start(RunOf(T, O, a)) !in dead
    case Large(n) => IsLarge(T, O, a, n)
    case Huge(_) => a > 0 && a % CHUNK_SIZE == 0
  }

  ghost predicate LiveAreBlocks(T: Tables, O: Owners, live: Live, dead: set<int>) {
    forall a :: a in live ==> LivePlaced(T, O, live, dead, a)
  }

  ghost predicate LargeCovered(T: Tables, O: Owners, live: Live) {
    forall a, n :: IsLarge(T, O, a, n) ==> LiveAs(live, a, Large(n))
  }

  ghost predicate LedgerOk(T: Tables, O: Owners, free: FreeLists, live: Live, dead: set<int>) {
    && SlotsCovered(T, O, free, live, dead)
    && FreeAreSlots(T, O, free, live, dead)
    && LiveAreBlocks(T, O, live, dead)
    && LargeCovered(T, O, live)
  }

  /** A step that leaves every address in the same run leaves the ledger alone. */
  lemma LedgerFrame(T: Tables, O: Owners, T': Tables, O': Owners, free: FreeLists, live: Live, dead: set<int>)
    requires LedgerOk(T, O, free, live, dead)
    requires forall a :: RunOf(T', O', a) == RunOf(T, O, a)
    ensures LedgerOk(T', O', free, live, dead)
  {
    hide RunOf, SlotIn;
    forall a, bin | IsSlot(T', O', a, bin)
      ensures InFree(free, bin, a) || LiveAs(live, a, Small(bin)) || Start(RunOf(T', O', a)) in dead
    {
      assert IsSlot(T, O, a, bin);
    }
    forall a | a in live
      ensures LivePlaced(T', O', live, dead, a)
    {
      assert LivePlaced(T, O, live, dead, a);
    }
    forall a, n | IsLarge(T', O', a, n)
      ensures LiveAs(live, a, Large(n))
    {
      assert IsLarge(T, O, a, n);
    }
  }

  // ---- slots ----

  lemma Pop(T: Tables, O: Owners, free: FreeLists, live: Live, dead: set<int>, bin: int)
    requires LedgerOk(T, O, free, live, dead) && 0 <= bin < |free| && free[bin] != []
    ensures free[bin][0] !in live
    ensures LedgerOk(T, O, free[bin := free[bin][1..]], live[free[bin][0] := Small(bin)], dead)
  {
    hide RunOf, SlotIn;
    var p := free[bin][0];
    var free', live' := free[bin := free[bin][1..]], live[p := Small(bin)];
    assert InFree(free, bin, p);
    forall b, a | InFree(free', b, a)
      ensures InFree(free, b, a) && a != p
    {
      assert InFree(free, b, a);
      if a == p && b != bin {
        OneBin(T, O, a, b, bin);
      }
    }
    forall a, b | IsSlot(T, O, a, b)
      ensures InFree(free', b, a) || LiveAs(live', a, Small(b)) || Start(RunOf(T, O, a)) in dead
    {
      if a == p {
        OneBin(T, O, a, b, bin);
      } else if InFree(free, b, a) {
        assert free[bin] == [p] + free[bin][1..];
      }
    }
    forall a | a in live'
      ensures LivePlaced(T, O, live', dead, a)
    {
      if a != p { assert LivePlaced(T, O, live, dead, a); }
    }
  }

  lemma OneBin(T: Tables, O: Owners, a: int, b: int, b': int)
    requires IsSlot(T, O, a, b) && IsSlot(T, O, a, b')
    ensures b == b'
  {
    hide RunOf;
  }

  lemma Push(T: Tables, O: Owners, free: FreeLists, live: Live, dead: set<int>, bin: int, p: int)
    requires LedgerOk(T, O, free, live, dead) && LiveAs(live, p, Small(bin)) && 0 <= bin < |free|
    ensures LedgerOk(T, O, free[bin := [p] + free[bin]], live - {p}, dead)
  {
    hide RunOf, SlotIn;
    var free', live' := free[bin := [p] + free[bin]], live - {p};
    assert LivePlaced(T, O, live, dead, p);
    assert p !in free[bin] by {
      assert InFree(free, bin, p) ==> p !in live;
    }
    forall b, a | InFree(free', b, a)
      ensures IsSlot(T, O, a, b) && a !in live' && Start(RunOf(T, O, a)) !in dead
    {
      if !(a == p && b == bin) { assert InFree(free, b, a); }
    }
    forall a, b | IsSlot(T, O, a, b)
      ensures InFree(free', b, a) || LiveAs(live', a, Small(b)) || Start(RunOf(T, O, a)) in dead
    {
      if a == p {
        OneBin(T, O, a, b, bin);
      } else if InFree(free, b, a) {
        assert InFree(free', b, a);
      }
    }
    forall a | a in live'
      ensures LivePlaced(T, O, live', dead, a)
    {
      assert LivePlaced(T, O, live, dead, a);
    }
  }

  // ---- large runs ----

  lemma AddLarge(T: Tables, O: Owners, T': Tables, O': Owners, free: FreeLists, live: Live, dead: set<int>, r: int, n: int)
    requires LedgerOk(T, O, free, live, dead) && n > 0 && StartAddress(r)
    requires RunsChanged(T, O, T', O', r, r + n * PAGE_SIZE, RunRef(r, LRun(n))) && NoRunsIn(T, O, r, r + n * PAGE_SIZE)
    ensures r !in live && LedgerOk(T', O', free, live[r := Large(n)], dead)
  {
    hide RunOf, Base, PageNum;
    var hi := r + n * PAGE_SIZE;
    var live' := live[r := Large(n)];
    assert r !in live by {
      assert r in live ==> LivePlaced(T, O, live, dead, r);
    }
    forall a, bin | IsSlot(T', O', a, bin)
      ensures InFree(free, bin, a) || LiveAs(live', a, Small(bin)) || Start(RunOf(T', O', a)) in dead
    {
      assert IsSlot(T, O, a, bin);
    }
    forall bin, a | InFree(free, bin, a)
      ensures IsSlot(T', O', a, bin) && a !in live' && Start(RunOf(T', O', a)) !in dead
    {
      assert IsSlot(T, O, a, bin);
    }
    forall a | a in live'
      ensures LivePlaced(T', O', live', dead, a)
    {
      if a != r { assert LivePlaced(T, O, live, dead, a); }
    }
    forall a, m | IsLarge(T', O', a, m)
      ensures LiveAs(live', a, Large(m))
    {
      if !(r <= a < hi) { assert IsLarge(T, O, a, m); }
    }
  }

  /** All addresses of a run see it, and only its start is a large block. */
  ghost predicate RunOn(T: Tables, O: Owners, lo: int, hi: int, ref: RunRef) {
    forall a :: lo <= a < hi ==> RunOf(T, O, a) == ref
  }

  lemma DropLarge(T: Tables, O: Owners, T': Tables, O': Owners, free: FreeLists, live: Live, dead: set<int>, r: int, n: int)
    requires LedgerOk(T, O, free, live, dead) && n > 0 && LiveAs(live, r, Large(n))
    requires RunOn(T, O, r, r + n * PAGE_SIZE, RunRef(r, LRun(n)))
    requires RunsChanged(T, O, T', O', r, r + n * PAGE_SIZE, NoRun)
    ensures LedgerOk(T', O', free, live - {r}, dead)
  {
    hide RunOf;
    var hi := r + n * PAGE_SIZE;
    var live' := live - {r};
    forall a, bin | IsSlot(T', O', a, bin)
      ensures InFree(free, bin, a) || LiveAs(live', a, Small(bin)) || Start(RunOf(T', O', a)) in dead
    {
      assert IsSlot(T, O, a, bin);
    }
    forall bin, a | InFree(free, bin, a)
      ensures IsSlot(T', O', a, bin) && a !in live' && Start(RunOf(T', O', a)) !in dead
    {
      assert IsSlot(T, O, a, bin);
    }
    forall a | a in live'
      ensures LivePlaced(T', O', live', dead, a)
    {
      assert LivePlaced(T, O, live, dead, a);
    }
    forall a, m | IsLarge(T', O', a, m)
      ensures LiveAs(live', a, Large(m))
    {
      assert IsLarge(T, O, a, m);
    }
  }

  lemma GrowLarge(T: Tables, O: Owners, T': Tables, O': Owners, free: FreeLists, live: Live, dead: set<int>, r: int, oldN: int, newN: int)
    requires LedgerOk(T, O, free, live, dead) && 0 < oldN < newN && LiveAs(live, r, Large(oldN))
    requires RunOn(T, O, r, r + oldN * PAGE_SIZE, RunRef(r, LRun(oldN)))
    requires NoRunsIn(T, O, r + oldN * PAGE_SIZE, r + newN * PAGE_SIZE)
    requires RunsChanged(T, O, T', O', r, r + newN * PAGE_SIZE, RunRef(r, LRun(newN)))
    ensures LedgerOk(T', O', free, live[r := Large(newN)], dead)
  {
    hide RunOf;
    var live' := live[r := Large(newN)];
    forall a, bin | IsSlot(T', O', a, bin)
      ensures InFree(free, bin, a) || LiveAs(live', a, Small(bin)) || Start(RunOf(T', O', a)) in dead
    {
      assert IsSlot(T, O, a, bin);
    }
    forall bin, a | InFree(free, bin, a)
      ensures IsSlot(T', O', a, bin) && a !in live' && Start(RunOf(T', O', a)) !in dead
    {
      assert IsSlot(T, O, a, bin);
    }
    forall a | a in live'
      ensures LivePlaced(T', O', live', dead, a)
    {
      if a != r { assert LivePlaced(T, O, live, dead, a); }
    }
    forall a, m | IsLarge(T', O', a, m)
      ensures LiveAs(live', a, Large(m))
    {
      if a != r { assert IsLarge(T, O, a, m); }
    }
  }

  lemma CutLarge(T: Tables, O: Owners, T': Tables, O': Owners, free: FreeLists, live: Live, dead: set<int>, r: int, newN: int, rest: int)
    requires LedgerOk(T, O, free, live, dead) && 0 < newN && 0 < rest && LiveAs(live, r, Large(newN + rest))
    requires RunOn(T, O, r, r + (newN + rest) * PAGE_SIZE, RunRef(r, LRun(newN + rest)))
    requires RunsCut(T, O, T', O', r, r + newN * PAGE_SIZE, r + (newN + rest) * PAGE_SIZE, newN)
    ensures LedgerOk(T', O', free, live[r := Large(newN)], dead)
  {
    hide RunOf, SlotAt;
    var live' := live[r := Large(newN)];
    forall a, bin | IsSlot(T', O', a, bin)
      ensures InFree(free, bin, a) || LiveAs(live', a, Small(bin)) || Start(RunOf(T', O', a)) in dead
    {
      assert IsSlot(T, O, a, bin);
    }
    forall bin, a | InFree(free, bin, a)
      ensures IsSlot(T', O', a, bin) && a !in live' && Start(RunOf(T', O', a)) !in dead
    {
      assert IsSlot(T, O, a, bin);
    }
    forall a | a in live'
      ensures LivePlaced(T', O', live', dead, a)
    {
      if a != r { assert LivePlaced(T, O, live, dead, a); }
    }
    forall a, m | IsLarge(T', O', a, m)
      ensures LiveAs(live', a, Large(m))
    {
      if a != r { assert IsLarge(T, O, a, m); }
    }
  }

  /** list holds exactly the slots of the run at r but the first. */
  ghost predicate OtherSlots(list: seq<int>, r: int, bin: int) {
    0 <= bin < BINS && Distinct(list) && forall a :: a in list <==> a != r && SlotAt(r, bin, a)
  }

  /** A fresh large run becomes a run of slots: the first is handed out, the others become free. */
  lemma ToSlots(T: Tables, O: Owners, T': Tables, O': Owners, free: FreeLists, live: Live, dead: set<int>, r: int, bin: int, list: seq<int>)
    requires LedgerOk(T, O, free, live, dead) && 0 <= bin < BINS && LiveAs(live, r, Large(BinPages(bin)))
    requires free[bin] == [] && OtherSlots(list, r, bin) && r !in dead
    requires RunOn(T, O, r, r + BinPages(bin) * PAGE_SIZE, RunRef(r, LRun(BinPages(bin)))) && BasesFree(T, O)
    requires RunsChanged(T, O, T', O', r, r + BinPages(bin) * PAGE_SIZE, RunRef(r, SRun(bin, 0)))
    ensures LedgerOk(T', O', free[bin := list], live[r := Small(bin)], dead)
  {
    hide RunOf, BinPages, SlotAt, BinSize;
    var hi := r + BinPages(bin) * PAGE_SIZE;
    var free', live' := free[bin := list], live[r := Small(bin)];
    SlotsInside(r, bin);
    forall a, b | IsSlot(T', O', a, b)
      ensures InFree(free', b, a) || LiveAs(live', a, Small(b)) || Start(RunOf(T', O', a)) in dead
    {
      if !(r <= a < hi) {
        assert IsSlot(T, O, a, b);
        assert InFree(free, b, a) ==> b != bin;
      }
    }
    forall b, a | InFree(free', b, a)
      ensures IsSlot(T', O', a, b) && a !in live' && Start(RunOf(T', O', a)) !in dead
    {
      if b != bin {
        assert InFree(free, b, a);
      } else {
        assert SlotAt(r, bin, a);
        InsideLarge(T, O, live, dead, r, BinPages(bin), a);
      }
    }
    forall a | a in live'
      ensures LivePlaced(T', O', live', dead, a)
    {
      if a != r { assert LivePlaced(T, O, live, dead, a); }
    }
    forall a, m | IsLarge(T', O', a, m)
      ensures LiveAs(live', a, Large(m))
    {
      assert IsLarge(T, O, a, m);
    }
  }

  lemma InsideLarge(T: Tables, O: Owners, live: Live, dead: set<int>, r: int, n: int, a: int)
    requires LiveAreBlocks(T, O, live, dead) && BasesFree(T, O)
    requires RunOf(T, O, a) == RunRef(r, LRun(n)) && a != r
    ensures a !in live
  {
    hide RunOf;
    assert a in live ==> LivePlaced(T, O, live, dead, a);
  }

  lemma SlotsInside(r: int, bin: int)
    requires 0 <= bin < BINS
    ensures forall a :: SlotAt(r, bin, a) ==> r <= a && a + BinSize(bin) <= r + BinPages(bin) * PAGE_SIZE
    ensures SlotAt(r, bin, r) && BinSize(bin) >= 8
  {
    hide Offsets, BinPages, BinSize;
    BinFacts(bin);
    forall a | SlotAt(r, bin, a)
      ensures r <= a && a + BinSize(bin) <= r + BinPages(bin) * PAGE_SIZE
    {
      OffsetInRun(bin, a - r);
    }
    FirstOffset(bin);
  }

  // ---- blocks do not overlap ----

  /** Addresses [a, a + size) are a slot or a whole large run. */
  ghost predicate Occupies(T: Tables, O: Owners, a: int, size: int) {
    || (exists bin :: IsSlot(T, O, a, bin) && 0 <= bin < BINS && size == BinSize(bin))
    || (exists n :: IsLarge(T, O, a, n) && size == n * PAGE_SIZE)
  }

  lemma OccupiesSlot(T: Tables, O: Owners, a: int, bin: int)
    requires IsSlot(T, O, a, bin)
    ensures 0 <= bin < BINS && Occupies(T, O, a, BinSize(bin))
  {
    hide RunOf;
  }

  lemma OccupiesLarge(T: Tables, O: Owners, a: int, n: int)
    requires IsLarge(T, O, a, n)
    ensures Occupies(T, O, a, n * PAGE_SIZE)
  {
    hide RunOf;
  }

  /** What is occupied lies inside one run, past the header page of its chunk. */
  lemma Extent(T: Tables, O: Owners, a: int, size: int)
    requires TablesOk(T, O) && Occupies(T, O, a, size)
    ensures RunOf(T, O, a).RunRef? && 8 <= size
    ensures var RunRef(r, info) := RunOf(T, O, a);
            && Base(r) == Base(a) && Base(a) in O && Base(r) + PAGE_SIZE <= r <= a
            && a + size <= r + RunLen(info) * PAGE_SIZE <= Base(a) + CHUNK_SIZE
  {
    hide RunOf, TablesOk, Base, PageNum, IsRun, RunInfoOk, BinSize, BinPages, SlotAt, StartAddress;
    assert RunOf(T, O, a).RunRef?;
    RunSpan(T, O, a);
    var RunRef(r, info) := RunOf(T, O, a);
    StartPage(r, RunLen(info));
    if info.SRun? {
      SlotsInside(r, info.bin);
    }
  }

  lemma StartPage(r: int, n: int)
    requires StartAddress(r) && PageNum(r) + n <= PAGES
    ensures Base(r) + PAGE_SIZE <= r && r + n * PAGE_SIZE <= Base(r) + CHUNK_SIZE
  {}

  /** Two different occupied stretches are disjoint. */
  lemma Apart(T: Tables, O: Owners, a: int, size: int, a': int, size': int)
    requires TablesOk(T, O) && Occupies(T, O, a, size) && Occupies(T, O, a', size') && a < a'
    ensures a + size <= a'
  {
    hide RunOf, TablesOk, Base, PageNum, IsRun, RunInfoOk, BinSize, BinPages, StartAddress, RunLen, Offsets;
    Extent(T, O, a, size);
    RunSpan(T, O, a);
    var RunRef(r, info) := RunOf(T, O, a);
    if a' < r + RunLen(info) * PAGE_SIZE {
      assert RunOf(T, O, a') == RunOf(T, O, a);
      if info.SRun? {
        assert SlotAt(r, info.bin, a) && SlotAt(r, info.bin, a');
        OffsetsApart(info.bin, a - r, a' - r);
      }
    }
  }

  lemma LiveOccupies(T: Tables, O: Owners, free: FreeLists, live: Live, dead: set<int>, a: int)
    requires LedgerOk(T, O, free, live, dead) && a in live && !live[a].Huge?
    ensures Occupies(T, O, a, BlockSize(live[a]))
  {
    hide RunOf, SlotIn, IsSlot, IsLarge, Occupies, BinSize;
    assert LivePlaced(T, O, live, dead, a);
    match live[a] {
      case Small(bin) => OccupiesSlot(T, O, a, bin);
      case Large(n) => OccupiesLarge(T, O, a, n);
    }
  }

  lemma FreeOccupies(T: Tables, O: Owners, free: FreeLists, live: Live, dead: set<int>, bin: int, a: int)
    requires LedgerOk(T, O, free, live, dead) && InFree(free, bin, a)
    ensures 0 <= bin < BINS && Occupies(T, O, a, BinSize(bin)) && a !in live && IsSlot(T, O, a, bin)
  {
    hide RunOf, SlotIn, BinSize, Occupies;
    assert IsSlot(T, O, a, bin);
    OccupiesSlot(T, O, a, bin);
  }
}
