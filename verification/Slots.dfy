/** Cutting a fresh run into slots: info words, links, and what that does to the ledger. */
module Slots {
  import opened Sizes
  import opened PageBits
  import opened Chunks
  import opened Rings
  import opened Blocks
  import opened Ledger
  import opened Memory
  import opened Regions
  import opened Collector
  import opened Steps
  import opened Sweep
  import opened SweepRuns

  /** Writes the info words of a run of slots, page by page. */
  method MarkPages(t: Table, page: int, bin: int) returns (map_: seq<Info>)
    requires 0 <= bin < BINS && 0 <= page && page + BinPages(bin) <= |t.map_|
    ensures t.(map_ := map_) == MarkSmall(t, page, bin)
  {
    hide BinPages;
    BinFacts(bin);
    map_ := t.map_[page := SRun(bin, 0)];
    if BinPages(bin) > 1 {
      var i := 1;
      while i < BinPages(bin)
        invariant 1 <= i <= BinPages(bin) && |map_| == |t.map_|
        invariant forall p :: 0 <= p < |map_| ==>
          map_[p] == if p == page then SRun(bin, 0) else if page < p < page + i then NRun(bin, p - page) else t.map_[p]
      {
        map_ := map_[page + i := NRun(bin, i)];
        i := i + 1;
      }
    }
    assert map_ == MarkSmall(t, page, bin).map_;
  }

  function Slot(r: int, size: int, j: int): int { r + j * size }

  /** The slots of a run but the first, in order of address. */
  function SlotList(r: int, size: int, n: int): seq<int>
    requires n > 0
  {
    seq(n - 1, i => Slot(r, size, i + 1))
  }

  /** list holds the slots of the run at r but the first, from low to high. */
  predicate InOrder(list: seq<int>, r: int, bin: int) {
    0 <= bin < BINS && |list| == BinElements(bin) - 1
    && forall j :: 0 <= j < |list| ==> list[j] == r + (j + 1) * BinSize(bin)
  }

  lemma SlotNext(r: int, size: int, j: int)
    ensures Slot(r, size, j) + size == Slot(r, size, j + 1) && Slot(r, size, 1) == r + size
  {}

  lemma SlotOrder(r: int, size: int, i: int, j: int)
    requires size > 0
    ensures i < j <==> Slot(r, size, i) < Slot(r, size, j)
    ensures i == j <==> Slot(r, size, i) == Slot(r, size, j)
  {
    if i < j {
      MulLess(i, j, size);
    } else if j < i {
      MulLess(j, i, size);
    }
  }

  /** The words at slots 1 to k hold the address of the slot after them. */
  ghost predicate Linked(mem: Words, r: int, size: int, k: int) {
    forall j {:trigger Slot(r, size, j)} :: 1 <= j < k ==> Rd(mem, Slot(r, size, j)) == Slot(r, size, j + 1)
  }

  lemma LinkedStep(mem: Words, r: int, size: int, k: int)
    requires Linked(mem, r, size, k) && size > 0 && k >= 1
    ensures Linked(mem[Slot(r, size, k) := Slot(r, size, k + 1)], r, size, k + 1)
    ensures Linked(mem[Slot(r, size, k) := 0], r, size, k)
  {
    hide Slot;
    var m1, m2 := mem[Slot(r, size, k) := Slot(r, size, k + 1)], mem[Slot(r, size, k) := 0];
    forall j | 1 <= j < k
      ensures Rd(m1, Slot(r, size, j)) == Slot(r, size, j + 1) && Rd(m2, Slot(r, size, j)) == Slot(r, size, j + 1)
    {
      SlotOrder(r, size, j, k);
    }
  }

  lemma SlotListed(mem0: Words, mem: Words, r: int, size: int, n: int, k: int, v: int)
    requires 1 <= k < n && OnlyAt(mem0, mem, SlotList(r, size, n))
    ensures OnlyAt(mem0, mem[Slot(r, size, k) := v], SlotList(r, size, n))
  {
    assert SlotList(r, size, n)[k - 1] == Slot(r, size, k);
  }

  ghost predicate LinkAt(mem: Words, list: seq<int>, k: int) {
    0 <= k < |list| ==> list[k] != 0 && Rd(mem, list[k]) == if k + 1 < |list| then list[k + 1] else 0
  }

  lemma {:induction false} ChainFromLinks(mem: Words, list: seq<int>)
    requires list != [] && forall k :: LinkAt(mem, list, k)
    ensures ChainOk(mem, list[0], list)
    decreases |list|
  {
    var rest := list[1..];
    assert LinkAt(mem, list, 0);
    if rest != [] {
      forall k
        ensures LinkAt(mem, rest, k)
      {
        assert LinkAt(mem, list, k + 1);
      }
      ChainFromLinks(mem, rest);
    }
  }

  /** Links the slots of a run but the first into a list that ends at 0. */
  method LinkSlots(mem: Words, r: int, size: int, n: int) returns (mem': Words)
    requires r > 0 && size > 0 && n >= 3
    ensures ChainOk(mem', r + size, SlotList(r, size, n)) && OnlyAt(mem, mem', SlotList(r, size, n))
  {
    hide *;
    mem' := mem;
    var end := LastSlot(r, size, n);
    var p := r + size;
    SlotNext(r, size, 1);
    LinksStart(mem, r, size, n);
    ghost var k := 1;
    while true
      invariant 1 <= k < n - 1 && p == Slot(r, size, k) && end == Slot(r, size, n - 1)
      invariant Linked(mem', r, size, k) && OnlyAt(mem, mem', SlotList(r, size, n))
      decreases n - k
    {
      SlotNext(r, size, k);
      LinkedStep(mem', r, size, k);
      SlotListed(mem, mem', r, size, n, k, p + size);
      SlotOrder(r, size, k + 1, n - 1);
      mem' := mem'[p := p + size];
      p := p + size;
      k := k + 1;
      if p == end { break; }
    }
    LinkedStep(mem', r, size, k);
    SlotListed(mem, mem', r, size, n, k, 0);
    RdWrite(mem', p, 0);
    mem' := mem'[p := 0];
    LinksEnd(mem', r, size, n);
  }

  lemma RdWrite(mem: Words, a: int, v: int)
    ensures Rd(mem[a := v], a) == v
  {}

  function LastSlot(r: int, size: int, n: int): (end: int)
    ensures end == Slot(r, size, n - 1)
  {
    r + size * (n - 1)
  }

  lemma LinksStart(mem: Words, r: int, size: int, n: int)
    requires n > 0
    ensures Linked(mem, r, size, 1) && OnlyAt(mem, mem, SlotList(r, size, n))
  {}

  lemma LinksEnd(mem: Words, r: int, size: int, n: int)
    requires r > 0 && size > 0 && n >= 3 && Linked(mem, r, size, n - 1) && Rd(mem, Slot(r, size, n - 1)) == 0
    ensures ChainOk(mem, r + size, SlotList(r, size, n))
  {
    hide Slot;
    var list := SlotList(r, size, n);
    forall k
      ensures LinkAt(mem, list, k)
    {
      SlotOrder(r, size, 0, k + 1);
      SlotZero(r, size);
    }
    SlotNext(r, size, 1);
    ChainFromLinks(mem, list);
  }

  lemma SlotZero(r: int, size: int)
    ensures Slot(r, size, 0) == r
  {}

  lemma SlotsInOrder(r: int, bin: int)
    requires 0 <= bin < BINS && BinElements(bin) > 0
    ensures InOrder(SlotList(r, BinSize(bin), BinElements(bin)), r, bin)
  {
    hide BinSize, BinElements;
  }

  lemma SlotListIs(r: int, bin: int)
    requires 0 <= bin < BINS
    ensures BinElements(bin) > 0 && OtherSlots(SlotList(r, BinSize(bin), BinElements(bin)), r, bin)
    ensures InOrder(SlotList(r, BinSize(bin), BinElements(bin)), r, bin)
    ensures BinSize(bin) > 0 && BinElements(bin) >= 3
  {
    SlotsInOrder(r, bin);
    hide BinSize, BinElements, Slot, Multiples, InOrder;
    BinFacts(bin);
    var size, n := BinSize(bin), BinElements(bin);
    var list := SlotList(r, size, n);
    forall i, j | 0 <= i < j < |list|
      ensures list[i] != list[j]
    {
      SlotOrder(r, size, i + 1, j + 1);
    }
    forall a
      ensures a in list <==> a != r && SlotAt(r, bin, a)
    {
      SlotMember(r, size, n, a);
    }
  }

  lemma SlotMember(r: int, size: int, n: int, a: int)
    requires size > 0 && n > 0
    ensures a in SlotList(r, size, n) <==> a != r && a - r in Multiples(size, n)
  {
    var list := SlotList(r, size, n);
    MultiplesFacts(size, n, a - r);
    if a in list {
      var i :| 0 <= i < |list| && list[i] == a;
      SlotOrder(r, size, 0, i + 1);
      assert a - r == (i + 1) * size;
    }
    if a != r && a - r in Multiples(size, n) {
      var j :| 0 <= j < n && a - r == j * size;
      assert j != 0;
      assert list[j - 1] == a;
    }
  }

  // ---- the ledger ----

  /** A word inside a large run is in no other block and at no free slot. */
  lemma LargeApart(T: Tables, O: Owners, free: FreeLists, live: Live, regions: RegionMap, ring: seq<int>,
                   cache: seq<int>, huge: seq<HugeEntry>, loose: RegionMap, r: int, n: int, w: int)
    requires TablesOk(T, O) && LedgerOk(T, O, free, live, {}) && OwnersAre(O, ring) && HugeLedger(huge, live)
    requires RegionsOk(regions, ring, cache, huge, loose) && LiveAs(live, r, Large(n)) && r <= w < r + n * PAGE_SIZE
    ensures forall a :: a != r ==> !InBlock(live, a, w)
    ensures forall b :: !InFree(free, b, w)
  {
    hide *;
    LiveIs(live, r, n);
    LiveOccupies(T, O, free, live, {}, r);
    Extent(T, O, r, n * PAGE_SIZE);
    BaseAligned(r);
    InsideChunk(r, n * PAGE_SIZE, w);
    forall a | a != r
      ensures !InBlock(live, a, w)
    {
      if InBlock(live, a, w) {
        BlockFacts(live, a, w);
        if live[a].Huge? {
          HugeApart(T, O, live, regions, ring, cache, huge, loose, a, w);
        } else {
          LiveOccupies(T, O, free, live, {}, a);
          if a < r {
            Apart(T, O, a, BlockSize(live[a]), r, n * PAGE_SIZE);
          } else {
            Apart(T, O, r, n * PAGE_SIZE, a, BlockSize(live[a]));
          }
        }
      }
    }
    forall b
      ensures !InFree(free, b, w)
    {
      if InFree(free, b, w) {
        FreeOccupies(T, O, free, live, {}, b, w);
        if w != r {
          Apart(T, O, r, n * PAGE_SIZE, w, BinSize(b));
        }
      }
    }
  }

  lemma LiveIs(live: Live, r: int, n: int)
    requires LiveAs(live, r, Large(n))
    ensures r in live && !live[r].Huge? && BlockSize(live[r]) == n * PAGE_SIZE
  {}

  lemma InsideChunk(r: int, size: int, w: int)
    requires r <= w < r + size && Base(r) <= r && r + size <= Base(r) + CHUNK_SIZE
    ensures Base(w) == Base(r)
  {}

  lemma HugeLedgerSwap(huge: seq<HugeEntry>, live: Live, p: int, b: Block)
    requires HugeLedger(huge, live) && p in live && live[p].Large? && !b.Huge?
    ensures p in live && HugeLedger(huge, live[p := b])
  {
    forall e | e in huge
      ensures EntryLive(live[p := b], e)
    {
      assert EntryLive(live, e);
    }
  }

  /** Chains of the other bins do not pass through a run that is being cut. */
  lemma ChainsAdded(mem: Words, mem': Words, heads: seq<int>, head: int, free: FreeLists, bin: int, list: seq<int>)
    requires ChainsOk(mem, heads, free) && 0 <= bin < BINS && OnlyAt(mem, mem', list) && ChainOk(mem', head, list)
    requires forall w, b :: w in list ==> !InFree(free, b, w)
    ensures |heads| == |free| == BINS && ChainsOk(mem', heads[bin := head], free[bin := list])
  {
    forall b | 0 <= b < BINS && b != bin
      ensures ChainOk(mem', heads[b], free[b])
    {
      forall x | x in free[b]
        ensures Rd(mem', x) == Rd(mem, x)
      {
        assert InFree(free, b, x);
      }
      ChainFrame(mem, mem', heads[b], free[b]);
    }
  }

  lemma WritesApart(mem: Words, mem': Words, live: Live, p: int, list: seq<int>)
    requires OnlyAt(mem, mem', list) && forall w, a :: w in list && a != p ==> !InBlock(live, a, w)
    ensures SameBlocks(mem, mem', live - {p})
  {
    hide Rd;
    forall a, w | InBlock(live - {p}, a, w)
      ensures Rd(mem', w) == Rd(mem, w)
    {
      assert InBlock(live, a, w);
    }
  }

  /** The run of a large block, in its chunk. */
  lemma LargeAt(T: Tables, O: Owners, free: FreeLists, live: Live, p: int, n: int)
    requires TablesOk(T, O) && LedgerOk(T, O, free, live, {}) && LiveAs(live, p, Large(n))
    ensures Base(p) in O && Base(p) in T && IsRun(T[Base(p)], O[Base(p)], PageNum(p), LRun(n)) && 0 < n && PageNum(p) + n <= PAGES
    ensures RunOn(T, O, p, p + n * PAGE_SIZE, RunRef(p, LRun(n))) && p == Base(p) + PageNum(p) * PAGE_SIZE
    ensures |T[Base(p)].map_| == |T[Base(p)].bits| == PAGES && 0 < PageNum(p) && T[Base(p)].map_[PageNum(p)] == LRun(n)
  {
    hide *;
    LargeRun(T, O, free, live, {}, p, n);
    RunSpan(T, O, p);
    RunOnIs(T, O, p, n);
    StartSum(p);
    ChunkFacts(T, O, Base(p));
    RunInfoIs(T[Base(p)], O[Base(p)], PageNum(p), LRun(n));
  }

  lemma StartSum(p: int)
    requires StartAddress(p)
    ensures p == Base(p) + PageNum(p) * PAGE_SIZE
  {}

  /** Cutting the run of a large block into slots: the block becomes the first slot. */
  lemma CutIntoSlots(T: Tables, O: Owners, free: FreeLists, live: Live, p: int, bin: int, list: seq<int>)
    requires TablesOk(T, O) && LedgerOk(T, O, free, live, {}) && 0 <= bin < BINS && LiveAs(live, p, Large(BinPages(bin)))
    requires |free| == BINS && free[bin] == [] && OtherSlots(list, p, bin)
    requires Base(p) in T && PageNum(p) + BinPages(bin) <= T[Base(p)].freeTail
    ensures Base(p) in O && |T[Base(p)].map_| == PAGES && 0 < PageNum(p) && PageNum(p) + BinPages(bin) <= PAGES
    ensures var T' := T[Base(p) := MarkSmall(T[Base(p)], PageNum(p), bin)];
            && TablesOk(T', O) && LedgerOk(T', O, free[bin := list], live[p := Small(bin)], {})
            && (Quiet(T, O) ==> Quiet(T', O))
  {
    hide *;
    LargeAt(T, O, free, live, p, BinPages(bin));
    BasesAreFree(T, O);
    MarkSmallStep(T, O, Base(p), PageNum(p), bin);
    var T' := T[Base(p) := MarkSmall(T[Base(p)], PageNum(p), bin)];
    NotDead(p);
    ToSlots(T, O, T', O, free, live, {}, p, bin, list);
    QuietSmall(p, bin);
    QuietStep(T, O, T', O, p, p + BinPages(bin) * PAGE_SIZE, RunRef(p, SRun(bin, 0)));
  }

  lemma NotDead(p: int)
    ensures p !in {}
  {}

  lemma QuietSmall(r: int, bin: int)
    ensures CounterOf(RunRef(r, SRun(bin, 0))) == 0
  {}

  lemma OthersInside(list: seq<int>, p: int, bin: int)
    requires OtherSlots(list, p, bin) && 0 <= bin < BINS
    ensures forall w :: w in list ==> p <= w < p + BinPages(bin) * PAGE_SIZE
  {
    hide BinPages, BinSize, SlotAt, Distinct;
    SlotsInside(p, bin);
  }

  /** The list of huge blocks stays readable when all blocks but one keep their contents, and that one is no node. */
  lemma HugeKeptBut(mem: Words, mem': Words, head: int, huge: seq<HugeEntry>, live: Live, p: int)
    requires HugeChain(mem, head, huge) && HugeLedger(huge, live) && SameBlocks(mem, mem', live - {p})
    requires p in live && live[p].Large?
    ensures HugeChain(mem', head, huge)
  {
    hide HugeChain;
    forall e | e in huge
      ensures EntryLive(live - {p}, e) || live[p].Huge?
    {
      assert EntryLive(live, e);
    }
    forall e | e in huge
      ensures NodeSame(mem, mem', e.node)
    {
      assert EntryLive(live, e);
      NodeInBlock(live - {p}, e.node);
    }
    HugeFrame(mem, mem', head, huge);
  }

  /** Pages of a run of the bin. */
  function PagesOf(bin: int): nat {
    if 0 <= bin < BINS then BinPages(bin) else 0
  }

  lemma BinPagesFit(bin: int)
    requires 0 <= bin < BINS
    ensures 0 < BinPages(bin) < PAGES && PagesOf(bin) == BinPages(bin)
  {
    BinFacts(bin);
  }

  lemma StillEmpty(lists: FreeLists, free: FreeLists, bin: int)
    requires NoneGained(lists, free) && 0 <= bin < |lists| && lists[bin] == [] && bin < |free|
    ensures free[bin] == []
  {
    if free[bin] != [] {
      var a := free[bin][0];
      assert InFree(free, bin, a);
    }
  }

  lemma StartPositive(p: int)
    requires StartAddress(p) && Base(p) > 0
    ensures p > 0
  {}

  lemma WithoutNew(live: Live, p: int, b: Block)
    requires p !in live
    ensures live[p := b] - {p} == live && LiveAs(live[p := b], p, b)
  {}

  lemma WithNew(live: Live, p: int, b: Block, b': Block)
    ensures live[p := b][p := b'] == live[p := b'] && LiveAs(live[p := b], p, b)
  {}

  lemma LiveLarge(live: Live, p: int, n: int)
    requires LiveAs(live, p, Large(n))
    ensures p in live && live[p].Large? && live[p] == Large(n)
  {}
}
