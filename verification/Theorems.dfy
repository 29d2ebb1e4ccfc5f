/** What holds of a heap in every state its methods can leave it in. */
module Theorems {
  import opened Sizes
  import opened PageBits
  import opened Chunks
  import opened Rings
  import opened Blocks
  import opened Ledger
  import opened Memory
  import opened Regions
  import opened Collector
  import opened Steps
  import opened Sweep
  import opened SweepRuns
  import opened Occupancy
  import opened Safety
  import opened HugeBlocks
  import opened ZendHeap

  /** No two blocks share an address. */
  lemma NoOverlap(h: Heap, a: int, b: int, w: int)
    requires h.Inv() && InBlock(h.live, a, w) && InBlock(h.live, b, w)
    ensures a == b
  {
    hide *;
    h.InvParts();
    h.CoreParts({});
    LiveApart(h.tables, h.owner, h.free, h.live, h.regions, h.ring, h.cache, h.huge, h.loose, a, b, w);
  }

  /** Every linked chunk but the main one has a run. */
  lemma NoneIdle(h: Heap, k: int)
    requires h.Inv() && 0 < k < |h.ring|
    ensures exists a :: Base(a) == h.ring[k] && RunOf(h.tables, h.owner, a).RunRef?
  {
    hide *;
    h.InvParts();
    h.CoreParts({});
    h.CoreChunk(k, {});
    h.CoreDistinct({});
    OnlyFirst(h.ring, k);
    var c := h.ring[k];
    OccupiedAt(h.tables, h.ring, h.mainChunk, c);
    ChunkFacts(h.tables, h.owner, c);
    var p := TakenPage(h.tables[c], h.owner[c]);
    PageAddress(c, p, c);
    RunOfIs(h.tables, h.owner, c + p * PAGE_SIZE);
    assert Base(c + p * PAGE_SIZE) == c && RunOf(h.tables, h.owner, c + p * PAGE_SIZE).RunRef?;
  }

  lemma OccupiedAt(T: Tables, ring: seq<int>, main: int, c: int)
    requires Occupied(T, ring, main) && c in ring && c != main
    ensures c in T && T[c].freePages != PAGES - FIRST_PAGE
  {}

  /** A chunk that is not empty has a page behind its header that lies in a run. */
  lemma TakenPage(t: Table, o: Owner) returns (p: int)
    requires TableOk(t, o) && t.freePages != PAGES - FIRST_PAGE
    ensures 0 < p < PAGES && PageAt(t, o, p).PageRef?
  {
    EmptyTable(t, o);
    p :| 0 < p < PAGES && o[p] >= 0;
    BitShows(t, o, p);
  }

  /** A small or large block lies in one linked chunk, past its header page; a free slot is in no block. */
  lemma OffTheHeader(h: Heap, a: int, w: int)
    requires h.Inv() && InBlock(h.live, a, w) && !h.live[a].Huge?
    ensures Base(w) == Base(a) && Base(w) in h.ring && Base(w) + PAGE_SIZE <= w
    ensures forall bin :: !InFree(h.free, bin, w)
  {
    hide *;
    h.InvParts();
    h.CoreParts({});
    BlockBase(h.tables, h.owner, h.free, h.live, a, w);
    OwnerInRing(h.owner, h.ring, Base(w));
    WordApart(h.tables, h.owner, h.free, h.live, h.regions, h.ring, h.cache, h.huge, h.loose, a, w);
  }

  /** No huge block lies over a linked or cached chunk, its header page included. */
  lemma HugeOffChunks(h: Heap, a: int, w: int, c: int)
    requires h.Inv() && InBlock(h.live, a, w) && h.live[a].Huge? && (c in h.ring || c in h.cache)
    ensures !(c <= w < c + CHUNK_SIZE)
  {
    hide *;
    h.InvParts();
    h.CoreParts({});
    InBlockLive(h.live, a, w);
    h.HugeRegion(a);
    HugeIsPtr(h.huge, h.live, a);
    HugeOffRegions(h.regions, h.ring, h.cache, h.huge, h.loose, h.live, a, w, c);
  }

  lemma InBlockLive(live: Live, a: int, w: int)
    requires InBlock(live, a, w)
    ensures a in live && (live[a].Huge? ==> LiveHuge(live, a))
  {}

  lemma HugeOffRegions(regions: RegionMap, ring: seq<int>, cache: seq<int>, huge: seq<HugeEntry>, loose: RegionMap,
                       live: Live, a: int, w: int, c: int)
    requires RegionsOk(regions, ring, cache, huge, loose) && (c in ring || c in cache)
    requires a in regions && LiveAs(live, a, Huge(regions[a])) && IsPtr(huge, a) && InBlock(live, a, w)
    ensures !(c <= w < c + CHUNK_SIZE)
  {
    hide IsPtr;
    assert a != c;
  }

  /** A page's bit is set exactly when the page is the header or lies in a run, which then covers it. */
  lemma BitmapExact(h: Heap, k: int, p: int)
    requires h.Inv() && 0 <= k < |h.ring| && 0 <= p < PAGES
    ensures h.ring[k] in h.tables && |h.tables[h.ring[k]].bits| == PAGES
    ensures h.tables[h.ring[k]].bits[p] <==> p == 0 || RunOf(h.tables, h.owner, h.ring[k] + p * PAGE_SIZE).RunRef?
    ensures var ref := RunOf(h.tables, h.owner, h.ring[k] + p * PAGE_SIZE);
            ref.RunRef? ==> ref.start <= h.ring[k] + p * PAGE_SIZE < ref.start + RunLen(ref.info) * PAGE_SIZE
  {
    hide *;
    h.InvParts();
    h.CoreChunk(k, {});
    var c := h.ring[k];
    ChunkFacts(h.tables, h.owner, c);
    PageAddress(c, p, c);
    RunOfIs(h.tables, h.owner, c + p * PAGE_SIZE);
    BitShows(h.tables[c], h.owner[c], p);
    if RunOf(h.tables, h.owner, c + p * PAGE_SIZE).RunRef? {
      RunSpan(h.tables, h.owner, c + p * PAGE_SIZE);
    }
  }

  lemma BitShows(t: Table, o: Owner, p: int)
    requires TableOk(t, o) && 0 <= p < PAGES
    ensures |t.bits| == PAGES && (t.bits[p] <==> p == 0 || PageAt(t, o, p).PageRef?)
  {
    if o[p] >= 0 {
      assert OwnedOk(t, o, p);
      if o[p] == 0 && p > 0 {
        HeaderLength(t, o, p);
      }
    }
  }

  lemma HeaderLength(t: Table, o: Owner, p: int)
    requires TableOk(t, o) && 0 <= p < PAGES && o[p] == 0
    ensures p == 0
  {
    assert OwnedOk(t, o, p);
  }

  function ClearBits(bits: seq<bool>, n: nat): nat
    requires n <= |bits|
  {
    if n == 0 then 0 else ClearBits(bits, n - 1) + if bits[n - 1] then 0 else 1
  }

  lemma {:induction false} ClearBitsAre(t: Table, o: Owner, n: nat)
    requires TableOk(t, o) && n <= PAGES
    ensures |t.bits| == |o| == PAGES && ClearBits(t.bits, n) == CountFree(o, n)
  {
    if n > 0 {
      ClearBitsAre(t, o, n - 1);
    }
  }

  /** free_pages of a linked chunk is the number of clear bits in its bitmap. */
  lemma FreePagesExact(h: Heap, k: int)
    requires h.Inv() && 0 <= k < |h.ring|
    ensures h.ring[k] in h.tables && |h.tables[h.ring[k]].bits| == PAGES
    ensures h.tables[h.ring[k]].freePages == ClearBits(h.tables[h.ring[k]].bits, PAGES)
  {
    hide *;
    h.InvParts();
    h.CoreChunk(k, {});
    var c := h.ring[k];
    ChunkFacts(h.tables, h.owner, c);
    ClearBitsAre(h.tables[c], h.owner[c], PAGES);
    TableInside(h.tables[c], h.owner[c]);
  }

  /** What is taken at or above free_tail is one large run that starts below it. */
  lemma TailIsBound(h: Heap, k: int, p: int, q: int)
    requires h.Inv() && 0 <= k < |h.ring|
    ensures h.ring[k] in h.tables && |h.tables[h.ring[k]].bits| == |h.tables[h.ring[k]].map_| == PAGES
    ensures var t := h.tables[h.ring[k]];
            t.freeTail <= p < PAGES && t.freeTail <= q < PAGES && t.bits[p] && t.bits[q] ==>
              exists s :: 0 <= s < t.freeTail && t.map_[s].LRun? && p < s + t.map_[s].pages && q < s + t.map_[s].pages
  {
    hide *;
    h.InvParts();
    h.CoreChunk(k, {});
    var c := h.ring[k];
    ChunkFacts(h.tables, h.owner, c);
    OneTailRun(h.tables[c], h.owner[c], p, q);
  }

  lemma OneTailRun(t: Table, o: Owner, p: int, q: int)
    requires TableOk(t, o)
    ensures |t.bits| == |t.map_| == PAGES
    ensures t.freeTail <= p < PAGES && t.freeTail <= q < PAGES && t.bits[p] && t.bits[q] ==>
              exists s :: 0 <= s < t.freeTail && t.map_[s].LRun? && p < s + t.map_[s].pages && q < s + t.map_[s].pages
  {
    if t.freeTail <= p < PAGES && t.freeTail <= q < PAGES && t.bits[p] && t.bits[q] {
      assert OwnedOk(t, o, p) && OwnedOk(t, o, q);
      var s := o[p];
      assert Spans(t, s, p) && Spans(t, o[q], q);
      if p < q {
        assert Spans(t, o[q], p);
      } else {
        assert Spans(t, s, q);
      }
      assert o[q] == s;
    }
  }

  /** The slots of a bin's runs are split into those handed out and those on the free list. */
  lemma SlotsPartition(h: Heap, a: int, bin: int)
    requires h.Inv()
    ensures IsSlot(h.tables, h.owner, a, bin) <==> InFree(h.free, bin, a) || LiveAs(h.live, a, Small(bin))
    ensures !(InFree(h.free, bin, a) && a in h.live)
    ensures |h.free| == BINS && (0 <= bin < BINS ==> Distinct(h.free[bin]))
  {
    hide *;
    h.InvParts();
    h.CoreParts({});
    SlotsSplit(h.tables, h.owner, h.free, h.live, a, bin);
  }

  lemma SlotsSplit(T: Tables, O: Owners, free: FreeLists, live: Live, a: int, bin: int)
    requires LedgerOk(T, O, free, live, {})
    ensures IsSlot(T, O, a, bin) <==> InFree(free, bin, a) || LiveAs(live, a, Small(bin))
    ensures !(InFree(free, bin, a) && a in live)
    ensures |free| == BINS && (0 <= bin < BINS ==> Distinct(free[bin]))
  {
    hide RunOf, SlotAt;
    if LiveAs(live, a, Small(bin)) {
      assert LivePlaced(T, O, live, {}, a);
    }
  }

  /** Following the links of a free list from the heap's pointer visits exactly the list and ends. */
  lemma ListsAreChains(h: Heap, bin: int)
    requires h.Inv() && 0 <= bin < BINS
    ensures |h.freeSlot| == |h.free| == BINS && ChainOk(h.mem, h.freeSlot[bin], h.free[bin])
  {
    hide *;
    h.InvParts();
    h.CoreParts({});
    ChainHead(h.mem, h.freeSlot, h.free, bin);
  }

  /** The counters of the heap record. */
  lemma Conservation(h: Heap)
    requires h.Valid()
    ensures h.size == Total(h.live) <= h.peak
    ensures h.realSize == CHUNK_SIZE * (h.chunksCount + h.cachedChunksCount) + HugeTotal(h.huge) <= h.realPeak
    ensures forall a :: a in h.regions ==> a in h.ring || a in h.cache || IsPtr(h.huge, a)
  {
    hide *;
    h.ValidParts();
    h.InvParts();
    h.CoreParts({});
    CountsTell(h);
    AllSorted(h.regions, h.ring, h.cache, h.huge, h.loose);
  }

  lemma CountsTell(h: Heap)
    requires h.Counts() && h.Beyond() == HugeTotal(h.huge)
    ensures h.realSize == CHUNK_SIZE * (h.chunksCount + h.cachedChunksCount) + HugeTotal(h.huge)
  {}

  lemma AllSorted(regions: RegionMap, ring: seq<int>, cache: seq<int>, huge: seq<HugeEntry>, loose: RegionMap)
    requires RegionsOk(regions, ring, cache, huge, loose) && loose == map[]
    ensures forall a :: a in regions ==> a in ring || a in cache || IsPtr(huge, a)
  {}

  // ---- when the main chunk goes ----

  /** Freeing a run empties its chunk exactly when no other page but the header is taken. */
  lemma EmptiedExactly(t: Table, o: Owner, page: int)
    requires TableOk(t, o) && IsStart(t, o, page) && 0 <= page < |t.map_|
    ensures |t.bits| == PAGES && RunLen(t.map_[page]) >= 0
    ensures Release(t, page, RunLen(t.map_[page])).freePages == PAGES - FIRST_PAGE <==>
            forall p :: 0 < p < PAGES && t.bits[p] ==> page <= p < page + RunLen(t.map_[page])
  {
    hide RunLen;
    var n := RunLen(t.map_[page]);
    ReleaseOk(t, o, page, n);
    EmptyTable(Release(t, page, n), Assign(o, page, n, -1));
    TableInside(t, o);
    var o' := Assign(o, page, n, -1);
    assert forall p :: 0 < p < PAGES ==> (o'[p] < 0 <==> page <= p < page + n || o[p] < 0);
    assert forall p :: 0 <= p < PAGES ==> (t.bits[p] <==> o[p] >= 0);
  }

  lemma NoLargeIn(T: Tables, O: Owners, live: Live, main: int, r: int, n: int)
    requires LargeCovered(T, O, live) && !MainInUse(live, main) && Base(r) == main
    ensures !IsLarge(T, O, r, n)
  {
    hide RunOf;
    assert IsLarge(T, O, r, n) ==> LiveAs(live, r, Large(n));
  }

  /** A run in a chunk without a live small or large block serves a bin; it is doomed unless the bin is bin 0. */
  lemma IdleRun(T: Tables, O: Owners, lists: FreeLists, live: Live, main: int, a: int)
    requires TablesOk(T, O) && LedgerOk(T, O, lists, live, {}) && !MainInUse(live, main)
    requires Base(a) == main && RunOf(T, O, a).RunRef?
    ensures RunOf(T, O, a).info.SRun?
    ensures RunOf(T, O, a).info.bin == 0 || Doomed(T, O, lists, BINS, RunOf(T, O, a).start)
  {
    hide RunOf, TablesOk, SlotAt, BinPages, BinSize, RunLen;
    RunSpan(T, O, a);
    var r, info := RunOf(T, O, a).start, RunOf(T, O, a).info;
    assert RunOf(T, O, r) == RunOf(T, O, a);
    if info.LRun? {
      NoLargeIn(T, O, live, main, r, info.pages);
    } else {
      forall x | SlotAt(r, info.bin, x)
        ensures InFree(lists, info.bin, x)
      {
        SlotHome(T, O, r, info.bin, x);
        assert IsSlot(T, O, x, info.bin);
        RunSpan(T, O, x);
      }
      assert info.bin > 0 ==> CondemnedAt(T, O, lists, info.bin, r);
    }
  }

  /** Some run of bin 0 lies in the chunk. */
  ghost predicate HasBinZero(T: Tables, O: Owners, c: int) {
    exists a :: Base(a) == c && IsBinZero(RunOf(T, O, a))
  }

  ghost predicate IsBinZero(ref: RunRef) {
    ref.RunRef? && ref.info.SRun? && ref.info.bin == 0
  }

  /**
     The main chunk of a heap with no live small or large block in it, once the condemned runs are
     released: it is empty, and the collector then deletes it, exactly when no run of bin 0 lies in it.
   */
  lemma CollectedMain(h: Heap, gone: set<int>, T: Tables, O: Owners)
    requires h.Inv() && !MainInUse(h.live, h.mainChunk) && DeadAre(h.tables, h.owner, h.free, BINS, gone)
    requires TablesOk(T, O) && h.mainChunk in O && RunsReleased(h.tables, h.owner, T, O, gone)
    ensures h.mainChunk in T
    ensures T[h.mainChunk].freePages == PAGES - FIRST_PAGE <==> !HasBinZero(h.tables, h.owner, h.mainChunk)
  {
    hide *;
    h.InvParts();
    h.CoreParts({});
    ChunkFacts(T, O, h.mainChunk);
    RunsLeft(h.tables, h.owner, h.free, h.live, T, O, gone, h.mainChunk);
    NoRunsEmpty(T, O, h.mainChunk);
  }

  ghost predicate NoRuns(T: Tables, O: Owners, c: int) {
    forall a :: Base(a) == c ==> RunOf(T, O, a) == NoRun
  }

  lemma RunsLeft(T0: Tables, O0: Owners, lists: FreeLists, live: Live, T: Tables, O: Owners, gone: set<int>, main: int)
    requires TablesOk(T0, O0) && LedgerOk(T0, O0, lists, live, {}) && !MainInUse(live, main)
    requires DeadAre(T0, O0, lists, BINS, gone) && RunsReleased(T0, O0, T, O, gone)
    ensures NoRuns(T, O, main) <==> !HasBinZero(T0, O0, main)
  {
    hide RunOf, TablesOk, LedgerOk, MainInUse, Doomed;
    forall a | Base(a) == main && RunOf(T0, O0, a).RunRef?
      ensures RunOf(T, O, a) == NoRun <==> !IsBinZero(RunOf(T0, O0, a))
    {
      IdleRun(T0, O0, lists, live, main, a);
      var r := RunOf(T0, O0, a).start;
      DoomedServes(T0, O0, lists, a);
      assert r in gone <==> Doomed(T0, O0, lists, BINS, r);
    }
    forall a | Base(a) == main && RunOf(T0, O0, a) == NoRun
      ensures RunOf(T, O, a) == NoRun
    {}
  }

  lemma DoomedServes(T: Tables, O: Owners, lists: FreeLists, a: int)
    requires TablesOk(T, O) && RunOf(T, O, a).RunRef?
    ensures Doomed(T, O, lists, BINS, RunOf(T, O, a).start) ==> !IsBinZero(RunOf(T, O, a))
  {
    RunSpan(T, O, a);
    hide RunOf, TablesOk, BinPages, RunLen;
    assert RunOf(T, O, RunOf(T, O, a).start) == RunOf(T, O, a);
  }

  lemma NoRunsEmpty(T: Tables, O: Owners, c: int)
    requires TablesOk(T, O) && c in O && c in T
    ensures NoRuns(T, O, c) <==> T[c].freePages == PAGES - FIRST_PAGE
  {
    ChunkFacts(T, O, c);
    hide TablesOk;
    EmptyTable(T[c], O[c]);
    PagesRuns(T, O, c);
  }

  lemma PagesRuns(T: Tables, O: Owners, c: int)
    requires TablesOk(T, O) && c in O && c in T
    ensures |O[c]| == PAGES && (NoRuns(T, O, c) <==> forall p :: 0 < p < PAGES ==> O[c][p] < 0)
  {
    ChunkFacts(T, O, c);
    hide TablesOk, RunOf, Base, PageNum;
    if NoRuns(T, O, c) {
      forall p | 0 < p < PAGES ensures O[c][p] < 0 {
        PageAddress(c, p, c);
        RunOfIs(T, O, c + p * PAGE_SIZE);
        BitShows(T[c], O[c], p);
        assert RunOf(T, O, c + p * PAGE_SIZE) == NoRun;
      }
    }
    if forall p :: 0 < p < PAGES ==> O[c][p] < 0 {
      forall a | Base(a) == c ensures RunOf(T, O, a) == NoRun {
        RunOfIs(T, O, a);
      }
    }
  }

  /** The first allocation of a new heap, freed again, empties the main chunk: the code then deletes it. */
  lemma FirstFreeEmptiesMain(n: nat)
    requires 0 < n < PAGES
    ensures var t := Carve(InitTable(ZeroTable()), FIRST_PAGE, n);
            |t.map_| > 1 && Release(t, FIRST_PAGE, n).freePages == PAGES - FIRST_PAGE
  {
    var t := InitTable(ZeroTable());
    assert t.freePages == PAGES - FIRST_PAGE && |t.map_| == PAGES;
  }
}
