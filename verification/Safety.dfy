/** Blocks that are handed out: they never overlap, never touch a chunk header, and their sizes add up. */
module Safety {
  import opened Sizes
  import opened PageBits
  import opened Chunks
  import opened Rings
  import opened Blocks
  import opened Ledger
  import opened Memory
  import opened Regions
  import opened Steps
  import opened Sweep
  import opened SweepRuns

  // ---- no overlap ----

  lemma HugeEntryOf(huge: seq<HugeEntry>, live: Live, a: int) returns (e: HugeEntry)
    requires HugeLedger(huge, live) && a in live && live[a].Huge?
    ensures e in huge && e.ptr == a && live[a] == Huge(e.size) && e.size > 0 && IsPtr(huge, a)
  {
    assert IsPtr(huge, a);
    e :| e in huge && e.ptr == a;
    assert EntryLive(live, e);
  }

  lemma HugeHuge(live: Live, regions: RegionMap, ring: seq<int>, cache: seq<int>, huge: seq<HugeEntry>, loose: RegionMap, a: int, b: int, w: int)
    requires HugeLedger(huge, live) && RegionsOk(regions, ring, cache, huge, loose)
    requires InBlock(live, a, w) && InBlock(live, b, w) && live[a].Huge? && live[b].Huge?
    ensures a == b
  {
    var e := HugeEntryOf(huge, live, a);
    var f := HugeEntryOf(huge, live, b);
    assert a in regions && regions[a] == e.size && b in regions && regions[b] == f.size;
  }

  lemma BlockBase(T: Tables, O: Owners, free: FreeLists, live: Live, a: int, w: int)
    requires TablesOk(T, O) && LedgerOk(T, O, free, live, {}) && InBlock(live, a, w) && !live[a].Huge?
    ensures Base(w) == Base(a) && Base(a) in O && Base(w) + PAGE_SIZE <= w
  {
    hide *;
    BlockFacts(live, a, w);
    LiveOccupies(T, O, free, live, {}, a);
    Extent(T, O, a, BlockSize(live[a]));
    BaseAligned(a);
    InsideHere(a, BlockSize(live[a]), w, RunOf(T, O, a).start);
  }

  lemma InsideHere(a: int, size: int, w: int, r: int)
    requires a <= w < a + size && Base(a) <= a && a + size <= Base(a) + CHUNK_SIZE && Base(r) + PAGE_SIZE <= r <= a && Base(r) == Base(a)
    ensures Base(w) == Base(a) && Base(w) + PAGE_SIZE <= w
  {}

  /** An address lies in at most one block. */
  lemma LiveApart(T: Tables, O: Owners, free: FreeLists, live: Live, regions: RegionMap, ring: seq<int>,
                  cache: seq<int>, huge: seq<HugeEntry>, loose: RegionMap, a: int, b: int, w: int)
    requires TablesOk(T, O) && LedgerOk(T, O, free, live, {}) && OwnersAre(O, ring) && HugeLedger(huge, live)
    requires RegionsOk(regions, ring, cache, huge, loose) && InBlock(live, a, w) && InBlock(live, b, w)
    ensures a == b
  {
    hide *;
    BlockFacts(live, a, w);
    BlockFacts(live, b, w);
    if live[a].Huge? && live[b].Huge? {
      HugeHuge(live, regions, ring, cache, huge, loose, a, b, w);
    } else if live[a].Huge? {
      BlockBase(T, O, free, live, b, w);
      HugeApart(T, O, live, regions, ring, cache, huge, loose, a, w);
    } else if live[b].Huge? {
      BlockBase(T, O, free, live, a, w);
      HugeApart(T, O, live, regions, ring, cache, huge, loose, b, w);
    } else {
      LiveOccupies(T, O, free, live, {}, a);
      LiveOccupies(T, O, free, live, {}, b);
      if a < b {
        Apart(T, O, a, BlockSize(live[a]), b, BlockSize(live[b]));
      } else if b < a {
        Apart(T, O, b, BlockSize(live[b]), a, BlockSize(live[a]));
      }
    }
  }

  // ---- total size ----

  /** The sum of the sizes of all blocks. */
  ghost function Total(live: Live): int
    decreases |live|
  {
    if live == map[] then 0
    else
      var a := Pick(live);
      BlockSize(live[a]) + Total(live - {a})
  }

  ghost function Pick(live: Live): (a: int)
    requires live != map[]
    ensures a in live
  {
    NotEmpty(live);
    var a :| a in live;
    a
  }

  lemma NotEmpty(live: Live)
    requires live != map[]
    ensures exists a :: a in live
  {
    if forall a :: a !in live {
      assert false;
    }
  }

  lemma {:induction false} TotalDrop(live: Live, a: int)
    requires a in live
    ensures Total(live) == BlockSize(live[a]) + Total(live - {a})
    decreases |live|
  {
    hide BlockSize;
    var b := Pick(live);
    if a != b {
      TotalDrop(live - {b}, a);
      TotalDrop(live - {a}, b);
      assert live - {b} - {a} == live - {a} - {b};
    }
  }

  lemma TotalAdd(live: Live, a: int, b: Block)
    requires a !in live
    ensures Total(live[a := b]) == Total(live) + BlockSize(b)
  {
    TotalDrop(live[a := b], a);
    assert live[a := b] - {a} == live;
  }

  lemma TotalChange(live: Live, a: int, b: Block)
    requires a in live
    ensures Total(live[a := b]) == Total(live) - BlockSize(live[a]) + BlockSize(b)
  {
    TotalDrop(live, a);
    TotalAdd(live - {a}, a, b);
    assert (live - {a})[a := b] == live[a := b];
  }

  // ---- freeing a slot ----

  /** The first word of a block belongs to no other block and to no free list. */
  lemma FirstWordApart(T: Tables, O: Owners, free: FreeLists, live: Live, regions: RegionMap, ring: seq<int>,
                       cache: seq<int>, huge: seq<HugeEntry>, loose: RegionMap, p: int)
    requires TablesOk(T, O) && LedgerOk(T, O, free, live, {}) && OwnersAre(O, ring) && HugeLedger(huge, live)
    requires RegionsOk(regions, ring, cache, huge, loose) && p in live && BlockSize(live[p]) > 0
    ensures forall a :: a != p ==> !InBlock(live, a, p)
    ensures forall b :: !InFree(free, b, p)
  {
    hide *;
    InBlockIs(live, p, p);
    forall a | a != p
      ensures !InBlock(live, a, p)
    {
      if InBlock(live, a, p) {
        LiveApart(T, O, free, live, regions, ring, cache, huge, loose, a, p, p);
      }
    }
    forall b
      ensures !InFree(free, b, p)
    {
      if InFree(free, b, p) {
        FreeOccupies(T, O, free, live, {}, b, p);
      }
    }
  }

  lemma InBlockIs(live: Live, a: int, w: int)
    requires a in live && a <= w < a + BlockSize(live[a])
    ensures InBlock(live, a, w)
  {}

  /** What pushing a freed slot does to the words and chains. */
  lemma PushAll(mem: Words, heads: seq<int>, free: FreeLists, live: Live, bin: int, p: int)
    requires ChainsOk(mem, heads, free) && 0 <= bin < BINS && p != 0
    requires (forall b :: !InFree(free, b, p)) && forall a :: a != p ==> !InBlock(live, a, p)
    ensures |heads| == |free| == BINS && ChainsOk(mem[p := heads[bin]], heads[bin := p], free[bin := [p] + free[bin]])
    ensures SameBlocks(mem, mem[p := heads[bin]], live - {p})
  {
    var mem', heads', free' := mem[p := heads[bin]], heads[bin := p], free[bin := [p] + free[bin]];
    forall b | 0 <= b < BINS
      ensures ChainOk(mem', heads'[b], free'[b])
    {
      assert !InFree(free, b, p);
      if b == bin {
        ChainPush(mem, heads[bin], free[bin], p);
      } else {
        ChainFrame(mem, mem', heads[b], free[b]);
      }
    }
    forall a, w | InBlock(live - {p}, a, w)
      ensures Rd(mem', w) == Rd(mem, w)
    {
      assert InBlock(live, a, w);
    }
  }

  lemma PopAll(mem: Words, heads: seq<int>, free: FreeLists, bin: int)
    requires ChainsOk(mem, heads, free) && 0 <= bin < BINS && |heads| == BINS && heads[bin] != 0
    ensures |free| == BINS && free[bin] != [] && heads[bin] == free[bin][0]
    ensures ChainsOk(mem, heads[bin := Rd(mem, heads[bin])], free[bin := free[bin][1..]])
  {
    hide Rd;
    assert ChainOk(mem, heads[bin], free[bin]);
    var heads', free' := heads[bin := Rd(mem, heads[bin])], free[bin := free[bin][1..]];
    forall b | 0 <= b < BINS
      ensures ChainOk(mem, heads'[b], free'[b])
    {
      assert ChainOk(mem, heads[b], free[b]);
    }
  }

  lemma SlotSizePositive(live: Live, p: int, bin: int)
    requires LiveAs(live, p, Small(bin)) && 0 <= bin < BINS
    ensures BlockSize(live[p]) == BinSize(bin) > 0 && p in live && !live[p].Huge?
  {
    BinFacts(bin);
  }

  lemma HeadsShow(mem: Words, heads: seq<int>, free: FreeLists)
    requires ChainsOk(mem, heads, free)
    ensures |free| == |heads| == BINS
    ensures forall bin :: 0 <= bin < BINS ==> (heads[bin] == 0 <==> free[bin] == [])
    ensures forall bin :: 0 <= bin < BINS ==> free[bin] != [] ==> heads[bin] == free[bin][0]
  {
    forall bin | 0 <= bin < BINS
      ensures heads[bin] == 0 <==> free[bin] == []
      ensures free[bin] != [] ==> heads[bin] == free[bin][0]
    {
      assert ChainOk(mem, heads[bin], free[bin]);
    }
  }

  lemma LiveNotZero(T: Tables, O: Owners, free: FreeLists, live: Live, p: int)
    requires TablesOk(T, O) && LedgerOk(T, O, free, live, {}) && p in live && !live[p].Huge?
    ensures p > 0
  {
    hide *;
    LiveOccupies(T, O, free, live, {}, p);
    Extent(T, O, p, BlockSize(live[p]));
    ChunkFacts(T, O, Base(p));
    BaseAligned(p);
  }

  lemma IndexOf(s: seq<int>, x: int) returns (k: nat)
    requires x in s
    ensures k < |s| && s[k] == x
  {
    k :| 0 <= k < |s| && s[k] == x;
  }

  lemma OnlyFirst(ring: seq<int>, k: nat)
    requires Distinct(ring) && k < |ring|
    ensures k == 0 <==> ring[k] == ring[0]
  {}

  lemma LargeStarts(t: Table, o: Owner, page: int, n: int)
    requires IsRun(t, o, page, LRun(n))
    ensures IsStart(t, o, page) && RunLen(t.map_[page]) == n
  {}

  lemma LiveAsSum(live: Live, p: int, p': int, b: Block)
    requires LiveAs(live, p, b) && p' == p
    ensures LiveAs(live, p', b) && live - {p'} == live - {p}
  {}

  /** A large block is no list node. */
  lemma HugeLedgerLess(huge: seq<HugeEntry>, live: Live, p: int, n: int)
    requires HugeLedger(huge, live) && LiveAs(live, p, Large(n))
    ensures HugeLedger(huge, live - {p})
  {
    forall e | e in huge
      ensures EntryLive(live - {p}, e)
    {
      assert EntryLive(live, e);
    }
  }

  /** The main chunk is not emptied while another block in it is in use. */
  lemma NotLast(T: Tables, O: Owners, free: FreeLists, live: Live, c: int, page: int, n: int, main: int)
    requires TablesOk(T, O) && c in O && c in T && IsStart(T[c], O[c], page) && 0 <= page < |T[c].map_| && n == RunLen(T[c].map_[page]) && n >= 0
    requires ReleasedLedger(T, O, free, live, {}, c, page, n) && MainInUse(live, main)
    ensures c == main ==> T[c].freePages + n != PAGES - FIRST_PAGE
  {
    hide *;
    ReleaseStep(T, O, c, page, n);
    ReleasedIs(T, O, free, live, {}, c, page, n);
    ReleasedCount(T[c], page, n);
    if c == main {
      InUseNotEmpty(T[c := Release(T[c], page, n)], O[c := Assign(O[c], page, n, -1)], free, live, {}, c);
    }
  }

  lemma ReleasedCount(t: Table, page: int, n: int)
    requires 0 <= page < |t.map_| && n >= 0
    ensures Release(t, page, n).freePages == t.freePages + n
  {}
}
