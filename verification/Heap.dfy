/**
 The heap: its record, the chunk headers and the words of memory it owns, and the steps that change
 them. Pointers are addresses; ghost fields hold what the pointer structures mean.
 */
module ZendHeap {
  import opened Sizes
  import opened PageBits
  import opened Chunks
  import opened Rings
  import opened Blocks
  import opened Ledger
  import opened Memory
  import opened Regions
  import opened Collector
  import opened Steps
  import opened Sweep
  import opened SweepRuns
  import opened Occupancy
  import opened Slots
  import opened Safety
  import opened HugeBlocks
  import opened InPlace
  import opened Limits

  class Heap {
    // the heap record
    var size: int
    var peak: int
    var realSize: int
    var realPeak: int
    var limit: int
    var overflow: bool
    var freeSlot: seq<int>
    var hugeList: int
    var mainChunk: int
    var cachedChunks: int
    var chunksCount: int
    var peakChunksCount: int
    var cachedChunksCount: int

    // chunk headers, words of memory, and what the system has mapped
    var links: LinkMap
    var tables: Tables
    var mem: Words
    var regions: RegionMap

    // what the pointers mean
    ghost var ring: seq<int>
    ghost var cache: seq<int>
    ghost var owner: Owners
    ghost var free: FreeLists
    ghost var live: Live
    ghost var huge: seq<HugeEntry>
    ghost var loose: RegionMap

    // how often the system had no memory
    ghost var refusals: nat

    // how often the system did not change a region in place
    ghost var unresized: nat

    ghost predicate RingPart()
      reads this`links, this`ring, this`mainChunk
    {
      RingOk(links, ring) && ring[0] == mainChunk
    }

    ghost predicate CachePart()
      reads this`links, this`cachedChunks, this`cache, this`tables
    {
      ListOk(links, cachedChunks, cache) && Distinct(cache) && SparesOk(tables, links, cache)
    }

    ghost predicate PagesPart()
      reads this`tables, this`owner, this`ring
    {
      TablesOk(tables, owner) && OwnersAre(owner, ring)
    }

    ghost predicate HugePart()
      reads this`mem, this`hugeList, this`huge, this`live
    {
      HugeChain(mem, hugeList, huge) && HugeLedger(huge, live)
    }

    /** The shape of the heap; dead holds the runs the collector has condemned but not yet released. */
    ghost predicate Core(dead: set<int>)
      reads this`links, this`ring, this`mainChunk, this`cachedChunks, this`cache, this`tables, this`owner
      reads this`mem, this`hugeList, this`huge, this`live, this`free, this`freeSlot, this`regions, this`loose
    {
      && RingPart() && CachePart() && PagesPart() && HugePart()
      && LedgerOk(tables, owner, free, live, dead)
      && ChainsOk(mem, freeSlot, free)
      && RegionsOk(regions, ring, cache, huge, loose)
    }

    ghost predicate Counts()
      reads this`chunksCount, this`ring, this`cachedChunksCount, this`cache
    {
      chunksCount == |ring| && cachedChunksCount == |cache|
    }

    /** real_size beyond the chunks: what the huge blocks take. */
    ghost function Beyond(): int
      reads this`realSize, this`ring, this`cache
    {
      realSize - CHUNK_SIZE * (|ring| + |cache|)
    }

    /** A new heap on one chunk that the system has mapped: its header is zero until written here. */
    constructor (chunk: int)
      requires chunk > 0 && chunk % CHUNK_SIZE == 0
      ensures Valid() && Fresh() && live == map[] && huge == [] && ring == [chunk] && mainChunk == chunk
      ensures realSize == CHUNK_SIZE && size == 0 && limit == 0x7FFF_FFFF_FFFF_FFFF && !overflow
    {
      size, peak, realSize, realPeak := 0, 0, CHUNK_SIZE, CHUNK_SIZE;
      limit, overflow := MAX_LIMIT, false;
      freeSlot := NoSlots();
      hugeList := 0;
      mainChunk := chunk;
      cachedChunks := 0;
      chunksCount, peakChunksCount, cachedChunksCount := 1, 1, 0;
      links := map[chunk := Links(chunk, chunk, 0)];
      tables := map[chunk := InitTable(ZeroTable())];
      mem := map[];
      regions := map[chunk := CHUNK_SIZE];
      ring, cache := [chunk], [];
      owner := map[chunk := FreshOwner()];
      free := NoLists();
      live, huge, loose := map[], [], map[];
      refusals, unresized := 0, 0;
      new;
      hide *;
      StartFits(chunk);
      NothingYet(chunk);
      CoreIs({});
      OccupiedAlone(tables, chunk);
      InvIs();
      CountsAre(1, 0);
      BooksStart();
      FreshIs();
      ValidIs();
    }

    lemma CountsAre(n: int, m: int)
      requires chunksCount == n == |ring| && cachedChunksCount == m == |cache|
      ensures Counts()
    {}

    lemma BooksStart()
      requires size == peak == 0 && realSize == realPeak == CHUNK_SIZE && |ring| == 1 && |cache| == 0 && live == map[] && huge == []
      ensures size == Total(live) && size <= peak && realSize <= realPeak && Beyond() == HugeTotal(huge)
    {}

    lemma FreshIs()
      requires mainChunk in tables && tables[mainChunk].freePages == PAGES - FIRST_PAGE && free == NoLists()
      ensures Fresh()
    {}

    // ---- the operating system ----

    /** Maps size bytes at a chunk boundary, or fails; chunk headers in new memory are zero. */
    method MapRegion(bytes: int) returns (p: int)
      requires bytes > 0
      modifies this`regions, this`loose, this`refusals
      ensures p == 0 ==> regions == old(regions) && loose == old(loose)
      ensures refusals == old(refusals) + if p == 0 then 1 else 0
      ensures p != 0 ==> p > 0 && p % CHUNK_SIZE == 0 && ClearOf(old(regions), p, bytes)
      ensures p != 0 ==> regions == old(regions)[p := bytes] && loose == old(loose)[p := bytes]
    {
      p := *;
      if !(p > 0 && p % CHUNK_SIZE == 0 && ClearOf(regions, p, bytes)) {
        p := 0;
      }
      if p != 0 {
        regions := regions[p := bytes];
        loose := loose[p := bytes];
      } else {
        refusals := refusals + 1;
      }
    }

    /** Unmaps a region. */
    method UnmapRegion(p: int)
      modifies this`regions, this`loose
      ensures regions == old(regions) - {p} && loose == old(loose) - {p}
    {
      regions := regions - {p};
      loose := loose - {p};
    }

    // ---- chunks ----

    /** Initialises the header of a chunk the ring does not have yet and links it in front of the main chunk. */
    method InitChunk(chunk: int, ghost dead: set<int>)
      requires Core(dead) && chunk in loose && loose[chunk] == CHUNK_SIZE
      requires chunk in links && chunk in tables && AlmostSpare(tables[chunk]) && |tables[chunk].map_| > 0
      modifies this`links, this`tables, this`ring, this`owner, this`loose
      ensures Core(dead) && ring == old(ring) + [chunk] && chunk !in old(ring) && loose == old(loose) - {chunk}
      ensures owner == old(owner)[chunk := FreshOwner()] && SameRuns(old(tables), old(owner), tables, owner)
      ensures tables == old(tables)[chunk := InitTable(old(tables)[chunk])]
      ensures tables[chunk].bits == FreshBits() && tables[chunk].freeTail == FIRST_PAGE && |tables[chunk].map_| == PAGES
      ensures |old(ring)| > 0 && NumOf(links, chunk) == NumOf(old(links), old(ring)[|old(ring)| - 1]) + 1
      ensures |ring| == |old(ring)| + 1 > 1 && ring[|ring| - 1] == chunk && chunk in owner
    {
      hide *;
      CoreParts(dead);
      AlmostSized(tables[chunk]);
      ghost var links0, ring0, tables0, owner0 := links, ring, tables, owner;
      ToRing(regions, ring, cache, huge, loose, chunk);
      LooseRegion(regions, ring, cache, huge, loose, chunk);
      LinkLastOk(links, ring, chunk);
      LinkLastNum(links, ring, chunk);
      InitTableOk(tables[chunk]);
      OwnerNew(owner, ring, chunk);
      LinkStep(tables, owner, chunk, InitTable(tables[chunk]));
      LedgerFrame(tables, owner, tables[chunk := InitTable(tables[chunk])], owner[chunk := FreshOwner()], free, live, dead);
      CacheFrame(links, LinkLast(links, mainChunk, chunk), tables, tables[chunk := InitTable(tables[chunk])], cachedChunks, cache, ring, chunk);
      SameRunsIs(tables, owner, tables[chunk := InitTable(tables[chunk])], owner[chunk := FreshOwner()]);
      links := LinkLast(links, mainChunk, chunk);
      tables := tables[chunk := InitTable(tables[chunk])];
      ring := ring + [chunk];
      owner := owner[chunk := FreshOwner()];
      loose := loose - {chunk};
      FirstOfAppend(ring0, chunk);
      CoreIs(dead);
    }

    /** Takes the empty chunk ring[k] out of the ring. The main chunk is never taken out. */
    method RemoveFromRing(chunk: int, ghost k: nat, ghost dead: set<int>)
      requires Core(dead) && 0 < k < |ring| && ring[k] == chunk
      requires chunk in tables && tables[chunk].freePages == PAGES - FIRST_PAGE
      modifies this`links, this`ring, this`owner, this`loose
      ensures Core(dead) && ring == Without(old(ring), k) && loose == old(loose)[chunk := CHUNK_SIZE]
      ensures owner == old(owner) - {chunk} && SameRuns(old(tables), old(owner), tables, owner)
      ensures Spare(tables, chunk) && chunk in links
      ensures SameNums(old(links), links)
      ensures links[chunk] == old(links)[chunk] && chunk !in old(loose) && |ring| == |old(ring)| - 1
    {
      hide *;
      CoreParts(dead);
      ghost var owner0, ring0 := owner, ring;
      OwnerAt(owner, ring, k);
      UnlinkStep(tables, owner, chunk);
      UnlinkOk(links, ring, k);
      UnlinkNums(links, chunk);
      WithoutFacts(ring, k);
      SpareIs(tables, chunk);
      FromRing(regions, ring, Without(ring, k), cache, huge, loose, chunk);
      CacheApart(regions, ring, cache, huge, loose, chunk);
      CacheFrame(links, Unlink(links, chunk), tables, tables, cachedChunks, cache, ring, chunk);
      OwnerGone(owner, ring, k);
      LedgerFrame(tables, owner, tables, owner - {chunk}, free, live, dead);
      SameRunsIs(tables, owner, tables, owner - {chunk});
      links := Unlink(links, chunk);
      ring := Without(ring, k);
      owner := owner - {chunk};
      loose := loose[chunk := CHUNK_SIZE];
      CoreIs(dead);
    }

    /** Puts a loose spare chunk at the head of the cached chunks. */
    method CacheChunk(chunk: int, ghost dead: set<int>)
      requires Core(dead) && chunk in loose && loose[chunk] == CHUNK_SIZE
      requires Spare(tables, chunk) && chunk in links
      modifies this`links, this`cachedChunks, this`cachedChunksCount, this`cache, this`loose
      ensures Core(dead) && cache == [chunk] + old(cache) && loose == old(loose) - {chunk}
      ensures cachedChunksCount == old(cachedChunksCount) + 1 && cachedChunks != 0
    {
      hide *;
      CoreParts(dead);
      LooseRegion(regions, ring, cache, huge, loose, chunk);
      ToCache(regions, ring, cache, huge, loose, chunk);
      ListPush(links, cachedChunks, cache, chunk);
      RingFrameNext(links, ring, chunk, cachedChunks);
      SparesCons(tables, links, cache, chunk, cachedChunks);
      cachedChunksCount := cachedChunksCount + 1;
      links := links[chunk := links[chunk].(next := cachedChunks)];
      cachedChunks := chunk;
      cache := [chunk] + cache;
      loose := loose - {chunk};
      ListNotEmpty(links, cachedChunks, cache);
      CoreIs(dead);
    }

    /** Takes the first cached chunk off the list. */
    method PopCached(ghost dead: set<int>) returns (chunk: int)
      requires Core(dead) && cachedChunks != 0
      modifies this`cachedChunks, this`cachedChunksCount, this`cache, this`loose
      ensures Core(dead) && old(cache) != [] && cache == old(cache)[1..] && loose == old(loose)[chunk := CHUNK_SIZE] && chunk !in old(loose)
      ensures cachedChunksCount == old(cachedChunksCount) - 1
      ensures chunk == old(cachedChunks)
      ensures Spare(tables, chunk) && chunk in links && chunk !in ring && chunk !in cache
    {
      hide *;
      CoreParts(dead);
      ListHead(links, cachedChunks, cache);
      ListPop(links, cachedChunks, cache);
      FromCache(regions, ring, cache, huge, loose);
      SparesHead(tables, links, cache);
      CacheNotLoose(regions, ring, cache, huge, loose);
      RingCacheApart(regions, ring, cache, huge, loose);
      cachedChunksCount := cachedChunksCount - 1;
      chunk := cachedChunks;
      cachedChunks := links[chunk].next;
      cache := cache[1..];
      loose := loose[chunk := CHUNK_SIZE];
      CoreIs(dead);
    }

    /** Returns a loose region to the system. */
    method ReleaseRegion(p: int, ghost dead: set<int>)
      requires Core(dead) && p in loose
      modifies this`regions, this`loose
      ensures Core(dead) && regions == old(regions) - {p} && loose == old(loose) - {p}
    {
      hide *;
      CoreParts(dead);
      Unmapped(regions, ring, cache, huge, loose, p);
      UnmapRegion(p);
      CoreIs(dead);
    }

    /** Unmaps an unlinked chunk, or the youngest cached chunk in its place if that is older. */
    method UnmapOne(chunk: int, ghost loose0: RegionMap, ghost dead: set<int>)
      requires Core(dead) && Spare(tables, chunk) && chunk in links
      requires loose == loose0[chunk := CHUNK_SIZE] && chunk !in loose0
      modifies this`links, this`loose, this`cachedChunks, this`cachedChunksCount, this`cache, this`regions
      ensures Core(dead) && loose == loose0 && |cache| == |old(cache)| && (old(cachedChunks) != 0 ==> cachedChunks != 0)
      ensures YoungerGoes(old(links), chunk, old(cachedChunks), old(cache), cache)
      ensures cachedChunksCount - |cache| == old(cachedChunksCount - |cache|)
    {
      hide Core, Spare, YoungerGoes;
      YoungerFirst(links, chunk, cachedChunks, cache);
      if cachedChunks == 0 {
        ReleaseRegion(chunk, dead);
      } else {
        CachedInLinks(dead);
        if links[chunk].num > links[cachedChunks].num {
          ReleaseRegion(chunk, dead);
        } else {
          var last := PopCached(dead);
          CacheChunk(chunk, dead);
          ReleaseRegion(last, dead);
        }
      }
    }

    /**
     Deletes an empty chunk: it is cached, or one chunk is unmapped. Whether deletion is delayed rests on
     averages kept as floating point numbers; here the choice is open.
     */
    method DeleteChunk(chunk: int, ghost k: nat, ghost dead: set<int>)
      requires Core(dead) && Counts() && 0 < k < |ring| && ring[k] == chunk
      requires chunk in tables && tables[chunk].freePages == PAGES - FIRST_PAGE
      modifies this`links, this`ring, this`owner, this`loose, this`chunksCount
      modifies this`cachedChunks, this`cachedChunksCount, this`cache, this`realSize, this`regions
      ensures Core(dead) && Counts() && ring == Without(old(ring), k) && loose == old(loose)
      ensures (cache == [chunk] + old(cache) && realSize == old(realSize))
              || (YoungerGoes(old(links), chunk, old(cachedChunks), old(cache), cache) && realSize == old(realSize) - CHUNK_SIZE)
      ensures owner == old(owner) - {chunk} && SameRuns(old(tables), old(owner), tables, owner)
      ensures Beyond() == old(Beyond()) && realSize <= old(realSize) && (old(cachedChunks) != 0 ==> cachedChunks != 0)
    {
      hide Core, SameRuns, Spare, YoungerGoes, SameNums;
      RemoveFromRing(chunk, k, dead);
      ghost var links1, head, cache0 := links, cachedChunks, cache;
      chunksCount := chunksCount - 1;
      var delay: bool := *;
      if delay {
        CacheChunk(chunk, dead);
      } else {
        realSize := realSize - CHUNK_SIZE;
        UnmapOne(chunk, old(loose), dead);
        YoungerSame(old(links), links1, chunk, head, cache0, cache);
      }
    }

    lemma CachedInLinks(dead: set<int>)
      requires Core(dead) && cachedChunks != 0
      ensures cachedChunks in links && cachedChunks !in loose
    {
      hide *;
      CoreParts(dead);
      ListHead(links, cachedChunks, cache);
      ListPop(links, cachedChunks, cache);
      CacheNotLoose(regions, ring, cache, huge, loose);
    }

    // ---- pages ----

    /** The search found where free_tail of a linked chunk really is. */
    method MoveTail(chunk: int, tail: nat, ghost dead: set<int>)
      requires Core(dead) && chunk in owner && chunk in tables && tail <= PAGES && |tables[chunk].bits| == PAGES
      requires tail == tables[chunk].freeTail || FreeRange(tables[chunk].bits, tail, PAGES - tail)
      modifies this`tables
      ensures Core(dead) && tables == old(tables)[chunk := old(tables)[chunk].(freeTail := tail)]
      ensures SameRuns(old(tables), owner, tables, owner)
    {
      hide *;
      CoreParts(dead);
      TailStep(tables, owner, chunk, tail);
      LedgerFrame(tables, owner, tables[chunk := tables[chunk].(freeTail := tail)], owner, free, live, dead);
      SameRunsIs(tables, owner, tables[chunk := tables[chunk].(freeTail := tail)], owner);
      SparesTail(tables, links, cache, chunk, tail);
      tables := tables[chunk := tables[chunk].(freeTail := tail)];
      CoreIs(dead);
    }

    /**
     Walks the ring from the main chunk for the first chunk with a run of n free pages; page is -1 when
     no chunk has one. A search that reaches a chunk's free tail makes free_tail accurate.
     */
    method SearchRing(n: nat, ghost dead: set<int>) returns (chunk: int, page: int, steps: int)
      requires Core(dead) && 0 < n
      modifies this`tables
      ensures Core(dead) && OnlyTails(old(tables), tables) && SameRuns(old(tables), owner, tables, owner)
      ensures 0 <= steps < |ring| && chunk == ring[steps]
      ensures page > 0 ==> NoneFit(old(tables), ring[..steps], n) && ReadyAt(tables, chunk, page, n)
      ensures page > 0 ==> BestFitIn(old(tables), chunk, n, page)
      ensures page <= 0 ==> NoneFit(old(tables), ring, n) && steps == |ring| - 1
    {
      hide *;
      CoreRing(dead);
      chunk, page, steps := mainChunk, -1, 0;
      ghost var tables0 := tables;
      TailsStart(tables, owner, ring, n);
      while true
        invariant Core(dead) && OnlyTails(tables0, tables) && SameRuns(tables0, owner, tables, owner)
        invariant 0 <= steps < |ring| && chunk == ring[steps] && NoneFit(tables0, ring[..steps], n)
        decreases |ring| - steps
      {
        page := SearchOne(chunk, n, tables0, steps, dead);
        if page > 0 {
          return;
        }
        CoreNext(steps, dead);
        NoneFitNext(tables0, ring, steps, n);
        if links[chunk].next == mainChunk {
          return;
        }
        chunk := links[chunk].next;
        steps := steps + 1;
      }
    }

    /** One chunk of the walk. */
    method SearchOne(chunk: int, n: nat, ghost tables0: Tables, ghost k: int, ghost dead: set<int>) returns (page: int)
      requires Core(dead) && 0 < n && 0 <= k < |ring| && chunk == ring[k]
      requires OnlyTails(tables0, tables) && SameRuns(tables0, owner, tables, owner)
      modifies this`tables
      ensures Core(dead) && OnlyTails(tables0, tables) && SameRuns(tables0, owner, tables, owner)
      ensures page > 0 ==> ReadyAt(tables, chunk, page, n) && BestFitIn(tables0, chunk, n, page)
      ensures page <= 0 ==> page == -1 && NoFit(tables0, chunk, n)
    {
      hide *;
      CoreChunk(k, dead);
      SearchChunk(tables, owner, chunk, n);
      NoFitTails(tables0, tables, chunk, n);
      page := -1;
      if tables[chunk].freePages >= n {
        var f := Search(tables[chunk].bits, tables[chunk].freeTail, n);
        TailsStep(tables0, tables, owner, chunk, f.tail);
        MoveTail(chunk, f.tail, dead);
        SameRunsTrans(tables0, old(tables), tables, owner);
        // a page is never 0: the header page is taken
        page := f.page;
      }
    }

    lemma CoreRing(dead: set<int>)
      requires Core(dead)
      ensures |ring| > 0 && ring[0] == mainChunk && mainChunk in links
    {
      hide *;
      CoreParts(dead);
    }

    lemma CoreChunk(k: int, dead: set<int>)
      requires Core(dead) && 0 <= k < |ring|
      ensures ring[k] in owner && ring[k] in tables && TablesOk(tables, owner)
      ensures |tables[ring[k]].bits| == |tables[ring[k]].map_| == PAGES && ring[k] > 0 && ring[k] % CHUNK_SIZE == 0
      ensures ring[k] in links && ring[k] in ring && tables[ring[k]].freeTail <= PAGES
    {
      hide *;
      CoreParts(dead);
      OwnerAt(owner, ring, k);
      ChunkFacts(tables, owner, ring[k]);
      InRing(links, ring);
    }

    lemma CoreNext(k: int, dead: set<int>)
      requires Core(dead) && 0 <= k < |ring|
      ensures ring[k] in links
      ensures if k + 1 < |ring| then links[ring[k]].next == ring[k + 1] && ring[k + 1] != mainChunk
              else links[ring[k]].next == mainChunk
    {
      hide *;
      CoreParts(dead);
      RingNext(links, ring, k);
    }

    ghost predicate Inv()
      reads this`links, this`ring, this`mainChunk, this`cachedChunks, this`cache, this`tables, this`owner
      reads this`mem, this`hugeList, this`huge, this`live, this`free, this`freeSlot, this`regions, this`loose
    {
      Core({}) && Quiet(tables, owner) && Occupied(tables, ring, mainChunk)
    }

    lemma InvParts()
      requires Inv()
      ensures Core({}) && Quiet(tables, owner) && Occupied(tables, ring, mainChunk)
    {
      hide Core, Quiet, Occupied;
    }

    lemma InvIs()
      requires Core({}) && Quiet(tables, owner) && Occupied(tables, ring, mainChunk)
      ensures Inv()
    {
      hide Core, Quiet, Occupied;
    }

    /** The heap with a chunk that may still be empty. */
    ghost predicate InvBut(chunk: int)
      reads this`links, this`ring, this`mainChunk, this`cachedChunks, this`cache, this`tables, this`owner
      reads this`mem, this`hugeList, this`huge, this`live, this`free, this`freeSlot, this`regions, this`loose
    {
      Core({}) && Quiet(tables, owner) && OccupiedBut(tables, ring, mainChunk, chunk)
    }

    lemma InvButParts(chunk: int)
      requires InvBut(chunk)
      ensures Core({}) && Quiet(tables, owner) && OccupiedBut(tables, ring, mainChunk, chunk)
    {
      hide Core, Quiet, OccupiedBut;
    }

    lemma InvButIs(chunk: int)
      requires Core({}) && Quiet(tables, owner) && OccupiedBut(tables, ring, mainChunk, chunk)
      ensures InvBut(chunk)
    {
      hide Core, Quiet, OccupiedBut;
    }

    lemma InvWeaker(chunk: int)
      requires Inv()
      ensures InvBut(chunk)
    {
      hide *;
      InvParts();
      OccupiedIs(tables, ring, mainChunk, chunk);
      InvButIs(chunk);
    }

    /** Moves ring[k] right behind the main chunk. */
    method MoveToFront(chunk: int, ghost k: nat, ghost dead: set<int>)
      requires Core(dead) && 0 < k < |ring| && ring[k] == chunk
      modifies this`links, this`ring
      ensures Core(dead) && ring == MovedToFront(old(ring), k)
      ensures |ring| == |old(ring)| && ring[1] == chunk && forall x :: x in ring <==> x in old(ring)
    {
      hide *;
      CoreParts(dead);
      MoveToFrontOk(links, ring, k);
      Reordered(regions, ring, MovedToFront(ring, k), cache, huge, loose);
      OwnersReordered(owner, ring, MovedToFront(ring, k));
      CoreChunk(k, dead);
      CacheApart(regions, ring, cache, huge, loose, chunk);
      ghost var l := Unlink(links, chunk);
      CacheFrame(links, LinkFirst(l, mainChunk, chunk), tables, tables, cachedChunks, cache, ring, chunk);
      links := Unlink(links, chunk);
      links := LinkFirst(links, mainChunk, chunk);
      ring := MovedToFront(ring, k);
      CoreIs(dead);
    }

    /** Takes n free pages as a run and hands it out. */
    method CarveRun(chunk: int, page: int, n: nat, ghost dead: set<int>) returns (p: int)
      requires Core(dead) && chunk in owner && ReadyAt(tables, chunk, page, n)
      modifies this`tables, this`owner, this`live
      ensures Core(dead) && p == chunk + page * PAGE_SIZE && StartAddress(p) && Base(p) == chunk && PageNum(p) == page
      ensures p !in old(live) && live == old(live)[p := Large(n)]
      ensures Quiet(old(tables), old(owner)) ==> Quiet(tables, owner)
      ensures OccupiedBut(old(tables), ring, mainChunk, chunk) ==> Occupied(tables, ring, mainChunk)
      ensures owner.Keys == old(owner).Keys && chunk in tables && page + n <= tables[chunk].freeTail
    {
      hide *;
      CoreParts(dead);
      OwnerInRing(owner, ring, chunk);
      ChunkFacts(tables, owner, chunk);
      CarveAll(tables, owner, free, live, dead, chunk, page, n);
      p := chunk + page * PAGE_SIZE;
      HugeLedgerAdd(huge, live, p, Large(n));
      ghost var O' := owner[chunk := Assign(owner[chunk], page, n, page)];
      SparesStep(tables, links, cache, regions, ring, huge, loose, chunk, Carve(tables[chunk], page, n));
      OwnersSame(owner, O', ring, chunk);
      tables := tables[chunk := Carve(tables[chunk], page, n)];
      owner := O';
      live := live[p := Large(n)];
      CoreIs(dead);
      CoreParts(dead);
      LiveNow(old(live), p, Large(n));
      BlockNotEmpty(tables, owner, free, live, dead, p, Large(n));
      if OccupiedBut(old(tables), ring, mainChunk, chunk) {
        OccupiedStep(old(tables), ring, mainChunk, chunk, tables);
      }
    }

    /** Gives the pages of a run back to its chunk, which stays; who loses the run is the caller's business. */
    method ReleaseRun(chunk: int, page: int, n: int, ghost dead: set<int>, ghost dead': set<int>, ghost live': Live)
      requires Core(dead) && chunk in owner && chunk in tables && IsStart(tables[chunk], owner[chunk], page)
      requires 0 <= page < |tables[chunk].map_| && n >= 0 && n == RunLen(tables[chunk].map_[page]) && HugeLedger(huge, live')
      requires ReleasedLedger(tables, owner, free, live', dead', chunk, page, n)
      modifies this`tables, this`owner, this`live
      ensures Core(dead') && live == live'
      ensures tables == old(tables)[chunk := Release(old(tables)[chunk], page, n)]
      ensures owner == old(owner)[chunk := Assign(old(owner)[chunk], page, n, -1)]
    {
      hide *;
      CoreParts(dead);
      ReleaseStep(tables, owner, chunk, page, n);
      OwnerInRing(owner, ring, chunk);
      ghost var O' := owner[chunk := Assign(owner[chunk], page, n, -1)];
      SparesStep(tables, links, cache, regions, ring, huge, loose, chunk, Release(tables[chunk], page, n));
      OwnersSame(owner, O', ring, chunk);
      ReleasedIs(tables, owner, free, live', dead', chunk, page, n);
      tables := tables[chunk := Release(tables[chunk], page, n)];
      owner := O';
      live := live';
      CoreIs(dead');
    }

    /** Frees a run of pages and deletes the chunk once it is empty. */
    method FreePages(chunk: int, page: int, n: int, ghost k: nat,
                     ghost dead: set<int>, ghost dead': set<int>, ghost live': Live)
      requires Core(dead) && Counts() && chunk in owner && chunk in tables && IsStart(tables[chunk], owner[chunk], page)
      requires 0 <= page < |tables[chunk].map_| && n >= 0 && n == RunLen(tables[chunk].map_[page]) && HugeLedger(huge, live')
      requires ReleasedLedger(tables, owner, free, live', dead', chunk, page, n)
      requires k < |ring| && ring[k] == chunk && (k == 0 ==> tables[chunk].freePages + n != PAGES - FIRST_PAGE)
      modifies this`tables, this`owner, this`live, this`links, this`ring, this`loose, this`chunksCount
      modifies this`cachedChunks, this`cachedChunksCount, this`cache, this`realSize, this`regions
      ensures Core(dead') && Counts() && live == live' && loose == old(loose) && |ring| > 0
      ensures Beyond() == old(Beyond()) && realSize <= old(realSize)
      ensures Occupied(old(tables), old(ring), mainChunk) ==> Occupied(tables, ring, mainChunk)
      ensures SameRuns(old(tables)[chunk := Release(old(tables)[chunk], page, n)],
                       old(owner)[chunk := Assign(old(owner)[chunk], page, n, -1)], tables, owner)
    {
      hide Core, SameRuns, IsStart, RunLen, ReleasedLedger, HugeLedger, Assign, Occupied;
      CoreRing(dead);
      CoreDistinct(dead);
      ReleaseRun(chunk, page, n, dead, dead', live');
      SameRunsRefl(tables, owner);
      if tables[chunk].freePages == PAGES - FIRST_PAGE {
        DeleteChunk(chunk, k, dead');
        if Occupied(old(tables), old(ring), mainChunk) {
          OccupiedWithout(old(tables), tables, old(ring), k, mainChunk);
        }
      } else if Occupied(old(tables), ring, mainChunk) {
        OccupiedKept(old(tables), tables, ring, mainChunk, chunk);
      }
      CoreRing(dead');
    }

    lemma CoreDistinct(dead: set<int>)
      requires Core(dead)
      ensures Distinct(ring)
    {
      hide *;
      CoreParts(dead);
      RingDistinct(links, ring);
    }

    lemma CoreTables(dead: set<int>)
      requires Core(dead)
      ensures forall j :: 0 <= j < |ring| ==> ring[j] in tables
    {
      hide *;
      forall j | 0 <= j < |ring|
        ensures ring[j] in tables
      {
        CoreChunk(j, dead);
      }
    }

    // ---- the garbage collector: counting ----

    /** One slot counted: the counter of its run goes up by one, in 9 bits; full if it was the last slot. */
    method CountSlot(p: int, bin: int, ghost dead: set<int>, ghost r: int, ghost c: int) returns (full: bool)
      requires Core(dead) && 0 <= bin < BINS && IsSlot(tables, owner, p, bin)
      requires RunOf(tables, owner, p) == RunRef(r, SRun(bin, c))
      modifies this`tables
      ensures OnlyMaps(old(tables), tables)
      ensures Core(dead) && full == (c + 1 == BinElements(bin)) && 0 <= c < 512
      ensures RunsChanged(old(tables), owner, tables, owner, r, r + BinPages(bin) * PAGE_SIZE, RunRef(r, SRun(bin, (c + 1) % COUNTER_RANGE)))
      ensures RunOn(old(tables), owner, r, r + BinPages(bin) * PAGE_SIZE, RunRef(r, SRun(bin, c)))
    {
      hide *;
      CoreParts(dead);
      Locate(tables, owner, p, bin);
      HomeIs(tables, owner, p, r, bin, c);
      var chunk, page := Base(p), PageNum(p);
      var head := HeadPage(tables[chunk].map_[page], page);
      var info := tables[chunk].map_[head];
      var counter := info.counter + 1;
      full := counter == BinElements(bin);
      WrappedFits(counter);
      OnlyMapsRefl(tables);
      OnlyMapsSet(tables, tables, chunk, head, bin, Wrapped(counter));
      SetAll(tables, owner, free, live, dead, chunk, head, bin, c, Wrapped(counter));
      OwnerInRing(owner, ring, chunk);
      SparesStep(tables, links, cache, regions, ring, huge, loose, chunk, SetCounter(tables[chunk], head, bin, Wrapped(counter)));
      tables := tables[chunk := SetCounter(tables[chunk], head, bin, Wrapped(counter))];
      CoreIs(dead);
    }

    /** Counts the free slots of one bin, run by run. */
    method CountBin(bin: int, ghost T0: Tables, ghost lists: FreeLists, ghost dead: set<int>) returns (hasFree: bool)
      requires Core(dead) && 0 <= bin < BINS == |lists| && |free| == BINS && free[bin] == lists[bin] && |freeSlot| == BINS
      requires Counted(T0, tables, owner, lists, bin, 0)
      modifies this`tables
      ensures Core(dead) && OnlyMaps(old(tables), tables) && Counted(T0, tables, owner, lists, bin, |lists[bin]|)
      ensures !hasFree ==> NoneFull(T0, owner, lists[bin], bin)
    {
      hide *;
      ghost var list := lists[bin];
      CoreParts(dead);
      hasFree := false;
      var p := freeSlot[bin];
      ghost var k: nat := 0;
      ChainHead(mem, freeSlot, free, bin);
      NoneFullStart(T0, owner, list, bin);
      OnlyMapsRefl(tables);
      while p != 0
        invariant Core(dead) && k <= |list| && Counted(T0, tables, owner, lists, bin, k) && OnlyMaps(old(tables), tables)
        invariant p == (if k < |list| then list[k] else 0) && (k < |list| ==> list[k] != 0)
        invariant !hasFree ==> NoneFull(T0, owner, list[..k], bin)
        decreases |list| - k
      {
        ghost var T1 := tables;
        CoreParts(dead);
        ChainNext(mem, freeSlot, free, bin, k);
        FreeSlotAt(tables, owner, free, live, dead, bin, k);
        ghost var r, c := CountedAt(T0, tables, owner, lists, bin, k);
        HomeRange(tables, owner, r, bin);
        var full := CountSlot(p, bin, dead, r, c);
        if full {
          hasFree := true;
        } else if !hasFree {
          NoneFullStep(T0, owner, list, k, bin);
        }
        CountedStep(T0, T1, tables, owner, lists, bin, k, r, r + BinPages(bin) * PAGE_SIZE);
        OnlyMapsTrans(old(tables), T1, tables);
        p := Rd(mem, p);
        k := k + 1;
      }
      WholeList(list, k);
    }

    /** Takes the slots of full runs off the free list of the bin. */
    method UnlinkBin(bin: int, ghost T0: Tables, ghost lists: FreeLists, ghost dead: set<int>, ghost more: set<int>)
      requires Core(dead) && 0 <= bin < BINS == |lists| && |free| == BINS && free[bin] == lists[bin] && |freeSlot| == BINS
      requires Counted(T0, tables, owner, lists, bin, |lists[bin]|) && more == Condemned(T0, owner, lists[bin], bin).Keys
      requires LedgerOk(T0, owner, lists, live, {}) && TablesOk(T0, owner)
      modifies this`mem, this`freeSlot, this`free
      ensures Core(dead + more) && SameBlocks(old(mem), mem, live)
      ensures |freeSlot| == BINS && free == old(free)[bin := Keep(T0, owner, lists[bin], more)]
    {
      hide *;
      CoreParts(dead);
      ghost var list, mem0, slots0 := lists[bin], mem, freeSlot;
      FreeOnce(tables, owner, free, live, dead, bin);
      UnlinkStart(mem, freeSlot, free, bin, T0, owner, more);
      var p, prev := freeSlot[bin], 0;
      ghost var k: nat, kept: seq<int> := 0, [];
      while p != 0
        invariant k <= |list| && kept == Keep(T0, owner, list[..k], more) && |freeSlot| == BINS
        invariant ChainOk(mem, freeSlot[bin], kept + list[k..]) && OnlyAt(mem0, mem, list)
        invariant freeSlot == slots0[bin := freeSlot[bin]]
        invariant prev == (if kept == [] then 0 else kept[|kept| - 1]) && p == (if k < |list| then list[k] else 0)
        invariant k < |list| ==> list[k] != 0
        decreases |list| - k
        modifies this`mem, this`freeSlot
      {
        FreeSlotAt(tables, owner, free, live, dead, bin, k);
        Locate(tables, owner, p, bin);
        FullHere(T0, tables, owner, lists, bin, k);
        KeptFacts(T0, owner, list, k, more);
        UnlinkNext(mem, freeSlot[bin], list, k, kept);
        KeepSnoc(T0, owner, list, k, more);
        var chunk, page := Base(p), PageNum(p);
        var info := tables[chunk].map_[HeadPage(tables[chunk].map_[page], page)];
        if info.counter == BinElements(bin) {
          var next := Rd(mem, p);
          if prev == 0 {
            freeSlot := freeSlot[bin := next];
          } else {
            OnlyAtWrite(mem0, mem, list, prev, next);
            mem := mem[prev := next];
          }
          p := next;
        } else {
          prev := p;
          p := Rd(mem, p);
          kept := kept + [prev];
        }
        k := k + 1;
      }
      WholeList(list, k);
      UnlinkEnd(kept, list, k);
      ChainsAfter(mem0, mem, slots0, freeSlot[bin], free, bin, kept);
      CondemnBin(T0, tables, owner, lists, free, live, dead, bin, more);
      forall w | w in list
        ensures OutOf(live, w)
      {
        InFreeIs(free, bin, w);
        FreeApart(tables, owner, free, live, dead, regions, ring, cache, huge, loose, bin, w);
      }
      WritesOutside(mem0, mem, live, list);
      HugeKept(mem0, mem, hugeList, huge, live);
      free := free[bin := kept];
      CoreIs(dead + more);
    }

    /** Counts the free slots of every bin and unlinks those of full runs. */
    method MarkRuns() returns (ghost dead: set<int>)
      requires Inv()
      modifies this`tables, this`mem, this`freeSlot, this`free
      ensures Core(dead) && SameBlocks(old(mem), mem, live) && OnlyMaps(old(tables), tables)
      ensures Counted(old(tables), tables, owner, old(free), BINS, 0)
      ensures DeadAre(old(tables), owner, old(free), BINS, dead)
      ensures KeptLists(old(tables), owner, old(free), free, BINS, dead)
    {
      hide *;
      InvParts();
      CoreParts({});
      ghost var T0, lists, mem0 := tables, free, mem;
      dead := {};
      QuietIs(tables, owner);
      CountedStart(tables, owner, free);
      ChainsSized(mem, freeSlot, free);
      DeadStart(tables, owner, free);
      SameBlocksRefl(mem, live);
      OnlyMapsRefl(tables);
      var i := 0;
      while i < BINS
        invariant 0 <= i <= BINS && Core(dead) && SameBlocks(mem0, mem, live) && OnlyMaps(T0, tables)
        invariant Counted(T0, tables, owner, lists, i, 0) && DeadAre(T0, owner, lists, i, dead)
        invariant KeptLists(T0, owner, lists, free, i, dead) && |freeSlot| == BINS
      {
        ghost var T1, mem1 := tables, mem;
        ghost var more := Condemned(T0, owner, lists[i], i).Keys;
        KeptAt(T0, owner, lists, free, i, dead);
        MoreCondemned(T0, owner, lists, live, i, more);
        KeptNext(T0, owner, lists, live, free, i, dead, more);
        var hasFree := CountBin(i, T0, lists, dead);
        OnlyMapsTrans(T0, T1, tables);
        if hasFree {
          UnlinkBin(i, T0, lists, dead, more);
          SameBlocksTrans(mem0, mem1, mem, live);
        } else {
          NothingCondemned(T0, owner, lists, i, dead, more);
          SameList(free, i, lists[i]);
        }
        DeadNext(T0, owner, lists, i, dead, more);
        CountedNext(T0, tables, owner, lists, i);
        dead := dead + more;
        i := i + 1;
      }
    }

    // ---- the garbage collector: sweeping ----

    /** One small run: released if its counter is full, else the counter is reset. */
    method SweepSmall(chunk: int, page: int, bin: int, counter: int, ghost dead: set<int>) returns (freed: int, ghost dead': set<int>)
      requires Core(dead) && Marked(tables, owner, dead) && chunk in tables && chunk in owner && 0 <= bin < BINS
      requires 0 <= page < |tables[chunk].map_| && IsRun(tables[chunk], owner[chunk], page, SRun(bin, counter))
      modifies this`tables, this`owner, this`live
      ensures Core(dead') && live == old(live) && owner.Keys == old(owner).Keys && dead' == dead - {chunk + page * PAGE_SIZE}
      ensures chunk + page * PAGE_SIZE in dead <==> counter == BinElements(bin)
      ensures freed == if counter == BinElements(bin) then BinPages(bin) else 0
      ensures var r := chunk + page * PAGE_SIZE;
              RunsChanged(old(tables), old(owner), tables, owner, r, r + BinPages(bin) * PAGE_SIZE,
                          if counter == BinElements(bin) then NoRun else RunRef(r, SRun(bin, 0)))
      ensures chunk in tables && tables == old(tables)[chunk := tables[chunk]]
      ensures tables[chunk].freePages == old(tables)[chunk].freePages + freed
      ensures forall i :: BoundaryIn(old(owner), chunk, i) ==> BoundaryIn(owner, chunk, i)
    {
      hide *;
      CoreParts(dead);
      ghost var r := chunk + page * PAGE_SIZE;
      SmallRunAt(tables, owner, chunk, page, bin, counter);
      MarkedAt(tables, owner, dead, r, bin, counter);
      dead' := dead - {r};
      if counter == BinElements(bin) {
        ReleaseDead(tables, owner, free, live, dead, chunk, page, bin, counter);
        BoundariesAssigned(owner, chunk, page, BinPages(bin));
        ReleasedPages(tables[chunk], page, BinPages(bin));
        OwnerKeys(owner, chunk, page, BinPages(bin));
        freed := BinPages(bin);
        ReleaseRun(chunk, page, freed, dead, dead', live);
      } else {
        freed := 0;
        SameSet(dead, r);
        SetAll(tables, owner, free, live, dead, chunk, page, bin, counter, 0);
        OwnerInRing(owner, ring, chunk);
        SparesStep(tables, links, cache, regions, ring, huge, loose, chunk, SetCounter(tables[chunk], page, bin, 0));
        ResetPages(tables[chunk], page, bin);
        tables := tables[chunk := SetCounter(tables[chunk], page, bin, 0)];
        CoreIs(dead);
      }
    }

    /** The sweep stands before page i of ring[k]; of the condemned runs D those in dead are still there. */
    ghost predicate Sweeping(k: int, i: int, T1: Tables, O1: Owners, D: set<int>, dead: set<int>)
      reads this`links, this`ring, this`mainChunk, this`cachedChunks, this`cache, this`tables, this`owner
      reads this`mem, this`hugeList, this`huge, this`live, this`free, this`freeSlot, this`regions, this`loose
    {
      && Core(dead) && Marked(tables, owner, dead) && Removed(T1, O1, tables, owner, D - dead) && dead <= D
      && 0 <= k < |ring| && 0 < i <= PAGES
      && Pending(tables, owner, ring[k..], ring[k], i) && BoundaryIn(owner, ring[k], i)
    }

    lemma SweepingParts(k: int, i: int, T1: Tables, O1: Owners, D: set<int>, dead: set<int>)
      requires Sweeping(k, i, T1, O1, D, dead)
      ensures Core(dead) && Marked(tables, owner, dead) && Removed(T1, O1, tables, owner, D - dead) && dead <= D
      ensures 0 <= k < |ring| && 0 < i <= PAGES
      ensures Pending(tables, owner, ring[k..], ring[k], i) && BoundaryIn(owner, ring[k], i)
    {
      hide Core, Marked, Removed, Pending, BoundaryIn;
    }

    lemma SweepingIs(k: int, i: int, T1: Tables, O1: Owners, D: set<int>, dead: set<int>)
      requires Core(dead) && Marked(tables, owner, dead) && Removed(T1, O1, tables, owner, D - dead) && dead <= D
      requires 0 <= k < |ring| && 0 < i <= PAGES
      requires Pending(tables, owner, ring[k..], ring[k], i) && BoundaryIn(owner, ring[k], i)
      ensures Sweeping(k, i, T1, O1, D, dead)
    {
      hide Core, Marked, Removed, Pending, BoundaryIn;
    }

    /** The run or free page at page i of ring[k]. */
    method SweepPage(chunk: int, i: int, ghost k: int, ghost T1: Tables, ghost O1: Owners, ghost D: set<int>, ghost dead: set<int>)
      returns (next: int, freed: int, ghost dead': set<int>)
      requires Sweeping(k, i, T1, O1, D, dead) && 0 <= k < |ring| && ring[k] == chunk && i < PAGES
      modifies this`tables, this`owner, this`live
      ensures Sweeping(k, next, T1, O1, D, dead') && live == old(live) && owner.Keys == old(owner).Keys && i < next
      ensures freed >= 0 && dead' <= dead && (freed == 0 <==> dead' == dead)
      ensures chunk in old(tables) && chunk in tables && tables == old(tables)[chunk := tables[chunk]]
      ensures tables[chunk].freePages == old(tables)[chunk].freePages + freed
    {
      hide *;
      SweepingParts(k, i, T1, O1, D, dead);
      CoreChunk(k, dead);
      PassOver(tables, owner, ring[k..], chunk, i);
      next, freed, dead' := i + 1, 0, dead;
      SameTables(tables, chunk);
      if tables[chunk].bits[i] {
        match tables[chunk].map_[i] {
          case SRun(bin, counter) =>
            ghost var T, O := tables, owner;
            SmallStart(T[chunk], O[chunk], i, bin, counter);
            Fewer(dead, chunk + i * PAGE_SIZE);
            next := i + BinPages(bin);
            freed, dead' := SweepSmall(chunk, i, bin, counter, dead);
            SweptSmall(T1, O1, T, O, tables, owner, ring[k..], chunk, i, bin, counter, D, dead);
          case LRun(n) =>
            LargeLength(n);
            next := i + n;
          case _ =>
            StartKinds(tables[chunk].map_[i]);
            assert false;
        }
      }
      SweepingIs(k, next, T1, O1, D, dead');
    }

    /** The sweep stands before a chunk; counters are still set in the chunks rest only. */
    ghost predicate SweepAt(rest: seq<int>, T1: Tables, O1: Owners, D: set<int>, dead: set<int>)
      reads this`links, this`ring, this`mainChunk, this`cachedChunks, this`cache, this`tables, this`owner
      reads this`mem, this`hugeList, this`huge, this`live, this`free, this`freeSlot, this`regions, this`loose
    {
      && Core(dead) && Marked(tables, owner, dead) && Removed(T1, O1, tables, owner, D - dead) && dead <= D
      && Pending(tables, owner, rest, -1, 0)
    }

    lemma SweepEnter(k: int, T1: Tables, O1: Owners, D: set<int>, dead: set<int>)
      requires 0 <= k < |ring| && SweepAt(ring[k..], T1, O1, D, dead)
      ensures Sweeping(k, FIRST_PAGE, T1, O1, D, dead) && 0 < FIRST_PAGE <= PAGES
      ensures ring[k] in tables && tables[ring[k]].freeTail <= PAGES
    {
      hide Core, Marked, Removed, Pending, TablesOk;
      CoreChunk(k, dead);
      PendingEnter(tables, owner, ring[k..], ring[k]);
      ChunkFacts(tables, owner, ring[k]);
      FirstBoundary(tables[ring[k]], owner[ring[k]]);
      BoundaryHolds(owner, ring[k], FIRST_PAGE);
    }

    lemma SweepLeave(k: int, i: int, T1: Tables, O1: Owners, D: set<int>, dead: set<int>)
      requires Sweeping(k, i, T1, O1, D, dead) && 0 <= k < |ring| && ring[k] in tables && i >= tables[ring[k]].freeTail
      ensures SweepAt(ring[k + 1..], T1, O1, D, dead)
    {
      hide Core, Marked, Removed, Pending, TablesOk, BoundaryIn, Distinct, RingOk;
      CoreParts(dead);
      CoreChunk(k, dead);
      RingDistinct(links, ring);
      PendingLeave(tables, owner, ring, k, i);
    }

    lemma SweepParts(rest: seq<int>, T1: Tables, O1: Owners, D: set<int>, dead: set<int>)
      requires SweepAt(rest, T1, O1, D, dead)
      ensures Core(dead) && Marked(tables, owner, dead) && Removed(T1, O1, tables, owner, D - dead) && dead <= D
      ensures Pending(tables, owner, rest, -1, 0)
    {
      hide Core, Marked, Removed, Pending;
    }

    /** Sweeps the runs of ring[k] up to its free tail, which may move down meanwhile. */
    method SweepChunk(chunk: int, ghost k: int, ghost T1: Tables, ghost O1: Owners, ghost D: set<int>, ghost dead: set<int>, ghost ring0: seq<int>)
      returns (pages: int, ghost dead': set<int>)
      requires 0 <= k < |ring| && ring[k] == chunk && SweepAt(ring[k..], T1, O1, D, dead) && Distinct(ring0) && chunk in ring0
      modifies this`tables, this`owner, this`live
      ensures SweepAt(ring[k + 1..], T1, O1, D, dead') && live == old(live) && chunk in tables
      ensures pages >= 0 && dead' <= dead && (pages == 0 <==> dead' == dead)
      ensures chunk in old(tables) && tables == old(tables)[chunk := tables[chunk]]
      ensures tables[chunk].freePages == old(tables)[chunk].freePages + pages
      ensures FreeSum(tables, ring0) == FreeSum(old(tables), ring0) + pages
    {
      hide *;
      SweepEnter(k, T1, O1, D, dead);
      var i := FIRST_PAGE;
      pages, dead' := 0, dead;
      SameTables(tables, chunk);
      while i < tables[chunk].freeTail
        invariant Sweeping(k, i, T1, O1, D, dead') && live == old(live) && chunk in tables && tables[chunk].freeTail <= PAGES
        invariant pages >= 0 && dead' <= dead && (pages == 0 <==> dead' == dead)
        invariant chunk in old(tables) && tables == old(tables)[chunk := tables[chunk]]
        invariant tables[chunk].freePages == old(tables)[chunk].freePages + pages
        invariant FreeSum(tables, ring0) == FreeSum(old(tables), ring0) + pages
        decreases PAGES - i
      {
        ghost var T := tables;
        var freed: int;
        i, freed, dead' := SweepPage(chunk, i, k, T1, O1, D, dead');
        FreeSumPages(T, tables, chunk, ring0, freed);
        pages := pages + freed;
        SweepingParts(k, i, T1, O1, D, dead');
        CoreChunk(k, dead');
      }
      SweepLeave(k, i, T1, O1, D, dead');
    }

    lemma SweepStart(D: set<int>)
      requires Core(D) && Marked(tables, owner, D)
      ensures |ring| > 0 && ring[0] == mainChunk && SweepAt(ring[0..], tables, owner, D, D) && Distinct(ring)
      ensures forall x :: x in ring ==> x in ring
    {
      hide *;
      CoreParts(D);
      RingDistinct(links, ring);
      PendingStart(tables, owner, ring, 0);
      NoneGone(D);
      RemovedRefl(tables, owner);
      SweepIs(ring[0..], tables, owner, D, D);
    }

    lemma SweepIs(rest: seq<int>, T1: Tables, O1: Owners, D: set<int>, dead: set<int>)
      requires Core(dead) && Marked(tables, owner, dead) && Removed(T1, O1, tables, owner, D - dead) && dead <= D
      requires Pending(tables, owner, rest, -1, 0)
      ensures SweepAt(rest, T1, O1, D, dead)
    {
      hide Core, Marked, Removed, Pending;
    }

    lemma MainStays(chunk: int, k: int, dead: set<int>)
      requires Core(dead) && 0 <= k < |ring| && ring[k] == chunk && MainInUse(live, mainChunk)
      ensures chunk in tables && (k == 0 ==> tables[chunk].freePages != PAGES - FIRST_PAGE)
    {
      hide *;
      CoreParts(dead);
      CoreChunk(k, dead);
      if k == 0 {
        InUseNotEmpty(tables, owner, free, live, dead, chunk);
      }
    }

    /** Sweeps the chunks in ring order and deletes those left empty. */
    method SweepRing(ghost O0: Owners, ghost D: set<int>) returns (collected: int)
      requires Core(D) && Counts() && MainInUse(live, mainChunk) && Marked(tables, owner, D) && owner == O0
      requires Occupied(tables, ring, mainChunk)
      modifies this`links, this`ring, this`owner, this`loose, this`chunksCount, this`tables, this`live
      modifies this`cachedChunks, this`cachedChunksCount, this`cache, this`realSize, this`regions
      ensures Core({}) && Quiet(tables, owner) && Counts() && live == old(live) && loose == old(loose)
      ensures Removed(old(tables), O0, tables, owner, D)
      ensures collected == FreeSum(tables, old(ring)) - FreeSum(old(tables), old(ring)) && collected >= 0
      ensures collected == 0 <==> D == {}
      ensures Beyond() == old(Beyond()) && realSize <= old(realSize) && (collected == 0 ==> realSize == old(realSize))
      ensures Occupied(tables, ring, mainChunk)
      ensures (old(cachedChunks) != 0 ==> cachedChunks != 0) && forall x :: x in ring ==> x in old(ring)
    {
      hide *;
      ghost var T1, ring0, dead := tables, ring, D;
      SweepStart(D);
      CoreTables(D);
      SweptNone(tables, ring, mainChunk);
      var chunk := mainChunk;
      collected := 0;
      ghost var k: nat := 0;
      while true
        invariant k < |ring| && chunk == ring[k] && SweepAt(ring[k..], T1, O0, D, dead)
        invariant Counts() && live == old(live) && loose == old(loose)
        invariant Beyond() == old(Beyond()) && realSize <= old(realSize) && (old(cachedChunks) != 0 ==> cachedChunks != 0)
        invariant collected == 0 ==> realSize == old(realSize)
        invariant SweptTo(T1, tables, ring, k, mainChunk) && Occupied(T1, ring0, mainChunk)
        invariant Distinct(ring0) && forall x :: x in ring ==> x in ring0
        invariant collected == FreeSum(tables, ring0) - FreeSum(T1, ring0) && collected >= 0
        invariant dead <= D && (collected == 0 <==> dead == D)
        decreases |ring| - k
      {
        SubRing(ring, k, ring0);
        ghost var dead0, T := dead, tables;
        var pages: int;
        pages, dead := SweepChunk(chunk, k, T1, O0, D, dead, ring0);
        StillEqual(D, dead0, dead, collected, pages);
        collected := collected + pages;
        SweepParts(ring[k + 1..], T1, O0, D, dead);
        CoreNext(k, dead);
        CoreRing(dead);
        CoreDistinct(dead);
        MainStays(chunk, k, dead);
        RestAfter(ring, k);
        var next := links[chunk].next;
        if tables[chunk].freePages == PAGES - FIRST_PAGE {
          ghost var O, rest := owner, ring[k + 1..];
          OnlyFirst(ring, k);
          EmptiedBySweep(T1, T, tables, ring0, ring, k, mainChunk, pages);
          SweptDeleted(T1, T, tables, ring, k, mainChunk);
          WithoutIn(ring, k, ring0);
          WithoutFacts(ring, k);
          DeleteChunk(chunk, k, dead);
          PendingSame(tables, O, owner, rest, ring[k..]);
          RemovedSame(T1, O0, tables, O, owner, D - dead);
          MarkedSame(tables, O, owner, dead);
        } else {
          SweptKept(T1, T, tables, ring, k, mainChunk);
          k := k + 1;
        }
        chunk := next;
        if chunk == mainChunk {
          break;
        }
        SweepIs(ring[k..], T1, O0, D, dead);
      }
      PendingNone(tables, owner, ring[k..]);
      QuietMarked(tables, owner, dead);
      SweptAll(T1, tables, ring, mainChunk);
      NoneGone(D);
    }

    /**
     The garbage collector. No block is lost; a small run of a bin other than 0 goes if and only if all
     its slots are free; the lists keep the other slots in order; the result is the bytes released; and
     nothing is left for a second collection.
     */
    method Gc() returns (collected: int, ghost gone: set<int>)
      requires Inv() && Counts() && MainInUse(live, mainChunk)
      modifies this`links, this`ring, this`owner, this`loose, this`chunksCount, this`tables, this`live
      modifies this`cachedChunks, this`cachedChunksCount, this`cache, this`realSize, this`regions
      modifies this`mem, this`freeSlot, this`free
      ensures Inv() && Counts() && live == old(live) && loose == old(loose) && SameBlocks(old(mem), mem, live)
      ensures DeadAre(old(tables), old(owner), old(free), BINS, gone)
      ensures RunsReleased(old(tables), old(owner), tables, owner, gone)
      ensures KeptLists(old(tables), old(owner), old(free), free, BINS, gone)
      ensures collected == PAGE_SIZE * (FreeSum(tables, old(ring)) - FreeSum(old(tables), old(ring))) && collected >= 0
      ensures collected == 0 <==> gone == {}
      ensures collected == 0 ==> realSize == old(realSize)
      ensures DeadAre(tables, owner, free, BINS, {}) && Settled()
      ensures old(DeadAre(tables, owner, free, BINS, {})) ==> collected == 0
      ensures Beyond() == old(Beyond()) && realSize <= old(realSize) && NoneGained(old(free), free)
      ensures Collected(old(Now()), Now())
    {
      hide *;
      InvParts();
      CoreParts({});
      NowIs();
      ghost var T0, O0, lists, ring0 := tables, owner, free, ring;
      gone := MarkRuns();
      CoreParts(gone);
      MarkedAfterCounting(T0, tables, O0, lists, live, gone);
      RemovedCounted(T0, tables, O0, lists);
      FreeSumMaps(T0, tables, ring0);
      SamePagesMaps(T0, tables, ring);
      OccupiedSame(T0, tables, ring, mainChunk);
      ghost var T1 := tables;
      var pages := SweepRing(O0, gone);
      AllReleased(T0, O0, T1, tables, owner, gone);
      NothingLeft(T0, O0, lists, live, tables, owner, free, gone);
      KeptGainsNone(T0, O0, lists, live, free, gone);
      if DeadAre(T0, O0, lists, BINS, {}) {
        SecondFindsNothing(T0, O0, lists, gone);
      }
      InvIs();
      CollectedNow(T0, O0, lists, ring0, old(cachedChunks), gone);
      SettledIs();
      collected := PagesBytes(pages);
    }

    lemma CollectedNow(T0: Tables, O0: Owners, lists: FreeLists, ring0: seq<int>, cached0: int, gone: set<int>)
      requires Inv() && DeadAre(T0, O0, lists, BINS, gone) && RunsReleased(T0, O0, tables, owner, gone)
      requires KeptLists(T0, O0, lists, free, BINS, gone) && DeadAre(tables, owner, free, BINS, {})
      requires |ring0| > 0 && ring0[0] == mainChunk && (forall c :: c in ring ==> c in ring0) && (cachedChunks == 0 ==> cached0 == 0)
      ensures Collected(Stock(lists, T0, O0, ring0, cached0), Now())
    {
      hide *;
      InvParts();
      CoreParts({});
      NowIs();
      CollectedIs(Stock(lists, T0, O0, ring0, cached0), Now(), gone);
    }

    /** A collection between two calls. */
    method Collect() returns (collected: int)
      requires Valid() && MainInUse(live, mainChunk)
      modifies this`links, this`ring, this`owner, this`loose, this`chunksCount, this`tables, this`live
      modifies this`cachedChunks, this`cachedChunksCount, this`cache, this`realSize, this`regions
      modifies this`mem, this`freeSlot, this`free
      ensures Valid() && live == old(live) && SameBlocks(old(mem), mem, live) && realSize <= old(realSize)
      ensures Collected(old(Now()), Now()) && (collected == 0 ==> realSize == old(realSize))
    {
      hide *;
      ValidParts();
      ghost var gone;
      collected, gone := Gc();
      ValidIs();
    }

    // ---- getting a chunk ----

    /** Maps a chunk; its header is zero. */
    method MapChunk() returns (p: int)
      requires Core({})
      modifies this`regions, this`loose, this`links, this`tables, this`refusals
      ensures Core({}) && SameRuns(old(tables), owner, tables, owner)
      ensures Occupied(old(tables), ring, mainChunk) ==> Occupied(tables, ring, mainChunk)
      ensures p == 0 ==> loose == old(loose) && tables == old(tables)
      ensures refusals == old(refusals) + if p == 0 then 1 else 0
      ensures p != 0 ==> p in loose && loose == old(loose)[p := CHUNK_SIZE] && p !in old(loose)
      ensures p != 0 ==> p in links && p in tables && AlmostSpare(tables[p]) && |tables[p].map_| > 0
    {
      hide *;
      CoreParts({});
      ChunkSizePositive();
      SameRunsRefl(tables, owner);
      ghost var regions0, loose0 := regions, loose;
      p := MapRegion(CHUNK_SIZE);
      if p != 0 {
        Mapped(regions0, ring, cache, huge, loose0, p, CHUNK_SIZE);
        ZeroTableFacts();
        LooseHeader(links, links[p := Links(0, 0, 0)], tables, tables[p := ZeroTable()], owner, ring, cachedChunks, cache, p);
        LedgerFrame(tables, owner, tables[p := ZeroTable()], owner, free, live, {});
        links := links[p := Links(0, 0, 0)];
        LooseRegion(regions, ring, cache, huge, loose, p);
        SamePagesNew(tables, p, ZeroTable(), ring);
        tables := tables[p := ZeroTable()];
        if Occupied(old(tables), ring, mainChunk) {
          OccupiedSame(old(tables), tables, ring, mainChunk);
        }
      }
      CoreIs({});
    }

    /** Takes a cached chunk for use. */
    method TakeCached() returns (chunk: int)
      requires Inv() && Counts() && cachedChunks != 0
      modifies this`cachedChunks, this`cachedChunksCount, this`cache, this`loose
      ensures Inv() && Counts() && Loosened(chunk, old(loose)) && Beyond() == old(Beyond()) + CHUNK_SIZE
    {
      hide Inv, Core, Quiet, Spare, AlmostSpare, Occupied;
      InvParts();
      chunk := PopCached({});
      SpareIsAlmost(tables, chunk);
      InvIs();
    }

    /** chunk is a loose region that can be initialised as a chunk. */
    ghost predicate Loosened(chunk: int, loose0: RegionMap)
      reads this`links, this`tables, this`regions, this`loose
    {
      && chunk != 0 && loose == loose0[chunk := CHUNK_SIZE] && chunk !in loose0
      && chunk in links && chunk in tables && AlmostSpare(tables[chunk]) && |tables[chunk].map_| > 0
    }

    method CountChunk()
      requires Counts()
      modifies this`realSize, this`realPeak
      ensures Counts() && Beyond() == old(Beyond()) + CHUNK_SIZE && realSize == old(realSize) + CHUNK_SIZE
      ensures realPeak == Max(old(realPeak), realSize)
    {
      realSize := realSize + CHUNK_SIZE;
      realPeak := Max(realPeak, realSize);
    }

    /** Maps a chunk, if need be after a collection; 0 if there is no memory. */
    method MapChunkOrCollect() returns (chunk: int)
      requires Inv() && Counts() && MainInUse(live, mainChunk)
      modifies this`links, this`ring, this`owner, this`loose, this`chunksCount, this`tables, this`live, this`refusals
      modifies this`cachedChunks, this`cachedChunksCount, this`cache, this`realSize, this`regions
      modifies this`mem, this`freeSlot, this`free
      ensures Inv() && Counts() && live == old(live) && SameBlocks(old(mem), mem, live) && NoneGained(old(free), free)
      ensures Beyond() == old(Beyond()) && realSize <= old(realSize)
      ensures refusals >= old(refusals) && (chunk == 0 ==> loose == old(loose) && refusals > old(refusals))
      ensures chunk == 0 ==> Settled()
      ensures chunk == 0 && refusals == old(refusals) + 1 ==> DeadAre(old(tables), old(owner), old(free), BINS, {})
      ensures chunk != 0 ==> Loosened(chunk, old(loose))
    {
      hide *;
      SameBlocksRefl(mem, live);
      NoneGainedRefl(free);
      chunk := MapNew();
      if chunk == 0 {
        ghost var gone;
        var collected: int;
        collected, gone := Gc();
        if collected != 0 {
          chunk := MapNew();
        }
      }
    }

    method MapNew() returns (p: int)
      requires Inv() && Counts()
      modifies this`regions, this`loose, this`links, this`tables, this`refusals
      ensures Inv() && Counts()
      ensures p == 0 ==> loose == old(loose) && tables == old(tables)
      ensures refusals == old(refusals) + if p == 0 then 1 else 0
      ensures p != 0 ==> Loosened(p, old(loose))
    {
      hide Inv, Core, Quiet, AlmostSpare, SameRuns, Occupied;
      InvParts();
      p := MapChunk();
      QuietSame(old(tables), owner, tables, owner);
      InvIs();
    }

    /** A limit below one chunk counts as one chunk. */
    method SetLimit(bytes: int)
      modifies this`limit
      ensures limit == Max(bytes, CHUNK_SIZE)
      ensures (old(Valid()) ==> Valid()) && (old(Fresh()) ==> Fresh())
    {
      limit := Max(bytes, CHUNK_SIZE);
    }

    /** The peaks are what they were, or what is in use now if that is more. */
    ghost predicate PeaksUp(peak0: int, realPeak0: int)
      reads this`size, this`peak, this`realSize, this`realPeak
    {
      peak == Max(peak0, size) && realPeak == Max(realPeak0, realSize)
    }

    lemma PeaksUpIs(peak0: int, realPeak0: int, realSize0: int)
      requires peak == Max(peak0, size) && PeakMoved(realPeak0, realSize0) && realPeak >= realSize
      ensures PeaksUp(peak0, realPeak0)
    {}

    lemma PeaksUpFrom(peak0: int, realPeak0: int)
      requires peak == Max(peak0, size) && realPeak == Max(realPeak0, realSize)
      ensures PeaksUp(peak0, realPeak0)
    {}

    /** Counted twice: first a list node, then the block it describes. */
    lemma PeaksCounted(peak0: int, realPeak0: int, peak1: int, realPeak1: int, size1: int, realSize1: int)
      requires peak1 == Max(peak0, size1) && (realPeak1 == realPeak0 || realPeak1 == Max(realPeak0, realSize1))
      requires size1 <= size && realSize1 <= realSize && peak == Max(peak1, size) && realPeak == Max(realPeak1, realSize)
      ensures PeaksUp(peak0, realPeak0)
    {}

    lemma PeakMovedIs(peak0: int, size0: int)
      requires (realPeak == peak0 || realPeak == Max(peak0, realSize)) && (peak0 >= size0 ==> realPeak >= realSize)
      ensures PeakMoved(peak0, size0)
    {}

    lemma PeakMovedSays(peak0: int, size0: int)
      requires PeakMoved(peak0, size0)
      ensures (realPeak == peak0 || realPeak == Max(peak0, realSize)) && (peak0 >= size0 ==> realPeak >= realSize)
    {}

    lemma PeaksSame(peak0: int, realPeak0: int)
      requires peak == peak0 >= size && realPeak == realPeak0 >= realSize
      ensures PeaksUp(peak0, realPeak0)
    {}

    /** real_peak is what it was or real_size as it is, whichever is larger, and it bounds real_size as before. */
    ghost predicate PeakMoved(peak0: int, size0: int)
      reads this`realSize, this`realPeak
    {
      (realPeak == peak0 || realPeak == Max(peak0, realSize)) && (peak0 >= size0 ==> realPeak >= realSize)
    }

    /** Nothing is left to collect. */
    ghost predicate Settled()
      reads this`tables, this`owner, this`free
    {
      DeadAre(tables, owner, free, BINS, {})
    }

    lemma SettledIs()
      ensures Settled() <==> DeadAre(tables, owner, free, BINS, {})
    {
      hide DeadAre;
    }

    /**
       Why memory is exhausted: the system refused, or there is no room below the limit for bytes more, and
       nothing is left to collect.
     */
    ghost predicate Denied(refusals0: nat, bytes: int)
      reads this`refusals, this`realSize, this`limit, this`overflow, this`tables, this`owner, this`free
    {
      Settled() && (refusals > refusals0 || (!overflow && realSize + bytes > limit))
    }

    lemma DeniedBySystem(refusals0: nat, bytes: int)
      requires Settled() && refusals > refusals0
      ensures Denied(refusals0, bytes)
    {
      hide Settled;
    }

    lemma DeniedByLimit(refusals0: nat, bytes: int)
      requires Settled() && !overflow && realSize + bytes > limit
      ensures Denied(refusals0, bytes)
    {
      hide Settled;
    }

    lemma DeniedMore(refusals0: nat, bytes: int, refusals1: nat, bytes1: int)
      requires Denied(refusals1, bytes1) && refusals0 <= refusals1 && bytes1 <= bytes
      ensures Denied(refusals0, bytes)
    {
      hide Settled;
    }

    /** Why a collection ran: bytes more were above the limit, or the system refused. */
    ghost predicate Pressed(size0: int, refusals0: nat, bytes: int)
      reads this`refusals, this`limit
    {
      refusals > refusals0 || size0 + bytes > limit
    }

    lemma PressedIs(size0: int, refusals0: nat, bytes: int)
      requires refusals > refusals0 || size0 + bytes > limit
      ensures Pressed(size0, refusals0, bytes)
    {}

    lemma PressedFrom(size0: int, refusals0: nat, bytes: int, size1: int, refusals1: nat, bytes1: int)
      requires Pressed(size1, refusals1, bytes1) && size1 <= size0 && refusals0 <= refusals1 && bytes1 <= bytes
      ensures Pressed(size0, refusals0, bytes)
    {}

    lemma PressedMore(size0: int, refusals0: nat, bytes: int, refusals1: nat)
      requires size0 + bytes > limit || refusals1 > refusals0
      requires refusals >= refusals1
      ensures Pressed(size0, refusals0, bytes)
    {}

    /** What the next allocation draws on. */
    ghost function Now(): Stock
      reads this`free, this`tables, this`owner, this`ring, this`cachedChunks
    {
      Stock(free, tables, owner, ring, cachedChunks)
    }

    lemma NowIs()
      ensures Now() == Stock(free, tables, owner, ring, cachedChunks)
    {}

    /**
       real_size did not grow, or stays within the limit; it is above the limit, by a chunk at most, only
       with that excuse.
     */
    ghost predicate WithinLimit(size0: int, excused: bool)
      reads this`realSize, this`limit, this`overflow
    {
      realSize <= size0 || overflow || realSize <= limit || (excused && realSize <= limit + CHUNK_SIZE)
    }

    lemma WithinLimitIs(size0: int, excused: bool)
      requires realSize <= size0 || overflow || realSize <= limit || (excused && realSize <= limit + CHUNK_SIZE)
      ensures WithinLimit(size0, excused)
    {}

    lemma WithinLimitSays(size0: int, excused: bool)
      requires WithinLimit(size0, excused)
      ensures realSize <= size0 || overflow || realSize <= limit || (excused && realSize <= limit + CHUNK_SIZE)
    {}

    lemma WithinLimitFrom(size0: int, size1: int, excused: bool, excused': bool)
      requires WithinLimit(size1, excused) && size1 <= size0 && (excused ==> excused')
      ensures WithinLimit(size0, excused')
    {}

    /** Looks for a cached chunk or room below the limit; the collector may provide either. */
    method CheckLimit() returns (chunk: int, go: bool)
      requires Inv() && Counts() && MainInUse(live, mainChunk)
      modifies this`links, this`ring, this`owner, this`loose, this`chunksCount, this`tables, this`live
      modifies this`cachedChunks, this`cachedChunksCount, this`cache, this`realSize, this`regions
      modifies this`mem, this`freeSlot, this`free
      ensures Inv() && Counts() && live == old(live) && SameBlocks(old(mem), mem, live) && NoneGained(old(free), free)
      ensures realSize <= old(realSize)
      ensures chunk == 0 ==> Beyond() == old(Beyond()) && loose == old(loose) && old(cachedChunks) == 0
      ensures chunk == 0 && go ==> overflow || realSize + CHUNK_SIZE <= limit
      ensures !go ==> chunk == 0 && !overflow && realSize + CHUNK_SIZE > limit
      ensures !go ==> Settled()
      ensures old(cachedChunks) != 0 ==> chunk != 0
      ensures chunk != 0 ==> Loosened(chunk, old(loose)) && Beyond() == old(Beyond()) + CHUNK_SIZE
    {
      hide *;
      ghost var tried := false;
      SameBlocksRefl(mem, live);
      NoneGainedRefl(free);
      while true
        invariant Inv() && Counts() && live == old(live) && SameBlocks(old(mem), mem, live) && NoneGained(old(free), free)
        invariant Beyond() == old(Beyond()) && realSize <= old(realSize) && loose == old(loose)
        invariant if tried then DeadAre(tables, owner, free, BINS, {}) && old(cachedChunks) == 0 else cachedChunks == old(cachedChunks)
        decreases !tried
      {
        if cachedChunks != 0 {
          chunk := TakeCached();
          LoosenedFacts(chunk, old(loose));
          return chunk, true;
        }
        if realSize + CHUNK_SIZE > limit {
          ghost var mem1, free1 := mem, free;
          ghost var gone;
          var collected: int;
          collected, gone := Gc();
          SameBlocksTrans(old(mem), mem1, mem, live);
          NoneGainedTrans(old(free), free1, free);
          if collected != 0 {
            tried := true;
            continue;
          }
          return 0, overflow;
        }
        return 0, true;
      }
    }

    lemma LoosenedFacts(chunk: int, loose0: RegionMap)
      requires Loosened(chunk, loose0)
      ensures chunk != 0 && loose == loose0[chunk := CHUNK_SIZE] && chunk !in loose0
      ensures chunk in links && chunk in tables && AlmostSpare(tables[chunk]) && |tables[chunk].map_| > 0
    {
      hide AlmostSpare;
    }

    /** A chunk to link in: a cached one or a new one; 0 if memory is exhausted. */
    method AcquireChunk() returns (chunk: int)
      requires Inv() && Counts() && MainInUse(live, mainChunk)
      modifies this`links, this`ring, this`owner, this`loose, this`chunksCount, this`tables, this`live, this`refusals
      modifies this`cachedChunks, this`cachedChunksCount, this`cache, this`realSize, this`regions
      modifies this`mem, this`freeSlot, this`free, this`realPeak
      ensures Inv() && Counts() && live == old(live) && SameBlocks(old(mem), mem, live) && NoneGained(old(free), free)
      ensures chunk == 0 ==> Beyond() == old(Beyond()) && realSize <= old(realSize) && loose == old(loose) && old(cachedChunks) == 0
      ensures refusals >= old(refusals) && (chunk == 0 ==> Denied(old(refusals), CHUNK_SIZE))
      ensures old(cachedChunks) != 0 ==> realSize <= old(realSize)
      ensures chunk != 0 ==> Beyond() == old(Beyond()) + CHUNK_SIZE && realSize <= old(realSize) + CHUNK_SIZE
      ensures chunk != 0 ==> realSize <= old(realSize) || overflow || realSize <= limit
      ensures chunk != 0 ==> Loosened(chunk, old(loose))
      ensures PeakMoved(old(realPeak), old(realSize))
    {
      hide *;
      ChunkSizePositive();
      var go: bool;
      chunk, go := CheckLimit();
      if chunk == 0 && go {
        ghost var mem1, free1 := mem, free;
        chunk := MapChunkOrCollect();
        SameBlocksTrans(old(mem), mem1, mem, live);
        NoneGainedTrans(old(free), free1, free);
        if chunk != 0 {
          CountChunk();
        } else {
          DeniedBySystem(old(refusals), CHUNK_SIZE);
        }
      } else if chunk == 0 {
        DeniedByLimit(old(refusals), CHUNK_SIZE);
      }
      PeakMovedIs(old(realPeak), old(realSize));
    }

    // ---- page runs ----

    /** Counts a chunk, initialises it and links it in. */
    method LinkChunk(chunk: int, ghost loose0: RegionMap)
      requires Inv() && Counts() && Loosened(chunk, loose0)
      modifies this`links, this`tables, this`ring, this`owner, this`loose, this`chunksCount, this`peakChunksCount
      ensures InvBut(chunk) && Counts() && Beyond() == old(Beyond()) - CHUNK_SIZE && loose == loose0
      ensures chunksCount == old(chunksCount) + 1 && peakChunksCount == Max(old(peakChunksCount), chunksCount)
      ensures |ring| > 1 && ring[|ring| - 1] == chunk && AllReady(chunk)
    {
      hide Inv, Core, Quiet, AlmostSpare, SameRuns, InitTable, FreshBits, FreshOwner, AllReady, Loosened, Occupied, OccupiedBut, InvBut;
      LoosenedFacts(chunk, loose0);
      chunksCount := chunksCount + 1;
      if chunksCount > peakChunksCount {
        peakChunksCount := chunksCount;
      }
      InvParts();
      InitChunk(chunk, {});
      QuietSame(old(tables), old(owner), tables, owner);
      OccupiedLinked(old(tables), tables, old(ring), mainChunk, chunk);
      InvButIs(chunk);
      AllReadyIs(chunk);
    }

    /** Links in a cached or new chunk; 0 if memory is exhausted. */
    method AddChunk() returns (chunk: int)
      requires Inv() && Counts() && MainInUse(live, mainChunk)
      modifies this`links, this`ring, this`owner, this`loose, this`chunksCount, this`tables, this`live, this`refusals
      modifies this`cachedChunks, this`cachedChunksCount, this`cache, this`realSize, this`regions
      modifies this`mem, this`freeSlot, this`free, this`realPeak, this`peakChunksCount
      ensures InvBut(chunk) && (chunk == 0 ==> Inv()) && Counts() && live == old(live) && SameBlocks(old(mem), mem, live) && NoneGained(old(free), free)
      ensures Beyond() == old(Beyond()) && loose == old(loose)
      ensures realSize <= old(realSize) || (chunk != 0 && realSize <= old(realSize) + CHUNK_SIZE && (overflow || realSize <= limit))
      ensures chunk != 0 ==> |ring| > 1 && ring[|ring| - 1] == chunk && AllReady(chunk)
      ensures chunk == 0 ==> old(cachedChunks) == 0
      ensures refusals >= old(refusals) && (chunk == 0 ==> Denied(old(refusals), CHUNK_SIZE))
      ensures old(cachedChunks) != 0 ==> realSize <= old(realSize)
      ensures PeakMoved(old(realPeak), old(realSize))
    {
      hide *;
      chunk := AcquireChunk();
      if chunk != 0 {
        LinkChunk(chunk, old(loose));
      } else {
        InvWeaker(0);
      }
    }

    /** Any run fits behind the header of the chunk. */
    ghost predicate AllReady(chunk: int)
      reads this`tables
    {
      forall n: nat :: 0 < n < PAGES ==> ReadyAt(tables, chunk, FIRST_PAGE, n)
    }

    lemma AllReadyIs(chunk: int)
      requires chunk in tables && tables[chunk].bits == FreshBits() && |tables[chunk].map_| == PAGES && tables[chunk].freeTail == FIRST_PAGE
      ensures AllReady(chunk)
    {
      forall n: nat | 0 < n < PAGES
        ensures ReadyAt(tables, chunk, FIRST_PAGE, n)
      {
        FreshReady(tables, chunk, n);
      }
    }

    lemma AllReadyAt(chunk: int, n: nat)
      requires AllReady(chunk) && 0 < n < PAGES
      ensures ReadyAt(tables, chunk, FIRST_PAGE, n)
    {}

    /** No page of the main chunk but the header is taken. */
    ghost predicate MainEmpty()
      reads this`tables, this`mainChunk
    {
      mainChunk in tables && tables[mainChunk].freePages == PAGES - FIRST_PAGE
    }

    /** An allocation never finds an empty main chunk too full. */
    lemma EmptyFits(n: nat)
      requires Core({}) && MainEmpty() && 0 < n < PAGES
      ensures |ring| > 0 && ring[0] == mainChunk && !NoneFit(tables, ring, n)
      ensures forall k :: 0 < k <= |ring| ==> !NoneFit(tables, ring[..k], n)
    {
      hide *;
      CoreRing({});
      CoreChunk(0, {});
      ChunkFacts(tables, owner, mainChunk);
      MainEmptyIs();
      EmptyHasRoom(tables, owner, ring, n);
    }

    lemma MainEmptyIs()
      requires MainEmpty()
      ensures mainChunk in tables && tables[mainChunk].freePages == PAGES - FIRST_PAGE
    {}

    /** A chunk found late moves to the head of the ring if the run is short. */
    method MoveIfFar(chunk: int, page: int, n: nat, steps: int, ghost at: int)
      requires InvBut(chunk) && Counts() && 0 <= at < |ring| && ring[at] == chunk && (steps > 2 ==> at > 0) && ReadyAt(tables, chunk, page, n)
      modifies this`links, this`ring
      ensures MovedIfFar(old(ring), ring, at, steps, n)
      ensures InvBut(chunk) && Counts() && Beyond() == old(Beyond()) && chunk in owner && chunk != 0
    {
      hide InvBut, Core, Quiet, ReadyAt, TablesOk, OccupiedBut;
      InvButParts(chunk);
      CoreChunk(at, {});
      if steps > 2 && n < 8 {
        MoveToFront(chunk, at, {});
        OccupiedReordered(tables, old(ring), ring, mainChunk, chunk);
      }
      InvButIs(chunk);
    }

    /** Where the next run of n pages goes: found is false when a chunk had to be added, chunk is 0 when that failed. */
    method FindPages(n: nat) returns (chunk: int, page: int, found: bool, ghost k: int)
      requires Inv() && Counts() && 0 < n < PAGES && (MainInUse(live, mainChunk) || MainEmpty())
      modifies this`links, this`ring, this`owner, this`loose, this`chunksCount, this`tables, this`live, this`refusals
      modifies this`cachedChunks, this`cachedChunksCount, this`cache, this`realSize, this`regions
      modifies this`mem, this`freeSlot, this`free, this`realPeak, this`peakChunksCount
      ensures InvBut(chunk) && (chunk == 0 ==> Inv()) && Counts() && live == old(live) && SameBlocks(old(mem), mem, live) && NoneGained(old(free), free)
      ensures Beyond() == old(Beyond()) && loose == old(loose)
      ensures realSize <= old(realSize) || (chunk != 0 && realSize <= old(realSize) + CHUNK_SIZE && (overflow || realSize <= limit))
      ensures PeakMoved(old(realPeak), old(realSize))
      ensures chunk != 0 ==> chunk in owner && ReadyAt(tables, chunk, page, n)
      ensures found ==> 0 <= k < |old(ring)| && chunk == old(ring)[k] && chunk != 0
      ensures found ==> NoneFit(old(tables), old(ring)[..k], n) && BestFitIn(old(tables), chunk, n, page)
      ensures !found ==> NoneFit(old(tables), old(ring), n) && page == FIRST_PAGE && MainInUse(live, mainChunk)
      ensures found ==> MovedIfFar(old(ring), ring, k, k, n)
      ensures !found && chunk != 0 ==> |ring| > 1 && ring[if |old(ring)| > 3 && n < 8 then 1 else |ring| - 1] == chunk
      ensures chunk == 0 ==> !found && old(cachedChunks) == 0
      ensures refusals >= old(refusals) && (chunk == 0 ==> Denied(old(refusals), CHUNK_SIZE))
      ensures realSize > old(realSize) ==> !found && old(cachedChunks) == 0
    {
      hide *;
      var steps: int;
      SameBlocksRefl(mem, live);
      NoneGainedRefl(free);
      EmptyFitsInv(n);
      chunk, page, steps := SearchInv(n);
      found, k := page > 0, steps;
      if found {
        InvWeaker(chunk);
        PeakMovedIs(old(realPeak), old(realSize));
        MoveIfFar(chunk, page, n, steps, k);
      } else {
        chunk := AddChunk();
        page := FIRST_PAGE;
        if chunk != 0 {
          AllReadyAt(chunk, n);
          ghost var added := ring;
          MoveIfFar(chunk, page, n, steps, |ring| - 1);
          LastMoved(added, ring, steps, n);
        }
      }
    }

    lemma EmptyFitsInv(n: nat)
      requires Inv() && 0 < n < PAGES
      ensures MainEmpty() ==> !NoneFit(tables, ring, n)
      ensures MainEmpty() ==> forall k :: 0 < k <= |ring| ==> !NoneFit(tables, ring[..k], n)
      ensures MainEmpty() ==> |ring| > 0 && ring[0] == mainChunk
    {
      hide *;
      InvParts();
      if MainEmpty() {
        EmptyFits(n);
      }
    }

    method SearchInv(n: nat) returns (chunk: int, page: int, steps: int)
      requires Inv() && 0 < n
      modifies this`tables
      ensures Inv() && 0 <= steps < |ring| && chunk == ring[steps]
      ensures page > 0 ==> NoneFit(old(tables), ring[..steps], n) && ReadyAt(tables, chunk, page, n)
      ensures page > 0 ==> BestFitIn(old(tables), chunk, n, page)
      ensures page <= 0 ==> NoneFit(old(tables), ring, n) && steps == |ring| - 1
    {
      hide *;
      InvParts();
      chunk, page, steps := SearchRing(n, {});
      QuietSame(old(tables), owner, tables, owner);
      SamePagesTails(old(tables), tables, ring);
      OccupiedSame(old(tables), tables, ring, mainChunk);
      InvIs();
    }

    /** Allocates a run of n pages; 0 if memory is exhausted. */
    method AllocPages(n: nat) returns (p: int, found: bool, ghost k: int)
      requires Inv() && Counts() && 0 < n < PAGES && (MainInUse(live, mainChunk) || MainEmpty())
      modifies this`links, this`ring, this`owner, this`loose, this`chunksCount, this`tables, this`live, this`refusals
      modifies this`cachedChunks, this`cachedChunksCount, this`cache, this`realSize, this`regions
      modifies this`mem, this`freeSlot, this`free, this`realPeak, this`peakChunksCount
      ensures Inv() && Counts() && SameBlocks(old(mem), mem, old(live)) && NoneGained(old(free), free)
      ensures Beyond() == old(Beyond()) && loose == old(loose)
      ensures realSize <= old(realSize) || (p != 0 && realSize <= old(realSize) + CHUNK_SIZE && (overflow || realSize <= limit))
      ensures PeakMoved(old(realPeak), old(realSize))
      ensures p == 0 ==> !found && live == old(live) && old(cachedChunks) == 0
      ensures refusals >= old(refusals) && (p == 0 ==> Denied(old(refusals), CHUNK_SIZE))
      ensures realSize > old(realSize) ==> old(cachedChunks) == 0 && NoneFit(old(tables), old(ring), n)
      ensures p != 0 ==> p !in old(live) && live == old(live)[p := Large(n)] && StartAddress(p)
      ensures p != 0 ==> Base(p) in tables && PageNum(p) + n <= tables[Base(p)].freeTail
      ensures old(MainEmpty()) ==> p != 0 && Base(p) == mainChunk
      ensures found ==> 0 <= k < |old(ring)| && Base(p) == old(ring)[k]
      ensures found ==> MovedIfFar(old(ring), ring, k, k, n)
      ensures !found && p != 0 ==> |ring| > 1 && ring[if |old(ring)| > 3 && n < 8 then 1 else |ring| - 1] == Base(p)
      ensures found ==> NoneFit(old(tables), old(ring)[..k], n) && BestFitIn(old(tables), Base(p), n, PageNum(p))
      ensures !found ==> NoneFit(old(tables), old(ring), n) && (p != 0 ==> PageNum(p) == FIRST_PAGE)
    {
      hide *;
      var chunk, page;
      EmptyFitsInv(n);
      chunk, page, found, k := FindPages(n);
      p := 0;
      if chunk != 0 {
        InvButParts(chunk);
        ghost var T, O := tables, owner;
        p := CarveRun(chunk, page, n, {});
        InvIs();
        StartNotZero(p);
      }
    }

    // ---- small and large blocks ----

    /** heap->size grows, and with it the peak. */
    method AddSize(n: int)
      modifies this`size, this`peak
      ensures size == old(size) + n && peak == Max(old(peak), size)
    {
      size := size + n;
      peak := Max(peak, size);
    }

    /** Cuts the fresh run of a large block into slots: the first is the block now, the others are free. */
    method CutRun(p: int, bin: int)
      requires Inv() && 0 <= bin < BINS && LiveAs(live, p, Large(BinPages(bin))) && p > 0
      requires |free| == BINS && free[bin] == [] && Base(p) in tables && PageNum(p) + BinPages(bin) <= tables[Base(p)].freeTail
      modifies this`tables, this`mem, this`freeSlot, this`free, this`live
      ensures Inv() && live == old(live)[p := Small(bin)] && SameBlocks(old(mem), mem, old(live) - {p})
      ensures |free| == BINS && free == old(free)[bin := free[bin]] && OtherSlots(free[bin], p, bin) && InOrder(free[bin], p, bin)
    {
      hide *;
      InvParts();
      CoreParts({});
      SlotListIs(p, bin);
      ghost var list := SlotList(p, BinSize(bin), BinElements(bin));
      LiveLarge(live, p, BinPages(bin));
      LargeAt(tables, owner, free, live, p, BinPages(bin));
      OwnerInRing(owner, ring, Base(p));
      CutIntoSlots(tables, owner, free, live, p, bin, list);
      RunApart(list, p, bin);
      HugeLedgerSwap(huge, live, p, Small(bin));
      var chunk, page := Base(p), PageNum(p);
      var map_ := MarkPages(tables[chunk], page, bin);
      SparesStep(tables, links, cache, regions, ring, huge, loose, chunk, MarkSmall(tables[chunk], page, bin));
      ghost var mem0, slots0 := mem, freeSlot;
      mem := LinkSlots(mem, p, BinSize(bin), BinElements(bin));
      ChainsAdded(mem0, mem, freeSlot, p + BinSize(bin), free, bin, list);
      WritesApart(mem0, mem, live, p, list);
      HugeKeptBut(mem0, mem, hugeList, huge, live, p);
      SamePagesMarked(tables, chunk, page, bin, ring);
      OccupiedSame(tables, tables[chunk := MarkSmall(tables[chunk], page, bin)], ring, mainChunk);
      tables := tables[chunk := tables[chunk].(map_ := map_)];
      freeSlot := freeSlot[bin := p + BinSize(bin)];
      free := free[bin := list];
      live := live[p := Small(bin)];
      CoreIs({});
      InvIs();
    }

    lemma RunApart(list: seq<int>, p: int, bin: int)
      requires Inv() && 0 <= bin < BINS && LiveAs(live, p, Large(BinPages(bin))) && OtherSlots(list, p, bin)
      ensures forall w, b :: w in list ==> !InFree(free, b, w)
      ensures forall w, a :: w in list && a != p ==> !InBlock(live, a, w)
    {
      hide *;
      InvParts();
      CoreParts({});
      OthersInside(list, p, bin);
      forall w, b | w in list
        ensures !InFree(free, b, w)
      {
        LargeApart(tables, owner, free, live, regions, ring, cache, huge, loose, p, BinPages(bin), w);
      }
      forall w, a | w in list && a != p
        ensures !InBlock(live, a, w)
      {
        LargeApart(tables, owner, free, live, regions, ring, cache, huge, loose, p, BinPages(bin), w);
      }
    }

    /** A run of slots for the bin, whose list is empty; returns its first slot, or 0. */
    method AllocSmallSlow(bin: int) returns (p: int)
      requires Inv() && Counts() && 0 <= bin < BINS && |free| == BINS && free[bin] == []
      requires MainInUse(live, mainChunk) || MainEmpty()
      modifies this`links, this`ring, this`owner, this`loose, this`chunksCount, this`tables, this`live, this`refusals
      modifies this`cachedChunks, this`cachedChunksCount, this`cache, this`realSize, this`regions
      modifies this`mem, this`freeSlot, this`free, this`realPeak, this`peakChunksCount
      ensures Inv() && Counts() && SameBlocks(old(mem), mem, old(live)) && Beyond() == old(Beyond()) && loose == old(loose)
      ensures realSize <= old(realSize) || (p != 0 && realSize <= old(realSize) + CHUNK_SIZE && (overflow || realSize <= limit))
      ensures PeakMoved(old(realPeak), old(realSize))
      ensures p == 0 ==> live == old(live) && old(cachedChunks) == 0 && NoneFit(old(tables), old(ring), PagesOf(bin))
      ensures refusals >= old(refusals) && (p == 0 ==> Denied(old(refusals), CHUNK_SIZE))
      ensures realSize > old(realSize) ==> old(cachedChunks) == 0 && NoneFit(old(tables), old(ring), PagesOf(bin))
      ensures OnlyGained(old(free), free, bin)
      ensures p != 0 ==> p !in old(live) && live == old(live)[p := Small(bin)]
      ensures p != 0 ==> |free| == BINS && OtherSlots(free[bin], p, bin) && InOrder(free[bin], p, bin)
      ensures old(MainEmpty()) ==> p != 0 && Base(p) == mainChunk
    {
      hide *;
      ghost var found, k;
      BinPagesFit(bin);
      p, found, k := AllocPages(BinPages(bin));
      OnlyGainedNone(old(free), free, bin);
      if p != 0 {
        ghost var mid := free;
        ghost var mem1, live1 := mem, live;
        WithoutNew(old(live), p, Large(BinPages(bin)));
        FreshRunFacts(p, bin, old(free));
        CutRun(p, bin);
        WithNew(old(live), p, Large(BinPages(bin)), Small(bin));
        SameBlocksTrans(old(mem), mem1, mem, old(live));
        OnlyGainedIs(old(free), mid, free, bin);
      }
    }

    lemma FreshRunFacts(p: int, bin: int, lists: FreeLists)
      requires Inv() && StartAddress(p) && NoneGained(lists, free) && 0 <= bin < |lists| == BINS && lists[bin] == []
      requires Base(p) in tables && LiveAs(live, p, Large(BinPages(bin)))
      ensures p > 0 && |free| == BINS && free[bin] == []
    {
      hide *;
      InvParts();
      CoreParts({});
      ChainsSized(mem, freeSlot, free);
      StillEmpty(lists, free, bin);
      LargeAt(tables, owner, free, live, p, BinPages(bin));
      ChunkFacts(tables, owner, Base(p));
      StartPositive(p);
    }

    lemma InvSized()
      requires Inv()
      ensures |free| == |freeSlot| == BINS
      ensures forall bin :: 0 <= bin < BINS ==> (freeSlot[bin] == 0 <==> free[bin] == [])
    {
      hide *;
      InvParts();
      CoreParts({});
      HeadsShow(mem, freeSlot, free);
    }

    /** The first free slot of the bin is handed out. */
    method PopSlot(bin: int) returns (p: int)
      requires Inv() && 0 <= bin < BINS == |free| && free[bin] != []
      modifies this`freeSlot, this`free, this`live
      ensures Inv() && p == old(free)[bin][0] && p != 0 && free == old(free)[bin := old(free)[bin][1..]]
      ensures p !in old(live) && live == old(live)[p := Small(bin)]
    {
      hide *;
      InvParts();
      CoreParts({});
      HeadsShow(mem, freeSlot, free);
      PopAll(mem, freeSlot, free, bin);
      Pop(tables, owner, free, live, {}, bin);
      HugeLedgerAdd(huge, live, free[bin][0], Small(bin));
      p := freeSlot[bin];
      freeSlot := freeSlot[bin := Rd(mem, p)];
      free := free[bin := free[bin][1..]];
      live := live[p := Small(bin)];
      CoreIs({});
      InvIs();
    }

    /** Allocates a slot of the bin; 0 if memory is exhausted. */
    method AllocSmall(bin: int) returns (p: int)
      requires Inv() && Counts() && 0 <= bin < BINS
      requires MainInUse(live, mainChunk) || MainEmpty() || (|free| == BINS && free[bin] != [])
      modifies this`links, this`ring, this`owner, this`loose, this`chunksCount, this`tables, this`live, this`refusals
      modifies this`cachedChunks, this`cachedChunksCount, this`cache, this`realSize, this`regions
      modifies this`mem, this`freeSlot, this`free, this`realPeak, this`peakChunksCount, this`size, this`peak
      ensures Inv() && Counts() && SameBlocks(old(mem), mem, old(live)) && Beyond() == old(Beyond()) && loose == old(loose)
      ensures realSize <= old(realSize) || (p != 0 && realSize <= old(realSize) + CHUNK_SIZE && (overflow || realSize <= limit))
      ensures PeakMoved(old(realPeak), old(realSize))
      ensures p == 0 ==> live == old(live) && old(cachedChunks) == 0 && NoneFit(old(tables), old(ring), PagesOf(bin))
      ensures refusals >= old(refusals) && (p == 0 ==> Denied(old(refusals), CHUNK_SIZE))
      ensures p != 0 ==> p !in old(live) && live == old(live)[p := Small(bin)]
      ensures size == old(size) + BinSize(bin) && peak == Max(old(peak), size)
      ensures |old(free)| == BINS
      ensures realSize > old(realSize) ==> old(free)[bin] == [] && old(cachedChunks) == 0 && NoneFit(old(tables), old(ring), PagesOf(bin))
      ensures old(free)[bin] != [] ==> p == old(free)[bin][0] && p != 0 && free == old(free)[bin := old(free)[bin][1..]]
      ensures old(free)[bin] == [] && p != 0 ==> |free| == BINS && OtherSlots(free[bin], p, bin) && InOrder(free[bin], p, bin)
      ensures old(free)[bin] == [] && old(MainEmpty()) ==> p != 0 && Base(p) == mainChunk
      ensures OnlyGained(old(free), free, bin)
    {
      hide *;
      AddSize(BinSize(bin));
      InvSized();
      SameBlocksRefl(mem, live);
      if freeSlot[bin] != 0 {
        OnlyGainedPop(free, bin);
        p := PopSlot(bin);
        PeakMovedIs(old(realPeak), old(realSize));
      } else {
        p := AllocSmallSlow(bin);
      }
    }

    /** Allocates a run of pages for a size; 0 if memory is exhausted. */
    method AllocLarge(n: nat) returns (p: int, ghost found: bool, ghost k: int)
      requires Inv() && Counts() && 0 < n < PAGES && (MainInUse(live, mainChunk) || MainEmpty())
      modifies this`links, this`ring, this`owner, this`loose, this`chunksCount, this`tables, this`live, this`refusals
      modifies this`cachedChunks, this`cachedChunksCount, this`cache, this`realSize, this`regions
      modifies this`mem, this`freeSlot, this`free, this`realPeak, this`peakChunksCount, this`size, this`peak
      ensures Inv() && Counts() && SameBlocks(old(mem), mem, old(live)) && Beyond() == old(Beyond()) && loose == old(loose)
      ensures realSize <= old(realSize) || (p != 0 && realSize <= old(realSize) + CHUNK_SIZE && (overflow || realSize <= limit))
      ensures PeakMoved(old(realPeak), old(realSize))
      ensures p == 0 ==> !found && live == old(live) && old(cachedChunks) == 0
      ensures refusals >= old(refusals) && (p == 0 ==> Denied(old(refusals), CHUNK_SIZE))
      ensures realSize > old(realSize) ==> old(cachedChunks) == 0 && NoneFit(old(tables), old(ring), n)
      ensures p != 0 ==> p !in old(live) && live == old(live)[p := Large(n)]
      ensures found ==> 0 <= k < |old(ring)| && Base(p) == old(ring)[k]
      ensures found ==> NoneFit(old(tables), old(ring)[..k], n) && BestFitIn(old(tables), Base(p), n, PageNum(p))
      ensures !found ==> NoneFit(old(tables), old(ring), n) && (p != 0 ==> PageNum(p) == FIRST_PAGE)
      ensures old(MainEmpty()) ==> p != 0 && Base(p) == mainChunk
      ensures size == old(size) + n * PAGE_SIZE && peak == Max(old(peak), size)
    {
      hide *;
      p, found, k := AllocPages(n);
      AddSize(n * PAGE_SIZE);
    }

    /** What pushing a slot onto its free list keeps. */
    lemma PushKeeps(p: int, bin: int)
      requires Inv() && 0 <= bin < BINS && LiveAs(live, p, Small(bin)) && HugeLedger(huge, live - {p})
      ensures |free| == |freeSlot| == BINS
      ensures ChainsOk(mem[p := freeSlot[bin]], freeSlot[bin := p], free[bin := [p] + free[bin]])
      ensures SameBlocks(mem, mem[p := freeSlot[bin]], live - {p})
      ensures HugeChain(mem[p := freeSlot[bin]], hugeList, huge)
    {
      hide *;
      InvParts();
      CoreParts({});
      SlotSizePositive(live, p, bin);
      FirstWordApart(tables, owner, free, live, regions, ring, cache, huge, loose, p);
      LiveNotZero(tables, owner, free, live, p);
      HeadsShow(mem, freeSlot, free);
      PushAll(mem, freeSlot, free, live, bin, p);
      HugeKept(mem, mem[p := freeSlot[bin]], hugeList, huge, live - {p});
    }

    /** Puts a slot in front of the free list of its bin. */
    method FreeSmall(p: int, bin: int)
      requires Inv() && 0 <= bin < BINS && LiveAs(live, p, Small(bin)) && HugeLedger(huge, live - {p})
      modifies this`size, this`mem, this`freeSlot, this`free, this`live
      ensures Inv() && live == old(live) - {p} && SameBlocks(old(mem), mem, live) && size == old(size) - BinSize(bin)
      ensures |old(free)| == BINS && free == old(free)[bin := [p] + old(free)[bin]]
    {
      hide *;
      PushKeeps(p, bin);
      InvParts();
      CoreParts({});
      Push(tables, owner, free, live, {}, bin, p);
      mem := mem[p := freeSlot[bin]];
      freeSlot := freeSlot[bin := p];
      free := free[bin := [p] + free[bin]];
      live := live - {p};
      size := size - BinSize(bin);
      CoreIs({});
      InvIs();
    }

    /** Frees the run of a large block. */
    method FreeLarge(p: int, n: int)
      requires Inv() && Counts() && LiveAs(live, p, Large(n)) && MainInUse(live - {p}, mainChunk)
      modifies this`tables, this`owner, this`live, this`links, this`ring, this`loose, this`chunksCount
      modifies this`cachedChunks, this`cachedChunksCount, this`cache, this`realSize, this`regions, this`size
      ensures Inv() && Counts() && live == old(live) - {p} && loose == old(loose) && size == old(size) - n * PAGE_SIZE
      ensures Beyond() == old(Beyond()) && realSize <= old(realSize)
    {
      hide *;
      size := size - n * PAGE_SIZE;
      InvParts();
      CoreParts({});
      LargeAt(tables, owner, free, live, p, n);
      var chunk, page := Base(p), PageNum(p);
      ghost var k := RingIndex(chunk);
      ChunkFacts(tables, owner, chunk);
      LargeStarts(tables[chunk], owner[chunk], page, n);
      LiveAsSum(live, p, chunk + page * PAGE_SIZE, Large(n));
      ReleaseLarge(tables, owner, free, live, {}, chunk, page, n);
      HugeLedgerLess(huge, live, p, n);
      NotLast(tables, owner, free, live - {p}, chunk, page, n, mainChunk);
      ghost var T, O := tables[chunk := Release(tables[chunk], page, n)], owner[chunk := Assign(owner[chunk], page, n, -1)];
      FreePages(chunk, page, n, k, {}, {}, live - {p});
      QuietSame(T, O, tables, owner);
      InvIs();
    }

    lemma RingIndex(chunk: int) returns (k: nat)
      requires Core({}) && chunk in owner
      ensures k < |ring| && ring[k] == chunk && (k == 0 <==> chunk == mainChunk)
    {
      hide *;
      CoreParts({});
      OwnerInRing(owner, ring, chunk);
      k := IndexOf(ring, chunk);
      RingDistinct(links, ring);
      OnlyFirst(ring, k);
    }

    // ---- the list of huge blocks ----

    /** Looks for the entry of a huge block; list is 0 when there is none. */
    method FindHuge(ptr: int) returns (list: int, prev: int, ghost k: int)
      requires Inv()
      ensures list != 0 ==> 0 <= k < |huge| && huge[k].node == list && huge[k].ptr == ptr
      ensures list != 0 ==> prev == if k == 0 then 0 else huge[k - 1].node
      ensures list == 0 ==> !IsPtr(huge, ptr)
    {
      hide *;
      InvParts();
      CoreParts({});
      HugeStart(mem, hugeList, huge);
      PassedNone(huge, ptr);
      list, prev, k := hugeList, 0, 0;
      while list != 0
        invariant 0 <= k <= |huge| && list == (if k < |huge| then huge[k].node else 0) && (k < |huge| ==> huge[k].node != 0)
        invariant prev == if k == 0 then 0 else huge[k - 1].node
        invariant Passed(huge, k, ptr)
        decreases |huge| - k
      {
        HugeAt(mem, hugeList, huge, k);
        if Rd(mem, list) == ptr {
          return;
        }
        PassedNext(huge, k, ptr);
        if k + 1 < |huge| {
          HugeAt(mem, hugeList, huge, k + 1);
        }
        prev := list;
        list := Rd(mem, list + 16);
        k := k + 1;
      }
      PassedAll(huge, k, ptr);
    }

    /** The size of a huge block as its list entry has it; 0 if there is none. */
    method HugeBlockSize(ptr: int) returns (size_: int)
      requires Inv()
      ensures LiveAs(live, ptr, Huge(size_)) || (size_ == 0 && !IsPtr(huge, ptr))
    {
      hide *;
      var list, prev;
      ghost var k;
      list, prev, k := FindHuge(ptr);
      if list == 0 {
        return 0;
      }
      InvParts();
      CoreParts({});
      HugeAt(mem, hugeList, huge, k);
      EntryFacts(huge, live, k);
      size_ := Rd(mem, list + 8);
    }

    /** What taking out entry k keeps, apart from the write that does it. */
    lemma UnlinkKeeps(k: int)
      requires Inv() && 0 <= k < |huge|
      ensures HugeLedger(Cut(huge, k), live - {huge[k].ptr}) && LedgerOk(tables, owner, free, live - {huge[k].ptr}, {})
      ensures RegionsOk(regions, ring, cache, Cut(huge, k), loose[huge[k].ptr := huge[k].size])
      ensures huge[k].ptr in regions && regions[huge[k].ptr] == huge[k].size
      ensures LiveAs(live - {huge[k].ptr}, huge[k].node, Small(NODE_BIN))
      ensures HugeLedger(Cut(huge, k), live - {huge[k].ptr} - {huge[k].node})
    {
      hide *;
      InvParts();
      CoreParts({});
      EntryFacts(huge, live, k);
      PtrsDistinct(huge, live);
      FromHuge(regions, ring, cache, huge, loose, k);
      LedgerDropHuge(tables, owner, free, live, huge[k].ptr);
      EntriesCut(huge, live, k);
      NodeAfterCut(huge, live, k);
    }

    /** Takes entry k out of the list; the region it described becomes loose, its node an ordinary block. */
    method UnlinkHuge(list: int, prev: int, ghost k: int)
      requires Inv() && 0 <= k < |huge| && huge[k].node == list && prev == if k == 0 then 0 else huge[k - 1].node
      modifies this`mem, this`hugeList, this`huge, this`live, this`loose
      ensures Inv() && huge == Cut(old(huge), k) && live == old(live) - {old(huge)[k].ptr} && loose == old(loose)[old(huge)[k].ptr := old(huge)[k].size]
      ensures SameBlocks(old(mem), mem, old(UserBlocks(live, huge)))
      ensures LiveAs(live, list, Small(NODE_BIN)) && HugeLedger(huge, live - {list})
      ensures old(huge)[k].ptr in regions && regions[old(huge)[k].ptr] == old(huge)[k].size
    {
      hide *;
      UnlinkKeeps(k);
      InvParts();
      CoreParts({});
      NodesAreApart(tables, owner, free, live, huge);
      HugeCut(mem, hugeList, huge, k);
      HugeAt(mem, hugeList, huge, k);
      SameBlocksRefl(mem, UserBlocks(live, huge));
      if prev != 0 {
        UnlinkNode(tables, owner, free, live, regions, ring, cache, huge, loose, mem, freeSlot, k - 1, Rd(mem, list + 16));
        mem := mem[prev + 16 := Rd(mem, list + 16)];
      } else {
        HugeAtOrFirst(k, prev);
        hugeList := Rd(mem, list + 16);
      }
      live := live - {huge[k].ptr};
      loose := loose[huge[k].ptr := huge[k].size];
      huge := Cut(huge, k);
      CoreIs({});
      InvIs();
    }

    lemma HugeAtOrFirst(k: int, prev: int)
      requires Inv() && 0 <= k < |huge| && prev == (if k == 0 then 0 else huge[k - 1].node) && prev == 0
      ensures k == 0
    {
      hide *;
      InvParts();
      CoreParts({});
      if k > 0 {
        HugeAt(mem, hugeList, huge, k - 1);
      }
    }

    /** Fills in a fresh node and puts it in front of the list. */
    method LinkHuge(node: int, ptr: int, bytes: int)
      requires Inv() && LiveAs(live, node, Small(NODE_BIN)) && !IsNode(huge, node)
      requires ptr in loose && loose[ptr] == bytes > 0
      modifies this`mem, this`hugeList, this`huge, this`live, this`loose
      ensures Inv() && huge == [HugeEntry(node, ptr, bytes)] + old(huge) && ptr !in old(live)
      ensures live == old(live)[ptr := Huge(bytes)] && loose == old(loose) - {ptr}
      ensures SameBlocks(old(mem), mem, old(live) - {node})
    {
      hide *;
      InvParts();
      CoreParts({});
      ghost var e := HugeEntry(node, ptr, bytes);
      LooseNotLive(tables, owner, free, live, regions, ring, cache, huge, loose, ptr);
      LooseAligned(regions, ring, cache, huge, loose, ptr);
      FillNode(tables, owner, free, live, regions, ring, cache, huge, loose, mem, freeSlot, hugeList, e);
      LedgerAddHuge(tables, owner, free, live, ptr, bytes);
      EntriesAdd(huge, live, e);
      ToHuge(regions, ring, cache, huge, loose, e);
      mem := mem[node := ptr];
      mem := mem[node + 8 := bytes];
      mem := mem[node + 16 := hugeList];
      hugeList := node;
      huge := [e] + huge;
      live := live[ptr := Huge(bytes)];
      loose := loose - {ptr};
      CoreIs({});
      InvIs();
    }

    /** A new size for the huge block of entry k, whose region was cut or extended to it. */
    method ResizeHuge(ptr: int, bytes: int)
      requires Inv() && IsPtr(huge, ptr) && bytes > 0
      requires ptr in regions && (bytes <= regions[ptr] || ClearOf(regions, ptr + regions[ptr], bytes - regions[ptr]))
      modifies this`mem, this`huge, this`live, this`regions
      ensures Inv() && live == old(live)[ptr := Huge(bytes)] && regions == old(regions)[ptr := bytes]
      ensures LiveAs(old(live), ptr, Huge(old(regions)[ptr])) && SameBlocks(old(mem), mem, old(UserBlocks(live, huge)))
      ensures HugeTotal(huge) == HugeTotal(old(huge)) + bytes - old(regions)[ptr]
      ensures forall a :: IsNode(huge, a) <==> IsNode(old(huge), a)
    {
      hide *;
      var list, prev;
      ghost var k;
      list, prev, k := FindHuge(ptr);
      InvParts();
      CoreParts({});
      EntryFacts(huge, live, k);
      NodesAreApart(tables, owner, free, live, huge);
      PtrsDistinct(huge, live);
      RegionOfEntry(regions, ring, cache, huge, loose, k);
      HugeResize(mem, hugeList, huge, k, bytes);
      HugeResized(regions, ring, cache, huge, loose, k, bytes);
      LedgerResizeHuge(tables, owner, free, live, ptr, bytes);
      EntriesResized(huge, live, k, bytes);
      UnlinkNode(tables, owner, free, live, regions, ring, cache, huge, loose, mem, freeSlot, k, bytes);
      TotalResized(huge, k, bytes);
      mem := mem[list + 8 := bytes];
      live := live[ptr := Huge(bytes)];
      regions := regions[ptr := bytes];
      huge := Resized(huge, k, bytes);
      CoreIs({});
      InvIs();
    }

    // ---- huge blocks ----

    /** Makes room below the limit for more bytes, if need be by a collection. */
    method RoomFor(bytes: int) returns (ok: bool, ghost collects: bool)
      requires Inv() && Counts() && MainInUse(live, mainChunk)
      modifies this`links, this`ring, this`owner, this`loose, this`chunksCount, this`tables, this`live
      modifies this`cachedChunks, this`cachedChunksCount, this`cache, this`realSize, this`regions
      modifies this`mem, this`freeSlot, this`free
      ensures Inv() && Counts() && live == old(live) && SameBlocks(old(mem), mem, live) && loose == old(loose)
      ensures Beyond() == old(Beyond()) && realSize <= old(realSize)
      ensures ok ==> overflow || realSize + bytes <= limit
      ensures !ok ==> collects && Settled()
      ensures !ok ==> !overflow && realSize + bytes > limit
      ensures Leaves(collects, old(Now()), Now())
      ensures collects ==> old(realSize) + bytes > limit
    {
      hide *;
      SameBlocksRefl(mem, live);
      LeavesSame(Now());
      ok, collects := true, false;
      if realSize + bytes > limit {
        ghost var gone;
        collects := true;
        var collected: int;
        collected, gone := Gc();
        LeavesOne(old(Now()), Now());
        if collected != 0 && realSize + bytes <= limit {
          // enough
        } else if !overflow {
          ok := false;
        }
      }
    }

    /** A region in the hands of the caller. */
    method MapLoose(bytes: int) returns (p: int)
      requires Inv() && bytes > 0
      modifies this`regions, this`loose, this`refusals
      ensures Inv() && (p == 0 ==> loose == old(loose))
      ensures refusals == old(refusals) + if p == 0 then 1 else 0
      ensures p != 0 ==> loose == old(loose)[p := bytes] && p !in old(loose) && p > 0 && p % CHUNK_SIZE == 0
    {
      hide *;
      InvParts();
      CoreParts({});
      ghost var regions0, loose0 := regions, loose;
      p := MapRegion(bytes);
      if p != 0 {
        Mapped(regions0, ring, cache, huge, loose0, p, bytes);
      }
      CoreIs({});
      InvIs();
    }

    /** Maps a region, if need be after a collection; 0 if there is no memory. */
    method MapOrCollect(bytes: int) returns (p: int, ghost collects: bool)
      requires Inv() && Counts() && MainInUse(live, mainChunk) && bytes > 0
      modifies this`links, this`ring, this`owner, this`loose, this`chunksCount, this`tables, this`live, this`refusals
      modifies this`cachedChunks, this`cachedChunksCount, this`cache, this`realSize, this`regions
      modifies this`mem, this`freeSlot, this`free
      ensures Inv() && Counts() && live == old(live) && SameBlocks(old(mem), mem, live)
      ensures Beyond() == old(Beyond()) && realSize <= old(realSize)
      ensures refusals >= old(refusals) && (p == 0 ==> loose == old(loose) && refusals > old(refusals))
      ensures p == 0 ==> collects && Settled()
      ensures p == 0 && refusals == old(refusals) + 1 ==> DeadAre(old(tables), old(owner), old(free), BINS, {})
      ensures Leaves(collects, old(Now()), Now())
      ensures collects ==> refusals > old(refusals)
      ensures p != 0 ==> loose == old(loose)[p := bytes] && p !in old(loose) && p > 0 && p % CHUNK_SIZE == 0
    {
      hide *;
      SameBlocksRefl(mem, live);
      LeavesSame(Now());
      collects := false;
      p := MapLoose(bytes);
      if p == 0 {
        ghost var gone;
        collects := true;
        var collected: int;
        collected, gone := Gc();
        LeavesOne(old(Now()), Now());
        if collected != 0 {
          p := MapLoose(bytes);
        }
      }
    }

    lemma NodesInUse()
      requires Inv()
      ensures forall a :: a !in live ==> !IsNode(huge, a)
    {
      hide *;
      InvParts();
      CoreParts({});
      forall a | a !in live
        ensures !IsNode(huge, a)
      {
        if IsNode(huge, a) { NodesLive(huge, live, a); }
      }
    }

    /** Enters a mapped region into the list of huge blocks; the node is a small block. */
    method AddHuge(ptr: int, bytes: int) returns (node: int)
      requires Inv() && Counts() && MainInUse(live, mainChunk) && ptr in loose && loose[ptr] == bytes > 0
      modifies this`links, this`ring, this`owner, this`loose, this`chunksCount, this`tables, this`live, this`refusals
      modifies this`cachedChunks, this`cachedChunksCount, this`cache, this`realSize, this`regions
      modifies this`mem, this`freeSlot, this`free, this`realPeak, this`peakChunksCount, this`size, this`peak
      modifies this`hugeList, this`huge
      ensures Inv() && Counts() && SameBlocks(old(mem), mem, old(live)) && Beyond() == old(Beyond())
      ensures realSize <= old(realSize) || (node != 0 && realSize <= old(realSize) + CHUNK_SIZE && (overflow || realSize <= limit))
      ensures PeakMoved(old(realPeak), old(realSize))
      ensures node == 0 ==> live == old(live) && huge == old(huge) && loose == old(loose)
      ensures refusals >= old(refusals) && (node == 0 ==> Denied(old(refusals), CHUNK_SIZE))
      ensures realSize > old(realSize) ==> Exhausted(old(Now()))
      ensures node != 0 ==> node !in old(live) && ptr !in old(live) && node != ptr && loose == old(loose) - {ptr}
      ensures node != 0 ==> live == old(live)[node := Small(NODE_BIN)][ptr := Huge(bytes)]
      ensures node != 0 ==> huge == [HugeEntry(node, ptr, bytes)] + old(huge)
      ensures size == old(size) + NODE_SIZE && peak == Max(old(peak), size)
    {
      hide *;
      NowIs();
      NodeBin();
      var bin := SmallSizeToBin(NODE_SIZE);
      NodesInUse();
      node := AllocSmall(bin);
      if realSize > old(realSize) {
        ExhaustedIs(old(Now()));
      }
      if node != 0 {
        ghost var mem1 := mem;
        WithoutNew(old(live), node, Small(NODE_BIN));
        LinkHuge(node, ptr, bytes);
        SameBlocksTrans(old(mem), mem1, mem, old(live));
      }
    }

    /** The counters agree with what is handed out and what is mapped. */
    ghost predicate Books()
      reads this`size, this`peak, this`realSize, this`realPeak, this`ring, this`cache, this`live, this`huge
    {
      && size == Total(live) && size <= peak
      && realSize == CHUNK_SIZE * (|ring| + |cache|) + HugeTotal(huge) && realSize <= realPeak
    }

    /** A heap between two calls, none of which has failed. */
    ghost predicate Valid()
      reads this
    {
      Inv() && Counts() && Books() && loose == map[]
    }

    lemma ValidParts()
      requires Valid()
      ensures Inv() && Counts() && Books() && loose == map[]
      ensures size == Total(live) && size <= peak && realSize <= realPeak && Beyond() == HugeTotal(huge)
    {
      hide Inv, Counts;
    }

    lemma ValidIs()
      requires Inv() && Counts() && loose == map[]
      requires size == Total(live) && size <= peak && realSize <= realPeak && Beyond() == HugeTotal(huge)
      ensures Valid()
    {
      hide Inv, Counts;
    }

    lemma BeyondIs()
      requires Books()
      ensures realSize == CHUNK_SIZE * (|ring| + |cache|) + HugeTotal(huge)
    {}

    /** A region for a huge block, within the limit; 0 if memory is exhausted. */
    method ReserveHuge(bytes: int) returns (ptr: int, ghost collects: bool)
      requires Inv() && Counts() && MainInUse(live, mainChunk) && bytes > 0
      modifies this`links, this`ring, this`owner, this`loose, this`chunksCount, this`tables, this`live, this`refusals
      modifies this`cachedChunks, this`cachedChunksCount, this`cache, this`realSize, this`regions
      modifies this`mem, this`freeSlot, this`free
      ensures Inv() && Counts() && live == old(live) && SameBlocks(old(mem), mem, live)
      ensures Beyond() == old(Beyond()) && realSize <= old(realSize)
      ensures ptr == 0 ==> loose == old(loose) && Denied(old(refusals), bytes)
      ensures refusals >= old(refusals)
      ensures Leaves(collects, old(Now()), Now())
      ensures collects ==> old(realSize) + bytes > limit || refusals > old(refusals)
      ensures ptr != 0 ==> loose == old(loose)[ptr := bytes] && ptr !in old(loose) && ptr > 0 && ptr % CHUNK_SIZE == 0
      ensures ptr != 0 ==> overflow || realSize + bytes <= limit
    {
      hide *;
      ptr := 0;
      var ok: bool;
      ok, collects := RoomFor(bytes);
      if !ok {
        DeniedByLimit(old(refusals), bytes);
      } else {
        ghost var mem1, stock1, first := mem, Now(), collects;
        ghost var again;
        ptr, again := MapOrCollect(bytes);
        collects := first || again;
        LeavesTwice(first, again, old(Now()), stock1, Now());
        if ptr == 0 {
          DeniedBySystem(old(refusals), bytes);
        }
        SameBlocksTrans(old(mem), mem1, mem, live);
      }
    }

    lemma EntriesOk()
      requires Inv()
      ensures HugeLedger(huge, live)
    {
      hide *;
      InvParts();
      CoreParts({});
    }

    /** Makes a reserved region a huge block; false if there is no memory for the list node. */
    method EnterHuge(ptr: int, bytes: int) returns (ok: bool)
      requires Inv() && Counts() && Books() && MainInUse(live, mainChunk) && ptr in loose && loose[ptr] == bytes > 0
      requires overflow || realSize + bytes <= limit
      modifies this`links, this`ring, this`owner, this`loose, this`chunksCount, this`tables, this`live, this`refusals
      modifies this`cachedChunks, this`cachedChunksCount, this`cache, this`realSize, this`regions
      modifies this`mem, this`freeSlot, this`free, this`realPeak, this`peakChunksCount, this`size, this`peak
      modifies this`hugeList, this`huge
      ensures Inv() && Counts() && SameBlocks(old(mem), mem, old(live)) && MainInUse(live, mainChunk)
      ensures WithinLimit(old(realSize), Exhausted(old(Now())))
      ensures refusals >= old(refusals) && (!ok ==> Denied(old(refusals), CHUNK_SIZE))
      ensures !ok ==> realSize <= old(realSize) && live == old(live) && huge == old(huge)
      ensures ok ==> PeaksUp(old(peak), old(realPeak))
      ensures ok ==> Grown(old(live), live)
      ensures ok ==> Books() && loose == old(loose) - {ptr} && ptr !in old(live) && size == old(size) + bytes + NODE_SIZE
      ensures ok ==> UserBlocks(live, huge) == UserBlocks(old(live), old(huge))[ptr := Huge(bytes)]
    {
      hide *;
      BooksParts();
      EntriesOk();
      ChunkSizePositive();
      var node := AddHuge(ptr, bytes);
      PeakMovedSays(old(realPeak), old(realSize));
      ghost var peak1, realPeak1, size1, realSize1 := peak, realPeak, size, realSize;
      ok := node != 0;
      if ok {
        HugeBooked(old(live), old(huge), node, ptr, bytes, mainChunk);
        GrownByTwo(old(live), node, Small(NODE_BIN), ptr, Huge(bytes));
        CountHuge(bytes);
        PeaksCounted(old(peak), old(realPeak), peak1, realPeak1, size1, realSize1);
        BooksAre();
      }
      WithinLimitIs(old(realSize), Exhausted(old(Now())));
    }

    lemma BooksParts()
      requires Books()
      ensures size == Total(live) && size <= peak && realSize <= realPeak && Beyond() == HugeTotal(huge)
    {}

    lemma BooksAre()
      requires size == Total(live) && size <= peak && realSize <= realPeak && Beyond() == HugeTotal(huge)
      ensures Books()
    {}

    /** Allocates a huge block of whole system pages; 0 if memory is exhausted. */
    method AllocHuge(bytes: int) returns (ptr: int, ghost asked: Asked)
      requires Valid() && MainInUse(live, mainChunk) && bytes > MAX_LARGE_SIZE
      modifies this`links, this`ring, this`owner, this`loose, this`chunksCount, this`tables, this`live, this`refusals
      modifies this`cachedChunks, this`cachedChunksCount, this`cache, this`realSize, this`regions
      modifies this`mem, this`freeSlot, this`free, this`realPeak, this`peakChunksCount, this`size, this`peak
      modifies this`hugeList, this`huge
      ensures Inv() && Counts() && SameBlocks(old(mem), mem, old(live)) && MainInUse(live, mainChunk)
      ensures WithinLimit(old(realSize), NeedsChunk(asked)) && AskedFrom(asked, old(Now()))
      ensures asked.Asked? && !asked.atOnce ==> Pressed(old(realSize), old(refusals), WholePages(bytes))
      ensures refusals >= old(refusals) && (ptr == 0 ==> Denied(old(refusals), WholePages(bytes)))
      ensures ptr == 0 ==> realSize <= old(realSize) && live == old(live) && huge == old(huge)
      ensures ptr != 0 ==> PeaksUp(old(peak), old(realPeak))
      ensures ptr != 0 ==> Valid() && ptr !in old(live) && ptr % CHUNK_SIZE == 0 && Grown(old(live), live)
      ensures ptr != 0 ==> UserBlocks(live, huge) == UserBlocks(old(live), old(huge))[ptr := Huge(WholePages(bytes))]
      ensures ptr != 0 ==> size == old(size) + WholePages(bytes) + NODE_SIZE
    {
      hide *;
      ValidParts();
      NeedIs(bytes);
      WholePagesFacts(bytes);
      var newSize := WholePages(bytes);
      ghost var collects;
      asked := NotAsked;
      NotAskedFrom(Now());
      ptr, collects := ReserveHuge(newSize);
      if ptr == 0 {
        WithinLimitIs(old(realSize), NeedsChunk(asked));
      } else {
        ghost var mem1, live1, size1, refusals1 := mem, live, realSize, refusals;
        asked := Asked(!collects, Now());
        AskedFromIs(collects, old(Now()), Now());
        BooksAre();
        var ok := EnterHuge(ptr, newSize);
        WithinLimitFrom(old(realSize), size1, Exhausted(asked.stock), NeedsChunk(asked));
        SameBlocksTrans(old(mem), mem1, mem, live1);
        if collects {
          PressedMore(old(realSize), old(refusals), newSize, refusals1);
        }
        if !ok {
          DeniedMore(old(refusals), newSize, refusals1, CHUNK_SIZE);
          ptr := 0;
          return;
        }
        LooseAgain(old(loose), ptr, newSize);
        BooksParts();
        ValidIs();
      }
    }

    /** real_size and size grow by a huge block, and the peaks with them. */
    method CountHuge(bytes: int)
      modifies this`realSize, this`realPeak, this`size, this`peak
      ensures realSize == old(realSize) + bytes && realPeak == Max(old(realPeak), realSize) && Beyond() == old(Beyond()) + bytes
      ensures size == old(size) + bytes && peak == Max(old(peak), size)
    {
      realSize := realSize + bytes;
      realPeak := Max(realPeak, realSize);
      size := size + bytes;
      peak := Max(peak, size);
    }

    // ---- freeing, from the address alone ----

    /** The info word of the page an address lies in. */
    method InfoOf(p: int) returns (info: Info)
      requires Inv() && p in live && !live[p].Huge?
      ensures KindOf(info) == live[p] && !info.FRun? && p % CHUNK_SIZE != 0
      ensures live[p].Small? ==> 0 <= live[p].bin < BINS
    {
      hide *;
      InvParts();
      CoreParts({});
      InfoTells(tables, owner, free, live, p);
      info := tables[Base(p)].map_[PageNum(p)];
    }

    /** Frees a small or large block; the info word of its page says which it is. */
    method FreeInChunk(p: int)
      requires Inv() && Counts() && p in live && !live[p].Huge? && HugeLedger(huge, live - {p})
      requires live[p].Large? ==> MainInUse(live - {p}, mainChunk)
      modifies this`tables, this`owner, this`live, this`links, this`ring, this`loose, this`chunksCount
      modifies this`cachedChunks, this`cachedChunksCount, this`cache, this`realSize, this`regions, this`size
      modifies this`mem, this`freeSlot, this`free
      ensures Inv() && Counts() && live == old(live) - {p} && SameBlocks(old(mem), mem, live) && loose == old(loose)
      ensures size == old(size) - BlockSize(old(live)[p]) && Beyond() == old(Beyond()) && realSize <= old(realSize)
      ensures |old(free)| == BINS && (old(live)[p].Small? ==> 0 <= old(live)[p].bin < BINS)
      ensures old(live)[p].Small? ==> free == old(free)[old(live)[p].bin := [p] + old(free)[old(live)[p].bin]]
    {
      hide *;
      InvSized();
      SameBlocksRefl(mem, live - {p});
      var info := InfoOf(p);
      KindIs(info, live, p);
      match info {
        case SRun(bin, _) => FreeSmall(p, bin);
        case NRun(bin, _) => FreeSmall(p, bin);
        case LRun(n) => FreeLarge(p, n);
        case FRun => assert false;
      }
    }

    /** Unmaps a loose region. */
    method ReleaseLoose(p: int)
      requires Inv() && p in loose
      modifies this`regions, this`loose
      ensures Inv() && regions == old(regions) - {p} && loose == old(loose) - {p}
    {
      hide *;
      InvParts();
      ReleaseRegion(p, {});
      InvIs();
    }

    /** real_size and size shrink by a huge block. */
    method UncountHuge(bytes: int)
      modifies this`realSize, this`size
      ensures realSize == old(realSize) - bytes && Beyond() == old(Beyond()) - bytes && size == old(size) - bytes
    {
      realSize := realSize - bytes;
      size := size - bytes;
    }

    /** Takes the entry of a huge block off the list and frees its node; returns the size of the block. */
    method DelHuge(ptr: int) returns (bytes: int)
      requires Inv() && Counts() && LiveHuge(live, ptr)
      modifies this`tables, this`owner, this`live, this`links, this`ring, this`loose, this`chunksCount
      modifies this`cachedChunks, this`cachedChunksCount, this`cache, this`realSize, this`regions, this`size
      modifies this`mem, this`freeSlot, this`free, this`huge, this`hugeList
      ensures Inv() && Counts() && UserBlocks(live, huge) == UserBlocks(old(live), old(huge)) - {ptr}
      ensures SameBlocks(old(mem), mem, UserBlocks(live, huge)) && LiveAs(old(live), ptr, Huge(bytes)) && bytes > 0
      ensures loose == old(loose)[ptr := bytes] && size == old(size) - NODE_SIZE && Beyond() == old(Beyond())
      ensures Total(live) == Total(old(live)) - bytes - NODE_SIZE && HugeTotal(huge) == HugeTotal(old(huge)) - bytes
      ensures realSize <= old(realSize)
    {
      hide *;
      EntriesOk();
      HugeIsPtr(huge, live, ptr);
      var list, prev;
      ghost var k;
      list, prev, k := FindHuge(ptr);
      HugeFreed(live, huge, k);
      SizeInNode(k);
      bytes := Rd(mem, list + 8);
      UnlinkHuge(list, prev, k);
      ghost var mem1 := mem;
      SmallNode(live, list);
      FreeInChunk(list);
      FreedSame(old(mem), mem1, mem, old(live), live, old(huge), huge, ptr);
    }

    lemma SizeInNode(k: int)
      requires Inv() && 0 <= k < |huge|
      ensures Rd(mem, huge[k].node + 8) == huge[k].size && huge[k].node != 0
    {
      hide *;
      InvParts();
      CoreParts({});
      HugeAt(mem, hugeList, huge, k);
    }

    /** Frees a huge block: its list entry goes, then its region. */
    method FreeHuge(ptr: int)
      requires Valid() && LiveHuge(live, ptr)
      modifies this`tables, this`owner, this`live, this`links, this`ring, this`loose, this`chunksCount
      modifies this`cachedChunks, this`cachedChunksCount, this`cache, this`realSize, this`regions, this`size
      modifies this`mem, this`freeSlot, this`free, this`huge, this`hugeList
      ensures Valid() && UserBlocks(live, huge) == UserBlocks(old(live), old(huge)) - {ptr} && realSize <= old(realSize)
      ensures SameBlocks(old(mem), mem, UserBlocks(live, huge)) && ptr !in regions
    {
      hide *;
      ValidParts();
      NodeBin();
      var bytes := DelHuge(ptr);
      LooseAgain(old(loose), ptr, bytes);
      ReleaseLoose(ptr);
      UncountHuge(bytes);
      ValidIs();
    }

    /** Frees a block, whatever its kind. Freeing 0 does nothing. */
    method FreeHeap(p: int)
      requires Valid() && (p != 0 ==> p in UserBlocks(live, huge))
      requires p != 0 && live[p].Large? ==> MainInUse(UserBlocks(live, huge) - {p}, mainChunk)
      modifies this`tables, this`owner, this`live, this`links, this`ring, this`loose, this`chunksCount
      modifies this`cachedChunks, this`cachedChunksCount, this`cache, this`realSize, this`regions, this`size
      modifies this`mem, this`freeSlot, this`free, this`huge, this`hugeList
      ensures Valid() && UserBlocks(live, huge) == UserBlocks(old(live), old(huge)) - {p} && realSize <= old(realSize)
      ensures SameBlocks(old(mem), mem, UserBlocks(live, huge))
      ensures p != 0 && old(live)[p].Small? ==> |old(free)| == BINS && 0 <= old(live)[p].bin < BINS
      ensures p != 0 && old(live)[p].Small? ==> free == old(free)[old(live)[p].bin := [p] + old(free)[old(live)[p].bin]]
    {
      hide *;
      UserLess(huge, live);
      ValidParts();
      Dispatch(p);
      if p % CHUNK_SIZE == 0 {
        if p != 0 {
          FreeHuge(p);
        } else {
          NullFree();
        }
      } else {
        FreeUser(p);
      }
    }

    /** The place in the chunk tells huge blocks from the others. */
    lemma Dispatch(p: int)
      requires Inv()
      ensures p in live ==> p != 0 && (live[p].Huge? <==> p % CHUNK_SIZE == 0) && (live[p].Huge? <==> LiveHuge(live, p))
      ensures CHUNK_SIZE > 0 && 0 % CHUNK_SIZE == 0
    {
      hide *;
      InvParts();
      CoreParts({});
      ChunkSizePositive();
      KindByPlace(tables, owner, free, live, p);
    }

    lemma NullFree()
      ensures UserBlocks(live, huge) - {0} == UserBlocks(live, huge) || 0 in UserBlocks(live, huge)
      ensures SameBlocks(mem, mem, UserBlocks(live, huge))
    {
      hide IsNode;
    }

    /** A block of the user in a chunk is freed. */
    method FreeUser(p: int)
      requires Valid() && p in UserBlocks(live, huge) && p in live && !live[p].Huge?
      requires live[p].Large? ==> MainInUse(UserBlocks(live, huge) - {p}, mainChunk)
      modifies this`tables, this`owner, this`live, this`links, this`ring, this`loose, this`chunksCount
      modifies this`cachedChunks, this`cachedChunksCount, this`cache, this`realSize, this`regions, this`size
      modifies this`mem, this`freeSlot, this`free
      ensures Valid() && UserBlocks(live, huge) == UserBlocks(old(live), old(huge)) - {p} && realSize <= old(realSize)
      ensures live == old(live) - {p} && SameBlocks(old(mem), mem, UserBlocks(live, huge))
      ensures old(live)[p].Small? ==> |old(free)| == BINS && 0 <= old(live)[p].bin < BINS
      ensures old(live)[p].Small? ==> free == old(free)[old(live)[p].bin := [p] + old(free)[old(live)[p].bin]]
    {
      hide *;
      ValidParts();
      EntriesOk();
      UserLess(huge, live);
      NotNode(huge, live, p);
      TotalDrop(live, p);
      LiveSizePositive(p);
      UserDrop(huge, live, p);
      MainOfUsers(live - {p}, huge, mainChunk);
      FreeInChunk(p);
      UserSameAll(old(mem), mem, huge, live);
      ValidIs();
    }

    lemma LiveSizePositive(p: int)
      requires Inv() && p in live && !live[p].Huge?
      ensures BlockSize(live[p]) > 0
    {
      hide *;
      InvParts();
      CoreParts({});
      LiveOccupies(tables, owner, free, live, {}, p);
      Extent(tables, owner, p, BlockSize(live[p]));
    }

    // ---- allocating ----

    /** Nothing was ever handed out of the main chunk. */
    ghost predicate Fresh()
      reads this`tables, this`mainChunk, this`free
    {
      MainEmpty() && |free| == BINS && forall bin :: 0 <= bin < BINS ==> free[bin] == []
    }

    /** A request may be made: the collector cannot empty the main chunk, or is not called. */
    ghost predicate Ready(bytes: int)
      reads this`tables, this`mainChunk, this`free, this`live, this`huge
    {
      MainInUse(UserBlocks(live, huge), mainChunk) || (Fresh() && bytes <= MAX_LARGE_SIZE)
    }

    /** A slot for the request is on its free list. */
    ghost predicate Listed(bytes: int)
      reads this`free
    {
      0 <= bytes <= MAX_SMALL_SIZE && |free| == BINS && 0 <= SizeToBin(bytes) < BINS && free[SizeToBin(bytes)] != []
    }

    lemma ListedParts(bytes: int)
      ensures Listed(bytes) <==>
              0 <= bytes <= MAX_SMALL_SIZE && |free| == BINS && 0 <= SizeToBin(bytes) < BINS && free[SizeToBin(bytes)] != []
    {
      hide SizeToBin;
    }

    lemma ReadyParts(bytes: int)
      requires Ready(bytes)
      ensures MainInUse(live, mainChunk) || MainEmpty()
      ensures MainInUse(live, mainChunk) || (|free| == BINS && forall bin :: 0 <= bin < BINS ==> free[bin] == [])
      ensures MainInUse(live, mainChunk) || bytes <= MAX_LARGE_SIZE
      ensures MainInUse(UserBlocks(live, huge), mainChunk) ==> MainInUse(live, mainChunk)
      ensures MainInUse(UserBlocks(live, huge), mainChunk) || (MainEmpty() && bytes <= MAX_LARGE_SIZE)
      ensures MainInUse(UserBlocks(live, huge), mainChunk) || (|free| == BINS && forall bin :: 0 <= bin < BINS ==> free[bin] == [])
    {
      hide MainInUse, MainEmpty, IsNode;
      MainMore(UserBlocks(live, huge), live, mainChunk);
    }

    lemma FreshParts()
      ensures Fresh() ==> MainEmpty() && |free| == BINS && forall bin :: 0 <= bin < BINS ==> free[bin] == []
    {
      hide MainEmpty;
    }

    /** After a block was handed out, the books and the main chunk. */
    lemma Booked(live0: Live, huge0: seq<HugeEntry>, p: int, b: Block)
      requires HugeLedger(huge0, live0) && p !in live0 && live == live0[p := b] && huge == huge0
      ensures Total(live) == Total(live0) + BlockSize(b)
      ensures UserBlocks(live, huge) == UserBlocks(live0, huge0)[p := b]
      ensures MainInUse(UserBlocks(live0, huge0), mainChunk) || (!b.Huge? && Base(p) == mainChunk)
              ==> MainInUse(UserBlocks(live, huge), mainChunk)
    {
      hide *;
      TotalAdd(live0, p, b);
      UserAdd(huge0, live0, p, b);
      MainMore(UserBlocks(live0, huge0), UserBlocks(live, huge), mainChunk);
      MainNow(UserBlocks(live, huge), p, mainChunk);
    }

    /** A slot for a small request. */
    method AllocSmallHeap(bytes: int) returns (p: int)
      requires Valid() && 0 <= bytes <= MAX_SMALL_SIZE && (Ready(bytes) || Listed(bytes))
      modifies this`links, this`ring, this`owner, this`loose, this`chunksCount, this`tables, this`live, this`refusals
      modifies this`cachedChunks, this`cachedChunksCount, this`cache, this`realSize, this`regions
      modifies this`mem, this`freeSlot, this`free, this`realPeak, this`peakChunksCount, this`size, this`peak
      ensures Inv() && Counts() && SameBlocks(old(mem), mem, old(live))
      ensures realSize <= old(realSize) || (p != 0 && (overflow || realSize <= limit))
      ensures p == 0 ==> live == old(live) && old(cachedChunks) == 0 && NoneFit(old(tables), old(ring), PagesNeeded(bytes))
      ensures refusals >= old(refusals) && (p == 0 ==> Denied(old(refusals), CHUNK_SIZE))
      ensures realSize > old(realSize) ==> old(cachedChunks) == 0 && NoneFit(old(tables), old(ring), PagesNeeded(bytes))
      ensures old(Fresh()) ==> p != 0 && realSize <= old(realSize)
      ensures p != 0 ==> PeaksUp(old(peak), old(realPeak))
      ensures p != 0 ==> Valid() && p !in old(live) && Grown(old(live), live)
      ensures p != 0 && old(Ready(bytes)) ==> MainInUse(UserBlocks(live, huge), mainChunk)
      ensures p != 0 ==> UserBlocks(live, huge) == UserBlocks(old(live), old(huge))[p := BlockFor(bytes)]
      ensures |old(free)| == BINS && 0 <= SizeToBin(bytes) < BINS
      ensures old(free)[SizeToBin(bytes)] != [] ==> p == old(free)[SizeToBin(bytes)][0] && p != 0
    {
      hide *;
      ValidParts();
      EntriesOk();
      if Ready(bytes) {
        ReadyParts(bytes);
      }
      ListedParts(bytes);
      FreshParts();
      BlockForSmall(bytes);
      PagesNeededAre(bytes);
      ChunkSizePositive();
      BinPagesFit(SizeToBin(bytes));
      EmptyFitsInv(PagesNeeded(bytes));
      var bin := SmallSizeToBin(bytes);
      p := AllocSmall(bin);
      if p != 0 {
        PeakMovedSays(old(realPeak), old(realSize));
        PeaksUpIs(old(peak), old(realPeak), old(realSize));
        Booked(old(live), old(huge), p, Small(bin));
        GrownByOne(old(live), p, Small(bin));
        ValidIs();
      }
    }

    /** A run of pages for a large request. */
    method AllocLargeHeap(bytes: int) returns (p: int)
      requires Valid() && MAX_SMALL_SIZE < bytes <= MAX_LARGE_SIZE && Ready(bytes)
      modifies this`links, this`ring, this`owner, this`loose, this`chunksCount, this`tables, this`live, this`refusals
      modifies this`cachedChunks, this`cachedChunksCount, this`cache, this`realSize, this`regions
      modifies this`mem, this`freeSlot, this`free, this`realPeak, this`peakChunksCount, this`size, this`peak
      ensures Inv() && Counts() && SameBlocks(old(mem), mem, old(live))
      ensures realSize <= old(realSize) || (p != 0 && (overflow || realSize <= limit))
      ensures p == 0 ==> live == old(live) && old(cachedChunks) == 0 && NoneFit(old(tables), old(ring), PagesNeeded(bytes))
      ensures refusals >= old(refusals) && (p == 0 ==> Denied(old(refusals), CHUNK_SIZE))
      ensures realSize > old(realSize) ==> old(cachedChunks) == 0 && NoneFit(old(tables), old(ring), PagesNeeded(bytes))
      ensures old(Fresh()) ==> p != 0 && realSize <= old(realSize)
      ensures p != 0 ==> PeaksUp(old(peak), old(realPeak))
      ensures p != 0 ==> Valid() && p !in old(live) && MainInUse(UserBlocks(live, huge), mainChunk) && Grown(old(live), live)
      ensures p != 0 ==> UserBlocks(live, huge) == UserBlocks(old(live), old(huge))[p := BlockFor(bytes)]
    {
      hide *;
      ValidParts();
      EntriesOk();
      ReadyParts(bytes);
      FreshParts();
      BlockForLarge(bytes);
      PagesNeededAre(bytes);
      ChunkSizePositive();
      EmptyFitsInv(PagesNeeded(bytes));
      ghost var found, k;
      p, found, k := AllocLarge(PageCount(bytes));
      if p != 0 {
        PeakMovedSays(old(realPeak), old(realSize));
        PeaksUpIs(old(peak), old(realPeak), old(realSize));
        Booked(old(live), old(huge), p, Large(PageCount(bytes)));
        GrownByOne(old(live), p, Large(PageCount(bytes)));
        ValidIs();
      }
    }

    /** Allocates a block of at least the given size; 0 if memory is exhausted. */
    method AllocHeap(bytes: int) returns (p: int, ghost asked: Asked)
      requires Valid() && 0 <= bytes && (Ready(bytes) || Listed(bytes))
      modifies this`links, this`ring, this`owner, this`loose, this`chunksCount, this`tables, this`live, this`refusals
      modifies this`cachedChunks, this`cachedChunksCount, this`cache, this`realSize, this`regions
      modifies this`mem, this`freeSlot, this`free, this`realPeak, this`peakChunksCount, this`size, this`peak
      modifies this`hugeList, this`huge
      ensures Inv() && Counts() && SameBlocks(old(mem), mem, old(live))
      ensures WithinLimit(old(realSize), NeedsChunk(asked)) && AskedFrom(asked, old(Now()))
      ensures asked.Asked? && !asked.atOnce ==> Pressed(old(realSize), old(refusals), Need(bytes))
      ensures bytes <= MAX_LARGE_SIZE ==> asked == NotAsked && (old(Fresh()) ==> p != 0 && realSize <= old(realSize))
      ensures bytes <= MAX_LARGE_SIZE && realSize > old(realSize) ==> old(cachedChunks) == 0 && NoneFit(old(tables), old(ring), PagesNeeded(bytes))
      ensures refusals >= old(refusals) && (p == 0 ==> Denied(old(refusals), Need(bytes)))
      ensures p == 0 ==> realSize <= old(realSize) && live == old(live) && huge == old(huge)
      ensures p == 0 && bytes <= MAX_LARGE_SIZE ==> old(cachedChunks) == 0 && NoneFit(old(tables), old(ring), PagesNeeded(bytes))
      ensures p != 0 ==> PeaksUp(old(peak), old(realPeak))
      ensures p != 0 ==> Valid() && p !in old(live) && Grown(old(live), live)
      ensures p != 0 && old(Ready(bytes)) ==> MainInUse(UserBlocks(live, huge), mainChunk)
      ensures p != 0 ==> UserBlocks(live, huge) == UserBlocks(old(live), old(huge))[p := BlockFor(bytes)]
      ensures bytes <= MAX_SMALL_SIZE ==> |old(free)| == BINS && 0 <= SizeToBin(bytes) < BINS
      ensures bytes <= MAX_SMALL_SIZE && old(free)[SizeToBin(bytes)] != [] ==> p == old(free)[SizeToBin(bytes)][0] && p != 0
    {
      hide *;
      ListedParts(bytes);
      asked := NotAsked;
      NotAskedFrom(Now());
      NeedIs(bytes);
      if bytes <= MAX_SMALL_SIZE {
        SmallIsNotLarge(bytes);
        p := AllocSmallHeap(bytes);
        WithinLimitIs(old(realSize), NeedsChunk(asked));
      } else if bytes <= MAX_LARGE_SIZE {
        p := AllocLargeHeap(bytes);
        WithinLimitIs(old(realSize), NeedsChunk(asked));
      } else {
        ReadyParts(bytes);
        BlockForHuge(bytes);
        UserLess(huge, live);
        p, asked := AllocHuge(bytes);
        UsersMore(UserBlocks(old(live), old(huge)), p, BlockFor(bytes), mainChunk);
      }
    }

    /** The size of a block, from its address alone. */
    method SizeOf(p: int) returns (bytes: int)
      requires Inv() && p in live
      ensures bytes == BlockSize(live[p])
    {
      hide *;
      Dispatch(p);
      if p % CHUNK_SIZE == 0 {
        bytes := HugeBlockSize(p);
        HugeSizeIs(p, bytes);
      } else {
        var info := InfoOf(p);
        KindIs(info, live, p);
        match info {
          case SRun(bin, _) => bytes := BinSize(bin);
          case NRun(bin, _) => bytes := BinSize(bin);
          case LRun(n) => bytes := n * PAGE_SIZE;
          case FRun => assert false;
        }
      }
    }

    lemma HugeSizeIs(p: int, bytes: int)
      requires Inv() && LiveHuge(live, p) && (LiveAs(live, p, Huge(bytes)) || (bytes == 0 && !IsPtr(huge, p)))
      ensures bytes == BlockSize(live[p])
    {
      hide *;
      EntriesOk();
      HugeIsPtr(huge, live, p);
      HugeAmount(live, p, bytes);
    }

    /** The user writes a word of a block. */
    method Write(p: int, w: int, v: int)
      requires Valid() && p in UserBlocks(live, huge) && InBlock(live, p, w)
      modifies this`mem
      ensures Valid() && mem == old(mem)[w := v] && SameBlocks(old(mem), mem, live - {p})
    {
      hide *;
      ValidParts();
      InvParts();
      CoreParts({});
      WordApart(tables, owner, free, live, regions, ring, cache, huge, loose, p, w);
      WriteInside(mem, freeSlot, free, live, p, w, v);
      UserNotNode(live, huge, p);
      HugeKeptUser(mem, mem[w := v], hugeList, huge, live, p);
      mem := mem[w := v];
      CoreIs({});
      InvIs();
      ValidIs();
    }

    /** Freeing a small block and asking for its size again returns the same block. */
    method FreeThenAlloc(p: int, bytes: int) returns (q: int)
      requires Valid() && p in UserBlocks(live, huge) && p in live && 0 <= bytes <= MAX_SMALL_SIZE
      requires live[p] == BlockFor(bytes)
      modifies this`links, this`ring, this`owner, this`loose, this`chunksCount, this`tables, this`live, this`refusals
      modifies this`cachedChunks, this`cachedChunksCount, this`cache, this`realSize, this`regions
      modifies this`mem, this`freeSlot, this`free, this`realPeak, this`peakChunksCount, this`size, this`peak
      modifies this`hugeList, this`huge
      ensures q == p && Valid() && UserBlocks(live, huge) == old(UserBlocks(live, huge))
    {
      hide *;
      UserLess(huge, live);
      BlockForSmall(bytes);
      ValidParts();
      Dispatch(p);
      FreeUser(p);
      ListedParts(bytes);
      q := AllocSmallHeap(bytes);
      UserAgain(UserBlocks(old(live), old(huge)), p, BlockFor(bytes));
    }

    lemma ReadyIs(bytes: int)
      requires MainInUse(UserBlocks(live, huge), mainChunk)
      ensures Ready(bytes)
    {
      hide MainInUse, UserBlocks;
    }

    // ---- reallocating ----

    /** A large block keeps its chunk from being empty. */
    lemma ResizedNotEmpty(chunk: int, T: Tables, p: int, n: int)
      requires Core({}) && LiveAs(live, p, Large(n)) && Base(p) == chunk && chunk in owner && chunk in tables
      requires Occupied(T, ring, mainChunk) && tables == T[chunk := tables[chunk]]
      ensures Occupied(tables, ring, mainChunk)
    {
      hide *;
      CoreParts({});
      BlockNotEmpty(tables, owner, free, live, {}, p, Large(n));
      OccupiedIs(T, ring, mainChunk, chunk);
      OccupiedStep(T, ring, mainChunk, chunk, tables);
    }

    /** Frees the tail pages of a large block. */
    method ShrinkRun(p: int, newN: int, rest: int)
      requires Inv() && LiveAs(live, p, Large(newN + rest)) && newN > 0 && rest > 0
      modifies this`tables, this`owner, this`live
      ensures Inv() && live == old(live)[p := Large(newN)]
    {
      hide *;
      InvParts();
      CoreParts({});
      LiveLarge(live, p, newN + rest);
      ShrinkAll(tables, owner, free, live, p, newN, rest);
      var chunk, page := Base(p), PageNum(p);
      OwnerInRing(owner, ring, chunk);
      SparesStep(tables, links, cache, regions, ring, huge, loose, chunk, Shrink(tables[chunk], page, newN, rest));
      OwnersSame(owner, owner[chunk := Assign(owner[chunk], page + newN, rest, -1)], ring, chunk);
      HugeLedgerSwap(huge, live, p, Large(newN));
      tables := tables[chunk := Shrink(tables[chunk], page, newN, rest)];
      owner := owner[chunk := Assign(owner[chunk], page + newN, rest, -1)];
      live := live[p := Large(newN)];
      CoreIs({});
      LiveNow(old(live), p, Large(newN));
      ResizedNotEmpty(chunk, old(tables), p, newN);
      InvIs();
    }

    /** Takes the pages behind a large block if they are free. */
    method GrowRun(p: int, oldN: int, newN: int) returns (ok: bool)
      requires Inv() && LiveAs(live, p, Large(oldN)) && oldN < newN
      modifies this`tables, this`owner, this`live
      ensures Inv() && live == if ok then old(live)[p := Large(newN)] else old(live)
      ensures !ok ==> Now() == old(Now())
      ensures ok <==> CanGrow(old(tables), p, oldN, newN)
    {
      hide *;
      InvParts();
      CoreParts({});
      LiveLarge(live, p, oldN);
      LargeAt(tables, owner, free, live, p, oldN);
      var chunk, page := Base(p), PageNum(p);
      FreeBehindIs(tables[chunk].bits, page, oldN, newN);
      CanGrowIs(tables, p, oldN, newN);
      if page + newN <= PAGES && FreeRange(tables[chunk].bits, page + oldN, newN - oldN) {
        GrowAll(tables, owner, free, live, p, oldN, newN);
        OwnerInRing(owner, ring, chunk);
        SparesStep(tables, links, cache, regions, ring, huge, loose, chunk, Grow(tables[chunk], page, oldN, newN));
        OwnersSame(owner, owner[chunk := Assign(owner[chunk], page + oldN, newN - oldN, page)], ring, chunk);
        HugeLedgerSwap(huge, live, p, Large(newN));
        tables := tables[chunk := Grow(tables[chunk], page, oldN, newN)];
        owner := owner[chunk := Assign(owner[chunk], page + oldN, newN - oldN, page)];
        live := live[p := Large(newN)];
        CoreIs({});
        LiveNow(old(live), p, Large(newN));
        ResizedNotEmpty(chunk, old(tables), p, newN);
        InvIs();
        return true;
      }
      return false;
    }

    /** A large block to another large size, in place; false if that cannot be done. */
    method ResizeLarge(p: int, n: int, bytes: int) returns (ok: bool)
      requires Valid() && p in UserBlocks(live, huge) && LiveAs(live, p, Large(n)) && MAX_SMALL_SIZE < bytes <= MAX_LARGE_SIZE
      modifies this`tables, this`owner, this`live, this`size, this`peak
      ensures Valid() && (!ok ==> live == old(live) && Now() == old(Now()))
      ensures ok ==> live == old(live)[p := BlockFor(bytes)] && UserBlocks(live, huge) == old(UserBlocks(live, huge))[p := BlockFor(bytes)]
      ensures if ok then PeaksUp(old(peak), old(realPeak)) else peak == old(peak)
      ensures PageCount(bytes) <= n ==> ok
      ensures PageCount(bytes) > n ==> (ok <==> CanGrow(old(tables), p, n, PageCount(bytes)))
    {
      hide *;
      ValidParts();
      BlockForLarge(bytes);
      LargeSizes(live, p, n);
      var newN := PageCount(bytes);
      TotalChange(live, p, Large(newN));
      UserChange(huge, live, p, Large(newN));
      ok := true;
      if newN == n {
        ChangeNothing(live, huge, p, n);
      } else if newN < n {
        SplitSum(n, newN, live, p);
        size := size - (n - newN) * PAGE_SIZE;
        ShrinkRun(p, newN, n - newN);
      } else {
        ok := GrowRun(p, n, newN);
        if ok {
          MorePages(n, newN);
          AddSize((newN - n) * PAGE_SIZE);
        }
      }
      if ok {
        PeaksUpFrom(old(peak), old(realPeak));
      }
      ValidIs();
    }

    /** The region of a huge block is cut, or extended into unmapped space; the system may refuse. */
    method ResizeRegion(p: int, bytes: int) returns (ok: bool)
      requires Valid() && p in UserBlocks(live, huge) && LiveHuge(live, p) && bytes > 0
      modifies this`mem, this`huge, this`live, this`regions, this`realSize, this`realPeak, this`size, this`peak, this`unresized
      ensures Valid() && (!ok ==> live == old(live) && huge == old(huge) && mem == old(mem) && realSize == old(realSize))
      ensures bytes == BlockSize(old(live)[p]) ==> ok
      ensures unresized == old(unresized) + if ok then 0 else 1
      ensures ok ==> PeaksUp(old(peak), old(realPeak))
      ensures ok ==> live == old(live)[p := Huge(bytes)] && SameBlocks(old(mem), mem, old(UserBlocks(live, huge)))
      ensures !ok ==> peak == old(peak) && realPeak == old(realPeak)
      ensures ok ==> UserBlocks(live, huge) == old(UserBlocks(live, huge))[p := Huge(bytes)]
      ensures ok ==> realSize == old(realSize) + bytes - BlockSize(old(live)[p])
      ensures ok && bytes > BlockSize(old(live)[p]) ==> ClearOf(old(regions), p + BlockSize(old(live)[p]), bytes - BlockSize(old(live)[p]))
    {
      hide *;
      ok := *;
      ValidParts();
      EntriesOk();
      HugeIsPtr(huge, live, p);
      HugeRegion(p);
      var oldSize := regions[p];
      HugeSizes(live, p, oldSize);
      if bytes == oldSize {
        ok := true;
      } else if !ok || (bytes > oldSize && !ClearOf(regions, p + oldSize, bytes - oldSize)) {
        unresized := unresized + 1;
        ValidIs();
        return false;
      }
      TotalChange(live, p, Huge(bytes));
      ResizeHuge(p, bytes);
      UserHugeChange(old(huge), huge, old(live), p, Huge(bytes));
      if bytes < oldSize {
        UncountHuge(oldSize - bytes);
      } else {
        CountHuge(bytes - oldSize);
      }
      PeaksUpFrom(old(peak), old(realPeak));
      ValidIs();
    }

    lemma HugeRegion(p: int)
      requires Inv() && LiveHuge(live, p)
      ensures p in regions && LiveAs(live, p, Huge(regions[p]))
    {
      hide *;
      InvParts();
      CoreParts({});
      HugeIsLive(live, p);
      var e := HugeEntryOf(huge, live, p);
      var k := EntryIndex(huge, e);
      RegionOfEntry(regions, ring, cache, huge, loose, k);
      EntryFacts(huge, live, k);
    }

    lemma HugePositive(p: int)
      requires Inv() && LiveHuge(live, p)
      ensures p in live && BlockSize(live[p]) > 0
    {
      hide *;
      InvParts();
      CoreParts({});
      HugeIsLive(live, p);
      var e := HugeEntryOf(huge, live, p);
      var k := EntryIndex(huge, e);
      EntryFacts(huge, live, k);
      HugeSizes(live, p, e.size);
    }

    /** A huge block to another huge size, in place if possible; failed means the limit forbids it. */
    method ReallocHuge(p: int, bytes: int) returns (ok: bool, failed: bool, ghost collects: bool)
      requires Valid() && p in UserBlocks(live, huge) && LiveHuge(live, p) && bytes > MAX_LARGE_SIZE && MainInUse(live, mainChunk)
      modifies this`links, this`ring, this`owner, this`loose, this`chunksCount, this`tables, this`live
      modifies this`cachedChunks, this`cachedChunksCount, this`cache, this`realSize, this`regions
      modifies this`mem, this`freeSlot, this`free, this`realPeak, this`size, this`peak, this`huge, this`unresized
      ensures Valid() && MainInUse(live, mainChunk) && !(ok && failed)
      ensures SameBlocks(old(mem), mem, old(UserBlocks(live, huge)))
      ensures !ok ==> peak == old(peak) && realPeak == old(realPeak)
      ensures !ok ==> live == old(live) && huge == old(huge) && realSize <= old(realSize)
      ensures ok ==> PeaksUp(old(peak), old(realPeak))
      ensures ok ==> live == old(live)[p := BlockFor(bytes)]
      ensures ok ==> UserBlocks(live, huge) == old(UserBlocks(live, huge))[p := BlockFor(bytes)]
      ensures BlockFor(bytes) == old(live)[p] ==> ok
      ensures realSize <= old(realSize) || overflow || realSize <= limit
      ensures Leaves(collects, old(Now()), Now())
      ensures collects ==> old(realSize) + WholePages(bytes) > limit
      ensures failed ==> !overflow && p in old(live) && realSize + WholePages(bytes) - BlockSize(old(live)[p]) > limit
      ensures failed ==> Settled()
      ensures failed ==> old(live)[p].Huge? && BlockSize(old(live)[p]) > 0
      ensures if ok || failed then unresized == old(unresized) else unresized > old(unresized)
    {
      hide *;
      ValidParts();
      HugeFor(bytes);
      HugeIsLive(live, p);
      var newSize := WholePages(bytes);
      var oldSize := SizeOf(p);
      HugePositive(p);
      ok, failed, collects := false, false, false;
      LeavesSame(Now());
      SameBlocksRefl(mem, UserBlocks(live, huge));
      if newSize > oldSize {
        var room: bool;
        room, collects := RoomFor(newSize - oldSize);
        UserSameAll(old(mem), mem, huge, live);
        ValidIs();
        if !room {
          failed := true;
          return;
        }
      }
      ghost var mem1 := mem;
      ok := ResizeRegion(p, newSize);
      if ok {
        SameBlocksTrans(old(mem), mem1, mem, old(UserBlocks(live, huge)));
        MainKept(old(live), p, Huge(newSize), mainChunk);
      }
    }

    /** memcpy between two blocks of the user. */
    method CopyBlock(r: int, p: int, n: int)
      requires Valid() && p in UserBlocks(live, huge) && r in UserBlocks(live, huge) && r != p && r in live && p in live
      requires n <= BlockSize(live[r]) && n <= BlockSize(live[p])
      modifies this`mem
      ensures Valid() && Copied(old(mem), mem, p, r, n) && SameBlocks(old(mem), mem, live - {r})
    {
      hide *;
      SameBlocksRefl(mem, live - {r});
      CopiedNone(mem, mem, p, r);
      CopiedShort(mem, mem, p, r, n);
      var i := 0;
      while i < n
        invariant 0 <= i && (i <= n || i == 0) && Valid()
        invariant Copied(old(mem), mem, p, r, if i <= n then i else n) && SameBlocks(old(mem), mem, live - {r})
        decreases n - i
      {
        ghost var mem1 := mem;
        SourceByte(old(mem), mem, live, p, r, i);
        CopiedNext(old(mem), mem, p, r, i, Rd(mem, p + i));
        Write(r, r + i, Rd(mem, p + i));
        SameBlocksTrans(old(mem), mem1, mem, live - {r});
        i := i + 1;
      }
    }

    /** Allocates anew, copies and frees. */
    method MoveBlock(p: int, bytes: int, copySize: int, oldSize: int) returns (r: int, ghost asked: Asked)
      requires Valid() && p in UserBlocks(live, huge) && p in live && MainInUse(UserBlocks(live, huge), mainChunk)
      requires live[p].Large? ==> MainInUse(UserBlocks(live, huge) - {p}, mainChunk)
      requires oldSize == BlockSize(live[p]) && 0 <= bytes && Min(oldSize, copySize) <= BlockSize(BlockFor(bytes))
      modifies this`links, this`ring, this`owner, this`loose, this`chunksCount, this`tables, this`live, this`refusals
      modifies this`cachedChunks, this`cachedChunksCount, this`cache, this`realSize, this`regions
      modifies this`mem, this`freeSlot, this`free, this`realPeak, this`peakChunksCount, this`size, this`peak
      modifies this`hugeList, this`huge
      ensures r == 0 ==> Inv() && Counts() && realSize <= old(realSize) && live == old(live) && huge == old(huge) && SameBlocks(old(mem), mem, old(live))
      ensures WithinLimit(old(realSize), NeedsChunk(asked)) && AskedFrom(asked, old(Now()))
      ensures asked.Asked? && !asked.atOnce ==> Pressed(old(realSize), old(refusals), Need(bytes))
      ensures bytes <= MAX_LARGE_SIZE ==> asked == NotAsked
      ensures refusals >= old(refusals) && (r == 0 ==> Denied(old(refusals), Need(bytes)))
      ensures r != 0 ==> PeaksUp(old(peak), old(realPeak))
      ensures r != 0 ==> Valid() && r !in old(live)
      ensures r != 0 ==> UserBlocks(live, huge) == (old(UserBlocks(live, huge)) - {p})[r := BlockFor(bytes)]
      ensures r != 0 ==> SameBlocks(old(mem), mem, old(UserBlocks(live, huge)) - {p})
      ensures r != 0 ==> Copied(old(mem), mem, p, r, Min(oldSize, copySize))
    {
      hide *;
      var origPeak, origRealPeak := peak, realPeak;
      ReadyIs(bytes);
      UserLess(huge, live);
      r, asked := AllocHeap(bytes);
      WithinLimitSays(old(realSize), NeedsChunk(asked));
      if r != 0 {
        BothThere(old(live), old(huge), live, huge, p, r, BlockFor(bytes));
        if old(live)[p].Large? {
          UsersKeepMain(UserBlocks(old(live), old(huge)), p, r, BlockFor(bytes), mainChunk);
        }
        TakeOver(p, r, Min(oldSize, copySize), BlockFor(bytes), old(mem), old(live), old(huge));
        SetPeaks(origPeak, origRealPeak);
        PeaksUpFrom(origPeak, origRealPeak);
        WithinLimitIs(old(realSize), NeedsChunk(asked));
      }
    }

    /** The new block of a move gets the bytes of the old one, which is freed. */
    method TakeOver(p: int, r: int, n: int, ghost b: Block, ghost mem0: Words, ghost live0: Live, ghost huge0: seq<HugeEntry>)
      requires Valid() && p in UserBlocks(live, huge) && r in UserBlocks(live, huge) && p != r && p in live && r in live
      requires p in UserBlocks(live0, huge0) && r !in live0 && p in live0 && live[p] == live0[p] && live[r] == b
      requires n <= BlockSize(live0[p]) && n <= BlockSize(b)
      requires live[p].Large? ==> MainInUse(UserBlocks(live, huge) - {p}, mainChunk)
      requires SameBlocks(mem0, mem, live0) && Grown(live0, live) && UserBlocks(live, huge) == UserBlocks(live0, huge0)[r := b]
      modifies this`tables, this`owner, this`live, this`links, this`ring, this`loose, this`chunksCount
      modifies this`cachedChunks, this`cachedChunksCount, this`cache, this`realSize, this`regions, this`size
      modifies this`mem, this`freeSlot, this`free, this`huge, this`hugeList
      ensures Valid() && realSize <= old(realSize)
      ensures UserBlocks(live, huge) == (UserBlocks(live0, huge0) - {p})[r := b]
      ensures SameBlocks(mem0, mem, UserBlocks(live0, huge0) - {p}) && Copied(mem0, mem, p, r, n)
    {
      hide *;
      ghost var mem1, live1, huge1 := mem, live, huge;
      CopyBlock(r, p, n);
      ghost var mem2 := mem;
      FreeMoved(p);
      Moved(mem0, mem1, mem2, mem, live0, live1, huge0, huge1, UserBlocks(live, huge), p, r, b, n);
    }

    /** Frees a block that is not null. */
    method FreeMoved(p: int)
      requires Valid() && p in UserBlocks(live, huge) && p in live
      requires live[p].Large? ==> MainInUse(UserBlocks(live, huge) - {p}, mainChunk)
      modifies this`tables, this`owner, this`live, this`links, this`ring, this`loose, this`chunksCount
      modifies this`cachedChunks, this`cachedChunksCount, this`cache, this`realSize, this`regions, this`size
      modifies this`mem, this`freeSlot, this`free, this`huge, this`hugeList
      ensures Valid() && UserBlocks(live, huge) == UserBlocks(old(live), old(huge)) - {p} && realSize <= old(realSize)
      ensures SameBlocks(old(mem), mem, UserBlocks(live, huge))
    {
      hide *;
      FreeHeap(p);
    }

    /** The peaks after a move are those before it, or what is in use now. */
    method SetPeaks(origPeak: int, origRealPeak: int)
      requires Valid()
      modifies this`peak, this`realPeak
      ensures Valid() && peak == Max(origPeak, size) && realPeak == Max(origRealPeak, realSize)
    {
      hide Inv, Counts, Total, HugeTotal;
      peak := Max(origPeak, size);
      realPeak := Max(origRealPeak, realSize);
    }

    /** Moves a block that could not stay; the try may have run a collection, s0 and size0 are what it found. */
    method MoveAfterTry(p: int, bytes: int, copySize: int, ghost collects: bool, ghost s0: Stock, ghost size0: int)
      returns (r: int, ghost asked: Asked)
      requires Valid() && p in UserBlocks(live, huge) && p in live && MainInUse(UserBlocks(live, huge), mainChunk)
      requires live[p].Large? ==> MainInUse(UserBlocks(live, huge) - {p}, mainChunk)
      requires 0 <= bytes && Min(BlockSize(live[p]), copySize) <= BlockSize(BlockFor(bytes))
      requires Leaves(collects, s0, Now()) && realSize <= size0 && (collects ==> size0 + Need(bytes) > limit)
      modifies this`links, this`ring, this`owner, this`loose, this`chunksCount, this`tables, this`live, this`refusals
      modifies this`cachedChunks, this`cachedChunksCount, this`cache, this`realSize, this`regions
      modifies this`mem, this`freeSlot, this`free, this`realPeak, this`peakChunksCount, this`size, this`peak
      modifies this`hugeList, this`huge
      ensures r == 0 ==> Inv() && Counts() && realSize <= old(realSize) && live == old(live) && huge == old(huge) && SameBlocks(old(mem), mem, old(live))
      ensures WithinLimit(size0, NeedsChunk(asked)) && AskedFrom(asked, s0)
      ensures asked.Asked? && !asked.atOnce ==> Pressed(size0, old(refusals), Need(bytes))
      ensures bytes <= MAX_LARGE_SIZE ==> asked == NotAsked
      ensures refusals >= old(refusals) && (r == 0 ==> Denied(old(refusals), Need(bytes)))
      ensures r != 0 ==> PeaksUp(old(peak), old(realPeak))
      ensures r != 0 ==> Valid() && r !in old(live)
      ensures r != 0 ==> UserBlocks(live, huge) == (old(UserBlocks(live, huge)) - {p})[r := BlockFor(bytes)]
      ensures r != 0 ==> SameBlocks(old(mem), mem, old(UserBlocks(live, huge)) - {p})
      ensures r != 0 ==> Copied(old(mem), mem, p, r, Min(BlockSize(old(live)[p]), copySize))
    {
      hide *;
      ValidParts();
      ghost var stock1, size1, refusals1 := Now(), realSize, refusals;
      var oldSize := SizeOf(p);
      ghost var later;
      r, later := MoveBlock(p, bytes, copySize, oldSize);
      asked := Afterwards(collects, later);
      MovedAsked(collects, later, s0, stock1, size0, size1, refusals1, bytes);
    }

    /**
     Reallocates a block: in place where its kind and the pages or the space behind it allow, else by
     allocating, copying and freeing. The result is 0 if memory is exhausted; the old block stays then.
     */
    method Realloc(p: int, bytes: int, copySize: int) returns (r: int, ghost asked: Asked)
      requires Valid() && 0 <= bytes && 0 <= copySize && (p == 0 ==> Ready(bytes))
      requires p != 0 ==> p in UserBlocks(live, huge) && p in live && MainInUse(UserBlocks(live, huge), mainChunk)
      requires p != 0 && live[p].Large? && live[p] != BlockFor(bytes) && !Shortened(live[p], bytes) ==>
                 MainInUse(UserBlocks(live, huge) - {p}, mainChunk)
      requires p != 0 ==> live[p] == BlockFor(bytes) || Shortened(live[p], bytes)
                          || Min(BlockSize(live[p]), copySize) <= BlockSize(BlockFor(bytes))
      modifies this`links, this`ring, this`owner, this`loose, this`chunksCount, this`tables, this`live, this`refusals
      modifies this`cachedChunks, this`cachedChunksCount, this`cache, this`realSize, this`regions
      modifies this`mem, this`freeSlot, this`free, this`realPeak, this`peakChunksCount, this`size, this`peak
      modifies this`hugeList, this`huge, this`unresized
      ensures r == 0 ==> Inv() && Counts() && realSize <= old(realSize) && UserBlocks(live, huge) == old(UserBlocks(live, huge))
                         && SameBlocks(old(mem), mem, old(UserBlocks(live, huge)))
      ensures WithinLimit(old(realSize), NeedsChunk(asked)) && AskedFrom(asked, old(Now()))
      ensures asked.Asked? && !asked.atOnce ==> Pressed(old(realSize), old(refusals), Need(bytes))
      ensures bytes <= MAX_LARGE_SIZE ==> asked == NotAsked
      ensures refusals >= old(refusals) && (r == 0 ==> Denied(old(refusals), Need(bytes)))
      ensures r == 0 && p != 0 && old(live)[p].Huge? && bytes > MAX_LARGE_SIZE && refusals == old(refusals) && unresized == old(unresized) ==>
                !overflow && realSize + WholePages(bytes) - BlockSize(old(live)[p]) > limit
      ensures r != 0 ==> PeaksUp(old(peak), old(realPeak))
      ensures r != 0 ==> Valid() && (r == p || r !in old(live))
      ensures r != 0 && old(MainInUse(UserBlocks(live, huge) - {p}, mainChunk)) ==> MainInUse(UserBlocks(live, huge), mainChunk)
      ensures r != 0 ==> UserBlocks(live, huge) == (old(UserBlocks(live, huge)) - {p})[r := BlockFor(bytes)]
      ensures r != 0 ==> SameBlocks(old(mem), mem, old(UserBlocks(live, huge)) - {p})
      ensures r != 0 && p != 0 ==> Copied(old(mem), mem, p, r, Min(BlockSize(old(live)[p]), copySize))
      ensures p != 0 && old(live)[p].Large? && MAX_SMALL_SIZE < bytes <= MAX_LARGE_SIZE ==>
                (r == p <==> PageCount(bytes) <= old(live)[p].pages || CanGrow(old(tables), p, old(live)[p].pages, PageCount(bytes)))
      ensures p != 0 && r != 0 && old(live)[p].Huge? && bytes > MAX_LARGE_SIZE && unresized == old(unresized) ==> r == p
      ensures p != 0 && (old(live)[p] == BlockFor(bytes) || Shortened(old(live)[p], bytes)) ==> r == p
    {
      hide *;
      ValidParts();
      Dispatch(p);
      var done, failed;
      ghost var collects;
      if p == 0 {
        r, asked := AllocHeap(bytes);
        NullMoved(old(live), old(huge), old(mem), mem, r, BlockFor(bytes));
        return;
      }
      MainOfUsers(live, huge, mainChunk);
      asked := NotAsked;
      NotAskedFrom(Now());
      done, failed, collects := ReallocInPlace(p, bytes);
      NeedIs(bytes);
      WithinLimitIs(old(realSize), NeedsChunk(asked));
      ValidParts();
      if failed {
        DeniedByLimit(old(refusals), Need(bytes));
        r := 0;
        return;
      }
      InPlaceFacts(old(live), old(huge), old(mem), mem, p, BlockFor(bytes), bytes, copySize);
      if done {
        r := p;
        MainAgain(old(live), old(huge), p, r, BlockFor(bytes));
        return;
      }
      ghost var mem1, oldSize := mem, BlockSize(live[p]);
      r, asked := MoveAfterTry(p, bytes, copySize, collects, old(Now()), old(realSize));
      if r == 0 {
        UserSameAll(mem1, mem, huge, live);
        SameBlocksTrans(old(mem), mem1, mem, UserBlocks(live, huge));
      } else {
        CopiedLater(old(mem), mem1, mem, UserBlocks(old(live), old(huge)), p, r, Min(oldSize, copySize));
        MainAgain(old(live), old(huge), p, r, BlockFor(bytes));
      }
    }

    /** A node asked for after a try in place, seen from before that try. */
    lemma MovedAsked(collects: bool, later: Asked, s: Stock, t: Stock, size0: int, size1: int, refusals0: nat, bytes: int)
      requires Leaves(collects, s, t) && AskedFrom(later, t) && size1 <= size0 && (collects ==> size0 + Need(bytes) > limit)
      requires WithinLimit(size1, NeedsChunk(later))
      requires later.Asked? && !later.atOnce ==> Pressed(size1, refusals0, Need(bytes))
      ensures var asked := Afterwards(collects, later);
              && AskedFrom(asked, s) && WithinLimit(size0, NeedsChunk(asked)) && (later == NotAsked ==> asked == NotAsked)
              && (asked.Asked? && !asked.atOnce ==> Pressed(size0, refusals0, Need(bytes)))
    {
      hide *;
      var asked := Afterwards(collects, later);
      AskedLater(collects, later, s, t);
      WithinLimitFrom(size0, size1, NeedsChunk(later), NeedsChunk(asked));
      if collects {
        PressedIs(size0, refusals0, Need(bytes));
      } else if later.Asked? && !later.atOnce {
        PressedFrom(size0, refusals0, Need(bytes), size1, refusals0, Need(bytes));
      }
    }

    lemma MainAgain(live0: Live, huge0: seq<HugeEntry>, p: int, r: int, b: Block)
      requires UserBlocks(live, huge) == (UserBlocks(live0, huge0) - {p})[r := b] && (r == p || r !in live0)
      ensures MainInUse(UserBlocks(live0, huge0) - {p}, mainChunk) ==> MainInUse(UserBlocks(live, huge), mainChunk)
    {
      hide *;
      UserLess(huge0, live0);
      if MainInUse(UserBlocks(live0, huge0) - {p}, mainChunk) {
        UsersKeptMain(UserBlocks(live0, huge0), p, r, b, mainChunk);
      }
    }

    /** The ways a block can take its new size where it is. */
    method ReallocInPlace(p: int, bytes: int) returns (done: bool, failed: bool, ghost collects: bool)
      requires Valid() && p != 0 && p in UserBlocks(live, huge) && p in live && 0 <= bytes && MainInUse(live, mainChunk)
      modifies this`links, this`ring, this`owner, this`loose, this`chunksCount, this`tables, this`live
      modifies this`cachedChunks, this`cachedChunksCount, this`cache, this`realSize, this`regions
      modifies this`mem, this`freeSlot, this`free, this`realPeak, this`size, this`peak, this`huge, this`unresized
      ensures Valid() && !(done && failed) && SameBlocks(old(mem), mem, old(UserBlocks(live, huge)))
      ensures !done ==> peak == old(peak) && realPeak == old(realPeak)
      ensures !done ==> live == old(live) && huge == old(huge) && realSize <= old(realSize)
      ensures done ==> PeaksUp(old(peak), old(realPeak))
      ensures done ==> UserBlocks(live, huge) == old(UserBlocks(live, huge))[p := BlockFor(bytes)]
      ensures old(live)[p] == BlockFor(bytes) || Shortened(old(live)[p], bytes) ==> done
      ensures old(live)[p].Large? && MAX_SMALL_SIZE < bytes <= MAX_LARGE_SIZE ==>
                (done <==> PageCount(bytes) <= old(live)[p].pages || CanGrow(old(tables), p, old(live)[p].pages, PageCount(bytes)))
      ensures realSize <= old(realSize) || overflow || realSize <= limit
      ensures !done ==> Leaves(collects, old(Now()), Now())
      ensures collects ==> old(realSize) + Need(bytes) > limit
      ensures failed ==> !overflow && bytes > MAX_LARGE_SIZE && realSize + WholePages(bytes) - BlockSize(old(live)[p]) > limit
      ensures failed ==> Settled()
      ensures failed ==> old(live)[p].Huge? && BlockSize(old(live)[p]) > 0
      ensures !done && !failed && old(live)[p].Huge? && bytes > MAX_LARGE_SIZE ==> unresized > old(unresized)
    {
      hide *;
      ValidParts();
      Dispatch(p);
      SameBlocksRefl(mem, UserBlocks(live, huge));
      PeaksSame(peak, realPeak);
      done, failed, collects := false, false, false;
      LeavesSame(Now());
      NeedIs(bytes);
      if p % CHUNK_SIZE == 0 {
        HugeNeeds(live, p, bytes);
        if bytes > MAX_LARGE_SIZE {
          done, failed, collects := ReallocHuge(p, bytes);
        }
      } else {
        var info := InfoOf(p);
        KindIs(info, live, p);
        ChunkNeeds(live, p, bytes);
        SameUser(live, huge, p);
        match info {
          case SRun(bin, _) => done := SameBin(bin, bytes);
          case NRun(bin, _) => done := SameBin(bin, bytes);
          case LRun(n) =>
            if MAX_SMALL_SIZE < bytes <= MAX_LARGE_SIZE {
              done := ResizeLarge(p, n, bytes);
            }
          case FRun => assert false;
        }
      }
    }

    lemma CoreParts(dead: set<int>)
      requires Core(dead)
      ensures RingOk(links, ring) && |ring| > 0 && ring[0] == mainChunk && mainChunk in links
      ensures ListOk(links, cachedChunks, cache) && Distinct(cache) && SparesOk(tables, links, cache)
      ensures TablesOk(tables, owner) && OwnersAre(owner, ring)
      ensures HugeChain(mem, hugeList, huge) && HugeLedger(huge, live)
      ensures LedgerOk(tables, owner, free, live, dead) && ChainsOk(mem, freeSlot, free)
      ensures RegionsOk(regions, ring, cache, huge, loose)
    {
      hide RingOk, ListOk, Distinct, SparesOk, TablesOk, OwnersAre, HugeChain, HugeLedger, LedgerOk, ChainsOk, RegionsOk;
      InRing(links, ring);
    }

    lemma CoreIs(dead: set<int>)
      requires RingOk(links, ring) && |ring| > 0 && ring[0] == mainChunk
      requires ListOk(links, cachedChunks, cache) && Distinct(cache) && SparesOk(tables, links, cache)
      requires TablesOk(tables, owner) && OwnersAre(owner, ring)
      requires HugeChain(mem, hugeList, huge) && HugeLedger(huge, live)
      requires LedgerOk(tables, owner, free, live, dead) && ChainsOk(mem, freeSlot, free)
      requires RegionsOk(regions, ring, cache, huge, loose)
      ensures Core(dead)
    {
      hide RingOk, ListOk, Distinct, SparesOk, TablesOk, OwnersAre, HugeChain, HugeLedger, LedgerOk, ChainsOk, RegionsOk;
    }
  }
}
