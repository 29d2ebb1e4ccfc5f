/**
 What one step of the heap does to its parts: the ring, the cached chunks, the page tables, the ledger.
 These facts speak of values only; the heap class puts them together.
 */
module Steps {
  import opened Sizes
  import opened PageBits
  import opened Chunks
  import opened Rings
  import opened Blocks
  import opened Ledger
  import opened Memory
  import opened Regions
  import opened Collector

  ghost predicate OwnersAre(owner: Owners, ring: seq<int>) {
    forall c :: c in owner <==> c in ring
  }

  /** A chunk whose pages but the header are free, in the shape in which chunks are cached. */
  ghost predicate Spare(tables: Tables, c: int) {
    c in tables && tables[c].bits == FreshBits() && |tables[c].map_| == PAGES
  }

  ghost predicate SparesOk(tables: Tables, links: LinkMap, cache: seq<int>) {
    forall c :: c in cache ==> Spare(tables, c) && c in links
  }

  /** No collector counter is left behind. */
  ghost predicate Quiet(tables: Tables, owner: Owners) {
    forall a :: CounterOf(RunOf(tables, owner, a)) == 0
  }

  ghost function CounterOf(ref: RunRef): int {
    match ref
    case RunRef(_, SRun(_, c)) => c
    case _ => 0
  }

  /** Some small or large block in the main chunk is handed out. */
  ghost predicate MainInUse(live: Live, main: int) {
    exists a :: a in live && !live[a].Huge? && Base(a) == main
  }

  ghost predicate SameRuns(T: Tables, O: Owners, T': Tables, O': Owners) {
    forall a :: RunOf(T', O', a) == RunOf(T, O, a)
  }

  lemma SameRunsIs(T: Tables, O: Owners, T': Tables, O': Owners)
    requires forall a :: RunOf(T', O', a) == RunOf(T, O, a)
    ensures SameRuns(T, O, T', O')
  {
    hide RunOf;
  }

  lemma LooseRegion(regions: RegionMap, ring: seq<int>, cache: seq<int>, huge: seq<HugeEntry>, loose: RegionMap, p: int)
    requires RegionsOk(regions, ring, cache, huge, loose) && p in loose
    ensures p in regions && p > 0 && p % CHUNK_SIZE == 0 && p !in ring && p !in cache
    ensures forall x :: x in cache ==> x !in ring && x != p
  {}

  lemma OwnerNew(owner: Owners, ring: seq<int>, c: int)
    requires OwnersAre(owner, ring) && c !in ring
    ensures c !in owner && OwnersAre(owner[c := FreshOwner()], ring + [c])
  {}

  lemma FirstOfAppend(ring: seq<int>, c: int)
    requires |ring| > 0
    ensures |ring + [c]| > 0 && (ring + [c])[0] == ring[0]
  {}

  /** Steps on the ring do not disturb the cached chunks. */
  lemma CacheFrame(links: LinkMap, links': LinkMap, tables: Tables, tables': Tables, head: int, cache: seq<int>, ring: seq<int>, c: int)
    requires ListOk(links, head, cache) && SparesOk(tables, links, cache)
    requires forall x :: x in cache ==> x !in ring && x != c
    requires links'.Keys == links.Keys && forall x :: x in links && x !in ring && x != c ==> links'[x] == links[x]
    requires forall x :: x in tables && x != c ==> x in tables' && tables'[x] == tables[x]
    ensures ListOk(links', head, cache) && SparesOk(tables', links', cache)
  {
    hide FreshBits;
    ListFrame(links, links', head, cache);
  }

  lemma OwnerAt(owner: Owners, ring: seq<int>, k: nat)
    requires OwnersAre(owner, ring) && k < |ring|
    ensures ring[k] in owner && ring[k] in ring
  {
    var c := ring[k];
    assert c in ring;
  }

  lemma OwnerGone(owner: Owners, ring: seq<int>, k: nat)
    requires OwnersAre(owner, ring) && k < |ring| && forall x :: x in Without(ring, k) <==> x in ring && x != ring[k]
    ensures OwnersAre(owner - {ring[k]}, Without(ring, k))
  {
    hide Without;
  }

  lemma WithoutFacts(ring: seq<int>, k: nat)
    requires 0 < k < |ring|
    ensures |Without(ring, k)| == |ring| - 1 && Without(ring, k)[0] == ring[0]
  {}

  lemma SpareIs(tables: Tables, c: int)
    requires c in tables && tables[c].bits == FreshBits() && |tables[c].map_| == PAGES
    ensures Spare(tables, c)
  {}

  lemma CacheApart(regions: RegionMap, ring: seq<int>, cache: seq<int>, huge: seq<HugeEntry>, loose: RegionMap, p: int)
    requires RegionsOk(regions, ring, cache, huge, loose) && p in ring
    ensures p !in loose && forall x :: x in cache ==> x !in ring && x != p
  {}

  lemma RingCacheApart(regions: RegionMap, ring: seq<int>, cache: seq<int>, huge: seq<HugeEntry>, loose: RegionMap)
    requires RegionsOk(regions, ring, cache, huge, loose)
    ensures forall x :: x in ring ==> x !in cache
  {}

  lemma CacheNotLoose(regions: RegionMap, ring: seq<int>, cache: seq<int>, huge: seq<HugeEntry>, loose: RegionMap)
    requires RegionsOk(regions, ring, cache, huge, loose) && cache != []
    ensures cache[0] !in loose && cache[0] in cache
  {
    var c := cache[0];
    assert c in cache;
  }

  lemma RingFrameNext(links: LinkMap, ring: seq<int>, c: int, next: int)
    requires RingOk(links, ring) && c in links && c !in ring
    ensures RingOk(links[c := links[c].(next := next)], ring)
    ensures ring[0] in links[c := links[c].(next := next)]
  {
    hide RingOk;
    InRing(links, ring);
    RingFrame(links, links[c := links[c].(next := next)], ring);
  }

  lemma SparesCons(tables: Tables, links: LinkMap, cache: seq<int>, c: int, next: int)
    requires SparesOk(tables, links, cache) && Spare(tables, c) && c in links
    ensures SparesOk(tables, links[c := links[c].(next := next)], [c] + cache)
  {
    hide Spare;
  }

  lemma SparesHead(tables: Tables, links: LinkMap, cache: seq<int>)
    requires SparesOk(tables, links, cache) && cache != [] && Distinct(cache)
    ensures Spare(tables, cache[0]) && SparesOk(tables, links, cache[1..])
    ensures cache[0] !in cache[1..]
  {
    hide Spare;
    assert cache[0] in cache && forall x :: x in cache[1..] ==> x in cache;
  }

  lemma ListNotEmpty(links: LinkMap, head: int, list: seq<int>)
    requires ListOk(links, head, list) && list != []
    ensures head != 0
  {}

  lemma ListHead(links: LinkMap, head: int, list: seq<int>)
    requires ListOk(links, head, list) && head != 0
    ensures list != [] && list[0] == head
  {}

  // ---- the page search over the ring ----

  /** Only free_tail hints differ. */
  ghost predicate OnlyTails(T: Tables, T': Tables) {
    T'.Keys == T.Keys && forall c :: c in T ==> T'[c] == T[c].(freeTail := T'[c].freeTail)
  }

  ghost predicate NoFit(T: Tables, c: int, n: nat) {
    c in T && forall s: nat :: s + n <= |T[c].bits| ==> !FreeRange(T[c].bits, s, n)
  }

  ghost predicate NoneFit(T: Tables, cs: seq<int>, n: nat) {
    forall c :: c in cs ==> NoFit(T, c, n)
  }

  ghost predicate BestFitIn(T: Tables, c: int, n: nat, page: int) {
    c in T && page > 0 && IsBestFit(T[c].bits, n, page)
  }

  /** A run of n free pages at page that may be carved now. */
  ghost predicate ReadyAt(T: Tables, c: int, page: int, n: nat) {
    && c in T && 0 < page && 0 < n && page + n <= PAGES && |T[c].bits| == |T[c].map_| == PAGES && T[c].freeTail <= PAGES
    && FreeRange(T[c].bits, page, n)
    && (page + n <= T[c].freeTail || (page == T[c].freeTail && FreeRange(T[c].bits, page, PAGES - page)))
  }

  lemma TailStep(T: Tables, O: Owners, c: int, tail: nat)
    requires TablesOk(T, O) && c in O && c in T && tail <= PAGES && |T[c].bits| == PAGES
    requires tail == T[c].freeTail || FreeRange(T[c].bits, tail, PAGES - tail)
    ensures TablesOk(T[c := T[c].(freeTail := tail)], O)
    ensures forall a :: RunOf(T[c := T[c].(freeTail := tail)], O, a) == RunOf(T, O, a)
  {
    hide *;
    ChunkFacts(T, O, c);
    TailRange(T[c], tail);
    TailMoved(T[c], O[c], tail);
    SameOwner(O, c);
    TailPages(T[c], O[c], tail);
    TableStep(T, O, c, T[c].(freeTail := tail), O[c], 0, 0, NoPage);
    NoChange(T, O, T[c := T[c].(freeTail := tail)], O, c);
  }

  lemma TailRange(t: Table, tail: nat)
    requires |t.bits| == PAGES && tail <= PAGES
    requires tail == t.freeTail || FreeRange(t.bits, tail, PAGES - tail)
    ensures tail == t.freeTail || forall p :: tail <= p < PAGES ==> !t.bits[p]
  {}

  lemma TailPages(t: Table, o: Owner, tail: nat)
    requires Shaped(t, o) && tail <= PAGES
    ensures PagesChanged(t, o, t.(freeTail := tail), o, 0, 0 + 0, NoPage)
  {}

  lemma NoChange(T: Tables, O: Owners, T': Tables, O': Owners, c: int)
    requires RunsChanged(T, O, T', O', c + 0 * PAGE_SIZE, c + (0 + 0) * PAGE_SIZE, AtChunk(c, NoPage))
    ensures forall a :: RunOf(T', O', a) == RunOf(T, O, a)
  {
    hide RunOf;
  }

  lemma SparesTail(tables: Tables, links: LinkMap, cache: seq<int>, c: int, tail: nat)
    requires SparesOk(tables, links, cache) && c in tables
    ensures SparesOk(tables[c := tables[c].(freeTail := tail)], links, cache)
  {
    hide FreshBits;
  }

  lemma TailsStart(T: Tables, O: Owners, ring: seq<int>, n: nat)
    ensures OnlyTails(T, T) && SameRuns(T, O, T, O) && NoneFit(T, ring[..0], n)
  {}

  lemma TailsStep(T0: Tables, T: Tables, O: Owners, c: int, tail: nat)
    requires OnlyTails(T0, T) && c in T
    ensures OnlyTails(T0, T[c := T[c].(freeTail := tail)])
  {}

  lemma SameRunsTrans(T0: Tables, T1: Tables, T2: Tables, O: Owners)
    requires SameRuns(T0, O, T1, O) && SameRuns(T1, O, T2, O)
    ensures SameRuns(T0, O, T2, O)
  {
    hide RunOf;
    forall a
      ensures RunOf(T2, O, a) == RunOf(T0, O, a)
    {
      assert RunOf(T1, O, a) == RunOf(T0, O, a);
    }
  }

  lemma NoFitTails(T: Tables, T': Tables, c: int, n: nat)
    requires OnlyTails(T, T') && c in T'
    ensures NoFit(T', c, n) <==> NoFit(T, c, n)
    ensures forall page :: BestFitIn(T', c, n, page) ==> BestFitIn(T, c, n, page)
  {
    hide IsBestFit;
    assert T'[c].bits == T[c].bits;
  }

  lemma NoneFitNext(T: Tables, ring: seq<int>, k: int, n: nat)
    requires 0 <= k < |ring| && NoneFit(T, ring[..k], n) && NoFit(T, ring[k], n)
    ensures NoneFit(T, ring[..k + 1], n)
    ensures k + 1 == |ring| ==> NoneFit(T, ring, n)
  {
    hide NoFit;
    assert ring[..k + 1] == ring[..k] + [ring[k]];
    assert k + 1 == |ring| ==> ring[..k + 1] == ring;
  }

  lemma RingNext(links: LinkMap, ring: seq<int>, k: int)
    requires RingOk(links, ring) && 0 <= k < |ring|
    ensures ring[k] in links
    ensures if k + 1 < |ring| then links[ring[k]].next == ring[k + 1] && ring[k + 1] != ring[0]
            else links[ring[k]].next == ring[0]
  {
    assert Joined(links, ring[k], ring[Succ(k, |ring|)]);
  }

  /** The word-level search on one linked chunk: best fit, with free_tail kept sound. */
  lemma SearchChunk(T: Tables, O: Owners, c: int, n: nat)
    requires TablesOk(T, O) && c in O && c in T && 0 < n && |T[c].bits| == PAGES
    ensures T[c].freePages < n ==> NoFit(T, c, n)
    ensures var f := Search(T[c].bits, T[c].freeTail, n);
            && f.tail <= PAGES && (f.tail == T[c].freeTail || FreeRange(T[c].bits, f.tail, PAGES - f.tail))
            && (f.page <= 0 ==> f.page == -1 && NoFit(T, c, n))
            && (f.page > 0 ==> BestFitIn(T, c, n, f.page) && ReadyAt(T[c := T[c].(freeTail := f.tail)], c, f.page, n))
  {
    hide *;
    ChunkFacts(T, O, c);
    TailOkFromOwner(T[c], O[c]);
    SearchIsBestFit(T[c].bits, T[c].freeTail, n);
    SearchTail(T[c].bits, T[c].freeTail, n);
    FewPages(T[c], O[c], n);
    SearchFacts(T, c, n);
  }

  lemma SearchTail(bits: seq<bool>, tail: nat, n: nat)
    requires |bits| == PAGES && TailOk(bits, tail) && n > 0 && bits[0]
    ensures var f := Search(bits, tail, n);
            && f.tail <= PAGES && (f.page >= 0 ==> f.page + n <= f.tail)
            && (f.tail == tail || FreeRange(bits, f.tail, PAGES - f.tail)) && f.page >= -1 && f.page != 0
  {
    hide SearchFrom, TailOk;
    SearchKeepsTail(bits, tail, n, 0, -1, PAGES);
    SearchLow(bits, tail, n, 0, -1, PAGES);
  }

  lemma {:induction false} SearchLow(bits: seq<bool>, tail: nat, n: nat, i: nat, best: int, bestLen: nat)
    requires i <= |bits| && best >= -1
    ensures SearchFrom(bits, tail, n, i, best, bestLen).page >= -1
    decreases |bits| - i
  {
    var s := FirstClear(bits, i);
    FirstClearFacts(bits, i);
    if s < |bits| {
      var e := FirstSet(bits, s);
      FirstSetFacts(bits, s);
      if e < |bits| && e - s != n {
        if n < e - s < bestLen {
          SearchLow(bits, tail, n, e, s, e - s);
        } else {
          SearchLow(bits, tail, n, e, best, bestLen);
        }
      }
    }
  }

  lemma SearchFacts(T: Tables, c: int, n: nat)
    requires c in T && |T[c].bits| == |T[c].map_| == PAGES && 0 < n
    requires var f := Search(T[c].bits, T[c].freeTail, n);
             && f.tail <= PAGES && (f.page >= 0 ==> f.page + n <= f.tail) && f.page >= -1 && f.page != 0
             && (f.page < 0 <==> forall s: nat :: s + n <= PAGES ==> !FreeRange(T[c].bits, s, n))
             && (f.page >= 0 ==> f.page + n <= PAGES && FreeRange(T[c].bits, f.page, n) && IsBestFit(T[c].bits, n, f.page))
    ensures var f := Search(T[c].bits, T[c].freeTail, n);
            && (f.page <= 0 ==> f.page == -1 && NoFit(T, c, n))
            && (f.page > 0 ==> BestFitIn(T, c, n, f.page) && ReadyAt(T[c := T[c].(freeTail := f.tail)], c, f.page, n))
  {
    hide Search, IsBestFit;
  }

  lemma FewPages(t: Table, o: Owner, n: nat)
    requires TableOk(t, o)
    ensures t.freePages < n ==> forall s: nat :: s + n <= |t.bits| ==> !FreeRange(t.bits, s, n)
  {
    forall s: nat | s + n <= |t.bits| && FreeRange(t.bits, s, n)
      ensures t.freePages >= n
    {
      CountRange(o, s, n, PAGES);
    }
  }

  lemma OwnersReordered(owner: Owners, ring: seq<int>, ring': seq<int>)
    requires OwnersAre(owner, ring) && forall x :: x in ring' <==> x in ring
    ensures OwnersAre(owner, ring')
  {}

  lemma OwnersSame(owner: Owners, owner': Owners, ring: seq<int>, c: int)
    requires OwnersAre(owner, ring) && c in owner && owner'.Keys == owner.Keys + {c}
    ensures OwnersAre(owner', ring) && owner'.Keys == owner.Keys && c in ring
  {
    assert forall x :: x in owner' <==> x in owner'.Keys;
  }

  lemma ReadyFacts(T: Tables, c: int, page: int, n: nat)
    requires ReadyAt(T, c, page, n)
    ensures c in T && 0 < page && 0 < n && page + n <= PAGES && |T[c].bits| == |T[c].map_| == PAGES && T[c].freeTail <= PAGES
    ensures FreeRange(T[c].bits, page, n)
    ensures page + n <= T[c].freeTail || (page == T[c].freeTail && forall p :: page <= p < PAGES ==> !T[c].bits[p])
  {}

  /** What carving a run does to the tables, the ledger and the collector's counters. */
  lemma CarveAll(T: Tables, O: Owners, free: FreeLists, live: Live, dead: set<int>, c: int, page: int, n: nat)
    requires TablesOk(T, O) && LedgerOk(T, O, free, live, dead) && c in O && ReadyAt(T, c, page, n)
    ensures c in T && 0 <= page < |T[c].map_|
    ensures var r := c + page * PAGE_SIZE;
            var T', O' := T[c := Carve(T[c], page, n)], O[c := Assign(O[c], page, n, page)];
            && TablesOk(T', O') && StartAddress(r) && Base(r) == c && PageNum(r) == page
            && r !in live && LedgerOk(T', O', free, live[r := Large(n)], dead)
            && (Quiet(T, O) ==> Quiet(T', O'))
            && page + n <= Carve(T[c], page, n).freeTail
  {
    hide *;
    ReadyFacts(T, c, page, n);
    ChunkFacts(T, O, c);
    var r := c + page * PAGE_SIZE;
    StartAddressIs(c, page);
    CarveStep(T, O, c, page, n, T[c].freeTail);
    CarvedFacts(T[c], page, n);
    var T', O' := T[c := Carve(T[c], page, n)], O[c := Assign(O[c], page, n, page)];
    AddLarge(T, O, T', O', free, live, dead, r, n);
    QuietLarge(r, n);
    QuietStep(T, O, T', O', r, r + n * PAGE_SIZE, RunRef(r, LRun(n)));
  }

  lemma QuietLarge(r: int, n: int)
    ensures CounterOf(RunRef(r, LRun(n))) == 0 && CounterOf(NoRun) == 0
  {}

  lemma OwnerInRing(owner: Owners, ring: seq<int>, c: int)
    requires OwnersAre(owner, ring) && c in owner
    ensures c in ring
  {}

  lemma CarvedFacts(t: Table, page: int, n: nat)
    requires 0 <= page < |t.map_| && (page + n <= t.freeTail || page == t.freeTail)
    ensures Carved(t, t.freeTail, page, n) == Carve(t, page, n)
    ensures page + n <= Carve(t, page, n).freeTail
  {}

  lemma HugeLedgerAdd(huge: seq<HugeEntry>, live: Live, p: int, b: Block)
    requires HugeLedger(huge, live) && p !in live && !b.Huge?
    ensures HugeLedger(huge, live[p := b])
  {
    forall e | e in huge
      ensures EntryLive(live[p := b], e)
    {
      assert EntryLive(live, e);
    }
  }

  lemma QuietStep(T: Tables, O: Owners, T': Tables, O': Owners, lo: int, hi: int, ref: RunRef)
    requires RunsChanged(T, O, T', O', lo, hi, ref) && CounterOf(ref) == 0
    ensures Quiet(T, O) ==> Quiet(T', O')
  {
    hide RunOf;
    if Quiet(T, O) {
      forall a
        ensures CounterOf(RunOf(T', O', a)) == 0
      {
        assert CounterOf(RunOf(T, O, a)) == 0;
      }
    }
  }

  /** A table of a linked chunk is no concern of the cached ones. */
  lemma SparesStep(tables: Tables, links: LinkMap, cache: seq<int>, regions: RegionMap, ring: seq<int>, huge: seq<HugeEntry>, loose: RegionMap, c: int, t: Table)
    requires SparesOk(tables, links, cache) && RegionsOk(regions, ring, cache, huge, loose) && c in ring
    ensures SparesOk(tables[c := t], links, cache)
  {
    hide FreshBits;
  }

  /** The ledger as it stands once the run at page is released. */
  ghost predicate ReleasedLedger(T: Tables, O: Owners, free: FreeLists, live: Live, dead: set<int>, c: int, page: int, n: int)
    requires c in T && c in O && 0 <= page < |T[c].map_| && n >= 0
  {
    LedgerOk(T[c := Release(T[c], page, n)], O[c := Assign(O[c], page, n, -1)], free, live, dead)
  }

  lemma ReleasedIs(T: Tables, O: Owners, free: FreeLists, live: Live, dead: set<int>, c: int, page: int, n: int)
    requires c in T && c in O && 0 <= page < |T[c].map_| && n >= 0
    requires ReleasedLedger(T, O, free, live, dead, c, page, n)
    ensures LedgerOk(T[c := Release(T[c], page, n)], O[c := Assign(O[c], page, n, -1)], free, live, dead)
  {}

  lemma SameRunsRefl(T: Tables, O: Owners)
    ensures SameRuns(T, O, T, O)
  {}

  /** Releasing a large run takes its block off the ledger. */
  lemma ReleaseLarge(T: Tables, O: Owners, free: FreeLists, live: Live, dead: set<int>, c: int, page: int, n: int)
    requires TablesOk(T, O) && LedgerOk(T, O, free, live, dead) && c in O && c in T && 0 <= page < |T[c].map_| && n >= 0
    requires c % CHUNK_SIZE == 0 && LiveAs(live, c + page * PAGE_SIZE, Large(n)) && IsStart(T[c], O[c], page)
    ensures n == RunLen(T[c].map_[page])
    ensures ReleasedLedger(T, O, free, live - {c + page * PAGE_SIZE}, dead, c, page, n)
    ensures Quiet(T, O) ==> Quiet(T[c := Release(T[c], page, n)], O[c := Assign(O[c], page, n, -1)])
  {
    hide *;
    var r := c + page * PAGE_SIZE;
    RunStart(T, O, c, page);
    LargeRun(T, O, free, live, dead, r, n);
    RunSpan(T, O, r);
    RunOnIs(T, O, r, n);
    ReleaseStep(T, O, c, page, n);
    var T', O' := T[c := Release(T[c], page, n)], O[c := Assign(O[c], page, n, -1)];
    DropLarge(T, O, T', O', free, live, dead, r, n);
    QuietLarge(r, n);
    QuietStep(T, O, T', O', r, r + n * PAGE_SIZE, NoRun);
    ReleasedHolds(T, O, free, live - {r}, dead, c, page, n);
  }

  lemma ReleasedHolds(T: Tables, O: Owners, free: FreeLists, live: Live, dead: set<int>, c: int, page: int, n: int)
    requires c in T && c in O && 0 <= page < |T[c].map_| && n >= 0
    requires LedgerOk(T[c := Release(T[c], page, n)], O[c := Assign(O[c], page, n, -1)], free, live, dead)
    ensures ReleasedLedger(T, O, free, live, dead, c, page, n)
  {}

  lemma LargeRun(T: Tables, O: Owners, free: FreeLists, live: Live, dead: set<int>, r: int, n: int)
    requires LedgerOk(T, O, free, live, dead) && LiveAs(live, r, Large(n))
    ensures RunOf(T, O, r) == RunRef(r, LRun(n)) && RunLen(LRun(n)) == n
  {
    hide RunOf;
    assert LivePlaced(T, O, live, dead, r);
  }

  lemma RunOnIs(T: Tables, O: Owners, r: int, n: int)
    requires RunLen(LRun(n)) == n
    requires forall x :: r <= x < r + RunLen(LRun(n)) * PAGE_SIZE ==> RunOf(T, O, x) == RunOf(T, O, r)
    requires RunOf(T, O, r) == RunRef(r, LRun(n))
    ensures RunOn(T, O, r, r + n * PAGE_SIZE, RunRef(r, LRun(n)))
  {
    hide RunOf;
  }

  // ---- collector ----

  lemma HomeIs(T: Tables, O: Owners, a: int, r: int, bin: int, c: int)
    requires RunOf(T, O, a) == RunRef(r, SRun(bin, c))
    ensures Home(T, O, a) == r
  {
    hide RunOf;
  }

  /** Writing a counter: tables and ledger stay sound. */
  lemma SetAll(T: Tables, O: Owners, free: FreeLists, live: Live, dead: set<int>, c: int, page: int, bin: int, old_: int, counter: int)
    requires TablesOk(T, O) && LedgerOk(T, O, free, live, dead) && c in O && c in T && 0 <= page < |T[c].map_|
    requires 0 <= bin < BINS && IsRun(T[c], O[c], page, SRun(bin, old_)) && 0 <= counter < 512
    requires RunOn(T, O, c + page * PAGE_SIZE, c + page * PAGE_SIZE + BinPages(bin) * PAGE_SIZE, RunRef(c + page * PAGE_SIZE, SRun(bin, old_)))
    ensures var T' := T[c := SetCounter(T[c], page, bin, counter)]; var r := c + page * PAGE_SIZE;
            && TablesOk(T', O) && LedgerOk(T', O, free, live, dead)
            && RunsChanged(T, O, T', O, r, r + BinPages(bin) * PAGE_SIZE, RunRef(r, SRun(bin, counter)))
  {
    hide *;
    CounterStep(T, O, c, page, bin, old_, counter);
    var r := c + page * PAGE_SIZE;
    LedgerRecount(T, T[c := SetCounter(T[c], page, bin, counter)], O, free, live, dead, r, r + BinPages(bin) * PAGE_SIZE, bin, old_, counter);
  }

  lemma ChainsSized(mem: Words, heads: seq<int>, free: FreeLists)
    requires ChainsOk(mem, heads, free)
    ensures |heads| == |free| == BINS
  {}

  lemma ChainHead(mem: Words, heads: seq<int>, free: FreeLists, bin: int)
    requires ChainsOk(mem, heads, free) && 0 <= bin < BINS
    ensures |heads| == |free| == BINS && ChainOk(mem, heads[bin], free[bin])
    ensures heads[bin] == if free[bin] == [] then 0 else free[bin][0]
    ensures free[bin] != [] ==> free[bin][0] != 0
  {}

  lemma ChainNext(mem: Words, heads: seq<int>, free: FreeLists, bin: int, k: nat)
    requires ChainsOk(mem, heads, free) && 0 <= bin < BINS && |free| == BINS && k < |free[bin]|
    ensures Rd(mem, free[bin][k]) == (if k + 1 < |free[bin]| then free[bin][k + 1] else 0)
    ensures k + 1 < |free[bin]| ==> free[bin][k + 1] != 0
  {
    ChainAt(mem, heads[bin], free[bin], k);
    if k + 1 < |free[bin]| {
      ChainAt(mem, heads[bin], free[bin], k + 1);
    }
  }

  lemma FreeSlotAt(T: Tables, O: Owners, free: FreeLists, live: Live, dead: set<int>, bin: int, k: nat)
    requires LedgerOk(T, O, free, live, dead) && TablesOk(T, O) && 0 <= bin < |free| && k < |free[bin]|
    ensures IsSlot(T, O, free[bin][k], bin) && InFree(free, bin, free[bin][k])
    ensures RunOf(T, O, free[bin][k]).RunRef? && RunOf(T, O, free[bin][k]).info.SRun?
    ensures RunOf(T, O, free[bin][k]).info.bin == bin
    ensures RunOf(T, O, Home(T, O, free[bin][k])) == RunOf(T, O, free[bin][k])
  {
    hide RunOf, TablesOk, SlotIn, BinPages;
    var a := free[bin][k];
    assert InFree(free, bin, a);
    SlotRun(T, O, free, live, dead, bin, a);
  }

  /** The run of the next slot and the counter it shows. */
  lemma CountedAt(T0: Tables, T: Tables, O: Owners, lists: FreeLists, bin: int, k: nat) returns (r: int, c: int)
    requires 0 <= bin < |lists| && k < |lists[bin]| && Counted(T0, T, O, lists, bin, k)
    requires RunOf(T, O, lists[bin][k]).RunRef? && RunOf(T, O, lists[bin][k]).info.SRun?
    requires RunOf(T, O, lists[bin][k]).info.bin == bin
    requires RunOf(T, O, Home(T, O, lists[bin][k])) == RunOf(T, O, lists[bin][k])
    ensures RunOf(T, O, lists[bin][k]) == RunRef(r, SRun(bin, c)) && RunOf(T, O, r) == RunRef(r, SRun(bin, c))
    ensures Home(T0, O, lists[bin][k]) == r && c == Count(T0, O, lists[bin][..k], r) % COUNTER_RANGE
  {
    hide RunOf, Count;
    var a := lists[bin][k];
    r, c := RunOf(T, O, a).start, RunOf(T, O, a).info.counter;
    assert RunOf(T, O, a) == Expect(T0, O, lists, bin, k, a);
  }

  lemma WholeList(list: seq<int>, k: nat)
    requires k == |list|
    ensures list[..k] == list
  {}

  // ---- new chunks ----

  /** The header of a chunk in new memory: all zero. */
  function ZeroTable(): Table {
    Table(0, 0, seq(PAGES, p => false), seq(PAGES, p => FRun))
  }

  lemma ZeroTableFacts()
    ensures AlmostSpare(ZeroTable()) && |ZeroTable().map_| > 0
  {}

  /** The header of a loose region is nobody's. */
  lemma LooseHeader(links: LinkMap, links': LinkMap, tables: Tables, tables': Tables, owner: Owners, ring: seq<int>,
                    head: int, cache: seq<int>, p: int)
    requires RingOk(links, ring) && ListOk(links, head, cache) && SparesOk(tables, links, cache)
    requires TablesOk(tables, owner) && OwnersAre(owner, ring) && p !in ring && p !in cache
    requires forall c :: c != p ==> (c in links' <==> c in links) && (c in links && c in links' ==> links'[c] == links[c])
    requires forall c :: c != p && c in tables ==> c in tables' && tables'[c] == tables[c]
    ensures RingOk(links', ring) && ListOk(links', head, cache) && SparesOk(tables', links', cache)
    ensures TablesOk(tables', owner) && SameRuns(tables, owner, tables', owner) && forall a :: RunOf(tables', owner, a) == RunOf(tables, owner, a)
  {
    hide RunOf, TablesOk, FreshBits, RingOk, ListOk;
    InRing(links, ring);
    RingFrame(links, links', ring);
    ListFrame(links, links', head, cache);
    OwnersHaveTables(tables, owner);
    TablesFrame(tables, tables', owner);
  }

  lemma OwnersHaveTables(T: Tables, O: Owners)
    requires TablesOk(T, O)
    ensures forall c :: c in O ==> c in T
  {
    hide TableOk;
    forall c | c in O
      ensures c in T
    {
      assert ChunkOk(T, O, c);
    }
  }

  lemma QuietSame(T: Tables, O: Owners, T': Tables, O': Owners)
    requires SameRuns(T, O, T', O') && Quiet(T, O)
    ensures Quiet(T', O')
  {
    hide RunOf;
    forall a
      ensures CounterOf(RunOf(T', O', a)) == 0
    {
      assert RunOf(T', O', a) == RunOf(T, O, a) && CounterOf(RunOf(T, O, a)) == 0;
    }
  }

  /** A chunk just initialised has room for any run behind its header. */
  lemma FreshReady(T: Tables, c: int, n: nat)
    requires c in T && T[c].bits == FreshBits() && |T[c].map_| == PAGES && T[c].freeTail == FIRST_PAGE && 0 < n < PAGES
    ensures ReadyAt(T, c, FIRST_PAGE, n)
  {}

  lemma SpareIsAlmost(tables: Tables, c: int)
    requires Spare(tables, c)
    ensures c in tables && AlmostSpare(tables[c]) && |tables[c].map_| > 0
  {}

  lemma AlmostSized(t: Table)
    requires AlmostSpare(t) && |t.map_| > 0
    ensures |InitTable(t).map_| == PAGES
  {}

  lemma ChunkSizePositive()
    ensures CHUNK_SIZE > 0
  {}

  function Max(a: int, b: int): (m: int)
    ensures m >= a && m >= b && (m == a || m == b)
  {
    if a > b then a else b
  }

  /** A chunk found more than two steps on stands behind the main chunk now if the run is short. */
  ghost predicate MovedIfFar(ring0: seq<int>, ring: seq<int>, at: int, steps: int, n: nat) {
    && 0 <= at < |ring0| && (steps > 2 && n < 8 ==> at > 0)
    && ring == if steps > 2 && n < 8 then MovedToFront(ring0, at) else ring0
  }

  /** A run of up to 7 pages found in the fourth chunk or further on brings its chunk behind the main one. */
  lemma FarMoves(ring0: seq<int>, ring: seq<int>, at: int, n: nat)
    requires MovedIfFar(ring0, ring, at, at, n)
    ensures if at >= 3 && n <= 7 then |ring| > 1 && ring[0] == ring0[0] && ring[1] == ring0[at] else ring == ring0
  {}

  lemma LastMoved(ring0: seq<int>, ring: seq<int>, steps: int, n: nat)
    requires |ring0| > 1 && MovedIfFar(ring0, ring, |ring0| - 1, steps, n)
    ensures |ring| == |ring0| && ring[if steps > 2 && n < 8 then 1 else |ring| - 1] == ring0[|ring0| - 1]
  {}

  lemma EmptyHasRoom(T: Tables, O: Owners, ring: seq<int>, n: nat)
    requires |ring| > 0 && ring[0] in T && ring[0] in O && TableOk(T[ring[0]], O[ring[0]])
    requires T[ring[0]].freePages == PAGES - FIRST_PAGE && 0 < n < PAGES
    ensures !NoneFit(T, ring, n) && forall k :: 0 < k <= |ring| ==> !NoneFit(T, ring[..k], n)
  {
    var c := ring[0];
    EmptyTable(T[c], O[c]);
    assert FreeRange(T[c].bits, 1, n);
    assert c in ring;
    assert !NoFit(T, c, n);
    forall k | 0 < k <= |ring|
      ensures !NoneFit(T, ring[..k], n)
    {
      var pre := ring[..k];
      assert pre[0] == c && c in pre;
    }
  }

  lemma StartNotZero(p: int)
    requires StartAddress(p)
    ensures p != 0
  {}
}
