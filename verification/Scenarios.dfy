/** Short programs that bring a heap into the states that the bounds of the theorems are about. */
module Scenarios {
  import opened Sizes
  import opened PageBits
  import opened Blocks
  import opened Ledger
  import opened Memory
  import opened Collector
  import opened Steps
  import opened SweepRuns
  import opened HugeBlocks
  import opened Limits
  import opened ZendHeap
  import opened Theorems

  // ---- real_size above the limit ----

  /**
     The main chunk is one large block, and the limit has room for a huge block or for one chunk more. The
     list node of the huge block needs that chunk, and real_size ends a chunk above the limit.
   */
  method Exceed(h: Heap, p: int) returns (q: int, ghost asked: Asked)
    requires h.Valid() && MainInUse(UserBlocks(h.live, h.huge), h.mainChunk) && UserBlocks(h.live, h.huge) == (map[])[p := BlockFor(MAX_LARGE_SIZE)]
    requires h.limit == 3 * CHUNK_SIZE && !h.overflow && h.realSize <= CHUNK_SIZE
    modifies h
    ensures h.limit == old(h.limit) && !h.overflow && (q == 0 ==> h.refusals > old(h.refusals))
    ensures q != 0 ==> h.Valid() && h.realSize == h.limit + CHUNK_SIZE
    ensures q != 0 ==> AskedFrom(asked, old(h.Now())) && NeedsChunk(asked)
  {
    hide *;
    SizesHere();
    h.ReadyIs(2 * CHUNK_SIZE);
    ghost var users, size := UserBlocks(h.live, h.huge), h.realSize;
    UserLess(h.huge, h.live);
    q, asked := h.AllocHeap(2 * CHUNK_SIZE);
    if q == 0 {
      DeniedHere(h, old(h.refusals));
    } else {
      h.WithinLimitSays(size, NeedsChunk(asked));
      BothLive(users, h.live, h.huge, p, q);
      TwoChunks(h, p, q);
    }
  }

  /** A new heap gets there with two requests, if the system does not refuse. */
  method AboveLimit(chunk: int) returns (h: Heap, q: int)
    requires chunk > 0 && chunk % CHUNK_SIZE == 0
    ensures h.limit == 3 * CHUNK_SIZE && !h.overflow
    ensures q == 0 ==> h.refusals > 0
    ensures q != 0 ==> h.Valid() && h.realSize == h.limit + CHUNK_SIZE
  {
    hide *;
    SizesHere();
    h := new Heap(chunk);
    h.SetLimit(3 * CHUNK_SIZE);
    MaxIs(3 * CHUNK_SIZE, CHUNK_SIZE);
    FreshIsReady(h, MAX_LARGE_SIZE);
    NoUserBlocks(h.live, h.huge);
    var p: int;
    ghost var none, asked;
    p, none := h.AllocHeap(MAX_LARGE_SIZE);
    NotAskedFrom(h.Now());
    h.WithinLimitSays(CHUNK_SIZE, NeedsChunk(none));
    q, asked := Exceed(h, p);
  }

  lemma SizesHere()
    ensures CHUNK_SIZE > 0 && 0 <= MAX_LARGE_SIZE < 2 * CHUNK_SIZE
    ensures BlockFor(MAX_LARGE_SIZE) == Large(PAGES - 1) && BlockFor(2 * CHUNK_SIZE) == Huge(2 * CHUNK_SIZE)
  {}

  lemma DeniedHere(h: Heap, refusals: nat)
    requires h.limit == 3 * CHUNK_SIZE && h.realSize <= CHUNK_SIZE
    ensures h.Denied(refusals, Need(2 * CHUNK_SIZE)) ==> h.refusals > refusals
  {}

  lemma MaxIs(a: int, b: int)
    ensures Max(a, b) == if a > b then a else b
  {}

  lemma FreshIsReady(h: Heap, n: int)
    requires h.Fresh() && n <= MAX_LARGE_SIZE
    ensures h.Ready(n)
  {
    hide MainInUse, UserBlocks;
  }

  lemma NoUserBlocks(live: Live, huge: seq<HugeEntry>)
    requires live == map[]
    ensures UserBlocks(live, huge) == map[]
  {}

  lemma BothLive(users: Live, live: Live, huge: seq<HugeEntry>, p: int, q: int)
    requires users == (map[])[p := BlockFor(MAX_LARGE_SIZE)] && q !in users
    requires UserBlocks(live, huge) == users[q := BlockFor(2 * CHUNK_SIZE)]
    ensures LiveAs(live, p, Large(PAGES - 1)) && LiveAs(live, q, Huge(2 * CHUNK_SIZE))
  {
    SizesHere();
    hide BlockFor, IsNode;
    UserLess(huge, live);
    assert p in UserBlocks(live, huge) && q in UserBlocks(live, huge);
  }

  /** A block that fills its chunk and a huge block: the node of the latter lies in another chunk. */
  lemma TwoChunks(h: Heap, p: int, q: int)
    requires h.Valid() && LiveAs(h.live, p, Large(PAGES - 1)) && LiveAs(h.live, q, Huge(2 * CHUNK_SIZE))
    ensures h.realSize >= 4 * CHUNK_SIZE
  {
    hide *;
    h.ValidParts();
    h.EntriesOk();
    var k := EntryWith(h.huge, h.live, q);
    var node := h.huge[k].node;
    EntryFacts(h.huge, h.live, k);
    SmallFacts(h.live, node);
    LargeFacts(h.live, p);
    OffTheHeader(h, node, node);
    OffTheHeader(h, p, p);
    OffTheHeader(h, p, p + (PAGES - 1) * PAGE_SIZE - 1);
    BaseNear(p + (PAGES - 1) * PAGE_SIZE - 1);
    BaseNear(node);
    SizesHere();
    PagesHere();
    if Base(node) == Base(p) {
      InLarge(h.live, p, node);
      NoOverlap(h, p, node, node);
    }
    TwoIn(h.ring, Base(p), Base(node));
    Conservation(h);
    CountsAre(h);
    OneOfTotal(h.huge, h.live, k);
  }

  lemma PagesHere()
    ensures (PAGES - 1) * PAGE_SIZE + PAGE_SIZE == CHUNK_SIZE && PAGE_SIZE > 0
  {}

  lemma EntryWith(huge: seq<HugeEntry>, live: Live, q: int) returns (k: nat)
    requires HugeLedger(huge, live) && LiveAs(live, q, Huge(2 * CHUNK_SIZE))
    ensures k < |huge| && huge[k].ptr == q && huge[k].size == 2 * CHUNK_SIZE
  {
    var e :| e in huge && e.ptr == q;
    assert EntryLive(live, e);
    k :| 0 <= k < |huge| && huge[k] == e;
  }

  lemma SmallFacts(live: Live, a: int)
    requires LiveAs(live, a, Small(NODE_BIN))
    ensures InBlock(live, a, a) && !live[a].Huge? && live[a] == Small(NODE_BIN)
  {}

  lemma LargeFacts(live: Live, p: int)
    requires LiveAs(live, p, Large(PAGES - 1))
    ensures InBlock(live, p, p) && InBlock(live, p, p + (PAGES - 1) * PAGE_SIZE - 1)
    ensures !live[p].Huge? && live[p] == Large(PAGES - 1)
  {}

  lemma BaseNear(w: int)
    ensures Base(w) <= w < Base(w) + CHUNK_SIZE
  {}

  lemma InLarge(live: Live, p: int, w: int)
    requires LiveAs(live, p, Large(PAGES - 1)) && p <= w < p + (PAGES - 1) * PAGE_SIZE
    ensures InBlock(live, p, w)
  {}

  lemma TwoIn(s: seq<int>, a: int, b: int)
    requires a in s && b in s && a != b
    ensures |s| >= 2
  {}

  lemma CountsAre(h: Heap)
    requires h.Counts()
    ensures h.chunksCount == |h.ring| && h.cachedChunksCount >= 0
  {}

  lemma {:induction false} TotalAtLeast(huge: seq<HugeEntry>, k: nat)
    requires k < |huge| && forall i :: 0 <= i < |huge| ==> huge[i].size > 0
    ensures HugeTotal(huge) >= huge[k].size && HugeTotal(huge) >= 0
    decreases |huge|
  {
    var rest := huge[1..];
    if rest != [] {
      TotalAtLeast(rest, if k > 0 then k - 1 else 0);
    }
  }

  lemma OneOfTotal(huge: seq<HugeEntry>, live: Live, k: nat)
    requires HugeLedger(huge, live) && k < |huge|
    ensures HugeTotal(huge) >= huge[k].size
  {
    hide HugeTotal;
    forall i | 0 <= i < |huge| ensures huge[i].size > 0 {
      EntryFacts(huge, live, i);
    }
    TotalAtLeast(huge, k);
  }

  // ---- a main chunk with nothing in use ----

  /**
     A small block allocated first and freed again leaves a main chunk with no live block and one run.
     With CollectedMain: a collection empties the main chunk if the bin is not bin 0, and only then.
   */
  method IdleMain(chunk: int, bin: int) returns (h: Heap)
    requires chunk > 0 && chunk % CHUNK_SIZE == 0 && 0 <= bin < BINS
    ensures h.Inv() && h.live == map[] && !MainInUse(h.live, h.mainChunk)
    ensures HasBinZero(h.tables, h.owner, h.mainChunk) <==> bin == 0
  {
    hide *;
    h := new Heap(chunk);
    h.ValidParts();
    h.FreshParts();
    h.InvSized();
    ghost var lists := h.free;
    var p := h.AllocSmall(bin);
    h.InvSized();
    ghost var mid := h.free;
    NodesGone(h.huge, h.live, p, bin);
    h.FreeSmall(p, bin);
    OneRun(h, lists, mid, p, bin);
  }

  lemma NodesGone(huge: seq<HugeEntry>, live: Live, p: int, bin: int)
    requires huge == [] && live == (map[])[p := Small(bin)]
    ensures HugeLedger(huge, live - {p}) && LiveAs(live, p, Small(bin)) && live - {p} == map[]
  {}

  lemma OneRun(h: Heap, lists: FreeLists, mid: FreeLists, p: int, bin: int)
    requires h.Inv() && h.live == map[] && Base(p) == h.mainChunk && |lists| == |mid| == BINS && 0 <= bin < BINS
    requires (forall b :: 0 <= b < BINS ==> lists[b] == []) && OnlyGained(lists, mid, bin)
    requires h.free == mid[bin := [p] + mid[bin]]
    ensures !MainInUse(h.live, h.mainChunk)
    ensures HasBinZero(h.tables, h.owner, h.mainChunk) <==> bin == 0
  {
    hide *;
    h.InvParts();
    h.CoreParts({});
    NoneInUse(h.live, h.mainChunk);
    OnlyBin(lists, mid, h.free, p, bin);
    BinZeroIff(h.tables, h.owner, h.free, h.live, h.mainChunk, p, bin);
  }

  lemma NoneInUse(live: Live, main: int)
    requires live == map[]
    ensures !MainInUse(live, main)
  {}

  lemma OnlyBin(lists: FreeLists, mid: FreeLists, free: FreeLists, p: int, bin: int)
    requires |lists| == |mid| == BINS && 0 <= bin < BINS && (forall b :: 0 <= b < BINS ==> lists[b] == [])
    requires OnlyGained(lists, mid, bin) && free == mid[bin := [p] + mid[bin]]
    ensures InFree(free, bin, p) && forall b, a :: InFree(free, b, a) ==> b == bin
  {
    forall b, a | InFree(free, b, a) ensures b == bin {
      assert b != bin ==> InFree(mid, b, a);
      assert b != bin && InFree(mid, b, a) ==> InFree(lists, b, a);
    }
  }

  lemma BinZeroIff(T: Tables, O: Owners, free: FreeLists, live: Live, main: int, p: int, bin: int)
    requires TablesOk(T, O) && LedgerOk(T, O, free, live, {}) && live == map[] && Base(p) == main
    requires InFree(free, bin, p) && forall b, a :: InFree(free, b, a) ==> b == bin
    ensures HasBinZero(T, O, main) <==> bin == 0
  {
    hide RunOf, TablesOk, SlotAt, Base, BinSize;
    assert IsSlot(T, O, p, bin);
    assert bin == 0 ==> IsBinZero(RunOf(T, O, p));
    forall a | Base(a) == main && IsBinZero(RunOf(T, O, a)) ensures bin == 0 {
      var r := RunOf(T, O, a).start;
      RunSpan(T, O, a);
      FirstSlot(r, 0);
      SlotHome(T, O, r, 0, r);
      assert IsSlot(T, O, r, 0);
      assert InFree(free, 0, r);
    }
  }

  lemma FirstSlot(r: int, bin: int)
    requires 0 <= bin < BINS
    ensures SlotAt(r, bin, r)
  {
    FirstOffset(bin);
  }
}
