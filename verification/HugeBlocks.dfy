/** The list of huge blocks, words inside blocks, and what an info word says about a block. */
module HugeBlocks {
  import opened Sizes
  import opened PageBits
  import opened Chunks
  import opened Rings
  import opened Blocks
  import opened Ledger
  import opened Memory
  import opened Regions
  import opened Steps
  import opened Sweep
  import opened Slots
  import opened Safety

  // ---- words inside blocks ----

  /** A word of a block belongs to no other block and is at no free slot. */
  lemma WordApart(T: Tables, O: Owners, free: FreeLists, live: Live, regions: RegionMap, ring: seq<int>,
                  cache: seq<int>, huge: seq<HugeEntry>, loose: RegionMap, p: int, w: int)
    requires TablesOk(T, O) && LedgerOk(T, O, free, live, {}) && OwnersAre(O, ring) && HugeLedger(huge, live)
    requires RegionsOk(regions, ring, cache, huge, loose) && InBlock(live, p, w)
    ensures forall a :: a != p ==> !InBlock(live, a, w)
    ensures forall b :: !InFree(free, b, w)
  {
    hide *;
    forall a | a != p
      ensures !InBlock(live, a, w)
    {
      if InBlock(live, a, w) {
        LiveApart(T, O, free, live, regions, ring, cache, huge, loose, a, p, w);
      }
    }
    forall b
      ensures !InFree(free, b, w)
    {
      if InFree(free, b, w) {
        FreeApart(T, O, free, live, {}, regions, ring, cache, huge, loose, b, w);
        OutOfAt(live, p, w);
      }
    }
  }

  lemma OutOfAt(live: Live, p: int, w: int)
    requires OutOf(live, w)
    ensures !InBlock(live, p, w)
  {}

  /** Writing a word of a block leaves the chains and the other blocks alone. */
  lemma WriteInside(mem: Words, heads: seq<int>, free: FreeLists, live: Live, p: int, w: int, v: int)
    requires ChainsOk(mem, heads, free) && InBlock(live, p, w)
    requires (forall a :: a != p ==> !InBlock(live, a, w)) && forall b :: !InFree(free, b, w)
    ensures ChainsOk(mem[w := v], heads, free) && SameBlocks(mem, mem[w := v], live - {p})
  {
    var mem' := mem[w := v];
    forall b | 0 <= b < BINS
      ensures ChainOk(mem', heads[b], free[b])
    {
      assert !InFree(free, b, w);
      ChainFrame(mem, mem', heads[b], free[b]);
    }
    forall a, x | InBlock(live - {p}, a, x)
      ensures Rd(mem', x) == Rd(mem, x)
    {
      assert InBlock(live, a, x);
    }
  }

  // ---- the list ----

  lemma HugeStart(mem: Words, head: int, huge: seq<HugeEntry>)
    requires HugeChain(mem, head, huge)
    ensures head == if |huge| > 0 then huge[0].node else 0
    ensures |huge| > 0 ==> huge[0].node != 0
  {}

  lemma {:induction false} HugeAt(mem: Words, head: int, huge: seq<HugeEntry>, k: nat)
    requires HugeChain(mem, head, huge) && k < |huge|
    ensures huge[k].node != 0 && Rd(mem, huge[k].node) == huge[k].ptr && Rd(mem, huge[k].node + 8) == huge[k].size
    ensures Rd(mem, huge[k].node + 16) == if k + 1 < |huge| then huge[k + 1].node else 0
    ensures head == huge[0].node
    decreases k
  {
    if k > 0 {
      HugeAt(mem, Rd(mem, head + 16), huge[1..], k - 1);
    } else {
      HugeStart(mem, Rd(mem, head + 16), huge[1..]);
    }
  }

  /** A new entry in front. */
  lemma HugeCons(mem: Words, mem': Words, head: int, huge: seq<HugeEntry>, e: HugeEntry)
    requires HugeChain(mem', head, huge) && e.node != 0
    requires mem == mem'[e.node := e.ptr][e.node + 8 := e.size][e.node + 16 := head]
    requires HugeChain(mem, head, huge)
    ensures HugeChain(mem, e.node, [e] + huge)
  {
    assert ([e] + huge)[1..] == huge;
  }

  /** Nodes of different entries do not share words. */
  ghost predicate NodesApart(huge: seq<HugeEntry>) {
    forall i, j :: 0 <= i < j < |huge| ==> huge[i].node + 24 <= huge[j].node || huge[j].node + 24 <= huge[i].node
  }

  lemma NodesApartRest(huge: seq<HugeEntry>)
    requires NodesApart(huge) && huge != []
    ensures NodesApart(huge[1..])
    ensures forall e :: e in huge[1..] ==> e.node + 24 <= huge[0].node || huge[0].node + 24 <= e.node
  {
    forall e | e in huge[1..]
      ensures e.node + 24 <= huge[0].node || huge[0].node + 24 <= e.node
    {
      var i :| 0 <= i < |huge[1..]| && huge[1..][i] == e;
      assert e == huge[i + 1];
    }
  }

  /** A word of the first node is written: the rest of the list reads as before. */
  lemma RestKept(mem: Words, huge: seq<HugeEntry>, d: int, v: int, rest: seq<HugeEntry>, head: int)
    requires NodesApart(huge) && huge != [] && 0 <= d < 24 && HugeChain(mem, head, rest)
    requires forall e :: e in rest ==> e in huge[1..]
    ensures HugeChain(mem[huge[0].node + d := v], head, rest)
  {
    hide HugeChain;
    NodesApartRest(huge);
    HugeFrame(mem, mem[huge[0].node + d := v], head, rest);
  }

  /** Entry k is taken out: the link before it now leads past it. */
  lemma {:induction false} HugeCut(mem: Words, head: int, huge: seq<HugeEntry>, k: nat)
    requires HugeChain(mem, head, huge) && NodesApart(huge) && k < |huge|
    ensures k == 0 ==> HugeChain(mem, Rd(mem, huge[0].node + 16), Cut(huge, 0))
    ensures k > 0 ==> HugeChain(mem[huge[k - 1].node + 16 := Rd(mem, huge[k].node + 16)], head, Cut(huge, k))
    decreases k
  {
    NodesApartRest(huge);
    if k == 0 {
      assert Cut(huge, 0) == huge[1..];
    } else if k == 1 {
      SecondCut(mem, head, huge);
    } else {
      HugeCut(mem, Rd(mem, head + 16), huge[1..], k - 1);
      CutRest(huge, k);
      FirstKept(mem, head, huge, huge[k - 1].node + 16, Rd(mem, huge[k].node + 16), Cut(huge[1..], k - 1));
    }
  }

  lemma CutRest(huge: seq<HugeEntry>, k: nat)
    requires 1 < k < |huge|
    ensures Cut(huge, k) == [huge[0]] + Cut(huge[1..], k - 1)
    ensures huge[1..][k - 2] == huge[k - 1] && huge[1..][k - 1] == huge[k] && huge[k - 1] in huge[1..]
  {
    assert huge[1..][k - 2] == huge[k - 1];
  }

  lemma FirstKept(mem: Words, head: int, huge: seq<HugeEntry>, w: int, v: int, list: seq<HugeEntry>)
    requires HugeChain(mem, head, huge) && huge != [] && (w < huge[0].node || w >= huge[0].node + 24)
    requires HugeChain(mem[w := v], Rd(mem, head + 16), list)
    ensures HugeChain(mem[w := v], head, [huge[0]] + list)
  {
    assert ([huge[0]] + list)[1..] == list;
  }

  lemma SecondCut(mem: Words, head: int, huge: seq<HugeEntry>)
    requires HugeChain(mem, head, huge) && NodesApart(huge) && |huge| > 1
    ensures HugeChain(mem[huge[0].node + 16 := Rd(mem, huge[1].node + 16)], head, Cut(huge, 1))
  {
    var v, rest := Rd(mem, huge[1].node + 16), huge[2..];
    assert HugeChain(mem, Rd(mem, head + 16), huge[1..]);
    assert huge[1..][1..] == rest && HugeChain(mem, v, rest);
    RestKept(mem, huge, 16, v, rest, v);
    assert Cut(huge, 1) == [huge[0]] + rest && Cut(huge, 1)[1..] == rest;
  }

  lemma {:induction false} HugeResize(mem: Words, head: int, huge: seq<HugeEntry>, k: nat, size: int)
    requires HugeChain(mem, head, huge) && NodesApart(huge) && k < |huge|
    ensures HugeChain(mem[huge[k].node + 8 := size], head, Resized(huge, k, size))
    decreases k
  {
    NodesApartRest(huge);
    if k == 0 {
      assert Resized(huge, 0, size)[1..] == huge[1..];
      RestKept(mem, huge, 8, size, huge[1..], Rd(mem, head + 16));
    } else {
      HugeResize(mem, Rd(mem, head + 16), huge[1..], k - 1, size);
      assert Resized(huge, k, size)[1..] == Resized(huge[1..], k - 1, size);
      assert huge[1..][k - 1] == huge[k] && huge[k] in huge[1..];
    }
  }

  lemma NodesAreApart(T: Tables, O: Owners, free: FreeLists, live: Live, huge: seq<HugeEntry>)
    requires TablesOk(T, O) && LedgerOk(T, O, free, live, {}) && HugeLedger(huge, live)
    ensures NodesApart(huge)
  {
    hide TablesOk, LedgerOk, Occupies;
    forall i, j | 0 <= i < j < |huge|
      ensures huge[i].node + 24 <= huge[j].node || huge[j].node + 24 <= huge[i].node
    {
      assert EntryLive(live, huge[i]) && EntryLive(live, huge[j]);
      var a, b := huge[i].node, huge[j].node;
      LiveOccupies(T, O, free, live, {}, a);
      LiveOccupies(T, O, free, live, {}, b);
      if a < b {
        Apart(T, O, a, 24, b, 24);
      } else {
        Apart(T, O, b, 24, a, 24);
      }
    }
  }

  // ---- the ledgers ----

  lemma LooseNotLive(T: Tables, O: Owners, free: FreeLists, live: Live, regions: RegionMap, ring: seq<int>, cache: seq<int>,
                     huge: seq<HugeEntry>, loose: RegionMap, p: int)
    requires TablesOk(T, O) && LedgerOk(T, O, free, live, {}) && OwnersAre(O, ring) && HugeLedger(huge, live)
    requires RegionsOk(regions, ring, cache, huge, loose) && p in loose
    ensures p !in live
  {
    hide TablesOk, LedgerOk, Occupies, BlockSize, RunOf, Disjoint, HoldsChunks, HoldsHuge;
    HugeNotLoose(live, regions, ring, cache, huge, loose, p);
    if p in live {
      LiveOccupies(T, O, free, live, {}, p);
      BasesAreFree(T, O);
      LooseAligned(regions, ring, cache, huge, loose, p);
      OccupiedRun(T, O, p, BlockSize(live[p]));
    }
  }

  lemma HugeNotLoose(live: Live, regions: RegionMap, ring: seq<int>, cache: seq<int>, huge: seq<HugeEntry>, loose: RegionMap, p: int)
    requires HugeLedger(huge, live) && RegionsOk(regions, ring, cache, huge, loose) && p in loose
    ensures p in live ==> !live[p].Huge?
  {
    assert p in live && live[p].Huge? ==> IsPtr(huge, p);
  }

  lemma LooseAligned(regions: RegionMap, ring: seq<int>, cache: seq<int>, huge: seq<HugeEntry>, loose: RegionMap, p: int)
    requires RegionsOk(regions, ring, cache, huge, loose) && p in loose
    ensures p in regions && p > 0 && p % CHUNK_SIZE == 0
  {}

  lemma OccupiedRun(T: Tables, O: Owners, a: int, size: int)
    requires TablesOk(T, O) && Occupies(T, O, a, size)
    ensures RunOf(T, O, a) != NoRun
  {
    hide *;
    Extent(T, O, a, size);
    SomeRun(RunOf(T, O, a));
  }

  lemma SomeRun(ref: RunRef)
    requires ref.RunRef?
    ensures ref != NoRun
  {}

  lemma LedgerAddHuge(T: Tables, O: Owners, free: FreeLists, live: Live, p: int, size: int)
    requires TablesOk(T, O) && LedgerOk(T, O, free, live, {}) && p !in live && p > 0 && p % CHUNK_SIZE == 0
    ensures LedgerOk(T, O, free, live[p := Huge(size)], {})
  {
    hide RunOf, TablesOk, SlotAt;
    BasesAreFree(T, O);
    var live' := live[p := Huge(size)];
    forall a, bin | IsSlot(T, O, a, bin)
      ensures InFree(free, bin, a) || LiveAs(live', a, Small(bin)) || Start(RunOf(T, O, a)) in {}
    {}
    forall a | a in live'
      ensures LivePlaced(T, O, live', {}, a)
    {
      if a != p { assert LivePlaced(T, O, live, {}, a); }
    }
    forall a, n | IsLarge(T, O, a, n)
      ensures LiveAs(live', a, Large(n))
    {}
    forall bin, a | InFree(free, bin, a)
      ensures a !in live'
    {
      assert IsSlot(T, O, a, bin);
    }
  }

  lemma LedgerDropHuge(T: Tables, O: Owners, free: FreeLists, live: Live, p: int)
    requires LedgerOk(T, O, free, live, {}) && p in live && live[p].Huge?
    ensures LedgerOk(T, O, free, live - {p}, {})
  {
    hide RunOf, SlotAt;
    var live' := live - {p};
    forall a, bin | IsSlot(T, O, a, bin)
      ensures InFree(free, bin, a) || LiveAs(live', a, Small(bin)) || Start(RunOf(T, O, a)) in {}
    {}
    forall a | a in live'
      ensures LivePlaced(T, O, live', {}, a)
    {
      assert LivePlaced(T, O, live, {}, a);
    }
    forall a, n | IsLarge(T, O, a, n)
      ensures LiveAs(live', a, Large(n))
    {}
  }

  lemma LedgerResizeHuge(T: Tables, O: Owners, free: FreeLists, live: Live, p: int, size: int)
    requires LedgerOk(T, O, free, live, {}) && p in live && live[p].Huge?
    ensures LedgerOk(T, O, free, live[p := Huge(size)], {})
  {
    hide RunOf, SlotAt;
    var live' := live[p := Huge(size)];
    assert LivePlaced(T, O, live, {}, p);
    forall a, bin | IsSlot(T, O, a, bin)
      ensures InFree(free, bin, a) || LiveAs(live', a, Small(bin)) || Start(RunOf(T, O, a)) in {}
    {}
    forall a | a in live'
      ensures LivePlaced(T, O, live', {}, a)
    {
      if a != p { assert LivePlaced(T, O, live, {}, a); }
    }
    forall a, n | IsLarge(T, O, a, n)
      ensures LiveAs(live', a, Large(n))
    {}
  }

  lemma EntriesAdd(huge: seq<HugeEntry>, live: Live, e: HugeEntry)
    requires HugeLedger(huge, live) && LiveAs(live, e.node, Small(NODE_BIN)) && !IsNode(huge, e.node)
    requires e.ptr !in live && e.size > 0
    ensures HugeLedger([e] + huge, live[e.ptr := Huge(e.size)])
  {
    var huge', live' := [e] + huge, live[e.ptr := Huge(e.size)];
    PtrsCons(e, huge);
    forall x | x in huge'
      ensures EntryLive(live', x)
    {
      if x != e { assert EntryLive(live, x); }
    }
    forall i, j | 0 <= i < j < |huge'|
      ensures huge'[i].node != huge'[j].node && huge'[i].ptr != huge'[j].ptr
    {
      assert huge'[j] in huge && EntryLive(live, huge'[j]);
      if i == 0 {
        assert IsNode(huge, huge'[j].node);
      }
    }
  }

  lemma EntriesCut(huge: seq<HugeEntry>, live: Live, k: nat)
    requires HugeLedger(huge, live) && k < |huge|
    ensures HugeLedger(Cut(huge, k), live - {huge[k].ptr}) && !IsNode(Cut(huge, k), huge[k].node)
    ensures forall a :: IsNode(Cut(huge, k), a) ==> IsNode(huge, a)
  {
    var huge', live' := Cut(huge, k), live - {huge[k].ptr};
    PtrsCut(huge, k);
    forall i | 0 <= i < |huge'|
      ensures huge'[i].node != huge[k].node
    {
      assert huge'[i] == huge[if i < k then i else i + 1];
    }
    forall x | x in huge'
      ensures EntryLive(live', x)
    {
      assert EntryLive(live, x) && EntryLive(live, huge[k]) && IsPtr(huge', x.ptr);
    }
    forall i, j | 0 <= i < j < |huge'|
      ensures huge'[i].node != huge'[j].node && huge'[i].ptr != huge'[j].ptr
    {
      assert huge'[i] == huge[if i < k then i else i + 1] && huge'[j] == huge[if j < k then j else j + 1];
    }
  }

  lemma NodesResized(huge: seq<HugeEntry>, k: nat, size: int)
    requires k < |huge|
    ensures forall a :: IsNode(Resized(huge, k, size), a) <==> IsNode(huge, a)
  {
    var huge' := Resized(huge, k, size);
    forall a
      ensures IsNode(huge', a) <==> IsNode(huge, a)
    {
      if IsNode(huge, a) {
        var x :| x in huge && x.node == a;
        var i :| 0 <= i < |huge| && huge[i] == x;
        assert huge'[i] in huge';
      }
      if IsNode(huge', a) {
        var x :| x in huge' && x.node == a;
        var i :| 0 <= i < |huge| && huge'[i] == x;
        assert huge[i] in huge;
      }
    }
  }

  lemma EntriesResized(huge: seq<HugeEntry>, live: Live, k: nat, size: int)
    requires HugeLedger(huge, live) && k < |huge| && size > 0
    ensures HugeLedger(Resized(huge, k, size), live[huge[k].ptr := Huge(size)])
    ensures forall a :: IsNode(Resized(huge, k, size), a) <==> IsNode(huge, a)
  {
    hide IsNode, IsPtr;
    var huge', live' := Resized(huge, k, size), live[huge[k].ptr := Huge(size)];
    PtrsResized(huge, k, size);
    NodesResized(huge, k, size);
    EntryFacts(huge, live, k);
    forall x | x in huge'
      ensures EntryLive(live', x)
    {
      var i :| 0 <= i < |huge'| && huge'[i] == x;
      EntryFacts(huge, live, i);
    }
  }

  /** A block that is no list node may go. */
  lemma NotNode(huge: seq<HugeEntry>, live: Live, p: int)
    requires HugeLedger(huge, live) && p in live && !live[p].Huge? && !IsNode(huge, p)
    ensures HugeLedger(huge, live - {p})
  {
    forall e | e in huge
      ensures EntryLive(live - {p}, e)
    {
      assert EntryLive(live, e);
      assert e.node != p;
    }
  }

  lemma {:induction false} TotalCut(huge: seq<HugeEntry>, k: nat)
    requires k < |huge|
    ensures HugeTotal(Cut(huge, k)) == HugeTotal(huge) - huge[k].size
    decreases k
  {
    if k == 0 {
      assert Cut(huge, 0) == huge[1..];
    } else {
      TotalCut(huge[1..], k - 1);
      assert Cut(huge, k)[1..] == Cut(huge[1..], k - 1);
    }
  }

  lemma {:induction false} TotalResized(huge: seq<HugeEntry>, k: nat, size: int)
    requires k < |huge|
    ensures HugeTotal(Resized(huge, k, size)) == HugeTotal(huge) - huge[k].size + size
    decreases k
  {
    if k == 0 {
      assert Resized(huge, 0, size)[1..] == huge[1..];
    } else {
      TotalResized(huge[1..], k - 1, size);
      assert Resized(huge, k, size)[1..] == Resized(huge[1..], k - 1, size);
    }
  }

  // ---- from an address to the kind of block ----

  /** The block an info word speaks of. */
  function KindOf(info: Info): Block {
    match info
    case SRun(bin, _) => Small(bin)
    case NRun(bin, _) => Small(bin)
    case LRun(n) => Large(n)
    case FRun => Large(0)
  }

  /** The info word of the page a block starts in tells its kind. */
  lemma InfoTells(T: Tables, O: Owners, free: FreeLists, live: Live, p: int)
    requires TablesOk(T, O) && LedgerOk(T, O, free, live, {}) && p in live && !live[p].Huge?
    ensures Base(p) in T && Base(p) in O && |T[Base(p)].map_| == PAGES && KindOf(T[Base(p)].map_[PageNum(p)]) == live[p]
    ensures p % CHUNK_SIZE != 0 && !T[Base(p)].map_[PageNum(p)].FRun?
    ensures live[p].Small? ==> 0 <= live[p].bin < BINS
  {
    hide RunOf, TablesOk, Base, PageNum, SlotAt, StartAddress;
    BasesAreFree(T, O);
    assert LivePlaced(T, O, live, {}, p);
    RunSpan(T, O, p);
    InfoAt(T, O, p);
  }

  // ---- blocks the user sees ----

  /** All blocks but the nodes of the list of huge blocks. */
  ghost function UserBlocks(live: Live, huge: seq<HugeEntry>): Live {
    map a | a in live && !IsNode(huge, a) :: live[a]
  }

  lemma NodesLive(huge: seq<HugeEntry>, live: Live, a: int)
    requires HugeLedger(huge, live) && IsNode(huge, a)
    ensures LiveAs(live, a, Small(NODE_BIN)) && a in live
  {
    var e :| e in huge && e.node == a;
    assert EntryLive(live, e);
  }

  lemma UserAdd(huge: seq<HugeEntry>, live: Live, p: int, b: Block)
    requires HugeLedger(huge, live) && p !in live
    ensures UserBlocks(live[p := b], huge) == UserBlocks(live, huge)[p := b] && !IsNode(huge, p) && p !in UserBlocks(live, huge)
  {
    assert !IsNode(huge, p) by {
      if IsNode(huge, p) { NodesLive(huge, live, p); }
    }
  }

  lemma UserDrop(huge: seq<HugeEntry>, live: Live, p: int)
    ensures UserBlocks(live - {p}, huge) == UserBlocks(live, huge) - {p}
  {}

  lemma UserLess(huge: seq<HugeEntry>, live: Live)
    ensures forall a :: a in UserBlocks(live, huge) ==> a in live && UserBlocks(live, huge)[a] == live[a]
    ensures forall a :: a in UserBlocks(live, huge) <==> a in live && !IsNode(huge, a)
  {}

  lemma UserSame(mem: Words, mem': Words, huge: seq<HugeEntry>, live: Live, node: int)
    requires SameBlocks(mem, mem', live - {node}) && IsNode(huge, node)
    ensures SameBlocks(mem, mem', UserBlocks(live, huge))
  {
    SameBlocksLess(mem, mem', live - {node}, UserBlocks(live, huge));
  }

  lemma UserSameAll(mem: Words, mem': Words, huge: seq<HugeEntry>, live: Live)
    requires SameBlocks(mem, mem', live)
    ensures SameBlocks(mem, mem', UserBlocks(live, huge))
  {
    SameBlocksLess(mem, mem', live, UserBlocks(live, huge));
  }

  /** The words of a list node. */
  lemma NodeWords(live: Live, node: int)
    requires LiveAs(live, node, Small(NODE_BIN))
    ensures InBlock(live, node, node) && InBlock(live, node, node + 8) && InBlock(live, node, node + 16)
    ensures node in live && !live[node].Huge? && live[node] == Small(NODE_BIN) && 0 <= NODE_BIN < BINS
  {}

  /** Filling in a fresh node. */
  lemma FillNode(T: Tables, O: Owners, free: FreeLists, live: Live, regions: RegionMap, ring: seq<int>, cache: seq<int>,
                 huge: seq<HugeEntry>, loose: RegionMap, mem: Words, heads: seq<int>, head: int, e: HugeEntry)
    requires TablesOk(T, O) && LedgerOk(T, O, free, live, {}) && OwnersAre(O, ring) && HugeLedger(huge, live)
    requires RegionsOk(regions, ring, cache, huge, loose) && ChainsOk(mem, heads, free) && HugeChain(mem, head, huge)
    requires LiveAs(live, e.node, Small(NODE_BIN)) && !IsNode(huge, e.node)
    ensures var mem' := mem[e.node := e.ptr][e.node + 8 := e.size][e.node + 16 := head];
            && ChainsOk(mem', heads, free) && SameBlocks(mem, mem', live - {e.node}) && HugeChain(mem', e.node, [e] + huge)
    ensures e.node != 0
  {
    hide *;
    var p := e.node;
    NodeWords(live, p);
    LiveNotZero(T, O, free, live, p);
    WordApart(T, O, free, live, regions, ring, cache, huge, loose, p, p);
    WordApart(T, O, free, live, regions, ring, cache, huge, loose, p, p + 8);
    WordApart(T, O, free, live, regions, ring, cache, huge, loose, p, p + 16);
    var m1 := mem[p := e.ptr];
    var m2 := m1[p + 8 := e.size];
    var m3 := m2[p + 16 := head];
    WriteInside(mem, heads, free, live, p, p, e.ptr);
    WriteInside(m1, heads, free, live, p, p + 8, e.size);
    WriteInside(m2, heads, free, live, p, p + 16, head);
    SameBlocksTrans(mem, m1, m2, live - {p});
    SameBlocksTrans(mem, m2, m3, live - {p});
    NotNode(huge, live, p);
    HugeKept(mem, m3, head, huge, live - {p});
    HugeCons(m3, mem, head, huge, e);
  }

  /** Unlinking entry k: what the one write does. */
  lemma UnlinkNode(T: Tables, O: Owners, free: FreeLists, live: Live, regions: RegionMap, ring: seq<int>, cache: seq<int>,
                   huge: seq<HugeEntry>, loose: RegionMap, mem: Words, heads: seq<int>, k: nat, v: int)
    requires TablesOk(T, O) && LedgerOk(T, O, free, live, {}) && OwnersAre(O, ring) && HugeLedger(huge, live)
    requires RegionsOk(regions, ring, cache, huge, loose) && ChainsOk(mem, heads, free) && 0 <= k < |huge|
    ensures ChainsOk(mem[huge[k].node + 16 := v], heads, free) && ChainsOk(mem[huge[k].node + 8 := v], heads, free)
    ensures SameBlocks(mem, mem[huge[k].node + 16 := v], UserBlocks(live, huge))
    ensures SameBlocks(mem, mem[huge[k].node + 8 := v], UserBlocks(live, huge))
  {
    hide *;
    EntryFacts(huge, live, k);
    var p := huge[k].node;
    NodeWords(live, p);
    WordApart(T, O, free, live, regions, ring, cache, huge, loose, p, p + 16);
    WordApart(T, O, free, live, regions, ring, cache, huge, loose, p, p + 8);
    WriteInside(mem, heads, free, live, p, p + 16, v);
    WriteInside(mem, heads, free, live, p, p + 8, v);
    UserSame(mem, mem[p + 16 := v], huge, live, p);
    UserSame(mem, mem[p + 8 := v], huge, live, p);
  }

  lemma EntryFacts(huge: seq<HugeEntry>, live: Live, k: nat)
    requires HugeLedger(huge, live) && k < |huge|
    ensures LiveAs(live, huge[k].node, Small(NODE_BIN)) && LiveAs(live, huge[k].ptr, Huge(huge[k].size)) && huge[k].size > 0
    ensures huge[k].ptr in live && live[huge[k].ptr].Huge?
    ensures IsNode(huge, huge[k].node) && IsPtr(huge, huge[k].ptr)
  {
    var e := huge[k];
    assert e in huge && EntryLive(live, e);
  }

  lemma PtrsDistinct(huge: seq<HugeEntry>, live: Live)
    requires HugeLedger(huge, live)
    ensures forall i, j :: 0 <= i < j < |huge| ==> huge[i].ptr != huge[j].ptr
  {}

  /** None of the first k entries is the block's. */
  ghost predicate Passed(huge: seq<HugeEntry>, k: int, ptr: int) {
    0 <= k <= |huge| && forall i :: 0 <= i < k ==> huge[i].ptr != ptr
  }

  lemma PassedNone(huge: seq<HugeEntry>, ptr: int)
    ensures Passed(huge, 0, ptr)
  {}

  lemma PassedNext(huge: seq<HugeEntry>, k: int, ptr: int)
    requires Passed(huge, k, ptr) && k < |huge| && huge[k].ptr != ptr
    ensures Passed(huge, k + 1, ptr)
  {}

  lemma PassedAll(huge: seq<HugeEntry>, k: int, ptr: int)
    requires Passed(huge, k, ptr) && k == |huge|
    ensures !IsPtr(huge, ptr)
  {}

  lemma NodeAfterCut(huge: seq<HugeEntry>, live: Live, k: nat)
    requires HugeLedger(huge, live) && k < |huge|
    ensures LiveAs(live - {huge[k].ptr}, huge[k].node, Small(NODE_BIN))
    ensures HugeLedger(Cut(huge, k), live - {huge[k].ptr} - {huge[k].node})
  {
    hide HugeLedger, Cut;
    EntryFacts(huge, live, k);
    EntriesCut(huge, live, k);
    NotNode(Cut(huge, k), live - {huge[k].ptr}, huge[k].node);
  }

  lemma RegionOfEntry(regions: RegionMap, ring: seq<int>, cache: seq<int>, huge: seq<HugeEntry>, loose: RegionMap, k: nat)
    requires RegionsOk(regions, ring, cache, huge, loose) && k < |huge|
    ensures huge[k].ptr in regions && regions[huge[k].ptr] == huge[k].size
  {
    var e := huge[k];
    assert e in huge;
  }

  lemma NodeBin()
    ensures 0 <= NODE_SIZE <= MAX_SMALL_SIZE && SizeToBin(NODE_SIZE) == NODE_BIN && 0 <= NODE_BIN < BINS && BinSize(NODE_BIN) == NODE_SIZE == 3 * 8
  {}

  // ---- sizes ----

  const REAL_PAGE_SIZE: int := 4096

  /** A size rounded up to whole system pages. */
  function WholePages(bytes: int): int {
    (bytes + REAL_PAGE_SIZE - 1) / REAL_PAGE_SIZE * REAL_PAGE_SIZE
  }

  lemma WholePagesFacts(bytes: int)
    ensures bytes <= WholePages(bytes) < bytes + 4096 && WholePages(bytes) % 4096 == 0
  {}

  lemma HugeTotalCons(huge: seq<HugeEntry>, e: HugeEntry)
    ensures HugeTotal([e] + huge) == HugeTotal(huge) + e.size
  {
    assert ([e] + huge)[1..] == huge;
  }

  lemma BlockSizes(bytes: int)
    ensures BlockSize(Huge(bytes)) == bytes && BlockSize(Small(NODE_BIN)) == NODE_SIZE
  {}

  lemma UserAddHuge(live: Live, huge: seq<HugeEntry>, node: int, ptr: int, bytes: int)
    requires HugeLedger(huge, live) && node !in live && ptr !in live && node != ptr
    ensures UserBlocks(live[node := Small(NODE_BIN)][ptr := Huge(bytes)], [HugeEntry(node, ptr, bytes)] + huge)
            == UserBlocks(live, huge)[ptr := Huge(bytes)]
  {
    var e := HugeEntry(node, ptr, bytes);
    forall a
      ensures IsNode([e] + huge, a) <==> IsNode(huge, a) || a == node
    {
      if IsNode(huge, a) {
        var x :| x in huge && x.node == a;
        assert x in [e] + huge;
      }
      assert e in [e] + huge;
    }
    if IsNode(huge, ptr) { NodesLive(huge, live, ptr); }
  }

  lemma MainMore(live: Live, live': Live, main: int)
    requires forall a :: a in live ==> a in live' && live'[a] == live[a]
    ensures MainInUse(live, main) ==> MainInUse(live', main)
  {
    hide Base;
    if MainInUse(live, main) {
      var a :| a in live && !live[a].Huge? && Base(a) == main;
      assert a in live';
    }
  }

  lemma LooseAgain(loose: RegionMap, p: int, bytes: int)
    requires p !in loose
    ensures loose[p := bytes] - {p} == loose
  {}

  /** What a new huge block and its node add up to. */
  lemma HugeBooked(live: Live, huge: seq<HugeEntry>, node: int, ptr: int, bytes: int, main: int)
    requires HugeLedger(huge, live) && node !in live && ptr !in live && node != ptr
    ensures var live' := live[node := Small(NODE_BIN)][ptr := Huge(bytes)]; var huge' := [HugeEntry(node, ptr, bytes)] + huge;
            && Total(live') == Total(live) + NODE_SIZE + bytes && HugeTotal(huge') == HugeTotal(huge) + bytes
            && UserBlocks(live', huge') == UserBlocks(live, huge)[ptr := Huge(bytes)]
            && (MainInUse(live, main) ==> MainInUse(live', main))
  {
    hide *;
    TotalAdd(live, node, Small(NODE_BIN));
    TotalAdd(live[node := Small(NODE_BIN)], ptr, Huge(bytes));
    HugeTotalCons(huge, HugeEntry(node, ptr, bytes));
    BlockSizes(bytes);
    UserAddHuge(live, huge, node, ptr, bytes);
    MainMore(live, live[node := Small(NODE_BIN)][ptr := Huge(bytes)], main);
  }

  // ---- freeing ----

  ghost predicate LiveHuge(live: Live, p: int) {
    p in live && live[p].Huge?
  }

  lemma HugeIsPtr(huge: seq<HugeEntry>, live: Live, p: int)
    requires HugeLedger(huge, live) && LiveHuge(live, p)
    ensures IsPtr(huge, p)
  {}

  lemma KindIs(info: Info, live: Live, p: int)
    requires p in live && KindOf(info) == live[p] && !info.FRun?
    ensures info.SRun? ==> LiveAs(live, p, Small(info.bin)) && live[p].Small?
    ensures info.NRun? ==> LiveAs(live, p, Small(info.bin)) && live[p].Small?
    ensures info.LRun? ==> LiveAs(live, p, Large(info.pages)) && live[p].Large? && BlockSize(live[p]) == info.pages * PAGE_SIZE
    ensures live[p].Small? && 0 <= live[p].bin < BINS ==> BlockSize(live[p]) == BinSize(live[p].bin)
  {}

  lemma SmallNode(live: Live, node: int)
    requires LiveAs(live, node, Small(NODE_BIN))
    ensures node in live && !live[node].Huge? && !live[node].Large? && BlockSize(live[node]) == NODE_SIZE && live[node].Small?
  {}

  lemma NodeCut(huge: seq<HugeEntry>, live: Live, k: nat, a: int)
    requires HugeLedger(huge, live) && k < |huge|
    ensures IsNode(huge, a) <==> IsNode(Cut(huge, k), a) || a == huge[k].node
  {
    EntriesCut(huge, live, k);
    assert huge[k] in huge;
    if IsNode(huge, a) && a != huge[k].node {
      var e :| e in huge && e.node == a;
      var i :| 0 <= i < |huge| && huge[i] == e;
      assert Cut(huge, k)[if i < k then i else i - 1] == e;
    }
  }

  /** What a huge block and its node leave behind. */
  lemma HugeFreed(live: Live, huge: seq<HugeEntry>, k: nat)
    requires HugeLedger(huge, live) && k < |huge|
    ensures var live' := live - {huge[k].ptr} - {huge[k].node};
            && Total(live') == Total(live) - NODE_SIZE - huge[k].size
            && UserBlocks(live', Cut(huge, k)) == UserBlocks(live, huge) - {huge[k].ptr}
    ensures HugeTotal(Cut(huge, k)) == HugeTotal(huge) - huge[k].size
    ensures LiveAs(live, huge[k].ptr, Huge(huge[k].size)) && huge[k].size > 0
  {
    hide HugeLedger, Cut, Total, IsNode;
    var e := huge[k];
    EntryFacts(huge, live, k);
    NodeAfterCut(huge, live, k);
    TotalDrop(live, e.ptr);
    TotalDrop(live - {e.ptr}, e.node);
    BlockSizes(e.size);
    TotalCut(huge, k);
    forall a
      ensures IsNode(huge, a) <==> IsNode(Cut(huge, k), a) || a == e.node
    {
      NodeCut(huge, live, k, a);
    }
  }

  /** Two writes, one next to the user's blocks and one next to all that is left. */
  lemma FreedSame(m0: Words, m1: Words, m2: Words, live0: Live, live: Live, huge0: seq<HugeEntry>, huge: seq<HugeEntry>, ptr: int)
    requires SameBlocks(m0, m1, UserBlocks(live0, huge0)) && SameBlocks(m1, m2, live)
    requires UserBlocks(live, huge) == UserBlocks(live0, huge0) - {ptr}
    ensures SameBlocks(m0, m2, UserBlocks(live, huge))
  {
    hide IsNode;
    UserLess(huge, live);
    SameBlocksLess(m0, m1, UserBlocks(live0, huge0), UserBlocks(live, huge));
    SameBlocksLess(m1, m2, live, UserBlocks(live, huge));
    SameBlocksTrans(m0, m1, m2, UserBlocks(live, huge));
  }

  lemma KindByPlace(T: Tables, O: Owners, free: FreeLists, live: Live, p: int)
    requires TablesOk(T, O) && LedgerOk(T, O, free, live, {})
    ensures p in live ==> p != 0 && (live[p].Huge? <==> p % CHUNK_SIZE == 0) && (live[p].Huge? <==> LiveHuge(live, p))
  {
    hide TablesOk, LedgerOk, RunOf;
    if p in live {
      if live[p].Huge? {
        HugePlace(T, O, free, live, p);
      } else {
        LiveNotZero(T, O, free, live, p);
        InfoTells(T, O, free, live, p);
      }
    }
  }

  lemma HugePlace(T: Tables, O: Owners, free: FreeLists, live: Live, p: int)
    requires LedgerOk(T, O, free, live, {}) && p in live && live[p].Huge?
    ensures p > 0 && p % CHUNK_SIZE == 0
  {
    hide RunOf;
    assert LivePlaced(T, O, live, {}, p);
  }

  // ---- the block a request gets ----

  /** Pages for a large request. */
  function PageCount(bytes: int): int {
    (bytes + PAGE_SIZE - 1) / PAGE_SIZE
  }

  function BlockFor(bytes: int): Block
    requires 0 <= bytes
  {
    if bytes <= MAX_SMALL_SIZE then Small(SizeToBin(bytes))
    else if bytes <= MAX_LARGE_SIZE then Large(PageCount(bytes))
    else Huge(WholePages(bytes))
  }

  /** Requests up to the largest slot are small, those whose pages fit behind the header of a chunk large, the others huge. */
  lemma BlockKinds(bytes: int)
    requires 0 <= bytes
    ensures BlockFor(bytes).Small? <==> bytes <= BinSize(BINS - 1)
    ensures BlockFor(bytes).Large? <==> BinSize(BINS - 1) < bytes <= (PAGES - 1) * PAGE_SIZE
  {
    SizeLaw(BINS - 1);
  }

  /** A request gets at least what it asks for, in the least bin or the least number of pages. */
  lemma BlockForFits(bytes: int)
    requires 0 <= bytes
    ensures bytes <= BlockSize(BlockFor(bytes))
    ensures bytes <= MAX_SMALL_SIZE ==>
              0 <= SizeToBin(bytes) < BINS && forall bin :: 0 <= bin < SizeToBin(bytes) ==> BinSize(bin) < bytes
    ensures bytes > MAX_SMALL_SIZE ==> BlockSize(BlockFor(bytes)) < bytes + PAGE_SIZE && BlockSize(BlockFor(bytes)) % PAGE_SIZE == 0
  {
    hide BinSize, SizeToBin;
    if bytes <= MAX_SMALL_SIZE {
      BinIsLeast(bytes);
    }
  }

  lemma BlockForSmall(bytes: int)
    requires 0 <= bytes <= MAX_SMALL_SIZE
    ensures BlockFor(bytes) == Small(SizeToBin(bytes)) && 0 <= SizeToBin(bytes) < BINS && MAX_SMALL_SIZE <= MAX_LARGE_SIZE
    ensures BlockSize(Small(SizeToBin(bytes))) == BinSize(SizeToBin(bytes)) > 0
    ensures BlockFor(bytes).Small? && BlockFor(bytes).bin == SizeToBin(bytes)
  {
    hide BinSize, SizeToBin;
    BinIsLeast(bytes);
    BinFacts(SizeToBin(bytes));
  }

  lemma BlockForLarge(bytes: int)
    requires MAX_SMALL_SIZE < bytes <= MAX_LARGE_SIZE
    ensures bytes >= 0 && BlockFor(bytes) == Large(PageCount(bytes)) && 0 < PageCount(bytes) < PAGES
    ensures BlockSize(Large(PageCount(bytes))) == PageCount(bytes) * PAGE_SIZE > 0
  {}

  lemma BlockForHuge(bytes: int)
    requires 0 <= bytes && bytes > MAX_SMALL_SIZE && bytes > MAX_LARGE_SIZE
    ensures bytes > 0 && BlockFor(bytes) == Huge(WholePages(bytes))
  {}

  lemma SmallIsNotLarge(bytes: int)
    requires bytes <= MAX_SMALL_SIZE
    ensures bytes <= MAX_LARGE_SIZE
  {}

  lemma MainNow(live: Live, p: int, main: int)
    requires p in live
    ensures !live[p].Huge? && Base(p) == main ==> MainInUse(live, main)
  {}

  lemma HugeAmount(live: Live, p: int, bytes: int)
    requires LiveAs(live, p, Huge(bytes))
    ensures p in live && bytes == BlockSize(live[p])
  {}

  lemma UserNotNode(live: Live, huge: seq<HugeEntry>, p: int)
    requires HugeLedger(huge, live) && p in UserBlocks(live, huge)
    ensures p in live && !IsNode(huge, p)
  {}

  /** A change inside a block of the user leaves the list nodes alone. */
  lemma HugeKeptUser(mem: Words, mem': Words, head: int, huge: seq<HugeEntry>, live: Live, p: int)
    requires HugeChain(mem, head, huge) && HugeLedger(huge, live) && SameBlocks(mem, mem', live - {p}) && !IsNode(huge, p)
    ensures HugeChain(mem', head, huge)
  {
    hide HugeChain;
    forall e | e in huge
      ensures NodeSame(mem, mem', e.node)
    {
      assert EntryLive(live, e) && e.node != p;
      NodeInBlock(live - {p}, e.node);
    }
    HugeFrame(mem, mem', head, huge);
  }

  lemma UserAgain(users: Live, p: int, b: Block)
    requires p in users && users[p] == b
    ensures (users - {p})[p := b] == users
  {}

  lemma UsersMore(users: Live, p: int, b: Block, main: int)
    ensures MainInUse(users, main) && p !in users ==> MainInUse(users[p := b], main)
  {
    if p !in users {
      MainMore(users, users[p := b], main);
    }
  }

  lemma MainOfUsers(live: Live, huge: seq<HugeEntry>, main: int)
    ensures MainInUse(UserBlocks(live, huge), main) ==> MainInUse(live, main)
  {
    hide IsNode;
    MainMore(UserBlocks(live, huge), live, main);
  }

  // ---- the start ----

  /** The limit of a new heap: the largest signed 64-bit number. */
  const MAX_LIMIT: int := 0x7FFF_FFFF_FFFF_FFFF

  function NoSlots(): seq<int> { seq(BINS, i => 0) }

  ghost function NoLists(): FreeLists { seq(BINS, i => []) }

  lemma StartFits(chunk: int)
    requires chunk > 0 && chunk % CHUNK_SIZE == 0
    ensures |ZeroTable().map_| > 0
    ensures RingOk(map[chunk := Links(chunk, chunk, 0)], [chunk]) && ListOk(map[chunk := Links(chunk, chunk, 0)], 0, [])
    ensures Distinct([]) && |[chunk]| == 1 && [chunk][0] == chunk
    ensures HugeChain(map[], 0, []) && HugeLedger([], map[])
    ensures ChainsOk(map[], NoSlots(), NoLists())
    ensures RegionsOk(map[chunk := CHUNK_SIZE], [chunk], [], [], map[])
  {
    assert forall bin :: 0 <= bin < BINS ==> ChainOk(map[], NoSlots()[bin], NoLists()[bin]);
  }

  lemma NothingYet(chunk: int)
    requires chunk > 0 && chunk % CHUNK_SIZE == 0
    ensures |ZeroTable().map_| > 0
    ensures var T, O: Owners := map[chunk := InitTable(ZeroTable())], map[chunk := FreshOwner()];
            && TablesOk(T, O) && OwnersAre(O, [chunk]) && LedgerOk(T, O, NoLists(), map[], {}) && Quiet(T, O)
            && chunk in T && T[chunk].freePages == PAGES - FIRST_PAGE && SparesOk(T, map[chunk := Links(chunk, chunk, 0)], [])
  {
    ZeroTableFacts();
    InitTableOk(ZeroTable());
    hide TableOk, InitTable, FreshOwner, ZeroTable;
    var T, O: Owners := map[chunk := InitTable(ZeroTable())], map[chunk := FreshOwner()];
    assert ChunkOk(T, O, chunk);
    EmptyHasNoRuns(T, O, chunk);
    NoRunsLedger(T, O);
  }

  lemma EmptyHasNoRuns(T: Tables, O: Owners, chunk: int)
    requires TablesOk(T, O) && O.Keys == {chunk} && O[chunk] == FreshOwner()
    ensures forall a :: RunOf(T, O, a) == NoRun
  {
    hide TablesOk;
    assert chunk in O;
  }

  lemma NoRunsLedger(T: Tables, O: Owners)
    requires forall a :: RunOf(T, O, a) == NoRun
    ensures LedgerOk(T, O, NoLists(), map[], {}) && Quiet(T, O)
  {
    hide RunOf;
  }

  /** Pages of the run a request may need: that of its bin, or its own. */
  function PagesNeeded(bytes: int): nat
    requires 0 <= bytes <= MAX_LARGE_SIZE
  {
    if bytes <= MAX_SMALL_SIZE then PagesOf(SizeToBin(bytes)) else PageCount(bytes)
  }

  lemma PagesNeededAre(bytes: int)
    requires 0 <= bytes <= MAX_LARGE_SIZE
    ensures bytes <= MAX_SMALL_SIZE ==> PagesNeeded(bytes) == PagesOf(SizeToBin(bytes))
    ensures bytes > MAX_SMALL_SIZE ==> PagesNeeded(bytes) == PageCount(bytes)
  {}
}
