/**
 Addresses: which run an address lies in, which slots a run has, and the bookkeeping that says every
 slot is either handed out or on its free list.
 */
module Blocks {
  import opened Sizes
  import opened PageBits
  import opened Chunks

  type Tables = map<int, Table>
  type Owners = map<int, Owner>

  /** The chunk an address lies in, and its page number there. */
  function Base(a: int): int { a - a % CHUNK_SIZE }

  function PageNum(a: int): (p: int)
    ensures 0 <= p < PAGES
  {
    a % CHUNK_SIZE / PAGE_SIZE
  }

  /** A block that is handed out. */
  datatype Block = Small(bin: int) | Large(pages: int) | Huge(size: int)

  function BlockSize(b: Block): int {
    match b
    case Small(bin) => if 0 <= bin < BINS then BinSize(bin) else 0
    case Large(n) => n * PAGE_SIZE
    case Huge(n) => n
  }

  ghost predicate TablesOk(T: Tables, O: Owners) {
    forall c :: c in O ==> ChunkOk(T, O, c)
  }

  ghost predicate ChunkOk(T: Tables, O: Owners, c: int) {
    c in O && c in T && c > 0 && c % CHUNK_SIZE == 0 && TableOk(T[c], O[c])
  }

  lemma ChunkFacts(T: Tables, O: Owners, c: int)
    requires TablesOk(T, O) && c in O
    ensures c in T && c > 0 && c % CHUNK_SIZE == 0 && TableOk(T[c], O[c]) && Shaped(T[c], O[c])
    ensures |T[c].bits| == |T[c].map_| == |O[c]| == PAGES && T[c].freeTail <= PAGES
  {
    assert ChunkOk(T, O, c);
  }

  datatype RunRef = NoRun | RunRef(start: int, info: Info)

  /** The run address a lies in; the header page belongs to none. */
  ghost function RunOf(T: Tables, O: Owners, a: int): RunRef {
    var c := Base(a);
    if c in O && c in T then AtChunk(c, PageAt(T[c], O[c], PageNum(a))) else NoRun
  }

  ghost function AtChunk(c: int, ref: PageRef): RunRef {
    match ref
    case NoPage => NoRun
    case PageRef(s, info) => RunRef(c + s * PAGE_SIZE, info)
  }

  /** a is a slot of the run ref, which serves the bin. */
  ghost predicate SlotIn(ref: RunRef, a: int, bin: int) {
    match ref
    case RunRef(r, SRun(b, _)) => b == bin && SlotAt(r, bin, a)
    case _ => false
  }

  /** a is one of the slots a run of the bin at r is cut into. */
  ghost predicate SlotAt(r: int, bin: int, a: int) {
    0 <= bin < BINS && a - r in Offsets(bin)
  }

  ghost predicate IsSlot(T: Tables, O: Owners, a: int, bin: int) {
    SlotIn(RunOf(T, O, a), a, bin)
  }

  ghost predicate IsLarge(T: Tables, O: Owners, a: int, n: int) {
    RunOf(T, O, a) == RunRef(a, LRun(n))
  }

  // ---- runs and addresses ----

  lemma ChunkOffset(c: int, d: int)
    requires c % CHUNK_SIZE == 0 && 0 <= d < CHUNK_SIZE
    ensures (c + d) % CHUNK_SIZE == d && Base(c + d) == c && PageNum(c + d) == d / PAGE_SIZE
  {}

  lemma BaseAligned(a: int)
    ensures Base(a) % CHUNK_SIZE == 0 && 0 <= a - Base(a) < CHUNK_SIZE && PageNum(a) == (a - Base(a)) / PAGE_SIZE
  {}

  lemma PageAddress(c: int, p: int, a: int)
    requires c % CHUNK_SIZE == 0 && 0 <= p < PAGES
    ensures Base(c + p * PAGE_SIZE) == c && PageNum(c + p * PAGE_SIZE) == p
    ensures Base(a) == c && PageNum(a) == p <==> c + p * PAGE_SIZE <= a < c + (p + 1) * PAGE_SIZE
  {
    ChunkOffset(c, p * PAGE_SIZE);
    PagesAddress(c, p, 1, a);
  }

  lemma PagesAddress(c: int, p: int, n: int, a: int)
    requires c % CHUNK_SIZE == 0 && 0 <= p && 0 <= n && p + n <= PAGES
    ensures Base(a) == c && p <= PageNum(a) < p + n <==> c + p * PAGE_SIZE <= a < c + (p + n) * PAGE_SIZE
  {
    BaseAligned(a);
    if c + p * PAGE_SIZE <= a < c + (p + n) * PAGE_SIZE {
      ChunkOffset(c, a - c);
    }
    hide Base, PageNum;
  }

  /** A run is a stretch of addresses inside one chunk, and every address in it sees the same run. */
  lemma RunSpan(T: Tables, O: Owners, a: int)
    requires TablesOk(T, O) && RunOf(T, O, a).RunRef?
    ensures var RunRef(r, info) := RunOf(T, O, a);
            && StartAddress(r) && Base(r) == Base(a) && Base(a) in O && Base(a) in T
            && 0 < RunLen(info) && r <= a < r + RunLen(info) * PAGE_SIZE && PageNum(r) + RunLen(info) <= PAGES
            && IsRun(T[Base(r)], O[Base(r)], PageNum(r), info) && RunInfoOk(info)
    ensures var RunRef(r, info) := RunOf(T, O, a);
            forall x :: r <= x < r + RunLen(info) * PAGE_SIZE ==> RunOf(T, O, x) == RunOf(T, O, a)
  {
    hide *;
    var c, p := Base(a), PageNum(a);
    RunOfIs(T, O, a);
    ChunkFacts(T, O, c);
    PageSpan(T[c], O[c], p);
    var PageRef(s, info) := PageAt(T[c], O[c], p);
    StartAddressIs(c, s);
    BaseAligned(a);
    PagesAddress(c, s, RunLen(info), a);
    SpanAddresses(T, O, c, s, RunLen(info), RunOf(T, O, a));
  }

  /** No run starts at, or covers, the first byte of a chunk. */
  ghost predicate BasesFree(T: Tables, O: Owners) {
    forall a :: a % CHUNK_SIZE == 0 ==> RunOf(T, O, a) == NoRun
  }

  lemma BasesAreFree(T: Tables, O: Owners)
    requires TablesOk(T, O)
    ensures BasesFree(T, O)
  {
    hide RunOf, TablesOk, BasesFree, Base, PageNum, StartAddress, RunLen, IsRun, RunInfoOk;
    forall a | a % CHUNK_SIZE == 0
      ensures RunOf(T, O, a) == NoRun
    {
      BaseAligned(a);
      if RunOf(T, O, a).RunRef? {
        RunSpan(T, O, a);
        BaseSeesNone(a, RunOf(T, O, a).start);
      }
    }
    BasesFreeIs(T, O);
  }

  lemma BasesFreeIs(T: Tables, O: Owners)
    requires forall a :: a % CHUNK_SIZE == 0 ==> RunOf(T, O, a) == NoRun
    ensures BasesFree(T, O)
  {
    hide RunOf;
  }

  lemma BaseSeesNone(a: int, r: int)
    requires a % CHUNK_SIZE == 0 && StartAddress(r) && Base(r) == Base(a)
    ensures r > a
  {}

  /** r is the address of a page other than a chunk's first. */
  ghost predicate StartAddress(r: int) {
    r % PAGE_SIZE == 0 && r > Base(r) && r % CHUNK_SIZE != 0 && r == Base(r) + PageNum(r) * PAGE_SIZE
  }

  lemma StartAddressIs(c: int, s: int)
    requires c % CHUNK_SIZE == 0 && 0 < s < PAGES
    ensures var r := c + s * PAGE_SIZE; StartAddress(r) && Base(r) == c && PageNum(r) == s
  {
    ChunkOffset(c, s * PAGE_SIZE);
  }

  lemma RunOfIs(T: Tables, O: Owners, a: int)
    ensures RunOf(T, O, a).RunRef? ==> Base(a) in O && Base(a) in T && PageAt(T[Base(a)], O[Base(a)], PageNum(a)).PageRef?
    ensures Base(a) in O && Base(a) in T ==>
              match PageAt(T[Base(a)], O[Base(a)], PageNum(a))
              case NoPage => RunOf(T, O, a) == NoRun
              case PageRef(s, info) => RunOf(T, O, a) == RunRef(Base(a) + s * PAGE_SIZE, info)
    ensures Base(a) in O && Base(a) in T ==> RunOf(T, O, a) == AtChunk(Base(a), PageAt(T[Base(a)], O[Base(a)], PageNum(a)))
  {
    hide PageAt, Base, PageNum;
  }

  lemma SpanAddresses(T: Tables, O: Owners, c: int, s: int, n: int, ref: RunRef)
    requires c in O && c in T && c % CHUNK_SIZE == 0 && 0 <= s && 0 <= n && s + n <= PAGES
    requires forall q :: s <= q < s + n ==> AtChunk(c, PageAt(T[c], O[c], q)) == ref
    ensures forall x :: c + s * PAGE_SIZE <= x < c + (s + n) * PAGE_SIZE ==> RunOf(T, O, x) == ref
  {
    hide PageAt, Base, PageNum;
    forall x | c + s * PAGE_SIZE <= x < c + (s + n) * PAGE_SIZE
      ensures RunOf(T, O, x) == ref
    {
      PagesAddress(c, s, n, x);
    }
  }

  /** Every run start of a linked chunk is seen by its own address. */
  lemma RunStart(T: Tables, O: Owners, c: int, p: int)
    requires TablesOk(T, O) && c in O && c in T && IsStart(T[c], O[c], p)
    ensures RunOf(T, O, c + p * PAGE_SIZE) == RunRef(c + p * PAGE_SIZE, T[c].map_[p])
    ensures Base(c + p * PAGE_SIZE) == c && PageNum(c + p * PAGE_SIZE) == p
  {
    assert ChunkOk(T, O, c);
    StartAt(T[c], O[c], p);
    hide TableOk, PageAt, IsStart;
    PageAddress(c, p, c);
  }

  /** The info word an address finds through its page leads to the run it lies in. */
  lemma InfoAt(T: Tables, O: Owners, a: int)
    requires TablesOk(T, O) && RunOf(T, O, a).RunRef?
    ensures var RunRef(r, info) := RunOf(T, O, a); var p := PageNum(a);
            && Base(a) in T && |T[Base(a)].map_| == PAGES && r == Base(a) + PageNum(r) * PAGE_SIZE
            && (p == PageNum(r) ==> T[Base(a)].map_[p] == info)
            && (p != PageNum(r) && info.SRun? ==> T[Base(a)].map_[p] == NRun(info.bin, p - PageNum(r)) && p > PageNum(r))
  {
    var c, p := Base(a), PageNum(a);
    assert ChunkOk(T, O, c);
    PageSpan(T[c], O[c], p);
    var PageRef(s, info) := PageAt(T[c], O[c], p);
    assert |T[c].map_| == PAGES;
    hide TableOk, PageAt, IsRun, RunLen;
    PageAddress(c, s, a);
  }

  // ---- how a step on one table changes RunOf ----

  /** RunOf changed to ref on [lo, hi) and nowhere else. */
  ghost predicate RunsChanged(T: Tables, O: Owners, T': Tables, O': Owners, lo: int, hi: int, ref: RunRef) {
    forall a :: RunOf(T', O', a) == if lo <= a < hi then ref else RunOf(T, O, a)
  }

  ghost predicate NoRunsIn(T: Tables, O: Owners, lo: int, hi: int) {
    forall a :: lo <= a < hi ==> RunOf(T, O, a) == NoRun
  }

  lemma OtherChunks(T: Tables, O: Owners, c: int, t': Table, o': Owner)
    requires TablesOk(T, O) && c in O && TableOk(t', o')
    ensures TablesOk(T[c := t'], O[c := o'])
  {
    var T', O' := T[c := t'], O[c := o'];
    assert ChunkOk(T, O, c);
    hide TableOk;
    forall x | x in O'
      ensures ChunkOk(T', O', x)
    {
      if x != c { assert ChunkOk(T, O, x); }
    }
  }

  /** One table is replaced; only pages [page, page + n) see another run. */
  lemma TableStep(T: Tables, O: Owners, c: int, t': Table, o': Owner, page: int, n: int, ref: PageRef)
    requires TablesOk(T, O) && c in O && c in T && TableOk(t', o')
    requires 0 <= page && 0 <= n && page + n <= PAGES
    requires PagesChanged(T[c], O[c], t', o', page, page + n, ref)
    ensures TablesOk(T[c := t'], O[c := o'])
    ensures RunsChanged(T, O, T[c := t'], O[c := o'], c + page * PAGE_SIZE, c + (page + n) * PAGE_SIZE, AtChunk(c, ref))
  {
    OtherChunks(T, O, c, t', o');
    assert ChunkOk(T, O, c);
    hide TableOk, PageAt, TablesOk;
    var T', O' := T[c := t'], O[c := o'];
    forall a
      ensures RunOf(T', O', a) == if c + page * PAGE_SIZE <= a < c + (page + n) * PAGE_SIZE then AtChunk(c, ref) else RunOf(T, O, a)
    {
      PagesAddress(c, page, n, a);
    }
  }

  lemma FreeAddresses(T: Tables, O: Owners, c: int, page: int, n: int)
    requires TablesOk(T, O) && c in O && c in T && 0 <= page && 0 <= n && page + n <= PAGES
    requires forall p :: page <= p < page + n ==> PageAt(T[c], O[c], p) == NoPage
    ensures NoRunsIn(T, O, c + page * PAGE_SIZE, c + (page + n) * PAGE_SIZE)
  {
    assert ChunkOk(T, O, c);
    hide TableOk, PageAt;
    forall a | c + page * PAGE_SIZE <= a < c + (page + n) * PAGE_SIZE
      ensures RunOf(T, O, a) == NoRun
    {
      PagesAddress(c, page, n, a);
    }
  }

  /** The table after the page search settled on a page: free_tail is updated, then the run is carved. */
  function Carved(t: Table, tail: nat, page: int, n: int): Table
    requires 0 <= page < |t.map_| && n >= 0
  {
    Carve(t.(freeTail := tail), page, n)
  }

  lemma AtChunkSome(c: int, page: int, info: Info)
    ensures AtChunk(c, PageRef(page, info)) == RunRef(c + page * PAGE_SIZE, info)
  {}

  lemma AtChunkNone(c: int)
    ensures AtChunk(c, NoPage) == NoRun
  {}

  lemma SameOwner(O: Owners, c: int)
    requires c in O
    ensures O[c := O[c]] == O
  {}

  lemma CarvedIs(t: Table, tail: nat, page: int, n: int)
    requires 0 <= page < |t.map_| && n >= 0
    ensures Carved(t, tail, page, n) == Carve(t.(freeTail := tail), page, n)
  {}

  lemma CarveStep(T: Tables, O: Owners, c: int, page: int, n: int, tail: nat)
    requires TablesOk(T, O) && c in O && c in T && 0 < page && 0 < n && page + n <= PAGES && tail <= PAGES
    requires |T[c].bits| == |T[c].map_| == PAGES && FreeRange(T[c].bits, page, n)
    requires tail == T[c].freeTail || forall p :: tail <= p < PAGES ==> !T[c].bits[p]
    requires page + n <= tail || (page == tail && forall p :: page <= p < PAGES ==> !T[c].bits[p])
    ensures var r := c + page * PAGE_SIZE;
            var T', O' := T[c := Carved(T[c], tail, page, n)], O[c := Assign(O[c], page, n, page)];
            && TablesOk(T', O') && RunsChanged(T, O, T', O', r, r + n * PAGE_SIZE, RunRef(r, LRun(n)))
            && NoRunsIn(T, O, r, r + n * PAGE_SIZE)
  {
    hide *;
    ChunkFacts(T, O, c);
    var t, o := T[c].(freeTail := tail), O[c];
    TailMoved(T[c], o, tail);
    TableInside(t, o);
    CarveOk(t, o, page, n);
    CarvePages(T[c], o, page, n);
    CarvedIs(T[c], tail, page, n);
    TailUnseen(T[c], o, tail, page, n);
    TableStep(T, O, c, Carved(T[c], tail, page, n), Assign(o, page, n, page), page, n, PageRef(page, LRun(n)));
    AtChunkSome(c, page, LRun(n));
    FreeAddresses(T, O, c, page, n);
  }

  lemma TailUnseen(t: Table, o: Owner, tail: nat, page: int, n: int)
    requires Shaped(t, o) && 0 <= page < PAGES && 0 <= n
    requires PagesChanged(t, o, Carve(t, page, n), Assign(o, page, n, page), page, page + n, PageRef(page, LRun(n)))
    requires tail <= PAGES && Shaped(Carved(t, tail, page, n), Assign(o, page, n, page))
    ensures PagesChanged(t, o, Carved(t, tail, page, n), Assign(o, page, n, page), page, page + n, PageRef(page, LRun(n)))
  {
    forall p | 0 <= p < PAGES
      ensures PageAt(Carved(t, tail, page, n), Assign(o, page, n, page), p) == PageAt(Carve(t, page, n), Assign(o, page, n, page), p)
    {}
  }

  lemma ReleaseStep(T: Tables, O: Owners, c: int, page: int, n: int)
    requires TablesOk(T, O) && c in O && c in T && IsStart(T[c], O[c], page) && n == RunLen(T[c].map_[page])
    ensures var r := c + page * PAGE_SIZE;
            && n > 0 && page + n <= PAGES
            && var T', O' := T[c := Release(T[c], page, n)], O[c := Assign(O[c], page, n, -1)];
            && TablesOk(T', O') && RunsChanged(T, O, T', O', r, r + n * PAGE_SIZE, NoRun)
  {
    hide *;
    ChunkFacts(T, O, c);
    var t, o := T[c], O[c];
    ReleaseOk(t, o, page, n);
    ReleasePages(t, o, page, n);
    StartFacts(t, o, page);
    TableStep(T, O, c, Release(t, page, n), Assign(o, page, n, -1), page, n, NoPage);
    AtChunkNone(c);
  }

  lemma GrowStep(T: Tables, O: Owners, c: int, page: int, oldN: int, newN: int)
    requires TablesOk(T, O) && c in O && c in T && IsRun(T[c], O[c], page, LRun(oldN))
    requires 0 < oldN < newN && page + newN <= PAGES && |T[c].bits| == PAGES && FreeRange(T[c].bits, page + oldN, newN - oldN)
    ensures var r := c + page * PAGE_SIZE;
            var T', O' := T[c := Grow(T[c], page, oldN, newN)], O[c := Assign(O[c], page + oldN, newN - oldN, page)];
            && TablesOk(T', O') && RunsChanged(T, O, T', O', r, r + newN * PAGE_SIZE, RunRef(r, LRun(newN)))
            && NoRunsIn(T, O, r + oldN * PAGE_SIZE, r + newN * PAGE_SIZE)
  {
    hide *;
    ChunkFacts(T, O, c);
    var t, o := T[c], O[c];
    StartFacts(t, o, page);
    GrowOk(t, o, page, oldN, newN);
    GrowPages(t, o, page, oldN, newN);
    FreeAddresses(T, O, c, page + oldN, newN - oldN);
    TableStep(T, O, c, Grow(t, page, oldN, newN), Assign(o, page + oldN, newN - oldN, page), page, newN, PageRef(page, LRun(newN)));
    AtChunkSome(c, page, LRun(newN));
  }

  /** A large run at r was cut to end at mid; what lay behind it up to end became free. */
  ghost predicate RunsCut(T: Tables, O: Owners, T': Tables, O': Owners, r: int, mid: int, end: int, newN: int) {
    forall a :: RunOf(T', O', a) ==
      if r <= a < mid then RunRef(r, LRun(newN)) else if mid <= a < end then NoRun else RunOf(T, O, a)
  }

  lemma ShrinkRefs(T: Tables, O: Owners, c: int, t': Table, o': Owner, page: int, newN: int, rest: int)
    requires c in T && c in O && c % CHUNK_SIZE == 0 && newN > 0 && rest > 0 && 0 < page && page + newN + rest <= PAGES
    requires PagesCut(T[c], O[c], t', o', page, newN, rest)
    ensures var r := c + page * PAGE_SIZE;
            RunsCut(T, O, T[c := t'], O[c := o'], r, r + newN * PAGE_SIZE, r + (newN + rest) * PAGE_SIZE, newN)
  {
    hide PageAt, Base, PageNum;
    var r := c + page * PAGE_SIZE;
    var T', O' := T[c := t'], O[c := o'];
    forall a
      ensures RunOf(T', O', a) == if r <= a < r + newN * PAGE_SIZE then RunRef(r, LRun(newN))
                                  else if r + newN * PAGE_SIZE <= a < r + (newN + rest) * PAGE_SIZE then NoRun else RunOf(T, O, a)
    {
      PagesAddress(c, page, newN, a);
      PagesAddress(c, page + newN, rest, a);
    }
  }

  lemma ShrinkStep(T: Tables, O: Owners, c: int, page: int, newN: int, rest: int)
    requires TablesOk(T, O) && c in O && c in T && IsRun(T[c], O[c], page, LRun(newN + rest)) && newN > 0 && rest > 0
    requires 0 <= page < |T[c].map_|
    ensures var r := c + page * PAGE_SIZE;
            var T', O' := T[c := Shrink(T[c], page, newN, rest)], O[c := Assign(O[c], page + newN, rest, -1)];
            TablesOk(T', O') && RunsCut(T, O, T', O', r, r + newN * PAGE_SIZE, r + (newN + rest) * PAGE_SIZE, newN)
  {
    hide *;
    ChunkFacts(T, O, c);
    var t, o := T[c], O[c];
    StartFacts(t, o, page);
    ShrinkOk(t, o, page, newN, rest);
    ShrinkPages(t, o, page, newN, rest);
    var t', o' := Shrink(t, page, newN, rest), Assign(o, page + newN, rest, -1);
    OtherChunks(T, O, c, t', o');
    ShrinkRefs(T, O, c, t', o', page, newN, rest);
  }

  lemma MarkSmallStep(T: Tables, O: Owners, c: int, page: int, bin: int)
    requires TablesOk(T, O) && c in O && c in T && 0 <= bin < BINS && IsRun(T[c], O[c], page, LRun(BinPages(bin)))
    requires page + BinPages(bin) <= T[c].freeTail
    ensures var r := c + page * PAGE_SIZE; var T' := T[c := MarkSmall(T[c], page, bin)];
            && TablesOk(T', O)
            && RunsChanged(T, O, T', O, r, r + BinPages(bin) * PAGE_SIZE, RunRef(r, SRun(bin, 0)))
  {
    hide *;
    ChunkFacts(T, O, c);
    var t, o := T[c], O[c];
    StartFacts(t, o, page);
    LargeRunFits(t, o, page, BinPages(bin));
    MarkSmallOk(t, o, page, bin);
    MarkSmallPages(t, o, page, bin);
    SameOwner(O, c);
    TableStep(T, O, c, MarkSmall(t, page, bin), o, page, BinPages(bin), PageRef(page, SRun(bin, 0)));
    AtChunkSome(c, page, SRun(bin, 0));
  }

  lemma CounterStep(T: Tables, O: Owners, c: int, page: int, bin: int, old_: int, counter: int)
    requires TablesOk(T, O) && c in O && c in T && 0 <= bin < BINS && IsRun(T[c], O[c], page, SRun(bin, old_)) && 0 <= counter < 512
    ensures var r := c + page * PAGE_SIZE; var T' := T[c := SetCounter(T[c], page, bin, counter)];
            && TablesOk(T', O)
            && RunsChanged(T, O, T', O, r, r + BinPages(bin) * PAGE_SIZE, RunRef(r, SRun(bin, counter)))
  {
    hide *;
    ChunkFacts(T, O, c);
    var t, o := T[c], O[c];
    StartFacts(t, o, page);
    SmallRunFits(t, o, page, bin, old_);
    SetCounterOk(t, o, page, bin, old_, counter);
    CounterPages(t, o, page, bin, old_, counter);
    SameOwner(O, c);
    TableStep(T, O, c, SetCounter(t, page, bin, counter), o, page, BinPages(bin), PageRef(page, SRun(bin, counter)));
    AtChunkSome(c, page, SRun(bin, counter));
  }

  /** Linking an empty chunk adds no run; unlinking an empty one removes none. */
  lemma LinkStep(T: Tables, O: Owners, c: int, t: Table)
    requires TablesOk(T, O) && c !in O && c > 0 && c % CHUNK_SIZE == 0 && TableOk(t, FreshOwner())
    ensures TablesOk(T[c := t], O[c := FreshOwner()])
    ensures forall a :: RunOf(T[c := t], O[c := FreshOwner()], a) == RunOf(T, O, a)
  {
    var T', O' := T[c := t], O[c := FreshOwner()];
    assert forall p :: 0 <= p < PAGES ==> PageAt(t, FreshOwner(), p) == NoPage;
    hide TableOk, PageAt;
    forall x | x in O'
      ensures ChunkOk(T', O', x)
    {
      if x != c { assert ChunkOk(T, O, x); }
    }
  }

  lemma UnlinkStep(T: Tables, O: Owners, c: int)
    requires TablesOk(T, O) && c in O && c in T && T[c].freePages == PAGES - FIRST_PAGE
    ensures TablesOk(T, O - {c}) && T[c].bits == FreshBits() && |T[c].map_| == PAGES
    ensures forall a :: RunOf(T, O - {c}, a) == RunOf(T, O, a)
  {
    assert ChunkOk(T, O, c);
    EmptyTable(T[c], O[c]);
    assert forall p :: 0 <= p < PAGES ==> PageAt(T[c], O[c], p) == NoPage;
    hide TableOk, PageAt;
    forall x | x in O - {c}
      ensures ChunkOk(T, O - {c}, x)
    {
      assert ChunkOk(T, O, x);
    }
  }

  /** Tables of chunks that are not linked do not matter. */
  lemma TablesFrame(T: Tables, T': Tables, O: Owners)
    requires TablesOk(T, O) && forall c :: c in O ==> c in T && c in T' && T'[c] == T[c]
    ensures TablesOk(T', O) && forall a :: RunOf(T', O, a) == RunOf(T, O, a)
  {
    hide TableOk, PageAt;
    forall x | x in O
      ensures ChunkOk(T', O, x)
    {
      assert ChunkOk(T, O, x);
    }
    forall a
      ensures RunOf(T', O, a) == RunOf(T, O, a)
    {
      if Base(a) in O { assert ChunkOk(T, O, Base(a)); }
    }
  }
}
