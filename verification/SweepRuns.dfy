/** The sweep of the garbage collector over the runs of a chunk, and over the ring of chunks. */
module SweepRuns {
  import opened Sizes
  import opened PageBits
  import opened Chunks
  import opened Rings
  import opened Blocks
  import opened Ledger
  import opened Collector
  import opened Steps
  import opened Sweep

  /** The run's counter stands at the number of its slots. */
  ghost predicate FullRef(ref: RunRef) {
    match ref
    case RunRef(_, SRun(bin, c)) => 0 <= bin < BINS && c == BinElements(bin)
    case _ => false
  }

  /** The counters mark exactly the condemned runs. */
  ghost predicate Marked(T: Tables, O: Owners, dead: set<int>) {
    && (forall r :: r in dead ==> FullRef(RunOf(T, O, r)) && Start(RunOf(T, O, r)) == r)
    && forall a :: FullRef(RunOf(T, O, a)) ==> Start(RunOf(T, O, a)) in dead
  }

  lemma MarkedAfterCounting(T0: Tables, T: Tables, O: Owners, lists: FreeLists, live: Live, dead: set<int>)
    requires LedgerOk(T0, O, lists, live, {}) && TablesOk(T0, O) && TablesOk(T, O)
    requires Counted(T0, T, O, lists, BINS, 0) && DeadAre(T0, O, lists, BINS, dead)
    ensures Marked(T, O, dead)
  {
    hide LedgerOk, TablesOk, RunOf, Doomed, FullRef, Counted, DeadAre;
    forall a
      ensures FullRef(RunOf(T, O, a)) <==> RunOf(T0, O, a).RunRef? && Doomed(T0, O, lists, BINS, Start(RunOf(T0, O, a)))
      ensures FullRef(RunOf(T, O, a)) ==> Start(RunOf(T, O, a)) == Start(RunOf(T0, O, a))
    {
      FullIsDoomed(T0, T, O, lists, live, a);
    }
    DeadAreIs(T0, O, lists, BINS, dead);
    forall r | r in dead
      ensures FullRef(RunOf(T, O, r)) && Start(RunOf(T, O, r)) == r
    {
      DoomedStart(T0, O, lists, r);
    }
  }

  lemma DeadAreIs(T: Tables, O: Owners, lists: FreeLists, limit: int, dead: set<int>)
    requires DeadAre(T, O, lists, limit, dead)
    ensures forall r :: r in dead <==> Doomed(T, O, lists, limit, r)
  {
    hide Doomed;
  }

  lemma DoomedStart(T: Tables, O: Owners, lists: FreeLists, r: int)
    requires Doomed(T, O, lists, BINS, r)
    ensures RunOf(T, O, r).RunRef? && Start(RunOf(T, O, r)) == r
  {
    hide RunOf, CondemnedAt;
  }

  lemma FullIsDoomed(T0: Tables, T: Tables, O: Owners, lists: FreeLists, live: Live, a: int)
    requires LedgerOk(T0, O, lists, live, {}) && TablesOk(T0, O)
    requires Counted(T0, T, O, lists, BINS, 0)
    ensures FullRef(RunOf(T, O, a)) <==> RunOf(T0, O, a).RunRef? && Doomed(T0, O, lists, BINS, Start(RunOf(T0, O, a)))
    ensures Start(RunOf(T, O, a)) == Start(RunOf(T0, O, a))
  {
    hide LedgerOk, TablesOk, RunOf, BinElements, SlotsFree, Count, RunInfoOk, IsRun, StartAddress;
    assert RunOf(T, O, a) == Expect(T0, O, lists, BINS, 0, a);
    if RunOf(T0, O, a).RunRef? {
      RunSpan(T0, O, a);
      var RunRef(r, info) := RunOf(T0, O, a);
      SmallBin(info);
      if info.SRun? {
        CountFull(T0, O, lists, live, {}, info.bin, r);
        CounterFits(info.bin, Count(T0, O, lists[info.bin], r));
      }
    }
  }

  lemma SmallBin(info: Info)
    requires RunInfoOk(info)
    ensures info.SRun? ==> 0 <= info.bin < BINS
  {}

  /** Only addresses in [lo, hi), the run at lo, see something else now. */
  lemma MarkedStep(T: Tables, O: Owners, T': Tables, O': Owners, dead: set<int>, lo: int, hi: int, ref: RunRef, ref': RunRef)
    requires Marked(T, O, dead) && RunOn(T, O, lo, hi, ref) && RunsChanged(T, O, T', O', lo, hi, ref')
    requires Start(ref) == lo && !FullRef(ref') && lo < hi && ref.RunRef?
    requires forall a :: RunOf(T, O, a).RunRef? && RunOf(T, O, a).start == lo ==> lo <= a < hi
    ensures Marked(T', O', dead - {lo})
  {
    hide RunOf;
    forall a | FullRef(RunOf(T', O', a))
      ensures Start(RunOf(T', O', a)) in dead - {lo}
    {
      assert RunOf(T', O', a) == RunOf(T, O, a);
    }
    forall r | r in dead - {lo}
      ensures FullRef(RunOf(T', O', r)) && Start(RunOf(T', O', r)) == r
    {
      assert FullRef(RunOf(T, O, r)) && Start(RunOf(T, O, r)) == r;
    }
  }

  lemma MarkedAt(T: Tables, O: Owners, dead: set<int>, r: int, bin: int, c: int)
    requires Marked(T, O, dead) && RunOf(T, O, r) == RunRef(r, SRun(bin, c)) && 0 <= bin < BINS
    ensures r in dead <==> c == BinElements(bin)
  {
    hide RunOf;
    assert FullRef(RunOf(T, O, r)) <==> c == BinElements(bin);
  }

  // ---- what is still to be swept ----

  /** Every counter still set is in one of the chunks rest and, in chunk c, at page i or later. */
  ghost predicate Pending(T: Tables, O: Owners, rest: seq<int>, c: int, i: int) {
    forall a :: CounterOf(RunOf(T, O, a)) != 0 ==> Base(a) in rest && (Base(a) == c ==> PageNum(a) >= i)
  }

  lemma PendingStart(T: Tables, O: Owners, ring: seq<int>, k: nat)
    requires TablesOk(T, O) && OwnersAre(O, ring) && k == 0
    ensures Pending(T, O, ring[k..], -1, 0)
  {
    hide TablesOk, Base, PageNum, StartAddress, IsRun, RunLen, RunInfoOk;
    assert ring[k..] == ring;
    forall a | CounterOf(RunOf(T, O, a)) != 0
      ensures Base(a) in ring[k..] && Base(a) != -1
    {
      RunSpan(T, O, a);
      BaseAligned(a);
    }
  }

  lemma PendingEnter(T: Tables, O: Owners, rest: seq<int>, c: int)
    requires TablesOk(T, O) && Pending(T, O, rest, -1, 0)
    ensures Pending(T, O, rest, c, FIRST_PAGE)
  {
    hide TablesOk, RunOf, Base, PageNum, IsRun, RunLen, RunInfoOk;
    forall a | CounterOf(RunOf(T, O, a)) != 0
      ensures Base(a) in rest && PageNum(a) >= FIRST_PAGE
    {
      RunSpan(T, O, a);
      LaterPage(a, RunOf(T, O, a).start);
    }
  }

  lemma LaterPage(a: int, r: int)
    requires StartAddress(r) && Base(r) == Base(a) && r <= a
    ensures PageNum(a) >= 1
  {}

  /** Pages [i, i + n) of the chunk hold no counter. */
  ghost predicate NoCounters(T: Tables, O: Owners, lo: int, hi: int) {
    forall a :: lo <= a < hi ==> CounterOf(RunOf(T, O, a)) == 0
  }

  lemma PendingAdvance(T: Tables, O: Owners, rest: seq<int>, c: int, i: int, n: int)
    requires Pending(T, O, rest, c, i) && c % CHUNK_SIZE == 0 && 0 <= i && 0 <= n && i + n <= PAGES
    requires NoCounters(T, O, c + i * PAGE_SIZE, c + (i + n) * PAGE_SIZE)
    ensures Pending(T, O, rest, c, i + n)
  {
    hide RunOf, Base, PageNum;
    forall a | CounterOf(RunOf(T, O, a)) != 0
      ensures Base(a) in rest && (Base(a) == c ==> PageNum(a) >= i + n)
    {
      PagesAddress(c, i, n, a);
    }
  }

  /** A step that only clears keeps what is pending. */
  lemma PendingStep(T: Tables, O: Owners, T': Tables, O': Owners, rest: seq<int>, c: int, i: int, lo: int, hi: int, ref: RunRef)
    requires Pending(T, O, rest, c, i) && RunsChanged(T, O, T', O', lo, hi, ref) && CounterOf(ref) == 0
    ensures Pending(T', O', rest, c, i) && NoCounters(T', O', lo, hi)
  {
    hide RunOf;
  }

  /** Past free_tail there is no small run, so the chunk is done. */
  lemma PendingLeave(T: Tables, O: Owners, ring: seq<int>, k: nat, i: int)
    requires k < |ring| && TablesOk(T, O) && Distinct(ring) && ring[k] in T && ring[k] in O
    requires Pending(T, O, ring[k..], ring[k], i) && i >= T[ring[k]].freeTail
    ensures Pending(T, O, ring[k + 1..], -1, 0)
  {
    var c := ring[k];
    ChunkFacts(T, O, c);
    hide TablesOk, Base, PageNum;
    var t, o := T[c], O[c];
    forall a | CounterOf(RunOf(T, O, a)) != 0
      ensures Base(a) in ring[k + 1..] && Base(a) != -1
    {
      BaseAligned(a);
      assert ring[k..] == [c] + ring[k + 1..];
      TailLarge(t, o, PageNum(a));
    }
  }

  lemma TailLarge(t: Table, o: Owner, p: int)
    requires TableOk(t, o)
    ensures PageAt(t, o, p).PageRef? && t.freeTail <= p ==> PageAt(t, o, p).info.LRun?
  {}

  lemma PendingNone(T: Tables, O: Owners, rest: seq<int>)
    requires Pending(T, O, rest, -1, 0) && rest == []
    ensures Quiet(T, O)
  {
    hide RunOf, Base, PageNum;
  }

  lemma PendingSame(T: Tables, O: Owners, O': Owners, rest: seq<int>, rest': seq<int>)
    requires Pending(T, O, rest, -1, 0) && SameRuns(T, O, T, O') && rest' == rest
    ensures Pending(T, O', rest', -1, 0)
  {
    hide RunOf, Base, PageNum;
    forall a | CounterOf(RunOf(T, O', a)) != 0
      ensures Base(a) in rest' && (Base(a) == -1 ==> PageNum(a) >= 0)
    {
      assert RunOf(T, O', a) == RunOf(T, O, a);
    }
  }

  lemma QuietMarked(T: Tables, O: Owners, dead: set<int>)
    requires Quiet(T, O) && Marked(T, O, dead)
    ensures dead == {}
  {
    hide RunOf, BinElements;
    forall r | r in dead
      ensures false
    {
      assert FullRef(RunOf(T, O, r)) && CounterOf(RunOf(T, O, r)) == 0;
      BinFacts(RunOf(T, O, r).info.bin);
    }
  }

  // ---- walking the pages of a chunk ----

  /** Page i is not inside a run that starts before it. */
  ghost predicate Boundary(o: Owner, i: int) {
    0 <= i < |o| ==> o[i] < 0 || o[i] == i
  }

  lemma FirstBoundary(t: Table, o: Owner)
    requires TableOk(t, o)
    ensures Boundary(o, FIRST_PAGE)
  {
    if o[1] == 0 {
      assert OwnedOk(t, o, 1);
    }
  }

  /** The page before a page inside a run lies in the same run. */
  lemma BackOne(t: Table, o: Owner, p: int)
    requires TableOk(t, o) && 0 < p
    ensures p < PAGES && o[p] >= 0 && o[p] != p ==> o[p - 1] == o[p]
  {
    hide RunLen;
    if p < PAGES && o[p] >= 0 && o[p] != p {
      assert OwnedOk(t, o, p);
      assert Spans(t, o[p], p - 1);
    }
  }

  lemma NextBoundary(t: Table, o: Owner, i: int)
    requires TableOk(t, o) && 0 < i < PAGES && Boundary(o, i)
    ensures if t.bits[i] then IsStart(t, o, i) && RunLen(t.map_[i]) > 0 && i + RunLen(t.map_[i]) <= PAGES
                              && Boundary(o, i + RunLen(t.map_[i])) && RunInfoOk(t.map_[i])
            else Boundary(o, i + 1) && PageAt(t, o, i) == NoPage
  {
    hide RunLen;
    if t.bits[i] {
      assert OwnedOk(t, o, i);
      RunPages(t, o, i);
      var n := i + RunLen(t.map_[i]);
      BackOne(t, o, n);
    } else {
      BackOne(t, o, i + 1);
    }
  }

  // ---- counting what was released ----

  /** Free pages in the given chunks. */
  ghost function FreeSum(T: Tables, cs: seq<int>): int {
    if cs == [] then 0
    else FreeSum(T, cs[..|cs| - 1]) + if cs[|cs| - 1] in T then T[cs[|cs| - 1]].freePages else 0
  }

  lemma {:induction false} FreeSumSame(T: Tables, T': Tables, cs: seq<int>)
    requires forall c :: c in cs ==> (c in T <==> c in T') && (c in T && c in T' ==> T'[c].freePages == T[c].freePages)
    ensures FreeSum(T', cs) == FreeSum(T, cs)
    decreases |cs|
  {
    if cs != [] {
      var last := cs[|cs| - 1];
      assert last in cs && forall c :: c in cs[..|cs| - 1] ==> c in cs;
      FreeSumSame(T, T', cs[..|cs| - 1]);
    }
  }

  lemma {:induction false} FreeSumStep(T: Tables, c: int, t: Table, cs: seq<int>)
    requires Distinct(cs) && c in cs && c in T
    ensures FreeSum(T[c := t], cs) == FreeSum(T, cs) + t.freePages - T[c].freePages
    decreases |cs|
  {
    var init, last := cs[..|cs| - 1], cs[|cs| - 1];
    assert cs == init + [last];
    if last == c {
      assert forall x :: x in init ==> x != c;
      FreeSumSame(T, T[c := t], init);
    } else {
      FreeSumStep(T, c, t, init);
    }
  }

  lemma FreeSumMaps(T: Tables, T': Tables, cs: seq<int>)
    requires OnlyMaps(T, T')
    ensures FreeSum(T', cs) == FreeSum(T, cs)
  {
    FreeSumSame(T, T', cs);
  }

  // ---- what the whole collection does to the runs ----

  ghost function Bare(ref: RunRef): RunRef {
    match ref
    case RunRef(r, SRun(b, _)) => RunRef(r, SRun(b, 0))
    case _ => ref
  }

  /** The runs in gone are free pages now; the other runs differ in their counters at most. */
  ghost predicate Removed(T0: Tables, O0: Owners, T: Tables, O: Owners, gone: set<int>) {
    forall a :: Bare(RunOf(T, O, a)) == if Start(RunOf(T0, O0, a)) in gone then NoRun else Bare(RunOf(T0, O0, a))
  }

  lemma RemovedCounted(T0: Tables, T: Tables, O: Owners, lists: FreeLists)
    requires Counted(T0, T, O, lists, BINS, 0)
    ensures Removed(T0, O, T, O, {})
  {
    hide RunOf;
    forall a
      ensures Bare(RunOf(T, O, a)) == Bare(RunOf(T0, O, a))
    {
      assert RunOf(T, O, a) == Expect(T0, O, lists, BINS, 0, a);
    }
  }

  lemma RemovedStep(T0: Tables, O0: Owners, T: Tables, O: Owners, T': Tables, O': Owners, gone: set<int>,
                    r: int, hi: int, ref: RunRef, ref': RunRef)
    requires Removed(T0, O0, T, O, gone) && RunOn(T, O, r, hi, ref) && RunsChanged(T, O, T', O', r, hi, ref')
    requires ref.RunRef? && ref.start == r
    requires forall a :: RunOf(T, O, a).RunRef? && RunOf(T, O, a).start == r ==> r <= a < hi
    requires Bare(ref') == Bare(ref) || ref' == NoRun
    ensures Bare(ref') == Bare(ref) ==> Removed(T0, O0, T', O', gone)
    ensures ref' == NoRun ==> Removed(T0, O0, T', O', gone + {r})
  {
    hide RunOf;
    forall a
      ensures Bare(ref') == Bare(ref) ==> Bare(RunOf(T', O', a)) == if Start(RunOf(T0, O0, a)) in gone then NoRun else Bare(RunOf(T0, O0, a))
      ensures ref' == NoRun ==> Bare(RunOf(T', O', a)) == if Start(RunOf(T0, O0, a)) in gone + {r} then NoRun else Bare(RunOf(T0, O0, a))
    {
      assert Bare(RunOf(T, O, a)) == if Start(RunOf(T0, O0, a)) in gone then NoRun else Bare(RunOf(T0, O0, a));
      BareStart(RunOf(T, O, a));
      BareStart(RunOf(T0, O0, a));
    }
  }

  lemma BareStart(ref: RunRef)
    ensures Bare(ref).RunRef? <==> ref.RunRef?
    ensures ref.RunRef? ==> Bare(ref).start == ref.start
  {}

  lemma RemovedSame(T0: Tables, O0: Owners, T: Tables, O: Owners, O': Owners, gone: set<int>)
    requires Removed(T0, O0, T, O, gone) && SameRuns(T, O, T, O')
    ensures Removed(T0, O0, T, O', gone)
  {
    hide RunOf;
    forall a
      ensures Bare(RunOf(T, O', a)) == if Start(RunOf(T0, O0, a)) in gone then NoRun else Bare(RunOf(T0, O0, a))
    {
      assert RunOf(T, O', a) == RunOf(T, O, a);
    }
  }

  // ---- one run ----

  /** All addresses that see the run at r lie in [r, hi). */
  ghost predicate Within(T: Tables, O: Owners, r: int, hi: int) {
    forall a :: RunOf(T, O, a).RunRef? && RunOf(T, O, a).start == r ==> r <= a < hi
  }

  /** The small run at a page, as addresses see it. */
  lemma SmallRunAt(T: Tables, O: Owners, c: int, page: int, bin: int, counter: int)
    requires TablesOk(T, O) && c in O && c in T && 0 <= bin < BINS && IsRun(T[c], O[c], page, SRun(bin, counter))
    ensures var r := c + page * PAGE_SIZE; var hi := r + BinPages(bin) * PAGE_SIZE;
            && RunOf(T, O, r) == RunRef(r, SRun(bin, counter)) && RunOn(T, O, r, hi, RunRef(r, SRun(bin, counter)))
            && Within(T, O, r, hi) && r < hi && 0 < BinPages(bin) && page + BinPages(bin) <= PAGES
    ensures RunLen(SRun(bin, counter)) == BinPages(bin) && 0 < page < PAGES == |T[c].map_| && T[c].map_[page] == SRun(bin, counter)
  {
    hide RunOf, TablesOk, BinPages, Base, PageNum, StartAddress, RunInfoOk;
    ChunkFacts(T, O, c);
    StartFacts(T[c], O[c], page);
    RunStart(T, O, c, page);
    var r := c + page * PAGE_SIZE;
    RunSpan(T, O, r);
    HomeRange(T, O, r, bin);
    SmallRunFits(T[c], O[c], page, bin, counter);
  }

  /** A condemned run is released: its pages and the ledger. */
  lemma ReleaseDead(T: Tables, O: Owners, free: FreeLists, live: Live, dead: set<int>, c: int, page: int, bin: int, counter: int)
    requires TablesOk(T, O) && LedgerOk(T, O, free, live, dead) && c in O && c in T && 0 <= bin < BINS
    requires IsRun(T[c], O[c], page, SRun(bin, counter)) && c + page * PAGE_SIZE in dead
    ensures 0 < page < |T[c].map_| && BinPages(bin) == RunLen(T[c].map_[page]) && IsStart(T[c], O[c], page) && BinPages(bin) > 0
    ensures ReleasedLedger(T, O, free, live, dead - {c + page * PAGE_SIZE}, c, page, BinPages(bin))
    ensures var r := c + page * PAGE_SIZE;
            RunsChanged(T, O, T[c := Release(T[c], page, BinPages(bin))], O[c := Assign(O[c], page, BinPages(bin), -1)],
                        r, r + BinPages(bin) * PAGE_SIZE, NoRun)
  {
    hide *;
    var r := c + page * PAGE_SIZE;
    SmallRunAt(T, O, c, page, bin, counter);
    StartFacts(T[c], O[c], page);
    ReleaseStep(T, O, c, page, BinPages(bin));
    WithinIs(T, O, r, r + BinPages(bin) * PAGE_SIZE);
    DropDead(T, O, T[c := Release(T[c], page, BinPages(bin))], O[c := Assign(O[c], page, BinPages(bin), -1)],
             free, live, dead, r, r + BinPages(bin) * PAGE_SIZE, bin, counter);
    ReleasedHolds(T, O, free, live, dead - {r}, c, page, BinPages(bin));
  }

  lemma WithinIs(T: Tables, O: Owners, r: int, hi: int)
    requires Within(T, O, r, hi)
    ensures forall a :: RunOf(T, O, a).RunRef? && RunOf(T, O, a).start == r ==> r <= a < hi
    ensures forall a :: Home(T, O, a) == r && RunOf(T, O, a).RunRef? ==> r <= a < hi
  {
    hide RunOf;
  }

  ghost predicate BoundaryIn(O: Owners, c: int, i: int) {
    c in O && Boundary(O[c], i)
  }

  lemma BoundaryAssigned(O: Owners, c: int, page: int, n: int, i: int)
    requires BoundaryIn(O, c, i)
    ensures BoundaryIn(O[c := Assign(O[c], page, n, -1)], c, i)
  {}

  lemma BoundariesAssigned(O: Owners, c: int, page: int, n: int)
    requires c in O
    ensures forall i :: BoundaryIn(O, c, i) ==> BoundaryIn(O[c := Assign(O[c], page, n, -1)], c, i)
  {
    forall i | BoundaryIn(O, c, i)
      ensures BoundaryIn(O[c := Assign(O[c], page, n, -1)], c, i)
    {
      BoundaryAssigned(O, c, page, n, i);
    }
  }

  lemma ReleasedPages(t: Table, page: int, n: int)
    requires 0 <= page < |t.map_| && n >= 0
    ensures Release(t, page, n).freePages == t.freePages + n
  {}

  lemma ResetPages(t: Table, page: int, bin: int)
    requires 0 <= page < |t.map_|
    ensures SetCounter(t, page, bin, 0).freePages == t.freePages
  {}

  lemma OwnerKeys(O: Owners, c: int, page: int, n: int)
    requires c in O
    ensures O[c := Assign(O[c], page, n, -1)].Keys == O.Keys
  {}

  lemma SameSet(dead: set<int>, r: int)
    requires r !in dead
    ensures dead - {r} == dead
  {}

  // ---- one step of the sweep ----

  /** A free page or a large run is passed over. */
  lemma PassOver(T: Tables, O: Owners, rest: seq<int>, c: int, i: int)
    requires TablesOk(T, O) && c in O && c in T && 0 < i < PAGES && Pending(T, O, rest, c, i) && BoundaryIn(O, c, i)
    requires |T[c].bits| == |T[c].map_| == PAGES
    ensures !T[c].bits[i] ==> Pending(T, O, rest, c, i + 1) && BoundaryIn(O, c, i + 1)
    ensures T[c].bits[i] ==> IsStart(T[c], O[c], i) && RunInfoOk(T[c].map_[i]) && 0 < RunLen(T[c].map_[i]) <= PAGES - i
    ensures T[c].bits[i] ==> BoundaryIn(O, c, i + RunLen(T[c].map_[i]))
    ensures T[c].bits[i] && T[c].map_[i].LRun? ==> Pending(T, O, rest, c, i + RunLen(T[c].map_[i]))
  {
    hide *;
    ChunkFacts(T, O, c);
    BoundaryIs(O, c, i);
    NextBoundary(T[c], O[c], i);
    if T[c].bits[i] {
      BoundaryHolds(O, c, i + RunLen(T[c].map_[i]));
      if T[c].map_[i].LRun? {
        RunStart(T, O, c, i);
        RunSpan(T, O, c + i * PAGE_SIZE);
        LargeQuiet(T, O, c + i * PAGE_SIZE, RunLen(T[c].map_[i]));
        PendingAdvance(T, O, rest, c, i, RunLen(T[c].map_[i]));
      }
    } else {
      BoundaryHolds(O, c, i + 1);
      FreePageQuiet(T, O, c, i);
      PendingAdvance(T, O, rest, c, i, 1);
    }
  }

  lemma BoundaryIs(O: Owners, c: int, i: int)
    requires BoundaryIn(O, c, i)
    ensures c in O && Boundary(O[c], i)
  {}

  lemma BoundaryHolds(O: Owners, c: int, i: int)
    requires c in O && Boundary(O[c], i)
    ensures BoundaryIn(O, c, i)
  {}

  lemma LargeQuiet(T: Tables, O: Owners, r: int, n: int)
    requires RunOf(T, O, r).RunRef? && RunOf(T, O, r).info.LRun?
    requires forall x :: r <= x < r + n * PAGE_SIZE ==> RunOf(T, O, x) == RunOf(T, O, r)
    ensures NoCounters(T, O, r, r + n * PAGE_SIZE)
  {
    hide RunOf;
  }

  lemma FreePageQuiet(T: Tables, O: Owners, c: int, i: int)
    requires TablesOk(T, O) && c in O && c in T && 0 < i < PAGES && PageAt(T[c], O[c], i) == NoPage
    ensures NoCounters(T, O, c + i * PAGE_SIZE, c + (i + 1) * PAGE_SIZE)
  {
    hide RunOf, TablesOk, PageAt;
    FreeAddresses(T, O, c, i, 1);
  }

  /** A small run was released or reset: everything the sweep keeps track of moves on. */
  lemma SweptSmall(T1: Tables, O1: Owners, T: Tables, O: Owners, T': Tables, O': Owners, rest: seq<int>, c: int, i: int,
                   bin: int, counter: int, D: set<int>, dead: set<int>)
    requires TablesOk(T, O) && c in O && c in T && 0 <= bin < BINS && IsRun(T[c], O[c], i, SRun(bin, counter))
    requires Marked(T, O, dead) && Pending(T, O, rest, c, i) && Removed(T1, O1, T, O, D - dead) && dead <= D
    requires c + i * PAGE_SIZE in dead <==> counter == BinElements(bin)
    requires var r := c + i * PAGE_SIZE;
             RunsChanged(T, O, T', O', r, r + BinPages(bin) * PAGE_SIZE,
                         if counter == BinElements(bin) then NoRun else RunRef(r, SRun(bin, 0)))
    ensures var r := c + i * PAGE_SIZE;
            && Marked(T', O', dead - {r}) && Removed(T1, O1, T', O', D - (dead - {r})) && dead - {r} <= D
            && Pending(T', O', rest, c, i + BinPages(bin)) && BinPages(bin) > 0 && i + BinPages(bin) <= PAGES && 0 < i
  {
    hide *;
    var r := c + i * PAGE_SIZE;
    var ref, ref' := RunRef(r, SRun(bin, counter)), if counter == BinElements(bin) then NoRun else RunRef(r, SRun(bin, 0));
    ChunkFacts(T, O, c);
    SmallRunAt(T, O, c, i, bin, counter);
    WithinIs(T, O, r, r + BinPages(bin) * PAGE_SIZE);
    RefFacts(r, bin, counter, ref');
    MarkedStep(T, O, T', O', dead, r, r + BinPages(bin) * PAGE_SIZE, ref, ref');
    RemovedStep(T1, O1, T, O, T', O', D - dead, r, r + BinPages(bin) * PAGE_SIZE, ref, ref');
    PendingStep(T, O, T', O', rest, c, i, r, r + BinPages(bin) * PAGE_SIZE, ref');
    PendingAdvance(T', O', rest, c, i, BinPages(bin));
    GoneMore(D, dead, r);
  }

  lemma RefFacts(r: int, bin: int, counter: int, ref': RunRef)
    requires 0 <= bin < BINS && ref' == if counter == BinElements(bin) then NoRun else RunRef(r, SRun(bin, 0))
    ensures !FullRef(ref') && CounterOf(ref') == 0 && Start(RunRef(r, SRun(bin, counter))) == r
    ensures ref' == NoRun || Bare(ref') == Bare(RunRef(r, SRun(bin, counter)))
  {
    hide BinElements;
    BinFacts(bin);
  }

  lemma GoneMore(D: set<int>, dead: set<int>, r: int)
    requires dead <= D
    ensures r in dead ==> D - (dead - {r}) == (D - dead) + {r}
    ensures r !in dead ==> D - (dead - {r}) == D - dead
    ensures dead - {r} <= D
  {}

  lemma Fewer(dead: set<int>, r: int)
    ensures dead - {r} == dead <==> r !in dead
    ensures dead - {r} <= dead
  {}

  lemma SmallStart(t: Table, o: Owner, i: int, bin: int, counter: int)
    requires IsStart(t, o, i) && t.map_[i] == SRun(bin, counter) && RunInfoOk(t.map_[i])
    ensures 0 <= bin < BINS && IsRun(t, o, i, SRun(bin, counter)) && RunLen(t.map_[i]) == BinPages(bin)
  {}

  lemma StartKinds(info: Info)
    requires RunInfoOk(info)
    ensures info.SRun? || info.LRun?
  {}

  lemma LargeLength(n: int)
    ensures RunLen(LRun(n)) == n
  {}

  lemma SameTables(T: Tables, c: int)
    requires c in T
    ensures T[c := T[c]] == T
  {}

  // ---- the ring walk ----

  lemma RestAfter(ring: seq<int>, k: nat)
    requires k < |ring|
    ensures ring[k + 1..] == Without(ring, k)[k..]
    ensures k + 1 == |ring| ==> ring[k + 1..] == []
  {}

  /** A chunk with a block in use is not empty. */
  lemma InUseNotEmpty(T: Tables, O: Owners, free: FreeLists, live: Live, dead: set<int>, c: int)
    requires TablesOk(T, O) && LedgerOk(T, O, free, live, dead) && MainInUse(live, c) && c in O && c in T
    ensures T[c].freePages != PAGES - FIRST_PAGE
  {
    hide *;
    var a := UsedBlock(live, c);
    LiveOccupies(T, O, free, live, dead, a);
    Extent(T, O, a, BlockSize(live[a]));
    RunOfIs(T, O, a);
    ChunkFacts(T, O, c);
    EmptySeesNone(T[c], O[c], PageNum(a));
  }

  lemma UsedBlock(live: Live, c: int) returns (a: int)
    requires MainInUse(live, c)
    ensures a in live && !live[a].Huge? && Base(a) == c
  {
    hide Base;
    a :| a in live && !live[a].Huge? && Base(a) == c;
  }

  lemma EmptySeesNone(t: Table, o: Owner, p: int)
    requires TableOk(t, o) && PageAt(t, o, p).PageRef?
    ensures t.freePages != PAGES - FIRST_PAGE
  {
    EmptyTable(t, o);
  }

  lemma FreeSumPages(T: Tables, T': Tables, c: int, cs: seq<int>, n: int)
    requires Distinct(cs) && c in cs && c in T && c in T' && T' == T[c := T'[c]] && T'[c].freePages == T[c].freePages + n
    ensures FreeSum(T', cs) == FreeSum(T, cs) + n
  {
    FreeSumStep(T, c, T'[c], cs);
  }

  lemma RingDistinct(links: LinkMap, ring: seq<int>)
    requires RingOk(links, ring)
    ensures Distinct(ring)
  {}

  lemma SubRing(ring: seq<int>, k: nat, ring0: seq<int>)
    requires k < |ring| && forall x :: x in ring ==> x in ring0
    ensures ring[k] in ring0
  {
    var c := ring[k];
    assert c in ring;
  }

  // ---- the collection as a whole ----

  /** The runs in gone are free pages now; every other address lies in the run it lay in. */
  ghost predicate RunsReleased(T0: Tables, O0: Owners, T: Tables, O: Owners, gone: set<int>) {
    forall a :: RunOf(T, O, a) == if Start(RunOf(T0, O0, a)) in gone then NoRun else RunOf(T0, O0, a)
  }

  lemma AllReleased(T0: Tables, O0: Owners, T1: Tables, T: Tables, O: Owners, gone: set<int>)
    requires Quiet(T0, O0) && Quiet(T, O) && Removed(T0, O0, T1, O0, {}) && Removed(T1, O0, T, O, gone)
    ensures RunsReleased(T0, O0, T, O, gone)
  {
    hide RunOf;
    forall a
      ensures RunOf(T, O, a) == if Start(RunOf(T0, O0, a)) in gone then NoRun else RunOf(T0, O0, a)
    {
      assert CounterOf(RunOf(T0, O0, a)) == 0 && CounterOf(RunOf(T, O, a)) == 0;
      assert Bare(RunOf(T1, O0, a)) == if Start(RunOf(T0, O0, a)) in {} then NoRun else Bare(RunOf(T0, O0, a));
      assert Bare(RunOf(T, O, a)) == if Start(RunOf(T1, O0, a)) in gone then NoRun else Bare(RunOf(T1, O0, a));
      BareQuiet(RunOf(T0, O0, a));
      BareQuiet(RunOf(T, O, a));
      BareStart(RunOf(T0, O0, a));
      BareStart(RunOf(T1, O0, a));
      StartNone(RunOf(T0, O0, a));
      StartNone(RunOf(T1, O0, a));
    }
  }

  lemma BareQuiet(ref: RunRef)
    requires CounterOf(ref) == 0
    ensures Bare(ref) == ref
  {}

  lemma StartNone(ref: RunRef)
    ensures Start(ref) == (if ref.RunRef? then ref.start else 0) && (ref.RunRef? || ref == NoRun)
  {}

  /** After a collection nothing is left to collect. */
  lemma NothingLeft(T0: Tables, O0: Owners, lists: FreeLists, live: Live, T: Tables, O: Owners, free: FreeLists, gone: set<int>)
    requires LedgerOk(T0, O0, lists, live, {}) && RunsReleased(T0, O0, T, O, gone)
    requires DeadAre(T0, O0, lists, BINS, gone) && KeptLists(T0, O0, lists, free, BINS, gone)
    ensures DeadAre(T, O, free, BINS, {})
  {
    hide RunOf, Keep;
    forall r
      ensures !Doomed(T, O, free, BINS, r)
    {
      assert r in gone <==> Doomed(T0, O0, lists, BINS, r);
      assert RunOf(T, O, r) == if Start(RunOf(T0, O0, r)) in gone then NoRun else RunOf(T0, O0, r);
      StartNone(RunOf(T0, O0, r));
      if Doomed(T, O, free, BINS, r) {
        FewerFree(T0, O0, lists, live, free, gone, r, RunOf(T, O, r).info.bin);
      }
    }
  }

  lemma FewerFree(T0: Tables, O0: Owners, lists: FreeLists, live: Live, free: FreeLists, gone: set<int>, r: int, bin: int)
    requires LedgerOk(T0, O0, lists, live, {}) && KeptLists(T0, O0, lists, free, BINS, gone) && SlotsFree(free, r, bin) && 0 <= bin < BINS
    ensures SlotsFree(lists, r, bin)
  {
    hide RunOf, Keep, SlotAt;
    KeepFacts(T0, O0, lists[bin], gone);
    forall a | SlotAt(r, bin, a)
      ensures InFree(lists, bin, a)
    {
      assert InFree(free, bin, a);
    }
  }

  lemma StillEqual(D: set<int>, dead0: set<int>, dead: set<int>, collected: int, pages: int)
    requires dead0 <= D && dead <= dead0 && collected >= 0 && pages >= 0
    requires (collected == 0 <==> dead0 == D) && (pages == 0 <==> dead == dead0)
    ensures dead <= D && (collected + pages == 0 <==> dead == D)
  {}

  lemma WithoutIn(ring: seq<int>, k: nat, ring0: seq<int>)
    requires k < |ring| && forall x :: x in ring ==> x in ring0
    ensures forall x :: x in Without(ring, k) ==> x in ring0
  {
    forall x | x in Without(ring, k)
      ensures x in ring0
    {
      assert x in ring;
    }
  }

  lemma MarkedSame(T: Tables, O: Owners, O': Owners, dead: set<int>)
    requires Marked(T, O, dead) && SameRuns(T, O, T, O')
    ensures Marked(T, O', dead)
  {
    hide RunOf, FullRef;
    forall r | r in dead
      ensures FullRef(RunOf(T, O', r)) && Start(RunOf(T, O', r)) == r
    {
      assert RunOf(T, O', r) == RunOf(T, O, r);
    }
    forall a | FullRef(RunOf(T, O', a))
      ensures Start(RunOf(T, O', a)) in dead
    {
      assert RunOf(T, O', a) == RunOf(T, O, a);
    }
  }

  lemma NoneGone(D: set<int>)
    ensures D - D == {} && D - {} == D
  {}

  lemma RemovedRefl(T: Tables, O: Owners)
    ensures Removed(T, O, T, O, {})
  {
    hide RunOf;
  }

  function PagesBytes(pages: int): (bytes: int)
    ensures bytes == PAGE_SIZE * pages && (pages >= 0 ==> bytes >= 0) && (bytes == 0 <==> pages == 0)
  {
    pages * PAGE_SIZE
  }

  /** The free lists lost slots at most. */
  ghost predicate NoneGained(lists: FreeLists, free: FreeLists) {
    forall b, a :: InFree(free, b, a) ==> InFree(lists, b, a)
  }

  lemma NoneGainedRefl(free: FreeLists)
    ensures NoneGained(free, free)
  {}

  lemma NoneGainedTrans(f0: FreeLists, f1: FreeLists, f2: FreeLists)
    requires NoneGained(f0, f1) && NoneGained(f1, f2)
    ensures NoneGained(f0, f2)
  {}

  /** The free lists but that of the bin lost slots at most. */
  ghost predicate OnlyGained(lists: FreeLists, free: FreeLists, bin: int) {
    forall b, a :: b != bin && InFree(free, b, a) ==> InFree(lists, b, a)
  }

  lemma OnlyGainedIs(lists: FreeLists, mid: FreeLists, free: FreeLists, bin: int)
    requires NoneGained(lists, mid) && 0 <= bin < |mid| == |free| && free == mid[bin := free[bin]]
    ensures OnlyGained(lists, free, bin)
  {
    forall b, a | b != bin && InFree(free, b, a) ensures InFree(lists, b, a) {
      assert InFree(mid, b, a);
    }
  }

  lemma OnlyGainedNone(lists: FreeLists, free: FreeLists, bin: int)
    requires NoneGained(lists, free)
    ensures OnlyGained(lists, free, bin)
  {}

  lemma OnlyGainedPop(lists: FreeLists, bin: int)
    requires 0 <= bin < |lists| && lists[bin] != []
    ensures OnlyGained(lists, lists[bin := lists[bin][1..]], bin)
  {}

  lemma KeptGainsNone(T: Tables, O: Owners, lists: FreeLists, live: Live, free: FreeLists, gone: set<int>)
    requires LedgerOk(T, O, lists, live, {}) && KeptLists(T, O, lists, free, BINS, gone)
    ensures NoneGained(lists, free)
  {
    hide RunOf, Keep;
    forall b, a | InFree(free, b, a)
      ensures InFree(lists, b, a)
    {
      KeepFacts(T, O, lists[b], gone);
    }
  }

  lemma SameDead(gone: set<int>, gone': set<int>, T: Tables, O: Owners, free: FreeLists)
    requires DeadAre(T, O, free, BINS, gone) && DeadAre(T, O, free, BINS, gone')
    ensures gone == gone'
  {
    hide Doomed;
    forall r
      ensures r in gone <==> r in gone'
    {
      assert r in gone <==> Doomed(T, O, free, BINS, r);
      assert r in gone' <==> Doomed(T, O, free, BINS, r);
    }
  }

  lemma SecondFindsNothing(T: Tables, O: Owners, free: FreeLists, gone: set<int>)
    requires DeadAre(T, O, free, BINS, {}) && DeadAre(T, O, free, BINS, gone)
    ensures gone == {}
  {
    hide Doomed;
    SameDead(gone, {}, T, O, free);
  }
}
