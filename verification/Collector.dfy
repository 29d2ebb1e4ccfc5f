/**
 What the garbage collector counts and condemns: a small run whose slots are all on the free list of
 its bin. The counter in an info word has 9 bits, so a full count of 512 reads as 0.
 */
module Collector {
  import opened Sizes
  import opened PageBits
  import opened Chunks
  import opened Rings
  import opened Blocks
  import opened Ledger

  const COUNTER_RANGE: int := 512

  /** A counter as the 9 bits of an info word hold it. */
  function Wrapped(n: int): int { n % COUNTER_RANGE }

  lemma WrappedFits(n: int)
    ensures 0 <= Wrapped(n) < 512 && Wrapped(n) == n % COUNTER_RANGE
  {}

  /** The run an address belongs to. */
  ghost function Home(T: Tables, O: Owners, a: int): int { Start(RunOf(T, O, a)) }

  /** How many slots of the run at r are on the list. */
  ghost function Count(T: Tables, O: Owners, list: seq<int>, r: int): nat {
    if list == [] then 0
    else Count(T, O, list[..|list| - 1], r) + if Home(T, O, list[|list| - 1]) == r then 1 else 0
  }

  /** The slots of the list whose run is not condemned, in the same order. */
  ghost function Keep(T: Tables, O: Owners, list: seq<int>, dead: set<int>): seq<int> {
    if list == [] then []
    else
      Keep(T, O, list[..|list| - 1], dead) +
      if Home(T, O, list[|list| - 1]) in dead then [] else [list[|list| - 1]]
  }

  ghost function Homes(T: Tables, O: Owners, list: seq<int>): set<int> {
    set a | a in list :: Home(T, O, a)
  }

  /** The runs of the bin that the counters show as full, each with its bin. */
  ghost function Condemned(T: Tables, O: Owners, list: seq<int>, bin: int): map<int, int>
    requires 0 <= bin < BINS
  {
    map r | r in Homes(T, O, list) && Count(T, O, list, r) % COUNTER_RANGE == BinElements(bin) :: bin
  }

  /** Every slot of the run at r is free. */
  ghost predicate SlotsFree(free: FreeLists, r: int, bin: int) {
    forall a :: SlotAt(r, bin, a) ==> InFree(free, bin, a)
  }

  // ---- counting ----

  lemma CountSnoc(T: Tables, O: Owners, list: seq<int>, k: nat, r: int)
    requires k < |list|
    ensures Count(T, O, list[..k + 1], r) == Count(T, O, list[..k], r) + if Home(T, O, list[k]) == r then 1 else 0
  {
    var l := list[..k + 1];
    assert l[..|l| - 1] == list[..k];
  }

  lemma KeepSnoc(T: Tables, O: Owners, list: seq<int>, k: nat, dead: set<int>)
    requires k < |list|
    ensures Keep(T, O, list[..k + 1], dead) == Keep(T, O, list[..k], dead) + if Home(T, O, list[k]) in dead then [] else [list[k]]
  {
    var l := list[..k + 1];
    assert l[..|l| - 1] == list[..k];
  }

  ghost function HomeSet(T: Tables, O: Owners, list: seq<int>, r: int): set<int> {
    set a | a in list && Home(T, O, a) == r
  }

  lemma HomeSetSnoc(T: Tables, O: Owners, list: seq<int>, r: int)
    requires Distinct(list) && list != []
    ensures var init, last := list[..|list| - 1], list[|list| - 1];
            && Distinct(init) && last !in HomeSet(T, O, init, r)
            && HomeSet(T, O, list, r) == HomeSet(T, O, init, r) + if Home(T, O, last) == r then {last} else {}
  {
    hide Home;
    var init, last := list[..|list| - 1], list[|list| - 1];
    assert list == init + [last] && last !in init;
  }

  lemma {:induction false} CountIsCard(T: Tables, O: Owners, list: seq<int>, r: int)
    requires Distinct(list)
    ensures Count(T, O, list, r) == |HomeSet(T, O, list, r)|
    decreases |list|
  {
    hide Home, HomeSet, Distinct;
    if list == [] {
      NoHomes(T, O, r);
    } else {
      HomeSetSnoc(T, O, list, r);
      CountIsCard(T, O, list[..|list| - 1], r);
    }
  }

  lemma NoHomes(T: Tables, O: Owners, r: int)
    ensures HomeSet(T, O, [], r) == {}
  {}

  ghost function SlotsUpTo(r: int, size: int, k: nat): set<int> {
    if k == 0 then {} else SlotsUpTo(r, size, k - 1) + {r + (k - 1) * size}
  }

  lemma {:induction false} SlotsUpToAre(r: int, size: int, k: nat, a: int)
    ensures a in SlotsUpTo(r, size, k) <==> a - r in Multiples(size, k)
    decreases k
  {
    if k > 0 {
      SlotsUpToAre(r, size, k - 1, a);
    }
  }

  lemma {:induction false} SlotsUpToCard(r: int, size: int, k: nat)
    requires size > 0
    ensures |SlotsUpTo(r, size, k)| == k
    decreases k
  {
    if k > 0 {
      SlotsUpToCard(r, size, k - 1);
      SlotsUpToAre(r, size, k - 1, r + (k - 1) * size);
      NextMultiple(size, k);
    }
  }

  lemma NextMultiple(size: int, k: nat)
    requires size > 0 && k > 0
    ensures (k - 1) * size !in Multiples(size, k - 1)
  {
    MultiplesFacts(size, k - 1, (k - 1) * size);
    forall j | 0 <= j < k - 1
      ensures j * size != (k - 1) * size
    {
      MulLess(j, k - 1, size);
    }
  }

  ghost function SlotSet(r: int, bin: int): set<int>
    requires 0 <= bin < BINS
  {
    BinFacts(bin);
    SlotsUpTo(r, BinSize(bin), BinElements(bin))
  }

  lemma SlotSetFacts(r: int, bin: int)
    requires 0 <= bin < BINS
    ensures |SlotSet(r, bin)| == BinElements(bin)
    ensures forall a :: a in SlotSet(r, bin) <==> SlotAt(r, bin, a)
  {
    hide BinSize, BinElements, SlotsUpTo, Multiples;
    BinFacts(bin);
    SlotsUpToCard(r, BinSize(bin), BinElements(bin));
    forall a
      ensures a in SlotSet(r, bin) <==> SlotAt(r, bin, a)
    {
      SlotsUpToAre(r, BinSize(bin), BinElements(bin), a);
    }
  }

  lemma SubsetCard(a: set<int>, b: set<int>)
    requires a <= b
    ensures |a| <= |b| && (|a| == |b| ==> a == b)
  {
    assert b == a + (b - a) && |b| == |a| + |b - a|;
    if |b - a| == 0 {
      assert b - a == {};
    }
  }

  /** A run is counted full exactly when all its slots are on the list. */
  lemma CountFull(T: Tables, O: Owners, free: FreeLists, live: Live, dead: set<int>, bin: int, r: int)
    requires LedgerOk(T, O, free, live, dead) && TablesOk(T, O) && 0 <= bin < BINS
    requires RunOf(T, O, r).RunRef? && RunOf(T, O, r).start == r && RunOf(T, O, r).info.SRun? && RunOf(T, O, r).info.bin == bin
    ensures |free| == BINS && Count(T, O, free[bin], r) <= BinElements(bin)
    ensures Count(T, O, free[bin], r) == BinElements(bin) <==> SlotsFree(free, r, bin)
  {
    hide RunOf, TablesOk, BinElements, Count, SlotAt, SlotSet, RunLen;
    var list := free[bin];
    CountIsCard(T, O, list, r);
    SlotSetFacts(r, bin);
    var s := HomeSet(T, O, list, r);
    forall a | a in s
      ensures a in SlotSet(r, bin)
    {
      assert InFree(free, bin, a);
      assert IsSlot(T, O, a, bin);
    }
    SubsetCard(s, SlotSet(r, bin));
    if SlotsFree(free, r, bin) {
      forall a | a in SlotSet(r, bin)
        ensures a in s
      {
        assert SlotAt(r, bin, a);
        assert InFree(free, bin, a);
        SlotHome(T, O, r, bin, a);
      }
      assert s == SlotSet(r, bin);
    }
    if |s| == BinElements(bin) {
      forall a | SlotAt(r, bin, a)
        ensures InFree(free, bin, a)
      {
        assert a in s;
      }
    }
  }

  /** A slot position of a run lies in that run. */
  lemma SlotHome(T: Tables, O: Owners, r: int, bin: int, a: int)
    requires TablesOk(T, O) && SlotAt(r, bin, a) && 0 <= bin < BINS
    requires RunOf(T, O, r).RunRef? && RunOf(T, O, r).start == r && RunOf(T, O, r).info.SRun? && RunOf(T, O, r).info.bin == bin
    ensures RunOf(T, O, a) == RunOf(T, O, r) && IsSlot(T, O, a, bin)
  {
    hide RunOf, TablesOk, BinSize, BinPages, SlotAt;
    SlotsInside(r, bin);
    RunSpan(T, O, r);
  }

  // ---- the tables while the collector counts ----

  /** The run an address should see once the bins below bin, and the first k slots of bin, are counted. */
  ghost function Expect(T: Tables, O: Owners, lists: FreeLists, bin: int, k: int, a: int): RunRef {
    match RunOf(T, O, a)
    case RunRef(r, SRun(b, _)) => RunRef(r, SRun(b, Tally(T, O, lists, bin, k, b, r)))
    case ref => ref
  }

  ghost function Tally(T: Tables, O: Owners, lists: FreeLists, bin: int, k: int, b: int, r: int): int {
    if b < bin && 0 <= b < |lists| then Count(T, O, lists[b], r) % COUNTER_RANGE
    else if b == bin && 0 <= b < |lists| && 0 <= k <= |lists[b]| then Count(T, O, lists[b][..k], r) % COUNTER_RANGE
    else 0
  }

  /** T' differs from the quiet tables T in the counters only, and the counters are the tallies. */
  ghost predicate Counted(T: Tables, T': Tables, O: Owners, lists: FreeLists, bin: int, k: int) {
    forall a :: RunOf(T', O, a) == Expect(T, O, lists, bin, k, a)
  }

  lemma CountedStart(T: Tables, O: Owners, lists: FreeLists)
    requires forall a :: CounterZero(RunOf(T, O, a))
    ensures Counted(T, T, O, lists, 0, 0)
  {
    hide RunOf;
    forall a
      ensures RunOf(T, O, a) == Expect(T, O, lists, 0, 0, a)
    {
      assert CounterZero(RunOf(T, O, a));
      assert |lists| > 0 ==> lists[0][..0] == [];
    }
  }

  ghost predicate CounterZero(ref: RunRef) {
    match ref
    case RunRef(_, SRun(_, c)) => c == 0
    case _ => true
  }

  lemma CountedNext(T: Tables, T': Tables, O: Owners, lists: FreeLists, bin: int)
    requires 0 <= bin < |lists| && Counted(T, T', O, lists, bin, |lists[bin]|)
    ensures Counted(T, T', O, lists, bin + 1, 0)
  {
    hide RunOf;
    assert lists[bin][..|lists[bin]|] == lists[bin];
    assert bin + 1 < |lists| ==> lists[bin + 1][..0] == [];
    forall a
      ensures RunOf(T', O, a) == Expect(T, O, lists, bin + 1, 0, a)
    {
      assert RunOf(T', O, a) == Expect(T, O, lists, bin, |lists[bin]|, a);
    }
  }

  /** Counting slot k of the list: the counter of its run goes up by one. */
  lemma CountedStep(T: Tables, T1: Tables, T2: Tables, O: Owners, lists: FreeLists, bin: int, k: int, r: int, hi: int)
    requires 0 <= bin < |lists| && 0 <= k < |lists[bin]| && Counted(T, T1, O, lists, bin, k)
    requires Home(T, O, lists[bin][k]) == r && RunOn(T1, O, r, hi, RunOf(T1, O, lists[bin][k]))
    requires RunOf(T1, O, lists[bin][k]).RunRef? && RunOf(T1, O, lists[bin][k]).info.SRun?
    requires RunOf(T1, O, lists[bin][k]).info.bin == bin
    requires forall a :: RunOf(T1, O, a).RunRef? && RunOf(T1, O, a).start == r ==> r <= a < hi
    requires var c := RunOf(T1, O, lists[bin][k]).info.counter;
             RunsChanged(T1, O, T2, O, r, hi, RunRef(r, SRun(bin, (c + 1) % COUNTER_RANGE)))
    ensures Counted(T, T2, O, lists, bin, k + 1)
    ensures RunOf(T1, O, lists[bin][k]) == RunRef(r, SRun(bin, Count(T, O, lists[bin][..k], r) % COUNTER_RANGE))
  {
    hide RunOf, Count;
    var p := lists[bin][k];
    assert RunOf(T1, O, p) == Expect(T, O, lists, bin, k, p);
    CountSnoc(T, O, lists[bin], k, r);
    forall a
      ensures RunOf(T2, O, a) == Expect(T, O, lists, bin, k + 1, a)
    {
      assert RunOf(T1, O, a) == Expect(T, O, lists, bin, k, a);
      if r <= a < hi {
      } else if RunOf(T, O, a).RunRef? {
        CountSnoc(T, O, lists[bin], k, RunOf(T, O, a).start);
      }
    }
  }

  /** Counting moves no address to another run. */
  lemma CountedHome(T: Tables, T': Tables, O: Owners, lists: FreeLists, bin: int, k: int, a: int)
    requires Counted(T, T', O, lists, bin, k)
    ensures Home(T', O, a) == Home(T, O, a)
    ensures forall b :: IsSlot(T', O, a, b) <==> IsSlot(T, O, a, b)
  {
    hide RunOf, SlotAt;
    assert RunOf(T', O, a) == Expect(T, O, lists, bin, k, a);
  }

  /** A counter changes: the ledger does not notice. */
  lemma LedgerRecount(T: Tables, T': Tables, O: Owners, free: FreeLists, live: Live, dead: set<int>, r: int, hi: int, bin: int, c: int, c': int)
    requires LedgerOk(T, O, free, live, dead)
    requires RunOn(T, O, r, hi, RunRef(r, SRun(bin, c))) && RunsChanged(T, O, T', O, r, hi, RunRef(r, SRun(bin, c')))
    ensures LedgerOk(T', O, free, live, dead)
  {
    hide RunOf, SlotAt;
    forall a, b | IsSlot(T', O, a, b)
      ensures InFree(free, b, a) || LiveAs(live, a, Small(b)) || Start(RunOf(T', O, a)) in dead
    {
      assert IsSlot(T, O, a, b);
    }
    forall b, a | InFree(free, b, a)
      ensures IsSlot(T', O, a, b) && a !in live && Start(RunOf(T', O, a)) !in dead
    {
      assert IsSlot(T, O, a, b);
    }
    forall a | a in live
      ensures LivePlaced(T', O, live, dead, a)
    {
      assert LivePlaced(T, O, live, dead, a);
    }
    forall a, n | IsLarge(T', O, a, n)
      ensures LiveAs(live, a, Large(n))
    {
      assert IsLarge(T, O, a, n);
    }
  }

  // ---- condemning ----

  lemma {:induction false} KeepFacts(T: Tables, O: Owners, list: seq<int>, dead: set<int>)
    requires Distinct(list)
    ensures forall a :: a in Keep(T, O, list, dead) <==> a in list && Home(T, O, a) !in dead
    ensures Distinct(Keep(T, O, list, dead)) && |Keep(T, O, list, dead)| <= |list|
    decreases |list|
  {
    hide Home;
    if list != [] {
      var init, last := list[..|list| - 1], list[|list| - 1];
      assert list == init + [last] && last !in init;
      KeepFacts(T, O, init, dead);
    }
  }

  lemma CondemnedFacts(T: Tables, O: Owners, free: FreeLists, live: Live, dead: set<int>, bin: int)
    requires LedgerOk(T, O, free, live, dead) && TablesOk(T, O) && 0 <= bin < BINS
    ensures |free| == BINS
    ensures forall r :: r in Condemned(T, O, free[bin], bin) ==> CondemnedAt(T, O, free, bin, r)
    ensures forall r :: r in Condemned(T, O, free[bin], bin) ==> Condemned(T, O, free[bin], bin)[r] == bin
  {
    hide RunOf, TablesOk, Count;
    var list := free[bin];
    forall r | r in Condemned(T, O, list, bin)
      ensures CondemnedAt(T, O, free, bin, r)
    {
      var a :| a in list && Home(T, O, a) == r;
      SlotRun(T, O, free, live, dead, bin, a);
      CountFull(T, O, free, live, dead, bin, r);
      CounterFits(bin, Count(T, O, list, r));
    }
  }

  /** The run at r serves the bin, is not bin 0's, and every slot of it is free. */
  ghost predicate CondemnedAt(T: Tables, O: Owners, free: FreeLists, bin: int, r: int) {
    && 0 < bin < BINS && RunOf(T, O, r).RunRef? && RunOf(T, O, r).start == r
    && RunOf(T, O, r).info.SRun? && RunOf(T, O, r).info.bin == bin && SlotsFree(free, r, bin)
  }

  lemma SlotRun(T: Tables, O: Owners, free: FreeLists, live: Live, dead: set<int>, bin: int, a: int)
    requires LedgerOk(T, O, free, live, dead) && TablesOk(T, O) && InFree(free, bin, a)
    ensures 0 <= bin < BINS && IsSlot(T, O, a, bin)
    ensures var r := Home(T, O, a);
            && RunOf(T, O, a).RunRef? && RunOf(T, O, r) == RunOf(T, O, a) && RunOf(T, O, r).start == r
            && RunOf(T, O, r).info.SRun? && RunOf(T, O, r).info.bin == bin && r !in dead
  {
    hide RunOf, TablesOk, BinPages;
    assert IsSlot(T, O, a, bin);
    RunSpan(T, O, a);
  }

  /** The 9-bit counter reaches the number of slots exactly in the bins other than 0. */
  lemma CounterFits(bin: int, n: nat)
    requires 0 <= bin < BINS && n <= BinElements(bin)
    ensures n % COUNTER_RANGE == BinElements(bin) <==> bin > 0 && n == BinElements(bin)
  {
    hide BinElements;
    BinFacts(bin);
  }

  /** The converse: a run of another bin than 0 with all its slots free is condemned. */
  lemma AllFreeCondemned(T: Tables, O: Owners, free: FreeLists, live: Live, dead: set<int>, bin: int, r: int)
    requires LedgerOk(T, O, free, live, dead) && TablesOk(T, O) && CondemnedAt(T, O, free, bin, r)
    ensures |free| == BINS && r in Condemned(T, O, free[bin], bin)
  {
    hide RunOf, TablesOk, Count, BinSize, BinPages;
    var list := free[bin];
    CountFull(T, O, free, live, dead, bin, r);
    CounterFits(bin, Count(T, O, list, r));
    SlotsInside(r, bin);
    assert InFree(free, bin, r);
    assert Home(T, O, r) == r;
    assert r in Homes(T, O, list);
  }

  /** Taking the slots of condemned runs off the free list of their bin. */
  lemma Condemn(T: Tables, O: Owners, free: FreeLists, live: Live, dead: set<int>, bin: int, more: set<int>)
    requires LedgerOk(T, O, free, live, dead) && TablesOk(T, O) && 0 <= bin < BINS && |free| == BINS
    requires forall r :: r in more ==> CondemnedAt(T, O, free, bin, r)
    ensures LedgerOk(T, O, free[bin := Keep(T, O, free[bin], more)], live, dead + more)
  {
    hide RunOf, TablesOk, SlotAt, Keep;
    KeepFacts(T, O, free[bin], more);
    var free' := free[bin := Keep(T, O, free[bin], more)];
    forall a, b | IsSlot(T, O, a, b)
      ensures InFree(free', b, a) || LiveAs(live, a, Small(b)) || Start(RunOf(T, O, a)) in dead + more
    {}
    forall b, a | InFree(free', b, a)
      ensures IsSlot(T, O, a, b) && a !in live && Start(RunOf(T, O, a)) !in dead + more
    {
      assert InFree(free, b, a);
      if b != bin && Home(T, O, a) in more {
        HomeBin(T, O, a, b, bin, Home(T, O, a));
      }
    }
    forall a | a in live
      ensures LivePlaced(T, O, live, dead + more, a)
    {
      assert LivePlaced(T, O, live, dead, a);
      if live[a].Small? && Home(T, O, a) in more {
        LiveNotCondemned(T, O, free, live, dead, bin, Home(T, O, a), a);
      }
    }
  }

  lemma HomeBin(T: Tables, O: Owners, a: int, b: int, bin: int, r: int)
    requires TablesOk(T, O) && IsSlot(T, O, a, b) && Home(T, O, a) == r
    requires RunOf(T, O, r).RunRef? && RunOf(T, O, r).info.SRun? && RunOf(T, O, r).info.bin == bin
    ensures b == bin
  {
    hide RunOf, TablesOk, BinPages;
    RunSpan(T, O, a);
  }

  lemma LiveNotCondemned(T: Tables, O: Owners, free: FreeLists, live: Live, dead: set<int>, bin: int, r: int, a: int)
    requires LedgerOk(T, O, free, live, dead) && TablesOk(T, O) && a in live && live[a].Small?
    requires CondemnedAt(T, O, free, bin, r)
    ensures Home(T, O, a) != r
  {
    hide RunOf, TablesOk, BinPages;
    assert LivePlaced(T, O, live, dead, a);
    RunSpan(T, O, a);
    assert Home(T, O, a) == r ==> SlotAt(r, bin, a);
    assert Home(T, O, a) == r ==> InFree(free, bin, a);
  }

  /** Releasing a condemned run: its slots vanish together with it. */
  lemma DropDead(T: Tables, O: Owners, T': Tables, O': Owners, free: FreeLists, live: Live, dead: set<int>, r: int, hi: int, bin: int, c: int)
    requires LedgerOk(T, O, free, live, dead) && r in dead
    requires RunOn(T, O, r, hi, RunRef(r, SRun(bin, c))) && RunsChanged(T, O, T', O', r, hi, NoRun)
    requires forall a :: Home(T, O, a) == r && RunOf(T, O, a).RunRef? ==> r <= a < hi
    ensures LedgerOk(T', O', free, live, dead - {r})
  {
    hide RunOf, SlotAt;
    var dead' := dead - {r};
    forall a, b | IsSlot(T', O', a, b)
      ensures InFree(free, b, a) || LiveAs(live, a, Small(b)) || Start(RunOf(T', O', a)) in dead'
    {
      assert IsSlot(T, O, a, b);
    }
    forall b, a | InFree(free, b, a)
      ensures IsSlot(T', O', a, b) && a !in live && Start(RunOf(T', O', a)) !in dead'
    {
      assert IsSlot(T, O, a, b);
    }
    forall a | a in live
      ensures LivePlaced(T', O', live, dead', a)
    {
      assert LivePlaced(T, O, live, dead, a);
    }
    forall a, n | IsLarge(T', O', a, n)
      ensures LiveAs(live, a, Large(n))
    {
      assert IsLarge(T, O, a, n);
    }
  }

  // ---- from a slot to the info word of its run ----

  /** The page whose info word describes the run a page lies in. */
  function HeadPage(info: Info, page: int): int {
    match info
    case NRun(_, offset) => page - offset
    case _ => page
  }

  lemma Locate(T: Tables, O: Owners, a: int, bin: int)
    requires TablesOk(T, O) && IsSlot(T, O, a, bin)
    ensures Base(a) in T && Base(a) in O && |T[Base(a)].map_| == PAGES && 0 <= bin < BINS
    ensures var head := HeadPage(T[Base(a)].map_[PageNum(a)], PageNum(a));
            && 0 <= head < PAGES && Home(T, O, a) == Base(a) + head * PAGE_SIZE
            && T[Base(a)].map_[head].SRun? && T[Base(a)].map_[head].bin == bin && 0 <= T[Base(a)].map_[head].counter < 512
            && IsRun(T[Base(a)], O[Base(a)], head, T[Base(a)].map_[head])
            && RunOf(T, O, a) == RunRef(Home(T, O, a), T[Base(a)].map_[head])
            && RunOn(T, O, Home(T, O, a), Home(T, O, a) + BinPages(bin) * PAGE_SIZE, RunOf(T, O, a))
    ensures !T[Base(a)].map_[PageNum(a)].LRun?
  {
    hide RunOf, TablesOk, BinPages, SlotAt, Base, PageNum, PageAt;
    SlotKind(T, O, a, bin);
    RunSpan(T, O, a);
    InfoAt(T, O, a);
    ChunkFacts(T, O, Base(a));
    var RunRef(r, info) := RunOf(T, O, a);
    RunInfoIs(T[Base(a)], O[Base(a)], PageNum(r), info);
  }

  lemma SlotKind(T: Tables, O: Owners, a: int, bin: int)
    requires IsSlot(T, O, a, bin)
    ensures RunOf(T, O, a).RunRef? && RunOf(T, O, a).info.SRun? && RunOf(T, O, a).info.bin == bin && 0 <= bin < BINS
    ensures SlotAt(RunOf(T, O, a).start, bin, a)
  {
    hide RunOf, Offsets;
  }

  lemma RunInfoIs(t: Table, o: Owner, page: int, info: Info)
    requires IsRun(t, o, page, info)
    ensures 0 < page < PAGES && t.map_[page] == info
  {}

  /** All addresses that see a small run lie within it. */
  lemma HomeRange(T: Tables, O: Owners, r: int, bin: int)
    requires TablesOk(T, O) && 0 <= bin < BINS
    requires RunOf(T, O, r).RunRef? && RunOf(T, O, r).info.SRun? && RunOf(T, O, r).info.bin == bin && RunOf(T, O, r).start == r
    ensures forall a :: RunOf(T, O, a).RunRef? && RunOf(T, O, a).start == r ==> r <= a < r + BinPages(bin) * PAGE_SIZE
  {
    hide RunOf, TablesOk, BinPages;
    forall a | RunOf(T, O, a).RunRef? && RunOf(T, O, a).start == r
      ensures r <= a < r + BinPages(bin) * PAGE_SIZE
    {
      RunSpan(T, O, a);
    }
  }

  /** No run of the bin has its counter at full after k slots. */
  ghost predicate NoneFull(T: Tables, O: Owners, list: seq<int>, bin: int) {
    0 <= bin < BINS && forall r :: Count(T, O, list, r) % COUNTER_RANGE != BinElements(bin)
  }

  lemma NoneFullStart(T: Tables, O: Owners, list: seq<int>, bin: int)
    requires 0 <= bin < BINS
    ensures NoneFull(T, O, list[..0], bin)
  {
    hide BinElements;
    BinFacts(bin);
    assert list[..0] == [];
  }

  lemma NoneFullStep(T: Tables, O: Owners, list: seq<int>, k: nat, bin: int)
    requires k < |list| && NoneFull(T, O, list[..k], bin)
    requires Count(T, O, list[..k], Home(T, O, list[k])) % COUNTER_RANGE + 1 != BinElements(bin)
    ensures NoneFull(T, O, list[..k + 1], bin)
  {
    hide BinElements, Home, Count;
    BinFacts(bin);
    var next := list[..k + 1];
    forall r
      ensures Count(T, O, next, r) % COUNTER_RANGE != BinElements(bin)
    {
      CountSnoc(T, O, list, k, r);
    }
  }

  lemma NoneFullCondemns(T: Tables, O: Owners, list: seq<int>, bin: int)
    requires NoneFull(T, O, list, bin)
    ensures Condemned(T, O, list, bin) == map[]
  {
    hide BinElements, Home, Count;
  }

  /** After counting, the counter of a slot's run shows whether the run is condemned. */
  lemma FullMeansCondemned(T: Tables, T': Tables, O: Owners, lists: FreeLists, bin: int, a: int)
    requires 0 <= bin < |lists| && bin < BINS && Counted(T, T', O, lists, bin, |lists[bin]|) && a in lists[bin] && IsSlot(T', O, a, bin)
    ensures RunOf(T', O, a).RunRef? && RunOf(T', O, a).info.SRun?
    ensures RunOf(T', O, a).info.counter == BinElements(bin) <==> Home(T, O, a) in Condemned(T, O, lists[bin], bin)
  {
    hide RunOf, BinElements, Count, SlotAt;
    assert RunOf(T', O, a) == Expect(T, O, lists, bin, |lists[bin]|, a);
    assert lists[bin][..|lists[bin]|] == lists[bin];
    assert Home(T, O, a) in Homes(T, O, lists[bin]);
  }

  lemma KeepNone(T: Tables, O: Owners, list: seq<int>)
    ensures Keep(T, O, list, {}) == list
  {
    hide Home;
    if list != [] {
      KeepNone(T, O, list[..|list| - 1]);
    }
  }
}
