/**
 The later phases of the garbage collector: unlinking the slots of condemned runs, and sweeping the
 chunks for those runs.
 */
module Sweep {
  import opened Sizes
  import opened Chunks
  import opened Rings
  import opened Blocks
  import opened Ledger
  import opened Memory
  import opened Regions
  import opened Collector
  import opened Steps

  // ---- unlinking ----

  /** The word at a free slot belongs to no block. */
  lemma FreeApart(T: Tables, O: Owners, free: FreeLists, live: Live, dead: set<int>, regions: RegionMap, ring: seq<int>,
                  cache: seq<int>, huge: seq<HugeEntry>, loose: RegionMap, bin: int, p: int)
    requires TablesOk(T, O) && LedgerOk(T, O, free, live, dead) && OwnersAre(O, ring) && HugeLedger(huge, live)
    requires RegionsOk(regions, ring, cache, huge, loose) && InFree(free, bin, p)
    ensures OutOf(live, p)
  {
    hide *;
    FreeOccupies(T, O, free, live, dead, bin, p);
    forall a
      ensures !InBlock(live, a, p)
    {
      if InBlock(live, a, p) {
        BlockFacts(live, a, p);
        if live[a].Huge? {
          Extent(T, O, p, BinSize(bin));
          HugeApart(T, O, live, regions, ring, cache, huge, loose, a, p);
        } else {
          LiveOccupies(T, O, free, live, dead, a);
          if a < p {
            Apart(T, O, a, BlockSize(live[a]), p, BinSize(bin));
          }
        }
      }
    }
    OutOfIs(live, p);
  }

  lemma OutOfIs(live: Live, p: int)
    requires forall a :: !InBlock(live, a, p)
    ensures OutOf(live, p)
  {}

  lemma BlockFacts(live: Live, a: int, w: int)
    requires InBlock(live, a, w)
    ensures a in live && a <= w < a + BlockSize(live[a])
  {}

  /** An address in a linked chunk lies in no huge block. */
  lemma HugeApart(T: Tables, O: Owners, live: Live, regions: RegionMap, ring: seq<int>, cache: seq<int>,
                  huge: seq<HugeEntry>, loose: RegionMap, a: int, w: int)
    requires OwnersAre(O, ring) && HugeLedger(huge, live) && RegionsOk(regions, ring, cache, huge, loose)
    requires Base(w) in O && a in live && live[a].Huge?
    ensures !(a <= w < a + BlockSize(live[a]))
  {
    assert IsPtr(huge, a);
    var e :| e in huge && e.ptr == a;
    assert EntryLive(live, e);
    var c := Base(w);
    assert c in ring;
    assert c <= w < c + CHUNK_SIZE;
    assert a != c;
    assert regions[a] == e.size && regions[c] == CHUNK_SIZE;
  }

  lemma UnlinkNext(mem: Words, head: int, list: seq<int>, k: nat, kept: seq<int>)
    requires k < |list| && ChainOk(mem, head, kept + list[k..]) && Distinct(list) && Distinct(kept)
    requires forall x :: x in kept ==> x in list[..k]
    ensures list[k] != 0 && Rd(mem, list[k]) == (if k + 1 < |list| then list[k + 1] else 0)
    ensures k + 1 < |list| ==> list[k + 1] != 0
    ensures kept == [] ==> ChainOk(mem, Rd(mem, list[k]), kept + list[k + 1..])
    ensures kept != [] ==> ChainOk(mem[kept[|kept| - 1] := Rd(mem, list[k])], head, kept + list[k + 1..])
    ensures ChainOk(mem, head, (kept + [list[k]]) + list[k + 1..])
    ensures kept != [] ==> kept[|kept| - 1] in list && kept[|kept| - 1] != 0
  {
    hide ChainOk;
    var rest := list[k + 1..];
    assert kept + list[k..] == kept + [list[k]] + rest;
    forall i, j | 0 <= i < |kept| && k <= j < |list|
      ensures kept[i] != list[j]
    {
      var x := kept[i];
      assert x in kept && x in list[..k];
    }
    ChainCut(mem, head, kept, list[k], rest);
    if k + 1 < |list| {
      ChainAt(mem, head, kept + list[k..], |kept| + 1);
    }
    assert kept == [] ==> kept + rest == rest;
    if kept != [] {
      assert kept[|kept| - 1] in list[..k];
      ChainAt(mem, head, kept + list[k..], |kept| - 1);
    }
  }

  lemma UnlinkStart(mem: Words, heads: seq<int>, free: FreeLists, bin: int, T: Tables, O: Owners, more: set<int>)
    requires ChainsOk(mem, heads, free) && 0 <= bin < BINS
    ensures |heads| == |free| == BINS && ChainOk(mem, heads[bin], [] + free[bin][0..])
    ensures heads[bin] == if free[bin] == [] then 0 else free[bin][0]
    ensures Keep(T, O, free[bin][..0], more) == [] && heads[bin := heads[bin]] == heads && OnlyAt(mem, mem, free[bin])
  {
    assert [] + free[bin][0..] == free[bin];
  }

  lemma KeptFacts(T: Tables, O: Owners, list: seq<int>, k: nat, more: set<int>)
    requires Distinct(list) && k <= |list|
    ensures Distinct(Keep(T, O, list[..k], more)) && forall x :: x in Keep(T, O, list[..k], more) ==> x in list[..k]
  {
    KeepFacts(T, O, list[..k], more);
  }

  lemma OnlyAtWrite(mem: Words, mem': Words, list: seq<int>, a: int, v: int)
    requires OnlyAt(mem, mem', list) && a in list
    ensures OnlyAt(mem, mem'[a := v], list)
  {}

  /** The chains once the slots of one bin are unlinked. */
  lemma ChainsAfter(mem: Words, mem': Words, heads: seq<int>, head: int, free: FreeLists, bin: int, kept: seq<int>)
    requires ChainsOk(mem, heads, free) && 0 <= bin < BINS && |free| == BINS && OnlyAt(mem, mem', free[bin])
    requires ChainOk(mem', head, kept)
    requires forall b, a :: InFree(free, b, a) && InFree(free, bin, a) ==> b == bin
    ensures |heads| == BINS && ChainsOk(mem', heads[bin := head], free[bin := kept])
  {
    forall b | 0 <= b < BINS && b != bin
      ensures ChainOk(mem', heads[b], free[b])
    {
      forall x | x in free[b]
        ensures Rd(mem', x) == Rd(mem, x)
      {
        assert InFree(free, b, x);
        assert InFree(free, bin, x) ==> b == bin;
      }
      ChainFrame(mem, mem', heads[b], free[b]);
    }
  }

  lemma FreeOnce(T: Tables, O: Owners, free: FreeLists, live: Live, dead: set<int>, bin: int)
    requires LedgerOk(T, O, free, live, dead) && 0 <= bin < BINS
    ensures |free| == BINS && Distinct(free[bin])
    ensures forall b, a :: InFree(free, b, a) && InFree(free, bin, a) ==> b == bin
  {
    hide RunOf, SlotAt;
    forall b, a | InFree(free, b, a) && InFree(free, bin, a)
      ensures b == bin
    {
      OneBin(T, O, a, b, bin);
    }
  }

  /** Condemned by the counters is condemned by the ledger, whatever the counters show by now. */
  lemma StillCondemned(T0: Tables, T: Tables, O: Owners, lists: FreeLists, free: FreeLists, bin: int, r: int)
    requires 0 <= bin < |lists| && bin < |free| && Counted(T0, T, O, lists, bin, |lists[bin]|) && free[bin] == lists[bin]
    requires CondemnedAt(T0, O, lists, bin, r)
    ensures CondemnedAt(T, O, free, bin, r)
  {
    hide RunOf, SlotAt;
    assert RunOf(T, O, r) == Expect(T0, O, lists, bin, |lists[bin]|, r);
    assert SlotsFree(free, r, bin) by {
      forall a | SlotAt(r, bin, a)
        ensures InFree(free, bin, a)
      {
        assert InFree(lists, bin, a);
      }
    }
  }

  lemma {:induction false} KeepSame(T0: Tables, T: Tables, O: Owners, list: seq<int>, more: set<int>)
    requires forall a :: a in list ==> Home(T, O, a) == Home(T0, O, a)
    ensures Keep(T, O, list, more) == Keep(T0, O, list, more)
    decreases |list|
  {
    hide Home;
    if list != [] {
      assert forall a :: a in list[..|list| - 1] ==> a in list;
      KeepSame(T0, T, O, list[..|list| - 1], more);
      assert list[|list| - 1] in list;
    }
  }

  lemma UnlinkEnd(kept: seq<int>, list: seq<int>, k: nat)
    requires k == |list|
    ensures kept + list[k..] == kept
  {}

  lemma InFreeIs(free: FreeLists, bin: int, w: int)
    requires 0 <= bin < |free| && w in free[bin]
    ensures InFree(free, bin, w)
  {}

  /** The counter a slot of the list leads to shows whether its run is condemned. */
  lemma FullHere(T0: Tables, T: Tables, O: Owners, lists: FreeLists, bin: int, k: nat)
    requires 0 <= bin < BINS == |lists| && k < |lists[bin]| && Counted(T0, T, O, lists, bin, |lists[bin]|)
    requires IsSlot(T, O, lists[bin][k], bin)
    ensures RunOf(T, O, lists[bin][k]).RunRef? && RunOf(T, O, lists[bin][k]).info.SRun?
    ensures RunOf(T, O, lists[bin][k]).info.counter == BinElements(bin) <==>
            Home(T0, O, lists[bin][k]) in Condemned(T0, O, lists[bin], bin).Keys
  {
    hide *;
    FullMeansCondemned(T0, T, O, lists, bin, lists[bin][k]);
  }

  /** The ledger once the condemned runs of a bin have lost their slots. */
  lemma CondemnBin(T0: Tables, T: Tables, O: Owners, lists: FreeLists, free: FreeLists, live: Live, dead: set<int>, bin: int, more: set<int>)
    requires 0 <= bin < BINS == |lists| == |free| && Counted(T0, T, O, lists, bin, |lists[bin]|) && free[bin] == lists[bin]
    requires LedgerOk(T0, O, lists, live, {}) && TablesOk(T0, O) && LedgerOk(T, O, free, live, dead) && TablesOk(T, O)
    requires more == Condemned(T0, O, lists[bin], bin).Keys
    ensures LedgerOk(T, O, free[bin := Keep(T0, O, lists[bin], more)], live, dead + more)
  {
    hide *;
    MoreCondemned(T0, O, lists, live, bin, more);
    forall r | r in more
      ensures CondemnedAt(T, O, free, bin, r)
    {
      StillCondemned(T0, T, O, lists, free, bin, r);
    }
    forall a | a in lists[bin]
      ensures Home(T, O, a) == Home(T0, O, a)
    {
      CountedHome(T0, T, O, lists, bin, |lists[bin]|, a);
    }
    KeepSame(T0, T, O, lists[bin], more);
    Condemn(T, O, free, live, dead, bin, more);
  }

  lemma MoreCondemned(T0: Tables, O: Owners, lists: FreeLists, live: Live, bin: int, more: set<int>)
    requires 0 <= bin < BINS == |lists| && LedgerOk(T0, O, lists, live, {}) && TablesOk(T0, O)
    requires more == Condemned(T0, O, lists[bin], bin).Keys
    ensures forall r :: r in more <==> CondemnedAt(T0, O, lists, bin, r)
  {
    hide TablesOk, LedgerOk, Condemned;
    CondemnedFacts(T0, O, lists, live, {}, bin);
    forall r | CondemnedAt(T0, O, lists, bin, r)
      ensures r in more
    {
      AllFreeCondemned(T0, O, lists, live, {}, bin, r);
    }
  }

  // ---- all bins ----

  /** The run at r is to be released: it serves a bin other than 0 and all its slots are free. */
  ghost predicate Doomed(T: Tables, O: Owners, lists: FreeLists, limit: int, r: int) {
    match RunOf(T, O, r)
    case RunRef(s, SRun(bin, _)) => s == r && 0 < bin < limit && CondemnedAt(T, O, lists, bin, r)
    case _ => false
  }

  ghost predicate DeadAre(T: Tables, O: Owners, lists: FreeLists, limit: int, dead: set<int>) {
    forall r :: r in dead <==> Doomed(T, O, lists, limit, r)
  }

  /** The lists below limit have lost the slots of the dead runs; the others are as they were. */
  ghost predicate KeptLists(T: Tables, O: Owners, lists: FreeLists, free: FreeLists, limit: int, dead: set<int>) {
    && |lists| == |free| == BINS
    && forall b :: 0 <= b < BINS ==> free[b] == if b < limit then Keep(T, O, lists[b], dead) else lists[b]
  }

  lemma DeadStart(T: Tables, O: Owners, lists: FreeLists)
    requires |lists| == BINS
    ensures DeadAre(T, O, lists, 0, {}) && KeptLists(T, O, lists, lists, 0, {}) && 0 < BINS
  {}

  lemma DeadNext(T: Tables, O: Owners, lists: FreeLists, bin: int, dead: set<int>, more: set<int>)
    requires DeadAre(T, O, lists, bin, dead) && 0 <= bin < BINS
    requires forall r :: r in more <==> CondemnedAt(T, O, lists, bin, r)
    ensures DeadAre(T, O, lists, bin + 1, dead + more)
  {
    hide SlotsFree, RunOf;
    forall r
      ensures r in dead + more <==> Doomed(T, O, lists, bin + 1, r)
    {
      assert r in dead <==> Doomed(T, O, lists, bin, r);
      assert r in more <==> CondemnedAt(T, O, lists, bin, r);
    }
  }

  lemma {:induction false} KeepAgrees(T: Tables, O: Owners, list: seq<int>, dead: set<int>, dead': set<int>)
    requires forall a :: a in list ==> (Home(T, O, a) in dead <==> Home(T, O, a) in dead')
    ensures Keep(T, O, list, dead) == Keep(T, O, list, dead')
    decreases |list|
  {
    hide Home;
    if list != [] {
      assert forall a :: a in list[..|list| - 1] ==> a in list;
      KeepAgrees(T, O, list[..|list| - 1], dead, dead');
      assert list[|list| - 1] in list;
    }
  }

  lemma KeptNext(T: Tables, O: Owners, lists: FreeLists, live: Live, free: FreeLists, bin: int, dead: set<int>, more: set<int>)
    requires LedgerOk(T, O, lists, live, {}) && TablesOk(T, O) && 0 <= bin < BINS
    requires KeptLists(T, O, lists, free, bin, dead) && DeadAre(T, O, lists, bin, dead)
    requires forall r :: r in more <==> CondemnedAt(T, O, lists, bin, r)
    ensures KeptLists(T, O, lists, free[bin := Keep(T, O, lists[bin], more)], bin + 1, dead + more)
  {
    hide LedgerOk, TablesOk, Keep, RunOf, SlotsFree;
    var free' := free[bin := Keep(T, O, lists[bin], more)];
    forall b | 0 <= b < bin + 1
      ensures free'[b] == Keep(T, O, lists[b], dead + more)
    {
      forall a | a in lists[b]
        ensures Home(T, O, a) in dead + more <==> Home(T, O, a) in if b < bin then dead else more
      {
        InFreeIs(lists, b, a);
        SlotRun(T, O, lists, live, {}, b, a);
        assert Home(T, O, a) in dead <==> Doomed(T, O, lists, bin, Home(T, O, a));
        assert Home(T, O, a) in more <==> CondemnedAt(T, O, lists, bin, Home(T, O, a));
      }
      KeepAgrees(T, O, lists[b], dead + more, if b < bin then dead else more);
    }
  }

  lemma QuietIs(T: Tables, O: Owners)
    requires Quiet(T, O)
    ensures forall a :: CounterZero(RunOf(T, O, a))
  {
    hide RunOf;
    forall a
      ensures CounterZero(RunOf(T, O, a))
    {
      assert CounterOf(RunOf(T, O, a)) == 0;
    }
  }

  /** Only info words differ. */
  ghost predicate OnlyMaps(T: Tables, T': Tables) {
    T'.Keys == T.Keys && forall c :: c in T ==> T'[c] == T[c].(map_ := T'[c].map_)
  }

  lemma OnlyMapsRefl(T: Tables)
    ensures OnlyMaps(T, T)
  {}

  lemma OnlyMapsTrans(T: Tables, T1: Tables, T2: Tables)
    requires OnlyMaps(T, T1) && OnlyMaps(T1, T2)
    ensures OnlyMaps(T, T2)
  {}

  lemma SameBlocksRefl(mem: Words, live: Live)
    ensures SameBlocks(mem, mem, live)
  {}

  lemma SameList(free: FreeLists, bin: int, list: seq<int>)
    requires 0 <= bin < |free| && free[bin] == list
    ensures free[bin := list] == free
  {}

  lemma KeptAt(T: Tables, O: Owners, lists: FreeLists, free: FreeLists, bin: int, dead: set<int>)
    requires KeptLists(T, O, lists, free, bin, dead) && 0 <= bin < BINS
    ensures |lists| == |free| == BINS && free[bin] == lists[bin]
  {}

  lemma OnlyMapsSet(T0: Tables, T: Tables, c: int, page: int, bin: int, counter: int)
    requires OnlyMaps(T0, T) && c in T && 0 <= page < |T[c].map_|
    ensures OnlyMaps(T0, T[c := SetCounter(T[c], page, bin, counter)])
  {}

  /** A bin whose counters never reached full loses nothing. */
  lemma NothingCondemned(T: Tables, O: Owners, lists: FreeLists, bin: int, dead: set<int>, more: set<int>)
    requires 0 <= bin < |lists| && bin < BINS
    requires more == Condemned(T, O, lists[bin], bin).Keys && NoneFull(T, O, lists[bin], bin)
    ensures dead + more == dead && more == {} && Keep(T, O, lists[bin], more) == lists[bin]
  {
    hide Keep, Condemned;
    NoneFullCondemns(T, O, lists[bin], bin);
    KeepNone(T, O, lists[bin]);
  }
}
