/**
 The memory limit: what a request may need, and the one way in which real_size gets above the limit.
 To say it, this module has what allocation draws on, and what a collection makes of that.
 */
module Limits {
  import opened Sizes
  import opened Blocks
  import opened Ledger
  import opened Memory
  import opened Collector
  import opened Steps
  import opened Sweep
  import opened SweepRuns
  import opened Occupancy
  import opened Slots
  import opened HugeBlocks

  /** What a request may add to real_size: a chunk, or the whole pages of a huge block. */
  function Need(bytes: int): int {
    if bytes > MAX_LARGE_SIZE then WholePages(bytes) else CHUNK_SIZE
  }

  lemma NeedIs(bytes: int)
    ensures Need(bytes) >= CHUNK_SIZE && (bytes > MAX_LARGE_SIZE ==> bytes > 0 && Need(bytes) == WholePages(bytes))
    ensures bytes <= MAX_LARGE_SIZE ==> Need(bytes) == CHUNK_SIZE
  {}

  /** What an allocation draws on: the free lists, the pages of the linked chunks, and the first cached chunk. */
  datatype Stock = Stock(free: FreeLists, tables: Tables, owner: Owners, ring: seq<int>, cached: int)

  // ---- what a collection makes of it ----

  /** The tables are sound, the chunks that have one are the linked ones, and only the first may be empty. */
  ghost predicate Linked(t: Stock) {
    && TablesOk(t.tables, t.owner) && OwnersAre(t.owner, t.ring)
    && |t.ring| > 0 && Occupied(t.tables, t.ring, t.ring[0])
  }

  /** Of the linked chunks some may be gone, not the first, and the cache was not used up. */
  ghost predicate ChunksLeft(s: Stock, t: Stock) {
    && |s.ring| > 0 && |t.ring| > 0 && t.ring[0] == s.ring[0] && (forall c :: c in t.ring ==> c in s.ring)
    && (t.cached == 0 ==> s.cached == 0)
  }

  /**
     A collection makes t of s: the runs in gone, all that can go, are free pages, all other runs stay
     where they were, the lists lost the slots of those runs, and nothing is left to collect.
   */
  ghost predicate CollectedBy(s: Stock, t: Stock, gone: set<int>) {
    && DeadAre(s.tables, s.owner, s.free, BINS, gone)
    && RunsReleased(s.tables, s.owner, t.tables, t.owner, gone)
    && KeptLists(s.tables, s.owner, s.free, t.free, BINS, gone)
    && DeadAre(t.tables, t.owner, t.free, BINS, {})
    && Linked(t) && ChunksLeft(s, t)
  }

  ghost predicate Collected(s: Stock, t: Stock) {
    exists gone :: CollectedBy(s, t, gone)
  }

  lemma CollectedIs(s: Stock, t: Stock, gone: set<int>)
    requires DeadAre(s.tables, s.owner, s.free, BINS, gone) && RunsReleased(s.tables, s.owner, t.tables, t.owner, gone)
    requires KeptLists(s.tables, s.owner, s.free, t.free, BINS, gone) && DeadAre(t.tables, t.owner, t.free, BINS, {})
    requires TablesOk(t.tables, t.owner) && OwnersAre(t.owner, t.ring) && |t.ring| > 0 && Occupied(t.tables, t.ring, t.ring[0])
    requires |s.ring| > 0 && t.ring[0] == s.ring[0] && (forall c :: c in t.ring ==> c in s.ring) && (t.cached == 0 ==> s.cached == 0)
    ensures Collected(s, t)
  {
    hide DeadAre, RunsReleased, KeptLists, TablesOk, OwnersAre, Occupied;
    assert CollectedBy(s, t, gone);
  }

  /** What a collection, or none, makes of s. */
  ghost predicate Leaves(collects: bool, s: Stock, t: Stock) {
    if collects then Collected(s, t) else t == s
  }

  lemma LeavesSame(s: Stock)
    ensures Leaves(false, s, s)
  {}

  lemma LeavesOne(s: Stock, t: Stock)
    requires Collected(s, t)
    ensures Leaves(true, s, t)
  {}

  lemma KeptNothing(T: Tables, O: Owners, lists: FreeLists, free: FreeLists)
    requires KeptLists(T, O, lists, free, BINS, {})
    ensures free == lists
  {
    hide Keep;
    forall b | 0 <= b < BINS
      ensures free[b] == lists[b]
    {
      KeepNone(T, O, lists[b]);
    }
  }

  lemma ReleasedNothing(T0: Tables, O0: Owners, T1: Tables, O1: Owners, T2: Tables, O2: Owners, gone: set<int>)
    requires RunsReleased(T0, O0, T1, O1, gone) && RunsReleased(T1, O1, T2, O2, {})
    ensures RunsReleased(T0, O0, T2, O2, gone)
  {
    hide RunOf;
    forall a
      ensures RunOf(T2, O2, a) == if Start(RunOf(T0, O0, a)) in gone then NoRun else RunOf(T0, O0, a)
    {
      assert RunOf(T2, O2, a) == RunOf(T1, O1, a);
    }
  }

  /** Two collections in a row are one: the second finds nothing. */
  lemma CollectedTwice(s: Stock, t: Stock, u: Stock)
    requires Collected(s, t) && Collected(t, u)
    ensures Collected(s, u)
  {
    hide DeadAre, RunsReleased, KeptLists, Linked;
    var g, h :| CollectedBy(s, t, g) && CollectedBy(t, u, h);
    SecondFindsNothing(t.tables, t.owner, t.free, h);
    KeptNothing(t.tables, t.owner, t.free, u.free);
    ReleasedNothing(s.tables, s.owner, t.tables, t.owner, u.tables, u.owner, g);
    assert CollectedBy(s, u, g);
  }

  lemma LeavesTwice(first: bool, second: bool, s: Stock, t: Stock, u: Stock)
    requires Leaves(first, s, t) && Leaves(second, t, u)
    ensures Leaves(first || second, s, u)
  {
    hide Collected;
    if first && second {
      CollectedTwice(s, t, u);
    }
  }

  // ---- asking for the list node of a huge block ----

  /**
     What the allocation of the node of a huge block drew on; at once means that nothing had changed
     since the request came.
   */
  datatype Asked = NotAsked | Asked(atOnce: bool, stock: Stock)

  /** A list node can only come from a fresh chunk: no free slot, no run of free pages, no cached chunk. */
  ghost predicate Exhausted(s: Stock) {
    |s.free| == BINS && s.free[NODE_BIN] == [] && NoneFit(s.tables, s.ring, PagesOf(NODE_BIN)) && s.cached == 0
  }

  ghost predicate NeedsChunk(a: Asked) {
    a.Asked? && Exhausted(a.stock)
  }

  /** The node was asked for in the state the request found, or after a collection of it. */
  ghost predicate AskedFrom(a: Asked, s: Stock) {
    a.Asked? ==> Leaves(!a.atOnce, s, a.stock)
  }

  lemma NotAskedFrom(s: Stock)
    ensures AskedFrom(NotAsked, s) && !NeedsChunk(NotAsked) && NotAsked.NotAsked?
  {}

  lemma AskedFromIs(collects: bool, s: Stock, t: Stock)
    requires Leaves(collects, s, t)
    ensures AskedFrom(Asked(!collects, t), s) && (NeedsChunk(Asked(!collects, t)) <==> Exhausted(t))
  {
    hide Leaves, Exhausted;
  }

  lemma ExhaustedIs(s: Stock)
    requires |s.free| == BINS && s.free[NODE_BIN] == [] && NoneFit(s.tables, s.ring, PagesOf(NODE_BIN)) && s.cached == 0
    ensures Exhausted(s)
  {}

  /** The same node, seen from before another collection. */
  function Afterwards(collects: bool, a: Asked): Asked {
    if a.Asked? then a.(atOnce := a.atOnce && !collects) else a
  }

  lemma AskedLater(collects: bool, a: Asked, s: Stock, t: Stock)
    requires Leaves(collects, s, t) && AskedFrom(a, t)
    ensures AskedFrom(Afterwards(collects, a), s) && (NeedsChunk(a) <==> NeedsChunk(Afterwards(collects, a)))
    ensures a == NotAsked ==> Afterwards(collects, a) == NotAsked
    ensures Afterwards(collects, a).Asked? <==> a.Asked?
    ensures a.Asked? && !Afterwards(collects, a).atOnce ==> collects || !a.atOnce
  {
    hide Leaves, Exhausted;
    if a.Asked? {
      LeavesTwice(collects, !a.atOnce, s, t, a.stock);
    }
  }
}
