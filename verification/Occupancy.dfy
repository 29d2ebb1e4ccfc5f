/** Between two calls no linked chunk is empty, except perhaps the main chunk. */
module Occupancy {
  import opened Sizes
  import opened PageBits
  import opened Chunks
  import opened Rings
  import opened Blocks
  import opened Ledger
  import opened Steps
  import opened Sweep
  import opened SweepRuns

  ghost predicate NotEmpty(T: Tables, c: int) {
    c in T && T[c].freePages != PAGES - FIRST_PAGE
  }

  /** Every linked chunk has a run, but for the main chunk and one other that may just have been linked in. */
  ghost predicate OccupiedBut(T: Tables, ring: seq<int>, main: int, c: int) {
    forall x :: x in ring && x != main && x != c ==> NotEmpty(T, x)
  }

  ghost predicate Occupied(T: Tables, ring: seq<int>, main: int) {
    OccupiedBut(T, ring, main, main)
  }

  lemma OccupiedIs(T: Tables, ring: seq<int>, main: int, c: int)
    requires Occupied(T, ring, main)
    ensures OccupiedBut(T, ring, main, c)
  {}

  lemma OccupiedAlone(T: Tables, main: int)
    ensures Occupied(T, [main], main)
  {}

  /** Tables that did not change their numbers of free pages. */
  ghost predicate SamePages(T: Tables, T': Tables, ring: seq<int>) {
    forall x :: x in ring && x in T ==> x in T' && T'[x].freePages == T[x].freePages
  }

  lemma SamePagesMaps(T: Tables, T': Tables, ring: seq<int>)
    requires OnlyMaps(T, T')
    ensures SamePages(T, T', ring)
  {}

  lemma SamePagesTails(T: Tables, T': Tables, ring: seq<int>)
    requires OnlyTails(T, T')
    ensures SamePages(T, T', ring)
  {}

  lemma SamePagesNew(T: Tables, p: int, t: Table, ring: seq<int>)
    requires p !in ring
    ensures SamePages(T, T[p := t], ring)
  {}

  lemma SamePagesMarked(T: Tables, c: int, page: int, bin: int, ring: seq<int>)
    requires c in T && 0 <= bin < BINS
    ensures SamePages(T, T[c := MarkSmall(T[c], page, bin)], ring)
  {}

  lemma OccupiedSame(T: Tables, T': Tables, ring: seq<int>, main: int)
    requires Occupied(T, ring, main) && SamePages(T, T', ring)
    ensures Occupied(T', ring, main)
  {}

  /** The step changed one chunk, which is not empty now. */
  lemma OccupiedStep(T: Tables, ring: seq<int>, main: int, c: int, T': Tables)
    requires OccupiedBut(T, ring, main, c) && NotEmpty(T', c) && T' == T[c := T'[c]]
    ensures Occupied(T', ring, main)
  {}

  lemma OccupiedLinked(T: Tables, T': Tables, ring: seq<int>, main: int, c: int)
    requires Occupied(T, ring, main) && c in T' && T' == T[c := T'[c]]
    ensures OccupiedBut(T', ring + [c], main, c)
  {}

  lemma OccupiedReordered(T: Tables, ring: seq<int>, ring': seq<int>, main: int, c: int)
    requires OccupiedBut(T, ring, main, c) && forall x :: x in ring' <==> x in ring
    ensures OccupiedBut(T, ring', main, c)
  {}

  /** A run was given back to a chunk, which is not empty even so, or the main chunk. */
  lemma OccupiedKept(T: Tables, T': Tables, ring: seq<int>, main: int, c: int)
    requires Occupied(T, ring, main) && c in T' && T' == T[c := T'[c]] && (c == main || T'[c].freePages != PAGES - FIRST_PAGE)
    ensures Occupied(T', ring, main)
  {}

  /** A run was given back to a chunk that was deleted then. */
  lemma OccupiedWithout(T: Tables, T': Tables, ring: seq<int>, k: nat, main: int)
    requires Occupied(T, ring, main) && k < |ring| && Distinct(ring) && ring[k] in T' && T' == T[ring[k] := T'[ring[k]]]
    ensures Occupied(T', Without(ring, k), main)
  {
    var rest := Without(ring, k);
    forall x | x in rest && x != main
      ensures NotEmpty(T', x)
    {
      var j :| 0 <= j < |rest| && rest[j] == x;
      var i := if j < k then j else j + 1;
      assert ring[i] == x && i != k && x != ring[k];
      assert x in ring && NotEmpty(T, x);
    }
  }

  lemma BlockNotEmpty(T: Tables, O: Owners, free: FreeLists, live: Live, dead: set<int>, p: int, b: Block)
    requires TablesOk(T, O) && LedgerOk(T, O, free, live, dead) && LiveAs(live, p, b) && !b.Huge? && Base(p) in O && Base(p) in T
    ensures NotEmpty(T, Base(p))
  {
    hide *;
    InUseBy(live, p, b);
    InUseNotEmpty(T, O, free, live, dead, Base(p));
    NotEmptyIs(T, Base(p));
  }

  lemma InUseBy(live: Live, p: int, b: Block)
    requires LiveAs(live, p, b) && !b.Huge?
    ensures MainInUse(live, Base(p))
  {
    hide Base;
  }

  lemma LiveNow(live: Live, p: int, b: Block)
    ensures LiveAs(live[p := b], p, b)
  {}

  lemma NotEmptyIs(T: Tables, c: int)
    requires c in T
    ensures NotEmpty(T, c) <==> T[c].freePages != PAGES - FIRST_PAGE
  {}

  // ---- the sweep over the ring ----

  /** The first k chunks have been swept and kept; the others have as many free pages as before the sweep. */
  ghost predicate SweptTo(T1: Tables, T: Tables, ring: seq<int>, k: int, main: int) {
    && (forall j :: 0 <= j < k && j < |ring| && ring[j] != main ==> NotEmpty(T, ring[j]))
    && (forall j :: 0 <= k <= j < |ring| ==> ring[j] in T && ring[j] in T1 && T[ring[j]].freePages == T1[ring[j]].freePages)
  }

  lemma SweptNone(T: Tables, ring: seq<int>, main: int)
    requires forall j :: 0 <= j < |ring| ==> ring[j] in T
    ensures SweptTo(T, T, ring, 0, main)
  {}

  lemma SweptKept(T1: Tables, T: Tables, T': Tables, ring: seq<int>, k: nat, main: int)
    requires SweptTo(T1, T, ring, k, main) && Distinct(ring) && k < |ring| && ring[k] in T' && T' == T[ring[k] := T'[ring[k]]]
    requires k == 0 ==> ring[k] == main
    requires T'[ring[k]].freePages != PAGES - FIRST_PAGE
    ensures SweptTo(T1, T', ring, k + 1, main)
  {}

  lemma SweptDeleted(T1: Tables, T: Tables, T': Tables, ring: seq<int>, k: nat, main: int)
    requires SweptTo(T1, T, ring, k, main) && Distinct(ring) && k < |ring| && ring[k] in T' && T' == T[ring[k] := T'[ring[k]]]
    ensures SweptTo(T1, T', Without(ring, k), k, main)
  {
    var rest := Without(ring, k);
    forall j | k <= j < |rest|
      ensures rest[j] in T' && rest[j] in T1 && T'[rest[j]].freePages == T1[rest[j]].freePages
    {
      assert rest[j] == ring[j + 1];
    }
    forall j | 0 <= j < k && j < |rest| && rest[j] != main
      ensures NotEmpty(T', rest[j])
    {
      assert rest[j] == ring[j];
    }
  }

  /** A chunk that is empty after its sweep gave pages back in it. */
  lemma EmptiedBySweep(T1: Tables, T: Tables, T': Tables, ring0: seq<int>, ring: seq<int>, k: nat, main: int, pages: int)
    requires Occupied(T1, ring0, main) && SweptTo(T1, T, ring, k, main) && k < |ring| && ring[k] in ring0 && ring[k] != main
    requires ring[k] in T && ring[k] in T' && T'[ring[k]].freePages == T[ring[k]].freePages + pages
    requires T'[ring[k]].freePages == PAGES - FIRST_PAGE
    ensures pages != 0
  {
    assert NotEmpty(T1, ring[k]);
  }

  lemma SweptAll(T1: Tables, T: Tables, ring: seq<int>, main: int)
    requires SweptTo(T1, T, ring, |ring|, main)
    ensures Occupied(T, ring, main)
  {
    forall x | x in ring && x != main
      ensures NotEmpty(T, x)
    {
      var j :| 0 <= j < |ring| && ring[j] == x;
      assert NotEmpty(T, ring[j]);
    }
  }
}
