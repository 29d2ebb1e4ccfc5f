/** What the allocator holds from the operating system: linked chunks, cached chunks and huge blocks. */
module Regions {
  import opened Sizes
  import opened Rings
  import opened Memory

  /** Start address and length of every mapped region. */
  type RegionMap = map<int, int>

  /** a lies clear of every mapped region. */
  predicate ClearOf(regions: RegionMap, a: int, size: int) {
    forall r | r in regions :: a + size <= r || r + regions[r] <= a
  }

  ghost predicate Disjoint(regions: RegionMap) {
    && (forall a :: a in regions ==> a > 0 && a % CHUNK_SIZE == 0 && regions[a] > 0)
    && forall a, b :: a in regions && b in regions && a < b ==> a + regions[a] <= b
  }

  ghost predicate HoldsChunks(regions: RegionMap, cs: seq<int>) {
    forall c :: c in cs ==> c in regions && regions[c] == CHUNK_SIZE
  }

  ghost predicate HoldsHuge(regions: RegionMap, huge: seq<HugeEntry>) {
    forall e :: e in huge ==> e.ptr in regions && regions[e.ptr] == e.size
  }

  /** Each region serves exactly one purpose; loose ones are on their way in or out. */
  ghost predicate Sorted(regions: RegionMap, ring: seq<int>, cache: seq<int>, huge: seq<HugeEntry>, loose: RegionMap) {
    && (forall a :: a in regions ==> a in ring || a in cache || IsPtr(huge, a) || a in loose)
    && (forall a :: a in ring ==> a !in cache && !IsPtr(huge, a) && a !in loose)
    && (forall a :: a in cache ==> !IsPtr(huge, a) && a !in loose)
    && (forall a :: a in loose ==> a in regions && regions[a] == loose[a] && !IsPtr(huge, a))
  }

  ghost predicate RegionsOk(regions: RegionMap, ring: seq<int>, cache: seq<int>, huge: seq<HugeEntry>, loose: RegionMap) {
    && Disjoint(regions) && HoldsChunks(regions, ring) && HoldsChunks(regions, cache) && HoldsHuge(regions, huge)
    && Sorted(regions, ring, cache, huge, loose)
  }

  lemma Mapped(regions: RegionMap, ring: seq<int>, cache: seq<int>, huge: seq<HugeEntry>, loose: RegionMap, p: int, size: int)
    requires RegionsOk(regions, ring, cache, huge, loose)
    requires p > 0 && p % CHUNK_SIZE == 0 && size > 0 && ClearOf(regions, p, size)
    ensures p !in regions && p !in ring && p !in cache && !IsPtr(huge, p) && p !in loose
    ensures RegionsOk(regions[p := size], ring, cache, huge, loose[p := size])
  {
    assert p !in regions;
    PtrsHeld(regions, huge);
  }

  lemma PtrsHeld(regions: RegionMap, huge: seq<HugeEntry>)
    requires HoldsHuge(regions, huge)
    ensures forall a :: IsPtr(huge, a) ==> a in regions
  {}

  lemma Unmapped(regions: RegionMap, ring: seq<int>, cache: seq<int>, huge: seq<HugeEntry>, loose: RegionMap, p: int)
    requires RegionsOk(regions, ring, cache, huge, loose) && p in loose
    ensures RegionsOk(regions - {p}, ring, cache, huge, loose - {p})
  {
    forall e | e in huge
      ensures e.ptr in regions - {p}
    {
      assert IsPtr(huge, e.ptr);
    }
  }

  /** A loose region becomes a linked chunk. */
  lemma ToRing(regions: RegionMap, ring: seq<int>, cache: seq<int>, huge: seq<HugeEntry>, loose: RegionMap, p: int)
    requires RegionsOk(regions, ring, cache, huge, loose) && p in loose && loose[p] == CHUNK_SIZE
    ensures RegionsOk(regions, ring + [p], cache, huge, loose - {p}) && p !in ring && p !in cache
  {}

  lemma FromRing(regions: RegionMap, ring: seq<int>, ring': seq<int>, cache: seq<int>, huge: seq<HugeEntry>, loose: RegionMap, p: int)
    requires RegionsOk(regions, ring, cache, huge, loose) && p in ring
    requires forall x :: x in ring' <==> x in ring && x != p
    ensures p in regions && regions[p] == CHUNK_SIZE && RegionsOk(regions, ring', cache, huge, loose[p := CHUNK_SIZE])
  {}

  lemma Reordered(regions: RegionMap, ring: seq<int>, ring': seq<int>, cache: seq<int>, huge: seq<HugeEntry>, loose: RegionMap)
    requires RegionsOk(regions, ring, cache, huge, loose)
    requires forall x :: x in ring' <==> x in ring
    ensures RegionsOk(regions, ring', cache, huge, loose)
  {}

  lemma ToCache(regions: RegionMap, ring: seq<int>, cache: seq<int>, huge: seq<HugeEntry>, loose: RegionMap, p: int)
    requires RegionsOk(regions, ring, cache, huge, loose) && p in loose && loose[p] == CHUNK_SIZE
    ensures RegionsOk(regions, ring, [p] + cache, huge, loose - {p}) && p !in cache
  {}

  lemma FromCache(regions: RegionMap, ring: seq<int>, cache: seq<int>, huge: seq<HugeEntry>, loose: RegionMap)
    requires RegionsOk(regions, ring, cache, huge, loose) && cache != [] && Distinct(cache)
    ensures cache[0] in regions && regions[cache[0]] == CHUNK_SIZE && cache[0] > 0 && cache[0] % CHUNK_SIZE == 0
    ensures cache[0] !in ring && RegionsOk(regions, ring, cache[1..], huge, loose[cache[0] := CHUNK_SIZE])
  {
    assert cache == [cache[0]] + cache[1..] && cache[0] in cache;
    assert forall x :: x in cache[1..] ==> x in cache && x != cache[0];
  }

  lemma ToHuge(regions: RegionMap, ring: seq<int>, cache: seq<int>, huge: seq<HugeEntry>, loose: RegionMap, e: HugeEntry)
    requires RegionsOk(regions, ring, cache, huge, loose) && e.ptr in loose && loose[e.ptr] == e.size
    ensures RegionsOk(regions, ring, cache, [e] + huge, loose - {e.ptr})
  {
    var huge' := [e] + huge;
    assert forall a :: IsPtr(huge', a) <==> IsPtr(huge, a) || a == e.ptr by {
      PtrsCons(e, huge);
    }
  }

  lemma PtrsCons(e: HugeEntry, huge: seq<HugeEntry>)
    ensures forall a :: IsPtr([e] + huge, a) <==> IsPtr(huge, a) || a == e.ptr
  {
    var huge' := [e] + huge;
    assert e in huge';
    forall a
      ensures IsPtr(huge', a) <==> IsPtr(huge, a) || a == e.ptr
    {
      if IsPtr(huge, a) {
        var x :| x in huge && x.ptr == a;
        assert x in huge';
      }
    }
  }

  ghost function Cut(huge: seq<HugeEntry>, k: nat): seq<HugeEntry>
    requires k < |huge|
  {
    huge[..k] + huge[k + 1..]
  }

  lemma PtrsCut(huge: seq<HugeEntry>, k: nat)
    requires k < |huge| && forall i, j :: 0 <= i < j < |huge| ==> huge[i].ptr != huge[j].ptr
    ensures forall a :: IsPtr(Cut(huge, k), a) <==> IsPtr(huge, a) && a != huge[k].ptr
    ensures forall e :: e in Cut(huge, k) ==> e in huge && e != huge[k]
  {
    var huge' := Cut(huge, k);
    forall i | 0 <= i < |huge'|
      ensures huge'[i] in huge && huge'[i].ptr != huge[k].ptr
    {
      assert huge'[i] == huge[if i < k then i else i + 1];
    }
    forall a | IsPtr(huge, a) && a != huge[k].ptr
      ensures IsPtr(huge', a)
    {
      var e :| e in huge && e.ptr == a;
      var i :| 0 <= i < |huge| && huge[i] == e;
      assert huge'[if i < k then i else i - 1] == e;
    }
  }

  lemma FromHuge(regions: RegionMap, ring: seq<int>, cache: seq<int>, huge: seq<HugeEntry>, loose: RegionMap, k: nat)
    requires RegionsOk(regions, ring, cache, huge, loose) && k < |huge|
    requires forall i, j :: 0 <= i < j < |huge| ==> huge[i].ptr != huge[j].ptr
    ensures huge[k].ptr in regions && regions[huge[k].ptr] == huge[k].size
    ensures RegionsOk(regions, ring, cache, Cut(huge, k), loose[huge[k].ptr := huge[k].size])
  {
    PtrsCut(huge, k);
    assert huge[k] in huge;
    assert IsPtr(huge, huge[k].ptr);
  }

  ghost function Resized(huge: seq<HugeEntry>, k: nat, size: int): seq<HugeEntry>
    requires k < |huge|
  {
    huge[k := huge[k].(size := size)]
  }

  lemma PtrsResized(huge: seq<HugeEntry>, k: nat, size: int)
    requires k < |huge|
    ensures forall a :: IsPtr(Resized(huge, k, size), a) <==> IsPtr(huge, a)
  {
    var huge' := Resized(huge, k, size);
    forall a
      ensures IsPtr(huge', a) <==> IsPtr(huge, a)
    {
      if IsPtr(huge, a) {
        var e :| e in huge && e.ptr == a;
        var i :| 0 <= i < |huge| && huge[i] == e;
        assert huge'[i] in huge' && huge'[i].ptr == a;
      }
      if IsPtr(huge', a) {
        var e :| e in huge' && e.ptr == a;
        var i :| 0 <= i < |huge| && huge'[i] == e;
        assert huge[i] in huge && huge[i].ptr == a;
      }
    }
  }

  /** A huge block shrinks, or grows into unmapped space behind it. */
  lemma HugeResized(regions: RegionMap, ring: seq<int>, cache: seq<int>, huge: seq<HugeEntry>, loose: RegionMap, k: nat, size: int)
    requires RegionsOk(regions, ring, cache, huge, loose) && k < |huge| && size > 0
    requires forall i, j :: 0 <= i < j < |huge| ==> huge[i].ptr != huge[j].ptr
    requires size <= huge[k].size || ClearOf(regions, huge[k].ptr + huge[k].size, size - huge[k].size)
    ensures huge[k].ptr in regions && regions[huge[k].ptr] == huge[k].size
    ensures RegionsOk(regions[huge[k].ptr := size], ring, cache, Resized(huge, k, size), loose)
  {
    var p := huge[k].ptr;
    var regions', huge' := regions[p := size], Resized(huge, k, size);
    assert huge[k] in huge && IsPtr(huge, p);
    PtrsResized(huge, k, size);
    forall e | e in huge'
      ensures e.ptr in regions' && regions'[e.ptr] == e.size
    {
      var i :| 0 <= i < |huge'| && huge'[i] == e;
      assert huge[i] in huge;
    }
    forall a, b | a in regions' && b in regions' && a < b
      ensures a + regions'[a] <= b
    {
      assert a + regions[a] <= b;
    }
  }
}
