/** Arenas: memory handed out by bumping a pointer and taken back to a checkpoint. */
module Arenas {

  const HEADER: int := 24
  const ALIGNMENT: int := 8

  function Aligned(size: int): (r: int)
    ensures size <= r < size + ALIGNMENT && r % ALIGNMENT == 0
  {
    (size + ALIGNMENT - 1) / ALIGNMENT * ALIGNMENT
  }

  /** Sizes are rounded up to the next multiple of 8; the header of an arena is three words. */
  lemma AlignedToEight(size: int)
    ensures size <= Aligned(size) < size + 8 && Aligned(size) % 8 == 0 && Aligned(HEADER) == 24
  {}

  function Larger(a: int, b: int): int { if a > b then a else b }

  lemma LargerIs(a: int, b: int)
    ensures Larger(a, b) == if a > b then a else b
  {}

  /** The header at the start of an arena block. */
  datatype Header = Header(ptr: int, end: int, prev: int)

  /** Memory handed out: where it starts and how long it is. */
  datatype Region = Region(start: int, size: int)

  type Headers = map<int, Header>

  /** Everything the arena knows at some moment. */
  datatype Snap = Snap(head: int, headers: Headers, chain: seq<int>, regions: seq<Region>)

  ghost predicate HeaderOk(headers: Headers, a: int)
    requires a in headers
  {
    var h := headers[a];
    a > 0 && a % ALIGNMENT == 0 && a + HEADER <= h.ptr <= h.end && h.ptr % ALIGNMENT == 0
  }

  ghost predicate HeadersOk(headers: Headers) {
    && (forall a :: a in headers ==> HeaderOk(headers, a))
    && forall a, b :: a in headers && b in headers && a < b ==> headers[a].end <= b
  }

  ghost predicate Distinct(chain: seq<int>) {
    forall i, j :: 0 <= i < j < |chain| ==> chain[i] != chain[j]
  }

  ghost predicate SameKeys(headers: Headers, chain: seq<int>) {
    forall a :: a in headers <==> a in chain
  }

  ghost predicate LinkOk(headers: Headers, chain: seq<int>, i: int) {
    0 <= i < |chain| ==> chain[i] in headers && headers[chain[i]].prev == if i + 1 < |chain| then chain[i + 1] else 0
  }

  /** Following prev from the first arena visits the chain and ends at 0. */
  ghost predicate ChainOk(headers: Headers, chain: seq<int>) {
    SameKeys(headers, chain) && Distinct(chain) && forall i :: LinkOk(headers, chain, i)
  }

  /** A region lies in an arena of the chain, below its pointer. */
  ghost predicate Inside(headers: Headers, r: Region) {
    exists a :: a in headers && a + HEADER <= r.start && r.start + r.size <= headers[a].ptr
  }

  ghost predicate RegionsOk(headers: Headers, regions: seq<Region>) {
    && (forall i :: 0 <= i < |regions| ==> regions[i].start % ALIGNMENT == 0 && regions[i].size >= 0 && Inside(headers, regions[i]))
    && forall i, j :: 0 <= i < j < |regions| ==> Apart(regions[i], regions[j])
  }

  ghost predicate Apart(r: Region, s: Region) {
    r.start + r.size <= s.start || s.start + s.size <= r.start
  }

  ghost predicate SnapOk(s: Snap) {
    && |s.chain| > 0 && s.head == s.chain[0]
    && HeadersOk(s.headers) && ChainOk(s.headers, s.chain) && RegionsOk(s.headers, s.regions)
  }

  /** A later state: more arenas in front, more handed out, the arenas there before as they were. */
  ghost predicate Extends(s: Snap, t: Snap) {
    && |s.chain| <= |t.chain| && t.chain[|t.chain| - |s.chain|..] == s.chain
    && |s.regions| <= |t.regions| && t.regions[..|s.regions|] == s.regions
    && forall a :: a in s.chain ==> Kept(s, t, a)
  }

  ghost predicate Kept(s: Snap, t: Snap, a: int) {
    && a in s.headers && a in t.headers && t.headers[a].end == s.headers[a].end && t.headers[a].prev == s.headers[a].prev
    && if a == s.head then t.headers[a].ptr >= s.headers[a].ptr else t.headers[a].ptr == s.headers[a].ptr
  }

  lemma ExtendsRefl(s: Snap)
    requires SnapOk(s)
    ensures Extends(s, s)
  {}

  lemma ExtendsTrans(s: Snap, t: Snap, u: Snap)
    requires SnapOk(s) && SnapOk(t) && SnapOk(u) && Extends(s, t) && Extends(t, u)
    ensures Extends(s, u)
  {
    hide HeadersOk, RegionsOk, LinkOk, SameKeys;
    var n, m := |t.chain| - |s.chain|, |u.chain| - |t.chain|;
    assert u.chain[m + n..] == u.chain[m..][n..];
    assert u.regions[..|s.regions|] == u.regions[..|t.regions|][..|s.regions|];
    forall a | a in s.chain
      ensures Kept(s, u, a)
    {
      assert Kept(s, t, a);
      InOlder(s, t, a);
      assert Kept(t, u, a);
    }
  }

  /** An arena of s is an arena of t, and in front of t only if it was in front of s. */
  lemma InOlder(s: Snap, t: Snap, a: int)
    requires SnapOk(s) && SnapOk(t) && Extends(s, t) && a in s.chain
    ensures a in t.chain && (a == t.head ==> a == s.head)
  {
    hide HeadersOk, RegionsOk, LinkOk, SameKeys, Kept;
    var n := |t.chain| - |s.chain|;
    var i :| 0 <= i < |s.chain| && s.chain[i] == a;
    assert t.chain[n..][i] == t.chain[n + i];
  }

  // ---- one step ----

  lemma AddRegion(headers: Headers, regions: seq<Region>, r: Region, a: int)
    requires RegionsOk(headers, regions) && a in headers && a + HEADER <= r.start && r.start + r.size <= headers[a].ptr
    requires r.start % ALIGNMENT == 0 && r.size >= 0 && forall i :: 0 <= i < |regions| ==> Apart(regions[i], r)
    ensures RegionsOk(headers, regions + [r])
  {
    hide Apart;
    assert Inside(headers, r);
  }

  /** Bumping the pointer of the first arena. */
  lemma Bumped(s: Snap, size: int)
    requires SnapOk(s) && size >= 0 && size % ALIGNMENT == 0 && s.head in s.headers && s.headers[s.head].ptr + size <= s.headers[s.head].end
    ensures var h := s.headers[s.head];
            var t := s.(headers := s.headers[s.head := h.(ptr := h.ptr + size)], regions := s.regions + [Region(h.ptr, size)]);
            SnapOk(t) && Extends(s, t)
  {
    hide RegionsOk, HeadersOk, SameKeys, Inside;
    var h := s.headers[s.head];
    var headers', r := s.headers[s.head := h.(ptr := h.ptr + size)], Region(h.ptr, size);
    BumpedHeaders(s.headers, s.head, size);
    BumpedChain(s.headers, s.chain, s.head, h.ptr + size);
    InsideKept(s.headers, headers', s.regions);
    NewApart(s.headers, s.head, s.regions);
    AddRegion(headers', s.regions, r, s.head);
  }

  lemma BumpedHeaders(headers: Headers, a: int, size: int)
    requires HeadersOk(headers) && size >= 0 && size % ALIGNMENT == 0 && a in headers && headers[a].ptr + size <= headers[a].end
    ensures HeadersOk(headers[a := headers[a].(ptr := headers[a].ptr + size)]) && HeaderOk(headers, a)
  {
    var headers' := headers[a := headers[a].(ptr := headers[a].ptr + size)];
    forall b | b in headers'
      ensures HeaderOk(headers', b)
    {
      assert HeaderOk(headers, b);
    }
  }

  lemma BumpedChain(headers: Headers, chain: seq<int>, a: int, ptr: int)
    requires ChainOk(headers, chain) && a in headers
    ensures ChainOk(headers[a := headers[a].(ptr := ptr)], chain)
    ensures forall b :: b in chain ==> b in headers
  {
    hide Distinct;
    var headers' := headers[a := headers[a].(ptr := ptr)];
    forall i
      ensures LinkOk(headers', chain, i)
    {
      assert LinkOk(headers, chain, i);
    }
  }

  lemma InsideKept(headers: Headers, headers': Headers, regions: seq<Region>)
    requires RegionsOk(headers, regions) && forall a :: a in headers ==> a in headers' && headers'[a].ptr >= headers[a].ptr
    ensures RegionsOk(headers', regions)
  {
    hide Apart;
    forall i | 0 <= i < |regions|
      ensures Inside(headers', regions[i])
    {
      assert Inside(headers, regions[i]);
      var a :| a in headers && a + HEADER <= regions[i].start && regions[i].start + regions[i].size <= headers[a].ptr;
      assert a in headers';
    }
  }

  /** Nothing handed out reaches past the pointer of an arena into its free end. */
  lemma NewApart(headers: Headers, a: int, regions: seq<Region>)
    requires HeadersOk(headers) && RegionsOk(headers, regions) && a in headers
    ensures forall i :: 0 <= i < |regions| ==>
              regions[i].start + regions[i].size <= headers[a].ptr || headers[a].end <= regions[i].start
  {
    forall i | 0 <= i < |regions|
      ensures regions[i].start + regions[i].size <= headers[a].ptr || headers[a].end <= regions[i].start
    {
      assert Inside(headers, regions[i]);
      var b :| b in headers && b + HEADER <= regions[i].start && regions[i].start + regions[i].size <= headers[b].ptr;
      assert HeaderOk(headers, a) && HeaderOk(headers, b);
    }
  }

  /** A new arena block at a, clear of the others. */
  ghost predicate Clear(headers: Headers, a: int, size: int) {
    a > 0 && a % ALIGNMENT == 0 && a !in headers && forall b :: b in headers ==> a + size <= b || headers[b].end <= a
  }

  /** Putting a new arena in front and handing out its first part. */
  lemma Pushed(s: Snap, a: int, total: int, size: int)
    requires SnapOk(s) && Clear(s.headers, a, total) && size >= 0 && size % ALIGNMENT == 0 && HEADER + size <= total
    ensures var h := Header(a + HEADER + size, a + total, s.head);
            var t := Snap(a, s.headers[a := h], [a] + s.chain, s.regions + [Region(a + HEADER, size)]);
            SnapOk(t) && Extends(s, t)
  {
    hide RegionsOk, HeadersOk, ChainOk, HeaderOk;
    var h := Header(a + HEADER + size, a + total, s.head);
    var t := Snap(a, s.headers[a := h], [a] + s.chain, s.regions + [Region(a + HEADER, size)]);
    PushedHeaders(s.headers, a, total, h);
    PushedChain(s.headers, s.chain, a, h);
    InsideKept(s.headers, t.headers, s.regions);
    ClearApart(s.headers, s.regions, a, total, size);
    AddRegion(t.headers, s.regions, Region(a + HEADER, size), a);
    ChainKeys(s.headers, s.chain);
    assert t.chain[1..] == s.chain;
  }

  lemma ChainKeys(headers: Headers, chain: seq<int>)
    requires ChainOk(headers, chain)
    ensures forall a :: a in headers <==> a in chain
  {
    hide Distinct, LinkOk;
  }

  lemma PushedHeaders(headers: Headers, a: int, total: int, h: Header)
    requires HeadersOk(headers) && Clear(headers, a, total) && a + HEADER <= h.ptr <= h.end == a + total && h.ptr % ALIGNMENT == 0
    ensures HeadersOk(headers[a := h])
  {
    var headers' := headers[a := h];
    forall b | b in headers'
      ensures HeaderOk(headers', b)
    {
      if b != a { assert HeaderOk(headers, b); }
    }
    forall b, c | b in headers' && c in headers' && b < c
      ensures headers'[b].end <= c
    {
      if b == a {
        assert HeaderOk(headers, c);
      } else if c == a {
        assert HeaderOk(headers, b);
      }
    }
  }

  lemma ClearApart(headers: Headers, regions: seq<Region>, a: int, total: int, size: int)
    requires HeadersOk(headers) && RegionsOk(headers, regions) && Clear(headers, a, total) && size >= 0 && HEADER + size <= total
    ensures forall i :: 0 <= i < |regions| ==> Apart(regions[i], Region(a + HEADER, size))
  {
    forall i | 0 <= i < |regions|
      ensures Apart(regions[i], Region(a + HEADER, size))
    {
      assert Inside(headers, regions[i]);
      var b :| b in headers && b + HEADER <= regions[i].start && regions[i].start + regions[i].size <= headers[b].ptr;
      assert HeaderOk(headers, b);
    }
  }

  lemma PushedChain(headers: Headers, chain: seq<int>, a: int, h: Header)
    requires ChainOk(headers, chain) && |chain| > 0 && a !in headers && h.prev == chain[0]
    ensures ChainOk(headers[a := h], [a] + chain)
  {
    var headers', chain' := headers[a := h], [a] + chain;
    forall i
      ensures LinkOk(headers', chain', i)
    {
      assert LinkOk(headers, chain, i - 1);
    }
  }

  /** The checkpoint of s lies in the first arena of s and in no arena put in front of it since. */
  lemma FoundAt(s: Snap, t: Snap, i: nat)
    requires SnapOk(s) && SnapOk(t) && Extends(s, t) && i < |t.chain|
    ensures s.head in s.headers && t.chain[i] in t.headers
    ensures var a, c := t.chain[i], s.headers[s.head].ptr;
            if i < |t.chain| - |s.chain| then c > t.headers[a].end || c <= a
            else i == |t.chain| - |s.chain| ==> a == s.head && a < c <= t.headers[a].end
  {
    hide RegionsOk;
    var n := |t.chain| - |s.chain|;
    assert t.chain[n..][0] == t.chain[n];
    assert s.head in s.chain && Kept(s, t, s.head);
    assert LinkOk(t.headers, t.chain, i) && t.chain[i] in t.chain;
    assert HeaderOk(s.headers, s.head) && HeaderOk(t.headers, t.chain[i]) && HeaderOk(t.headers, s.head);
    assert i < n ==> t.chain[i] != t.chain[n];
  }

  /** The headers of the arenas in rest. */
  ghost function Only(headers: Headers, rest: seq<int>): Headers {
    map a | a in headers && a in rest :: headers[a]
  }

  /** t without its first i arenas. */
  ghost function Drop(t: Snap, i: nat): Headers
    requires i <= |t.chain|
  {
    Only(t.headers, t.chain[i..])
  }

  lemma DropNone(t: Snap)
    requires SnapOk(t)
    ensures Drop(t, 0) == t.headers
  {
    hide HeadersOk, RegionsOk, Distinct, LinkOk;
    var left := Drop(t, 0);
    assert t.chain[0..] == t.chain;
    assert forall a :: a in left <==> a in t.headers;
    assert left.Keys == t.headers.Keys;
  }

  lemma OnlyLess(headers: Headers, a: int, rest: seq<int>)
    requires a in headers && a !in rest
    ensures Only(headers, rest) == Only(headers, [a] + rest) - {a}
    ensures a in Only(headers, [a] + rest) && Only(headers, [a] + rest)[a] == headers[a]
  {
    var more := [a] + rest;
    assert forall b :: b in more <==> b == a || b in rest;
  }

  lemma DropNext(t: Snap, i: nat)
    requires SnapOk(t) && i < |t.chain|
    ensures Drop(t, i + 1) == Drop(t, i) - {t.chain[i]} && t.chain[i] in Drop(t, i) && t.chain[i] in t.headers
    ensures Drop(t, i)[t.chain[i]] == t.headers[t.chain[i]]
    ensures t.headers[t.chain[i]].prev == if i + 1 < |t.chain| then t.chain[i + 1] else 0
  {
    hide HeadersOk, RegionsOk, SameKeys, Only;
    assert LinkOk(t.headers, t.chain, i);
    NotInRest(t.chain, i);
    assert t.chain[i..] == [t.chain[i]] + t.chain[i + 1..];
    OnlyLess(t.headers, t.chain[i], t.chain[i + 1..]);
  }

  lemma NotInRest(chain: seq<int>, i: nat)
    requires Distinct(chain) && i < |chain|
    ensures chain[i] !in chain[i + 1..]
  {
    var rest := chain[i + 1..];
    forall j | 0 <= j < |rest|
      ensures rest[j] != chain[i]
    {
      assert rest[j] == chain[i + 1 + j];
    }
  }

  lemma ExtendsSize(s: Snap, t: Snap)
    requires SnapOk(s) && Extends(s, t)
    ensures 0 < |s.chain| <= |t.chain|
  {
    hide HeadersOk, RegionsOk, ChainOk, Kept;
  }

  /** What is left when the arenas in front are gone and the pointer is put back is the state of the checkpoint. */
  lemma Restored(s: Snap, t: Snap)
    requires SnapOk(s) && SnapOk(t) && Extends(s, t)
    ensures s.head in s.headers && s.head in Drop(t, |t.chain| - |s.chain|)
    ensures var left := Drop(t, |t.chain| - |s.chain|);
            left[s.head := left[s.head].(ptr := s.headers[s.head].ptr)] == s.headers
  {
    hide HeadersOk, RegionsOk, Distinct, LinkOk;
    var n := |t.chain| - |s.chain|;
    var left := Drop(t, n);
    assert t.chain[n..] == s.chain && s.head in s.chain;
    forall a | a in s.chain
      ensures Kept(s, t, a) && a in left && left[a] == t.headers[a]
    {
      assert Kept(s, t, a);
    }
    var back := left[s.head := left[s.head].(ptr := s.headers[s.head].ptr)];
    assert forall a :: a in back <==> a in s.headers;
    forall a | a in back
      ensures back[a] == s.headers[a]
    {
      assert Kept(s, t, a);
      SameHeader(back[a], s.headers[a]);
    }
    assert back.Keys == s.headers.Keys;
  }

  lemma SameHeader(g: Header, h: Header)
    requires g.ptr == h.ptr && g.end == h.end && g.prev == h.prev
    ensures g == h
  {}

  class Arena {
    var head: int
    var headers: Headers
    ghost var chain: seq<int>
    ghost var regions: seq<Region>

    // how often there was no block
    ghost var refusals: nat

    ghost function Now(): Snap
      reads this`head, this`headers, this`chain, this`regions
    {
      Snap(head, headers, chain, regions)
    }

    ghost predicate Valid()
      reads this`head, this`headers, this`chain, this`regions
    {
      SnapOk(Now())
    }

    /** A first arena in a block the caller got. */
    constructor (block: int, size: int)
      requires block > 0 && block % ALIGNMENT == 0 && size >= HEADER
      ensures Valid() && regions == [] && chain == [block] && refusals == 0
    {
      head := block;
      headers := map[block := Header(block + Aligned(HEADER), block + size, 0)];
      chain := [block];
      regions := [];
      refusals := 0;
    }

    /** A block clear of the arenas in use, or none. */
    method Emalloc(size: int) returns (a: int)
      modifies this`refusals
      ensures a != 0 ==> Clear(headers, a, size)
      ensures refusals == old(refusals) + if a == 0 then 1 else 0
    {
      a := *;
      if !(a > 0 && a % ALIGNMENT == 0 && a !in headers && forall b | b in headers :: a + size <= b || headers[b].end <= a) {
        a := 0;
        refusals := refusals + 1;
      }
    }

    /** Hands out memory, from a new arena if the first one has too little left; 0 if there is no block. */
    method Alloc(size0: int) returns (p: int)
      requires Valid() && size0 >= 0
      modifies this
      ensures Valid() && Extends(old(Now()), Now())
      ensures p == 0 ==> Now() == old(Now())
      ensures refusals == old(refusals) + if p == 0 then 1 else 0
      ensures p != 0 ==> regions == old(regions) + [Region(p, Aligned(size0))] && p % ALIGNMENT == 0
      ensures p != 0 ==> forall i :: 0 <= i < |old(regions)| ==> Apart(old(regions)[i], Region(p, Aligned(size0)))
      ensures old(head) in old(headers)
      ensures Aligned(size0) <= old(headers[head].end - headers[head].ptr) ==> p == old(headers[head].ptr) && chain == old(chain)
      ensures p != 0 && Aligned(size0) > old(headers[head].end - headers[head].ptr) ==>
                chain == [head] + old(chain) && p == head + Aligned(HEADER) && head in headers && headers[head].end ==
                  head + Larger(Aligned(size0) + Aligned(HEADER), old(headers[head].end - head))
    {
      hide *;
      ghost var s := NowIs();
      ExtendsRefl(s);
      HeadThere(s);
      HeaderRange(s);
      var arena := head;
      var size := Aligned(size0);
      AlignedSizes(size0);
      p := headers[arena].ptr;
      if size <= headers[arena].end - p {
        Bumped(s, size);
        headers := headers[arena := headers[arena].(ptr := p + size)];
      } else {
        var total := if size + Aligned(HEADER) > headers[arena].end - arena then size + Aligned(HEADER) else headers[arena].end - arena;
        LargerIs(size + Aligned(HEADER), headers[arena].end - arena);
        var block := Emalloc(total);
        if block == 0 {
          return 0;
        }
        Pushed(s, block, total, size);
        p := block + Aligned(HEADER);
        headers := headers[block := Header(p + size, block + total, arena)];
        head := block;
        chain := [block] + chain;
      }
      regions := regions + [Region(p, size)];
      ghost var t := Snap(head, headers, chain, regions);
      NowEquals(t);
      LastApart(t, s.regions, Region(p, size));
      PointerNotZero(s, t, p, size);
    }

    method Checkpoint() returns (c: int)
      requires Valid()
      ensures head in headers && c == headers[head].ptr
    {
      HeadThere(Now());
      c := headers[head].ptr;
    }

    /** Frees the arenas in front of the one the checkpoint lies in and puts its pointer back. */
    method Release(c: int, ghost s: Snap)
      requires Valid() && SnapOk(s) && Extends(s, Now()) && s.head in s.headers && c == s.headers[s.head].ptr
      modifies this
      ensures Valid() && Now() == s && refusals == old(refusals)
    {
      hide *;
      ghost var t := NowIs();
      DropNone(t);
      ChainStart(s, t);
      ExtendsSize(s, t);
      ghost var i: nat := 0;
      var arena := head;
      FoundAt(s, t, 0);
      DropNext(t, 0);
      while c > headers[arena].end || c <= arena
        invariant 0 <= i <= |t.chain| - |s.chain| < |t.chain| && arena == t.chain[i] && arena in headers && headers == Drop(t, i) && head == arena
        invariant arena in t.headers && headers[arena].end == t.headers[arena].end
        decreases |t.chain| - i
        modifies this`head, this`headers
      {
        FoundAt(s, t, i);
        DropNext(t, i);
        var prev := headers[arena].prev;
        headers := headers - {arena};
        arena := prev;
        head := prev;
        i := i + 1;
        DropNext(t, i);
      }
      FoundAt(s, t, i);
      Restored(s, t);
      headers := headers[arena := headers[arena].(ptr := c)];
      chain := s.chain;
      regions := s.regions;
      NowEquals(s);
    }

    lemma NowIs() returns (t: Snap)
      requires Valid()
      ensures t == Now() && SnapOk(t) && t.head == head && t.headers == headers && t.chain == chain && t.regions == regions
      ensures t == Snap(head, headers, chain, regions)
    {
      t := Now();
    }

    lemma NowEquals(s: Snap)
      requires SnapOk(s) && head == s.head && headers == s.headers && chain == s.chain && regions == s.regions
      ensures Now() == s && Valid()
    {}

    /** Frees every arena. */
    method Destroy()
      requires Valid()
      modifies this
      ensures headers == map[]
    {
      hide *;
      ghost var t := NowIs();
      DropNone(t);
      var arena := head;
      ghost var i: nat := 0;
      ChainStart(t, t);
      while true
        invariant i < |t.chain| && arena == t.chain[i] && headers == Drop(t, i)
        decreases |t.chain| - i
      {
        DropNext(t, i);
        var prev := headers[arena].prev;
        NextIsArena(t, i);
        headers := headers - {arena};
        arena := prev;
        i := i + 1;
        if arena == 0 { break; }
      }
      DropAll(t, i);
    }

    /** A program of allocations with nested scopes: leaving a scope restores what was there on entry. */
    method Exec(p: Prog) returns (ok: bool)
      requires Valid()
      modifies this
      ensures Valid() && (ok ==> Extends(old(Now()), Now())) && (p.Done? ==> ok && Now() == old(Now()))
      ensures ok && p.Scope? && p.rest.Done? ==> Now() == old(Now())
      ensures refusals == old(refusals) + if ok then 0 else 1
      ensures ok ==> SizesOf(regions) == old(SizesOf(regions)) + TakenOutside(p)
      decreases p
    {
      hide SnapOk, Extends;
      ghost var s := Now();
      ExtendsRefl(s);
      match p {
        case Done => ok := true;
        case Take(size, rest) =>
          var q := Alloc(size);
          if q == 0 {
            return false;
          }
          ghost var t := Now();
          SizesMore(s.regions, Region(q, Aligned(size)));
          ok := Exec(rest);
          if ok { ExtendsTrans(s, t, Now()); }
        case Scope(body, rest) =>
          var c := Checkpoint();
          ok := Exec(body);
          if ok {
            Release(c, s);
            ok := Exec(rest);
          }
      }
    }
  }

  /** Allocations and scopes, one after another. */
  datatype Prog = Done | Take(size: nat, rest: Prog) | Scope(body: Prog, rest: Prog)

  ghost function SizesOf(regions: seq<Region>): seq<int> {
    seq(|regions|, i requires 0 <= i < |regions| => regions[i].size)
  }

  /** The sizes a program leaves handed out: what it took outside every scope. */
  function TakenOutside(p: Prog): seq<int> {
    match p
    case Done => []
    case Take(size, rest) => [Aligned(size)] + TakenOutside(rest)
    case Scope(_, rest) => TakenOutside(rest)
  }

  lemma SizesMore(regions: seq<Region>, r: Region)
    ensures SizesOf(regions + [r]) == SizesOf(regions) + [r.size]
  {}

  lemma HeadThere(s: Snap)
    requires SnapOk(s)
    ensures s.head in s.headers && HeaderOk(s.headers, s.head)
  {
    assert s.chain[0] in s.chain;
  }

  lemma LastApart(t: Snap, regions: seq<Region>, r: Region)
    requires SnapOk(t) && t.regions == regions + [r]
    ensures r.start % ALIGNMENT == 0 && forall i :: 0 <= i < |regions| ==> Apart(regions[i], r)
  {
    hide HeadersOk, ChainOk, Apart, Inside;
    assert t.regions[|regions|] == r;
    forall i | 0 <= i < |regions|
      ensures Apart(regions[i], r)
    {
      assert t.regions[i] == regions[i];
    }
  }

  lemma AlignedSizes(size: int)
    requires size >= 0
    ensures Aligned(HEADER) == HEADER && Aligned(size) >= 0 && Aligned(size) % ALIGNMENT == 0
  {}

  lemma HeaderRange(s: Snap)
    requires SnapOk(s) && s.head in s.headers
    ensures s.head + HEADER <= s.headers[s.head].ptr <= s.headers[s.head].end
  {
    assert HeaderOk(s.headers, s.head);
  }

  lemma PointerNotZero(s: Snap, t: Snap, p: int, size: int)
    requires SnapOk(t) && t.regions == s.regions + [Region(p, size)]
    ensures p != 0
  {
    var r := t.regions[|s.regions|];
    assert r == Region(p, size) && Inside(t.headers, r);
    var a :| a in t.headers && a + HEADER <= r.start && r.start + r.size <= t.headers[a].ptr;
    assert HeaderOk(t.headers, a);
  }

  lemma ChainStart(s: Snap, t: Snap)
    requires SnapOk(s) && SnapOk(t)
    ensures |s.chain| > 0 && |t.chain| > 0 && t.chain[0] == t.head
  {}

  lemma NextIsArena(t: Snap, i: nat)
    requires SnapOk(t) && i < |t.chain|
    ensures i + 1 < |t.chain| ==> t.chain[i + 1] != 0
  {
    if i + 1 < |t.chain| {
      assert t.chain[i + 1] in t.headers && HeaderOk(t.headers, t.chain[i + 1]);
    }
  }

  lemma DropAll(t: Snap, i: nat)
    requires i == |t.chain|
    ensures Drop(t, i) == map[]
  {}
}
