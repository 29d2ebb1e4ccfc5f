/** The doubly linked ring of chunks and the singly linked list of cached chunks. */
module Rings {

  /** The link fields of a chunk header. */
  datatype Links = Links(next: int, prev: int, num: int)

  type LinkMap = map<int, Links>

  function Succ(i: int, n: int): int { if i + 1 < n then i + 1 else 0 }

  /** Following next from ring[0] visits ring in order and comes back; prev runs the other way. */
  ghost predicate RingOk(links: LinkMap, ring: seq<int>) {
    && |ring| > 0
    && (forall i :: 0 <= i < |ring| ==> ring[i] in links)
    && (forall i, j :: 0 <= i < j < |ring| ==> ring[i] != ring[j])
    && (forall i :: 0 <= i < |ring| ==> Joined(links, ring[i], ring[Succ(i, |ring|)]))
  }

  ghost predicate Joined(links: LinkMap, a: int, b: int) {
    a in links && b in links && links[a].next == b && links[b].prev == a
  }

  /** Appends chunk in front of the main chunk, that is, at the end of the ring. */
  function LinkLast(links: LinkMap, main: int, chunk: int): LinkMap
    requires main in links && links[main].prev in links && chunk in links
  {
    var last := links[main].prev;
    var l0 := links[chunk := Links(main, last, links[last].num + 1)];
    var l1 := l0[last := l0[last].(next := chunk)];
    l1[main := l1[main].(prev := chunk)]
  }

  function NumOf(links: LinkMap, c: int): int { if c in links then links[c].num else 0 }

  /** A chunk gets the number behind that of the last one. */
  lemma LinkLastNum(links: LinkMap, ring: seq<int>, chunk: int)
    requires RingOk(links, ring) && chunk in links && chunk !in ring && ring[0] in links && links[ring[0]].prev in links
    ensures |ring| > 0 && NumOf(LinkLast(links, ring[0], chunk), chunk) == NumOf(links, ring[|ring| - 1]) + 1
  {
    var n := |ring|;
    assert Joined(links, ring[n - 1], ring[Succ(n - 1, n)]);
  }

  /** Of a chunk that is no longer linked and the first cached one the younger goes back to the system. */
  ghost predicate YoungerGoes(links: LinkMap, chunk: int, head: int, cache: seq<int>, cache': seq<int>) {
    if head == 0 || NumOf(links, chunk) > NumOf(links, head) then cache' == cache
    else cache != [] && cache' == [chunk] + cache[1..]
  }

  lemma YoungerFirst(links: LinkMap, chunk: int, head: int, cache: seq<int>)
    ensures head == 0 || NumOf(links, chunk) > NumOf(links, head) ==> YoungerGoes(links, chunk, head, cache, cache)
    ensures head != 0 && NumOf(links, chunk) <= NumOf(links, head) && cache != [] ==>
              YoungerGoes(links, chunk, head, cache, [chunk] + cache[1..])
  {}

  ghost predicate SameNums(links: LinkMap, links': LinkMap) {
    forall c :: NumOf(links', c) == NumOf(links, c)
  }

  lemma YoungerSame(links: LinkMap, links': LinkMap, chunk: int, head: int, cache: seq<int>, cache': seq<int>)
    requires SameNums(links, links') && YoungerGoes(links', chunk, head, cache, cache')
    ensures YoungerGoes(links, chunk, head, cache, cache')
  {}

  lemma LinkLastOk(links: LinkMap, ring: seq<int>, chunk: int)
    requires RingOk(links, ring) && chunk in links && chunk !in ring
    ensures links[ring[0]].prev == ring[|ring| - 1] && links[ring[0]].prev in links
    ensures RingOk(LinkLast(links, ring[0], chunk), ring + [chunk])
    ensures LinkLast(links, ring[0], chunk).Keys == links.Keys
    ensures forall x :: x in links && x !in ring && x != chunk ==> LinkLast(links, ring[0], chunk)[x] == links[x]
  {
    var n := |ring|;
    assert Joined(links, ring[n - 1], ring[Succ(n - 1, n)]);
    var links', ring' := LinkLast(links, ring[0], chunk), ring + [chunk];
    forall i | 0 <= i < |ring'|
      ensures Joined(links', ring'[i], ring'[Succ(i, |ring'|)])
    {
      if i < n - 1 {
        assert Joined(links, ring[i], ring[Succ(i, n)]);
      }
    }
  }

  /** Takes chunk out of the ring; its own fields keep pointing into it. */
  function Unlink(links: LinkMap, chunk: int): LinkMap
    requires chunk in links && links[chunk].next in links && links[chunk].prev in links
  {
    var l1 := links[links[chunk].next := links[links[chunk].next].(prev := links[chunk].prev)];
    l1[links[chunk].prev := l1[links[chunk].prev].(next := l1[chunk].next)]
  }

  function Without(ring: seq<int>, k: nat): seq<int>
    requires k < |ring|
  {
    ring[..k] + ring[k + 1..]
  }

  lemma UnlinkNums(links: LinkMap, chunk: int)
    requires chunk in links && links[chunk].next in links && links[chunk].prev in links
    ensures SameNums(links, Unlink(links, chunk))
  {}

  lemma UnlinkOk(links: LinkMap, ring: seq<int>, k: nat)
    requires RingOk(links, ring) && 0 < k < |ring|
    ensures ring[k] in links && links[ring[k]].next in links && links[ring[k]].prev in links
    ensures RingOk(Unlink(links, ring[k]), Without(ring, k))
    ensures Unlink(links, ring[k]).Keys == links.Keys && Unlink(links, ring[k])[ring[k]] == links[ring[k]]
    ensures forall x :: x in links && x !in ring ==> Unlink(links, ring[k])[x] == links[x]
    ensures links[ring[k]].next == if k + 1 < |ring| then Without(ring, k)[k] else ring[0]
    ensures forall x :: x in Without(ring, k) <==> x in ring && x != ring[k]
  {
    var n := |ring|;
    var chunk := ring[k];
    assert Joined(links, ring[k - 1], ring[Succ(k - 1, n)]);
    assert Joined(links, ring[k], ring[Succ(k, n)]);
    var links', ring' := Unlink(links, chunk), Without(ring, k);
    assert forall i :: 0 <= i < n - 1 ==> ring'[i] == if i < k then ring[i] else ring[i + 1];
    forall i | 0 <= i < |ring'|
      ensures Joined(links', ring'[i], ring'[Succ(i, |ring'|)])
    {
      var j := if i < k then i else i + 1;
      assert ring'[i] == ring[j];
      assert Joined(links, ring[j], ring[Succ(j, n)]);
    }
  }

  /** Inserts chunk right behind the main chunk. */
  function LinkFirst(links: LinkMap, main: int, chunk: int): LinkMap
    requires main in links && links[main].next in links && chunk in links
  {
    var l0 := links[chunk := links[chunk].(next := links[main].next)];
    var l1 := l0[chunk := l0[chunk].(prev := main)];
    var l2 := l1[main := l1[main].(next := chunk)];
    l2[l2[chunk].next := l2[l2[chunk].next].(prev := chunk)]
  }

  lemma LinkFirstOk(links: LinkMap, ring: seq<int>, chunk: int)
    requires RingOk(links, ring) && chunk in links && chunk !in ring
    ensures links[ring[0]].next in links
    ensures RingOk(LinkFirst(links, ring[0], chunk), [ring[0], chunk] + ring[1..])
    ensures LinkFirst(links, ring[0], chunk).Keys == links.Keys
    ensures forall x :: x in links && x !in ring && x != chunk ==> LinkFirst(links, ring[0], chunk)[x] == links[x]
  {
    var n := |ring|;
    assert Joined(links, ring[0], ring[Succ(0, n)]);
    var links', ring' := LinkFirst(links, ring[0], chunk), [ring[0], chunk] + ring[1..];
    assert forall i :: 2 <= i < n + 1 ==> ring'[i] == ring[i - 1];
    forall i | 0 <= i < |ring'|
      ensures Joined(links', ring'[i], ring'[Succ(i, |ring'|)])
    {
      if i >= 2 {
        assert Joined(links, ring[i - 1], ring[Succ(i - 1, n)]);
      }
    }
  }

  /** Moves ring[k] to second place: unlink, then link behind the main chunk. */
  function MovedToFront(ring: seq<int>, k: nat): seq<int>
    requires 0 < k < |ring|
  {
    [ring[0], ring[k]] + Without(ring, k)[1..]
  }

  lemma MoveToFrontOk(links: LinkMap, ring: seq<int>, k: nat)
    requires RingOk(links, ring) && 0 < k < |ring|
    ensures links[ring[k]].next in links && links[ring[k]].prev in links
    ensures var l := Unlink(links, ring[k]);
            && ring[0] in l && l[ring[0]].next in l && ring[k] in l
            && RingOk(LinkFirst(l, ring[0], ring[k]), MovedToFront(ring, k))
            && LinkFirst(l, ring[0], ring[k]).Keys == links.Keys
            && forall x :: x in links && x !in ring ==> LinkFirst(l, ring[0], ring[k])[x] == links[x]
    ensures forall x :: x in MovedToFront(ring, k) <==> x in ring
    ensures |MovedToFront(ring, k)| == |ring| && MovedToFront(ring, k)[0] == ring[0] && MovedToFront(ring, k)[1] == ring[k]
  {
    hide RingOk, Unlink, LinkFirst;
    UnlinkOk(links, ring, k);
    InRing(links, ring);
    LinkFirstOk(Unlink(links, ring[k]), Without(ring, k), ring[k]);
    SameMembers(ring, k);
  }

  lemma InRing(links: LinkMap, ring: seq<int>)
    requires RingOk(links, ring)
    ensures |ring| > 0 && forall x :: x in ring ==> x in links
  {}

  lemma SameMembers(ring: seq<int>, k: nat)
    requires 0 < k < |ring|
    ensures forall x :: x in MovedToFront(ring, k) <==> x in ring
  {
    var rest := Without(ring, k);
    forall x | x in ring
      ensures x in MovedToFront(ring, k)
    {
      var i :| 0 <= i < |ring| && ring[i] == x;
      if i == 0 {
        assert MovedToFront(ring, k)[0] == x;
      } else if i == k {
        assert MovedToFront(ring, k)[1] == x;
      } else if i < k {
        assert rest[1..][i - 1] == x;
        assert MovedToFront(ring, k)[i + 1] == x;
      } else {
        assert rest[1..][i - 2] == x;
        assert MovedToFront(ring, k)[i] == x;
      }
    }
  }

  // ---- cached chunks ----

  /** head starts a next-linked list of the given chunks, ended by 0. */
  ghost predicate ListOk(links: LinkMap, head: int, list: seq<int>)
    decreases |list|
  {
    if list == [] then head == 0
    else head == list[0] && head != 0 && head in links && ListOk(links, links[head].next, list[1..])
  }

  ghost predicate Distinct(list: seq<int>) {
    forall i, j :: 0 <= i < j < |list| ==> list[i] != list[j]
  }

  lemma {:induction false} ListFrame(links: LinkMap, links': LinkMap, head: int, list: seq<int>)
    requires ListOk(links, head, list)
    requires forall x :: x in list && x in links ==> x in links' && links'[x].next == links[x].next
    ensures ListOk(links', head, list)
    decreases |list|
  {
    if list != [] {
      assert forall x :: x in list[1..] ==> x in list;
      ListFrame(links, links', links[head].next, list[1..]);
    }
  }

  lemma ListPush(links: LinkMap, head: int, list: seq<int>, c: int)
    requires ListOk(links, head, list) && Distinct(list) && c in links && c != 0 && c !in list
    ensures ListOk(links[c := links[c].(next := head)], c, [c] + list) && Distinct([c] + list)
  {
    ListFrame(links, links[c := links[c].(next := head)], head, list);
    assert ([c] + list)[1..] == list;
  }

  lemma ListPop(links: LinkMap, head: int, list: seq<int>)
    requires ListOk(links, head, list) && Distinct(list) && list != []
    ensures head in links && ListOk(links, links[head].next, list[1..])
    ensures Distinct(list[1..]) && head !in list[1..]
  {}

  lemma RingFrame(links: LinkMap, links': LinkMap, ring: seq<int>)
    requires RingOk(links, ring)
    requires forall x :: x in ring ==> x in links' && links'[x] == links[x]
    ensures RingOk(links', ring)
  {
    forall i | 0 <= i < |ring|
      ensures Joined(links', ring[i], ring[Succ(i, |ring|)])
    {
      assert Joined(links, ring[i], ring[Succ(i, |ring|)]);
    }
  }
}
