/** The cells of memory: the links of the free lists, the list of huge blocks, and the users' data. */
module Memory {
  import opened Sizes
  import opened Rings
  import opened Blocks
  import opened Ledger

  /** One cell per address: a pointer or a size sits in the cell of its first byte; a cell never written reads as 0. */
  type Words = map<int, int>

  function Rd(mem: Words, a: int): int { if a in mem then mem[a] else 0 }

  // ---- free lists ----

  /** Following the link word from head visits list and ends at 0. */
  ghost predicate ChainOk(mem: Words, head: int, list: seq<int>)
    decreases |list|
  {
    if list == [] then head == 0
    else head == list[0] && head != 0 && ChainOk(mem, Rd(mem, head), list[1..])
  }

  ghost predicate ChainsOk(mem: Words, heads: seq<int>, free: FreeLists) {
    |heads| == |free| == BINS && forall bin :: 0 <= bin < BINS ==> ChainOk(mem, heads[bin], free[bin])
  }

  lemma {:induction false} ChainFrame(mem: Words, mem': Words, head: int, list: seq<int>)
    requires ChainOk(mem, head, list)
    requires forall x :: x in list ==> Rd(mem', x) == Rd(mem, x)
    ensures ChainOk(mem', head, list)
    decreases |list|
  {
    if list != [] {
      assert forall x :: x in list[1..] ==> x in list;
      ChainFrame(mem, mem', Rd(mem, head), list[1..]);
    }
  }

  lemma ChainPush(mem: Words, head: int, list: seq<int>, p: int)
    requires ChainOk(mem, head, list) && p !in list && p != 0
    ensures ChainOk(mem[p := head], p, [p] + list)
  {
    ChainFrame(mem, mem[p := head], head, list);
    assert ([p] + list)[1..] == list;
  }

  lemma {:induction false} ChainAt(mem: Words, head: int, list: seq<int>, k: nat)
    requires ChainOk(mem, head, list) && k < |list|
    ensures list[k] != 0 && Rd(mem, list[k]) == (if k + 1 < |list| then list[k + 1] else 0)
    ensures head == list[0]
    decreases k
  {
    if k > 0 {
      ChainAt(mem, Rd(mem, head), list[1..], k - 1);
    }
  }

  lemma ChainTail(mem: Words, head: int, list: seq<int>)
    requires ChainOk(mem, head, list) && list != []
    ensures head != 0 && head == list[0] && ChainOk(mem, Rd(mem, head), list[1..])
    ensures Rd(mem, head) == if |list| > 1 then list[1] else 0
  {}

  lemma ChainKeepFirst(mem: Words, head: int, w: int, v: int, list: seq<int>)
    requires head != 0 && w != head && ChainOk(mem[w := v], Rd(mem, head), list)
    ensures ChainOk(mem[w := v], head, [head] + list)
  {
    assert ([head] + list)[1..] == list;
  }

  lemma ChainNewFirst(mem: Words, head: int, next: int, list: seq<int>)
    requires head != 0 && head !in list && ChainOk(mem, next, list)
    ensures ChainOk(mem[head := next], head, [head] + list)
  {
    ChainFrame(mem, mem[head := next], next, list);
    assert ([head] + list)[1..] == list;
  }

  /** Taking p out of a chain: the head or the link before it now leads past it. */
  lemma {:induction false} ChainCut(mem: Words, head: int, pre: seq<int>, p: int, rest: seq<int>)
    requires ChainOk(mem, head, pre + [p] + rest) && Distinct(pre + [p] + rest)
    ensures p != 0 && Rd(mem, p) == (if rest == [] then 0 else rest[0])
    ensures pre == [] ==> ChainOk(mem, Rd(mem, p), rest)
    ensures pre != [] ==> ChainOk(mem[pre[|pre| - 1] := Rd(mem, p)], head, pre + rest)
    decreases |pre|
  {
    hide ChainOk, Rd;
    var all := pre + [p] + rest;
    ChainTail(mem, head, all);
    if pre == [] {
      assert all[1..] == rest;
    } else {
      assert all[1..] == pre[1..] + [p] + rest && pre + rest == [head] + (pre[1..] + rest);
      ChainCut(mem, Rd(mem, head), pre[1..], p, rest);
      if |pre| == 1 {
        assert pre[1..] + rest == rest && head !in rest by {
          assert forall i :: 0 <= i < |rest| ==> rest[i] == all[i + 2];
        }
        ChainNewFirst(mem, head, Rd(mem, p), rest);
      } else {
        assert all[|pre| - 1] == pre[|pre| - 1] == pre[1..][|pre| - 2];
        ChainKeepFirst(mem, head, pre[|pre| - 1], Rd(mem, p), pre[1..] + rest);
      }
    }
  }

  /** Memory changed at the given addresses at most. */
  ghost predicate OnlyAt(mem: Words, mem': Words, list: seq<int>) {
    forall w :: w !in list ==> Rd(mem', w) == Rd(mem, w)
  }

  // ---- what a write leaves alone ----

  ghost predicate InBlock(live: Live, a: int, w: int) {
    a in live && a <= w < a + BlockSize(live[a])
  }

  /** The contents of all the given blocks are the same. */
  ghost predicate SameBlocks(mem: Words, mem': Words, live: Live) {
    forall a, w :: InBlock(live, a, w) ==> Rd(mem', w) == Rd(mem, w)
  }

  lemma SameBlocksTrans(m0: Words, m1: Words, m2: Words, live: Live)
    requires SameBlocks(m0, m1, live) && SameBlocks(m1, m2, live)
    ensures SameBlocks(m0, m2, live)
  {
    forall a, w | InBlock(live, a, w)
      ensures Rd(m2, w) == Rd(m0, w)
    {
      assert Rd(m1, w) == Rd(m0, w);
    }
  }

  /** No block holds the word. */
  ghost predicate OutOf(live: Live, w: int) {
    forall a :: !InBlock(live, a, w)
  }

  lemma WritesOutside(mem: Words, mem': Words, live: Live, list: seq<int>)
    requires OnlyAt(mem, mem', list) && forall w :: w in list ==> OutOf(live, w)
    ensures SameBlocks(mem, mem', live)
  {
    hide InBlock, Rd;
    forall a, w | InBlock(live, a, w)
      ensures Rd(mem', w) == Rd(mem, w)
    {
      assert w in list ==> OutOf(live, w);
    }
  }

  /** Fewer, or shorter, blocks. */
  lemma SameBlocksLess(m0: Words, m1: Words, live: Live, live': Live)
    requires SameBlocks(m0, m1, live)
    requires forall a :: a in live' ==> a in live && BlockSize(live'[a]) <= BlockSize(live[a])
    ensures SameBlocks(m0, m1, live')
  {
    forall a, w | InBlock(live', a, w)
      ensures Rd(m1, w) == Rd(m0, w)
    {
      assert InBlock(live, a, w);
    }
  }

  // ---- the list of huge blocks ----

  /** One list node: where it lives, the block it describes, and its size. */
  datatype HugeEntry = HugeEntry(node: int, ptr: int, size: int)

  const NODE_BIN: int := 2
  const NODE_SIZE: int := 24

  ghost predicate HugeChain(mem: Words, head: int, huge: seq<HugeEntry>)
    decreases |huge|
  {
    if huge == [] then head == 0
    else
      && head == huge[0].node && head != 0
      && Rd(mem, head) == huge[0].ptr && Rd(mem, head + 8) == huge[0].size
      && HugeChain(mem, Rd(mem, head + 16), huge[1..])
  }

  ghost predicate EntryLive(live: Live, e: HugeEntry) {
    LiveAs(live, e.node, Small(NODE_BIN)) && LiveAs(live, e.ptr, Huge(e.size)) && e.size > 0
  }

  ghost predicate IsPtr(huge: seq<HugeEntry>, a: int) {
    exists e :: e in huge && e.ptr == a
  }

  ghost predicate IsNode(huge: seq<HugeEntry>, a: int) {
    exists e :: e in huge && e.node == a
  }

  /** The entries describe the huge blocks, each once, and their nodes are handed-out slots. */
  ghost predicate HugeLedger(huge: seq<HugeEntry>, live: Live) {
    && (forall e :: e in huge ==> EntryLive(live, e))
    && (forall i, j :: 0 <= i < j < |huge| ==> huge[i].node != huge[j].node && huge[i].ptr != huge[j].ptr)
    && (forall a :: a in live && live[a].Huge? ==> IsPtr(huge, a))
  }

  ghost function HugeTotal(huge: seq<HugeEntry>): int {
    if huge == [] then 0 else huge[0].size + HugeTotal(huge[1..])
  }

  lemma {:induction false} HugeFrame(mem: Words, mem': Words, head: int, huge: seq<HugeEntry>)
    requires HugeChain(mem, head, huge)
    requires forall e :: e in huge ==> NodeSame(mem, mem', e.node)
    ensures HugeChain(mem', head, huge)
    decreases |huge|
  {
    if huge != [] {
      assert NodeSame(mem, mem', huge[0].node);
      HugeFrame(mem, mem', Rd(mem, head + 16), huge[1..]);
    }
  }

  ghost predicate NodeSame(mem: Words, mem': Words, node: int) {
    Rd(mem', node) == Rd(mem, node) && Rd(mem', node + 8) == Rd(mem, node + 8) && Rd(mem', node + 16) == Rd(mem, node + 16)
  }

  /** Handed-out blocks keep their contents, so the list of huge blocks stays readable. */
  lemma HugeKept(mem: Words, mem': Words, head: int, huge: seq<HugeEntry>, live: Live)
    requires HugeChain(mem, head, huge) && HugeLedger(huge, live) && SameBlocks(mem, mem', live)
    ensures HugeChain(mem', head, huge)
  {
    forall e | e in huge
      ensures NodeSame(mem, mem', e.node)
    {
      assert EntryLive(live, e);
      NodeInBlock(live, e.node);
    }
    HugeFrame(mem, mem', head, huge);
  }

  lemma NodeInBlock(live: Live, node: int)
    requires LiveAs(live, node, Small(NODE_BIN))
    ensures InBlock(live, node, node) && InBlock(live, node, node + 8) && InBlock(live, node, node + 16)
  {}
}
