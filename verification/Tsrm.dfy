/**
 The resource manager in coroutine mode: one context per coroutine, found through a hash table of
 chains, and in each context one cell per resource id.
 */
module Tsrm {

  const MAP_SIZE: int := 100

  /** The id map and the context table hash alike. */
  function Hash(value: int, size: int): (h: int)
    requires value >= 0 && size > 0
    ensures 0 <= h < size
  {
    value % size
  }

  /** A coroutine's context: a cell per resource id, 0 where the id was freed. */
  datatype Context = Context(storage: seq<int>, count: int, threadId: int, next: int)

  datatype ResType = ResType(size: int, ctor: bool, dtor: bool, done: bool)

  type Contexts = map<int, Context>

  // ---- chains of contexts ----

  /** Following next from head visits the chain and ends at 0. */
  ghost predicate ChainOk(contexts: Contexts, head: int, chain: seq<int>)
    decreases |chain|
  {
    if chain == [] then head == 0
    else head == chain[0] && head > 0 && head in contexts && ChainOk(contexts, contexts[head].next, chain[1..])
  }

  lemma {:induction false} ChainFrame(contexts: Contexts, contexts': Contexts, head: int, chain: seq<int>)
    requires ChainOk(contexts, head, chain)
    requires forall c :: c in chain && c in contexts ==> c in contexts' && contexts'[c].next == contexts[c].next
    ensures ChainOk(contexts', head, chain)
    decreases |chain|
  {
    if chain != [] {
      assert forall c :: c in chain[1..] ==> c in chain;
      ChainFrame(contexts, contexts', contexts[head].next, chain[1..]);
    }
  }

  lemma {:induction false} ChainAt(contexts: Contexts, head: int, chain: seq<int>, k: nat)
    requires ChainOk(contexts, head, chain) && k < |chain|
    ensures chain[k] in contexts && chain[k] > 0 && head == chain[0]
    ensures contexts[chain[k]].next == if k + 1 < |chain| then chain[k + 1] else 0
    decreases k
  {
    if k > 0 {
      ChainAt(contexts, contexts[head].next, chain[1..], k - 1);
    } else if |chain| > 1 {
      assert chain[1..][0] == chain[1];
    }
  }

  /** A context put behind the last one of a chain. */
  lemma {:induction false} ChainAppend(contexts: Contexts, contexts': Contexts, head: int, chain: seq<int>, c: int)
    requires ChainOk(contexts, head, chain) && chain != [] && c > 0 && c !in chain && c in contexts' && contexts'[c].next == 0
    requires forall i, j :: 0 <= i < j < |chain| ==> chain[i] != chain[j]
    requires forall d :: d in chain && d in contexts ==>
               d in contexts' && contexts'[d].next == if d == chain[|chain| - 1] then c else contexts[d].next
    ensures ChainOk(contexts', head, chain + [c])
    decreases |chain|
  {
    assert (chain + [c])[1..] == chain[1..] + [c];
    if |chain| == 1 {
      assert ChainOk(contexts', c, [c]) by { assert [c][1..] == []; }
    } else {
      assert chain[1..][|chain| - 2] == chain[|chain| - 1];
      assert forall d :: d in chain[1..] ==> d in chain;
      ChainAppend(contexts, contexts', contexts[head].next, chain[1..], c);
      assert chain[0] != chain[|chain| - 1];
    }
  }

  // ---- what holds of the tables ----

  ghost predicate Linked(chains: seq<seq<int>>, k: int, c: int) {
    0 <= k < |chains| && c in chains[k]
  }

  ghost predicate InSome(chains: seq<seq<int>>, c: int) {
    exists k :: Linked(chains, k, c)
  }

  ghost predicate Distinct(s: seq<int>) {
    forall i, j :: 0 <= i < j < |s| ==> s[i] != s[j]
  }

  /** The table heads well formed chains; a context is in one chain, that of its thread id, and no thread has two. */
  ghost predicate ChainsOk(contexts: Contexts, table: seq<int>, chains: seq<seq<int>>) {
    && |chains| == |table| > 0
    && (forall k :: 0 <= k < |table| ==> ChainOk(contexts, table[k], chains[k]))
    && (forall k :: 0 <= k < |table| ==> Distinct(chains[k]))
    && forall k, c :: Linked(chains, k, c) ==> c in contexts && contexts[c].threadId >= 0 && Hash(contexts[c].threadId, |table|) == k
  }

  ghost predicate OneEach(contexts: Contexts, chains: seq<seq<int>>) {
    forall k, c, d ::
      (Linked(chains, k, c) && Linked(chains, k, d) && c in contexts && d in contexts && contexts[c].threadId == contexts[d].threadId)
      ==> c == d
  }

  /** A context with a cell for every id, missing exactly where the id was freed. */
  ghost predicate Complete(ctx: Context, types: seq<ResType>, idCount: nat) {
    && ctx.count == |ctx.storage| == idCount <= |types|
    && forall i :: 0 <= i < idCount ==> (ctx.storage[i] == 0 <==> types[i].done)
  }

  ghost predicate AllComplete(contexts: Contexts, chains: seq<seq<int>>, types: seq<ResType>, idCount: nat) {
    forall c :: InSome(chains, c) && c in contexts ==> Complete(contexts[c], types, idCount)
  }

  ghost predicate HasCell(contexts: Contexts, c: int, i: int, cell: int) {
    c in contexts && 0 <= i < |contexts[c].storage| && contexts[c].storage[i] == cell && cell != 0
  }

  /** Every cell was allocated, and belongs to one context and one id. */
  ghost predicate CellsOwned(contexts: Contexts, brk: int) {
    && (forall c, i, cell :: HasCell(contexts, c, i, cell) ==> 0 < cell < brk)
    && (forall c, i, d, j, cell :: HasCell(contexts, c, i, cell) && HasCell(contexts, d, j, cell) ==> c == d && i == j)
    && forall c :: c in contexts ==> 0 < c < brk && contexts[c].count == |contexts[c].storage|
  }

  /** The ids handed out: order lists the addresses, the k-th of which holds id k + 1. */
  ghost predicate IdsDense(ids: map<int, int>, order: seq<int>, idCount: nat) {
    && |order| == idCount && Distinct(order)
    && forall k :: 0 <= k < idCount ==> order[k] >= 0 && order[k] in ids && ids[order[k]] == k + 1
  }

  /** The hash table holds exactly the given addresses. */
  ghost predicate MapOk(idMap: seq<seq<int>>, order: seq<int>) {
    |idMap| == MAP_SIZE && forall a :: a >= 0 ==> (a in idMap[Hash(a, MAP_SIZE)] <==> a in order)
  }

  ghost predicate IdsOk(idMap: seq<seq<int>>, ids: map<int, int>, order: seq<int>, idCount: nat) {
    IdsDense(ids, order, idCount) && MapOk(idMap, order)
  }

  /** Cells stay where they are. */
  ghost predicate CellsKept(contexts: Contexts, contexts': Contexts) {
    forall c, i, cell :: HasCell(contexts, c, i, cell) ==> HasCell(contexts', c, i, cell)
  }

  // ---- steps ----

  /** A fresh cell at the end of one context. */
  lemma CellAdded(contexts: Contexts, brk: int, c: int)
    requires CellsOwned(contexts, brk) && c in contexts
    ensures var ctx := contexts[c];
            var contexts' := contexts[c := ctx.(storage := ctx.storage + [brk], count := ctx.count + 1)];
            CellsOwned(contexts', brk + 1) && CellsKept(contexts, contexts')
    ensures brk > 0
  {
    var ctx := contexts[c];
    var contexts' := contexts[c := ctx.(storage := ctx.storage + [brk], count := ctx.count + 1)];
    forall d, i, cell | HasCell(contexts', d, i, cell)
      ensures HasCell(contexts, d, i, cell) || (d == c && i == |ctx.storage| && cell == brk)
    {}
    forall d, i, e, j, cell | HasCell(contexts', d, i, cell) && HasCell(contexts', e, j, cell)
      ensures d == e && i == j
    {
      assert HasCell(contexts, d, i, cell) || (d == c && i == |ctx.storage| && cell == brk);
      assert HasCell(contexts, e, j, cell) || (e == c && j == |ctx.storage| && cell == brk);
    }
    forall d, i, cell | HasCell(contexts, d, i, cell)
      ensures HasCell(contexts', d, i, cell)
    {}
  }

  lemma KeptTrans(c0: Contexts, c1: Contexts, c2: Contexts)
    requires CellsKept(c0, c1) && CellsKept(c1, c2)
    ensures CellsKept(c0, c2)
  {
    hide HasCell;
  }

  lemma KeptRefl(contexts: Contexts)
    ensures CellsKept(contexts, contexts)
  {}

  /** A new context without cells. */
  lemma ContextAdded(contexts: Contexts, brk: int, ctx: Context)
    requires CellsOwned(contexts, brk) && brk > 0 && ctx.storage == [] && ctx.count == 0
    ensures CellsOwned(contexts[brk := ctx], brk + 1) && CellsKept(contexts, contexts[brk := ctx]) && brk !in contexts
  {
    var contexts' := contexts[brk := ctx];
    forall d, i, cell | HasCell(contexts', d, i, cell)
      ensures HasCell(contexts, d, i, cell)
    {}
    forall d, i, e, j, cell | HasCell(contexts', d, i, cell) && HasCell(contexts', e, j, cell)
      ensures d == e && i == j
    {
      assert HasCell(contexts, d, i, cell) && HasCell(contexts, e, j, cell);
    }
    forall d, i, cell | HasCell(contexts, d, i, cell)
      ensures HasCell(contexts', d, i, cell)
    {}
  }

  /** The contexts of a chain keep their links when other fields change. */
  ghost predicate SameLinks(contexts: Contexts, contexts': Contexts) {
    && contexts'.Keys == contexts.Keys
    && forall c :: c in contexts ==> contexts'[c].next == contexts[c].next && contexts'[c].threadId == contexts[c].threadId
  }

  lemma ChainsKept(contexts: Contexts, contexts': Contexts, table: seq<int>, chains: seq<seq<int>>)
    requires ChainsOk(contexts, table, chains) && OneEach(contexts, chains) && SameLinks(contexts, contexts')
    ensures ChainsOk(contexts', table, chains) && OneEach(contexts', chains)
  {
    hide Hash;
    forall k | 0 <= k < |table|
      ensures ChainOk(contexts', table[k], chains[k])
    {
      ChainFrame(contexts, contexts', table[k], chains[k]);
    }
    forall k, c, d | Linked(chains, k, c) && Linked(chains, k, d) && contexts'[c].threadId == contexts'[d].threadId
      ensures c == d
    {}
  }

  lemma NullAdded(contexts: Contexts, brk: int, c: int)
    requires CellsOwned(contexts, brk) && c in contexts
    ensures var ctx := contexts[c];
            var contexts' := contexts[c := ctx.(storage := ctx.storage + [0], count := ctx.count + 1)];
            CellsOwned(contexts', brk) && CellsKept(contexts, contexts')
  {
    var ctx := contexts[c];
    var contexts' := contexts[c := ctx.(storage := ctx.storage + [0], count := ctx.count + 1)];
    forall d, i, cell | HasCell(contexts', d, i, cell)
      ensures HasCell(contexts, d, i, cell)
    {}
    forall d, i, e, j, cell | HasCell(contexts', d, i, cell) && HasCell(contexts', e, j, cell)
      ensures d == e && i == j
    {
      assert HasCell(contexts, d, i, cell) && HasCell(contexts, e, j, cell);
    }
    forall d, i, cell | HasCell(contexts, d, i, cell)
      ensures HasCell(contexts', d, i, cell)
    {}
  }

  /** A cell of an id in a context of the given chain. */
  ghost predicate ForcedCell(contexts: Contexts, chains: seq<seq<int>>, k: int, i: int, cell: int) {
    exists c :: Linked(chains, k, c) && HasCell(contexts, c, i, cell)
  }

  /** Every construction since the log had that length was on a cell of id i in chain k. */
  ghost predicate OnlyForced(log: seq<int>, since: nat, contexts: Contexts, chains: seq<seq<int>>, k: int, i: int) {
    since <= |log| && forall n :: since <= n < |log| ==> ForcedCell(contexts, chains, k, i, log[n])
  }

  lemma ForcedAdded(log: seq<int>, since: nat, contexts: Contexts, chains: seq<seq<int>>, k: int, i: int, c: int, cell: int)
    requires OnlyForced(log, since, contexts, chains, k, i) && Linked(chains, k, c) && HasCell(contexts, c, i, cell)
    ensures OnlyForced(log + [cell], since, contexts, chains, k, i)
  {
    hide HasCell;
    assert ForcedCell(contexts, chains, k, i, cell);
  }

  /** Contexts before position m of chain i have a cell for the newest id; the others lack just that. */
  ghost predicate DoneUpTo(contexts: Contexts, chains: seq<seq<int>>, types: seq<ResType>, idCount: nat, i: int, m: int) {
    idCount > 0 && forall k, n :: At(contexts, chains, k, n) ==>
      Complete(contexts[chains[k][n]], types, if k < i || (k == i && n < m) then idCount else idCount - 1)
  }

  ghost predicate At(contexts: Contexts, chains: seq<seq<int>>, k: int, n: int) {
    0 <= k < |chains| && 0 <= n < |chains[k]| && chains[k][n] in contexts
  }

  lemma LinksRefl(contexts: Contexts)
    ensures SameLinks(contexts, contexts)
  {}

  lemma LinksTrans(c0: Contexts, c1: Contexts, c2: Contexts)
    requires SameLinks(c0, c1) && SameLinks(c1, c2)
    ensures SameLinks(c0, c2)
  {}

  lemma BucketChain(contexts: Contexts, table: seq<int>, chains: seq<seq<int>>, i: int)
    requires ChainsOk(contexts, table, chains) && 0 <= i < |table|
    ensures |chains| == |table| && ChainOk(contexts, table[i], chains[i]) && Distinct(chains[i])
    ensures forall c :: c in chains[i] ==> Linked(chains, i, c)
    ensures forall n :: 0 <= n < |chains[i]| ==> Linked(chains, i, chains[i][n])
  {
    hide ChainOk, Hash, Distinct;
  }

  lemma ChainHead(contexts: Contexts, head: int, chain: seq<int>)
    requires ChainOk(contexts, head, chain)
    ensures head == if |chain| > 0 then chain[0] else 0
    ensures |chain| > 0 ==> chain[0] > 0
  {}

  lemma StillShort(contexts: Contexts, chains: seq<seq<int>>, types: seq<ResType>, idCount: nat, i: int, m: nat)
    requires DoneUpTo(contexts, chains, types, idCount, i, m) && 0 <= i < |chains| && m < |chains[i]| && chains[i][m] in contexts
    ensures contexts[chains[i][m]].count + 1 == idCount
  {
    assert At(contexts, chains, i, m);
  }

  /** A context stands at one place only. */
  lemma OnePlace(contexts: Contexts, table: seq<int>, chains: seq<seq<int>>, k: int, n: int, k': int, n': int)
    requires ChainsOk(contexts, table, chains) && At(contexts, chains, k, n) && At(contexts, chains, k', n')
    requires chains[k][n] == chains[k'][n']
    ensures k == k' && n == n'
  {
    hide ChainOk, Hash;
    assert Linked(chains, k, chains[k][n]) && Linked(chains, k', chains[k'][n']);
  }

  lemma StepDone(before: Contexts, contexts: Contexts, table: seq<int>, chains: seq<seq<int>>, types: seq<ResType>, idCount: nat, i: int, m: nat, cell: int)
    requires ChainsOk(before, table, chains) && DoneUpTo(before, chains, types, idCount, i, m)
    requires 0 <= i < |chains| && m < |chains[i]| && chains[i][m] in before && chains[i][m] in contexts
    requires contexts == before[chains[i][m] := contexts[chains[i][m]]] && cell != 0 && idCount <= |types| && !types[idCount - 1].done
    requires contexts[chains[i][m]].storage == before[chains[i][m]].storage + [cell] && contexts[chains[i][m]].count == idCount
    ensures DoneUpTo(contexts, chains, types, idCount, i, m + 1)
  {
    hide ChainsOk;
    var p := chains[i][m];
    assert At(before, chains, i, m);
    forall k, n | At(contexts, chains, k, n)
      ensures Complete(contexts[chains[k][n]], types, if k < i || (k == i && n < m + 1) then idCount else idCount - 1)
    {
      assert At(before, chains, k, n);
      if chains[k][n] == p {
        OnePlace(before, table, chains, k, n, i, m);
      }
    }
  }

  lemma BucketDone(contexts: Contexts, chains: seq<seq<int>>, types: seq<ResType>, idCount: nat, i: int, m: nat)
    requires DoneUpTo(contexts, chains, types, idCount, i, m) && 0 <= i < |chains| && m == |chains[i]|
    ensures DoneUpTo(contexts, chains, types, idCount, i + 1, 0)
  {
    hide Complete;
  }

  // ---- the cells of one id, in the order in which the allocation visits them ----

  ghost function CellAt(contexts: Contexts, c: int, j: nat): int {
    if c in contexts && j < |contexts[c].storage| then contexts[c].storage[j] else 0
  }

  ghost function ChainCells(contexts: Contexts, cs: seq<int>, j: nat): seq<int> {
    if cs == [] then [] else ChainCells(contexts, cs[..|cs| - 1], j) + [CellAt(contexts, cs[|cs| - 1], j)]
  }

  /** Those of the first i buckets that are forced, or of all of them if none is. */
  ghost function BucketCells(contexts: Contexts, chains: seq<seq<int>>, force: int, i: nat, j: nat): seq<int>
    requires i <= |chains|
  {
    if i == 0 then []
    else BucketCells(contexts, chains, force, i - 1, j)
         + if force == -1 || force == i - 1 then ChainCells(contexts, chains[i - 1], j) else []
  }

  lemma {:induction false} ChainCellsFrame(contexts: Contexts, contexts': Contexts, cs: seq<int>, p: int, j: nat)
    requires p !in cs && p in contexts' && contexts' == contexts[p := contexts'[p]]
    ensures ChainCells(contexts', cs, j) == ChainCells(contexts, cs, j)
    decreases |cs|
  {
    if cs != [] {
      assert cs[|cs| - 1] in cs;
      ChainCellsFrame(contexts, contexts', cs[..|cs| - 1], p, j);
    }
  }

  /** The next context of the chain got its cell. */
  lemma ChainCellsNext(contexts: Contexts, contexts': Contexts, chain: seq<int>, m: nat, j: nat, cell: int)
    requires m < |chain| && Distinct(chain) && chain[m] in contexts' && contexts' == contexts[chain[m] := contexts'[chain[m]]]
    requires HasCell(contexts', chain[m], j, cell)
    ensures ChainCells(contexts', chain[..m + 1], j) == ChainCells(contexts, chain[..m], j) + [cell]
  {
    ChainCellsFrame(contexts, contexts', chain[..m], chain[m], j);
    assert chain[..m + 1][..m] == chain[..m];
  }

  lemma {:induction false} ChainCellsKept(contexts: Contexts, contexts': Contexts, cs: seq<int>, j: nat)
    requires CellsKept(contexts, contexts') && forall c :: c in cs ==> HasCell(contexts, c, j, CellAt(contexts, c, j))
    ensures ChainCells(contexts', cs, j) == ChainCells(contexts, cs, j)
    decreases |cs|
  {
    if cs != [] {
      var c := cs[|cs| - 1];
      assert c in cs && HasCell(contexts, c, j, CellAt(contexts, c, j));
      assert HasCell(contexts', c, j, CellAt(contexts, c, j));
      ChainCellsKept(contexts, contexts', cs[..|cs| - 1], j);
    }
  }

  lemma {:induction false} BucketCellsKept(contexts: Contexts, contexts': Contexts, table: seq<int>, chains: seq<seq<int>>,
                                           types: seq<ResType>, idCount: nat, force: int, i: nat, b: nat)
    requires ChainsOk(contexts, table, chains) && DoneUpTo(contexts, chains, types, idCount, i, 0) && CellsKept(contexts, contexts')
    requires b <= i <= |chains| && 0 < idCount <= |types| && !types[idCount - 1].done
    ensures BucketCells(contexts', chains, force, b, idCount - 1) == BucketCells(contexts, chains, force, b, idCount - 1)
    decreases b
  {
    hide ChainOk, Hash;
    if b > 0 {
      BucketCellsKept(contexts, contexts', table, chains, types, idCount, force, i, b - 1);
      var cs := chains[b - 1];
      forall c | c in cs
        ensures HasCell(contexts, c, idCount - 1, CellAt(contexts, c, idCount - 1))
      {
        var n :| 0 <= n < |cs| && cs[n] == c;
        assert Linked(chains, b - 1, c);
        assert At(contexts, chains, b - 1, n);
      }
      ChainCellsKept(contexts, contexts', cs, idCount - 1);
    }
  }

  /** With a forced bucket the cells are those of that bucket. */
  lemma {:induction false} BucketCellsForced(contexts: Contexts, chains: seq<seq<int>>, force: int, i: nat, j: nat)
    requires 0 <= force < |chains| && i <= |chains|
    ensures BucketCells(contexts, chains, force, i, j) == if i <= force then [] else ChainCells(contexts, chains[force], j)
    decreases i
  {
    hide ChainCells;
    if i > 0 {
      BucketCellsForced(contexts, chains, force, i - 1, j);
    }
  }

  lemma CellsNone(log: seq<int>, contexts: Contexts, chains: seq<seq<int>>, chain: seq<int>, force: int, j: nat)
    ensures log + ChainCells(contexts, chain[..0], j) == log + BucketCells(contexts, chains, force, 0, j) == log + [] == log
  {}

  lemma HasCellAt(contexts: Contexts, c: int, j: nat, cell: int)
    requires HasCell(contexts, c, j, cell)
    ensures CellAt(contexts, c, j) == cell
  {}

  lemma KeysMore(contexts: Contexts, contexts': Contexts, p: int)
    requires p in contexts' && contexts' == contexts[p := contexts'[p]]
    ensures contexts'.Keys == contexts.Keys + {p}
  {}

  lemma KeysRelinked(contexts: Contexts, mid: Contexts, last: int, p: int)
    requires last in mid && p in mid && last != p && mid.Keys == contexts.Keys + {p}
    ensures var contexts' := mid[last := mid[last].(next := p)];
            contexts'.Keys == contexts.Keys + {p} && contexts'[p] == mid[p]
  {}

  /** p is the new end of one chain; all else stands where it stood. */
  ghost predicate Joined(chains: seq<seq<int>>, chains': seq<seq<int>>, p: int) {
    exists h :: 0 <= h < |chains| && JoinedAt(chains, chains', h, p)
  }

  ghost predicate JoinedAt(chains: seq<seq<int>>, chains': seq<seq<int>>, h: int, p: int)
    requires 0 <= h < |chains|
  {
    chains' == chains[h := chains[h] + [p]]
  }

  lemma JoinedIs(chains: seq<seq<int>>, chains': seq<seq<int>>, h: int, p: int)
    requires 0 <= h < |chains| && chains' == chains[h := chains[h] + [p]]
    ensures Joined(chains, chains', p)
  {
    assert JoinedAt(chains, chains', h, p);
  }

  lemma ChainDistinct(contexts: Contexts, table: seq<int>, chains: seq<seq<int>>, i: nat)
    requires ChainsOk(contexts, table, chains) && i < |chains|
    ensures Distinct(chains[i])
  {
    hide ChainOk, Hash;
  }

  lemma CellsOnward(log0: seq<int>, log: seq<int>, cells: seq<int>, cell: int)
    ensures log == log0 + cells ==> log + [cell] == log0 + (cells + [cell])
    ensures log == log0 + [] ==> log + [] == log0 + []
  {}

  lemma {:induction false} ChainCellsAt(contexts: Contexts, cs: seq<int>, j: nat, n: nat)
    requires n < |cs|
    ensures |ChainCells(contexts, cs, j)| == |cs| && ChainCells(contexts, cs, j)[n] == CellAt(contexts, cs[n], j)
    decreases |cs|
  {
    if n < |cs| - 1 {
      ChainCellsAt(contexts, cs[..|cs| - 1], j, n);
    } else if |cs| > 1 {
      ChainCellsAt(contexts, cs[..|cs| - 1], j, 0);
    }
  }

  /** What the exact log means for the forced bucket: nothing else was constructed, and all of it was. */
  lemma CellsShow(log0: seq<int>, log: seq<int>, contexts: Contexts, table: seq<int>, chains: seq<seq<int>>, types: seq<ResType>,
                  id: nat, force: int, ctor: bool)
    requires ChainsOk(contexts, table, chains) && AllComplete(contexts, chains, types, id) && 0 < id <= |types| && !types[id - 1].done
    requires -1 <= force < |table| && |chains| == |table|
    requires log == log0 + if ctor then BucketCells(contexts, chains, force, |chains|, id - 1) else []
    ensures force != -1 ==> OnlyForced(log, |log0|, contexts, chains, force, id - 1)
    ensures ctor && force != -1 ==> Served(log, |log0|, contexts, chains, force, |chains[force]|, id - 1)
  {
    hide ChainOk, Hash, BucketCells, ChainCells;
    if force != -1 {
      var cs, cells := chains[force], ChainCells(contexts, chains[force], id - 1);
      BucketCellsForced(contexts, chains, force, |chains|, id - 1);
      if cs == [] {
        ChainCellsEmpty(contexts, id - 1);
      } else {
        ChainCellsAt(contexts, cs, id - 1, 0);
      }
      forall n | 0 <= n < |cs|
        ensures |cells| == |cs| && cells[n] == CellAt(contexts, cs[n], id - 1) && HasCell(contexts, cs[n], id - 1, cells[n]) && Linked(chains, force, cs[n])
      {
        ChainCellsAt(contexts, cs, id - 1, n);
        assert Linked(chains, force, cs[n]) && InSome(chains, cs[n]);
      }
      forall n | |log0| <= n < |log|
        ensures ForcedCell(contexts, chains, force, id - 1, log[n])
      {
        var i := n - |log0|;
        assert log[n] == cells[i] && HasCell(contexts, cs[i], id - 1, cells[i]) && Linked(chains, force, cs[i]);
      }
      forall n | ctor && 0 <= n < |cs|
        ensures IsServed(log, |log0|, contexts, cs[n], id - 1)
      {
        assert log[|log0| + n] == cells[n];
      }
    }
  }

  lemma ChainCellsEmpty(contexts: Contexts, j: nat)
    ensures ChainCells(contexts, [], j) == []
  {}

  lemma CellsMore(log: seq<int>, log1: seq<int>, log2: seq<int>, contexts: Contexts, chains: seq<seq<int>>, force: int, i: nat, j: nat, ctor: bool)
    requires i < |chains| && log1 == log + (if ctor then BucketCells(contexts, chains, force, i, j) else [])
    requires log2 == log1 + (if ctor && (force == -1 || force == i) then ChainCells(contexts, chains[i], j) else [])
    ensures log2 == log + (if ctor then BucketCells(contexts, chains, force, i + 1, j) else [])
  {
    hide ChainCells;
    assert BucketCells(contexts, chains, force, i + 1, j) ==
           BucketCells(contexts, chains, force, i, j) + if force == -1 || force == i then ChainCells(contexts, chains[i], j) else [];
  }

  lemma IdsParts(idMap: seq<seq<int>>, ids: map<int, int>, order: seq<int>, idCount: nat)
    requires IdsOk(idMap, ids, order, idCount)
    ensures IdsDense(ids, order, idCount) && MapOk(idMap, order)
  {}

  lemma IdsAre(idMap: seq<seq<int>>, ids: map<int, int>, order: seq<int>, idCount: nat)
    requires IdsDense(ids, order, idCount) && MapOk(idMap, order)
    ensures IdsOk(idMap, ids, order, idCount)
  {}

  lemma IdsNext(ids: map<int, int>, order: seq<int>, idCount: nat, address: int)
    requires IdsDense(ids, order, idCount) && address >= 0 && address !in order
    ensures IdsDense(ids[address := idCount + 1], order + [address], idCount + 1)
    ensures address in order + [address]
  {
    forall k | 0 <= k < idCount
      ensures order[k] != address
    {
      var a := order[k];
      assert a in order;
    }
  }

  lemma KnownId(order: seq<int>, ids: map<int, int>, idCount: nat, address: int)
    requires IdsDense(ids, order, idCount) && address in order
    ensures address in ids && 1 <= ids[address] <= idCount
  {
    var k :| 0 <= k < |order| && order[k] == address;
  }

  lemma NoneForced(log: seq<int>, contexts: Contexts, chains: seq<seq<int>>, k: int, i: int)
    ensures OnlyForced(log, |log|, contexts, chains, k, i)
  {}

  /** Before a new id is given out to the contexts, none has a cell for it. */
  lemma StartDone(contexts: Contexts, chains: seq<seq<int>>, types: seq<ResType>, types': seq<ResType>, idCount: nat)
    requires idCount > 0 && AllComplete(contexts, chains, types, idCount - 1) && idCount <= |types'|
    requires |types| <= |types'| && forall i :: 0 <= i < idCount - 1 && i < |types| ==> types'[i] == types[i]
    ensures DoneUpTo(contexts, chains, types', idCount, 0, 0)
  {
    forall k, n | At(contexts, chains, k, n)
      ensures Complete(contexts[chains[k][n]], types', idCount - 1)
    {
      var c := chains[k][n];
      assert Linked(chains, k, c) && InSome(chains, c);
    }
  }

  lemma AllDone(contexts: Contexts, table: seq<int>, chains: seq<seq<int>>, types: seq<ResType>, idCount: nat)
    requires DoneUpTo(contexts, chains, types, idCount, |table|, 0) && |chains| == |table|
    ensures AllComplete(contexts, chains, types, idCount)
  {
    hide Complete;
    forall c | InSome(chains, c) && c in contexts
      ensures Complete(contexts[c], types, idCount)
    {
      var k :| Linked(chains, k, c);
      var n :| 0 <= n < |chains[k]| && chains[k][n] == c;
      assert At(contexts, chains, k, n);
    }
  }

  lemma TlsKept(contexts: Contexts, contexts': Contexts, tls: int)
    requires SameLinks(contexts, contexts')
    ensures tls in contexts ==> tls in contexts'
  {}

  ghost predicate Grown(log: seq<int>, log': seq<int>) {
    |log| <= |log'| && log'[..|log|] == log
  }

  lemma GrownRefl(log: seq<int>)
    ensures Grown(log, log)
  {}

  lemma GrownTrans(a: seq<int>, b: seq<int>, c: seq<int>)
    requires Grown(a, b) && Grown(b, c)
    ensures Grown(a, c)
  {
    assert c[..|a|] == c[..|b|][..|a|];
  }

  lemma GrownMore(a: seq<int>, b: seq<int>, x: int)
    requires Grown(a, b)
    ensures Grown(a, b + [x]) && Grown(a, b + [])
  {
    assert (b + [x])[..|a|] == b[..|a|] && b + [] == b;
  }

  /** Since the log was from long, the cell of id i in context c was constructed. */
  ghost predicate IsServed(log: seq<int>, from: nat, contexts: Contexts, c: int, i: int) {
    exists n :: from <= n < |log| && HasCell(contexts, c, i, log[n])
  }

  /** So were those of the first m contexts of chain k. */
  ghost predicate Served(log: seq<int>, from: nat, contexts: Contexts, chains: seq<seq<int>>, k: int, m: int, i: int) {
    0 <= k < |chains| ==> forall n :: 0 <= n < m && n < |chains[k]| ==> IsServed(log, from, contexts, chains[k][n], i)
  }

  /** The construction that ends the log was on the forced context's cell. */
  lemma ServedLast(log: seq<int>, contexts: Contexts, chains: seq<seq<int>>, k: int, i: int, cell: int)
    requires 0 <= k < |chains| && |chains[k]| > 0 && HasCell(contexts, chains[k][0], i, cell)
    ensures IsServed(log + [cell], |log|, contexts, chains[k][0], i)
  {
    hide HasCell;
    assert (log + [cell])[|log|] == cell;
  }

  /** Every construction since the log was from long was on a cell of context p. */
  ghost predicate ConstructedIn(log: seq<int>, from: nat, contexts: Contexts, p: int) {
    from <= |log| && forall n :: from <= n < |log| ==> InContext(contexts, p, log[n])
  }

  ghost predicate InContext(contexts: Contexts, p: int, cell: int) {
    exists i :: HasCell(contexts, p, i, cell)
  }

  /** The cells whose constructors run in a new context: those of the first n ids that have one and are not freed. */
  ghost function Built(storage: seq<int>, types: seq<ResType>, n: nat): seq<int>
    requires n <= |storage| && n <= |types|
  {
    if n == 0 then []
    else Built(storage, types, n - 1) + if types[n - 1].ctor && !types[n - 1].done then [storage[n - 1]] else []
  }

  lemma {:induction false} BuiltMore(storage: seq<int>, x: int, types: seq<ResType>, n: nat)
    requires n <= |storage| && n <= |types|
    ensures Built(storage + [x], types, n) == Built(storage, types, n)
  {
    if n > 0 {
      BuiltMore(storage, x, types, n - 1);
    }
  }

  lemma CompleteNone(ctx: Context, types: seq<ResType>)
    requires ctx.storage == [] && ctx.count == 0
    ensures Complete(ctx, types, 0)
  {}

  lemma CompleteSize(ctx: Context, types: seq<ResType>, n: nat)
    requires Complete(ctx, types, n)
    ensures ctx.count == |ctx.storage| == n <= |types|
  {}

  lemma CompleteNext(ctx: Context, types: seq<ResType>, n: nat, cell: int)
    requires Complete(ctx, types, n) && n < |types| && (cell == 0 <==> types[n].done)
    ensures Complete(ctx.(storage := ctx.storage + [cell], count := ctx.count + 1), types, n + 1)
  {}

  lemma BuiltNone(log: seq<int>, types: seq<ResType>)
    ensures log == log + Built([], types, 0)
  {}

  lemma BuiltNext(log0: seq<int>, log: seq<int>, storage: seq<int>, x: int, types: seq<ResType>)
    requires |storage| < |types| && log == log0 + Built(storage, types, |storage|)
    ensures log + (if types[|storage|].ctor && !types[|storage|].done then [x] else []) == log0 + Built(storage + [x], types, |storage| + 1)
  {
    BuiltMore(storage, x, types, |storage|);
    var more := if types[|storage|].ctor && !types[|storage|].done then [x] else [];
    assert Built(storage + [x], types, |storage| + 1) == Built(storage, types, |storage|) + more;
  }

  lemma InNone(log: seq<int>, contexts: Contexts, p: int)
    ensures ConstructedIn(log, |log|, contexts, p)
  {}

  lemma InKept(log: seq<int>, from: nat, contexts: Contexts, contexts': Contexts, p: int)
    requires ConstructedIn(log, from, contexts, p) && CellsKept(contexts, contexts')
    ensures ConstructedIn(log, from, contexts', p)
  {
    hide HasCell;
    forall n | from <= n < |log|
      ensures InContext(contexts', p, log[n])
    {
      assert InContext(contexts, p, log[n]);
      var i :| HasCell(contexts, p, i, log[n]);
      assert HasCell(contexts', p, i, log[n]);
    }
  }

  lemma InMore(log: seq<int>, from: nat, contexts: Contexts, p: int, i: int, cell: int)
    requires ConstructedIn(log, from, contexts, p) && HasCell(contexts, p, i, cell)
    ensures ConstructedIn(log + [cell], from, contexts, p)
  {
    hide HasCell;
    assert InContext(contexts, p, cell);
  }

  lemma CellHere(contexts: Contexts, p: int, i: int, cell: int)
    requires p in contexts && 0 <= i < |contexts[p].storage| && contexts[p].storage[i] == cell && cell > 0
    ensures HasCell(contexts, p, i, cell)
  {}

  lemma BrkPositive(contexts: Contexts, brk: int, p: int)
    requires CellsOwned(contexts, brk) && p in contexts
    ensures 0 < p < brk
  {}

  /** One bucket now holds one new context alone. */
  lemma EntryReplaced(contexts: Contexts, contexts': Contexts, table: seq<int>, chains: seq<seq<int>>, idx: int, p: int)
    requires ChainsOk(contexts, table, chains) && OneEach(contexts, chains) && 0 <= idx < |table| && p > 0 && p !in contexts
    requires p in contexts' && contexts' == contexts[p := contexts'[p]] && contexts'[p].next == 0
    requires contexts'[p].threadId >= 0 && Hash(contexts'[p].threadId, |table|) == idx
    ensures ChainsOk(contexts', table[idx := p], chains[idx := [p]]) && OneEach(contexts', chains[idx := [p]])
  {
    hide ChainOk;
    var table', chains' := table[idx := p], chains[idx := [p]];
    forall k | 0 <= k < |table|
      ensures ChainOk(contexts', table'[k], chains'[k])
    {
      if k == idx {
        Alone(contexts', p);
      } else {
        BucketChain(contexts, table, chains, k);
        ChainFrame(contexts, contexts', table[k], chains[k]);
      }
    }
    forall k, c | Linked(chains', k, c)
      ensures c in contexts' && contexts'[c].threadId >= 0 && Hash(contexts'[c].threadId, |table|) == k
    {
      if k != idx { assert Linked(chains, k, c); }
    }
    forall k, c, d | Linked(chains', k, c) && Linked(chains', k, d) && contexts'[c].threadId == contexts'[d].threadId
      ensures c == d
    {
      if k != idx { assert Linked(chains, k, c) && Linked(chains, k, d); }
    }
  }

  lemma Alone(contexts: Contexts, p: int)
    requires p in contexts && p > 0 && contexts[p].next == 0
    ensures ChainOk(contexts, p, [p])
  {
    assert [p][1..] == [];
  }

  lemma ReplacedComplete(contexts: Contexts, contexts': Contexts, table: seq<int>, chains: seq<seq<int>>, types: seq<ResType>, idCount: nat, idx: int, p: int)
    requires AllComplete(contexts, chains, types, idCount) && 0 <= idx < |chains| && p in contexts' && contexts' == contexts[p := contexts'[p]]
    requires Complete(contexts'[p], types, idCount) && p !in contexts
    requires ChainsOk(contexts, table, chains)
    ensures AllComplete(contexts', chains[idx := [p]], types, idCount)
  {
    hide Complete, ChainOk, Hash;
    forall c | InSome(chains[idx := [p]], c) && c in contexts'
      ensures Complete(contexts'[c], types, idCount)
    {
      var k :| Linked(chains[idx := [p]], k, c);
      if c != p {
        assert Linked(chains, k, c);
        assert InSome(chains, c);
      }
    }
  }

  /** No context of the chain belongs to the thread. */
  ghost predicate NoneWith(contexts: Contexts, chain: seq<int>, threadId: int) {
    forall c :: c in chain && c in contexts ==> contexts[c].threadId != threadId
  }

  lemma NoneYet(contexts: Contexts, chain: seq<int>, threadId: int)
    ensures NoneWith(contexts, chain[..0], threadId)
  {}

  lemma NotThis(contexts: Contexts, chain: seq<int>, m: nat, threadId: int)
    requires m < |chain| && NoneWith(contexts, chain[..m], threadId) && chain[m] in contexts && contexts[chain[m]].threadId != threadId
    ensures NoneWith(contexts, chain[..m + 1], threadId)
  {
    assert chain[..m + 1] == chain[..m] + [chain[m]];
  }

  lemma WholeChain(chain: seq<int>, m: nat)
    requires m < |chain|
    ensures m + 1 == |chain| ==> chain[..m + 1] == chain
  {}

  lemma SmallHash(k: int, size: int)
    requires 0 <= k < size
    ensures Hash(k, size) == k
  {}

  /** Threads further on share the buckets in turn. */
  lemma HashRounds(value: int, size: int)
    requires value >= 0 && size > 0
    ensures Hash(value + size, size) == Hash(value, size)
  {
    assert value + size == (value / size + 1) * size + value % size;
    Remainder(value + size, size, value / size + 1, value % size);
  }

  lemma Remainder(n: int, d: int, q: int, r: int)
    requires d > 0 && 0 <= r < d && n == q * d + r
    ensures n % d == r
  {
    var q', r' := n / d, n % d;
    assert (q - q') * d == r' - r;
    assert q - q' >= 1 ==> (q - q') * d >= d;
    assert q - q' <= -1 ==> (q - q') * d <= -d;
  }

  /** One bucket got one more context at its end. */
  lemma EntryAppended(contexts: Contexts, mid: Contexts, contexts': Contexts, table: seq<int>, chains: seq<seq<int>>, h: int, last: int, p: int)
    requires ChainsOk(contexts, table, chains) && OneEach(contexts, chains) && 0 <= h < |table| && p > 0 && p !in contexts
    requires chains[h] != [] && last == chains[h][|chains[h]| - 1]
    requires p in mid && mid == contexts[p := mid[p]] && mid[p].next == 0
    requires last in mid && contexts' == mid[last := mid[last].(next := p)]
    requires mid[p].threadId >= 0 && Hash(mid[p].threadId, |table|) == h && NoneWith(contexts, chains[h], mid[p].threadId)
    ensures ChainsOk(contexts', table, chains[h := chains[h] + [p]]) && OneEach(contexts', chains[h := chains[h] + [p]])
  {
    hide ChainOk, Hash;
    var chains' := chains[h := chains[h] + [p]];
    BucketChain(contexts, table, chains, h);
    assert Linked(chains, h, last);
    forall k | 0 <= k < |table|
      ensures ChainOk(contexts', table[k], chains'[k]) && Distinct(chains'[k])
    {
      BucketChain(contexts, table, chains, k);
      if k == h {
        ChainAppend(contexts, contexts', table[h], chains[h], p);
        assert forall i :: 0 <= i < |chains[h]| ==> Linked(chains, h, chains[h][i]);
      } else {
        NotLast(contexts, table, chains, k, h, last);
        ChainFrame(contexts, contexts', table[k], chains[k]);
      }
    }
    forall k, c | Linked(chains', k, c)
      ensures c in contexts' && contexts'[c].threadId >= 0 && Hash(contexts'[c].threadId, |table|) == k
      ensures c == p || (Linked(chains, k, c) && contexts'[c].threadId == contexts[c].threadId)
    {
      if c != p { assert Linked(chains, k, c); }
    }
    forall k, c, d | Linked(chains', k, c) && Linked(chains', k, d) && contexts'[c].threadId == contexts'[d].threadId
      ensures c == d
    {
      assert c == p || (Linked(chains, k, c) && contexts'[c].threadId == contexts[c].threadId);
      assert d == p || (Linked(chains, k, d) && contexts'[d].threadId == contexts[d].threadId);
    }
  }

  lemma NotLast(contexts: Contexts, table: seq<int>, chains: seq<seq<int>>, k: int, h: int, last: int)
    requires ChainsOk(contexts, table, chains) && 0 <= h < |table| && 0 <= k < |table| && k != h && Linked(chains, h, last)
    ensures last !in chains[k]
  {
    hide ChainOk, Hash, Distinct;
    assert last in chains[k] ==> Linked(chains, k, last);
  }

  lemma AppendedComplete(contexts: Contexts, mid: Contexts, contexts': Contexts, table: seq<int>, chains: seq<seq<int>>, types: seq<ResType>, idCount: nat, h: int, last: int, p: int)
    requires AllComplete(contexts, chains, types, idCount) && 0 <= h < |chains| && p in mid && mid == contexts[p := mid[p]]
    requires last in mid && contexts' == mid[last := mid[last].(next := p)] && Complete(mid[p], types, idCount) && last in contexts
    ensures AllComplete(contexts', chains[h := chains[h] + [p]], types, idCount)
  {
    forall c | InSome(chains[h := chains[h] + [p]], c) && c in contexts'
      ensures Complete(contexts'[c], types, idCount)
    {
      var k :| Linked(chains[h := chains[h] + [p]], k, c);
      if c != p {
        assert Linked(chains, k, c);
        assert InSome(chains, c);
      }
    }
  }

  /** A link changes: the cells stay. */
  lemma Relinked(contexts: Contexts, brk: int, c: int, next: int)
    requires CellsOwned(contexts, brk) && c in contexts
    ensures CellsOwned(contexts[c := contexts[c].(next := next)], brk) && CellsKept(contexts, contexts[c := contexts[c].(next := next)])
  {
    var contexts' := contexts[c := contexts[c].(next := next)];
    forall d, i, cell
      ensures HasCell(contexts', d, i, cell) <==> HasCell(contexts, d, i, cell)
    {}
    forall d, i, e, j, cell | HasCell(contexts', d, i, cell) && HasCell(contexts', e, j, cell)
      ensures d == e && i == j
    {
      assert HasCell(contexts, d, i, cell) && HasCell(contexts, e, j, cell);
    }
    forall d, i, cell | HasCell(contexts', d, i, cell)
      ensures 0 < cell < brk
    {
      assert HasCell(contexts, d, i, cell);
    }
  }

  /** The first context of a thread's bucket is the thread's. */
  ghost predicate HeadIs(contexts: Contexts, table: seq<int>, threadId: int) {
    |table| > 0 && threadId >= 0 && table[Hash(threadId, |table|)] != 0 && table[Hash(threadId, |table|)] in contexts
    && contexts[table[Hash(threadId, |table|)]].threadId == threadId
  }

  lemma HeadFacts(contexts: Contexts, table: seq<int>, threadId: int)
    requires |table| > 0 && threadId >= 0
    ensures var h := Hash(threadId, |table|);
            && 0 <= h < |table| && (HeadIs(contexts, table, threadId) <==> table[h] != 0 && table[h] in contexts && contexts[table[h]].threadId == threadId)
  {}

  lemma HashRange(value: int, size: int)
    requires value >= 0 && size > 0
    ensures 0 <= Hash(value, size) < size
  {}

  lemma LastThere(contexts: Contexts, table: seq<int>, chains: seq<seq<int>>, h: int, last: int)
    requires ChainsOk(contexts, table, chains) && 0 <= h < |table| && chains[h] != [] && last == chains[h][|chains[h]| - 1]
    ensures last in contexts
  {
    hide ChainOk, Hash;
    BucketChain(contexts, table, chains, h);
    assert Linked(chains, h, last);
  }

  // ---- freeing an id ----

  /** Contexts before position m of chain i have lost the cell of the freed id; the others have not. */
  ghost predicate FreedUpTo(contexts: Contexts, chains: seq<seq<int>>, types: seq<ResType>, types': seq<ResType>, idCount: nat, i: int, m: int) {
    forall k, n :: At(contexts, chains, k, n) ==>
      Complete(contexts[chains[k][n]], if k < i || (k == i && n < m) then types' else types, idCount)
  }

  lemma FreeStart(contexts: Contexts, chains: seq<seq<int>>, types: seq<ResType>, types': seq<ResType>, idCount: nat)
    requires AllComplete(contexts, chains, types, idCount)
    ensures FreedUpTo(contexts, chains, types, types', idCount, 0, 0)
  {
    hide Complete;
    forall k, n | At(contexts, chains, k, n)
      ensures Complete(contexts[chains[k][n]], types, idCount)
    {
      var c := chains[k][n];
      assert Linked(chains, k, c) && InSome(chains, c);
    }
  }

  lemma FreeStep(before: Contexts, contexts: Contexts, table: seq<int>, chains: seq<seq<int>>, types: seq<ResType>, types': seq<ResType>, idCount: nat, i: int, m: nat, j: nat)
    requires ChainsOk(before, table, chains) && FreedUpTo(before, chains, types, types', idCount, i, m)
    requires 0 <= i < |chains| && m < |chains[i]| && chains[i][m] in before && chains[i][m] in contexts && j < idCount <= |types|
    requires types' == types[j := types[j].(done := true)] && j < |before[chains[i][m]].storage|
    requires contexts == before[chains[i][m] := before[chains[i][m]].(storage := before[chains[i][m]].storage[j := 0])]
    ensures FreedUpTo(contexts, chains, types, types', idCount, i, m + 1)
  {
    hide ChainsOk;
    var p := chains[i][m];
    assert At(before, chains, i, m);
    forall k, n | At(contexts, chains, k, n)
      ensures Complete(contexts[chains[k][n]], if k < i || (k == i && n < m + 1) then types' else types, idCount)
    {
      assert At(before, chains, k, n);
      if chains[k][n] == p {
        OnePlace(before, table, chains, k, n, i, m);
      }
    }
  }

  lemma FreeBucketDone(contexts: Contexts, chains: seq<seq<int>>, types: seq<ResType>, types': seq<ResType>, idCount: nat, i: int, m: nat)
    requires FreedUpTo(contexts, chains, types, types', idCount, i, m) && 0 <= i < |chains| && m == |chains[i]|
    ensures FreedUpTo(contexts, chains, types, types', idCount, i + 1, 0)
  {
    hide Complete;
  }

  lemma FreeAllDone(contexts: Contexts, table: seq<int>, chains: seq<seq<int>>, types: seq<ResType>, types': seq<ResType>, idCount: nat)
    requires FreedUpTo(contexts, chains, types, types', idCount, |table|, 0) && |chains| == |table|
    ensures AllComplete(contexts, chains, types', idCount)
  {
    hide Complete;
    forall c | InSome(chains, c) && c in contexts
      ensures Complete(contexts[c], types', idCount)
    {
      var k :| Linked(chains, k, c);
      var n :| 0 <= n < |chains[k]| && chains[k][n] == c;
      assert At(contexts, chains, k, n);
    }
  }

  /** All cells but those of id j in linked contexts stay. */
  ghost predicate OthersKept(contexts: Contexts, contexts': Contexts, chains: seq<seq<int>>, j: int) {
    forall c, i, cell :: HasCell(contexts, c, i, cell) && (i != j || !InSome(chains, c)) ==> HasCell(contexts', c, i, cell)
  }

  lemma OthersRefl(contexts: Contexts, chains: seq<seq<int>>, j: int)
    ensures OthersKept(contexts, contexts, chains, j)
  {}

  lemma CellFreed(c0: Contexts, contexts: Contexts, chains: seq<seq<int>>, brk: int, p: int, j: nat)
    requires CellsOwned(contexts, brk) && p in contexts && j < |contexts[p].storage| && InSome(chains, p) && OthersKept(c0, contexts, chains, j)
    ensures var contexts' := contexts[p := contexts[p].(storage := contexts[p].storage[j := 0])];
            CellsOwned(contexts', brk) && SameLinks(contexts, contexts') && OthersKept(c0, contexts', chains, j)
  {
    hide InSome;
    var contexts' := contexts[p := contexts[p].(storage := contexts[p].storage[j := 0])];
    forall d, i, cell | HasCell(contexts', d, i, cell)
      ensures HasCell(contexts, d, i, cell)
    {}
    forall d, i, e, k, cell | HasCell(contexts', d, i, cell) && HasCell(contexts', e, k, cell)
      ensures d == e && i == k
    {
      assert HasCell(contexts, d, i, cell) && HasCell(contexts, e, k, cell);
    }
    forall d, i, cell | HasCell(c0, d, i, cell) && (i != j || !InSome(chains, d))
      ensures HasCell(contexts', d, i, cell)
    {
      assert HasCell(contexts, d, i, cell);
    }
  }

  lemma HasAll(contexts: Contexts, chains: seq<seq<int>>, types: seq<ResType>, types': seq<ResType>, idCount: nat, i: int, m: nat)
    requires FreedUpTo(contexts, chains, types, types', idCount, i, m) && 0 <= i < |chains| && m < |chains[i]| && chains[i][m] in contexts
    ensures contexts[chains[i][m]].count == |contexts[chains[i][m]].storage| == idCount
    ensures forall j :: 0 <= j < idCount <= |types| ==> (contexts[chains[i][m]].storage[j] == 0 <==> types[j].done)
    ensures InSome(chains, chains[i][m])
  {
    assert At(contexts, chains, i, m);
    assert Linked(chains, i, chains[i][m]);
  }

  /** Position n of chain k comes before position m of chain i. */
  predicate Earlier(k: int, n: int, i: int, m: int) {
    k < i || (k == i && n < m)
  }

  /** Contexts from position m of chain i on are as they were. */
  ghost predicate RestSame(c0: Contexts, contexts: Contexts, chains: seq<seq<int>>, i: int, m: int) {
    forall k, n :: At(c0, chains, k, n) && !Earlier(k, n, i, m) ==>
      chains[k][n] in contexts && contexts[chains[k][n]] == c0[chains[k][n]]
  }

  ghost predicate LinkedCell(c0: Contexts, chains: seq<seq<int>>, j: int, cell: int) {
    exists k, n :: At(c0, chains, k, n) && HasCell(c0, chains[k][n], j, cell)
  }

  ghost predicate Logged(log: seq<int>, from: nat, cell: int) {
    exists n :: from <= n < |log| && log[n] == cell
  }

  /** The destructor ran on cells of id j in linked contexts only, and on all of them before position m of chain i. */
  ghost predicate DestroyedUpTo(c0: Contexts, chains: seq<seq<int>>, log: seq<int>, from: nat, j: int, dtor: bool, i: int, m: int) {
    && from <= |log| && (!dtor ==> |log| == from)
    && (forall n :: from <= n < |log| ==> LinkedCell(c0, chains, j, log[n]))
    && (dtor ==> forall k, n, cell :: At(c0, chains, k, n) && Earlier(k, n, i, m) && HasCell(c0, chains[k][n], j, cell) ==>
         Logged(log, from, cell))
  }

  lemma DestroyStart(c0: Contexts, chains: seq<seq<int>>, log: seq<int>, j: int, dtor: bool)
    ensures DestroyedUpTo(c0, chains, log, |log|, j, dtor, 0, 0) && RestSame(c0, c0, chains, 0, 0)
  {}

  lemma LoggedMore(log: seq<int>, from: nat, cell: int, x: int)
    ensures Logged(log, from, cell) ==> Logged(log + [x], from, cell)
    ensures from <= |log| ==> Logged(log + [x], from, x)
  {
    if Logged(log, from, cell) {
      var n :| from <= n < |log| && log[n] == cell;
      assert (log + [x])[n] == cell;
    }
    if from <= |log| {
      assert (log + [x])[|log|] == x;
    }
  }

  /** One context has been dealt with. */
  lemma DestroyStep(c0: Contexts, contexts: Contexts, chains: seq<seq<int>>, log: seq<int>, from: nat, j: nat, dtor: bool, i: int, m: nat)
    requires DestroyedUpTo(c0, chains, log, from, j, dtor, i, m) && RestSame(c0, contexts, chains, i, m)
    requires At(c0, chains, i, m) && chains[i][m] in contexts && j < |contexts[chains[i][m]].storage|
    ensures var cell := contexts[chains[i][m]].storage[j];
            DestroyedUpTo(c0, chains, log + (if dtor && cell != 0 then [cell] else []), from, j, dtor, i, m + 1)
  {
    hide LinkedCell;
    var p := chains[i][m];
    var cell := contexts[p].storage[j];
    var more := log + (if dtor && cell != 0 then [cell] else []);
    assert !Earlier(i, m, i, m) && contexts[p] == c0[p];
    if cell != 0 {
      assert HasCell(c0, p, j, cell);
      LinkedHere(c0, chains, i, m, j, cell);
    }
    forall n | from <= n < |more| ensures LinkedCell(c0, chains, j, more[n]) {
      assert n < |log| ==> more[n] == log[n];
    }
    forall k, n, x | dtor && At(c0, chains, k, n) && Earlier(k, n, i, m + 1) && HasCell(c0, chains[k][n], j, x)
      ensures Logged(more, from, x)
    {
      LoggedMore(log, from, x, cell);
      if cell == 0 {
        assert more == log;
      }
      if !Earlier(k, n, i, m) {
        assert x == cell;
      }
    }
  }

  lemma LinksBack(c0: Contexts, table: seq<int>, chains: seq<seq<int>>, i: int, m: int)
    requires ChainsOk(c0, table, chains) && 0 <= i < |chains| && 0 <= m < |chains[i]|
    ensures At(c0, chains, i, m)
  {
    hide ChainOk, Hash;
    assert Linked(chains, i, chains[i][m]);
  }

  lemma NothingLogged(log: seq<int>)
    ensures log + [] == log
  {}

  lemma LinkedHere(c0: Contexts, chains: seq<seq<int>>, i: int, m: int, j: int, cell: int)
    requires At(c0, chains, i, m) && HasCell(c0, chains[i][m], j, cell)
    ensures LinkedCell(c0, chains, j, cell)
  {}

  lemma RestStep(c0: Contexts, contexts: Contexts, table: seq<int>, chains: seq<seq<int>>, i: int, m: nat, ctx: Context)
    requires RestSame(c0, contexts, chains, i, m) && ChainsOk(c0, table, chains) && At(c0, chains, i, m)
    ensures RestSame(c0, contexts[chains[i][m] := ctx], chains, i, m + 1)
  {
    hide ChainsOk, Earlier;
    forall k, n | At(c0, chains, k, n) && !Earlier(k, n, i, m + 1)
      ensures chains[k][n] in contexts && chains[k][n] != chains[i][m] && !Earlier(k, n, i, m)
    {
      EarlierStep(k, n, i, m);
      if chains[k][n] == chains[i][m] {
        OnePlace(c0, table, chains, k, n, i, m);
      }
    }
  }

  lemma EarlierStep(k: int, n: int, i: int, m: int)
    ensures Earlier(k, n, i, m + 1) <==> Earlier(k, n, i, m) || (k == i && n == m)
  {}

  lemma DestroyBucket(c0: Contexts, contexts: Contexts, chains: seq<seq<int>>, log: seq<int>, from: nat, j: int, dtor: bool, i: int, m: nat)
    requires DestroyedUpTo(c0, chains, log, from, j, dtor, i, m) && RestSame(c0, contexts, chains, i, m)
    requires 0 <= i < |chains| && m == |chains[i]|
    ensures DestroyedUpTo(c0, chains, log, from, j, dtor, i + 1, 0) && RestSame(c0, contexts, chains, i + 1, 0)
  {
    hide HasCell, LinkedCell;
  }

  /** The cells of one id that are there, in the order in which freeing visits them. */
  ghost function Held(contexts: Contexts, cs: seq<int>, j: nat): seq<int> {
    if cs == [] then []
    else Held(contexts, cs[..|cs| - 1], j) + if CellAt(contexts, cs[|cs| - 1], j) != 0 then [CellAt(contexts, cs[|cs| - 1], j)] else []
  }

  ghost function AllHeld(contexts: Contexts, chains: seq<seq<int>>, i: nat, j: nat): seq<int>
    requires i <= |chains|
  {
    if i == 0 then [] else AllHeld(contexts, chains, i - 1, j) + Held(contexts, chains[i - 1], j)
  }

  lemma HeldNone(log: seq<int>, contexts: Contexts, chains: seq<seq<int>>, chain: seq<int>, j: nat)
    ensures log + Held(contexts, chain[..0], j) == log + AllHeld(contexts, chains, 0, j) == log + [] == log
  {}

  lemma HeldNext(log0: seq<int>, log: seq<int>, c0: Contexts, contexts: Contexts, chains: seq<seq<int>>, i: nat, m: nat, j: nat, dtor: bool)
    requires RestSame(c0, contexts, chains, i, m) && i < |chains| && m < |chains[i]| && At(c0, chains, i, m) && chains[i][m] in contexts
    requires j < |contexts[chains[i][m]].storage| && log == log0 + if dtor then Held(c0, chains[i][..m], j) else []
    ensures var cell := contexts[chains[i][m]].storage[j];
            log + (if dtor && cell != 0 then [cell] else []) == log0 + if dtor then Held(c0, chains[i][..m + 1], j) else []
  {
    var cs := chains[i][..m + 1];
    assert cs[..m] == chains[i][..m] && cs[m] == chains[i][m];
    assert contexts[chains[i][m]] == c0[chains[i][m]];
    if dtor {
      var more := if CellAt(c0, cs[m], j) != 0 then [CellAt(c0, cs[m], j)] else [];
      assert Held(c0, cs, j) == Held(c0, chains[i][..m], j) + more;
    }
  }

  lemma HeldMore(log: seq<int>, log1: seq<int>, log2: seq<int>, contexts: Contexts, chains: seq<seq<int>>, i: nat, j: nat, dtor: bool)
    requires i < |chains| && log1 == log + if dtor then AllHeld(contexts, chains, i, j) else []
    requires log2 == log1 + if dtor then Held(contexts, chains[i], j) else []
    ensures log2 == log + if dtor then AllHeld(contexts, chains, i + 1, j) else []
  {
    hide Held;
    assert AllHeld(contexts, chains, i + 1, j) == AllHeld(contexts, chains, i, j) + Held(contexts, chains[i], j);
  }

  /** The destructor ran on exactly the cells of id j in linked contexts, if there is one. */
  ghost predicate Destroyed(c0: Contexts, chains: seq<seq<int>>, log: seq<int>, from: nat, j: int, dtor: bool) {
    && from <= |log| && (!dtor ==> |log| == from)
    && (dtor ==> forall cell :: LinkedCell(c0, chains, j, cell) <==> Logged(log, from, cell))
  }

  lemma DestroyDone(c0: Contexts, chains: seq<seq<int>>, log: seq<int>, from: nat, j: int, dtor: bool)
    requires DestroyedUpTo(c0, chains, log, from, j, dtor, |chains|, 0)
    ensures Destroyed(c0, chains, log, from, j, dtor)
  {
    hide HasCell;
  }

  ghost predicate NoneDone(types: seq<ResType>, idCount: nat) {
    forall i :: 0 <= i < idCount && i < |types| ==> !types[i].done
  }

  /** The next id has that type, the ids before keep theirs. */
  ghost predicate TypesGrown(types: seq<ResType>, types': seq<ResType>, idCount: nat, t: ResType) {
    idCount < |types'| && types'[idCount] == t && forall i :: 0 <= i < idCount && i < |types| ==> types'[i] == types[i]
  }

  lemma DoneKept(types: seq<ResType>, grown: seq<ResType>, id: nat, size: int, ctor: bool, dtor: bool)
    requires id > 0 && id <= |grown| && types <= grown && id - 1 <= |types|
    ensures NoneDone(types, id - 1) ==> NoneDone(grown[id - 1 := ResType(size, ctor, dtor, false)], id)
    ensures TypesGrown(types, grown[id - 1 := ResType(size, ctor, dtor, false)], id - 1, ResType(size, ctor, dtor, false))
  {}

  /** Where a resource is: the whole storage of a context, or the cell of an id in it. */
  datatype Place = Whole(ctx: int) | Cell(cell: int)

  class Manager {
    var idMap: seq<seq<int>>
    var ids: map<int, int>
    var idCount: nat
    var types: seq<ResType>
    var table: seq<int>
    var contexts: Contexts
    var force: int
    var tls: int
    var brk: int
    var constructed: seq<int>
    var destroyed: seq<int>
    ghost var chains: seq<seq<int>>
    ghost var order: seq<int>

    ghost predicate Tables()
      reads this`contexts, this`table, this`chains
    {
      ChainsOk(contexts, table, chains) && OneEach(contexts, chains)
    }

    ghost predicate Valid()
      reads this`idMap, this`ids, this`idCount, this`types, this`table, this`contexts, this`force, this`tls
      reads this`brk, this`chains, this`order
    {
      && IdsOk(idMap, ids, order, idCount)
      && Tables() && AllComplete(contexts, chains, types, idCount) && idCount <= |types|
      && CellsOwned(contexts, brk) && brk > 0
      && -1 <= force < |table| && (tls == 0 || tls in contexts)
    }

    lemma Parts()
      requires Valid()
      ensures IdsOk(idMap, ids, order, idCount) && Tables() && ChainsOk(contexts, table, chains) && OneEach(contexts, chains)
      ensures AllComplete(contexts, chains, types, idCount) && idCount <= |types| && CellsOwned(contexts, brk) && brk > 0
      ensures -1 <= force < |table| && (tls == 0 || tls in contexts)
    {
      hide IdsOk, ChainsOk, OneEach, AllComplete, CellsOwned;
    }

    lemma Assemble()
      requires IdsOk(idMap, ids, order, idCount) && ChainsOk(contexts, table, chains) && OneEach(contexts, chains)
      requires AllComplete(contexts, chains, types, idCount) && idCount <= |types| && CellsOwned(contexts, brk) && brk > 0
      requires -1 <= force < |table| && (tls == 0 || tls in contexts)
      ensures Valid()
    {
      hide IdsOk, ChainsOk, OneEach, AllComplete, CellsOwned;
    }

    /** Startup: an empty table for the expected threads, no ids. */
    constructor (expectedThreads: nat, expectedResources: nat)
      requires expectedThreads > 0
      ensures Valid() && idCount == 0 && force == -1 && tls == 0 && |table| == expectedThreads && constructed == [] && contexts == map[]
      ensures |chains| == |table| && forall k :: 0 <= k < |table| ==> table[k] == 0 && chains[k] == []
    {
      idMap := seq(MAP_SIZE, i => []);
      ids := map[];
      idCount := 0;
      types := seq(expectedResources, i => ResType(0, false, false, false));
      table := seq(expectedThreads, i => 0);
      contexts := map[];
      force := -1;
      tls := 0;
      brk := 1;
      constructed, destroyed := [], [];
      chains := seq(expectedThreads, i => []);
      order := [];
    }

    /** Remembers an address; false if it was known. */
    method IsNew(address: int) returns (isNew: bool)
      requires MapOk(idMap, order) && address >= 0
      modifies this`idMap
      ensures isNew <==> address !in order
      ensures !isNew ==> idMap == old(idMap)
      ensures isNew ==> MapOk(idMap, order + [address])
    {
      hide Hash;
      var h := Hash(address, MAP_SIZE);
      var bucket := idMap[h];
      for i := 0 to |bucket|
        invariant address !in bucket[..i]
      {
        if bucket[i] == address {
          assert address in bucket;
          return false;
        }
      }
      assert bucket[..|bucket|] == bucket;
      idMap := idMap[h := bucket + [address]];
      isNew := true;
    }

    /** The thread a call counts for: the forced coroutine, if there is one. */
    function ThreadId(osThread: int): int
      reads this`force
    {
      if force != -1 then force else osThread
    }

    method SetForce(id: int)
      requires Valid() && -1 <= id < |table|
      modifies this`force
      ensures Valid() && force == id
    {
      hide *;
      Parts();
      force := id;
      Assemble();
    }

    /** Gives a context the cells it lacks, and constructs them if it belongs to the forced coroutine or none is forced. */
    method Enlarge(p: int, bucket: int)
      requires CellsOwned(contexts, brk) && brk > 0 && p in contexts && contexts[p].count + 1 == idCount <= |types|
      requires Linked(chains, bucket, p)
      modifies this`contexts, this`brk, this`constructed
      ensures CellsOwned(contexts, brk) && brk > 0 && CellsKept(old(contexts), contexts) && SameLinks(old(contexts), contexts)
      ensures p in contexts && contexts == old(contexts)[p := contexts[p]] && brk > old(brk)
      ensures contexts[p].storage == old(contexts)[p].storage + [old(brk)] && contexts[p].count == idCount
      ensures HasCell(contexts, p, idCount - 1, old(brk))
      ensures constructed == old(constructed) + if types[idCount - 1].ctor && (force == -1 || force == bucket) then [old(brk)] else []
    {
      var j := contexts[p].count;
      while j < idCount
        invariant old(contexts)[p].count <= j <= idCount && p in contexts && contexts[p].count == j && brk > 0
        invariant CellsOwned(contexts, brk) && CellsKept(old(contexts), contexts)
        invariant j == old(contexts)[p].count ==> contexts == old(contexts) && brk == old(brk) && constructed == old(constructed)
        invariant j > old(contexts)[p].count ==> contexts == old(contexts)[p := contexts[p]] && brk > old(brk)
        invariant j > old(contexts)[p].count ==>
          contexts[p] == old(contexts)[p].(storage := old(contexts)[p].storage + [old(brk)], count := j)
        invariant j > old(contexts)[p].count ==>
          constructed == old(constructed) + if types[j - 1].ctor && (force == -1 || force == bucket) then [old(brk)] else []
      {
        hide CellsOwned, CellsKept;
        CellAdded(contexts, brk, p);
        KeptTrans(old(contexts), contexts, contexts[p := contexts[p].(storage := contexts[p].storage + [brk], count := contexts[p].count + 1)]);
        var cell := brk;
        brk := brk + 1;
        contexts := contexts[p := contexts[p].(storage := contexts[p].storage + [cell], count := contexts[p].count + 1)];
        if types[j].ctor && (force == -1 || force == bucket) {
          constructed := constructed + [cell];
        }
        j := j + 1;
      }
    }

    /** Enlarges the contexts of one bucket. */
    method EnlargeBucket(i: int)
      requires Tables() && CellsOwned(contexts, brk) && brk > 0 && 0 <= i < |table| && 0 < idCount <= |types|
      requires DoneUpTo(contexts, chains, types, idCount, i, 0) && !types[idCount - 1].done
      modifies this`contexts, this`brk, this`constructed
      ensures Tables() && CellsOwned(contexts, brk) && brk > 0 && CellsKept(old(contexts), contexts) && SameLinks(old(contexts), contexts)
      ensures DoneUpTo(contexts, chains, types, idCount, i + 1, 0)
      ensures Grown(old(constructed), constructed) && |chains| == |table|
      ensures constructed == old(constructed) + if types[idCount - 1].ctor && (force == -1 || force == i) then ChainCells(contexts, chains[i], idCount - 1) else []
    {
      hide *;
      TableParts();
      GrownRefl(constructed);
      KeptRefl(contexts);
      LinksRefl(contexts);
      BucketChain(contexts, table, chains, i);
      ChainHead(contexts, table[i], chains[i]);
      CellsNone(constructed, contexts, chains, chains[i], force, idCount - 1);
      ghost var log0, runs := constructed, types[idCount - 1].ctor && (force == -1 || force == i);
      var p := table[i];
      ghost var m: nat := 0;
      while p != 0
        invariant Tables() && CellsOwned(contexts, brk) && brk > 0 && CellsKept(old(contexts), contexts) && SameLinks(old(contexts), contexts)
        invariant m <= |chains[i]| && p == (if m < |chains[i]| then chains[i][m] else 0) && |chains| == |table|
        invariant m < |chains[i]| ==> chains[i][m] != 0
        invariant Grown(old(constructed), constructed)
        invariant constructed == log0 + if runs then ChainCells(contexts, chains[i][..m], idCount - 1) else []
        invariant DoneUpTo(contexts, chains, types, idCount, i, m)
        decreases |chains[i]| - m
      {
        ghost var before, log, cell := contexts, constructed, brk;
        TableParts();
        BucketChain(contexts, table, chains, i);
        ChainAt(contexts, table[i], chains[i], m);
        StillShort(contexts, chains, types, idCount, i, m);
        if contexts[p].count < idCount {
          Enlarge(p, i);
          ChainDistinct(before, table, chains, i);
          ChainCellsNext(before, contexts, chains[i], m, idCount - 1, cell);
          CellsOnward(log0, log, ChainCells(before, chains[i][..m], idCount - 1), cell);
          ChainsKept(before, contexts, table, chains);
          TablesAre();
          StepDone(before, contexts, table, chains, types, idCount, i, m, cell);
          LinksTrans(old(contexts), before, contexts);
          KeptTrans(old(contexts), before, contexts);
          GrownMore(old(constructed), log, cell);
        }
        BucketChain(contexts, table, chains, i);
        ChainAt(contexts, table[i], chains[i], m);
        if m + 1 < |chains[i]| { ChainAt(contexts, table[i], chains[i], m + 1); }
        p := contexts[p].next;
        m := m + 1;
      }
      assert chains[i][..m] == chains[i];
      BucketDone(contexts, chains, types, idCount, i, m);
    }

    lemma TableParts()
      requires Tables()
      ensures ChainsOk(contexts, table, chains) && OneEach(contexts, chains) && |chains| == |table| > 0
    {
      hide ChainOk, Linked, OneEach, Distinct;
    }

    lemma TablesAre()
      requires ChainsOk(contexts, table, chains) && OneEach(contexts, chains)
      ensures Tables()
    {
      hide ChainsOk, OneEach;
    }

    /**
     Allocates a resource id for an address. A new address gets the next id, and every linked context a
     cell for it; a known one has its resource constructed again for the forced coroutine. Constructors
     run on cells of the forced coroutine only.
     */
    method AllocateId(address: int, size: int, ctor: bool, dtor: bool) returns (id: int)
      requires Valid() && address >= 0
      requires address in order ==> 0 <= force < |table| && table[force] != 0 && !Freed(address)
      modifies this`idMap, this`ids, this`idCount, this`types, this`contexts, this`brk, this`constructed, this`order
      ensures Valid() && address in order && address in ids && id == ids[address] && 1 <= id <= idCount
      ensures address in old(order) ==> order == old(order) && ids == old(ids) && contexts == old(contexts) && idCount == old(idCount)
      ensures address !in old(order) ==> order == old(order) + [address] && id == old(idCount) + 1 == idCount
      ensures CellsKept(old(contexts), contexts) && SameLinks(old(contexts), contexts)
      ensures force != -1 ==> OnlyForced(constructed, |old(constructed)|, contexts, chains, force, id - 1)
      ensures Grown(old(constructed), constructed) && |chains| == |table| && id <= |types|
      ensures types[id - 1].ctor && force != -1 && table[force] != 0 ==>
                table[force] in contexts && IsServed(constructed, |old(constructed)|, contexts, table[force], id - 1)
      ensures address in old(order) ==>
                constructed == old(constructed) + if types[id - 1].ctor then [CellAt(contexts, table[force], id - 1)] else []
      ensures address !in old(order) ==>
                constructed == old(constructed) + if ctor then BucketCells(contexts, chains, force, |chains|, id - 1) else []
      ensures NoneDone(old(types), old(idCount)) ==> NoneDone(types, idCount)
      ensures if address in old(order) then types == old(types) else TypesGrown(old(types), types, old(idCount), ResType(size, ctor, dtor, false))
    {
      hide *;
      Parts();
      IdsParts(idMap, ids, order, idCount);
      var isNew := IsNew(address);
      if !isNew {
        KnownId(order, ids, idCount, address);
        id := ids[address];
        var p := table[force];
        NotFreed(address);
        Reconstruct(id);
        KeptRefl(contexts);
        LinksRefl(contexts);
        NoneForced(constructed, contexts, chains, force, id - 1);
        GrownRefl(constructed);
        HasCellAt(contexts, p, id - 1, contexts[p].storage[id - 1]);
        GrownMore(constructed, constructed, contexts[p].storage[id - 1]);
        if types[id - 1].ctor {
          ForcedAdded(constructed, |constructed|, contexts, chains, force, id - 1, p, contexts[p].storage[id - 1]);
          ServedLast(constructed, contexts, chains, force, id - 1, contexts[p].storage[id - 1]);
          constructed := constructed + [contexts[p].storage[id - 1]];
        }
        Assemble();
        return;
      }
      id := NewId(address, size, ctor, dtor);
      ForcedServed(|old(constructed)|, id, ctor);
    }

    /** The id of the address was freed. */
    ghost predicate Freed(address: int)
      reads this`ids, this`types
    {
      address in ids && 1 <= ids[address] <= |types| && types[ids[address] - 1].done
    }

    lemma NotFreed(address: int)
      requires !Freed(address) && address in ids && 1 <= ids[address] <= |types|
      ensures !types[ids[address] - 1].done
    {}

    lemma Reconstruct(id: int)
      requires Valid() && 1 <= id <= idCount && 0 <= force < |table| && table[force] != 0 && !types[id - 1].done
      ensures id <= |types| && table[force] in contexts && id <= |contexts[table[force]].storage|
      ensures Linked(chains, force, table[force]) && HasCell(contexts, table[force], id - 1, contexts[table[force]].storage[id - 1])
      ensures |chains| == |table| && |chains[force]| > 0 && chains[force][0] == table[force]
    {
      hide ChainOk, IdsOk, CellsOwned, OneEach;
      BucketChain(contexts, table, chains, force);
      ChainHead(contexts, table[force], chains[force]);
      var c := chains[force][0];
      assert Linked(chains, force, c) && InSome(chains, c);
    }

    lemma ForcedServed(from: nat, id: int, ctor: bool)
      requires Valid() && |chains| == |table| && ctor && force != -1 ==> Served(constructed, from, contexts, chains, force, |chains[force]|, id - 1)
      requires Valid() && |chains| == |table|
      ensures ctor && force != -1 && table[force] != 0 ==>
                table[force] in contexts && IsServed(constructed, from, contexts, table[force], id - 1)
    {
      hide ChainOk, IdsOk, CellsOwned, OneEach, AllComplete, IsServed;
      if ctor && force != -1 && table[force] != 0 {
        BucketChain(contexts, table, chains, force);
        ChainHead(contexts, table[force], chains[force]);
        ChainAt(contexts, table[force], chains[force], 0);
      }
    }

    /** Enlarges every linked context for the newest id. */
    method EnlargeAll()
      requires Tables() && CellsOwned(contexts, brk) && brk > 0 && 0 < idCount <= |types|
      requires DoneUpTo(contexts, chains, types, idCount, 0, 0) && !types[idCount - 1].done
      modifies this`contexts, this`brk, this`constructed
      ensures Tables() && CellsOwned(contexts, brk) && brk > 0 && CellsKept(old(contexts), contexts) && SameLinks(old(contexts), contexts)
      ensures AllComplete(contexts, chains, types, idCount) && Grown(old(constructed), constructed) && |chains| == |table|
      ensures constructed == old(constructed) + if types[idCount - 1].ctor then BucketCells(contexts, chains, force, |chains|, idCount - 1) else []
    {
      hide *;
      TableParts();
      KeptRefl(contexts);
      LinksRefl(contexts);
      GrownRefl(constructed);
      CellsNone(constructed, contexts, chains, [], force, idCount - 1);
      var i := 0;
      while i < |table|
        invariant 0 <= i <= |table| && Tables() && CellsOwned(contexts, brk) && brk > 0
        invariant CellsKept(old(contexts), contexts) && SameLinks(old(contexts), contexts)
        invariant |chains| == |table| && constructed == old(constructed) + if types[idCount - 1].ctor then BucketCells(contexts, chains, force, i, idCount - 1) else []
        invariant DoneUpTo(contexts, chains, types, idCount, i, 0)
        invariant Grown(old(constructed), constructed)
      {
        ghost var before, log := contexts, constructed;
        TableParts();
        EnlargeBucket(i);
        BucketCellsKept(before, contexts, table, chains, types, idCount, force, i, i);
        CellsMore(old(constructed), log, constructed, contexts, chains, force, i, idCount - 1, types[idCount - 1].ctor);
        GrownTrans(old(constructed), log, constructed);
        KeptTrans(old(contexts), before, contexts);
        LinksTrans(old(contexts), before, contexts);
        i := i + 1;
      }
      AllDone(contexts, table, chains, types, idCount);
    }

    /** Gives a new address the next id and every linked context a cell for it. */
    method NewId(address: int, size: int, ctor: bool, dtor: bool) returns (id: int)
      requires IdsDense(ids, order, idCount) && MapOk(idMap, order + [address]) && address >= 0 && address !in order
      requires Tables() && AllComplete(contexts, chains, types, idCount) && idCount <= |types| && CellsOwned(contexts, brk) && brk > 0
      requires -1 <= force < |table| && (tls == 0 || tls in contexts)
      modifies this`ids, this`idCount, this`types, this`contexts, this`brk, this`constructed, this`order
      ensures Valid() && order == old(order) + [address] && id == old(idCount) + 1 == idCount && address in ids && ids[address] == id
      ensures CellsKept(old(contexts), contexts) && SameLinks(old(contexts), contexts)
      ensures force != -1 ==> OnlyForced(constructed, |old(constructed)|, contexts, chains, force, id - 1)
      ensures Grown(old(constructed), constructed) && |chains| == |table| && id <= |types| && types[id - 1] == ResType(size, ctor, dtor, false)
      ensures ctor && force != -1 ==> Served(constructed, |old(constructed)|, contexts, chains, force, |chains[force]|, id - 1)
      ensures constructed == old(constructed) + if ctor then BucketCells(contexts, chains, force, |chains|, id - 1) else []
      ensures NoneDone(old(types), old(idCount)) ==> NoneDone(types, idCount)
      ensures TypesGrown(old(types), types, old(idCount), ResType(size, ctor, dtor, false))
    {
      hide *;
      id := idCount + 1;
      var grown := if |types| < id then types + [ResType(0, false, false, false)] else types;
      StartDone(contexts, chains, types, grown[id - 1 := ResType(size, ctor, dtor, false)], id);
      DoneKept(types, grown, id, size, ctor, dtor);
      idCount, ids, types := id, ids[address := id], grown[id - 1 := ResType(size, ctor, dtor, false)];
      EnlargeAll();
      TableParts();
      CellsShow(old(constructed), constructed, contexts, table, chains, types, id, force, ctor);
      IdsNext(old(ids), order, old(idCount), address);
      IdsAre(idMap, ids, order + [address], idCount);
      TlsKept(old(contexts), contexts, tls);
      order := order + [address];
      Assemble();
    }

    // ---- contexts ----

    /** A new context with a cell for every id, each constructed; it becomes the thread's current one. */
    method AllocateNewResource(threadId: int) returns (p: int)
      requires CellsOwned(contexts, brk) && brk > 0 && idCount <= |types|
      modifies this`contexts, this`brk, this`constructed, this`tls
      ensures CellsOwned(contexts, brk) && brk > 0 && CellsKept(old(contexts), contexts) && tls == p
      ensures p > 0 && p !in old(contexts) && p in contexts && contexts == old(contexts)[p := contexts[p]]
      ensures Complete(contexts[p], types, idCount) && contexts[p].threadId == threadId && contexts[p].next == 0
      ensures Grown(old(constructed), constructed) && ConstructedIn(constructed, |old(constructed)|, contexts, p)
      ensures idCount <= |contexts[p].storage| && constructed == old(constructed) + Built(contexts[p].storage, types, idCount)
    {
      hide CellsOwned, CellsKept, Grown, ConstructedIn, HasCell, Built, Complete;
      p := brk;
      ContextAdded(contexts, brk, Context([], 0, threadId, 0));
      GrownRefl(constructed);
      contexts := contexts[p := Context([], 0, threadId, 0)];
      brk := brk + 1;
      tls := p;
      BrkPositive(contexts, brk, p);
      InNone(constructed, contexts, p);
      ghost var was, log0 := |constructed|, constructed;
      BuiltNone(log0, types);
      CompleteNone(contexts[p], types);
      var i := 0;
      while i < idCount
        invariant 0 <= i <= idCount && CellsOwned(contexts, brk) && brk > 0 && CellsKept(old(contexts), contexts) && p in contexts
        invariant contexts == old(contexts)[p := contexts[p]] && contexts[p].threadId == threadId && contexts[p].next == 0
        invariant Complete(contexts[p], types, i) && i == |contexts[p].storage| <= |types|
        invariant constructed == log0 + Built(contexts[p].storage, types, i)
        invariant Grown(old(constructed), constructed) && ConstructedIn(constructed, was, contexts, p)
        decreases idCount - i
        modifies this`contexts, this`brk, this`constructed
      {
        ghost var before := contexts;
        var ctx := contexts[p];
        CompleteSize(ctx, types, i);
        if types[i].done {
          NullAdded(contexts, brk, p);
          CompleteNext(ctx, types, i, 0);
          BuiltNext(log0, constructed, ctx.storage, 0, types);
          contexts := contexts[p := ctx.(storage := ctx.storage + [0], count := ctx.count + 1)];
          InKept(constructed, was, before, contexts, p);
        } else {
          var cell := brk;
          CellAdded(contexts, brk, p);
          CompleteNext(ctx, types, i, cell);
          BuiltNext(log0, constructed, ctx.storage, cell, types);
          brk := brk + 1;
          contexts := contexts[p := ctx.(storage := ctx.storage + [cell], count := ctx.count + 1)];
          InKept(constructed, was, before, contexts, p);
          if types[i].ctor {
            GrownMore(old(constructed), constructed, cell);
            CellHere(contexts, p, i, cell);
            InMore(constructed, was, contexts, p, i, cell);
            constructed := constructed + [cell];
          }
        }
        KeptTrans(old(contexts), before, contexts);
        i := i + 1;
      }
    }

    /** Makes another context current; returns the one that was. */
    method SetInterpreterContext(newCtx: int) returns (current: int)
      modifies this`tls
      ensures current == old(tls) && tls == newCtx
    {
      current := tls;
      tls := newCtx;
    }

    /** A new context for the calling thread; the current one stays current. */
    method NewInterpreterContext(osThread: int) returns (p: int)
      requires CellsOwned(contexts, brk) && brk > 0 && idCount <= |types|
      modifies this`contexts, this`brk, this`constructed, this`tls
      ensures CellsOwned(contexts, brk) && brk > 0 && CellsKept(old(contexts), contexts) && tls == old(tls)
      ensures p > 0 && p !in old(contexts) && p in contexts && contexts == old(contexts)[p := contexts[p]]
      ensures Complete(contexts[p], types, idCount) && contexts[p].threadId == ThreadId(osThread) && contexts[p].next == 0
      ensures Grown(old(constructed), constructed) && ConstructedIn(constructed, |old(constructed)|, contexts, p)
      ensures idCount <= |contexts[p].storage| && constructed == old(constructed) + Built(contexts[p].storage, types, idCount)
    {
      hide *;
      var threadId := ThreadId(osThread);
      var current := tls;
      var q := AllocateNewResource(threadId);
      p := SetInterpreterContext(current);
    }

    /** The context of coroutine idx: it becomes the forced one, and its context heads its bucket alone. */
    method CreateEntry(idx: int, osThread: int)
      requires Valid() && 0 <= idx < |table|
      modifies this`contexts, this`brk, this`constructed, this`tls, this`force, this`table, this`chains
      ensures Valid() && force == idx && tls == old(tls)
      ensures 0 <= idx < |table| == |old(table)| && table == old(table)[idx := table[idx]]
      ensures table[idx] != 0 && table[idx] !in old(contexts) && table[idx] in contexts && contexts[table[idx]].threadId == idx
      ensures CellsKept(old(contexts), contexts) && ConstructedIn(constructed, |old(constructed)|, contexts, table[idx])
      ensures Grown(old(constructed), constructed) && |old(chains)| == |old(table)| && chains == old(chains)[idx := [table[idx]]]
      ensures contexts == old(contexts)[table[idx] := contexts[table[idx]]]
      ensures idCount <= |types| && idCount <= |contexts[table[idx]].storage|
      ensures constructed == old(constructed) + Built(contexts[table[idx]].storage, types, idCount)
    {
      hide *;
      Parts();
      SetForce(idx);
      Parts();
      Forced(osThread);
      var p := NewInterpreterContext(osThread);
      BucketChain(old(contexts), table, chains, idx);
      SmallHash(idx, |table|);
      EntryReplaced(old(contexts), contexts, table, chains, idx, p);
      ReplacedComplete(old(contexts), contexts, table, chains, types, idCount, idx, p);
      table := table[idx := p];
      chains := chains[idx := [p]];
      Assemble();
    }

    lemma Forced(osThread: int)
      ensures ThreadId(osThread) == if force == -1 then osThread else force
    {}

    // ---- lookup ----

    ghost predicate Reachable(p: int, threadId: int)
      reads this`contexts, this`chains, this`table
    {
      |table| > 0 && threadId >= 0 && Linked(chains, Hash(threadId, |table|), p) && p in contexts && contexts[p].threadId == threadId
    }

    /** The storage of a context, or the cell of an id in it. */
    function Fetch(p: int, id: int): Place
      requires p in contexts && 0 <= id <= |contexts[p].storage|
      reads this`contexts
    {
      if id == 0 then Whole(p) else Cell(contexts[p].storage[id - 1])
    }

    /** The place of an id is its cell in that context and in no other, or null once the id is freed; id 0 is the storage itself. */
    lemma FetchIs(p: int, id: int, q: int, other: int)
      requires Valid() && p in contexts && 0 <= id <= |contexts[p].storage| && q in contexts && 0 <= other <= |contexts[q].storage|
      ensures id == 0 ==> Fetch(p, id) == Whole(p)
      ensures id > 0 ==> Fetch(p, id).Cell? && (Fetch(p, id).cell == 0 || HasCell(contexts, p, id - 1, Fetch(p, id).cell))
      ensures id > 0 && other > 0 && Fetch(p, id) == Fetch(q, other) && Fetch(p, id).cell != 0 ==> p == q && id == other
    {
      hide IdsOk, ChainsOk, OneEach, AllComplete, Tables;
      Parts();
      if id > 0 && other > 0 && Fetch(p, id) == Fetch(q, other) && Fetch(p, id).cell != 0 {
        assert HasCell(contexts, p, id - 1, Fetch(p, id).cell) && HasCell(contexts, q, other - 1, Fetch(p, id).cell);
      }
    }

    /** The place is the one of the id in a context of the thread. */
    ghost predicate Answers(p: int, threadId: int, id: int, place: Place)
      reads this`contexts, this`chains, this`table
    {
      Reachable(p, threadId) && 0 <= id <= |contexts[p].storage| && place == Fetch(p, id)
    }

    lemma AnswersIs(p: int, threadId: int, id: int, place: Place)
      requires p in contexts && Reachable(p, threadId) && 0 <= id <= |contexts[p].storage| && place == Fetch(p, id)
      ensures Answers(p, threadId, id, place)
    {}

    /** Walks a chain for the context of a thread; last is the end of the chain when there is none. */
    method FindContext(head: int, threadId: int, ghost h: int) returns (p: int, last: int)
      requires Valid() && threadId >= 0 && 0 <= h < |table| && h == Hash(threadId, |table|) && head == table[h] && head != 0
      ensures p != 0 ==> Reachable(p, threadId)
      ensures p != 0 && head in contexts && contexts[head].threadId == threadId ==> p == head
      ensures p == 0 ==> 0 <= h < |chains| && chains[h] != [] && last == chains[h][|chains[h]| - 1] && NoneWith(contexts, chains[h], threadId)
    {
      hide *;
      Parts();
      BucketChain(contexts, table, chains, h);
      ChainHead(contexts, table[h], chains[h]);
      p, last := head, head;
      ghost var m: nat := 0;
      NoneYet(contexts, chains[h], threadId);
      while true
        invariant m < |chains[h]| && p == chains[h][m] && last == p && NoneWith(contexts, chains[h][..m], threadId)
        decreases |chains[h]| - m
      {
        ChainAt(contexts, table[h], chains[h], m);
        if contexts[p].threadId == threadId {
          ReachedIt(p, threadId, h, m);
          return;
        }
        NotThis(contexts, chains[h], m, threadId);
        if contexts[p].next != 0 {
          p := contexts[p].next;
          last := p;
          m := m + 1;
        } else {
          if m + 1 < |chains[h]| { ChainAt(contexts, table[h], chains[h], m + 1); }
          WholeChain(chains[h], m);
          p := 0;
          return;
        }
      }
    }

    lemma ReachedIt(p: int, threadId: int, h: int, m: nat)
      requires |table| > 0 && threadId >= 0 && h == Hash(threadId, |table|) && Linked(chains, h, p) && p in contexts && contexts[p].threadId == threadId
      requires ChainsOk(contexts, table, chains) && OneEach(contexts, chains) && 0 <= h < |table| && table[h] != 0
      ensures Reachable(p, threadId)
      ensures table[h] in contexts && contexts[table[h]].threadId == threadId ==> p == table[h]
    {
      hide ChainOk, Hash;
      BucketChain(contexts, table, chains, h);
      ChainHead(contexts, table[h], chains[h]);
      assert Linked(chains, h, chains[h][0]);
    }

    ghost predicate HasContext(threadId: int)
      reads this`contexts, this`chains, this`table
    {
      exists p :: Reachable(p, threadId)
    }

    lemma NotThere(threadId: int, h: int)
      requires ChainsOk(contexts, table, chains) && threadId >= 0 && h == Hash(threadId, |table|) && 0 <= h < |chains| && NoneWith(contexts, chains[h], threadId)
      ensures !HasContext(threadId)
    {
      hide ChainOk, Hash, ChainsOk;
      assert ChainsOk(contexts, table, chains);
      forall p
        ensures !Reachable(p, threadId)
      {}
    }

    lemma EmptyBucket(threadId: int, h: int)
      requires ChainsOk(contexts, table, chains) && 0 <= h < |table| && table[h] == 0
      ensures 0 <= h < |chains| && chains[h] == [] && NoneWith(contexts, chains[h], threadId)
    {
      hide ChainOk, Hash;
      BucketChain(contexts, table, chains, h);
      ChainHead(contexts, table[h], chains[h]);
    }

    /** A context for a thread that has none, at the head of an empty bucket or at the end of its chain. */
    method AddContext(threadId: int, h: int, last: int) returns (ghost made: int)
      requires Valid() && threadId >= 0 && 0 <= h < |table| && h == Hash(threadId, |table|)
      requires |chains| == |table| && NoneWith(contexts, chains[h], threadId)
      requires table[h] != 0 ==> chains[h] != [] && last == chains[h][|chains[h]| - 1]
      modifies this`contexts, this`brk, this`constructed, this`tls, this`table, this`chains
      ensures Valid() && HasContext(threadId) && |table| == |old(table)| && CellsKept(old(contexts), contexts)
      ensures MadeFor(made, threadId, old(contexts), old(chains)) && tls == made
      ensures made in contexts && idCount <= |contexts[made].storage| && idCount <= |types|
      ensures constructed == old(constructed) + Built(contexts[made].storage, types, idCount)
    {
      hide *;
      Parts();
      BucketChain(contexts, table, chains, h);
      if table[h] == 0 {
        EmptyBucket(threadId, h);
      }
      var p := AllocateNewResource(threadId);
      made := p;
      KeysMore(old(contexts), contexts, p);
      if table[h] == 0 {
        EntryReplaced(old(contexts), contexts, table, chains, h, p);
        ReplacedComplete(old(contexts), contexts, table, chains, types, idCount, h, p);
        table := table[h := p];
        assert chains[h] + [p] == [p];
        chains := chains[h := [p]];
      } else {
        ghost var mid := contexts;
        LastThere(old(contexts), table, chains, h, last);
        Relinked(contexts, brk, last, p);
        EntryAppended(old(contexts), mid, contexts[last := contexts[last].(next := p)], table, chains, h, last, p);
        AppendedComplete(old(contexts), mid, contexts[last := contexts[last].(next := p)], table, chains, types, idCount, h, last, p);
        KeptTrans(old(contexts), mid, contexts[last := contexts[last].(next := p)]);
        KeysRelinked(old(contexts), contexts, last, p);
        contexts := contexts[last := contexts[last].(next := p)];
        chains := chains[h := chains[h] + [p]];
      }
      Assemble();
      NowThere(p, threadId, h);
      JoinedIs(old(chains), chains, h, p);
      MadeIs(p, threadId, old(contexts), old(chains));
    }

    lemma HasReached(p: int, threadId: int)
      requires Reachable(p, threadId)
      ensures HasContext(threadId)
    {}

    /** p is the one new context, and it stands in the chain of its thread. */
    ghost predicate MadeFor(p: int, threadId: int, contexts0: Contexts, chains0: seq<seq<int>>)
      reads this`contexts, this`chains, this`table
    {
      p !in contexts0 && contexts.Keys == contexts0.Keys + {p} && Reachable(p, threadId) && Joined(chains0, chains, p)
    }

    lemma MadeIs(p: int, threadId: int, contexts0: Contexts, chains0: seq<seq<int>>)
      requires p !in contexts0 && contexts.Keys == contexts0.Keys + {p} && Reachable(p, threadId) && Joined(chains0, chains, p)
      ensures MadeFor(p, threadId, contexts0, chains0)
    {}

    lemma MadeReached(p: int, q: int, threadId: int, contexts0: Contexts, chains0: seq<seq<int>>)
      requires Valid() && MadeFor(p, threadId, contexts0, chains0) && Reachable(q, threadId)
      ensures p == q
    {
      hide ChainsOk, IdsOk, CellsOwned, AllComplete, Hash, Tables;
      Parts();
    }

    lemma NowThere(p: int, threadId: int, h: int)
      requires 0 <= h < |chains| == |table| && threadId >= 0 && h == Hash(threadId, |table|) && p in contexts && contexts[p].threadId == threadId
      requires |chains[h]| > 0 && p == chains[h][|chains[h]| - 1]
      ensures HasContext(threadId) && Reachable(p, threadId)
    {
      assert p in chains[h];
      assert Linked(chains, h, p);
      assert Reachable(p, threadId);
    }

    /** The resource of an id for a thread: found by hash, or given a new context and found then. */
    method Lookup(id: int, threadId: int) returns (place: Place, ghost p: int)
      requires Valid() && 0 <= id <= idCount && threadId >= 0
      modifies this`contexts, this`brk, this`constructed, this`tls, this`table, this`chains
      ensures Valid() && Reachable(p, threadId) && id <= |contexts[p].storage| && place == Fetch(p, id)
      ensures CellsKept(old(contexts), contexts) && |table| == |old(table)|
      ensures old(HasContext(threadId)) ==> contexts == old(contexts) && table == old(table) && chains == old(chains) && tls == old(tls) && constructed == old(constructed)
      ensures !old(HasContext(threadId)) ==>
                MadeFor(p, threadId, old(contexts), old(chains)) && tls == p && idCount <= |contexts[p].storage| && idCount <= |types|
                && constructed == old(constructed) + Built(contexts[p].storage, types, idCount)
      ensures |old(table)| > 0 && (HeadIs(old(contexts), old(table), threadId) ==> p == old(table)[Hash(threadId, |old(table)|)])
      decreases if HasContext(threadId) then 0 else 1
    {
      hide *;
      Parts();
      TableParts();
      KeptRefl(contexts);
      var h := Hash(threadId, |table|);
      HeadFacts(contexts, table, threadId);
      HeadReached(threadId);
      if table[h] == 0 {
        EmptyBucket(threadId, h);
        NotThere(threadId, h);
        ghost var made := AddContext(threadId, h, 0);
        ghost var mid := contexts;
        place, p := Lookup(id, threadId);
        MadeReached(made, p, threadId, old(contexts), old(chains));
        KeptTrans(old(contexts), mid, contexts);
      } else {
        var q, last := FindContext(table[h], threadId, h);
        if q == 0 {
          NotThere(threadId, h);
          ghost var made := AddContext(threadId, h, last);
          ghost var mid := contexts;
          place, p := Lookup(id, threadId);
          MadeReached(made, p, threadId, old(contexts), old(chains));
          KeptTrans(old(contexts), mid, contexts);
        } else {
          p := q;
          HasReached(q, threadId);
          StorageFull(q, threadId);
          place := Fetch(q, id);
        }
      }
    }

    lemma StorageFull(q: int, threadId: int)
      requires Valid() && Reachable(q, threadId)
      ensures q in contexts && |contexts[q].storage| == idCount
    {
      hide ChainsOk, IdsOk, CellsOwned, OneEach, Hash;
      assert InSome(chains, q);
    }

    lemma HeadReached(threadId: int)
      requires ChainsOk(contexts, table, chains) && |table| > 0 && threadId >= 0
      ensures HeadIs(contexts, table, threadId) ==> HasContext(threadId)
    {
      hide ChainOk, Hash, ChainsOk;
      if HeadIs(contexts, table, threadId) {
        var h := Hash(threadId, |table|);
        HashRange(threadId, |table|);
        BucketChain(contexts, table, chains, h);
        ChainHead(contexts, table[h], chains[h]);
        assert Linked(chains, h, chains[h][0]);
        assert Reachable(table[h], threadId);
      }
    }

    /** ts_resource_ex: the current context's resource if no thread is named, else by hash. thId is -1 for none. */
    method Resource(id: int, thId: int, osThread: int) returns (place: Place)
      requires Valid() && 0 <= id <= idCount && thId >= -1 && osThread >= 0
      requires thId == -1 && tls != 0 ==> InSome(chains, tls)
      modifies this`contexts, this`brk, this`constructed, this`tls, this`table, this`chains
      ensures Valid() && CellsKept(old(contexts), contexts)
      ensures old(thId == -1 && tls != 0) ==> old(tls in contexts && id <= |contexts[tls].storage|)
      ensures old(thId == -1 && tls != 0) ==> contexts == old(contexts) && table == old(table) && tls == old(tls) && place == old(Fetch(tls, id))
      ensures !old(thId == -1 && tls != 0) ==>
                exists p :: Answers(p, if thId == -1 then ThreadId(osThread) else thId, id, place)
                  && (if old(HasContext(if thId == -1 then ThreadId(osThread) else thId)) then
                        contexts == old(contexts) && table == old(table) && tls == old(tls) && constructed == old(constructed)
                      else
                        MadeFor(p, if thId == -1 then ThreadId(osThread) else thId, old(contexts), old(chains)) && tls == p
                        && p in contexts && idCount <= |contexts[p].storage| && idCount <= |types|
                        && constructed == old(constructed) + Built(contexts[p].storage, types, idCount))
    {
      hide *;
      KeptRefl(contexts);
      ForceRange(osThread);
      CurrentFull();
      var threadId := thId;
      if thId == -1 {
        if tls != 0 {
          return Fetch(tls, id);
        }
        threadId := ThreadId(osThread);
      }
      ghost var p;
      place, p := Lookup(id, threadId);
      ReachedNow(p, threadId);
      AnswersIs(p, threadId, id, place);
    }

    /** A linked current context has a cell for every id. */
    lemma CurrentFull()
      requires Valid()
      ensures InSome(chains, tls) ==> tls in contexts && |contexts[tls].storage| == idCount
    {
      hide IdsOk, CellsOwned, OneEach, Hash, ChainOk;
      if InSome(chains, tls) {
        var k :| Linked(chains, k, tls);
        assert tls in contexts;
      }
    }

    lemma ForceRange(osThread: int)
      requires Valid() && osThread >= 0
      ensures ThreadId(osThread) >= 0
    {
      hide IdsOk, ChainsOk, OneEach, AllComplete, CellsOwned;
    }

    lemma ReachedNow(p: int, threadId: int)
      requires Reachable(p, threadId)
      ensures p in contexts
    {}

    /** After a coroutine's context is created, its resources are found in that context. */
    method CreateThenFetch(idx: int, id: int, osThread: int) returns (place: Place)
      requires Valid() && 0 <= idx < |table| && 0 <= id <= idCount
      modifies this`contexts, this`brk, this`constructed, this`tls, this`force, this`table, this`chains
      ensures Valid() && 0 <= idx < |table| && table[idx] in contexts && id <= |contexts[table[idx]].storage|
      ensures place == Fetch(table[idx], id) && tls == old(tls)
    {
      hide *;
      CreateEntry(idx, osThread);
      HeadNow(idx);
      ghost var p;
      place, p := Lookup(id, idx);
    }

    lemma HeadNow(idx: int)
      requires Valid() && 0 <= idx < |table| && table[idx] != 0 && table[idx] in contexts && contexts[table[idx]].threadId == idx
      ensures HeadIs(contexts, table, idx) && Hash(idx, |table|) == idx && HasContext(idx)
    {
      hide ChainsOk, IdsOk, CellsOwned, OneEach, AllComplete;
      SmallHash(idx, |table|);
      HeadReached(idx);
    }

    /** Frees the cells of an id in every linked context; later contexts get none. */
    method FreeId(id: int)
      requires Valid() && 1 <= id <= idCount
      modifies this`contexts, this`types, this`destroyed
      ensures Valid() && id <= |old(types)| && types == old(types)[id - 1 := old(types)[id - 1].(done := true)]
      ensures SameLinks(old(contexts), contexts) && OthersKept(old(contexts), contexts, chains, id - 1)
      ensures Destroyed(old(contexts), chains, destroyed, |old(destroyed)|, id - 1, old(types)[id - 1].dtor)
      ensures destroyed == old(destroyed) + if old(types)[id - 1].dtor then AllHeld(old(contexts), chains, |chains|, id - 1) else []
    {
      hide *;
      Parts();
      TableParts();
      var j := id - 1;
      ghost var types' := types[j := types[j].(done := true)];
      FreeStart(contexts, chains, types, types', idCount);
      LinksRefl(contexts);
      OthersRefl(contexts, chains, j);
      DestroyStart(contexts, chains, destroyed, j, types[j].dtor);
      ghost var was := |destroyed|;
      HeldNone(destroyed, contexts, chains, [], j);
      var i := 0;
      while i < |table|
        invariant 0 <= i <= |table| && Tables() && CellsOwned(contexts, brk)
        invariant SameLinks(old(contexts), contexts) && OthersKept(old(contexts), contexts, chains, j)
        invariant FreedUpTo(contexts, chains, types, types', idCount, i, 0)
        invariant DestroyedUpTo(old(contexts), chains, destroyed, was, j, types[j].dtor, i, 0)
        invariant |chains| == |table| && destroyed == old(destroyed) + if types[j].dtor then AllHeld(old(contexts), chains, i, j) else []
        invariant RestSame(old(contexts), contexts, chains, i, 0)
        modifies this`contexts, this`destroyed
      {
        ghost var log := destroyed;
        TableParts();
        FreeBucket(j, i, old(contexts), types', was);
        HeldMore(old(destroyed), log, destroyed, old(contexts), chains, i, j, types[j].dtor);
        i := i + 1;
      }
      TableParts();
      FreeAllDone(contexts, table, chains, types, types', idCount);
      DestroyDone(old(contexts), chains, destroyed, was, j, types[j].dtor);
      TlsKept(old(contexts), contexts, tls);
      types := types[j := types[j].(done := true)];
      Assemble();
    }

    method FreeBucket(j: int, i: int, ghost c0: Contexts, ghost types': seq<ResType>, ghost was: nat)
      requires Tables() && CellsOwned(contexts, brk) && 0 <= i < |table| && 0 <= j < idCount <= |types|
      requires types' == types[j := types[j].(done := true)] && FreedUpTo(contexts, chains, types, types', idCount, i, 0)
      requires SameLinks(c0, contexts) && OthersKept(c0, contexts, chains, j) && ChainsOk(c0, table, chains)
      requires DestroyedUpTo(c0, chains, destroyed, was, j, types[j].dtor, i, 0) && RestSame(c0, contexts, chains, i, 0)
      modifies this`contexts, this`destroyed
      ensures Tables() && CellsOwned(contexts, brk) && FreedUpTo(contexts, chains, types, types', idCount, i + 1, 0)
      ensures SameLinks(c0, contexts) && OthersKept(c0, contexts, chains, j)
      ensures i < |chains| && destroyed == old(destroyed) + if types[j].dtor then Held(c0, chains[i], j) else []
      ensures DestroyedUpTo(c0, chains, destroyed, was, j, types[j].dtor, i + 1, 0) && RestSame(c0, contexts, chains, i + 1, 0)
    {
      hide *;
      TableParts();
      BucketChain(contexts, table, chains, i);
      ChainHead(contexts, table[i], chains[i]);
      HeldNone(destroyed, c0, chains, chains[i], j);
      ghost var log0 := destroyed;
      var p := table[i];
      ghost var m: nat := 0;
      while p != 0
        invariant Tables() && CellsOwned(contexts, brk) && SameLinks(c0, contexts) && OthersKept(c0, contexts, chains, j)
        invariant m <= |chains[i]| && p == (if m < |chains[i]| then chains[i][m] else 0) && |chains| == |table|
        invariant m < |chains[i]| ==> chains[i][m] != 0
        invariant FreedUpTo(contexts, chains, types, types', idCount, i, m)
        invariant destroyed == log0 + if types[j].dtor then Held(c0, chains[i][..m], j) else []
        invariant DestroyedUpTo(c0, chains, destroyed, was, j, types[j].dtor, i, m) && RestSame(c0, contexts, chains, i, m)
        decreases |chains[i]| - m
      {
        ghost var before := contexts;
        TableParts();
        BucketChain(contexts, table, chains, i);
        ChainAt(contexts, table[i], chains[i], m);
        HasAll(contexts, chains, types, types', idCount, i, m);
        CellFreed(c0, contexts, chains, brk, p, j);
        FreeStep(contexts, contexts[p := contexts[p].(storage := contexts[p].storage[j := 0])], table, chains, types, types', idCount, i, m, j);
        SameStorage(contexts, p, j);
        LinksBack(c0, table, chains, i, m);
        DestroyStep(c0, contexts, chains, destroyed, was, j, types[j].dtor, i, m);
        HeldNext(log0, destroyed, c0, contexts, chains, i, m, j, types[j].dtor);
        NothingLogged(destroyed);
        RestStep(c0, contexts, table, chains, i, m, contexts[p].(storage := contexts[p].storage[j := 0]));
        if contexts[p].count > j && contexts[p].storage[j] != 0 {
          if types[j].dtor {
            destroyed := destroyed + [contexts[p].storage[j]];
          }
          contexts := contexts[p := contexts[p].(storage := contexts[p].storage[j := 0])];
        }
        ChainsKept(before, contexts, table, chains);
        TablesAre();
        LinksTrans(c0, before, contexts);
        BucketChain(contexts, table, chains, i);
        ChainAt(contexts, table[i], chains[i], m);
        if m + 1 < |chains[i]| { ChainAt(contexts, table[i], chains[i], m + 1); }
        p := contexts[p].next;
        m := m + 1;
      }
      assert chains[i][..m] == chains[i];
      FreeBucketDone(contexts, chains, types, types', idCount, i, m);
      DestroyBucket(c0, contexts, chains, destroyed, was, j, types[j].dtor, i, m);
    }

    lemma SameStorage(contexts: Contexts, p: int, j: int)
      requires p in contexts && 0 <= j < |contexts[p].storage|
      ensures contexts[p].storage[j] == 0 ==> contexts[p := contexts[p].(storage := contexts[p].storage[j := 0])] == contexts
      ensures SameLinks(contexts, contexts)
    {
      var ctx := contexts[p];
      if ctx.storage[j] == 0 {
        assert ctx.storage[j := 0] == ctx.storage;
        assert ctx.(storage := ctx.storage[j := 0]) == ctx;
      }
    }
  }
}
