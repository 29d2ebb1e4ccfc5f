/** Whole runs of the resource manager: startup, contexts for coroutines and ids, in any order. */
module TsrmRuns {
  import opened Tsrm

  datatype Call = Create(idx: int) | Allocate(address: int, size: int, ctor: bool, dtor: bool)

  /** Coroutines lie below the table size; addresses are not null. */
  predicate Legal(call: Call, threads: nat) {
    match call
    case Create(idx) => 0 <= idx < threads
    case Allocate(address, _, _, _) => address >= 0
  }

  predicate AllLegal(calls: seq<Call>, threads: nat) {
    forall k :: 0 <= k < |calls| ==> Legal(calls[k], threads)
  }

  /** The distinct addresses among the first k calls, in the order of their first appearance. */
  function Firsts(calls: seq<Call>, k: nat): seq<int>
    requires k <= |calls|
  {
    if k == 0 then []
    else
      var before := Firsts(calls, k - 1);
      if calls[k - 1].Allocate? && calls[k - 1].address !in before then before + [calls[k - 1].address] else before
  }

  /** The answer to an allocation is the rank of its address. */
  predicate Ranked(call: Call, id: int, order: seq<int>) {
    call.Allocate? ==> 1 <= id <= |order| && order[id - 1] == call.address
  }

  ghost predicate AllRanked(calls: seq<Call>, answers: seq<int>, order: seq<int>) {
    |answers| <= |calls| && forall k :: 0 <= k < |answers| ==> Ranked(calls[k], answers[k], order)
  }

  /** The manager between two calls. */
  datatype Moment = Moment(contexts: Contexts, table: seq<int>, types: seq<ResType>, order: seq<int>, tls: int, forced: int,
                           log: seq<int>)

  /** No cell that ever was in a context has been replaced. */
  ghost predicate NeverReplaced(history: seq<Moment>, contexts: Contexts) {
    forall k :: 0 <= k < |history| ==> CellsKept(history[k].contexts, contexts)
  }

  lemma HistoryGrows(history: seq<Moment>, before: Contexts, now: Moment)
    requires NeverReplaced(history, before) && CellsKept(before, now.contexts)
    ensures NeverReplaced(history + [now], now.contexts)
  {
    hide CellsKept;
    KeptRefl(now.contexts);
    forall k | 0 <= k < |history + [now]| ensures CellsKept((history + [now])[k].contexts, now.contexts) {
      if k < |history| {
        KeptTrans(history[k].contexts, before, now.contexts);
      }
    }
  }

  /** The coroutine in force has a context of its own. */
  ghost predicate OwnContext(m: Moment) {
    && 0 <= m.forced < |m.table| && m.table[m.forced] != 0
    && m.table[m.forced] in m.contexts && m.contexts[m.table[m.forced]].threadId == m.forced
  }

  /** Every context in the table has a cell for every id. */
  ghost predicate CellForEach(m: Moment) {
    forall k :: 0 <= k < |m.table| && m.table[k] != 0 ==>
      m.table[k] in m.contexts && |m.contexts[m.table[k]].storage| == |m.order| <= |m.types|
  }

  /** Creation adds one fresh context for its coroutine, and constructs the cells of all ids that have a constructor there. */
  ghost predicate CreateOk(idx: int, before: Moment, now: Moment)
    requires OwnContext(now) && CellForEach(now)
  {
    var c := now.table[now.forced];
    && now.forced == idx && idx < |before.table| && now.table == before.table[idx := c]
    && c !in before.contexts && now.contexts == before.contexts[c := now.contexts[c]]
    && now.order == before.order && now.types == before.types
    && now.log == before.log + Built(now.contexts[c].storage, now.types, |now.order|)
  }

  /** Allocation keeps the contexts there are; a new address is the next id; a constructor, if the type has one, ran once, in the forced context. */
  ghost predicate AllocateOk(call: Call, id: int, before: Moment, now: Moment)
    requires call.Allocate? && OwnContext(now)
  {
    var c := now.table[now.forced];
    && now.forced == before.forced && now.table == before.table && SameLinks(before.contexts, now.contexts)
    && 1 <= id <= |now.order| && id <= |now.types| && now.order[id - 1] == call.address
    && (if call.address in before.order then
          now.order == before.order && now.contexts == before.contexts && now.types == before.types
        else
          now.order == before.order + [call.address]
          && TypesGrown(before.types, now.types, |before.order|, ResType(call.size, call.ctor, call.dtor, false)))
    && now.log == before.log + if now.types[id - 1].ctor then [CellAt(now.contexts, c, id - 1)] else []
  }

  /** One call: no cell is replaced, constructors run in the forced context only, and the current context stays. */
  ghost predicate CallOk(call: Call, id: int, before: Moment, now: Moment) {
    && now.tls == before.tls && CellsKept(before.contexts, now.contexts)
    && Grown(before.log, now.log) && OwnContext(now) && CellForEach(now)
    && ConstructedIn(now.log, |before.log|, now.contexts, now.table[now.forced])
    && match call
       case Create(idx) => CreateOk(idx, before, now)
       case Allocate(_, _, _, _) => AllocateOk(call, id, before, now)
  }

  /** The manager after startup and the first creation: one context, no id, nothing constructed. */
  ghost predicate FirstOk(m: Moment, threads: nat, first: int) {
    && m.tls == 0 && m.forced == first && OwnContext(m) && |m.table| == threads && m.order == [] && m.log == []
    && (forall k :: 0 <= k < |m.table| && k != first ==> m.table[k] == 0)
    && m.contexts.Keys == {m.table[first]} && m.contexts[m.table[first]].storage == []
  }

  ghost predicate HistoryOk(calls: seq<Call>, answers: seq<int>, history: seq<Moment>) {
    && 1 <= |history| == |answers| + 1 <= |calls| + 1
    && forall k :: 0 <= k < |answers| ==> CallOk(calls[k], answers[k], history[k], history[k + 1])
  }

  lemma HistoryLater(calls: seq<Call>, answers: seq<int>, history: seq<Moment>, id: int, now: Moment)
    requires HistoryOk(calls, answers, history) && |answers| < |calls|
    requires CallOk(calls[|answers|], id, history[|answers|], now)
    ensures HistoryOk(calls, answers + [id], history + [now])
  {
    hide CallOk;
    var more, ids := history + [now], answers + [id];
    forall k | 0 <= k < |ids|
      ensures CallOk(calls[k], ids[k], more[k], more[k + 1])
    {
      if k < |answers| {
        assert more[k] == history[k] && more[k + 1] == history[k + 1] && ids[k] == answers[k];
      }
    }
  }

  /** Every bucket holds one context at most, and it is that of the coroutine the bucket is numbered for. */
  ghost predicate OwnBuckets(contexts: Contexts, table: seq<int>, chains: seq<seq<int>>) {
    |chains| == |table| && forall k :: 0 <= k < |table| ==> OwnBucket(contexts, table, chains, k)
  }

  ghost predicate OwnBucket(contexts: Contexts, table: seq<int>, chains: seq<seq<int>>, k: int)
    requires 0 <= k < |table| == |chains|
  {
    if table[k] == 0 then chains[k] == []
    else chains[k] == [table[k]] && table[k] in contexts && contexts[table[k]].threadId == k
  }

  lemma OwnAtFirst(contexts: Contexts, table: seq<int>, chains: seq<seq<int>>)
    requires |chains| == |table| && forall k :: 0 <= k < |table| ==> table[k] == 0 && chains[k] == []
    ensures OwnBuckets(contexts, table, chains)
  {}

  lemma OwnCreated(contexts: Contexts, table: seq<int>, chains: seq<seq<int>>, contexts': Contexts, idx: int, p: int)
    requires OwnBuckets(contexts, table, chains) && 0 <= idx < |table| && p != 0 && p !in contexts && p in contexts'
    requires contexts' == contexts[p := contexts'[p]] && contexts'[p].threadId == idx
    ensures OwnBuckets(contexts', table[idx := p], chains[idx := [p]])
  {
    var table', chains' := table[idx := p], chains[idx := [p]];
    forall k | 0 <= k < |table'| ensures OwnBucket(contexts', table', chains', k) {
      assert OwnBucket(contexts, table, chains, k);
    }
  }

  lemma OwnKept(contexts: Contexts, contexts': Contexts, table: seq<int>, chains: seq<seq<int>>)
    requires OwnBuckets(contexts, table, chains) && SameLinks(contexts, contexts')
    ensures OwnBuckets(contexts', table, chains)
  {
    forall k | 0 <= k < |table| ensures OwnBucket(contexts', table, chains, k) {
      assert OwnBucket(contexts, table, chains, k);
    }
  }

  lemma OwnHere(contexts: Contexts, table: seq<int>, chains: seq<seq<int>>, k: int)
    requires OwnBuckets(contexts, table, chains) && 0 <= k < |table| && table[k] != 0
    ensures table[k] in contexts && contexts[table[k]].threadId == k
  {
    assert OwnBucket(contexts, table, chains, k);
  }

  /** With buckets of their own, what is constructed for the forced bucket is constructed in its one context. */
  lemma OwnForced(log: seq<int>, from: nat, contexts: Contexts, table: seq<int>, chains: seq<seq<int>>, k: int, i: int)
    requires OwnBuckets(contexts, table, chains) && 0 <= k < |table| && table[k] != 0
    requires OnlyForced(log, from, contexts, chains, k, i)
    ensures ConstructedIn(log, from, contexts, table[k])
  {
    hide HasCell;
    assert OwnBucket(contexts, table, chains, k);
    forall n | from <= n < |log| ensures InContext(contexts, table[k], log[n]) {
      assert ForcedCell(contexts, chains, k, i, log[n]);
      var c :| Linked(chains, k, c) && HasCell(contexts, c, i, log[n]);
      assert c == table[k];
    }
  }

  lemma OwnCells(contexts: Contexts, table: seq<int>, chains: seq<seq<int>>, k: int, j: nat)
    requires OwnBuckets(contexts, table, chains) && 0 <= k < |table| && table[k] != 0
    ensures BucketCells(contexts, chains, k, |chains|, j) == [CellAt(contexts, table[k], j)]
  {
    hide CellAt;
    assert OwnBucket(contexts, table, chains, k);
    BucketCellsForced(contexts, chains, k, |chains|, j);
    assert [table[k]][..0] == [];
  }

  lemma TypeOf(types: seq<ResType>, types': seq<ResType>, order: seq<int>, address: int, id: int, t: ResType)
    requires 1 <= id <= |types'|
    requires address !in order ==> id == |order| + 1 && TypesGrown(types, types', |order|, t)
    ensures address !in order ==> types'[id - 1] == t
  {}

  /** The coroutines that have a context. */
  ghost predicate Created(first: int, calls: seq<Call>, n: nat, k: int)
    requires n <= |calls|
  {
    k == first || exists i :: 0 <= i < n && calls[i] == Create(k)
  }

  ghost predicate TableIs(table: seq<int>, first: int, calls: seq<Call>, n: nat)
    requires n <= |calls|
  {
    forall k :: 0 <= k < |table| ==> (table[k] != 0 <==> Created(first, calls, n, k))
  }

  lemma TableGrows(table: seq<int>, table': seq<int>, first: int, calls: seq<Call>, n: nat)
    requires n < |calls| && TableIs(table, first, calls, n)
    requires if calls[n].Create? then 0 <= calls[n].idx < |table| == |table'| && table' == table[calls[n].idx := table'[calls[n].idx]]
                                      && table'[calls[n].idx] != 0
             else table' == table
    ensures TableIs(table', first, calls, n + 1)
  {
    forall k | 0 <= k < |table'| ensures table'[k] != 0 <==> Created(first, calls, n + 1, k) {
      assert Created(first, calls, n, k) ==> Created(first, calls, n + 1, k);
      if calls[n].Create? && calls[n].idx == k {
        assert calls[n] == Create(k);
      }
    }
  }

  lemma TableFirst(table: seq<int>, table': seq<int>, first: int, calls: seq<Call>)
    requires 0 <= first < |table| == |table'| && (forall k :: 0 <= k < |table| ==> table[k] == 0)
    requires table' == table[first := table'[first]] && table'[first] != 0
    ensures TableIs(table', first, calls, 0)
  {}

  lemma RankedGrows(calls: seq<Call>, answers: seq<int>, order: seq<int>, order': seq<int>, id: int)
    requires AllRanked(calls, answers, order) && order <= order' && |answers| < |calls|
    requires Ranked(calls[|answers|], id, order')
    ensures AllRanked(calls, answers + [id], order')
  {
    forall k | 0 <= k < |answers + [id]| ensures Ranked(calls[k], (answers + [id])[k], order') {
      if k < |answers| {
        assert Ranked(calls[k], answers[k], order);
      }
    }
  }

  /** The coroutine in force has a context. */
  ghost predicate InForce(m: Manager, threads: nat)
    reads m`force, m`table
  {
    |m.table| == threads && 0 <= m.force < threads && m.table[m.force] != 0
  }

  lemma NotFreedYet(m: Manager, address: int)
    requires m.Valid() && NoneDone(m.types, m.idCount) && address in m.order
    ensures !m.Freed(address)
  {
    hide NoneDone;
    m.Parts();
    IdsParts(m.idMap, m.ids, m.order, m.idCount);
    KnownId(m.order, m.ids, m.idCount, address);
    DoneAt(m.types, m.idCount, m.ids[address] - 1);
  }

  lemma DoneAt(types: seq<ResType>, idCount: nat, i: int)
    requires NoneDone(types, idCount) && 0 <= i < idCount <= |types|
    ensures !types[i].done
  {}

  lemma OrderIs(m: Manager, address: int)
    requires m.Valid() && address in m.order && address in m.ids
    ensures |m.order| == m.idCount && 1 <= m.ids[address] <= m.idCount && m.order[m.ids[address] - 1] == address
  {
    m.Parts();
    IdsParts(m.idMap, m.ids, m.order, m.idCount);
    KnownId(m.order, m.ids, m.idCount, address);
  }

  lemma NoneAtFirst(types: seq<ResType>)
    ensures NoneDone(types, 0)
  {}

  lemma OrderEmpty(m: Manager)
    requires m.Valid() && m.idCount == 0
    ensures m.order == []
  {
    m.Parts();
    IdsParts(m.idMap, m.ids, m.order, m.idCount);
  }

  lemma CountIs(m: Manager)
    requires m.Valid()
    ensures m.idCount == |m.order|
  {
    m.Parts();
    IdsParts(m.idMap, m.ids, m.order, m.idCount);
  }

  lemma Started(calls: seq<Call>, now: Moment, order: seq<int>)
    requires order == []
    ensures order == Firsts(calls, 0) && AllRanked(calls, [], order) && NeverReplaced([now], now.contexts)
    ensures HistoryOk(calls, [], [now])
  {
    KeptRefl(now.contexts);
  }

  ghost function Now(m: Manager): Moment
    reads m
  {
    Moment(m.contexts, m.table, m.types, m.order, m.tls, m.force, m.constructed)
  }

  lemma NowIs(m: Manager)
    ensures Now(m) == Moment(m.contexts, m.table, m.types, m.order, m.tls, m.force, m.constructed)
  {}

  lemma OwnContextIs(m: Moment)
    requires 0 <= m.forced < |m.table| && m.table[m.forced] != 0
    requires m.table[m.forced] in m.contexts && m.contexts[m.table[m.forced]].threadId == m.forced
    ensures OwnContext(m)
  {}

  /** In a valid manager the contexts in the table have their cells. */
  lemma CellsForEach(m: Manager)
    requires m.Valid() && OwnBuckets(m.contexts, m.table, m.chains)
    ensures CellForEach(Now(m))
  {
    hide *;
    m.Parts();
    CountIs(m);
    NowIs(m);
    EachComplete(m.contexts, m.table, m.chains, m.types, m.idCount);
    CellForEachIs(Now(m), m.idCount);
  }

  lemma EachComplete(contexts: Contexts, table: seq<int>, chains: seq<seq<int>>, types: seq<ResType>, idCount: nat)
    requires OwnBuckets(contexts, table, chains) && AllComplete(contexts, chains, types, idCount)
    ensures forall k :: 0 <= k < |table| && table[k] != 0 ==>
              table[k] in contexts && |contexts[table[k]].storage| == idCount <= |types|
  {
    forall k | 0 <= k < |table| && table[k] != 0
      ensures table[k] in contexts && |contexts[table[k]].storage| == idCount <= |types|
    {
      assert OwnBucket(contexts, table, chains, k);
      assert chains[k][0] == table[k];
      assert Linked(chains, k, table[k]) && InSome(chains, table[k]);
      assert Complete(contexts[table[k]], types, idCount);
    }
  }

  lemma CellForEachIs(m: Moment, n: nat)
    requires n == |m.order|
    requires forall k :: 0 <= k < |m.table| && m.table[k] != 0 ==>
               m.table[k] in m.contexts && |m.contexts[m.table[k]].storage| == n <= |m.types|
    ensures CellForEach(m)
  {}

  lemma FirstIs(m: Moment, threads: nat, first: int, table0: seq<int>)
    requires m.tls == 0 && m.forced == first && OwnContext(m) && m.order == [] && m.log == [] && CellForEach(m)
    requires 0 <= first < |table0| == threads && (forall k :: 0 <= k < |table0| ==> table0[k] == 0)
    requires m.table == table0[first := m.table[first]] && m.contexts.Keys == {m.table[first]}
    ensures FirstOk(m, threads, first)
  {}

  lemma OnlyKey(contexts: Contexts, contexts0: Contexts, p: int)
    requires contexts0 == map[] && p in contexts && contexts == contexts0[p := contexts[p]]
    ensures contexts.Keys == {p}
  {}

  lemma CreateCallIs(call: Call, id: int, before: Moment, now: Moment, idx: int)
    requires call == Create(idx) && now.tls == before.tls && CellsKept(before.contexts, now.contexts) && Grown(before.log, now.log)
    requires OwnContext(now) && CellForEach(now) && now.forced == idx < |before.table|
    requires var c := now.table[idx];
             && now.table == before.table[idx := c] && c !in before.contexts && now.contexts == before.contexts[c := now.contexts[c]]
             && ConstructedIn(now.log, |before.log|, now.contexts, c)
             && |now.contexts[c].storage| == |now.order| <= |now.types|
             && now.log == before.log + Built(now.contexts[c].storage, now.types, |now.order|)
    requires now.order == before.order && now.types == before.types
    ensures CallOk(call, id, before, now)
  {
    hide CellsKept, Grown, ConstructedIn, Built, CellForEach;
  }

  lemma AllocateCallIs(call: Call, id: int, before: Moment, now: Moment)
    requires call.Allocate? && now.tls == before.tls && CellsKept(before.contexts, now.contexts) && Grown(before.log, now.log)
    requires OwnContext(now) && CellForEach(now) && AllocateOk(call, id, before, now)
    requires ConstructedIn(now.log, |before.log|, now.contexts, now.table[now.forced])
    ensures CallOk(call, id, before, now)
  {
    hide CellsKept, Grown, ConstructedIn, AllocateOk, CellForEach;
  }

  lemma InForceNow(m: Manager, threads: nat)
    requires |m.table| == threads && 0 <= m.force < threads && m.table[m.force] != 0
    ensures InForce(m, threads)
  {}

  lemma InForceIs(m: Manager, threads: nat)
    requires InForce(m, threads)
    ensures |m.table| == threads && 0 <= m.force < threads && m.table[m.force] != 0
  {}

  lemma LegalAt(calls: seq<Call>, threads: nat, i: nat)
    requires AllLegal(calls, threads) && i < |calls|
    ensures calls[i].Create? ==> 0 <= calls[i].idx < threads
    ensures calls[i].Allocate? ==> calls[i].address >= 0
  {}

  lemma FirstsNext(calls: seq<Call>, i: nat)
    requires i < |calls|
    ensures var before := Firsts(calls, i);
            Firsts(calls, i + 1) == if calls[i].Allocate? && calls[i].address !in before then before + [calls[i].address] else before
  {}

  lemma NoAnswer(call: Call, id: int, order: seq<int>)
    requires call.Create?
    ensures Ranked(call, id, order)
  {}

  lemma RankedIs(call: Call, id: int, order: seq<int>)
    requires call.Allocate? && 1 <= id <= |order| && order[id - 1] == call.address
    ensures Ranked(call, id, order)
  {}

  /** What holds of the manager between two calls of a run. */
  ghost predicate Running(m: Manager, threads: nat, first: int, calls: seq<Call>, n: nat)
    reads m
    requires n <= |calls|
  {
    && m.Valid() && InForce(m, threads) && NoneDone(m.types, m.idCount) && m.tls == 0
    && m.order == Firsts(calls, n) && OwnBuckets(m.contexts, m.table, m.chains) && TableIs(m.table, first, calls, n)
  }

  lemma RunningParts(m: Manager, threads: nat, first: int, calls: seq<Call>, n: nat)
    requires n <= |calls| && Running(m, threads, first, calls, n)
    ensures m.Valid() && InForce(m, threads) && NoneDone(m.types, m.idCount) && m.tls == 0
    ensures m.order == Firsts(calls, n) && OwnBuckets(m.contexts, m.table, m.chains) && TableIs(m.table, first, calls, n)
  {
    hide InForce, NoneDone, OwnBuckets, TableIs;
  }

  lemma RunningIs(m: Manager, threads: nat, first: int, calls: seq<Call>, n: nat)
    requires n <= |calls| && m.Valid() && InForce(m, threads) && NoneDone(m.types, m.idCount) && m.tls == 0
    requires m.order == Firsts(calls, n) && OwnBuckets(m.contexts, m.table, m.chains) && TableIs(m.table, first, calls, n)
    ensures Running(m, threads, first, calls, n)
  {
    hide InForce, NoneDone, OwnBuckets, TableIs;
  }

  /** Startup and the first coroutine's context. */
  method Start(threads: nat, resources: nat, first: int, calls: seq<Call>, osThread: int) returns (m: Manager)
    requires 0 <= first < threads
    ensures fresh(m) && Running(m, threads, first, calls, 0) && m.force == first && m.order == []
    ensures FirstOk(Now(m), threads, first)
  {
    hide *;
    m := new Manager(threads, resources);
    OrderEmpty(m);
    NoneAtFirst(m.types);
    OwnAtFirst(m.contexts, m.table, m.chains);
    ghost var contexts0, table0, chains0 := m.contexts, m.table, m.chains;
    m.CreateEntry(first, osThread);
    OwnCreated(contexts0, table0, chains0, m.contexts, first, m.table[first]);
    InForceNow(m, threads);
    TableFirst(table0, m.table, first, calls);
    FirstsNone(calls);
    NowIs(m);
    OwnContextIs(Now(m));
    CellsForEach(m);
    OnlyKey(m.contexts, contexts0, m.table[first]);
    BuiltZero(m.contexts[m.table[first]].storage, m.types);
    FirstIs(Now(m), threads, first, table0);
    RunningIs(m, threads, first, calls, 0);
  }

  lemma BuiltZero(storage: seq<int>, types: seq<ResType>)
    ensures Built(storage, types, 0) == []
  {}

  lemma FirstsNone(calls: seq<Call>)
    ensures Firsts(calls, 0) == []
  {}

  /** The n-th call of a run. */
  method MakeCall(m: Manager, threads: nat, ghost first: int, calls: seq<Call>, n: nat, osThread: int) returns (id: int)
    requires n < |calls| && Running(m, threads, first, calls, n) && AllLegal(calls, threads)
    modifies m
    ensures Running(m, threads, first, calls, n + 1) && Ranked(calls[n], id, m.order) && old(m.order) <= m.order
    ensures CallOk(calls[n], id, old(Now(m)), Now(m))
  {
    hide *;
    RunningParts(m, threads, first, calls, n);
    LegalAt(calls, threads, n);
    InForceIs(m, threads);
    FirstsNext(calls, n);
    NowIs(m);
    CountIs(m);
    ghost var before := Now(m);
    ghost var contexts0, table0, chains0, log0 := m.contexts, m.table, m.chains, m.constructed;
    ghost var types0, order0 := m.types, m.order;
    id := 0;
    match calls[n] {
      case Create(idx) =>
        m.CreateEntry(idx, osThread);
        OwnCreated(contexts0, table0, chains0, m.contexts, idx, m.table[idx]);
        NoAnswer(calls[n], id, m.order);
        NowIs(m);
        OwnContextIs(Now(m));
        CellsForEach(m);
        CellHereToo(Now(m), idx);
        CreateCallIs(calls[n], id, before, Now(m), idx);
      case Allocate(address, size, ctor, dtor) =>
        if address in m.order {
          NotFreedYet(m, address);
        }
        id := m.AllocateId(address, size, ctor, dtor);
        OrderIs(m, address);
        RankedIs(calls[n], id, m.order);
        OwnKept(contexts0, m.contexts, m.table, m.chains);
        OwnCells(m.contexts, m.table, m.chains, m.force, id - 1);
        TypeOf(types0, m.types, order0, address, id, ResType(size, ctor, dtor, false));
        OwnForced(m.constructed, |log0|, m.contexts, m.table, m.chains, m.force, id - 1);
        OwnHere(m.contexts, m.table, m.chains, m.force);
        NowIs(m);
        OwnContextIs(Now(m));
        CellsForEach(m);
        AllocateIs(calls[n], id, before, Now(m));
        AllocateCallIs(calls[n], id, before, Now(m));
    }
    InForceNow(m, threads);
    TableGrows(table0, m.table, first, calls, n);
    RunningIs(m, threads, first, calls, n + 1);
  }

  lemma CellHereToo(m: Moment, k: int)
    requires CellForEach(m) && 0 <= k < |m.table| && m.table[k] != 0
    ensures m.table[k] in m.contexts && |m.contexts[m.table[k]].storage| == |m.order| <= |m.types|
  {}

  lemma AllocateIs(call: Call, id: int, before: Moment, now: Moment)
    requires call.Allocate? && OwnContext(now) && now.forced == before.forced && now.table == before.table
    requires SameLinks(before.contexts, now.contexts)
    requires 1 <= id <= |now.order| && id <= |now.types| && now.order[id - 1] == call.address
    requires call.address in before.order ==> now.order == before.order && now.contexts == before.contexts && now.types == before.types
    requires call.address !in before.order ==> now.order == before.order + [call.address]
    requires call.address !in before.order ==> TypesGrown(before.types, now.types, |before.order|, ResType(call.size, call.ctor, call.dtor, false))
    requires now.log == before.log + if now.types[id - 1].ctor then [CellAt(now.contexts, now.table[now.forced], id - 1)] else []
    ensures AllocateOk(call, id, before, now)
  {
    hide SameLinks, TypesGrown, CellAt;
  }

  /**
   Over any run in coroutine mode: addresses get the dense ids 1, 2, ... in the order they first appear,
   the tables stay valid after every call, and no cell is ever replaced. Every bucket holds the context
   of its coroutine at most; a call constructs cells of the forced coroutine's own context only; the
   thread's current context is the same after every call. The history leads from the manager after
   startup to the manager as it is left.
   */
  method Run(threads: nat, resources: nat, first: int, calls: seq<Call>, osThread: int)
    returns (m: Manager, answers: seq<int>, ghost history: seq<Moment>)
    requires 0 <= first < threads && AllLegal(calls, threads)
    ensures m.Valid() && m.order == Firsts(calls, |calls|) && m.idCount == |m.order|
    ensures |answers| == |calls| && AllRanked(calls, answers, m.order)
    ensures HistoryOk(calls, answers, history) && FirstOk(history[0], threads, first) && history[|calls|] == Now(m)
    ensures NeverReplaced(history, m.contexts)
    ensures OwnBuckets(m.contexts, m.table, m.chains) && TableIs(m.table, first, calls, |calls|)
  {
    hide *;
    m := Start(threads, resources, first, calls, osThread);
    RunningParts(m, threads, first, calls, 0);
    NowIs(m);
    answers, history := [], [Now(m)];
    Started(calls, Now(m), m.order);
    for i := 0 to |calls|
      invariant fresh(m) && Running(m, threads, first, calls, i) && |answers| == i && AllRanked(calls, answers, m.order)
      invariant |history| == i + 1 && history[i] == Now(m) && NeverReplaced(history, m.contexts)
      invariant HistoryOk(calls, answers, history) && FirstOk(history[0], threads, first)
    {
      ghost var before, order := m.contexts, m.order;
      NowContexts(m);
      var id := MakeCall(m, threads, first, calls, i, osThread);
      RankedGrows(calls, answers, order, m.order, id);
      CallKeeps(calls[i], id, history[i], Now(m));
      NowContexts(m);
      HistoryGrows(history, before, Now(m));
      HistoryLater(calls, answers, history, id, Now(m));
      answers, history := answers + [id], history + [Now(m)];
    }
    RunningParts(m, threads, first, calls, |calls|);
    CountIs(m);
  }

  lemma CallKeeps(call: Call, id: int, before: Moment, now: Moment)
    requires CallOk(call, id, before, now)
    ensures CellsKept(before.contexts, now.contexts)
  {
    hide CellsKept, Grown, OwnContext, CellForEach, ConstructedIn, CreateOk, AllocateOk;
  }

  lemma NowContexts(m: Manager)
    ensures Now(m).contexts == m.contexts
  {}

  /** After a run, hashed lookup of a coroutine that has a context finds that context and changes nothing. */
  method Find(m: Manager, k: int, id: int) returns (place: Place)
    requires m.Valid() && OwnBuckets(m.contexts, m.table, m.chains) && 0 <= k < |m.table| && m.table[k] != 0 && 0 <= id <= m.idCount
    modifies m
    ensures m.Valid() && m.contexts == old(m.contexts) && m.table == old(m.table) && m.tls == old(m.tls)
    ensures m.constructed == old(m.constructed) && m.table[k] in m.contexts && id <= |m.contexts[m.table[k]].storage|
    ensures place == m.Fetch(m.table[k], id)
  {
    hide *;
    OwnHere(m.contexts, m.table, m.chains, k);
    m.HeadNow(k);
    ghost var p;
    place, p := m.Lookup(id, k);
  }
}
