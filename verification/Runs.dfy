/**
 Whole runs: a program that works on separate arrays behaves the same when its arrays are blocks of
 the heap, until memory is exhausted.
 */
module Runs {
  import opened Sizes
  import opened Rings
  import opened Blocks
  import opened Ledger
  import opened Memory
  import opened Steps
  import opened Sweep
  import opened Occupancy
  import opened HugeBlocks
  import opened InPlace
  import opened Limits
  import opened ZendHeap

  /** An array of the reference model: its size and what was stored in it. */
  datatype Cell = Gone | Cell(bytes: nat, data: map<int, int>)

  /** Arrays are named by the order in which they were asked for. */
  datatype Op =
    | Alloc(bytes: nat)
    | Free(i: nat)
    | Resize(i: nat, bytes: nat)
    | Store(i: nat, d: nat, v: int)
    | Collect

  ghost predicate There(cells: seq<Cell>, i: nat) {
    i < |cells| && cells[i].Cell?
  }

  /** What a correct program may do next; array 0 is kept, since it holds the main chunk. */
  ghost predicate Allowed(cells: seq<Cell>, op: Op) {
    match op
    case Alloc(_) => true
    case Free(i) => i > 0 && There(cells, i)
    case Resize(i, _) => i > 0 && There(cells, i)
    case Store(i, d, _) => There(cells, i) && d < cells[i].bytes
    case Collect => true
  }

  ghost function Restrict(data: map<int, int>, n: nat): map<int, int> {
    map d | d in data && d < n :: data[d]
  }

  /** One step of the reference model. */
  ghost function Step(cells: seq<Cell>, op: Op): seq<Cell>
    requires Allowed(cells, op)
  {
    match op
    case Alloc(n) => cells + [Cell(n, map[])]
    case Free(i) => cells[i := Gone]
    case Resize(i, n) => cells[i := Cell(n, Restrict(cells[i].data, n))]
    case Store(i, d, v) => cells[i := Cell(cells[i].bytes, cells[i].data[d := v])]
    case Collect => cells
  }

  /** A program every step of which is allowed. */
  ghost predicate Correct(cells: seq<Cell>, ops: seq<Op>)
    decreases |ops|
  {
    ops == [] || (Allowed(cells, ops[0]) && Correct(Step(cells, ops[0]), ops[1..]))
  }

  /** The state of the reference model after the first k steps. */
  ghost function After(cells: seq<Cell>, ops: seq<Op>, k: nat): seq<Cell>
    requires Correct(cells, ops) && k <= |ops|
    decreases k
  {
    if k == 0 then cells else After(Step(cells, ops[0]), ops[1..], k - 1)
  }

  lemma {:induction false} AfterNext(cells: seq<Cell>, ops: seq<Op>, k: nat)
    requires Correct(cells, ops) && k < |ops|
    ensures Allowed(After(cells, ops, k), ops[k]) && After(cells, ops, k + 1) == Step(After(cells, ops, k), ops[k])
    decreases k
  {
    if k > 0 {
      AfterNext(Step(cells, ops[0]), ops[1..], k - 1);
    }
  }

  // ---- arrays and blocks ----

  /** The block at p has the size and the contents of the array. */
  ghost predicate Holds(users: Live, mem: Words, p: int, cell: Cell)
    requires cell.Cell?
  {
    && p in users && users[p] == BlockFor(cell.bytes)
    && forall d :: d in cell.data ==> 0 <= d < cell.bytes && At(mem, p, d) == cell.data[d]
  }

  ghost predicate AllHold(users: Live, mem: Words, held: seq<int>, cells: seq<Cell>) {
    && |held| == |cells|
    && (forall i :: 0 <= i < |cells| && cells[i].Cell? ==> Holds(users, mem, held[i], cells[i]))
    && (forall i, j :: 0 <= i < j < |cells| && cells[i].Cell? && cells[j].Cell? ==> held[i] != held[j])
  }

  /** Array 0 is there and lies in the main chunk. */
  ghost predicate Anchored(users: Live, held: seq<int>, cells: seq<Cell>, main: int) {
    && |held| == |cells| > 0 && cells[0].Cell? && held[0] in users && !users[held[0]].Huge? && Base(held[0]) == main
  }

  /** Every block of the user is one of the arrays. */
  ghost predicate NoOthers(users: Live, held: seq<int>, cells: seq<Cell>) {
    |held| == |cells| && forall a :: a in users ==> IsHeld(held, cells, a)
  }

  ghost predicate IsHeld(held: seq<int>, cells: seq<Cell>, a: int) {
    exists i :: 0 <= i < |held| && i < |cells| && cells[i].Cell? && held[i] == a
  }

  ghost predicate Matches(users: Live, mem: Words, held: seq<int>, cells: seq<Cell>, main: int) {
    AllHold(users, mem, held, cells) && Anchored(users, held, cells, main) && NoOthers(users, held, cells)
  }

  lemma HoldsSame(users: Live, users': Live, mem: Words, mem': Words, same: Live, p: int, cell: Cell)
    requires cell.Cell? && Holds(users, mem, p, cell) && SameBlocks(mem, mem', same)
    requires p in users' && users'[p] == users[p] && p in same && same[p] == users[p]
    ensures Holds(users', mem', p, cell)
  {
    BlockForFits(cell.bytes);
    hide BlockFor, BlockSize;
    forall d | d in cell.data
      ensures At(mem', p, d) == At(mem, p, d)
    {
      SameAt(mem, mem', same, p, d);
    }
  }

  lemma MatchAlloc(users: Live, mem: Words, mem': Words, held: seq<int>, cells: seq<Cell>, main: int, r: int, n: nat)
    requires Matches(users, mem, held, cells, main) && r !in users && SameBlocks(mem, mem', users)
    ensures Matches(users[r := BlockFor(n)], mem', held + [r], cells + [Cell(n, map[])], main)
  {
    hide Holds, BlockFor;
    var users', held', cells' := users[r := BlockFor(n)], held + [r], cells + [Cell(n, map[])];
    forall i | 0 <= i < |cells'| && cells'[i].Cell?
      ensures Holds(users', mem', held'[i], cells'[i])
    {
      if i < |cells| {
        InUsers(users, mem, held[i], cells[i]);
        HoldsSame(users, users', mem, mem', users, held[i], cells[i]);
      } else {
        HoldsNew(users', mem', r, n);
      }
    }
    forall i, j | 0 <= i < j < |cells'| && cells'[i].Cell? && cells'[j].Cell?
      ensures held'[i] != held'[j]
    {
      InUsers(users, mem, held[i], cells[i]);
    }
    forall a | a in users'
      ensures IsHeld(held', cells', a)
    {
      if a == r {
        assert held'[|held|] == a && cells'[|held|].Cell?;
      } else {
        var i := HeldAt(held, cells, a);
        assert held'[i] == a && cells'[i].Cell?;
      }
    }
  }

  lemma InUsers(users: Live, mem: Words, p: int, cell: Cell)
    requires cell.Cell? && Holds(users, mem, p, cell)
    ensures p in users && users[p] == BlockFor(cell.bytes)
  {}

  lemma HoldsNew(users: Live, mem: Words, p: int, n: nat)
    requires p in users && users[p] == BlockFor(n)
    ensures Holds(users, mem, p, Cell(n, map[]))
  {}

  lemma HeldAt(held: seq<int>, cells: seq<Cell>, a: int) returns (i: nat)
    requires IsHeld(held, cells, a)
    ensures i < |held| && i < |cells| && cells[i].Cell? && held[i] == a
  {
    i :| 0 <= i < |held| && i < |cells| && cells[i].Cell? && held[i] == a;
  }

  lemma MatchFree(users: Live, mem: Words, mem': Words, held: seq<int>, cells: seq<Cell>, main: int, i: nat)
    requires Matches(users, mem, held, cells, main) && i > 0 && There(cells, i) && SameBlocks(mem, mem', users - {held[i]})
    ensures Matches(users - {held[i]}, mem', held, cells[i := Gone], main)
  {
    hide Holds, BlockFor;
    var p := held[i];
    var users', cells' := users - {p}, cells[i := Gone];
    forall j | 0 <= j < |cells'| && cells'[j].Cell?
      ensures Holds(users', mem', held[j], cells'[j])
    {
      InUsers(users, mem, held[j], cells[j]);
      HoldsSame(users, users', mem, mem', users', held[j], cells[j]);
    }
    forall a | a in users'
      ensures IsHeld(held, cells', a)
    {
      var j := HeldAt(held, cells, a);
      assert held[j] == a && cells'[j].Cell?;
    }
  }

  lemma MatchResize(users: Live, mem: Words, mem': Words, held: seq<int>, cells: seq<Cell>, main: int, i: nat, r: int, n: nat)
    requires Matches(users, mem, held, cells, main) && i > 0 && There(cells, i) && (r == held[i] || r !in users)
    requires SameBlocks(mem, mem', users - {held[i]}) && held[i] in users
    requires Copied(mem, mem', held[i], r, Min(BlockSize(users[held[i]]), n))
    ensures Matches((users - {held[i]})[r := BlockFor(n)], mem', held[i := r], cells[i := Cell(n, Restrict(cells[i].data, n))], main)
  {
    hide Holds, BlockFor;
    var p, cell := held[i], Cell(n, Restrict(cells[i].data, n));
    var users', held', cells' := (users - {p})[r := BlockFor(n)], held[i := r], cells[i := cell];
    forall j | 0 <= j < |cells'| && cells'[j].Cell?
      ensures Holds(users', mem', held'[j], cells'[j])
    {
      InUsers(users, mem, held[j], cells[j]);
      if j == i {
        HoldsResized(users, users', mem, mem', p, r, cells[i], n);
      } else {
        HoldsSame(users, users', mem, mem', users - {p}, held[j], cells[j]);
      }
    }
    forall j, k | 0 <= j < k < |cells'| && cells'[j].Cell? && cells'[k].Cell?
      ensures held'[j] != held'[k]
    {
      InUsers(users, mem, held[j], cells[j]);
      InUsers(users, mem, held[k], cells[k]);
    }
    InUsers(users, mem, held[0], cells[0]);
    forall a | a in users'
      ensures IsHeld(held', cells', a)
    {
      if a == r {
        assert held'[i] == a && cells'[i].Cell?;
      } else {
        var j := HeldAt(held, cells, a);
        assert held'[j] == a && cells'[j].Cell?;
      }
    }
  }

  lemma HoldsResized(users: Live, users': Live, mem: Words, mem': Words, p: int, r: int, cell: Cell, n: nat)
    requires cell.Cell? && Holds(users, mem, p, cell) && p in users && r in users' && users'[r] == BlockFor(n)
    requires Copied(mem, mem', p, r, Min(BlockSize(users[p]), n))
    ensures Holds(users', mem', r, Cell(n, Restrict(cell.data, n)))
  {
    BlockForFits(cell.bytes);
    hide BlockFor, BlockSize;
    forall d | d in Restrict(cell.data, n)
      ensures 0 <= d < n && At(mem', r, d) == cell.data[d]
    {
      assert d in cell.data;
    }
  }

  lemma MatchStore(users: Live, live: Live, mem: Words, held: seq<int>, cells: seq<Cell>, main: int, i: nat, d: nat, v: int)
    requires Matches(users, mem, held, cells, main) && There(cells, i) && d < cells[i].bytes
    requires SameBlocks(mem, mem[held[i] + d := v], live - {held[i]}) && forall a :: a in users ==> a in live && live[a] == users[a]
    ensures Matches(users, mem[held[i] + d := v], held, cells[i := Cell(cells[i].bytes, cells[i].data[d := v])], main)
  {
    hide Holds, BlockFor;
    var p, mem' := held[i], mem[held[i] + d := v];
    var cell := Cell(cells[i].bytes, cells[i].data[d := v]);
    var cells' := cells[i := cell];
    forall j | 0 <= j < |cells'| && cells'[j].Cell?
      ensures Holds(users, mem', held[j], cells'[j])
    {
      InUsers(users, mem, held[j], cells[j]);
      if j == i {
        HoldsStored(users, mem, p, cells[i], d, v);
      } else {
        HoldsSame(users, users, mem, mem', live - {p}, held[j], cells[j]);
      }
    }
    forall a | a in users
      ensures IsHeld(held, cells', a)
    {
      var j := HeldAt(held, cells, a);
      assert held[j] == a && cells'[j].Cell?;
    }
  }

  lemma HoldsStored(users: Live, mem: Words, p: int, cell: Cell, d: nat, v: int)
    requires cell.Cell? && Holds(users, mem, p, cell) && d < cell.bytes
    ensures Holds(users, mem[p + d := v], p, Cell(cell.bytes, cell.data[d := v]))
  {
    hide BlockFor;
    var mem' := mem[p + d := v];
    forall e | e in cell.data[d := v]
      ensures 0 <= e < cell.bytes && At(mem', p, e) == cell.data[d := v][e]
    {
      if e != d { assert At(mem, p, e) == cell.data[e]; }
    }
  }

  lemma MatchSame(users: Live, mem: Words, mem': Words, held: seq<int>, cells: seq<Cell>, main: int)
    requires Matches(users, mem, held, cells, main) && SameBlocks(mem, mem', users)
    ensures Matches(users, mem', held, cells, main)
  {
    hide Holds, BlockFor;
    forall j | 0 <= j < |cells| && cells[j].Cell?
      ensures Holds(users, mem', held[j], cells[j])
    {
      InUsers(users, mem, held[j], cells[j]);
      HoldsSame(users, users, mem, mem', users, held[j], cells[j]);
    }
  }

  /** Array 0 keeps the main chunk in use whatever other array goes. */
  lemma AnchorHolds(users: Live, mem: Words, held: seq<int>, cells: seq<Cell>, main: int, i: nat)
    requires Matches(users, mem, held, cells, main)
    ensures MainInUse(users, main) && (i > 0 && There(cells, i) ==> MainInUse(users - {held[i]}, main))
  {
    hide Holds, Base;
    assert held[0] in users;
    assert i > 0 && There(cells, i) ==> held[0] in users - {held[i]};
  }

  lemma TheBlock(users: Live, mem: Words, held: seq<int>, cells: seq<Cell>, main: int, i: nat)
    requires Matches(users, mem, held, cells, main) && There(cells, i)
    ensures |held| == |cells| && held[i] in users && users[held[i]] == BlockFor(cells[i].bytes)
    ensures cells[i].bytes <= BlockSize(users[held[i]])
  {
    BlockForFits(cells[i].bytes);
    hide BlockFor, BlockSize;
    InUsers(users, mem, held[i], cells[i]);
  }

  // ---- running a program on the heap ----

  /** The heap stands for the arrays. */
  ghost predicate Stands(h: Heap, held: seq<int>, cells: seq<Cell>)
    reads h
  {
    Matches(UserBlocks(h.live, h.huge), h.mem, held, cells, h.mainChunk)
  }

  lemma StandsIs(h: Heap, held: seq<int>, cells: seq<Cell>)
    ensures Stands(h, held, cells) <==> Matches(UserBlocks(h.live, h.huge), h.mem, held, cells, h.mainChunk)
  {}

  /** The size a step asks for, 0 if it asks for nothing. */
  function BytesOf(op: Op): nat {
    match op
    case Alloc(n) => n
    case Resize(_, n) => n
    case _ => 0
  }

  /**
     The heap between two steps: real_size, how often the system has refused, what the next allocation draws
     on, the cached chunks, the blocks, the words of memory, and where the arrays of the program are.
   */
  datatype Moment = Moment(size: int, refusals: nat, stock: Stock, cache: seq<int>, live: Live, huge: seq<HugeEntry>,
                           mem: Words, held: seq<int>)

  ghost function Snapshot(h: Heap, held: seq<int>): Moment
    reads h
  {
    Moment(h.realSize, h.refusals, h.Now(), h.cache, h.live, h.huge, h.mem, held)
  }

  /** The books of a heap: pages, slots and list nodes agree with its blocks, and real_size with its chunks and huge blocks. */
  ghost predicate Kept(m: Moment, main: int) {
    && Linked(m.stock) && m.stock.ring[0] == main && (m.stock.cached == 0 <==> m.cache == [])
    && LedgerOk(m.stock.tables, m.stock.owner, m.stock.free, m.live, {}) && HugeLedger(m.huge, m.live)
    && m.size == CHUNK_SIZE * (|m.stock.ring| + |m.cache|) + HugeTotal(m.huge)
  }

  /** At that moment the heap is in order and holds exactly the arrays. */
  ghost predicate MomentOk(m: Moment, cells: seq<Cell>, main: int) {
    Kept(m, main) && Matches(UserBlocks(m.live, m.huge), m.mem, m.held, cells, main)
  }

  /** After k steps the heap held the arrays as they are after k steps, for every k up to done. */
  ghost predicate AlwaysHeld(start: seq<Cell>, ops: seq<Op>, done: nat, history: seq<Moment>, main: int)
    requires Correct(start, ops) && done <= |ops|
  {
    |history| >= done + 2 && forall k :: 0 <= k <= done ==> MomentOk(history[k + 1], After(start, ops, k), main)
  }

  /** Only the array that is resized changes its place. */
  ghost predicate Stay(op: Op, held: seq<int>, held': seq<int>) {
    |held| <= |held'| && forall i :: 0 <= i < |held| && !(op.Resize? && op.i == i) ==> held'[i] == held[i]
  }

  /**
     One step, whether it succeeds or not: only a huge request asks for a list node, in the heap it found or a
     collection of it; real_size does not grow beyond the limit, except by a chunk that the node needs.
   */
  ghost predicate StepOk(op: Op, before: Moment, after: Moment, asked: Asked, limit: int, overflow: bool) {
    && after.refusals >= before.refusals && Stay(op, before.held, after.held)
    && (op.Free? || op.Store? || op.Collect? ==> after.refusals == before.refusals)
    && AskedFrom(asked, before.stock) && (asked.Asked? ==> BytesOf(op) > MAX_LARGE_SIZE)
    && (asked.Asked? && !asked.atOnce ==> after.refusals > before.refusals || before.size + Need(BytesOf(op)) > limit)
    && (op.Collect? ==> Collected(before.stock, after.stock)) && (op.Store? ==> after.(mem := before.mem) == before)
    && (after.size <= before.size || overflow || after.size <= limit || (NeedsChunk(asked) && after.size <= limit + CHUNK_SIZE))
  }

  /** The moments of a run and the nodes asked for between them. */
  ghost predicate ChainOk(ops: seq<Op>, history: seq<Moment>, asks: seq<Asked>, limit: int, overflow: bool) {
    && |history| == |asks| + 1 <= |ops| + 1
    && forall k :: 0 <= k < |asks| ==> StepOk(ops[k], history[k], history[k + 1], asks[k], limit, overflow)
  }

  /** Some step could get a list node from nothing but a fresh chunk. */
  ghost predicate SomeNeedsChunk(asks: seq<Asked>) {
    exists k :: 0 <= k < |asks| && NeedsChunk(asks[k])
  }

  /** The last step found no memory: the system refused, or there was no room below the limit, and nothing was left to collect. */
  ghost predicate StoppedBy(op: Op, history: seq<Moment>, limit: int, overflow: bool) {
    && (op.Alloc? || op.Resize?) && |history| >= 2
    && var before, after := history[|history| - 2], history[|history| - 1];
       && (after.refusals > before.refusals || (!overflow && after.size + Need(BytesOf(op)) > limit))
       && DeadAre(after.stock.tables, after.stock.owner, after.stock.free, BINS, {})
  }

  lemma ChainGrows(ops: seq<Op>, history: seq<Moment>, asks: seq<Asked>, after: Moment, asked: Asked, limit: int, overflow: bool)
    requires ChainOk(ops, history, asks, limit, overflow) && |asks| < |ops|
    requires StepOk(ops[|asks|], history[|asks|], after, asked, limit, overflow)
    ensures ChainOk(ops, history + [after], asks + [asked], limit, overflow)
  {
    hide StepOk;
    var history', asks' := history + [after], asks + [asked];
    forall k | 0 <= k < |asks'|
      ensures StepOk(ops[k], history'[k], history'[k + 1], asks'[k], limit, overflow)
    {
      if k < |asks| {
        assert history'[k] == history[k] && history'[k + 1] == history[k + 1] && asks'[k] == asks[k];
      }
    }
  }

  /** Over a whole run real_size gets above the limit only for a list node that needs a fresh chunk. */
  lemma {:induction false} ChainExcused(ops: seq<Op>, history: seq<Moment>, asks: seq<Asked>, limit: int, overflow: bool)
    requires ChainOk(ops, history, asks, limit, overflow) && (overflow || history[0].size <= limit)
    ensures var last := history[|history| - 1];
            overflow || last.size <= limit || (SomeNeedsChunk(asks) && last.size <= limit + CHUNK_SIZE)
    decreases |asks|
  {
    hide AskedFrom, NeedsChunk;
    if asks != [] {
      var n := |asks| - 1;
      assert StepOk(ops[n], history[n], history[n + 1], asks[n], limit, overflow);
      ChainExcused(ops, history[..n + 1], asks[..n], limit, overflow);
      if SomeNeedsChunk(asks[..n]) {
        var k :| 0 <= k < n && NeedsChunk(asks[..n][k]);
        assert NeedsChunk(asks[k]);
      }
    }
  }

  /** A run of small and large requests stays within the limit. */
  lemma NoneHuge(ops: seq<Op>, history: seq<Moment>, asks: seq<Asked>, limit: int, overflow: bool)
    requires ChainOk(ops, history, asks, limit, overflow) && (overflow || history[0].size <= limit)
    requires forall k :: 0 <= k < |ops| ==> BytesOf(ops[k]) <= MAX_LARGE_SIZE
    ensures overflow || history[|history| - 1].size <= limit
  {
    hide AskedFrom;
    ChainExcused(ops, history, asks, limit, overflow);
    forall k | 0 <= k < |asks|
      ensures !NeedsChunk(asks[k])
    {
      assert StepOk(ops[k], history[k], history[k + 1], asks[k], limit, overflow);
    }
  }

  /** One step of a program on the heap; ok is false when memory is exhausted, and then nothing is lost. */
  method Execute(h: Heap, held: seq<int>, op: Op, ghost cells: seq<Cell>) returns (ok: bool, held': seq<int>, ghost asked: Asked)
    requires h.Valid() && Stands(h, held, cells) && Allowed(cells, op)
    modifies h
    ensures h.mainChunk == old(h.mainChunk) && h.limit == old(h.limit) && h.overflow == old(h.overflow)
    ensures ok ==> h.Valid() && Stands(h, held', Step(cells, op))
    ensures !ok ==> h.Inv() && held' == held && Stands(h, held, cells) && (op.Alloc? || op.Resize?)
    ensures StepOk(op, old(Snapshot(h, held)), Snapshot(h, held'), asked, h.limit, h.overflow)
    ensures !ok ==> h.Denied(old(h.refusals), Need(BytesOf(op)))
  {
    hide StepOk, Snapshot, Need, Stands, Correct, Matches, Restrict, There, Collected;
    ghost var before := Snapshot(h, held);
    asked := NotAsked;
    NotAskedFrom(h.Now());
    SnapshotIs(h, held);
    match op {
      case Alloc(n) =>
        ok, held', asked := ExecuteAlloc(h, held, n, cells);
      case Free(i) =>
        ok, held' := true, held;
        ExecuteFree(h, held, i, cells);
      case Resize(i, n) =>
        ok, held', asked := ExecuteResize(h, held, i, n, cells);
      case Store(i, d, v) =>
        ok, held' := true, held;
        ExecuteStore(h, held, i, d, v, cells);
      case Collect =>
        ok, held' := true, held;
        ExecuteCollect(h, held, cells);
    }
    StepIs(h, held', op, before, asked);
  }

  lemma SnapshotIs(h: Heap, held: seq<int>)
    ensures Snapshot(h, held) == Moment(h.realSize, h.refusals, h.Now(), h.cache, h.live, h.huge, h.mem, held)
  {}

  lemma StepIs(h: Heap, held: seq<int>, op: Op, before: Moment, asked: Asked)
    requires h.WithinLimit(before.size, NeedsChunk(asked)) && AskedFrom(asked, before.stock)
    requires (BytesOf(op) <= MAX_LARGE_SIZE ==> asked == NotAsked) && h.refusals >= before.refusals && Stay(op, before.held, held)
    requires asked.Asked? && !asked.atOnce ==> h.Pressed(before.size, before.refusals, Need(BytesOf(op)))
    requires op.Free? || op.Store? || op.Collect? ==> h.refusals == before.refusals
    requires (op.Collect? ==> Collected(before.stock, h.Now())) && (op.Store? ==> before.(mem := h.mem) == Snapshot(h, held))
    ensures StepOk(op, before, Snapshot(h, held), asked, h.limit, h.overflow)
  {
    hide Need, NeedsChunk, AskedFrom, Collected, Stay;
  }

  method ExecuteAlloc(h: Heap, held: seq<int>, n: nat, ghost cells: seq<Cell>) returns (ok: bool, held': seq<int>, ghost asked: Asked)
    requires h.Valid() && Stands(h, held, cells)
    modifies h
    ensures h.mainChunk == old(h.mainChunk) && h.limit == old(h.limit) && h.overflow == old(h.overflow)
    ensures ok ==> h.Valid() && Stands(h, held', cells + [Cell(n, map[])])
    ensures !ok ==> h.Inv() && Stands(h, held, cells) && held' == held
    ensures h.WithinLimit(old(h.realSize), NeedsChunk(asked)) && AskedFrom(asked, old(h.Now()))
    ensures (n <= MAX_LARGE_SIZE ==> asked == NotAsked) && h.refusals >= old(h.refusals)
    ensures asked.Asked? && !asked.atOnce ==> h.Pressed(old(h.realSize), old(h.refusals), Need(n))
    ensures !ok ==> h.Denied(old(h.refusals), Need(n))
    ensures Stay(Alloc(n), held, held')
  {
    hide *;
    StandsIs(h, held, cells);
    AnchorHolds(UserBlocks(h.live, h.huge), h.mem, held, cells, h.mainChunk, 0);
    h.ReadyIs(n);
    UserLess(h.huge, h.live);
    ghost var live0, huge0, mem0 := h.live, h.huge, h.mem;
    var r: int;
    r, asked := h.AllocHeap(n);
    UserSameAll(mem0, h.mem, huge0, live0);
    ok, held' := r != 0, held;
    StayMore(n, held, r);
    if ok {
      held' := held + [r];
      MatchAlloc(UserBlocks(live0, huge0), mem0, h.mem, held, cells, h.mainChunk, r, n);
      StandsIs(h, held', cells + [Cell(n, map[])]);
    } else {
      MatchSame(UserBlocks(live0, huge0), mem0, h.mem, held, cells, h.mainChunk);
      StandsIs(h, held, cells);
    }
  }

  lemma StayMore(n: nat, held: seq<int>, r: int)
    ensures Stay(Alloc(n), held, held) && Stay(Alloc(n), held, held + [r])
  {}

  lemma StaySet(i: nat, n: nat, held: seq<int>, r: int)
    ensures Stay(Resize(i, n), held, held) && (i < |held| ==> Stay(Resize(i, n), held, held[i := r]))
  {}

  method ExecuteFree(h: Heap, held: seq<int>, i: nat, ghost cells: seq<Cell>)
    requires h.Valid() && Stands(h, held, cells) && i > 0 && There(cells, i)
    modifies h
    ensures h.mainChunk == old(h.mainChunk) && h.limit == old(h.limit) && h.overflow == old(h.overflow)
    ensures h.Valid() && Stands(h, held, cells[i := Gone])
    ensures h.WithinLimit(old(h.realSize), false) && h.refusals == old(h.refusals)
  {
    hide *;
    StandsIs(h, held, cells);
    ghost var users, mem0 := UserBlocks(h.live, h.huge), h.mem;
    AnchorHolds(users, mem0, held, cells, h.mainChunk, i);
    IndexOk(cells, i);
    TheBlock(users, mem0, held, cells, h.mainChunk, i);
    UserLess(h.huge, h.live);
    h.FreeHeap(held[i]);
    MatchFree(users, mem0, h.mem, held, cells, h.mainChunk, i);
    StandsIs(h, held, cells[i := Gone]);
    h.WithinLimitIs(old(h.realSize), false);
  }

  lemma IndexOk(cells: seq<Cell>, i: nat)
    requires There(cells, i)
    ensures i < |cells| && cells[i].Cell?
  {}

  method ExecuteResize(h: Heap, held: seq<int>, i: nat, n: nat, ghost cells: seq<Cell>) returns (ok: bool, held': seq<int>, ghost asked: Asked)
    requires h.Valid() && Stands(h, held, cells) && i > 0 && There(cells, i)
    modifies h
    ensures h.mainChunk == old(h.mainChunk) && h.limit == old(h.limit) && h.overflow == old(h.overflow)
    ensures ok ==> h.Valid() && Stands(h, held', cells[i := Cell(n, Restrict(cells[i].data, n))])
    ensures !ok ==> h.Inv() && Stands(h, held, cells) && held' == held
    ensures h.WithinLimit(old(h.realSize), NeedsChunk(asked)) && AskedFrom(asked, old(h.Now()))
    ensures (n <= MAX_LARGE_SIZE ==> asked == NotAsked) && h.refusals >= old(h.refusals)
    ensures asked.Asked? && !asked.atOnce ==> h.Pressed(old(h.realSize), old(h.refusals), Need(n))
    ensures !ok ==> h.Denied(old(h.refusals), Need(n))
    ensures Stay(Resize(i, n), held, held')
  {
    hide *;
    StandsIs(h, held, cells);
    ghost var users, mem0 := UserBlocks(h.live, h.huge), h.mem;
    AnchorHolds(users, mem0, held, cells, h.mainChunk, i);
    IndexOk(cells, i);
    TheBlock(users, mem0, held, cells, h.mainChunk, i);
    UserLess(h.huge, h.live);
    NotNull(h, held[i]);
    BlockForFits(n);
    var r: int;
    r, asked := h.Realloc(held[i], n, n);
    ok, held' := r != 0, held;
    StaySet(i, n, held, r);
    if ok {
      held' := held[i := r];
      MatchResize(users, mem0, h.mem, held, cells, h.mainChunk, i, r, n);
      StandsIs(h, held', cells[i := Cell(n, Restrict(cells[i].data, n))]);
    } else {
      MatchSame(users, mem0, h.mem, held, cells, h.mainChunk);
      StandsIs(h, held, cells);
    }
  }

  lemma NotNull(h: Heap, p: int)
    requires h.Valid() && p in h.live
    ensures p != 0
  {
    hide *;
    h.ValidParts();
    h.Dispatch(p);
  }

  method ExecuteStore(h: Heap, held: seq<int>, i: nat, d: nat, v: int, ghost cells: seq<Cell>)
    requires h.Valid() && Stands(h, held, cells) && There(cells, i) && d < cells[i].bytes
    modifies h
    ensures h.mainChunk == old(h.mainChunk) && h.limit == old(h.limit) && h.overflow == old(h.overflow)
    ensures h.Valid() && Stands(h, held, cells[i := Cell(cells[i].bytes, cells[i].data[d := v])])
    ensures h.WithinLimit(old(h.realSize), false) && h.refusals == old(h.refusals)
    ensures old(Snapshot(h, held)).(mem := h.mem) == Snapshot(h, held)
  {
    hide *;
    StandsIs(h, held, cells);
    SnapshotIs(h, held);
    ghost var users, mem0 := UserBlocks(h.live, h.huge), h.mem;
    IndexOk(cells, i);
    TheBlock(users, mem0, held, cells, h.mainChunk, i);
    UserLess(h.huge, h.live);
    InBlockIs(h.live, held[i], held[i] + d);
    h.Write(held[i], held[i] + d, v);
    MatchStore(users, h.live, mem0, held, cells, h.mainChunk, i, d, v);
    StandsIs(h, held, cells[i := Cell(cells[i].bytes, cells[i].data[d := v])]);
    SnapshotIs(h, held);
    h.WithinLimitIs(old(h.realSize), false);
  }

  lemma InBlockIs(live: Live, p: int, w: int)
    requires p in live && p <= w < p + BlockSize(live[p])
    ensures InBlock(live, p, w)
  {}

  method ExecuteCollect(h: Heap, held: seq<int>, ghost cells: seq<Cell>)
    requires h.Valid() && Stands(h, held, cells)
    modifies h
    ensures h.mainChunk == old(h.mainChunk) && h.limit == old(h.limit) && h.overflow == old(h.overflow)
    ensures h.Valid() && Stands(h, held, cells)
    ensures h.WithinLimit(old(h.realSize), false) && h.refusals == old(h.refusals)
    ensures Collected(old(h.Now()), h.Now())
  {
    hide *;
    StandsIs(h, held, cells);
    ghost var users, mem0 := UserBlocks(h.live, h.huge), h.mem;
    AnchorHolds(users, mem0, held, cells, h.mainChunk, 0);
    MainOfUsers(h.live, h.huge, h.mainChunk);
    var collected := h.Collect();
    UserSameAll(mem0, h.mem, h.huge, h.live);
    MatchSame(users, mem0, h.mem, held, cells, h.mainChunk);
    StandsIs(h, held, cells);
    h.WithinLimitIs(old(h.realSize), false);
  }

  /** The whole program: the first array is a request like the others. */
  function Program(first: nat, ops: seq<Op>): seq<Op> {
    [Alloc(first)] + ops
  }

  /**
     Runs a whole program on a new heap. After every step the heap holds exactly the arrays the program
     has, each in a block of its own, with what was stored in them. The history leads from the new heap to
     the heap as it is left. The run stops early only when in its last step the system refused memory or
     the limit had no room, and real_size is above the limit only for the sake of a list node.
   */
  method Run(h: Heap, first: nat, ops: seq<Op>)
    returns (done: nat, held: seq<int>, ghost history: seq<Moment>, ghost asks: seq<Asked>)
    requires h.Valid() && h.Fresh() && h.live == map[] && h.huge == [] && first <= MAX_LARGE_SIZE
    requires h.overflow || h.realSize <= h.limit
    requires Correct([Cell(first, map[])], ops)
    modifies h
    ensures done <= |ops| && h.Inv() && Stands(h, held, After([Cell(first, map[])], ops, done))
    ensures h.limit == old(h.limit) && h.overflow == old(h.overflow)
    ensures ChainOk(Program(first, ops), history, asks, h.limit, h.overflow)
    ensures history[0] == old(Snapshot(h, [])) && history[|history| - 1] == Snapshot(h, held)
    ensures AlwaysHeld([Cell(first, map[])], ops, done, history, h.mainChunk) && h.mainChunk == old(h.mainChunk)
    ensures |asks| == (if done == |ops| then done + 1 else done + 2)
    ensures h.overflow || h.realSize <= h.limit || (SomeNeedsChunk(asks) && h.realSize <= h.limit + CHUNK_SIZE)
    ensures done == |ops| ==> h.Valid()
    ensures done < |ops| ==> StoppedBy(ops[done], history, h.limit, h.overflow)
  {
    hide *;
    ghost var start, program := [Cell(first, map[])], Program(first, ops);
    ProgramIs(first, ops);
    SnapshotIs(h, []);
    done := 0;
    AfterNone(start, ops);
    held, history, asks := Begin(h, first, ops);
    h.ValidParts();
    while done < |ops|
      invariant done <= |ops| && h.Valid() && h.Inv() && Stands(h, held, After(start, ops, done))
      invariant AlwaysHeld(start, ops, done, history, h.mainChunk) && h.mainChunk == old(h.mainChunk)
      invariant h.limit == old(h.limit) && h.overflow == old(h.overflow)
      invariant ChainOk(program, history, asks, h.limit, h.overflow) && |asks| == done + 1 && |history| == done + 2
      invariant history[0] == old(Snapshot(h, [])) && history[done + 1] == Snapshot(h, held)
      decreases |ops| - done
    {
      AfterNext(start, ops, done);
      SnapshotIs(h, held);
      ghost var before := Snapshot(h, held);
      var ok: bool;
      var next: seq<int>;
      ghost var asked;
      ok, next, asked := Execute(h, held, ops[done], After(start, ops, done));
      ghost var after := Snapshot(h, next);
      ChainGrows(program, history, asks, after, asked, h.limit, h.overflow);
      ghost var sofar := history;
      history, asks := history + [after], asks + [asked];
      SnapshotIs(h, next);
      if !ok {
        StoppedIs(h, held, ops[done], history, before);
        AlwaysStays(start, ops, done, sofar, history, h.mainChunk);
        break;
      }
      held := next;
      done := done + 1;
      MomentIs(h, held, After(start, ops, done));
      AlwaysGrows(start, ops, done, sofar, history, h.mainChunk);
      h.ValidParts();
    }
    RunExcused(h, held, program, history, asks);
  }

  lemma ProgramIs(first: nat, ops: seq<Op>)
    ensures |Program(first, ops)| == |ops| + 1 && Program(first, ops)[0] == Alloc(first)
    ensures forall k :: 0 <= k < |ops| ==> Program(first, ops)[k + 1] == ops[k]
  {}

  lemma StoppedIs(h: Heap, held: seq<int>, op: Op, history: seq<Moment>, before: Moment)
    requires |history| >= 2 && history[|history| - 2] == before && history[|history| - 1] == Snapshot(h, held)
    requires (op.Alloc? || op.Resize?) && h.Denied(before.refusals, Need(BytesOf(op)))
    ensures StoppedBy(op, history, h.limit, h.overflow)
  {
    hide Need, DeadAre;
  }

  lemma RunExcused(h: Heap, held: seq<int>, ops: seq<Op>, history: seq<Moment>, asks: seq<Asked>)
    requires ChainOk(ops, history, asks, h.limit, h.overflow) && history[|history| - 1] == Snapshot(h, held)
    requires h.overflow || history[0].size <= h.limit
    ensures h.overflow || h.realSize <= h.limit || (SomeNeedsChunk(asks) && h.realSize <= h.limit + CHUNK_SIZE)
  {
    hide StepOk, SomeNeedsChunk;
    ChainExcused(ops, history, asks, h.limit, h.overflow);
  }

  /** A valid heap that stands for the arrays is in order, and so is its snapshot. */
  lemma MomentIs(h: Heap, held: seq<int>, cells: seq<Cell>)
    requires h.Valid() && Stands(h, held, cells)
    ensures MomentOk(Snapshot(h, held), cells, h.mainChunk)
  {
    hide *;
    h.ValidParts();
    h.InvParts();
    h.CoreParts({});
    h.NowIs();
    StandsIs(h, held, cells);
    SnapshotIs(h, held);
    ListEnds(h.links, h.cachedChunks, h.cache);
    h.BeyondIs();
    KeptIs(Snapshot(h, held), h.mainChunk);
    MomentFrom(Snapshot(h, held), cells, h.mainChunk);
  }

  lemma ListEnds(links: LinkMap, head: int, list: seq<int>)
    requires ListOk(links, head, list)
    ensures head == 0 <==> list == []
  {}

  lemma KeptIs(m: Moment, main: int)
    requires var s := m.stock;
             && TablesOk(s.tables, s.owner) && OwnersAre(s.owner, s.ring) && |s.ring| > 0 && s.ring[0] == main
             && Occupied(s.tables, s.ring, main) && LedgerOk(s.tables, s.owner, s.free, m.live, {})
    requires HugeLedger(m.huge, m.live) && (m.stock.cached == 0 <==> m.cache == [])
    requires m.size == CHUNK_SIZE * (|m.stock.ring| + |m.cache|) + HugeTotal(m.huge)
    ensures Kept(m, main)
  {
    hide TablesOk, OwnersAre, Occupied, LedgerOk, HugeLedger, HugeTotal;
  }

  lemma MomentFrom(m: Moment, cells: seq<Cell>, main: int)
    requires Kept(m, main) && Matches(UserBlocks(m.live, m.huge), m.mem, m.held, cells, main)
    ensures MomentOk(m, cells, main)
  {}

  lemma AlwaysFirst(start: seq<Cell>, ops: seq<Op>, history: seq<Moment>, main: int)
    requires Correct(start, ops) && |history| == 2 && MomentOk(history[1], start, main)
    ensures AlwaysHeld(start, ops, 0, history, main)
  {
    hide MomentOk;
  }

  lemma AlwaysStays(start: seq<Cell>, ops: seq<Op>, done: nat, history: seq<Moment>, history': seq<Moment>, main: int)
    requires Correct(start, ops) && done <= |ops| && AlwaysHeld(start, ops, done, history, main) && |history| == done + 2
    requires |history'| == |history| + 1 && history'[..|history|] == history
    ensures AlwaysHeld(start, ops, done, history', main)
  {
    hide MomentOk, After, Correct;
    forall k | 0 <= k <= done
      ensures MomentOk(history'[k + 1], After(start, ops, k), main)
    {
      assert history'[k + 1] == history'[..|history|][k + 1];
    }
  }

  lemma AlwaysGrows(start: seq<Cell>, ops: seq<Op>, done: nat, history: seq<Moment>, history': seq<Moment>, main: int)
    requires Correct(start, ops) && 0 < done <= |ops| && AlwaysHeld(start, ops, done - 1, history, main) && |history| == done + 1
    requires |history'| == done + 2 && history'[..|history|] == history && MomentOk(history'[done + 1], After(start, ops, done), main)
    ensures AlwaysHeld(start, ops, done, history', main)
  {
    hide MomentOk, After, Correct;
    forall k | 0 <= k <= done
      ensures MomentOk(history'[k + 1], After(start, ops, k), main)
    {
      if k < done {
        assert history'[k + 1] == history'[..|history|][k + 1];
      }
    }
  }

  lemma AfterNone(cells: seq<Cell>, ops: seq<Op>)
    requires Correct(cells, ops)
    ensures After(cells, ops, 0) == cells
  {}

  /** The first array of a program: a new heap has room for it. */
  method Begin(h: Heap, first: nat, ghost ops: seq<Op>)
    returns (held: seq<int>, ghost history: seq<Moment>, ghost asks: seq<Asked>)
    requires h.Valid() && h.Fresh() && h.live == map[] && h.huge == [] && first <= MAX_LARGE_SIZE
    requires Correct([Cell(first, map[])], ops)
    modifies h
    ensures h.Valid() && Stands(h, held, [Cell(first, map[])])
    ensures h.limit == old(h.limit) && h.overflow == old(h.overflow)
    ensures ChainOk(Program(first, ops), history, asks, h.limit, h.overflow) && |asks| == 1 && |history| == 2
    ensures AlwaysHeld([Cell(first, map[])], ops, 0, history, h.mainChunk) && h.mainChunk == old(h.mainChunk)
    ensures history[0] == old(Snapshot(h, [])) && history[1] == Snapshot(h, held)
  {
    hide *;
    FreshReadyNow(h, first);
    NoUsers(h.live, h.huge);
    SnapshotIs(h, []);
    ghost var before, asked := Snapshot(h, []), NotAsked;
    var p: int;
    p, asked := h.AllocHeap(first);
    held := [p];
    FirstMatch(UserBlocks(h.live, h.huge), h.mem, p, first, h.mainChunk);
    StandsIs(h, held, [Cell(first, map[])]);
    BytesOfAlloc(first);
    FirstStays(first, held);
    StepIs(h, held, Alloc(first), before, asked);
    MomentIs(h, held, [Cell(first, map[])]);
    history, asks := [before, Snapshot(h, held)], [asked];
    ChainOne(first, ops, before, Snapshot(h, held), asked, h.limit, h.overflow);
    AlwaysFirst([Cell(first, map[])], ops, history, h.mainChunk);
  }

  lemma FirstStays(first: nat, held: seq<int>)
    ensures Stay(Alloc(first), [], held)
  {}

  lemma BytesOfAlloc(n: nat)
    ensures BytesOf(Alloc(n)) == n
  {}

  lemma ChainOne(first: nat, ops: seq<Op>, before: Moment, after: Moment, asked: Asked, limit: int, overflow: bool)
    requires StepOk(Alloc(first), before, after, asked, limit, overflow)
    ensures ChainOk(Program(first, ops), [before, after], [asked], limit, overflow)
  {
    hide StepOk;
  }

  lemma FreshReadyNow(h: Heap, n: nat)
    requires h.Fresh() && n <= MAX_LARGE_SIZE
    ensures h.Ready(n)
  {
    hide MainInUse, UserBlocks;
  }

  lemma NoUsers(live: Live, huge: seq<HugeEntry>)
    requires live == map[]
    ensures UserBlocks(live, huge) == map[]
  {}

  lemma FirstMatch(users: Live, mem: Words, p: int, n: nat, main: int)
    requires users == (map[])[p := BlockFor(n)] && MainInUse(users, main)
    ensures Matches(users, mem, [p], [Cell(n, map[])], main)
  {
    hide BlockFor, Base;
    var a :| a in users && !users[a].Huge? && Base(a) == main;
    assert a == p;
    forall x | x in users
      ensures IsHeld([p], [Cell(n, map[])], x)
    {
      assert [p][0] == x;
    }
  }
}
