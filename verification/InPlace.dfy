/** Reallocation: what changes in place, and what a copy carries over. */
module InPlace {
  import opened Sizes
  import opened PageBits
  import opened Chunks
  import opened Blocks
  import opened Ledger
  import opened Memory
  import opened Steps
  import opened Slots
  import opened HugeBlocks

  /** The word at distance d from an address. */
  function At(mem: Words, base: int, d: int): int { Rd(mem, base + d) }

  /** The first n bytes at p before are the first n bytes at r now. */
  ghost predicate Copied(mem: Words, mem': Words, p: int, r: int, n: int) {
    forall d :: 0 <= d < n ==> At(mem', r, d) == At(mem, p, d)
  }

  lemma CopiedNone(mem: Words, mem': Words, p: int, r: int)
    ensures Copied(mem, mem', p, r, 0)
  {}

  /** One more byte is copied; what was copied before stays. */
  lemma CopiedNext(mem: Words, mem': Words, p: int, r: int, i: int, v: int)
    requires Copied(mem, mem', p, r, i) && v == At(mem, p, i) && i >= 0
    ensures Copied(mem, mem'[r + i := v], p, r, i + 1)
  {
    forall d | 0 <= d < i + 1
      ensures At(mem'[r + i := v], r, d) == At(mem, p, d)
    {
      if d < i { assert At(mem', r, d) == At(mem, p, d); }
    }
  }

  lemma SameAt(mem: Words, mem': Words, live: Live, p: int, i: int)
    requires SameBlocks(mem, mem', live) && p in live && 0 <= i < BlockSize(live[p])
    ensures At(mem', p, i) == At(mem, p, i) && At(mem, p, i) == Rd(mem, p + i) && InBlock(live, p, p + i)
    ensures At(mem', p, i) == Rd(mem', p + i)
  {
    assert InBlock(live, p, p + i);
  }

  /** A block that kept its contents counts as copied onto itself. */
  lemma CopiedSame(mem: Words, mem': Words, live: Live, p: int, n: int)
    requires SameBlocks(mem, mem', live) && p in live && n <= BlockSize(live[p])
    ensures Copied(mem, mem', p, p, n)
  {
    forall d | 0 <= d < n
      ensures At(mem', p, d) == At(mem, p, d)
    {
      SameAt(mem, mem', live, p, d);
    }
  }

  lemma CopiedThen(m0: Words, m1: Words, m2: Words, m3: Words, live1: Live, live3: Live, p: int, r: int, n: int)
    requires Copied(m1, m2, p, r, n) && SameBlocks(m0, m1, live1) && SameBlocks(m2, m3, live3)
    requires p in live1 && n <= BlockSize(live1[p]) && r in live3 && n <= BlockSize(live3[r])
    ensures Copied(m0, m3, p, r, n)
  {
    forall d | 0 <= d < n
      ensures At(m3, r, d) == At(m0, p, d)
    {
      SameAt(m0, m1, live1, p, d);
      SameAt(m2, m3, live3, r, d);
      assert At(m2, r, d) == At(m1, p, d);
    }
  }

  // ---- large blocks ----

  lemma QuietCut(T: Tables, O: Owners, T': Tables, O': Owners, r: int, mid: int, end: int, n: int)
    requires RunsCut(T, O, T', O', r, mid, end, n) && Quiet(T, O)
    ensures Quiet(T', O')
  {
    hide RunOf;
    forall a
      ensures CounterOf(RunOf(T', O', a)) == 0
    {
      assert CounterOf(RunOf(T, O, a)) == 0;
      assert RunOf(T', O', a) == if r <= a < mid then RunRef(r, LRun(n)) else if mid <= a < end then NoRun else RunOf(T, O, a);
    }
  }

  /** The tail pages of a large block are freed. */
  lemma ShrinkAll(T: Tables, O: Owners, free: FreeLists, live: Live, p: int, newN: int, rest: int)
    requires TablesOk(T, O) && LedgerOk(T, O, free, live, {}) && LiveAs(live, p, Large(newN + rest)) && newN > 0 && rest > 0 && Quiet(T, O)
    ensures Base(p) in T && Base(p) in O && 0 < PageNum(p) < |T[Base(p)].map_|
    ensures var T', O' := T[Base(p) := Shrink(T[Base(p)], PageNum(p), newN, rest)],
                          O[Base(p) := Assign(O[Base(p)], PageNum(p) + newN, rest, -1)];
            TablesOk(T', O') && LedgerOk(T', O', free, live[p := Large(newN)], {}) && Quiet(T', O')
  {
    hide *;
    LargeAt(T, O, free, live, p, newN + rest);
    PageInChunk(p);
    ShrinkStep(T, O, Base(p), PageNum(p), newN, rest);
    var T', O' := T[Base(p) := Shrink(T[Base(p)], PageNum(p), newN, rest)],
                  O[Base(p) := Assign(O[Base(p)], PageNum(p) + newN, rest, -1)];
    CutLarge(T, O, T', O', free, live, {}, p, newN, rest);
    QuietCut(T, O, T', O', p, p + newN * PAGE_SIZE, p + (newN + rest) * PAGE_SIZE, newN);
  }

  lemma PageInChunk(p: int)
    ensures 0 <= PageNum(p) < PAGES
  {}

  /** Free pages behind a large block are added to it. */
  lemma GrowAll(T: Tables, O: Owners, free: FreeLists, live: Live, p: int, oldN: int, newN: int)
    requires TablesOk(T, O) && LedgerOk(T, O, free, live, {}) && LiveAs(live, p, Large(oldN)) && oldN < newN && Quiet(T, O)
    requires Base(p) in T && PageNum(p) + newN <= PAGES && 0 < oldN && |T[Base(p)].bits| == PAGES
    requires FreeRange(T[Base(p)].bits, PageNum(p) + oldN, newN - oldN)
    ensures Base(p) in O && 0 < PageNum(p) < |T[Base(p)].map_|
    ensures var T', O' := T[Base(p) := Grow(T[Base(p)], PageNum(p), oldN, newN)],
                          O[Base(p) := Assign(O[Base(p)], PageNum(p) + oldN, newN - oldN, PageNum(p))];
            TablesOk(T', O') && LedgerOk(T', O', free, live[p := Large(newN)], {}) && Quiet(T', O')
  {
    hide *;
    LargeAt(T, O, free, live, p, oldN);
    PageInChunk(p);
    GrowStep(T, O, Base(p), PageNum(p), oldN, newN);
    var T', O' := T[Base(p) := Grow(T[Base(p)], PageNum(p), oldN, newN)],
                  O[Base(p) := Assign(O[Base(p)], PageNum(p) + oldN, newN - oldN, PageNum(p))];
    GrowLarge(T, O, T', O', free, live, {}, p, oldN, newN);
    QuietLarge(p, newN);
    QuietStep(T, O, T', O', p, p + newN * PAGE_SIZE, RunRef(p, LRun(newN)));
  }

  // ---- the blocks of the user ----

  lemma UserChange(huge: seq<HugeEntry>, live: Live, p: int, b: Block)
    requires p in UserBlocks(live, huge)
    ensures UserBlocks(live[p := b], huge) == UserBlocks(live, huge)[p := b] && p in live
  {
    hide IsNode;
  }

  lemma UserHugeChange(huge: seq<HugeEntry>, huge': seq<HugeEntry>, live: Live, p: int, b: Block)
    requires p in UserBlocks(live, huge) && forall a :: IsNode(huge', a) <==> IsNode(huge, a)
    ensures UserBlocks(live[p := b], huge') == UserBlocks(live, huge)[p := b] && p in live
  {
    hide IsNode;
  }

  /** Contents after a move: of the users other than p, nothing changed. */
  lemma OthersSame(m0: Words, m1: Words, m2: Words, m3: Words, live0: Live, live1: Live, users0: Live, users3: Live, p: int, r: int)
    requires SameBlocks(m0, m1, live0) && SameBlocks(m1, m2, live1 - {r}) && SameBlocks(m2, m3, users3)
    requires forall a :: a in users0 ==> a in live0 && live0[a] == users0[a] && a in live1 && live1[a] == users0[a] && a != r
    requires forall a :: a in users0 && a != p ==> a in users3 && users3[a] == users0[a]
    ensures SameBlocks(m0, m3, users0 - {p})
  {
    hide SameBlocks, BlockSize;
    var rest := users0 - {p};
    SameBlocksLess(m0, m1, live0, rest);
    SameBlocksLess(m1, m2, live1 - {r}, rest);
    SameBlocksLess(m2, m3, users3, rest);
    SameBlocksTrans(m0, m1, m2, rest);
    SameBlocksTrans(m0, m2, m3, rest);
  }

  /** n pages from page on are inside the chunk and free. */
  predicate FreeBehind(bits: seq<bool>, page: int, n: int) {
    0 <= page && 0 <= n && page + n <= |bits| && forall i :: page <= i < page + n ==> !bits[i]
  }

  /** The pages a run of oldN pages needs to become one of newN pages are inside its chunk and free. */
  ghost predicate CanGrow(T: Tables, p: int, oldN: int, newN: int) {
    && PageNum(p) + newN <= PAGES && Base(p) in T && |T[Base(p)].bits| == PAGES
    && FreeBehind(T[Base(p)].bits, PageNum(p) + oldN, newN - oldN)
  }

  lemma CanGrowIs(T: Tables, p: int, oldN: int, newN: int)
    ensures CanGrow(T, p, oldN, newN) <==>
            PageNum(p) + newN <= PAGES && Base(p) in T && |T[Base(p)].bits| == PAGES
            && FreeBehind(T[Base(p)].bits, PageNum(p) + oldN, newN - oldN)
  {
    hide FreeBehind, Base, PageNum;
  }

  lemma FreeBehindIs(bits: seq<bool>, page: int, oldN: int, newN: int)
    requires |bits| == PAGES && 0 <= page && 0 < oldN < newN
    ensures page + oldN >= 0 && newN - oldN >= 0
    ensures page + newN <= PAGES ==> (FreeBehind(bits, page + oldN, newN - oldN) <==> FreeRange(bits, page + oldN, newN - oldN))
  {}

  lemma LargeSizes(live: Live, p: int, n: int)
    requires LiveAs(live, p, Large(n))
    ensures p in live && live[p] == Large(n) && BlockSize(live[p]) == n * PAGE_SIZE
  {}

  lemma ChangeNothing(live: Live, huge: seq<HugeEntry>, p: int, n: int)
    requires LiveAs(live, p, Large(n))
    ensures live[p := Large(n)] == live
  {}

  lemma SplitSum(n: int, newN: int, live: Live, p: int)
    requires newN < n && LiveAs(live, p, Large(n))
    ensures LiveAs(live, p, Large(newN + (n - newN)))
    ensures newN * PAGE_SIZE == n * PAGE_SIZE - (n - newN) * PAGE_SIZE && BlockSize(Large(newN)) == newN * PAGE_SIZE
    ensures (n - newN) * PAGE_SIZE >= 0
  {}

  lemma MorePages(n: int, newN: int)
    ensures newN * PAGE_SIZE == n * PAGE_SIZE + (newN - n) * PAGE_SIZE && BlockSize(Large(newN)) == newN * PAGE_SIZE
  {}

  lemma HugeSizes(live: Live, p: int, n: int)
    requires LiveAs(live, p, Huge(n))
    ensures p in live && live[p] == Huge(n) && BlockSize(live[p]) == n && LiveHuge(live, p)
    ensures forall m :: BlockSize(Huge(m)) == m
  {}

  lemma HugeFor(bytes: int)
    requires bytes > MAX_LARGE_SIZE
    ensures bytes > 0 && BlockFor(bytes) == Huge(WholePages(bytes)) && WholePages(bytes) > 0 && BlockSize(BlockFor(bytes)) == WholePages(bytes)
  {}

  lemma EntryIndex(huge: seq<HugeEntry>, e: HugeEntry) returns (k: nat)
    requires e in huge
    ensures k < |huge| && huge[k] == e
  {
    k :| 0 <= k < |huge| && huge[k] == e;
  }

  /** A huge block changing its size does not concern the main chunk. */
  lemma MainKept(live: Live, p: int, b: Block, main: int)
    requires LiveHuge(live, p) && MainInUse(live, main)
    ensures MainInUse(live[p := b], main)
  {
    hide Base;
    var a :| a in live && !live[a].Huge? && Base(a) == main;
    assert a in live[p := b] && live[p := b][a] == live[a];
  }

  lemma HugeIsLive(live: Live, p: int)
    requires LiveHuge(live, p)
    ensures p in live && live[p].Huge?
  {}

  // ---- moving ----

  /** Every block handed out before is handed out still. */
  ghost predicate Grown(live: Live, live': Live) {
    forall a :: a in live ==> a in live' && live'[a] == live[a]
  }

  lemma GrownByOne(live: Live, p: int, b: Block)
    requires p !in live
    ensures Grown(live, live[p := b])
  {}

  lemma GrownByTwo(live: Live, p: int, b: Block, q: int, c: Block)
    requires p !in live && q !in live
    ensures Grown(live, live[p := b][q := c])
  {}

  /** The state after a move, seen from before it. */
  lemma Moved(m0: Words, m1: Words, m2: Words, m3: Words, live0: Live, live1: Live, huge0: seq<HugeEntry>, huge1: seq<HugeEntry>,
              users3: Live, p: int, r: int, b: Block, n: int)
    requires SameBlocks(m0, m1, live0) && SameBlocks(m1, m2, live1 - {r}) && SameBlocks(m2, m3, users3)
    requires Grown(live0, live1) && p in UserBlocks(live0, huge0) && r !in live0 && Copied(m1, m2, p, r, n)
    requires UserBlocks(live1, huge1) == UserBlocks(live0, huge0)[r := b] && users3 == UserBlocks(live1, huge1) - {p}
    requires n <= BlockSize(live0[p]) && n <= BlockSize(b)
    ensures SameBlocks(m0, m3, UserBlocks(live0, huge0) - {p}) && Copied(m0, m3, p, r, n)
    ensures users3 == (UserBlocks(live0, huge0) - {p})[r := b]
  {
    hide SameBlocks, BlockSize, Copied, IsNode;
    UserLess(huge0, live0);
    var users0 := UserBlocks(live0, huge0);
    assert r !in users0;
    OthersSame(m0, m1, m2, m3, live0, live1, users0, users3, p, r);
    CopiedThen(m0, m1, m2, m3, live0, users3, p, r, n);
  }

  lemma CopiedLater(m0: Words, m1: Words, m2: Words, users: Live, p: int, r: int, n: int)
    requires SameBlocks(m0, m1, users) && p in users && n <= BlockSize(users[p]) && Copied(m1, m2, p, r, n)
    requires SameBlocks(m1, m2, users - {p})
    ensures Copied(m0, m2, p, r, n) && SameBlocks(m0, m2, users - {p})
  {
    forall d | 0 <= d < n
      ensures At(m2, r, d) == At(m0, p, d)
    {
      SameAt(m0, m1, users, p, d);
      assert At(m2, r, d) == At(m1, p, d);
    }
    hide SameBlocks, BlockSize;
    SameBlocksLess(m0, m1, users, users - {p});
    SameBlocksTrans(m0, m1, m2, users - {p});
  }

  function Min(a: int, b: int): (m: int)
    ensures m <= a && m <= b && (m == a || m == b)
  {
    if a < b then a else b
  }

  lemma UsersKeepMain(users: Live, p: int, r: int, b: Block, main: int)
    requires MainInUse(users - {p}, main) && p != r && r !in users
    ensures MainInUse(users[r := b] - {p}, main)
  {
    MainMore(users - {p}, users[r := b] - {p}, main);
  }

  lemma CopiedShort(mem: Words, mem': Words, p: int, r: int, n: int)
    ensures n <= 0 ==> Copied(mem, mem', p, r, n)
  {}

  /** A byte of the source still reads as before. */
  lemma SourceByte(m0: Words, m1: Words, live: Live, p: int, r: int, i: int)
    requires SameBlocks(m0, m1, live - {r}) && p in live && p != r && 0 <= i < BlockSize(live[p])
    requires r in live && i < BlockSize(live[r])
    ensures Rd(m1, p + i) == At(m0, p, i) && InBlock(live, r, r + i)
  {
    SameAt(m0, m1, live - {r}, p, i);
  }

  lemma BothThere(live0: Live, huge0: seq<HugeEntry>, live: Live, huge: seq<HugeEntry>, p: int, r: int, b: Block)
    requires p in UserBlocks(live0, huge0) && UserBlocks(live, huge) == UserBlocks(live0, huge0)[r := b] && r !in live0 && Grown(live0, live)
    ensures p in UserBlocks(live, huge) && r in UserBlocks(live, huge) && p != r && p in live && r in live
    ensures live[p] == live0[p] && live[r] == b && r !in UserBlocks(live0, huge0)
  {
    hide IsNode;
    UserLess(huge, live);
    UserLess(huge0, live0);
    assert UserBlocks(live, huge)[r] == b;
  }

  /** A request of the same bin keeps a small block where it is. */
  method SameBin(bin: int, bytes: int) returns (same: bool)
    requires 0 <= bytes
    ensures same <==> BlockFor(bytes) == Small(bin)
  {
    same := false;
    if bytes <= MAX_SMALL_SIZE {
      var b := SmallSizeToBin(bytes);
      same := b == bin;
    }
  }

  lemma SameUser(live: Live, huge: seq<HugeEntry>, p: int)
    requires p in UserBlocks(live, huge)
    ensures p in live && UserBlocks(live, huge)[p := live[p]] == UserBlocks(live, huge)
  {}

  lemma HugeNeeds(live: Live, p: int, bytes: int)
    requires p in live && live[p].Huge? && 0 <= bytes
    ensures bytes <= MAX_LARGE_SIZE ==> live[p] != BlockFor(bytes)
    ensures LiveHuge(live, p) && !Shortened(live[p], bytes)
  {}

  lemma ChunkNeeds(live: Live, p: int, bytes: int)
    requires p in live && !live[p].Huge? && 0 <= bytes
    ensures live[p].Large? && !(MAX_SMALL_SIZE < bytes <= MAX_LARGE_SIZE) ==> live[p] != BlockFor(bytes)
    ensures live[p].Large? && MAX_SMALL_SIZE < bytes <= MAX_LARGE_SIZE ==> BlockFor(bytes) == Large(PageCount(bytes))
    ensures Shortened(live[p], bytes) ==> live[p].Large? && MAX_SMALL_SIZE < bytes <= MAX_LARGE_SIZE && PageCount(bytes) <= live[p].pages
  {}

  /** A large block that is to be as long or shorter, and large still. */
  predicate Shortened(b: Block, bytes: int) {
    b.Large? && MAX_SMALL_SIZE < bytes <= MAX_LARGE_SIZE && PageCount(bytes) <= b.pages
  }

  lemma NullMoved(live: Live, huge: seq<HugeEntry>, m0: Words, m1: Words, r: int, b: Block)
    requires SameBlocks(m0, m1, live) && 0 !in live
    ensures SameBlocks(m0, m1, UserBlocks(live, huge)) && SameBlocks(m0, m1, UserBlocks(live, huge) - {0})
    ensures UserBlocks(live, huge)[r := b] == (UserBlocks(live, huge) - {0})[r := b]
  {
    hide SameBlocks, IsNode, BlockSize;
    UserSameAll(m0, m1, huge, live);
    SameBlocksLess(m0, m1, live, UserBlocks(live, huge) - {0});
    assert UserBlocks(live, huge) - {0} == UserBlocks(live, huge);
  }

  lemma InPlaceFacts(live: Live, huge: seq<HugeEntry>, m0: Words, m1: Words, p: int, b: Block, bytes: int, copySize: int)
    requires p in UserBlocks(live, huge) && SameBlocks(m0, m1, UserBlocks(live, huge)) && p in live
    ensures UserBlocks(live, huge)[p := b] == (UserBlocks(live, huge) - {p})[p := b]
    ensures SameBlocks(m0, m1, UserBlocks(live, huge) - {p}) && Copied(m0, m1, p, p, Min(BlockSize(live[p]), copySize))
    ensures UserBlocks(live, huge)[p] == live[p]
  {
    hide SameBlocks, IsNode, BlockSize, Copied;
    SameBlocksLess(m0, m1, UserBlocks(live, huge), UserBlocks(live, huge) - {p});
    CopiedSame(m0, m1, UserBlocks(live, huge), p, Min(BlockSize(live[p]), copySize));
  }

  /** A new block that is no other block keeps what else is in the main chunk. */
  lemma UsersKeptMain(users: Live, p: int, r: int, b: Block, main: int)
    requires MainInUse(users - {p}, main) && (r == p || r !in users)
    ensures MainInUse((users - {p})[r := b], main)
  {
    MainMore(users - {p}, (users - {p})[r := b], main);
  }
}
