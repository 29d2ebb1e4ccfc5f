/**
 The page table of one chunk: how many pages are free, the bit per page, the info word per page.
 `owner` is the ghost reading of it: for each page the first page of the run it lies in, -1 if free.
 */
module Chunks {
  import opened Sizes
  import opened PageBits

  /** What an info word says about a page. */
  datatype Info =
    | FRun
    | LRun(pages: int)
    | SRun(bin: int, counter: int)
    | NRun(bin: int, offset: int)

  datatype Table = Table(freePages: int, freeTail: nat, bits: seq<bool>, map_: seq<Info>)

  type Owner = seq<int>

  ghost function RunLen(info: Info): int {
    match info
    case LRun(n) => n
    case SRun(b, _) => if 0 <= b < BINS then BinPages(b) else 0
    case _ => 0
  }

  ghost predicate Shaped(t: Table, o: Owner) {
    |t.bits| == |t.map_| == |o| == PAGES && t.freeTail <= PAGES
  }

  /** Page p lies in the run that starts at o[p]. */
  ghost predicate OwnedOk(t: Table, o: Owner, p: int)
    requires Shaped(t, o) && 0 <= p < PAGES && o[p] >= 0
  {
    var s := o[p];
    && s <= p < s + RunLen(t.map_[s]) && o[s] == s
    && match t.map_[s]
       case LRun(_) => true
       case SRun(b, c) => 0 <= b < BINS && 0 <= c < 512 && s > 0 && (p > s ==> t.map_[p] == NRun(b, p - s))
       case _ => false
  }

  ghost predicate RunsWhole(t: Table, o: Owner)
    requires Shaped(t, o)
  {
    forall s, p :: 0 <= s < PAGES && o[s] == s && Spans(t, s, p) ==> p < PAGES && o[p] == s
  }

  /** The run whose info word stands at page s reaches page p. */
  ghost predicate Spans(t: Table, s: int, p: int)
    requires 0 <= s < |t.map_|
  {
    s <= p < s + RunLen(t.map_[s])
  }

  /** Number of free pages among the first k. */
  ghost function CountFree(o: Owner, k: nat): nat
    requires k <= |o|
  {
    if k == 0 then 0 else CountFree(o, k - 1) + if o[k - 1] < 0 then 1 else 0
  }

  /** free_tail is a bound: what is taken at or above it is one large run that starts below. */
  ghost predicate TailBounds(t: Table, o: Owner)
    requires Shaped(t, o)
  {
    forall p :: t.freeTail <= p < PAGES && o[p] >= 0 ==> o[p] < t.freeTail && t.map_[o[p]].LRun?
  }

  ghost predicate RunsOk(t: Table, o: Owner)
    requires Shaped(t, o)
  {
    && (forall p :: 0 <= p < PAGES ==> t.bits[p] == (o[p] >= 0))
    && (forall p :: 0 <= p < PAGES && o[p] >= 0 && o[p] < PAGES ==> OwnedOk(t, o, p))
    && (forall p :: 0 <= p < PAGES ==> -1 <= o[p] <= p)
    && RunsWhole(t, o)
    && o[0] == 0 && t.map_[0] == LRun(FIRST_PAGE)
  }

  /** The page table of a linked chunk. */
  ghost predicate TableOk(t: Table, o: Owner) {
    && Shaped(t, o)
    && RunsOk(t, o)
    && TailBounds(t, o)
    && t.freePages == CountFree(o, PAGES)
  }

  // ---- counting ----

  ghost function Assign(o: Owner, page: int, n: int, v: int): (r: Owner) {
    seq(|o|, p requires 0 <= p < |o| => if page <= p < page + n then v else o[p])
  }

  lemma {:induction false} CountAssign(o: Owner, page: int, n: int, v: int, k: nat)
    requires k <= |o| && 0 <= page && 0 <= n && page + n <= |o| && v >= 0
    requires forall p :: page <= p < page + n ==> o[p] < 0
    ensures CountFree(o, k) == CountFree(Assign(o, page, n, v), k) + (if k <= page then 0 else if k <= page + n then k - page else n)
  {
    if k > 0 {
      CountAssign(o, page, n, v, k - 1);
    }
  }

  lemma {:induction false} CountRelease(o: Owner, page: int, n: int, k: nat)
    requires k <= |o| && 0 <= page && 0 <= n && page + n <= |o|
    requires forall p :: page <= p < page + n ==> o[p] >= 0
    ensures CountFree(Assign(o, page, n, -1), k) == CountFree(o, k) + (if k <= page then 0 else if k <= page + n then k - page else n)
  {
    if k > 0 {
      CountRelease(o, page, n, k - 1);
    }
  }

  lemma {:induction false} CountBound(o: Owner, k: nat)
    requires 0 < k <= |o| && o[0] >= 0
    ensures CountFree(o, k) <= k - 1
    ensures CountFree(o, k) == k - 1 <==> forall p :: 0 < p < k ==> o[p] < 0
  {
    if k > 1 {
      CountBound(o, k - 1);
    } else {
      assert CountFree(o, 0) == 0;
    }
  }

  lemma {:induction false} CountRange(o: Owner, page: int, n: int, k: nat)
    requires k <= |o| && 0 <= page && 0 <= n && page + n <= k
    requires forall p :: page <= p < page + n ==> o[p] < 0
    ensures CountFree(o, k) >= n
  {
    if k > page + n {
      CountRange(o, page, n, k - 1);
    } else if n > 0 {
      CountRange(o, page, n - 1, k - 1);
    }
  }

  // ---- the steps of the page allocator on one table ----

  /** The tail of the page allocation: a run of n pages is taken at page. */
  function Carve(t: Table, page: int, n: int): Table
    requires 0 <= page < |t.map_| && n >= 0
  {
    t.(freePages := t.freePages - n, bits := Fill(t.bits, page, n, true), map_ := t.map_[page := LRun(n)],
       freeTail := if page == t.freeTail then page + n else t.freeTail)
  }

  lemma CarveRuns(t: Table, o: Owner, page: int, n: int)
    requires Shaped(t, o) && RunsOk(t, o) && 0 < page && 0 < n && page + n <= PAGES
    requires FreeRange(t.bits, page, n)
    requires Shaped(Carve(t, page, n), Assign(o, page, n, page))
    ensures RunsOk(Carve(t, page, n), Assign(o, page, n, page))
  {
    hide BinPages;
    var t', o' := Carve(t, page, n), Assign(o, page, n, page);
    forall p | 0 <= p < PAGES && o'[p] >= 0 && o'[p] < PAGES
      ensures OwnedOk(t', o', p)
    {
      if !(page <= p < page + n) {
        assert OwnedOk(t, o, p);
      }
    }
    forall s, p | 0 <= s < PAGES && o'[s] == s && Spans(t', s, p)
      ensures p < PAGES && o'[p] == s
    {
      if s != page {
        assert o[s] == s && Spans(t, s, p);
      }
    }
  }

  lemma CarveOk(t: Table, o: Owner, page: int, n: int)
    requires Shaped(t, o) && RunsOk(t, o) && t.freePages == CountFree(o, PAGES)
    requires 0 < page && 0 < n && page + n <= PAGES && FreeRange(t.bits, page, n)
    requires TailBounds(t, o)
    requires page + n <= t.freeTail || (page == t.freeTail && forall p :: page <= p < PAGES ==> !t.bits[p])
    ensures TableOk(Carve(t, page, n), Assign(o, page, n, page))
  {
    var t', o' := Carve(t, page, n), Assign(o, page, n, page);
    CarveRuns(t, o, page, n);
    CountAssign(o, page, n, page, PAGES);
  }

  /** Freeing the run of n pages at page. */
  function Release(t: Table, page: int, n: int): Table
    requires 0 <= page < |t.map_| && n >= 0
  {
    t.(freePages := t.freePages + n, bits := Fill(t.bits, page, n, false), map_ := t.map_[page := FRun],
       freeTail := if t.freeTail == page + n then page else t.freeTail)
  }

  /** A run other than the header starts at page. */
  ghost predicate IsStart(t: Table, o: Owner, page: int) {
    Shaped(t, o) && 0 < page < PAGES && o[page] == page
  }

  ghost predicate IsRun(t: Table, o: Owner, page: int, info: Info) {
    IsStart(t, o, page) && t.map_[page] == info
  }

  lemma ReleaseRuns(t: Table, o: Owner, page: int, n: int)
    requires TableOk(t, o) && IsStart(t, o, page) && n == RunLen(t.map_[page])
    ensures n > 0 && page + n <= PAGES && forall p :: page <= p < page + n ==> o[p] == page
    ensures Shaped(Release(t, page, n), Assign(o, page, n, -1))
    ensures RunsOk(Release(t, page, n), Assign(o, page, n, -1))
  {
    hide BinPages;
    assert OwnedOk(t, o, page);
    assert Spans(t, page, page + n - 1);
    forall p | page <= p < page + n
      ensures p < PAGES && o[p] == page
    {
      assert Spans(t, page, p);
    }
    var t', o' := Release(t, page, n), Assign(o, page, n, -1);
    forall p | 0 <= p < PAGES && o'[p] >= 0 && o'[p] < PAGES
      ensures OwnedOk(t', o', p)
    {
      assert OwnedOk(t, o, p);
    }
    forall s, p | 0 <= s < PAGES && o'[s] == s && Spans(t', s, p)
      ensures p < PAGES && o'[p] == s
    {
      assert o[s] == s && Spans(t, s, p);
    }
  }

  lemma ReleaseOk(t: Table, o: Owner, page: int, n: int)
    requires TableOk(t, o) && IsStart(t, o, page) && n == RunLen(t.map_[page])
    ensures n > 0 && page + n <= PAGES && forall p :: page <= p < page + n ==> o[p] == page
    ensures TableOk(Release(t, page, n), Assign(o, page, n, -1))
  {
    ReleaseRuns(t, o, page, n);
    CountRelease(o, page, n, PAGES);
    var t', o' := Release(t, page, n), Assign(o, page, n, -1);
    forall p | t'.freeTail <= p < PAGES && o'[p] >= 0
      ensures o'[p] < t'.freeTail && t'.map_[o'[p]].LRun?
    {
      assert OwnedOk(t, o, p);
      if t.freeTail == page + n && p >= t.freeTail {
        assert Spans(t, o[p], page + n - 1);
      }
    }
  }

  /** In-place shrinking of a large run to newN pages. */
  function Shrink(t: Table, page: int, newN: int, rest: int): Table
    requires 0 <= page < |t.map_| && newN >= 0 && rest >= 0
  {
    t.(map_ := t.map_[page := LRun(newN)], freePages := t.freePages + rest,
       bits := Fill(t.bits, page + newN, rest, false))
  }

  /** free_tail follows a run that is taken or freed right at it, and nothing else. */
  lemma TailFollows(t: Table, page: int, n: int, more: int)
    requires 0 <= page < |t.map_| && 0 <= n <= more
    ensures Carve(t, page, n).freeTail == (if page == t.freeTail then page + n else t.freeTail)
    ensures Release(t, page, n).freeTail == (if page + n == t.freeTail then page else t.freeTail)
    ensures Shrink(t, page, n, more).freeTail == t.freeTail && Grow(t, page, n, more).freeTail == t.freeTail
  {}

  lemma ShrinkOk(t: Table, o: Owner, page: int, newN: int, rest: int)
    requires TableOk(t, o) && newN > 0 && rest > 0 && IsRun(t, o, page, LRun(newN + rest))
    ensures page + newN + rest <= PAGES
    ensures forall p :: page <= p < page + newN + rest ==> o[p] == page
    ensures TableOk(Shrink(t, page, newN, rest), Assign(o, page + newN, rest, -1))
  {
    ShrinkRuns(t, o, page, newN, rest);
    CountRelease(o, page + newN, rest, PAGES);
  }

  lemma ShrinkRuns(t: Table, o: Owner, page: int, newN: int, rest: int)
    requires TableOk(t, o) && newN > 0 && rest > 0 && IsRun(t, o, page, LRun(newN + rest))
    ensures page + newN + rest <= PAGES
    ensures forall p :: page <= p < page + newN + rest ==> o[p] == page
    ensures Shaped(Shrink(t, page, newN, rest), Assign(o, page + newN, rest, -1))
    ensures RunsOk(Shrink(t, page, newN, rest), Assign(o, page + newN, rest, -1))
  {
    hide BinPages;
    assert Spans(t, page, page + newN + rest - 1);
    forall p | page <= p < page + newN + rest
      ensures p < PAGES && o[p] == page
    {
      assert Spans(t, page, p);
    }
    var t', o' := Shrink(t, page, newN, rest), Assign(o, page + newN, rest, -1);
    forall p | 0 <= p < PAGES && o'[p] >= 0 && o'[p] < PAGES
      ensures OwnedOk(t', o', p)
    {
      assert OwnedOk(t, o, p);
    }
    forall s, p | 0 <= s < PAGES && o'[s] == s && Spans(t', s, p)
      ensures p < PAGES && o'[p] == s
    {
      assert o[s] == s && Spans(t, s, p);
    }
  }

  /** In-place growing of a large run into the free pages behind it. */
  function Grow(t: Table, page: int, oldN: int, newN: int): Table
    requires 0 <= page < |t.map_| && 0 <= oldN <= newN
  {
    t.(freePages := t.freePages - (newN - oldN), bits := Fill(t.bits, page + oldN, newN - oldN, true),
       map_ := t.map_[page := LRun(newN)])
  }

  lemma GrowOk(t: Table, o: Owner, page: int, oldN: int, newN: int)
    requires TableOk(t, o) && 0 < oldN < newN && page + newN <= PAGES && IsRun(t, o, page, LRun(oldN))
    requires FreeRange(t.bits, page + oldN, newN - oldN)
    ensures TableOk(Grow(t, page, oldN, newN), Assign(o, page + oldN, newN - oldN, page))
  {
    var t', o' := Grow(t, page, oldN, newN), Assign(o, page + oldN, newN - oldN, page);
    CountAssign(o, page + oldN, newN - oldN, page, PAGES);
    GrowRuns(t, o, page, oldN, newN);
    assert OwnedOk(t, o, page);
  }

  lemma GrowRuns(t: Table, o: Owner, page: int, oldN: int, newN: int)
    requires TableOk(t, o) && 0 < oldN < newN && page + newN <= PAGES && IsRun(t, o, page, LRun(oldN))
    requires FreeRange(t.bits, page + oldN, newN - oldN)
    ensures Shaped(Grow(t, page, oldN, newN), Assign(o, page + oldN, newN - oldN, page))
    ensures RunsOk(Grow(t, page, oldN, newN), Assign(o, page + oldN, newN - oldN, page))
  {
    hide BinPages;
    var t', o' := Grow(t, page, oldN, newN), Assign(o, page + oldN, newN - oldN, page);
    forall p | 0 <= p < PAGES && o'[p] >= 0 && o'[p] < PAGES
      ensures OwnedOk(t', o', p)
    {
      if !(page + oldN <= p < page + newN) {
        assert OwnedOk(t, o, p);
      }
    }
    forall s, p | 0 <= s < PAGES && o'[s] == s && Spans(t', s, p)
      ensures p < PAGES && o'[p] == s
    {
      if s != page || p < page + oldN {
        assert o[s] == s && Spans(t, s, p);
      }
    }
  }

  /** Turning a fresh run into a run of slots: the info words of its pages. */
  function MarkSmall(t: Table, page: int, bin: int): Table
    requires 0 <= bin < BINS
  {
    t.(map_ := seq(|t.map_|, p requires 0 <= p < |t.map_| =>
        if p == page then SRun(bin, 0)
        else if page < p < page + BinPages(bin) then NRun(bin, p - page)
        else t.map_[p]))
  }

  lemma MarkSmallOk(t: Table, o: Owner, page: int, bin: int)
    requires TableOk(t, o) && 0 <= bin < BINS && IsRun(t, o, page, LRun(BinPages(bin)))
    requires page + BinPages(bin) <= t.freeTail
    ensures TableOk(MarkSmall(t, page, bin), o)
  {
    var t' := MarkSmall(t, page, bin);
    BinFacts(bin);
    hide BinPages;
    forall p | page <= p < page + BinPages(bin)
      ensures p < PAGES && o[p] == page
    {
      assert Spans(t, page, p);
    }
    forall p | 0 <= p < PAGES && o[p] >= 0 && o[p] < PAGES
      ensures OwnedOk(t', o, p)
    {
      assert OwnedOk(t, o, p);
    }
    forall s, p | 0 <= s < PAGES && o[s] == s && Spans(t', s, p)
      ensures p < PAGES && o[p] == s
    {
      assert Spans(t, s, p);
    }
  }

  /** A counter of the garbage collector changes; nothing else does. */
  function SetCounter(t: Table, page: int, bin: int, counter: int): Table
    requires 0 <= page < |t.map_|
  {
    t.(map_ := t.map_[page := SRun(bin, counter)])
  }

  lemma SetCounterOk(t: Table, o: Owner, page: int, bin: int, old_: int, counter: int)
    requires TableOk(t, o) && 0 <= bin < BINS && 0 <= counter < 512 && IsRun(t, o, page, SRun(bin, old_))
    ensures TableOk(SetCounter(t, page, bin, counter), o)
  {
    hide BinPages;
    var t' := SetCounter(t, page, bin, counter);
    forall p | 0 <= p < PAGES && o[p] >= 0 && o[p] < PAGES
      ensures OwnedOk(t', o, p)
    {
      assert OwnedOk(t, o, p);
    }
    forall s, p | 0 <= s < PAGES && o[s] == s && Spans(t', s, p)
      ensures p < PAGES && o[p] == s
    {
      assert Spans(t, s, p);
    }
  }

  /** A chunk whose pages but the header are all free, as a new or a cached chunk is. */
  function FreshBits(): seq<bool> { seq(PAGES, p => p == 0) }

  ghost function FreshOwner(): Owner { seq(PAGES, p => if p == 0 then 0 else -1) }

  /** All pages past the first word of the bitmap are free, as in zeroed or cached memory. */
  ghost predicate AlmostSpare(t: Table) {
    |t.bits| == |t.map_| == PAGES && forall p :: 64 <= p < PAGES ==> !t.bits[p]
  }

  /** Initialising a chunk header: only the first word of the bitmap and the first info word are written. */
  function InitTable(t: Table): Table
    requires |t.map_| > 0
  {
    t.(freePages := PAGES - FIRST_PAGE, freeTail := FIRST_PAGE, map_ := t.map_[0 := LRun(FIRST_PAGE)],
       bits := seq(|t.bits|, p requires 0 <= p < |t.bits| => if p < 64 then p == 0 else t.bits[p]))
  }

  lemma InitTableOk(t: Table)
    requires AlmostSpare(t)
    ensures |t.map_| > 0 && TableOk(InitTable(t), FreshOwner()) && InitTable(t).bits == FreshBits()
    ensures InitTable(t).freePages == PAGES - FIRST_PAGE && InitTable(t).freeTail == FIRST_PAGE
  {
    CountBound(FreshOwner(), PAGES);
  }

  /** When all pages but the header are free the bitmap is the fresh one. */
  lemma EmptyTable(t: Table, o: Owner)
    requires TableOk(t, o)
    ensures t.freePages == PAGES - FIRST_PAGE <==> forall p :: 0 < p < PAGES ==> o[p] < 0
    ensures t.freePages == PAGES - FIRST_PAGE ==> t.bits == FreshBits()
    ensures 0 <= t.freePages < PAGES
  {
    CountBound(o, PAGES);
  }

  /** The search moved free_tail down to where the last free run starts. */
  lemma TailMoved(t: Table, o: Owner, tail: nat)
    requires TableOk(t, o) && tail <= PAGES
    requires tail == t.freeTail || forall p :: tail <= p < PAGES ==> !t.bits[p]
    ensures TableOk(t.(freeTail := tail), o)
  {
    var t' := t.(freeTail := tail);
    forall p | 0 <= p < PAGES && o[p] >= 0 && o[p] < PAGES
      ensures OwnedOk(t', o, p)
    {
      assert OwnedOk(t, o, p);
    }
  }

  lemma TailOkFromOwner(t: Table, o: Owner)
    requires TableOk(t, o)
    ensures TailOk(t.bits, t.freeTail) && t.bits[0]
  {
    forall p, q | t.freeTail <= p < |t.bits| && t.bits[p] && 0 <= q <= p && t.freeTail <= q + 1
      ensures t.bits[q]
    {
      assert OwnedOk(t, o, p);
      assert o[q] == o[p];
    }
  }

  // ---- the run a page lies in ----

  datatype PageRef = NoPage | PageRef(start: int, info: Info)

  /** The run page p lies in; free pages and the header page lie in none. */
  ghost function PageAt(t: Table, o: Owner, p: int): PageRef {
    if Shaped(t, o) && 0 <= p < PAGES && 0 < o[p] < PAGES then PageRef(o[p], t.map_[o[p]]) else NoPage
  }

  ghost predicate PagesChanged(t: Table, o: Owner, t': Table, o': Owner, lo: int, hi: int, ref: PageRef) {
    forall p :: 0 <= p < PAGES ==> PageAt(t', o', p) == if lo <= p < hi then ref else PageAt(t, o, p)
  }

  ghost predicate RunInfoOk(info: Info) {
    info.LRun? || (info.SRun? && 0 <= info.bin < BINS && 0 <= info.counter < 512)
  }

  /** A run is a stretch of pages, each of which sees it. */
  lemma PageSpan(t: Table, o: Owner, p: int)
    requires TableOk(t, o) && PageAt(t, o, p).PageRef?
    ensures var PageRef(s, info) := PageAt(t, o, p);
            && 0 < s <= p < s + RunLen(info) <= PAGES && IsRun(t, o, s, info) && RunInfoOk(info)
            && (forall q :: s <= q < s + RunLen(info) ==> PageAt(t, o, q) == PageAt(t, o, p))
            && (p == s ==> t.map_[p] == info) && (p > s && info.SRun? ==> t.map_[p] == NRun(info.bin, p - s))
  {
    var s := o[p];
    hide RunLen;
    assert OwnedOk(t, o, p);
    RunPages(t, o, s);
  }

  lemma RunPages(t: Table, o: Owner, s: int)
    requires TableOk(t, o) && 0 <= s < PAGES && o[s] == s
    ensures RunLen(t.map_[s]) > 0 && s + RunLen(t.map_[s]) <= PAGES
    ensures forall p :: s <= p < s + RunLen(t.map_[s]) ==> o[p] == s
    ensures forall p :: 0 <= p < PAGES && o[p] == s ==> s <= p < s + RunLen(t.map_[s])
  {
    hide RunLen;
    assert OwnedOk(t, o, s);
    assert Spans(t, s, s + RunLen(t.map_[s]) - 1);
    forall p | s <= p < s + RunLen(t.map_[s])
      ensures p < PAGES && o[p] == s
    {
      assert Spans(t, s, p);
    }
    forall p | 0 <= p < PAGES && o[p] == s
      ensures s <= p < s + RunLen(t.map_[s])
    {
      assert OwnedOk(t, o, p);
    }
  }

  lemma StartAt(t: Table, o: Owner, page: int)
    requires IsStart(t, o, page)
    ensures PageAt(t, o, page) == PageRef(page, t.map_[page])
  {}

  lemma OwnersStart(t: Table, o: Owner)
    requires TableOk(t, o)
    ensures forall p :: 0 <= p < PAGES && o[p] >= 0 ==> 0 <= o[p] < PAGES && o[o[p]] == o[p]
  {
    forall p | 0 <= p < PAGES && o[p] >= 0
      ensures 0 <= o[p] < PAGES && o[o[p]] == o[p]
    {
      assert OwnedOk(t, o, p);
    }
  }

  lemma CarvePages(t: Table, o: Owner, page: int, n: int)
    requires TableOk(t, o) && 0 < page && 0 < n && page + n <= PAGES && FreeRange(t.bits, page, n)
    ensures PagesChanged(t, o, Carve(t, page, n), Assign(o, page, n, page), page, page + n, PageRef(page, LRun(n)))
    ensures forall p :: page <= p < page + n ==> PageAt(t, o, p) == NoPage
  {
    OwnersStart(t, o);
    assert Shaped(t, o) && forall p :: 0 <= p < PAGES ==> t.bits[p] == (o[p] >= 0);
    assert !t.bits[page];
    hide TableOk, RunsOk, RunsWhole, TailBounds;
  }

  lemma ReleasePages(t: Table, o: Owner, page: int, n: int)
    requires TableOk(t, o) && IsStart(t, o, page) && n == RunLen(t.map_[page])
    ensures PagesChanged(t, o, Release(t, page, n), Assign(o, page, n, -1), page, page + n, NoPage)
  {
    RunPages(t, o, page);
    assert Shaped(t, o);
    hide TableOk, RunsOk, RunLen;
  }

  /** A large run at page was cut to newN pages; the rest pages behind it became free. */
  ghost predicate PagesCut(t: Table, o: Owner, t': Table, o': Owner, page: int, newN: int, rest: int) {
    forall p :: 0 <= p < PAGES ==>
      PageAt(t', o', p) ==
      if page <= p < page + newN then PageRef(page, LRun(newN))
      else if page + newN <= p < page + newN + rest then NoPage else PageAt(t, o, p)
  }

  lemma ShrinkPages(t: Table, o: Owner, page: int, newN: int, rest: int)
    requires TableOk(t, o) && newN > 0 && rest > 0 && IsRun(t, o, page, LRun(newN + rest)) && 0 <= page < |t.map_|
    ensures PagesCut(t, o, Shrink(t, page, newN, rest), Assign(o, page + newN, rest, -1), page, newN, rest)
    ensures page + newN + rest <= PAGES
  {
    RunPages(t, o, page);
    assert RunLen(t.map_[page]) == newN + rest;
    hide TableOk, RunsOk, RunLen;
    var t', o' := Shrink(t, page, newN, rest), Assign(o, page + newN, rest, -1);
    forall p | 0 <= p < PAGES
      ensures PageAt(t', o', p) ==
              if page <= p < page + newN then PageRef(page, LRun(newN))
              else if page + newN <= p < page + newN + rest then NoPage else PageAt(t, o, p)
    {}
  }

  lemma GrowPages(t: Table, o: Owner, page: int, oldN: int, newN: int)
    requires TableOk(t, o) && 0 < oldN < newN && page + newN <= PAGES && IsRun(t, o, page, LRun(oldN))
    requires FreeRange(t.bits, page + oldN, newN - oldN)
    ensures PagesChanged(t, o, Grow(t, page, oldN, newN), Assign(o, page + oldN, newN - oldN, page), page, page + newN, PageRef(page, LRun(newN)))
    ensures forall p :: page + oldN <= p < page + newN ==> PageAt(t, o, p) == NoPage
  {
    RunPages(t, o, page);
    assert Shaped(t, o) && forall p :: 0 <= p < PAGES ==> t.bits[p] == (o[p] >= 0);
    hide TableOk, RunsOk, TailBounds;
  }

  ghost function OwnerOf(o: Owner, p: int): int {
    if 0 <= p < |o| then o[p] else -1
  }

  lemma MarkSmallPages(t: Table, o: Owner, page: int, bin: int)
    requires TableOk(t, o) && 0 <= bin < BINS && IsRun(t, o, page, LRun(BinPages(bin)))
    ensures PagesChanged(t, o, MarkSmall(t, page, bin), o, page, page + BinPages(bin), PageRef(page, SRun(bin, 0)))
  {
    RunPages(t, o, page);
    OwnersStart(t, o);
    assert Shaped(t, o);
    hide TableOk, RunsOk, BinPages;
    var t' := MarkSmall(t, page, bin);
    forall p | 0 <= p < PAGES
      ensures PageAt(t', o, p) == if page <= p < page + BinPages(bin) then PageRef(page, SRun(bin, 0)) else PageAt(t, o, p)
    {
      assert o[p] >= 0 ==> o[p] < PAGES && OwnerOf(o, o[p]) == o[p];
    }
  }

  lemma CounterPages(t: Table, o: Owner, page: int, bin: int, old_: int, counter: int)
    requires TableOk(t, o) && 0 <= bin < BINS && IsRun(t, o, page, SRun(bin, old_))
    ensures PagesChanged(t, o, SetCounter(t, page, bin, counter), o, page, page + BinPages(bin), PageRef(page, SRun(bin, counter)))
  {
    RunPages(t, o, page);
    assert Shaped(t, o);
    hide TableOk, RunsOk, BinPages;
  }

  lemma StartFacts(t: Table, o: Owner, page: int)
    requires IsStart(t, o, page) || exists info :: IsRun(t, o, page, info)
    ensures IsStart(t, o, page) && 0 < page < PAGES == |t.map_| == |o| && o[page] == page
  {}

  lemma LargeRunFits(t: Table, o: Owner, page: int, n: int)
    requires TableOk(t, o) && IsRun(t, o, page, LRun(n))
    ensures 0 < n && page + n <= PAGES
  {
    RunPages(t, o, page);
  }

  lemma SmallRunFits(t: Table, o: Owner, page: int, bin: int, counter: int)
    requires TableOk(t, o) && 0 <= bin < BINS && IsRun(t, o, page, SRun(bin, counter))
    ensures 0 < BinPages(bin) && page + BinPages(bin) <= PAGES
  {
    hide BinPages;
    RunPages(t, o, page);
  }

  lemma TableInside(t: Table, o: Owner)
    requires TableOk(t, o)
    ensures Shaped(t, o) && RunsOk(t, o) && TailBounds(t, o) && t.freePages == CountFree(o, PAGES)
  {}
}
