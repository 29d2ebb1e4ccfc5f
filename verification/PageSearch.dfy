/** The best-fit page search on the words of the bitmap, as one pass of shifting word tricks. */
module PageSearch {
  import opened Words
  import opened WordCounts
  import opened PageBits
  import opened PageMap

  /** The word the scan stands at, with the part already seen masked out. */
  datatype Window = Window(word: bv64) {
    predicate Full() { word == ALL_ONES }

    predicate Empty() { word == 0 }

    function Ones(): nat { TrailingOnes(word) }

    function Zeros(): nat
      requires !Empty()
    {
      TrailingZeros(word)
    }

    method Nts() returns (n: nat)
      ensures n == Ones()
    {
      n := WordCounts.Nts(word);
    }

    method Ntz() returns (n: nat)
      requires !Empty()
      ensures n == Zeros()
    {
      n := WordCounts.Ntz(word);
    }

    /** t & (t + 1) */
    function Strip(): Window { Window(Words.Strip(word)) }

    /** t | (t - 1) */
    function Fill(): Window { Window(Words.Fill(word)) }
  }

  function WindowAt(freeMap: seq<bv64>, i: nat): Window
    requires i < |freeMap|
  {
    Window(freeMap[i])
  }

  /** tmp holds word i / 64 of the row with every bit below page lo set. */
  ghost predicate SetBelow(bits: seq<bool>, tmp: Window, i: nat, lo: nat)
    requires i + 64 <= |bits|
  {
    forall k: nat :: k < 64 ==> (Bit(tmp.word, k) <==> i + k < lo || bits[i + k])
  }

  /** tmp holds word i / 64 of the row with every bit up to page hi clear. */
  ghost predicate ClearUpTo(bits: seq<bool>, tmp: Window, i: nat, hi: nat)
    requires i + 64 <= |bits|
  {
    forall k: nat :: k < 64 ==> (Bit(tmp.word, k) <==> i + k > hi && bits[i + k])
  }

  lemma WordAt(ws: seq<bv64>, w: nat)
    requires w < |ws|
    ensures SetBelow(Bits(ws), Window(ws[w]), 64 * w, 64 * w)
    ensures forall hi: nat :: hi < 64 * w ==> ClearUpTo(Bits(ws), Window(ws[w]), 64 * w, hi)
  {
    hide Bit, Low, Half;
    forall k: nat | k < 64
      ensures Bit(ws[w], k) == Bits(ws)[64 * w + k]
    {
      assert (64 * w + k) / 64 == w && (64 * w + k) % 64 == k;
    }
  }

  lemma {:induction false} SkipTaken(bits: seq<bool>, i: nat, j: nat)
    requires i <= j <= |bits| && forall p :: i <= p < j ==> bits[p]
    ensures FirstClear(bits, i) == FirstClear(bits, j)
    decreases j - i
  {
    if i < j {
      SkipTaken(bits, i + 1, j);
    }
  }

  lemma AllTaken(bits: seq<bool>, tmp: Window, i: nat, lo: nat)
    requires i + 64 <= |bits| && i <= lo <= i + 64 && SetBelow(bits, tmp, i, lo) && tmp.Full()
    ensures FirstClear(bits, lo) == FirstClear(bits, i + 64)
  {
    hide Bit, Low, Half;
    FullWord(tmp.word);
    forall p | lo <= p < i + 64
      ensures bits[p]
    {
      assert Bit(tmp.word, p - i);
    }
    SkipTaken(bits, lo, i + 64);
  }

  lemma FirstFree(bits: seq<bool>, tmp: Window, i: nat, lo: nat)
    requires i + 64 <= |bits| && i <= lo <= i + 64 && SetBelow(bits, tmp, i, lo) && !tmp.Full()
    ensures var page := i + TrailingOnes(tmp.word);
            lo <= page < i + 64 && FirstClear(bits, lo) == page && ClearUpTo(bits, tmp.Strip(), i, page)
  {
    hide Bit, Low, Half, Words.Strip, TrailingOnes;
    var n := TrailingOnes(tmp.word);
    TrailingOnesBits(tmp.word);
    assert !Bit(tmp.word, n);
    forall p | lo <= p < i + n
      ensures bits[p]
    {
      assert Bit(tmp.word, p - i);
    }
    SkipTaken(bits, lo, i + n);
    forall k: nat | k < 64
      ensures Bit(tmp.Strip().word, k) <==> i + k > i + n && bits[i + k]
    {
      StripOnes(tmp.word, k);
    }
  }

  lemma NoneTaken(bits: seq<bool>, tmp: Window, i: nat, page: nat)
    requires i + 64 <= |bits| && page < i + 64 && ClearUpTo(bits, tmp, i, page) && tmp.Empty()
    ensures forall p :: i <= p < i + 64 && page < p ==> !bits[p]
  {
    hide Bit, Low, Half;
    forall p | i <= p < i + 64 && page < p
      ensures !bits[p]
    {
      BitZero(p - i);
    }
  }

  lemma FirstTaken(bits: seq<bool>, tmp: Window, i: nat, page: nat)
    requires i + 64 <= |bits| && page < i + 64 && ClearUpTo(bits, tmp, i, page) && !tmp.Empty()
    requires !bits[page] && forall p :: page < p < i ==> !bits[p]
    ensures var end := i + TrailingZeros(tmp.word);
            page < end < i + 64 && FirstSet(bits, page) == end && SetBelow(bits, tmp.Fill(), i, end)
  {
    hide Bit, Low, Half, Words.Fill, TrailingZeros;
    var z := TrailingZeros(tmp.word);
    TrailingZerosBits(tmp.word);
    assert Bit(tmp.word, z);
    forall p | page <= p < i + z
      ensures !bits[p]
    {
      if p > page && p >= i {
        assert !Bit(tmp.word, p - i);
      }
    }
    SkipFree(bits, page, i + z);
    forall k: nat | k < 64
      ensures Bit(tmp.Fill().word, k) <==> i + k < i + z || bits[i + k]
    {
      FillZeros(tmp.word, k);
    }
  }

  lemma {:induction false} SkipFree(bits: seq<bool>, i: nat, j: nat)
    requires i <= j < |bits| && (forall p :: i <= p < j ==> !bits[p]) && bits[j]
    ensures FirstSet(bits, i) == j
    decreases j - i
  {
    if i < j {
      SkipFree(bits, i + 1, j);
    }
  }

  /** Past free_tail nothing is taken once a free page at or above free_tail - 1 was met. */
  lemma TailIsFree(bits: seq<bool>, tail: nat, page: nat, i: nat)
    requires |bits| == PAGES && TailOk(bits, tail) && page < i <= PAGES && (i >= tail || i == PAGES)
    requires forall p :: page <= p < i ==> !bits[p]
    ensures FirstSet(bits, page) == PAGES
  {
    var e := FirstSet(bits, page);
    FirstSetFacts(bits, page);
    assert !bits[i - 1];
    assert e < PAGES ==> Taken(bits, e);
  }

  /** The search unfolded at the free run that starts at page. */
  lemma SearchStep(bits: seq<bool>, tail: nat, n: nat, i: nat, best: int, bestLen: nat, page: nat)
    requires i <= |bits| && page < |bits| && FirstClear(bits, i) == page
    ensures !bits[page] && i <= page < FirstSet(bits, page) <= |bits|
    ensures var e := FirstSet(bits, page);
            var r := SearchFrom(bits, tail, n, i, best, bestLen);
            && (e == |bits| ==> r == if n <= e - page < bestLen then Found(page, page + n) else Found(best, page))
            && (e < |bits| && e - page == n ==> r == Found(page, tail))
            && (e < |bits| && n < e - page < bestLen ==> r == SearchFrom(bits, tail, n, e, page, e - page))
            && (e < |bits| && (e - page < n || (n < e - page && bestLen <= e - page)) ==>
                  r == SearchFrom(bits, tail, n, e, best, bestLen))
  {
    FirstClearFacts(bits, i);
    FirstSetFacts(bits, page);
  }

  lemma SearchDef(bits: seq<bool>, tail: nat, n: nat)
    ensures Search(bits, tail, n) == SearchFrom(bits, tail, n, 0, -1, PAGES)
  {}

  lemma NoFreeLeft(bits: seq<bool>, tail: nat, n: nat, i: nat, best: int, bestLen: nat)
    requires i <= |bits| && FirstClear(bits, i) == |bits|
    ensures SearchFrom(bits, tail, n, i, best, bestLen) == Found(best, tail)
  {}

  /** The scan stands at page lo: tmp shows word bitset with everything below lo set. */
  ghost predicate Seeking(freeMap: seq<bv64>, bitset: nat, tmp: Window, lo: nat) {
    && |freeMap| == 8 && bitset < 8 && 64 * bitset <= lo <= 64 * bitset + 64
    && SetBelow(Bits(freeMap), tmp, 64 * bitset, lo)
  }

  /** The scan stands in the free run that starts at page: tmp shows what is set above page. */
  ghost predicate InRun(freeMap: seq<bv64>, bitset: nat, tmp: Window, page: nat) {
    && |freeMap| == 8 && bitset < 8 && page < 64 * bitset + 64
    && ClearUpTo(Bits(freeMap), tmp, 64 * bitset, page)
    && forall p :: page <= p < 64 * bitset ==> !Bits(freeMap)[p]
  }

  lemma NextWord(freeMap: seq<bv64>, bitset: nat, tmp: Window, lo: nat)
    requires Seeking(freeMap, bitset, tmp, lo) && tmp.Full()
    ensures lo <= 64 * bitset + 64 <= PAGES && bitset < 8
    ensures FirstClear(Bits(freeMap), lo) == FirstClear(Bits(freeMap), 64 * bitset + 64)
    ensures bitset < 7 ==> Seeking(freeMap, bitset + 1, WindowAt(freeMap, bitset + 1), 64 * bitset + 64)
    ensures bitset == 7 ==> FirstClear(Bits(freeMap), 64 * bitset + 64) == PAGES
  {
    hide SetBelow;
    AllTaken(Bits(freeMap), tmp, 64 * bitset, lo);
    if bitset < 7 {
      WordAt(freeMap, bitset + 1);
    } else {
      assert FirstClear(Bits(freeMap), PAGES) == PAGES;
    }
  }

  lemma StartRun(freeMap: seq<bv64>, bitset: nat, tmp: Window, lo: nat)
    requires Seeking(freeMap, bitset, tmp, lo) && !tmp.Full()
    ensures var page := 64 * bitset + tmp.Ones();
            && lo <= page < PAGES && FirstClear(Bits(freeMap), lo) == page
            && InRun(freeMap, bitset, tmp.Strip(), page)
  {
    hide SetBelow, ClearUpTo;
    FirstFree(Bits(freeMap), tmp, 64 * bitset, lo);
  }

  lemma NextFreeWord(freeMap: seq<bv64>, bitset: nat, tmp: Window, page: nat)
    requires InRun(freeMap, bitset, tmp, page) && tmp.Empty() && !Bits(freeMap)[page]
    ensures forall p :: page <= p < 64 * bitset + 64 ==> !Bits(freeMap)[p]
    ensures bitset < 7 ==> InRun(freeMap, bitset + 1, WindowAt(freeMap, bitset + 1), page)
  {
    hide ClearUpTo, Bit, At, FirstClear, FirstSet;
    NoneTaken(Bits(freeMap), tmp, 64 * bitset, page);
    if bitset < 7 {
      WordAt(freeMap, bitset + 1);
    }
  }

  lemma EndRun(freeMap: seq<bv64>, bitset: nat, tmp: Window, page: nat)
    requires InRun(freeMap, bitset, tmp, page) && !tmp.Empty() && !Bits(freeMap)[page]
    ensures var end := 64 * bitset + tmp.Zeros();
            && page < end < PAGES && FirstSet(Bits(freeMap), page) == end
            && Seeking(freeMap, bitset, tmp.Fill(), end)
  {
    hide SetBelow, ClearUpTo;
    FirstTaken(Bits(freeMap), tmp, 64 * bitset, page);
  }

  /**
   Skips allocated blocks: the first clear bit at or above lo, with the bits up to it reset in tmp.
   At the end of the map page is PAGES.
   */
  method SkipAllocated(freeMap: seq<bv64>, bitset0: nat, tmp0: Window, ghost lo: nat)
    returns (page: nat, bitset: nat, tmp: Window)
    requires lo <= PAGES && Seeking(freeMap, bitset0, tmp0, lo)
    ensures lo <= PAGES && FirstClear(Bits(freeMap), lo) == page
    ensures page < PAGES ==> InRun(freeMap, bitset, tmp, page)
  {
    ghost var at: nat := lo;
    ghost var next := FirstClear(Bits(freeMap), lo);
    assert |freeMap| == 8;
    hide *;
    bitset, tmp := bitset0, tmp0;
    while tmp.Full()
      invariant Seeking(freeMap, bitset, tmp, at) && at <= PAGES
      invariant FirstClear(Bits(freeMap), at) == next
      decreases 8 - bitset
    {
      NextWord(freeMap, bitset, tmp, at);
      at := 64 * bitset + 64;
      bitset := bitset + 1;
      if bitset == 8 {
        return PAGES, bitset, tmp;
      }
      tmp := WindowAt(freeMap, bitset);
    }
    page, tmp := FirstZeroBit(freeMap, bitset, tmp, at);
  }

  method FirstZeroBit(freeMap: seq<bv64>, bitset: nat, tmp0: Window, ghost lo: nat) returns (page: nat, tmp: Window)
    requires Seeking(freeMap, bitset, tmp0, lo) && !tmp0.Full()
    ensures lo <= PAGES && FirstClear(Bits(freeMap), lo) == page && InRun(freeMap, bitset, tmp, page)
  {
    hide *;
    StartRun(freeMap, bitset, tmp0, lo);
    var n := tmp0.Nts();
    page := 64 * bitset + n;
    // the run of pages up to the one found has been looked at
    tmp := tmp0.Strip();
  }

  /**
   Skips free blocks: the first set bit above page, with the bits below it set in tmp. The scan stops
   early, with end PAGES, once it has passed free_tail.
   */
  method SkipFreeBlocks(freeMap: seq<bv64>, freeTail: nat, page: nat, bitset0: nat, tmp0: Window)
    returns (end: nat, bitset: nat, tmp: Window)
    requires InRun(freeMap, bitset0, tmp0, page) && !Bits(freeMap)[page] && TailOk(Bits(freeMap), freeTail)
    ensures FirstSet(Bits(freeMap), page) == end
    ensures end < PAGES ==> Seeking(freeMap, bitset, tmp, end)
  {
    assert |freeMap| == 8 && |Bits(freeMap)| == PAGES && bitset0 < 8;
    hide *;
    bitset, tmp := bitset0, tmp0;
    while tmp.Empty()
      invariant bitset < 8 && InRun(freeMap, bitset, tmp, page)
      decreases 8 - bitset
    {
      NextFreeWord(freeMap, bitset, tmp, page);
      bitset := bitset + 1;
      if 64 * bitset >= freeTail || 64 * bitset == PAGES {
        TailIsFree(Bits(freeMap), freeTail, page, 64 * bitset);
        return PAGES, bitset, tmp;
      }
      tmp := WindowAt(freeMap, bitset);
    }
    end, tmp := FirstOneBit(freeMap, page, bitset, tmp);
  }

  method FirstOneBit(freeMap: seq<bv64>, page: nat, bitset: nat, tmp0: Window) returns (end: nat, tmp: Window)
    requires InRun(freeMap, bitset, tmp0, page) && !tmp0.Empty() && !Bits(freeMap)[page]
    ensures FirstSet(Bits(freeMap), page) == end && Seeking(freeMap, bitset, tmp, end)
  {
    hide *;
    EndRun(freeMap, bitset, tmp0, page);
    var n := tmp0.Ntz();
    end := 64 * bitset + n;
    // everything below the end of the run counts as taken from now on
    tmp := tmp0.Fill();
  }

  /** One chunk searched: the page for a run of n pages, or -1, and the new free_tail. */
  method BestFitSearch(freeMap: seq<bv64>, freeTail: nat, n: nat) returns (r: Found)
    requires |freeMap| == 8 && n > 0
    requires Bits(freeMap)[0] && TailOk(Bits(freeMap), freeTail)
    ensures r == Search(Bits(freeMap), freeTail, n)
  {
    ghost var bits := Bits(freeMap);
    assert |bits| == PAGES == 512;
    WordAt(freeMap, 0);
    var best := -1;
    var bestLen: nat := PAGES;
    var bitset: nat := 0;
    var tmp := WindowAt(freeMap, bitset);
    ghost var lo: nat := 0;
    assert Seeking(freeMap, bitset, tmp, lo);
    SearchDef(bits, freeTail, n);
    hide *;
    while true
      invariant lo <= PAGES && Seeking(freeMap, bitset, tmp, lo)
      invariant Search(bits, freeTail, n) == SearchFrom(bits, freeTail, n, lo, best, bestLen)
      decreases PAGES - lo
    {
      var page, end;
      page, bitset, tmp := SkipAllocated(freeMap, bitset, tmp, lo);
      if page == PAGES {
        NoFreeLeft(bits, freeTail, n, lo, best, bestLen);
        return Found(best, freeTail);
      }
      SearchStep(bits, freeTail, n, lo, best, bestLen, page);
      end, bitset, tmp := SkipFreeBlocks(freeMap, freeTail, page, bitset, tmp);
      var len := end - page;
      if end == PAGES {
        // a run up to the end of the chunk: taken, or it shows where free_tail really is
        return if len >= n && len < bestLen then Found(page, page + n) else Found(best, page);
      }
      lo := end;
      if len == n {
        return Found(page, freeTail);
      } else if len > n && len < bestLen {
        bestLen, best := len, page;
      }
    }
  }
}
