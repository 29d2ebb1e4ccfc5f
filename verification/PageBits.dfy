/**
 A chunk's page map as a row of booleans, and what the page search must find in it: the shortest
 maximal free run that is long enough, the lowest such run on ties.
 */
module PageBits {

  const PAGES: nat := 512

  function Fill(bits: seq<bool>, start: nat, len: nat, v: bool): (r: seq<bool>)
    ensures |r| == |bits|
    ensures forall p :: 0 <= p < |r| ==> r[p] == if start <= p < start + len then v else bits[p]
  {
    seq(|bits|, p requires 0 <= p < |bits| => if start <= p < start + len then v else bits[p])
  }

  predicate FreeRange(bits: seq<bool>, start: nat, len: nat)
    requires start + len <= |bits|
  {
    forall p :: start <= p < start + len ==> !bits[p]
  }

  /** Pages s..e-1 are free and the run cannot be extended on either side. */
  ghost predicate MaximalRun(bits: seq<bool>, s: int, e: int) {
    && 0 <= s < e <= |bits| && FreeRange(bits, s, e - s)
    && (s > 0 ==> bits[s - 1]) && (e < |bits| ==> bits[e])
  }

  /** No page at or above tail is taken, or the taken ones form one block that starts below tail. */
  ghost predicate TailOk(bits: seq<bool>, tail: nat) {
    && tail <= |bits|
    && forall p, q :: tail <= p < |bits| && bits[p] && 0 <= q <= p && tail <= q + 1 ==> bits[q]
  }

  function FirstClear(bits: seq<bool>, i: nat): (s: nat)
    requires i <= |bits|
    ensures i <= s <= |bits|
    decreases |bits| - i
  {
    if i < |bits| && bits[i] then FirstClear(bits, i + 1) else i
  }

  function FirstSet(bits: seq<bool>, i: nat): (e: nat)
    requires i <= |bits|
    ensures i <= e <= |bits|
    decreases |bits| - i
  {
    if i < |bits| && !bits[i] then FirstSet(bits, i + 1) else i
  }

  lemma {:induction false} FirstClearFacts(bits: seq<bool>, i: nat)
    requires i <= |bits|
    ensures var s := FirstClear(bits, i);
            (forall p :: i <= p < s ==> bits[p]) && (s < |bits| ==> !bits[s])
    decreases |bits| - i
  {
    if i < |bits| && bits[i] {
      FirstClearFacts(bits, i + 1);
    }
  }

  lemma {:induction false} FirstSetFacts(bits: seq<bool>, i: nat)
    requires i <= |bits|
    ensures var e := FirstSet(bits, i);
            (forall p :: i <= p < e ==> !bits[p]) && (e < |bits| ==> bits[e])
    decreases |bits| - i
  {
    if i < |bits| && !bits[i] {
      FirstSetFacts(bits, i + 1);
    }
  }

  /** The page where the run goes (-1 for none) and the chunk's new free_tail. */
  datatype Found = Found(page: int, tail: nat)

  /**
   Best-fit search from page i on, given the best run met so far. A run that reaches the end of the
   chunk also makes free_tail accurate.
   */
  function SearchFrom(bits: seq<bool>, tail: nat, n: nat, i: nat, best: int, bestLen: nat): Found
    requires i <= |bits|
    decreases |bits| - i
  {
    var s := FirstClear(bits, i);
    if s == |bits| then
      Found(best, tail)
    else
      var e := FirstSet(bits, s);
      assert e > s by { FirstClearFacts(bits, i); FirstSetFacts(bits, s); }
      if e == |bits| then
        if n <= e - s < bestLen then Found(s, s + n) else Found(best, s)
      else if e - s == n then
        Found(s, tail)
      else if n < e - s < bestLen then
        SearchFrom(bits, tail, n, e, s, e - s)
      else
        SearchFrom(bits, tail, n, e, best, bestLen)
  }

  function Search(bits: seq<bool>, tail: nat, n: nat): Found {
    SearchFrom(bits, tail, n, 0, -1, PAGES)
  }

  // ---- the search is best fit ----

  /** s is the start of the shortest maximal run of at least n pages, the lowest one on ties. */
  ghost predicate IsBestFit(bits: seq<bool>, n: nat, s: nat) {
    exists e :: MaximalRun(bits, s, e) && n <= e - s && NoBetterRun(bits, n, |bits|, s, e - s)
  }

  ghost predicate NoBetterRun(bits: seq<bool>, n: nat, limit: nat, s: nat, len: nat) {
    forall s', e' :: MaximalRun(bits, s', e') && e' <= limit && n <= e' - s' ==>
      len < e' - s' || (len == e' - s' && s <= s')
  }

  /** What the search knows when it stands at page i. */
  ghost predicate BestBelow(bits: seq<bool>, n: nat, i: nat, best: int, bestLen: nat) {
    && i <= |bits| && (0 < i < |bits| ==> bits[i])
    && if best < 0 then
         best == -1 && bestLen == PAGES && forall s, e :: MaximalRun(bits, s, e) && e <= i ==> e - s < n
       else
         && best + bestLen <= i && n < bestLen < PAGES && MaximalRun(bits, best, best + bestLen)
         && NoBetterRun(bits, n, i, best, bestLen)
  }

  lemma {:induction false} SearchFromIsBest(bits: seq<bool>, tail: nat, n: nat, i: nat, best: int, bestLen: nat)
    requires |bits| == PAGES && bits[0] && n > 0 && i <= PAGES
    requires BestBelow(bits, n, i, best, bestLen)
    ensures var r := SearchFrom(bits, tail, n, i, best, bestLen);
            if r.page < 0 then NoneFits(bits, n) else IsBestFit(bits, n, r.page)
    decreases |bits| - i
  {
    hide BestBelow, IsBestFit, NoneFits;
    var s := FirstClear(bits, i);
    FirstClearFacts(bits, i);
    if s == |bits| {
      AtEnd(bits, n, i, best, bestLen);
    } else {
      var e := FirstSet(bits, s);
      FirstSetFacts(bits, s);
      NextRun(bits, n, i, s, e, best, bestLen);
      if e < |bits| && e - s != n {
        if n < e - s < bestLen {
          SearchFromIsBest(bits, tail, n, e, s, e - s);
        } else {
          SearchFromIsBest(bits, tail, n, e, best, bestLen);
        }
      }
    }
  }

  ghost predicate NoneFits(bits: seq<bool>, n: nat) {
    forall s, e :: MaximalRun(bits, s, e) ==> e - s < n
  }

  /** A maximal run that ends above i, where i starts no run's middle, starts at s or later. */
  lemma RunsAbove(bits: seq<bool>, i: nat, s: nat, s': int, e': int)
    requires i <= s <= |bits| && (forall p :: i <= p < s ==> bits[p]) && (0 < i < |bits| ==> bits[i])
    requires MaximalRun(bits, s', e') && e' > i
    ensures s' >= s
  {
    assert !Taken(bits, s');
  }

  predicate Taken(bits: seq<bool>, p: int) {
    0 <= p < |bits| && bits[p]
  }

  /** Maximal runs that overlap are the same run. */
  lemma OnlyRun(bits: seq<bool>, s: int, e: int, s': int, e': int)
    requires MaximalRun(bits, s, e) && MaximalRun(bits, s', e') && s' >= s
    ensures (s' == s && e' == e) || s' > e
  {
    assert !Taken(bits, s') && (s' > 0 ==> Taken(bits, s' - 1));
    assert (e < |bits| ==> Taken(bits, e)) && (e' < |bits| ==> Taken(bits, e'));
  }

  lemma AtEnd(bits: seq<bool>, n: nat, i: nat, best: int, bestLen: nat)
    requires BestBelow(bits, n, i, best, bestLen) && |bits| == PAGES && n > 0
    requires forall p :: i <= p < |bits| ==> bits[p]
    ensures if best < 0 then NoneFits(bits, n) else IsBestFit(bits, n, best)
  {
    forall s, e | MaximalRun(bits, s, e)
      ensures e <= i
    {
      if e > i {
        RunsAbove(bits, i, |bits|, s, e);
      }
    }
    if best >= 0 {
      assert MaximalRun(bits, best, best + bestLen);
    }
  }

  lemma NextRun(bits: seq<bool>, n: nat, i: nat, s: nat, e: nat, best: int, bestLen: nat)
    requires |bits| == PAGES && bits[0] && n > 0 && BestBelow(bits, n, i, best, bestLen)
    requires i <= s < e <= |bits| && (forall p :: i <= p < s ==> bits[p]) && (forall p :: s <= p < e ==> !bits[p])
    requires e < |bits| ==> bits[e]
    ensures n <= e - s < bestLen && (e == |bits| || e - s == n) ==> IsBestFit(bits, n, s)
    ensures e == |bits| && !(n <= e - s < bestLen) ==> if best < 0 then NoneFits(bits, n) else IsBestFit(bits, n, best)
    ensures e < |bits| && n < e - s < bestLen ==> BestBelow(bits, n, e, s, e - s)
    ensures e < |bits| && e - s != n && !(n < e - s < bestLen) ==> BestBelow(bits, n, e, best, bestLen)
    ensures e - s == n ==> bestLen > n
  {
    assert s > 0 && bits[s - 1];
    assert MaximalRun(bits, s, e);
    forall s', e' | MaximalRun(bits, s', e') && e' > i
      ensures (s' == s && e' == e) || s' > e
    {
      RunsAbove(bits, i, s, s', e');
      OnlyRun(bits, s, e, s', e');
    }
    if best >= 0 {
      assert MaximalRun(bits, best, best + bestLen);
    }
  }

  /** The page search is best fit: it fails exactly when no run of n free pages exists. */
  lemma SearchIsBestFit(bits: seq<bool>, tail: nat, n: nat)
    requires |bits| == PAGES && bits[0] && n > 0
    ensures var r := Search(bits, tail, n);
            && (r.page < 0 <==> forall s: nat :: s + n <= PAGES ==> !FreeRange(bits, s, n))
            && (r.page >= 0 ==> r.page + n <= PAGES && FreeRange(bits, r.page, n) && IsBestFit(bits, n, r.page))
  {
    var r := Search(bits, tail, n);
    SearchFromIsBest(bits, tail, n, 0, -1, PAGES);
    if r.page >= 0 {
      var e :| MaximalRun(bits, r.page, e) && n <= e - r.page;
      assert FreeRange(bits, r.page, n);
    }
    forall s: nat | s + n <= PAGES && FreeRange(bits, s, n)
      ensures r.page >= 0
    {
      var lo, hi := Widen(bits, s, n);
    }
  }

  lemma Widen(bits: seq<bool>, s: nat, n: nat) returns (lo: nat, hi: nat)
    requires n > 0 && s + n <= |bits| && FreeRange(bits, s, n)
    ensures MaximalRun(bits, lo, hi) && lo <= s && s + n <= hi
  {
    hi := FirstSet(bits, s);
    FirstSetFacts(bits, s);
    assert hi < |bits| ==> Taken(bits, hi);
    lo := s;
    while lo > 0 && !bits[lo - 1]
      invariant lo <= s && FreeRange(bits, lo, hi - lo)
    {
      lo := lo - 1;
    }
  }

  // ---- free_tail ----

  /**
   The search keeps free_tail sound: a run it returns lies below free_tail, and if it moved
   free_tail then nothing above it was taken.
   */
  lemma {:induction false} SearchKeepsTail(bits: seq<bool>, tail: nat, n: nat, i: nat, best: int, bestLen: nat)
    requires |bits| == PAGES && i <= PAGES && TailOk(bits, tail) && n > 0
    requires best >= 0 ==> best + n <= i && FreeRange(bits, best, n) && best + n <= tail
    ensures var r := SearchFrom(bits, tail, n, i, best, bestLen);
            && r.tail <= PAGES
            && (r.page >= 0 ==> r.page + n <= r.tail && FreeRange(bits, r.page, n))
            && (r.tail == tail || forall p :: r.tail <= p < PAGES ==> !bits[p])
    decreases PAGES - i
  {
    var s := FirstClear(bits, i);
    FirstClearFacts(bits, i);
    if s < PAGES {
      var e := FirstSet(bits, s);
      FirstSetFacts(bits, s);
      if e < PAGES {
        assert !Taken(bits, e - 1);
        if e - s == n {
        } else if n < e - s < bestLen {
          SearchKeepsTail(bits, tail, n, e, s, e - s);
        } else {
          SearchKeepsTail(bits, tail, n, e, best, bestLen);
        }
      }
    }
  }
}
