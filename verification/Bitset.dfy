/** Sets of numbers as arrays of 64-bit words: set algebra word by word, and walks over the members. */
module Bitset {
  import opened Words
  import opened WordCounts
  import opened PageMap

  ghost predicate In(ws: seq<bv64>, n: nat) {
    n < 64 * |ws| && At(ws, n)
  }

  ghost function Members(ws: seq<bv64>): set<nat> {
    set n: nat | n < 64 * |ws| && At(ws, n)
  }

  // ---- algebra ----

  lemma Place(n: nat, len: nat)
    requires n < 64 * len
    ensures n / 64 < len && n % 64 < 64
  {}

  lemma MembersOr(a: seq<bv64>, b: seq<bv64>, c: seq<bv64>)
    requires |a| == |b| == |c| && forall i :: 0 <= i < |c| ==> c[i] == Or(a[i], b[i])
    ensures Members(c) == Members(a) + Members(b)
  {
    hide Bit, Or;
    forall n: nat
      ensures n in Members(c) <==> n in Members(a) || n in Members(b)
    {
      if n < 64 * |c| {
        Place(n, |c|);
        BitOr(a[n / 64], b[n / 64], n % 64);
      }
    }
  }

  lemma MembersAnd(a: seq<bv64>, b: seq<bv64>, c: seq<bv64>)
    requires |a| == |b| == |c| && forall i :: 0 <= i < |c| ==> c[i] == And(a[i], b[i])
    ensures Members(c) == Members(a) * Members(b)
  {
    hide Bit, And;
    forall n: nat
      ensures n in Members(c) <==> n in Members(a) && n in Members(b)
    {
      if n < 64 * |c| {
        Place(n, |c|);
        BitAnd(a[n / 64], b[n / 64], n % 64);
      }
    }
  }

  lemma MembersLess(a: seq<bv64>, b: seq<bv64>, c: seq<bv64>)
    requires |a| == |b| == |c| && forall i :: 0 <= i < |c| ==> c[i] == And(a[i], Not(b[i]))
    ensures Members(c) == Members(a) - Members(b)
  {
    hide Bit, And, Not;
    forall n: nat
      ensures n in Members(c) <==> n in Members(a) && n !in Members(b)
    {
      if n < 64 * |c| {
        Place(n, |c|);
        BitAnd(a[n / 64], Not(b[n / 64]), n % 64);
        BitNot(b[n / 64], n % 64);
      }
    }
  }

  method Union(set1: array<bv64>, set2: array<bv64>, len: nat)
    requires len <= set1.Length && len <= set2.Length
    modifies set1
    ensures Members(set1[..len]) == Members(old(set1[..len])) + Members(old(set2[..len])) && set1[len..] == old(set1[len..])
  {
    hide Or, Members;
    for i := 0 to len
      invariant forall j :: 0 <= j < i ==> set1[j] == Or(old(set1[j]), old(set2[j]))
      invariant forall j :: i <= j < set1.Length ==> set1[j] == old(set1[j])
      invariant forall j :: i <= j < set2.Length ==> set2[j] == old(set2[j])
    {
      set1[i] := Or(set1[i], set2[i]);
    }
    MembersOr(old(set1[..len]), old(set2[..len]), set1[..len]);
  }

  method Intersection(set1: array<bv64>, set2: array<bv64>, len: nat)
    requires len <= set1.Length && len <= set2.Length
    modifies set1
    ensures Members(set1[..len]) == Members(old(set1[..len])) * Members(old(set2[..len])) && set1[len..] == old(set1[len..])
  {
    hide And, Members;
    for i := 0 to len
      invariant forall j :: 0 <= j < i ==> set1[j] == And(old(set1[j]), old(set2[j]))
      invariant forall j :: i <= j < set1.Length ==> set1[j] == old(set1[j])
      invariant forall j :: i <= j < set2.Length ==> set2[j] == old(set2[j])
    {
      set1[i] := And(set1[i], set2[i]);
    }
    MembersAnd(old(set1[..len]), old(set2[..len]), set1[..len]);
  }

  method Difference(set1: array<bv64>, set2: array<bv64>, len: nat)
    requires len <= set1.Length && len <= set2.Length
    modifies set1
    ensures Members(set1[..len]) == Members(old(set1[..len])) - Members(old(set2[..len])) && set1[len..] == old(set1[len..])
  {
    hide And, Not, Members;
    for i := 0 to len
      invariant forall j :: 0 <= j < i ==> set1[j] == And(old(set1[j]), Not(old(set2[j])))
      invariant forall j :: i <= j < set1.Length ==> set1[j] == old(set1[j])
      invariant forall j :: i <= j < set2.Length ==> set2[j] == old(set2[j])
    {
      set1[i] := And(set1[i], Not(set2[i]));
    }
    MembersLess(old(set1[..len]), old(set2[..len]), set1[..len]);
  }

  lemma MembersOrAnd(a: seq<bv64>, b: seq<bv64>, c: seq<bv64>, r: seq<bv64>)
    requires |a| == |b| == |c| == |r| && forall i :: 0 <= i < |r| ==> r[i] == Or(a[i], And(b[i], c[i]))
    ensures Members(r) == Members(a) + Members(b) * Members(c)
  {
    hide Or, And, Members;
    var m := seq(|b|, i requires 0 <= i < |b| => And(b[i], c[i]));
    MembersAnd(b, c, m);
    MembersOr(a, m, r);
  }

  lemma MembersOrLess(a: seq<bv64>, b: seq<bv64>, c: seq<bv64>, r: seq<bv64>)
    requires |a| == |b| == |c| == |r| && forall i :: 0 <= i < |r| ==> r[i] == Or(a[i], And(b[i], Not(c[i])))
    ensures Members(r) == Members(a) + (Members(b) - Members(c))
  {
    hide Or, And, Not, Members;
    var m := seq(|b|, i requires 0 <= i < |b| => And(b[i], Not(c[i])));
    MembersLess(b, c, m);
    MembersOr(a, m, r);
  }

  method UnionWithIntersection(set1: array<bv64>, set2: array<bv64>, set3: array<bv64>, set4: array<bv64>, len: nat)
    requires len <= set1.Length && len <= set2.Length && len <= set3.Length && len <= set4.Length
    modifies set1
    ensures Members(set1[..len]) == Members(old(set2[..len])) + Members(old(set3[..len])) * Members(old(set4[..len]))
    ensures set1[len..] == old(set1[len..])
  {
    hide Or, And, Members;
    for i := 0 to len
      invariant forall j :: 0 <= j < i ==> set1[j] == Or(old(set2[j]), And(old(set3[j]), old(set4[j])))
      invariant forall j :: i <= j < len ==> set2[j] == old(set2[j]) && set3[j] == old(set3[j]) && set4[j] == old(set4[j])
      invariant set1[len..] == old(set1[len..])
    {
      set1[i] := Or(set2[i], And(set3[i], set4[i]));
    }
    MembersOrAnd(old(set2[..len]), old(set3[..len]), old(set4[..len]), set1[..len]);
  }

  method UnionWithDifference(set1: array<bv64>, set2: array<bv64>, set3: array<bv64>, set4: array<bv64>, len: nat)
    requires len <= set1.Length && len <= set2.Length && len <= set3.Length && len <= set4.Length
    modifies set1
    ensures Members(set1[..len]) == Members(old(set2[..len])) + (Members(old(set3[..len])) - Members(old(set4[..len])))
    ensures set1[len..] == old(set1[len..])
  {
    hide Or, And, Not, Members;
    for i := 0 to len
      invariant forall j :: 0 <= j < i ==> set1[j] == Or(old(set2[j]), And(old(set3[j]), Not(old(set4[j]))))
      invariant forall j :: i <= j < len ==> set2[j] == old(set2[j]) && set3[j] == old(set3[j]) && set4[j] == old(set4[j])
      invariant set1[len..] == old(set1[len..])
    {
      set1[i] := Or(set2[i], And(set3[i], Not(set4[i])));
    }
    MembersOrLess(old(set2[..len]), old(set3[..len]), old(set4[..len]), set1[..len]);
  }

  // ---- tests ----

  lemma {:induction false} ZeroHasNone(ws: seq<bv64>)
    requires forall i :: 0 <= i < |ws| ==> ws[i] == 0
    ensures Members(ws) == {}
  {
    hide Bit;
    forall n: nat
      ensures n !in Members(ws)
    {
      BitZero(n % 64);
    }
  }

  lemma WordHasOne(ws: seq<bv64>, i: nat)
    requires i < |ws| && ws[i] != 0
    ensures 64 * i + TrailingZeros(ws[i]) in Members(ws)
  {
    hide Bit, TrailingZeros;
    TrailingZerosBits(ws[i]);
    var n := 64 * i + TrailingZeros(ws[i]);
    assert n / 64 == i && n % 64 == TrailingZeros(ws[i]);
  }

  method Empty(bits: seq<bv64>) returns (r: bool)
    ensures r <==> Members(bits) == {}
  {
    hide Members, TrailingZeros;
    for i := 0 to |bits|
      invariant forall j :: 0 <= j < i ==> bits[j] == 0
    {
      if bits[i] != 0 {
        WordHasOne(bits, i);
        return false;
      }
    }
    ZeroHasNone(bits);
    return true;
  }

  method Subset(set1: seq<bv64>, set2: seq<bv64>) returns (r: bool)
    requires |set1| == |set2|
    ensures r <==> Members(set1) <= Members(set2)
  {
    hide Members, TrailingZeros, And, Not;
    ghost var diff := seq(|set1|, i requires 0 <= i < |set1| => And(set1[i], Not(set2[i])));
    MembersLess(set1, set2, diff);
    for i := 0 to |set1|
      invariant forall j :: 0 <= j < i ==> diff[j] == 0
    {
      if And(set1[i], Not(set2[i])) != 0 {
        WordHasOne(diff, i);
        return false;
      }
    }
    ZeroHasNone(diff);
    forall n | n in Members(set1)
      ensures n in Members(set2)
    {
      assert n !in Members(set1) - Members(set2);
    }
    return true;
  }

  // ---- first and last ----

  ghost predicate NoneBelow(ws: seq<bv64>, n: int) {
    forall m: nat :: m in Members(ws) ==> n <= m
  }

  ghost predicate NoneAbove(ws: seq<bv64>, n: int) {
    forall m: nat :: m in Members(ws) ==> m <= n
  }

  lemma ZeroBelow(ws: seq<bv64>, i: nat)
    requires i <= |ws| && forall j :: 0 <= j < i ==> ws[j] == 0
    ensures NoneBelow(ws, 64 * i)
  {
    hide Bit;
    forall m: nat | m in Members(ws)
      ensures 64 * i <= m
    {
      BitZero(m % 64);
    }
  }

  lemma WordOf(i: nat, m: nat)
    requires 64 * i <= m < 64 * i + 64
    ensures m / 64 == i && m % 64 == m - 64 * i
  {}

  lemma FirstIn(ws: seq<bv64>, i: nat)
    requires i < |ws| && ws[i] != 0 && NoneBelow(ws, 64 * i)
    ensures NoneBelow(ws, 64 * i + TrailingZeros(ws[i]))
  {
    hide Bit, TrailingZeros;
    TrailingZerosBits(ws[i]);
    forall m: nat | m in Members(ws)
      ensures 64 * i + TrailingZeros(ws[i]) <= m
    {
      assert 64 * i <= m;
      if m < 64 * i + 64 { WordOf(i, m); }
    }
  }

  /** The least member, or -1. */
  method First(bits: seq<bv64>) returns (n: int)
    ensures Members(bits) == {} ==> n == -1
    ensures Members(bits) != {} ==> n in Members(bits) && NoneBelow(bits, n)
  {
    hide Members, TrailingZeros, NoneBelow;
    for i := 0 to |bits|
      invariant forall j :: 0 <= j < i ==> bits[j] == 0
    {
      if bits[i] != 0 {
        var z := Ntz(bits[i]);
        WordHasOne(bits, i);
        ZeroBelow(bits, i);
        FirstIn(bits, i);
        return 64 * i + z;
      }
    }
    ZeroHasNone(bits);
    return -1;
  }

  lemma ZeroAbove(ws: seq<bv64>, i: nat)
    requires i <= |ws| && forall j :: i <= j < |ws| ==> ws[j] == 0
    ensures NoneAbove(ws, 64 * i - 1)
  {
    hide Bit;
    forall m: nat | m in Members(ws)
      ensures m <= 64 * i - 1
    {
      BitZero(m % 64);
    }
  }

  lemma ShiftedOut(ws: seq<bv64>, i: nat, j: int)
    requires i < |ws| && 0 <= j && NoneAbove(ws, 64 * i + 63) && Shr(ws[i], j + 1) == 0 && Shr(ws[i], j) != 0
    ensures NoneAbove(ws, 64 * i + j) && 64 * i + j in Members(ws)
  {
    hide Bit, Shr;
    forall k: nat | k > j
      ensures !Bit(ws[i], k)
    {
      BitShr(ws[i], j + 1, k - j - 1);
      BitZero(k - j - 1);
    }
    TopBit(ws[i], j);
    forall m: nat | m in Members(ws)
      ensures m <= 64 * i + j
    {
      assert m <= 64 * i + 63;
      if m >= 64 * i { WordOf(i, m); }
    }
    assert (64 * i + j) / 64 == i;
  }

  lemma TopBit(w: bv64, j: nat)
    requires Shr(w, j) != 0 && forall k: nat :: k > j ==> !Bit(w, k)
    ensures Bit(w, j) && j < 64
  {
    hide Bit, Shr;
    if !Bit(w, j) {
      forall k: nat
        ensures !Bit(Shr(w, j), k)
      {
        BitShr(w, j, k);
      }
      NoBits(Shr(w, j));
    }
    if j >= 64 {
      BitsEnd(w, j);
    }
  }

  lemma {:induction false} ShrLess(w: bv64, k: nat)
    ensures Shr(w, k + 1) == Half(Shr(w, k))
    decreases k
  {
    hide Half;
    if k > 0 {
      ShrLess(Half(w), k - 1);
    }
  }

  lemma ShrStart(w: bv64)
    ensures Shr(w, 0) == w
  {}

  /** The last part of the search for the greatest member: j goes up by one for each shift until nothing is left. */
  method ShiftAway(word: bv64, j0: int) returns (j: int, ghost k: nat)
    requires word != 0
    ensures j == j0 + k && k > 0 && Shr(word, k) == 0 && Shr(word, k - 1) != 0
  {
    hide *;
    var x := word;
    ShrStart(x);
    j, k := j0, 0;
    while x != 0
      invariant x == Shr(word, k) && j == j0 + k && (k == 0 ==> x != 0)
      invariant k > 0 ==> Shr(word, k - 1) != 0
      decreases 64 - k
    {
      ShrLess(word, k);
      if k >= 64 { ShrEnd(word, k); }
      x := Half(x);
      j := j + 1;
      k := k + 1;
    }
  }

  /** The greatest member, or -1: the word is shifted right until nothing is left. */
  method Last(bits: seq<bv64>) returns (n: int)
    ensures Members(bits) == {} ==> n == -1
    ensures Members(bits) != {} ==> n in Members(bits) && NoneAbove(bits, n)
  {
    hide Members, NoneAbove, Shr, Half, TrailingZeros;
    var i := |bits|;
    while i > 0
      invariant 0 <= i <= |bits| && forall j :: i <= j < |bits| ==> bits[j] == 0
    {
      i := i - 1;
      if bits[i] != 0 {
        ghost var k;
        n, k := ShiftAway(bits[i], 64 * i - 1);
        ZeroAbove(bits, i + 1);
        ShiftedOut(bits, i, k - 1);
        return;
      }
    }
    ZeroHasNone(bits);
    return -1;
  }

  // ---- walks ----

  ghost predicate Ascending(s: seq<nat>) {
    forall i, j :: 0 <= i < j < |s| ==> s[i] < s[j]
  }

  ghost predicate Descending(s: seq<nat>) {
    forall i, j :: 0 <= i < j < |s| ==> s[i] > s[j]
  }

  /** What the walk has met: the members below bound, in order. */
  ghost predicate MetBelow(ws: seq<bv64>, met: seq<nat>, bound: nat) {
    Ascending(met) && forall n: nat :: n in met <==> n in Members(ws) && n < bound
  }

  lemma MetStep(ws: seq<bv64>, met: seq<nat>, bound: nat)
    requires MetBelow(ws, met, bound)
    ensures bound in Members(ws) ==> MetBelow(ws, met + [bound], bound + 1)
    ensures bound !in Members(ws) ==> MetBelow(ws, met, bound + 1)
  {
    hide Members;
    forall i | 0 <= i < |met|
      ensures met[i] < bound
    {
      var m := met[i];
      assert m in met;
    }
  }

  lemma MetSkip(ws: seq<bv64>, met: seq<nat>, bound: nat, bound': nat)
    requires MetBelow(ws, met, bound) && bound <= bound' && forall n: nat :: bound <= n < bound' ==> n !in Members(ws)
    ensures MetBelow(ws, met, bound')
  {
    hide Members;
  }

  lemma BitHere(ws: seq<bv64>, i: nat, k: nat)
    requires i < |ws|
    ensures Low(Shr(ws[i], k)) ==> k < 64
    ensures k < 64 ==> (Low(Shr(ws[i], k)) <==> 64 * i + k in Members(ws))
  {
    hide Low, Half;
    BitShr(ws[i], k, 0);
    assert Bit(Shr(ws[i], k), 0) <==> Low(Shr(ws[i], k));
    if k >= 64 {
      BitsEnd(ws[i], k);
    } else {
      assert (64 * i + k) / 64 == i && (64 * i + k) % 64 == k;
    }
  }

  lemma RestEmpty(ws: seq<bv64>, i: nat, k: nat)
    requires i < |ws| && Shr(ws[i], k) == 0
    ensures forall n: nat :: 64 * i + k <= n < 64 * (i + 1) ==> n !in Members(ws)
  {
    hide Low, Half, Bit;
    forall n: nat | 64 * i + k <= n < 64 * (i + 1)
      ensures n !in Members(ws)
    {
      BitShr(ws[i], k, n - 64 * i - k);
      BitZero(n - 64 * i - k);
    }
  }

  lemma {:induction false} ShrEnd(w: bv64, k: nat)
    requires k >= 64
    ensures Shr(w, k) == 0
  {
    hide Low, Half, Bit;
    forall j: nat
      ensures !Bit(Shr(w, k), j)
    {
      BitShr(w, k, j);
      BitsEnd(w, k + j);
    }
    NoBits(Shr(w, k));
  }

  /** Visits the members in ascending order. */
  method ForEach(bits: seq<bv64>) returns (met: seq<nat>)
    ensures Ascending(met) && (set n | n in met) == Members(bits)
  {
    hide Members, MetBelow, Shr, Half, Low;
    met := [];
    MetNone(bits);
    for i := 0 to |bits|
      invariant MetBelow(bits, met, 64 * i)
    {
      var x := bits[i];
      ShrStart(x);
      if x != 0 {
        var bit := 64 * i;
        ghost var k: nat := 0;
        while x != 0
          invariant x == Shr(bits[i], k) && bit == 64 * i + k && k <= 64
          invariant MetBelow(bits, met, bit)
          decreases 64 - k
        {
          BitHere(bits, i, k);
          MetStep(bits, met, bit);
          if k >= 64 { ShrEnd(bits[i], k); }
          if Low(x) {
            met := met + [bit];
          }
          ShrLess(bits[i], k);
          x := Half(x);
          bit := bit + 1;
          k := k + 1;
        }
        RestEmpty(bits, i, k);
        MetSkip(bits, met, bit, 64 * (i + 1));
      } else {
        RestEmpty(bits, i, 0);
        MetSkip(bits, met, 64 * i, 64 * (i + 1));
      }
    }
    MetAll(bits, met);
  }

  lemma MetNone(ws: seq<bv64>)
    ensures MetBelow(ws, [], 0)
  {}

  lemma MetAll(ws: seq<bv64>, met: seq<nat>)
    requires MetBelow(ws, met, 64 * |ws|)
    ensures Ascending(met) && (set n | n in met) == Members(ws)
  {
    hide At;
    assert forall n: nat :: n in Members(ws) ==> n < 64 * |ws|;
  }

  /** What the walk from above has met: the members from bound on, the greatest first. */
  ghost predicate MetAbove(ws: seq<bv64>, met: seq<nat>, bound: int) {
    Descending(met) && forall n: nat :: n in met <==> n in Members(ws) && n >= bound
  }

  lemma MetStepDown(ws: seq<bv64>, met: seq<nat>, bound: nat)
    requires MetAbove(ws, met, bound + 1)
    ensures bound in Members(ws) ==> MetAbove(ws, met + [bound], bound)
    ensures bound !in Members(ws) ==> MetAbove(ws, met, bound)
  {
    hide Members;
    forall i | 0 <= i < |met|
      ensures met[i] > bound
    {
      var m := met[i];
      assert m in met;
    }
  }

  lemma MetSkipDown(ws: seq<bv64>, met: seq<nat>, bound: int, bound': int)
    requires MetAbove(ws, met, bound) && bound' <= bound && forall n: nat :: bound' <= n < bound ==> n !in Members(ws)
    ensures MetAbove(ws, met, bound')
  {
    hide Members;
  }

  predicate Top(w: bv64) { And(w, 0x8000_0000_0000_0000) != 0 }

  lemma TopIsBit63(w: bv64)
    ensures Top(w) <==> Bit(w, 63)
  {
    hide Low, Half, Bit, And, Shl, Shr;
    OneMask(63);
    TopConstant();
    UnderMask(w, Shl(1, 63), 63, 63);
  }

  lemma TopConstant()
    ensures Shl(1, 63) == 0x8000_0000_0000_0000
  {
    assert Shl(1, 8) == 0x100;
    ShlAdd(1, 8, 8);
    assert Shl(0x100, 8) == 0x1_0000;
    ShlAdd(1, 16, 16);
    ShlAdd(0x1_0000, 8, 8);
    assert Shl(0x1_0000, 8) == 0x100_0000 && Shl(0x100_0000, 8) == 0x1_0000_0000;
    ShlAdd(1, 32, 16);
    ShlAdd(0x1_0000_0000, 8, 8);
    assert Shl(0x1_0000_0000, 8) == 0x100_0000_0000 && Shl(0x100_0000_0000, 8) == 0x1_0000_0000_0000;
    ShlAdd(1, 48, 8);
    assert Shl(0x1_0000_0000_0000, 8) == 0x100_0000_0000_0000;
    ShlAdd(1, 56, 7);
    assert Shl(0x100_0000_0000_0000, 7) == 0x8000_0000_0000_0000;
  }

  lemma {:induction false} ShlAdd(w: bv64, m: nat, n: nat)
    ensures Shl(w, m + n) == Shl(Shl(w, m), n)
    decreases n
  {
    hide Twice;
    if n > 0 {
      ShlAdd(w, m, n - 1);
    }
  }

  lemma TopHere(ws: seq<bv64>, i: nat, k: nat)
    requires i < |ws| && k < 64
    ensures Top(Shl(ws[i], k)) <==> 64 * i + 63 - k in Members(ws)
  {
    hide Low, Half, Bit, Top, Shl;
    TopIsBit63(Shl(ws[i], k));
    BitShl(ws[i], k, 63);
    assert (64 * i + 63 - k) / 64 == i && (64 * i + 63 - k) % 64 == 63 - k;
  }

  lemma RestEmptyDown(ws: seq<bv64>, i: nat, k: nat)
    requires i < |ws| && k <= 64 && Shl(ws[i], k) == 0
    ensures forall n: nat :: 64 * i <= n < 64 * (i + 1) - k ==> n !in Members(ws)
  {
    hide Low, Half, Bit, Shl;
    forall n: nat | 64 * i <= n < 64 * (i + 1) - k
      ensures n !in Members(ws)
    {
      BitShl(ws[i], k, n - 64 * i + k);
      BitZero(n - 64 * i + k);
    }
  }

  lemma ShlStep(w: bv64, k: nat)
    ensures Shl(w, k + 1) == Twice(Shl(w, k)) && Shl(w, 0) == w
  {}

  lemma ShlGone(w: bv64)
    ensures Shl(w, 64) == 0
  {
    hide Low, Half, Bit, Shl;
    forall k: nat
      ensures !Bit(Shl(w, 64), k)
    {
      if k < 64 {
        BitShl(w, 64, k);
      } else {
        BitsEnd(Shl(w, 64), k);
      }
    }
    NoBits(Shl(w, 64));
  }

  /** Visits the members in descending order. */
  method ReverseForEach(bits: seq<bv64>) returns (met: seq<nat>)
    ensures Descending(met) && (set n | n in met) == Members(bits)
  {
    hide Members, MetAbove, Shl, Twice, Top;
    met := [];
    MetNoneDown(bits);
    var i := |bits|;
    while i > 0
      invariant 0 <= i <= |bits| && MetAbove(bits, met, 64 * i)
    {
      i := i - 1;
      var x := bits[i];
      ShlStep(x, 0);
      if x != 0 {
        var bit: int := 64 * (i + 1) - 1;
        ghost var k: nat := 0;
        while x != 0
          invariant k <= 64 && x == Shl(bits[i], k) && bit == 64 * i + 63 - k
          invariant MetAbove(bits, met, bit + 1)
          decreases 64 - k
        {
          ShlGone(bits[i]);
          TopHere(bits, i, k);
          MetStepDown(bits, met, bit);
          if Top(x) {
            met := met + [bit];
          }
          ShlStep(bits[i], k);
          x := Twice(x);
          bit := bit - 1;
          k := k + 1;
        }
        RestEmptyDown(bits, i, k);
        MetSkipDown(bits, met, bit + 1, 64 * i);
      } else {
        RestEmptyDown(bits, i, 0);
        MetSkipDown(bits, met, 64 * (i + 1), 64 * i);
      }
    }
    MetAllDown(bits, met);
  }

  lemma MetNoneDown(ws: seq<bv64>)
    ensures MetAbove(ws, [], 64 * |ws|)
  {
    hide At;
    assert forall n: nat :: n in Members(ws) ==> n < 64 * |ws|;
  }

  lemma MetAllDown(ws: seq<bv64>, met: seq<nat>)
    requires MetAbove(ws, met, 0)
    ensures Descending(met) && (set n | n in met) == Members(ws)
  {
    hide Members;
  }
}
