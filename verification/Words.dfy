/** 64-bit words seen as rows of bits: the arithmetic behind the page bitmap's word tricks. */
module Words {

  const ALL_ONES: bv64 := 0xffff_ffff_ffff_ffff

  predicate Low(w: bv64) { w & 1 == 1 }

  function Half(w: bv64): bv64 { w >> 1 }

  function Twice(w: bv64): bv64 { w << 1 }

  /** Bit k of w, counted from the least significant end; false from 64 on. */
  predicate Bit(w: bv64, k: nat)
    decreases k
  {
    if k == 0 then Low(w) else Bit(Half(w), k - 1)
  }

  /** w << n for a run-time amount, one place at a time. */
  function Shl(w: bv64, n: nat): bv64
    decreases n
  {
    if n == 0 then w else Twice(Shl(w, n - 1))
  }

  /** w >> n for a run-time amount, one place at a time. */
  function Shr(w: bv64, n: nat): bv64
    decreases n
  {
    if n == 0 then w else Shr(Half(w), n - 1)
  }

  /** Length of the row of set bits at the low end. */
  function TrailingOnes(w: bv64): (n: nat)
    decreases w
  {
    if Low(w) then HalfShrinks(w); 1 + TrailingOnes(Half(w)) else 0
  }

  /** Length of the row of clear bits at the low end. */
  function TrailingZeros(w: bv64): (n: nat)
    requires w != 0
    decreases w
  {
    if Low(w) then 0 else HalfShrinks(w); 1 + TrailingZeros(Half(w))
  }

  lemma HalfShrinks(w: bv64)
    requires w != 0
    ensures Half(w) < w
    ensures !Low(w) ==> Half(w) != 0
  {}

  // ---- the machine operators, bit by bit ----

  function And(a: bv64, b: bv64): bv64 { a & b }

  lemma HalfAnd(a: bv64, b: bv64)
    ensures Half(And(a, b)) == And(Half(a), Half(b)) && (Low(And(a, b)) <==> Low(a) && Low(b))
  {}

  function Or(a: bv64, b: bv64): bv64 { a | b }

  lemma HalfOr(a: bv64, b: bv64)
    ensures Half(Or(a, b)) == Or(Half(a), Half(b)) && (Low(Or(a, b)) <==> Low(a) || Low(b))
  {}

  function Xor(a: bv64, b: bv64): bv64 { a ^ b }

  lemma HalfXor(a: bv64, b: bv64)
    ensures Half(Xor(a, b)) == Xor(Half(a), Half(b)) && (Low(Xor(a, b)) <==> Low(a) != Low(b))
  {}

  lemma {:induction false} BitAnd(a: bv64, b: bv64, k: nat)
    ensures Bit(And(a, b), k) <==> Bit(a, k) && Bit(b, k)
    decreases k
  {
    hide Low, Half, And;
    HalfAnd(a, b);
    if k > 0 {
      BitAnd(Half(a), Half(b), k - 1);
    }
  }

  lemma {:induction false} BitOr(a: bv64, b: bv64, k: nat)
    ensures Bit(Or(a, b), k) <==> Bit(a, k) || Bit(b, k)
    decreases k
  {
    hide Low, Half, Or;
    HalfOr(a, b);
    if k > 0 {
      BitOr(Half(a), Half(b), k - 1);
    }
  }

  lemma {:induction false} BitXor(a: bv64, b: bv64, k: nat)
    ensures Bit(Xor(a, b), k) <==> Bit(a, k) != Bit(b, k)
    decreases k
  {
    hide Low, Half, Xor;
    HalfXor(a, b);
    if k > 0 {
      BitXor(Half(a), Half(b), k - 1);
    }
  }

  lemma {:induction false} BitZero(k: nat)
    ensures !Bit(0, k)
    decreases k
  {
    if k > 0 {
      assert Half(0) == 0;
      BitZero(k - 1);
    }
  }

  lemma {:induction false} BitShr(w: bv64, n: nat, k: nat)
    ensures Bit(Shr(w, n), k) <==> Bit(w, k + n)
    decreases n
  {
    hide Low, Half;
    if n > 0 {
      BitShr(Half(w), n - 1, k);
    }
  }

  // ---- shifts by the constants of the binary searches ----

  lemma {:induction false} ShrAdd(w: bv64, m: nat, n: nat)
    ensures Shr(w, m + n) == Shr(Shr(w, m), n)
    decreases m
  {
    hide Half;
    if m > 0 {
      ShrAdd(Half(w), m - 1, n);
    }
  }

  lemma Halves(w: bv64)
    ensures Half(w) == w >> 1 && (w >> 1) >> 1 == w >> 2 && (w >> 2) >> 2 == w >> 4 && (w >> 4) >> 4 == w >> 8
    ensures (w >> 8) >> 8 == w >> 16 && (w >> 16) >> 16 == w >> 32
  {}

  lemma Shr2(w: bv64)
    ensures Shr(w, 1) == w >> 1 && Shr(w, 2) == w >> 2
  {
    hide Half;
    Halves(w);
    Halves(w >> 1);
    ShrAdd(w, 1, 1);
  }

  lemma Shr4(w: bv64)
    ensures Shr(w, 4) == w >> 4
  {
    hide Half, Shr;
    Halves(w);
    Shr2(w);
    Shr2(w >> 2);
    ShrAdd(w, 2, 2);
  }

  lemma Shr8(w: bv64)
    ensures Shr(w, 8) == w >> 8
  {
    hide Half, Shr;
    Halves(w);
    Shr4(w);
    Shr4(w >> 4);
    ShrAdd(w, 4, 4);
  }

  lemma Shr16(w: bv64)
    ensures Shr(w, 16) == w >> 16
  {
    hide Half, Shr;
    Halves(w);
    Shr8(w);
    Shr8(w >> 8);
    ShrAdd(w, 8, 8);
  }

  lemma Shr32(w: bv64)
    ensures Shr(w, 32) == w >> 32
  {
    hide Half, Shr;
    Halves(w);
    Shr16(w);
    Shr16(w >> 16);
    ShrAdd(w, 16, 16);
  }

  // ---- rows of ones ----

  /** w has exactly the bits below s. */
  ghost predicate IsRow(w: bv64, s: nat) {
    forall k: nat :: Bit(w, k) <==> k < s
  }

  lemma RowDouble(w: bv64, m: bv64, s: nat)
    requires IsRow(m, s) && Shr(w, s) == m && w & m == m
    ensures IsRow(w, 2 * s)
  {
    hide Low, Half, Bit, Shr;
    forall k: nat
      ensures Bit(w, k) <==> k < 2 * s
    {
      BitAnd(w, m, k);
      if k >= s {
        BitShr(w, s, k - s);
      }
    }
  }

  lemma RowConstants()
    ensures 0xffff_ffff_ffff_ffff & 0xffff_ffff == (0xffff_ffff as bv64) && (0xffff_ffff_ffff_ffff as bv64) >> 32 == 0xffff_ffff
    ensures (0xffff_ffff as bv64) & 0xffff == 0xffff && (0xffff_ffff as bv64) >> 16 == 0xffff
    ensures (0xffff as bv64) & 0xff == 0xff && (0xffff as bv64) >> 8 == 0xff
    ensures (0xff as bv64) & 0xf == 0xf && (0xff as bv64) >> 4 == 0xf
    ensures (0xf as bv64) & 3 == 3 && (0xf as bv64) >> 2 == 3
  {}

  lemma Row2()
    ensures IsRow(3, 2)
  {
    forall k: nat
      ensures Bit(3, k) <==> k < 2
    {
      assert Half(3) == 1 && Half(1) == 0;
      if k >= 2 {
        BitZero(k - 2);
        assert Bit(3, k) == Bit(1, k - 1) == Bit(0, k - 2);
      }
    }
  }

  lemma RowAll()
    ensures IsRow(ALL_ONES, 64) && IsRow(0xffff_ffff, 32) && IsRow(0xffff, 16) && IsRow(0xff, 8)
    ensures IsRow(0xf, 4) && IsRow(3, 2)
  {
    hide Low, Half, Bit, Shr, IsRow;
    Row2();
    RowConstants();
    Shr2(0xf);
    RowDouble(0xf, 3, 2);
    Shr4(0xff);
    RowDouble(0xff, 0xf, 4);
    Shr8(0xffff);
    RowDouble(0xffff, 0xff, 8);
    Shr16(0xffff_ffff);
    RowDouble(0xffff_ffff, 0xffff, 16);
    Shr32(0xffff_ffff_ffff_ffff);
    RowDouble(0xffff_ffff_ffff_ffff, 0xffff_ffff, 32);
  }

  function Not(w: bv64): bv64 { !w }

  lemma BitNot(w: bv64, k: nat)
    requires k < 64
    ensures Bit(Not(w), k) <==> !Bit(w, k)
  {
    hide Low, Half, Bit, Not;
    RowAll();
    BitXor(w, ALL_ONES, k);
    NotIsXor(w);
  }

  lemma NotIsXor(w: bv64)
    ensures Not(w) == Xor(w, ALL_ONES)
  {}

  // ---- shifting left ----

  lemma TwiceHalves(w: bv64)
    ensures Half(Twice(w)) == w & Half(ALL_ONES) && !Low(Twice(w))
  {}

  lemma BitTwice(w: bv64, k: nat)
    requires k < 64
    ensures Bit(Twice(w), k) <==> k > 0 && Bit(w, k - 1)
  {
    hide Low, Half, Twice;
    TwiceHalves(w);
    if k > 0 {
      BitAnd(w, Half(ALL_ONES), k - 1);
      RowAll();
      assert Bit(ALL_ONES, k);
    }
  }

  lemma {:induction false} BitShl(w: bv64, n: nat, k: nat)
    requires k < 64
    ensures Bit(Shl(w, n), k) <==> k >= n && Bit(w, k - n)
    decreases n
  {
    hide Low, Half, Twice, Bit;
    if n > 0 {
      BitTwice(Shl(w, n - 1), k);
      if k > 0 {
        BitShl(w, n - 1, k - 1);
      }
    }
  }

  /** 1 << n selects bit n alone. */
  lemma BitOne(n: nat, k: nat)
    requires k < 64
    ensures Bit(Shl(1, n), k) <==> k == n
  {
    hide Twice, Shl;
    BitShl(1, n, k);
    if k > n {
      assert Half(1) == 0;
      BitZero(k - n - 1);
    }
  }

  /** (1 << n) - 1 is the row of n ones. */
  lemma {:induction false} BitOneLess(n: nat, k: nat)
    requires k < 64
    ensures Bit(Less(Shl(1, n)), k) <==> k < n
    decreases n
  {
    hide Twice, Half, Low, Bit, Less;
    if n == 0 {
      BitZero(k);
      LessOne();
    } else {
      var x := Shl(1, n - 1);
      TwiceLess(x);
      BitOr(Twice(Less(x)), 1, k);
      BitTwice(Less(x), k);
      BitOne(0, k);
      assert Shl(1, 0) == 1;
      if k > 0 {
        BitOneLess(n - 1, k - 1);
      }
    }
  }

  function Less(x: bv64): bv64 { x - 1 }

  lemma TwiceLess(x: bv64)
    ensures Less(Twice(x)) == Twice(Less(x)) | 1
  {}

  lemma LessOne()
    ensures Less(1) == 0
  {}

  /** Two words with the same 64 bits are equal. */
  lemma {:induction false} SameBits(a: bv64, b: bv64)
    requires forall k: nat :: k < 64 ==> Bit(a, k) == Bit(b, k)
    ensures a == b
  {
    hide Low, Half;
    var x := a ^ b;
    forall k: nat
      ensures !Bit(x, k)
    {
      BitXor(a, b, k);
      if k >= 64 {
        BitsEnd(a, k);
        BitsEnd(b, k);
      }
    }
    NoBits(x);
    XorZero(a, b);
  }

  lemma BitsEnd(w: bv64, k: nat)
    requires k >= 64
    ensures !Bit(w, k)
  {
    hide Low, Half, Bit;
    RowAll();
    BitAnd(w, ALL_ONES, k);
    AndAll(w);
  }

  lemma AndAll(w: bv64)
    ensures w & ALL_ONES == w
  {}

  lemma XorZero(a: bv64, b: bv64)
    ensures a ^ b == 0 <==> a == b
  {}

  lemma {:induction false} NoBits(w: bv64)
    requires forall k: nat :: !Bit(w, k)
    ensures w == 0
    decreases w
  {
    if w != 0 {
      HalfShrinks(w);
      assert !Bit(w, 0);
      forall k: nat
        ensures !Bit(Half(w), k)
      {
        assert !Bit(w, k + 1);
      }
      NoBits(Half(w));
    }
  }

  // ---- the counters' meaning ----

  lemma {:induction false} TrailingOnesBits(w: bv64)
    ensures TrailingOnes(w) <= 64 && (TrailingOnes(w) == 64 <==> w == ALL_ONES)
    ensures forall k: nat :: k < TrailingOnes(w) ==> Bit(w, k)
    ensures !Bit(w, TrailingOnes(w))
  {
    hide Low, Half;
    OnesRow(w);
    var n := TrailingOnes(w);
    RowAll();
    if n > 64 {
      assert Bit(w, 64);
      BitsEnd(w, 64);
    }
    if n == 64 {
      assert forall k: nat :: k < 64 ==> Bit(w, k) == Bit(ALL_ONES, k);
      SameBits(w, ALL_ONES);
    }
    assert w == ALL_ONES ==> n >= 64;
  }

  lemma {:induction false} OnesRow(w: bv64)
    ensures forall k: nat :: k < TrailingOnes(w) ==> Bit(w, k)
    ensures !Bit(w, TrailingOnes(w))
    decreases TrailingOnes(w)
  {
    hide Half, Low;
    if Low(w) {
      OnesRow(Half(w));
      forall k: nat | k < TrailingOnes(w)
        ensures Bit(w, k)
      {
        if k > 0 {
          assert Bit(Half(w), k - 1);
        }
      }
    }
  }

  lemma {:induction false} TrailingZerosBits(w: bv64)
    requires w != 0
    ensures TrailingZeros(w) < 64 && Bit(w, TrailingZeros(w))
    ensures forall k: nat :: k < TrailingZeros(w) ==> !Bit(w, k)
  {
    hide Low, Half;
    ZerosRow(w);
    if TrailingZeros(w) >= 64 {
      BitsEnd(w, TrailingZeros(w));
    }
  }

  lemma {:induction false} ZerosRow(w: bv64)
    requires w != 0
    ensures Bit(w, TrailingZeros(w))
    ensures forall k: nat :: k < TrailingZeros(w) ==> !Bit(w, k)
    decreases TrailingZeros(w)
  {
    hide Half, Low;
    if !Low(w) {
      HalfShrinks(w);
      ZerosRow(Half(w));
      forall k: nat | k < TrailingZeros(w)
        ensures !Bit(w, k)
      {
        if k > 0 {
          assert !Bit(Half(w), k - 1);
        }
      }
    }
  }

  // ---- t & (t + 1) and t | (t - 1) ----

  function Strip(t: bv64): bv64 { t & (t + 1) }

  function Fill(t: bv64): bv64 { t | (t - 1) }

  lemma StripStep(t: bv64)
    ensures !Low(t) ==> Strip(t) == t
    ensures Low(t) && t != ALL_ONES ==> Half(Strip(t)) == Strip(Half(t)) && !Low(Strip(t))
    ensures Half(t) != ALL_ONES
  {
    if t & 1 == 1 && t != ALL_ONES {
      StripOdd(t);
    }
  }

  lemma StripOdd(t: bv64)
    requires t & 1 == 1 && t != ALL_ONES
    ensures (t & (t + 1)) >> 1 == (t >> 1) & ((t >> 1) + 1) && (t & (t + 1)) & 1 == 0
  {}

  /** t & (t + 1) clears exactly the row of ones at the low end. */
  lemma {:induction false} StripOnes(t: bv64, k: nat)
    requires t != ALL_ONES
    ensures Bit(Strip(t), k) <==> k >= TrailingOnes(t) && Bit(t, k)
    decreases k
  {
    hide Low, Half, Strip;
    StripStep(t);
    if Low(t) {
      if k > 0 {
        StripOnes(Half(t), k - 1);
      }
    }
  }

  lemma FillStep(t: bv64)
    requires t != 0
    ensures Low(t) ==> Fill(t) == t
    ensures !Low(t) ==> Half(Fill(t)) == Fill(Half(t)) && Low(Fill(t)) && Half(t) != 0
  {}

  /** t | (t - 1) sets exactly the row of zeros at the low end. */
  lemma {:induction false} FillZeros(t: bv64, k: nat)
    requires t != 0
    ensures Bit(Fill(t), k) <==> k < TrailingZeros(t) || Bit(t, k)
    decreases k
  {
    hide Low, Half, Fill;
    FillStep(t);
    if !Low(t) {
      if k > 0 {
        FillZeros(Half(t), k - 1);
      }
    }
  }
}
