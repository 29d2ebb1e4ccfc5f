/** The two bit counters of the page search, as binary searches over halves of a word. */
module WordCounts {
  import opened Words

  lemma FirstZeroUnique(w: bv64, m: nat, n: nat)
    requires (forall k: nat :: k < m ==> Bit(w, k)) && !Bit(w, m)
    requires (forall k: nat :: k < n ==> Bit(w, k)) && !Bit(w, n)
    ensures m == n
  {
    hide Bit;
  }

  /** One probe: the s low bits are all ones exactly when the row of ones is that long. */
  lemma OnesProbe(w: bv64, mask: bv64, s: nat)
    requires IsRow(mask, s)
    ensures And(w, mask) == mask <==> TrailingOnes(w) >= s
    ensures TrailingOnes(w) >= s ==> TrailingOnes(w) == s + TrailingOnes(Shr(w, s))
  {
    hide Bit, Low, Half, And, Shr, TrailingOnes;
    var n := TrailingOnes(w);
    TrailingOnesBits(w);
    if n >= s {
      forall k: nat | k < 64
        ensures Bit(And(w, mask), k) == Bit(mask, k)
      {
        BitAnd(w, mask, k);
      }
      SameBits(And(w, mask), mask);
      var n' := TrailingOnes(Shr(w, s));
      TrailingOnesBits(Shr(w, s));
      forall k: nat | k <= s + n'
        ensures Bit(w, k) <==> k < s + n'
      {
        if k >= s {
          BitShr(w, s, k - s);
        }
      }
      FirstZeroUnique(w, n, s + n');
    } else {
      BitAnd(w, mask, n);
      assert Bit(mask, n) && !Bit(And(w, mask), n);
    }
  }

  /** Number of trailing set bits; 64 for the all-ones word. */
  method Nts(word: bv64) returns (n: nat)
    ensures n == TrailingOnes(word)
  {
    hide *;
    var bitset := word;
    TrailingOnesBits(word);
    if bitset == ALL_ONES {
      return 64;
    }
    RowAll();
    n := 0;
    OnesProbe(bitset, 0xffff_ffff, 32);
    if And(bitset, 0xffff_ffff) == 0xffff_ffff { n := n + 32; bitset := Shr(bitset, 32); }
    assert TrailingOnes(word) == n + TrailingOnes(bitset) && TrailingOnes(bitset) < 32;
    OnesProbe(bitset, 0xffff, 16);
    if And(bitset, 0xffff) == 0xffff { n := n + 16; bitset := Shr(bitset, 16); }
    assert TrailingOnes(word) == n + TrailingOnes(bitset) && TrailingOnes(bitset) < 16;
    OnesProbe(bitset, 0xff, 8);
    if And(bitset, 0xff) == 0xff { n := n + 8; bitset := Shr(bitset, 8); }
    assert TrailingOnes(word) == n + TrailingOnes(bitset) && TrailingOnes(bitset) < 8;
    OnesProbe(bitset, 0xf, 4);
    if And(bitset, 0xf) == 0xf { n := n + 4; bitset := Shr(bitset, 4); }
    assert TrailingOnes(word) == n + TrailingOnes(bitset) && TrailingOnes(bitset) < 4;
    OnesProbe(bitset, 3, 2);
    if And(bitset, 3) == 3 { n := n + 2; bitset := Shr(bitset, 2); }
    assert TrailingOnes(word) == n + TrailingOnes(bitset) && TrailingOnes(bitset) < 2;
    LastOne(bitset);
    if Low(bitset) { n := n + 1; }
  }

  lemma LastOne(w: bv64)
    ensures TrailingOnes(w) < 2 ==> TrailingOnes(w) == if Low(w) then 1 else 0
  {}

  lemma FirstOneUnique(w: bv64, m: nat, n: nat)
    requires (forall k: nat :: k < m ==> !Bit(w, k)) && Bit(w, m)
    requires (forall k: nat :: k < n ==> !Bit(w, k)) && Bit(w, n)
    ensures m == n
  {
    hide Bit;
  }

  lemma ZerosProbe(w: bv64, mask: bv64, s: nat)
    requires IsRow(mask, s) && w != 0
    ensures And(w, mask) == 0 <==> TrailingZeros(w) >= s
    ensures TrailingZeros(w) >= s ==> Shr(w, s) != 0 && TrailingZeros(w) == s + TrailingZeros(Shr(w, s))
  {
    hide Bit, Low, Half, And, Shr, TrailingZeros;
    var n := TrailingZeros(w);
    TrailingZerosBits(w);
    BitAnd(w, mask, n);
    BitZero(n);
    if n >= s {
      forall k: nat
        ensures !Bit(And(w, mask), k)
      {
        BitAnd(w, mask, k);
      }
      NoBits(And(w, mask));
      BitShr(w, s, n - s);
      BitZero(n - s);
      var n' := TrailingZeros(Shr(w, s));
      TrailingZerosBits(Shr(w, s));
      forall k: nat | k <= s + n'
        ensures Bit(w, k) <==> k == s + n'
      {
        if k >= s {
          BitShr(w, s, k - s);
        }
      }
      FirstOneUnique(w, n, s + n');
    }
  }

  /** Number of trailing clear bits; 64 for zero. The code starts at 1 and takes one back for a set last bit. */
  method Ntz(word: bv64) returns (n: nat)
    ensures n == if word == 0 then 64 else TrailingZeros(word)
  {
    hide *;
    var num := word;
    if num == 0 {
      return 64;
    }
    TrailingZerosBits(word);
    RowAll();
    n := 1;
    ZerosProbe(num, 0xffff_ffff, 32);
    if And(num, 0xffff_ffff) == 0 { n := n + 32; num := Shr(num, 32); }
    assert TrailingZeros(word) == n + TrailingZeros(num) - 1 && TrailingZeros(num) < 32;
    ZerosProbe(num, 0xffff, 16);
    if And(num, 0xffff) == 0 { n := n + 16; num := Shr(num, 16); }
    assert TrailingZeros(word) == n + TrailingZeros(num) - 1 && TrailingZeros(num) < 16;
    ZerosProbe(num, 0xff, 8);
    if And(num, 0xff) == 0 { n := n + 8; num := Shr(num, 8); }
    assert TrailingZeros(word) == n + TrailingZeros(num) - 1 && TrailingZeros(num) < 8;
    ZerosProbe(num, 0xf, 4);
    if And(num, 0xf) == 0 { n := n + 4; num := Shr(num, 4); }
    assert TrailingZeros(word) == n + TrailingZeros(num) - 1 && TrailingZeros(num) < 4;
    ZerosProbe(num, 3, 2);
    if And(num, 3) == 0 { n := n + 2; num := Shr(num, 2); }
    assert TrailingZeros(word) == n + TrailingZeros(num) - 1 && TrailingZeros(num) < 2;
    LastZero(num);
    if Low(num) { n := n - 1; }
  }

  lemma LastZero(w: bv64)
    requires w != 0 && TrailingZeros(w) < 2
    ensures TrailingZeros(w) == if Low(w) then 0 else 1
  {}
}
