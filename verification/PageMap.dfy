/**
 The page bitmap as the allocator keeps it: an array of 64-bit words, read and written with masks.
 Every routine is proved against the row of booleans the words stand for.
 */
module PageMap {
  import opened Words
  import opened PageBits

  /** Bit p of a row of words. */
  predicate At(ws: seq<bv64>, p: nat)
    requires p < 64 * |ws|
  {
    Bit(ws[p / 64], p % 64)
  }

  function Bits(ws: seq<bv64>): (r: seq<bool>)
    ensures |r| == 64 * |ws|
  {
    seq(64 * |ws|, p requires 0 <= p < 64 * |ws| => At(ws, p))
  }

  /** The masks the range routines build: bits lo..hi of a word. */
  ghost predicate IsMask(m: bv64, lo: nat, hi: nat) {
    forall k: nat :: k < 64 ==> (Bit(m, k) <==> lo <= k <= hi)
  }

  lemma HighMask(lo: nat)
    requires lo < 64
    ensures IsMask(Shl(ALL_ONES, lo), lo, 63)
  {
    hide Shl, Bit, Low, Half;
    var m := Shl(ALL_ONES, lo);
    forall k: nat | k < 64
      ensures Bit(m, k) <==> lo <= k <= 63
    {
      BitShl(ALL_ONES, lo, k);
      RowAll();
    }
  }

  lemma LowMask(hi: nat)
    requires hi < 64
    ensures IsMask(Shr(ALL_ONES, 63 - hi), 0, hi)
  {
    hide Shr, Bit, Low, Half;
    var m := Shr(ALL_ONES, 63 - hi);
    forall k: nat | k < 64
      ensures Bit(m, k) <==> 0 <= k <= hi
    {
      BitShr(ALL_ONES, 63 - hi, k);
      RowAll();
    }
  }

  lemma BothMasks(lo: nat, hi: nat)
    requires lo < 64 && hi < 64
    ensures IsMask(And(Shl(ALL_ONES, lo), Shr(ALL_ONES, 63 - hi)), lo, hi)
  {
    hide Shl, Shr, Bit, Low, Half, And;
    HighMask(lo);
    LowMask(hi);
    var m := And(Shl(ALL_ONES, lo), Shr(ALL_ONES, 63 - hi));
    forall k: nat | k < 64
      ensures Bit(m, k) <==> lo <= k <= hi
    {
      BitAnd(Shl(ALL_ONES, lo), Shr(ALL_ONES, 63 - hi), k);
    }
  }

  lemma OneMask(n: nat)
    requires n < 64
    ensures IsMask(Shl(1, n), n, n)
  {
    hide Shl, Bit, Low, Half;
    forall k: nat | k < 64
      ensures Bit(Shl(1, n), k) <==> n <= k <= n
    {
      BitOne(n, k);
    }
  }

  /** ~((1 << n) - 1), the other way the code writes the high mask. */
  lemma HighMaskAgain(n: nat)
    requires n < 64
    ensures IsMask(Not(Less(Shl(1, n))), n, 63)
  {
    hide Shl, Bit, Low, Half, Less;
    var m := Not(Less(Shl(1, n)));
    forall k: nat | k < 64
      ensures Bit(m, k) <==> n <= k <= 63
    {
      BitNot(Less(Shl(1, n)), k);
      BitOneLess(n, k);
    }
  }

  /** w' is w with bits lo..hi made v. */
  ghost predicate Patched(w: bv64, w': bv64, lo: nat, hi: nat, v: bool) {
    forall k: nat :: k < 64 ==> Bit(w', k) == if lo <= k <= hi then v else Bit(w, k)
  }

  /** Setting under a mask, clearing under a mask, testing under a mask. */
  lemma UnderMask(w: bv64, m: bv64, lo: nat, hi: nat)
    requires IsMask(m, lo, hi) && hi < 64
    ensures Patched(w, Or(w, m), lo, hi, true)
    ensures Patched(w, And(w, Not(m)), lo, hi, false)
    ensures And(w, m) == 0 <==> Clear(w, lo, hi)
  {
    hide Bit, Low, Half, And, Or, Not;
    forall k: nat | k < 64
      ensures Bit(Or(w, m), k) <==> lo <= k <= hi || Bit(w, k)
      ensures Bit(And(w, Not(m)), k) <==> !(lo <= k <= hi) && Bit(w, k)
      ensures Bit(And(w, m), k) <==> lo <= k <= hi && Bit(w, k)
    {
      BitOr(w, m, k);
      BitAnd(w, Not(m), k);
      BitNot(m, k);
      BitAnd(w, m, k);
    }
    ZeroWord(And(w, m));
  }

  ghost predicate Clear(w: bv64, lo: nat, hi: nat) {
    forall k: nat :: lo <= k <= hi ==> !Bit(w, k)
  }

  ghost predicate Full(w: bv64) {
    forall k: nat :: k < 64 ==> Bit(w, k)
  }

  lemma ZeroWord(w: bv64)
    ensures w == 0 <==> Clear(w, 0, 63)
  {
    hide Bit, Low, Half;
    forall k: nat
      ensures !Bit(0, k)
    {
      BitZero(k);
    }
    if Clear(w, 0, 63) {
      forall k: nat
        ensures !Bit(w, k)
      {
        if k >= 64 {
          BitsEnd(w, k);
        }
      }
      NoBits(w);
    }
  }

  lemma FullWord(w: bv64)
    ensures w == ALL_ONES <==> Full(w)
  {
    hide Bit, Low, Half;
    RowAll();
    if Full(w) {
      SameBits(w, ALL_ONES);
    }
  }

  /** Patching word j extends a filled stretch of the row from mid to end. */
  lemma PatchWord(ws: seq<bv64>, w: bv64, j: nat, before: seq<bool>, start: nat, mid: nat, end: nat, v: bool)
    requires j < |ws| && 64 * j <= mid < end <= 64 * j + 64 && start <= mid
    requires Bits(ws) == PageBits.Fill(before, start, mid - start, v)
    requires Patched(ws[j], w, mid - 64 * j, end - 1 - 64 * j, v)
    ensures Bits(ws[j := w]) == PageBits.Fill(before, start, end - start, v)
  {
    hide Bit, Low, Half;
    var ws' := ws[j := w];
    forall p | 0 <= p < 64 * |ws|
      ensures Bits(ws')[p] == PageBits.Fill(before, start, end - start, v)[p]
    {
      assert Bits(ws)[p] == PageBits.Fill(before, start, mid - start, v)[p];
    }
  }

  lemma NothingFilled(ws: seq<bv64>, start: nat, v: bool)
    ensures Bits(ws) == PageBits.Fill(Bits(ws), start, 0, v)
  {}

  // ---- one bit ----

  method IsSet(bitset: array<bv64>, bit: nat) returns (r: bool)
    requires bit < 64 * bitset.Length
    ensures r <==> Bits(bitset[..])[bit]
  {
    hide Shl, Bit, Low, Half, And;
    OneMask(bit % 64);
    UnderMask(bitset[bit / 64], Shl(1, bit % 64), bit % 64, bit % 64);
    r := And(bitset[bit / 64], Shl(1, bit % 64)) != 0;
  }

  method SetBit(bitset: array<bv64>, bit: nat)
    requires bit < 64 * bitset.Length
    modifies bitset
    ensures Bits(bitset[..]) == PageBits.Fill(old(Bits(bitset[..])), bit, 1, true)
  {
    hide *;
    ghost var ws := bitset[..];
    OneMask(bit % 64);
    UnderMask(bitset[bit / 64], Shl(1, bit % 64), bit % 64, bit % 64);
    NothingFilled(ws, bit, true);
    bitset[bit / 64] := Or(bitset[bit / 64], Shl(1, bit % 64));
    assert bitset[..] == ws[bit / 64 := bitset[bit / 64]];
    PatchWord(ws, bitset[bit / 64], bit / 64, Bits(ws), bit, bit, bit + 1, true);
  }

  method ResetBit(bitset: array<bv64>, bit: nat)
    requires bit < 64 * bitset.Length
    modifies bitset
    ensures Bits(bitset[..]) == PageBits.Fill(old(Bits(bitset[..])), bit, 1, false)
  {
    hide *;
    ghost var ws := bitset[..];
    OneMask(bit % 64);
    UnderMask(bitset[bit / 64], Shl(1, bit % 64), bit % 64, bit % 64);
    NothingFilled(ws, bit, false);
    bitset[bit / 64] := And(bitset[bit / 64], Not(Shl(1, bit % 64)));
    assert bitset[..] == ws[bit / 64 := bitset[bit / 64]];
    PatchWord(ws, bitset[bit / 64], bit / 64, Bits(ws), bit, bit, bit + 1, false);
  }

  // ---- ranges ----

  method SetRange(bitset: array<bv64>, start: nat, len: nat)
    requires len > 0 && start + len <= 64 * bitset.Length
    modifies bitset
    ensures Bits(bitset[..]) == PageBits.Fill(old(Bits(bitset[..])), start, len, true)
  {
    hide *;
    if len == 1 {
      SetBit(bitset, start);
    } else {
      var pos := start / 64;
      var end := (start + len - 1) / 64;
      var bit := start % 64;
      ghost var before := Bits(bitset[..]);
      ghost var ws := bitset[..];
      NothingFilled(ws, start, true);
      if pos != end {
        // bits from "bit" to 63
        var tmp := Shl(ALL_ONES, bit);
        HighMask(bit);
        UnderMask(bitset[pos], tmp, bit, 63);
        bitset[pos] := Or(bitset[pos], tmp);
        assert bitset[..] == ws[pos := bitset[pos]];
        PatchWord(ws, bitset[pos], pos, before, start, start, 64 * pos + 64, true);
        pos := pos + 1;
        while pos != end
          invariant start / 64 < pos <= end
          invariant Bits(bitset[..]) == PageBits.Fill(before, start, 64 * pos - start, true)
        {
          // all bits
          ws := bitset[..];
          WholeWord(bitset[pos]);
          bitset[pos] := ALL_ONES;
          assert bitset[..] == ws[pos := bitset[pos]];
          PatchWord(ws, bitset[pos], pos, before, start, 64 * pos, 64 * pos + 64, true);
          pos := pos + 1;
        }
        end := (start + len - 1) % 64;
        // bits from 0 to "end"
        tmp := Shr(ALL_ONES, 63 - end);
        LowMask(end);
        ws := bitset[..];
        UnderMask(bitset[pos], tmp, 0, end);
        bitset[pos] := Or(bitset[pos], tmp);
        assert bitset[..] == ws[pos := bitset[pos]];
        PatchWord(ws, bitset[pos], pos, before, start, 64 * pos, start + len, true);
      } else {
        end := (start + len - 1) % 64;
        // bits from "bit" to "end"
        var tmp := And(Shl(ALL_ONES, bit), Shr(ALL_ONES, 63 - end));
        BothMasks(bit, end);
        UnderMask(bitset[pos], tmp, bit, end);
        bitset[pos] := Or(bitset[pos], tmp);
        assert bitset[..] == ws[pos := bitset[pos]];
        PatchWord(ws, bitset[pos], pos, before, start, start, start + len, true);
      }
    }
  }

  method ResetRange(bitset: array<bv64>, start: nat, len: nat)
    requires len > 0 && start + len <= 64 * bitset.Length
    modifies bitset
    ensures Bits(bitset[..]) == PageBits.Fill(old(Bits(bitset[..])), start, len, false)
  {
    hide *;
    if len == 1 {
      ResetBit(bitset, start);
    } else {
      var pos := start / 64;
      var end := (start + len - 1) / 64;
      var bit := start % 64;
      ghost var before := Bits(bitset[..]);
      ghost var ws := bitset[..];
      NothingFilled(ws, start, false);
      if pos != end {
        var tmp := Not(Less(Shl(1, bit)));
        HighMaskAgain(bit);
        UnderMask(bitset[pos], tmp, bit, 63);
        bitset[pos] := And(bitset[pos], Not(tmp));
        assert bitset[..] == ws[pos := bitset[pos]];
        PatchWord(ws, bitset[pos], pos, before, start, start, 64 * pos + 64, false);
        pos := pos + 1;
        while pos != end
          invariant start / 64 < pos <= end
          invariant Bits(bitset[..]) == PageBits.Fill(before, start, 64 * pos - start, false)
        {
          ws := bitset[..];
          WholeWord(bitset[pos]);
          bitset[pos] := 0;
          assert bitset[..] == ws[pos := bitset[pos]];
          PatchWord(ws, bitset[pos], pos, before, start, 64 * pos, 64 * pos + 64, false);
          pos := pos + 1;
        }
        end := (start + len - 1) % 64;
        tmp := Shr(ALL_ONES, 63 - end);
        LowMask(end);
        ws := bitset[..];
        UnderMask(bitset[pos], tmp, 0, end);
        bitset[pos] := And(bitset[pos], Not(tmp));
        assert bitset[..] == ws[pos := bitset[pos]];
        PatchWord(ws, bitset[pos], pos, before, start, 64 * pos, start + len, false);
      } else {
        end := (start + len - 1) % 64;
        var tmp := And(Shl(ALL_ONES, bit), Shr(ALL_ONES, 63 - end));
        BothMasks(bit, end);
        UnderMask(bitset[pos], tmp, bit, end);
        bitset[pos] := And(bitset[pos], Not(tmp));
        assert bitset[..] == ws[pos := bitset[pos]];
        PatchWord(ws, bitset[pos], pos, before, start, start, start + len, false);
      }
    }
  }

  lemma WholeWord(w: bv64)
    ensures Patched(w, ALL_ONES, 0, 63, true) && Patched(w, 0, 0, 63, false)
  {
    hide Bit, Low, Half;
    RowAll();
    ZeroWord(0);
  }

  /** A word clear from lo to hi is a stretch of free pages. */
  lemma ClearWord(ws: seq<bv64>, j: nat, lo: nat, hi: nat)
    requires j < |ws| && lo <= hi < 64
    ensures Clear(ws[j], lo, hi) <==> FreeRange(Bits(ws), 64 * j + lo, hi - lo + 1)
  {
    hide Bit, Low, Half;
    if FreeRange(Bits(ws), 64 * j + lo, hi - lo + 1) {
      forall k: nat | lo <= k <= hi
        ensures !Bit(ws[j], k)
      {
        assert !Bits(ws)[64 * j + k];
      }
    }
  }

  lemma FreeRangeSplit(bits: seq<bool>, start: nat, m: nat, n: nat)
    requires start + m + n <= |bits|
    ensures FreeRange(bits, start, m + n) <==> FreeRange(bits, start, m) && FreeRange(bits, start + m, n)
  {}

  method IsFreeRange(bitset: array<bv64>, start: nat, len: nat) returns (r: bool)
    requires len > 0 && start + len <= 64 * bitset.Length
    ensures r <==> FreeRange(Bits(bitset[..]), start, len)
  {
    hide Shl, Shr, Bit, Low, Half, And, Or, Not, Clear;
    ghost var bits := Bits(bitset[..]);
    if len == 1 {
      r := IsSet(bitset, start);
      r := !r;
    } else {
      var pos := start / 64;
      var end := (start + len - 1) / 64;
      var bit := start % 64;
      if pos != end {
        var tmp := Shl(ALL_ONES, bit);
        HighMask(bit);
        UnderMask(bitset[pos], tmp, bit, 63);
        ClearWord(bitset[..], pos, bit, 63);
        FreeRangeSplit(bits, start, 64 - bit, len - (64 - bit));
        if And(bitset[pos], tmp) != 0 {
          return false;
        }
        pos := pos + 1;
        while pos != end
          invariant start / 64 < pos <= end
          invariant FreeRange(bits, start, 64 * pos - start)
        {
          ZeroWord(bitset[pos]);
          ClearWord(bitset[..], pos, 0, 63);
          FreeRangeSplit(bits, start, 64 * pos - start, 64);
          FreeRangeSplit(bits, start, 64 * pos - start + 64, start + len - 64 * pos - 64);
          if bitset[pos] != 0 {
            return false;
          }
          pos := pos + 1;
        }
        end := (start + len - 1) % 64;
        tmp := Shr(ALL_ONES, 63 - end);
        LowMask(end);
        UnderMask(bitset[pos], tmp, 0, end);
        ClearWord(bitset[..], pos, 0, end);
        FreeRangeSplit(bits, start, 64 * pos - start, end + 1);
        r := And(bitset[pos], tmp) == 0;
      } else {
        end := (start + len - 1) % 64;
        var tmp := And(Shl(ALL_ONES, bit), Shr(ALL_ONES, 63 - end));
        BothMasks(bit, end);
        UnderMask(bitset[pos], tmp, bit, end);
        ClearWord(bitset[..], pos, bit, end);
        r := And(bitset[pos], tmp) == 0;
      }
    }
  }
}
