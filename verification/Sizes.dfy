/** Sizes, bins and the mapping from a request to its bin. */
module Sizes {

  const CHUNK_SIZE: int := 2 * 1024 * 1024
  const PAGE_SIZE: int := 4 * 1024
  const FIRST_PAGE: int := 1
  const MAX_SMALL_SIZE: int := 3072
  const MAX_LARGE_SIZE: int := CHUNK_SIZE - PAGE_SIZE * FIRST_PAGE
  const BINS: int := 30

  /** One row of the bin table: slot size, slots in a run, pages of a run. */
  datatype BinRow = BinRow(size: int, elements: int, pages: int)

  function Row(bin: int): BinRow
    requires 0 <= bin < BINS
  {
    if bin == 0 then BinRow(8, 512, 1)
    else if bin == 1 then BinRow(16, 256, 1)
    else if bin == 2 then BinRow(24, 170, 1)
    else if bin == 3 then BinRow(32, 128, 1)
    else if bin == 4 then BinRow(40, 102, 1)
    else if bin == 5 then BinRow(48, 85, 1)
    else if bin == 6 then BinRow(56, 73, 1)
    else if bin == 7 then BinRow(64, 64, 1)
    else if bin == 8 then BinRow(80, 51, 1)
    else if bin == 9 then BinRow(96, 42, 1)
    else if bin == 10 then BinRow(112, 36, 1)
    else if bin == 11 then BinRow(128, 32, 1)
    else if bin == 12 then BinRow(160, 25, 1)
    else if bin == 13 then BinRow(192, 21, 1)
    else if bin == 14 then BinRow(224, 18, 1)
    else if bin == 15 then BinRow(256, 16, 1)
    else if bin == 16 then BinRow(320, 64, 5)
    else if bin == 17 then BinRow(384, 32, 3)
    else if bin == 18 then BinRow(448, 9, 1)
    else if bin == 19 then BinRow(512, 8, 1)
    else if bin == 20 then BinRow(640, 32, 5)
    else if bin == 21 then BinRow(768, 16, 3)
    else if bin == 22 then BinRow(896, 9, 2)
    else if bin == 23 then BinRow(1024, 8, 2)
    else if bin == 24 then BinRow(1280, 16, 5)
    else if bin == 25 then BinRow(1536, 8, 3)
    else if bin == 26 then BinRow(1792, 16, 7)
    else if bin == 27 then BinRow(2048, 8, 4)
    else if bin == 28 then BinRow(2560, 8, 5)
    else BinRow(3072, 4, 3)
  }

  function BinSize(bin: int): int
    requires 0 <= bin < BINS
  {
    Row(bin).size
  }

  function BinElements(bin: int): int
    requires 0 <= bin < BINS
  {
    Row(bin).elements
  }

  function BinPages(bin: int): int
    requires 0 <= bin < BINS
  {
    Row(bin).pages
  }

  /** A run of a bin has room for its slots, slots hold a free-list link, and counters fit except in bin 0. */
  lemma BinFacts(bin: int)
    requires 0 <= bin < BINS
    ensures 8 <= BinSize(bin) <= MAX_SMALL_SIZE && BinSize(bin) % 8 == 0
    ensures 4 <= BinElements(bin) <= 512 && 1 <= BinPages(bin) <= 7
    ensures BinElements(bin) * BinSize(bin) <= BinPages(bin) * PAGE_SIZE
    ensures BinElements(bin) == 512 <==> bin == 0
  {}

  /**
   A run holds as many slots as fit, at least eight of them but for the largest, and wastes a fortieth of its
   bytes at most. Slots below 256 bytes come in single pages; above that the odd factor of the slot size
   decides: runs of 5 or 3 pages without waste for 5 and 3, eight slots for powers of two, and for 7 one or
   two pages with a little waste until seven pages without.
   */
  lemma RunShape(bin: int)
    requires 0 <= bin < BINS
    ensures var size, pages := BinSize(bin), BinPages(bin);
            && BinElements(bin) == pages * PAGE_SIZE / size
            && (pages * PAGE_SIZE - BinElements(bin) * size) * 40 <= pages * PAGE_SIZE
            && (bin < BINS - 1 ==> BinElements(bin) >= 8)
            && (size < 256 ==> pages == 1)
            && (size >= 256 && size % 7 != 0 ==> pages * PAGE_SIZE % size == 0)
            && (size >= 256 && size % 5 == 0 ==> pages == 5)
            && (size >= 256 && size % 3 == 0 ==> pages == 3)
            && (size >= 256 && size % 7 == 0 ==> pages == if size == 1792 then 7 else size / 448)
            && (size >= 256 && size % 5 != 0 && size % 3 != 0 && size % 7 != 0 ==> pages == if size <= 512 then 1 else size / 512)
  {}

  /** Slot sizes grow by 8 up to 64, then in four steps from one power of two to the next. */
  lemma SizeLaw(bin: int)
    requires 0 <= bin < BINS
    ensures bin < 8 ==> BinSize(bin) == 8 * (bin + 1)
    ensures bin >= 8 ==> BinSize(bin) == (5 + (bin - 8) % 4) * Pow2(4 + (bin - 8) / 4)
    ensures bin == BINS - 1 ==> BinSize(bin) == MAX_SMALL_SIZE
    ensures MAX_LARGE_SIZE == 511 * PAGE_SIZE && CHUNK_SIZE == 512 * PAGE_SIZE
  {
    Powers();
  }

  lemma BinsGrow(bin: int)
    requires 0 < bin < BINS
    ensures BinSize(bin - 1) < BinSize(bin)
  {}

  // ---- request size to bin ----

  /** Position of the highest set bit of a 16-bit value, counted from 1: a binary search from the top. */
  method SmallSizeToBit(size: int) returns (n: int)
    requires 0 < size < 0x1_0000
    ensures n == BitLength(size)
  {
    var s := size;
    n := 16;
    if s <= 0x00ff { n := n - 8; s := s * 0x100; }
    if s <= 0x0fff { n := n - 4; s := s * 0x10; }
    if s <= 0x3fff { n := n - 2; s := s * 4; }
    if s <= 0x7fff { n := n - 1; }
    BitLengths(size, n);
  }

  function BitLength(n: nat): nat {
    if n == 0 then 0 else 1 + BitLength(n / 2)
  }

  function Pow2(n: nat): (p: nat)
    ensures p > 0
  {
    if n == 0 then 1 else 2 * Pow2(n - 1)
  }

  lemma {:induction false} BitLengthUnique(size: int, n: nat)
    requires n > 0 && Pow2(n - 1) <= size < Pow2(n)
    ensures BitLength(size) == n
  {
    if n > 1 {
      BitLengthUnique(size / 2, n - 1);
    } else {
      assert Pow2(0) == 1 && Pow2(1) == 2;
    }
  }

  lemma Powers()
    ensures Pow2(0) == 1 && Pow2(1) == 2 && Pow2(2) == 4 && Pow2(3) == 8 && Pow2(4) == 16 && Pow2(5) == 32
    ensures Pow2(6) == 64 && Pow2(7) == 128 && Pow2(8) == 256 && Pow2(9) == 512 && Pow2(10) == 1024
    ensures Pow2(11) == 2048 && Pow2(12) == 4096 && Pow2(13) == 8192 && Pow2(14) == 16384
    ensures Pow2(15) == 32768 && Pow2(16) == 65536
  {}

  lemma BitLengths(size: int, n: int)
    requires 0 < size < 0x1_0000
    requires 0 < n <= 16
    requires n == 16 ==> size >= 0x8000
    requires n == 15 ==> 0x4000 <= size < 0x8000
    requires n == 14 ==> 0x2000 <= size < 0x4000
    requires n == 13 ==> 0x1000 <= size < 0x2000
    requires n == 12 ==> 0x800 <= size < 0x1000
    requires n == 11 ==> 0x400 <= size < 0x800
    requires n == 10 ==> 0x200 <= size < 0x400
    requires n == 9 ==> 0x100 <= size < 0x200
    requires n == 8 ==> 0x80 <= size < 0x100
    requires n == 7 ==> 0x40 <= size < 0x80
    requires n == 6 ==> 0x20 <= size < 0x40
    requires n == 5 ==> 0x10 <= size < 0x20
    requires n == 4 ==> 8 <= size < 0x10
    requires n == 3 ==> 4 <= size < 8
    requires n == 2 ==> 2 <= size < 4
    requires n == 1 ==> size == 1
    ensures BitLength(size) == n
  {
    Powers();
    BitLengthUnique(size, n);
  }

  /** The bin of a small request. */
  function SizeToBin(size: int): int
    requires 0 <= size <= MAX_SMALL_SIZE
  {
    if size <= 64 then
      (if size == 0 then 0 else (size - 1) / 8)
    else
      var t2: nat := ShiftOf(size);
      (size - 1) / Pow2(t2) + (t2 - 3) * 4
  }

  function ShiftOf(size: int): (t2: nat)
    requires 64 < size <= MAX_SMALL_SIZE
  {
    BitLengthAtLeast(size - 1);
    BitLength(size - 1) - 3
  }

  lemma BitLengthAtLeast(n: int)
    requires 64 <= n < 4096
    ensures 7 <= BitLength(n) <= 12 && Pow2(BitLength(n) - 1) <= n < Pow2(BitLength(n))
  {
    Powers();
    var k := if n < 128 then 7 else if n < 256 then 8 else if n < 512 then 9
             else if n < 1024 then 10 else if n < 2048 then 11 else 12;
    BitLengthUnique(n, k);
  }

  /** The code's shifts compute SizeToBin. */
  method SmallSizeToBin(size: int) returns (bin: int)
    requires 0 <= size <= MAX_SMALL_SIZE
    ensures bin == SizeToBin(size)
  {
    if size <= 64 {
      // also size == 0
      bin := (size - (if size == 0 then 0 else 1)) / 8;
    } else {
      var t1 := size - 1;
      var t2 := SmallSizeToBit(t1);
      BitLengthAtLeast(t1);
      t2 := t2 - 3;
      t1 := t1 / Pow2(t2);
      t2 := t2 - 3;
      t2 := t2 * 4;
      bin := t1 + t2;
    }
  }

  /** The chosen bin is the least one whose slots are large enough. */
  lemma BinIsLeast(size: int)
    requires 0 <= size <= MAX_SMALL_SIZE
    ensures var bin := SizeToBin(size);
            && 0 <= bin < BINS && size <= BinSize(bin)
            && forall b :: 0 <= b < bin ==> BinSize(b) < size
  {
    if size > 64 {
      BitLengthAtLeast(size - 1);
      Powers();
      MediumBin(size, ShiftOf(size), (size - 1) / Pow2(ShiftOf(size)));
    }
    var bin := SizeToBin(size);
    forall b | 0 <= b < bin
      ensures BinSize(b) < size
    {
      Monotone(b, bin - 1);
    }
  }

  lemma MediumBin(size: int, t2: nat, q: int)
    requires 64 < size <= MAX_SMALL_SIZE && 4 <= t2 <= 9
    requires Pow2(t2 + 2) <= size - 1 < Pow2(t2 + 3) && q == (size - 1) / Pow2(t2)
    ensures var bin := q + (t2 - 3) * 4;
            0 < bin < BINS && BinSize(bin - 1) < size <= BinSize(bin)
  {
    Powers();
    if t2 == 4 {
    } else if t2 == 5 {
    } else if t2 == 6 {
    } else if t2 == 7 {
    } else if t2 == 8 {
    } else {
    }
  }

  lemma {:induction false} Monotone(a: int, b: int)
    requires 0 <= a <= b < BINS
    ensures BinSize(a) <= BinSize(b)
    decreases b - a
  {
    if a < b {
      BinsGrow(b);
      Monotone(a, b - 1);
    }
  }

  // ---- slots of a run ----

  /** Offsets 0, size, .., (k - 1) * size. */
  function Multiples(size: int, k: nat): set<int> {
    if k == 0 then {} else Multiples(size, k - 1) + {(k - 1) * size}
  }

  function Offsets(bin: int): set<int>
    requires 0 <= bin < BINS
  {
    BinFacts(bin);
    Multiples(BinSize(bin), BinElements(bin))
  }

  lemma {:induction false} MultiplesFacts(size: int, k: nat, d: int)
    requires size > 0
    ensures d in Multiples(size, k) <==> exists j :: 0 <= j < k && d == j * size
    decreases k
  {
    if k > 0 {
      MultiplesFacts(size, k - 1, d);
    }
  }

  lemma {:induction false} MultiplesCard(size: int, k: nat)
    requires size > 0
    ensures |Multiples(size, k)| == k
    decreases k
  {
    if k > 0 {
      MultiplesCard(size, k - 1);
      MultiplesFacts(size, k - 1, (k - 1) * size);
      forall j | 0 <= j < k - 1
        ensures j * size != (k - 1) * size
      {
        MulLess(j, k - 1, size);
      }
    }
  }

  lemma MulLess(i: int, j: int, size: int)
    requires i < j && size > 0
    ensures i * size + size <= j * size
  {
    assert (j - i - 1) * size >= 0;
  }

  lemma MulOrder(i: int, j: int, size: int)
    requires i * size < j * size && size > 0
    ensures i < j
  {
    if j < i {
      MulLess(j, i, size);
    }
  }

  lemma MulMod8(j: int, size: int)
    requires size % 8 == 0
    ensures (j * size) % 8 == 0
  {
    assert j * size == 8 * (j * (size / 8));
  }

  /** A slot lies inside its run and is 8-aligned. */
  lemma OffsetInRun(bin: int, d: int)
    requires 0 <= bin < BINS && d in Offsets(bin)
    ensures 0 <= d && d + BinSize(bin) <= BinPages(bin) * PAGE_SIZE && d % 8 == 0
  {
    BinFacts(bin);
    hide Row, BinSize, BinElements, BinPages, Multiples;
    var size := BinSize(bin);
    MultiplesFacts(size, BinElements(bin), d);
    var j :| 0 <= j < BinElements(bin) && d == j * size;
    MulLess(j, BinElements(bin), size);
    MulMod8(j, size);
    assert j * size >= 0;
  }

  /** Two slots of a run do not overlap. */
  lemma OffsetsApart(bin: int, d: int, e: int)
    requires 0 <= bin < BINS && d in Offsets(bin) && e in Offsets(bin) && d < e
    ensures d + BinSize(bin) <= e
  {
    BinFacts(bin);
    hide Row, BinSize, BinElements, BinPages, Multiples;
    var size := BinSize(bin);
    MultiplesFacts(size, BinElements(bin), d);
    MultiplesFacts(size, BinElements(bin), e);
    var i :| 0 <= i < BinElements(bin) && d == i * size;
    var j :| 0 <= j < BinElements(bin) && e == j * size;
    MulOrder(i, j, size);
    MulLess(i, j, size);
  }

  lemma FirstOffset(bin: int)
    requires 0 <= bin < BINS
    ensures 0 in Offsets(bin) && |Offsets(bin)| == BinElements(bin)
  {
    BinFacts(bin);
    hide Row, BinSize, BinElements, Multiples;
    MultiplesFacts(BinSize(bin), BinElements(bin), 0);
    MultiplesCard(BinSize(bin), BinElements(bin));
    assert 0 == 0 * BinSize(bin);
  }
}
