/**
 The 32-bit info word of a page. A mask keeps the remainder by a power of two and a shift is a quotient,
 so the words are numbers here.
 */
module InfoWords {
  import opened Sizes
  import opened PageBits
  import opened Chunks
  import opened Collector

  const IS_LRUN: int := 0x4000_0000
  const IS_SRUN: int := 0x8000_0000

  predicate LrunFlag(w: int) { w / IS_LRUN % 2 == 1 }

  predicate SrunFlag(w: int) { w / IS_SRUN % 2 == 1 }

  function LrunPages(w: int): int { w % 0x400 }

  function SrunBin(w: int): int { w % 0x20 }

  function SrunCounter(w: int): int { w / 0x1_0000 % 0x200 }

  function NrunOffset(w: int): int { w / 0x1_0000 % 0x200 }

  function LrunWord(count: int): int { IS_LRUN + count }

  function SrunExWord(bin: int, count: int): int { IS_SRUN + bin + count * 0x1_0000 }

  function NrunWord(bin: int, offset: int): int { IS_SRUN + IS_LRUN + bin + offset * 0x1_0000 }

  /** The words the allocator writes, counters still below 512. */
  function Encode(info: Info): int {
    match info
    case FRun => 0
    case LRun(n) => LrunWord(n)
    case SRun(bin, c) => SrunExWord(bin, c)
    case NRun(bin, offset) => NrunWord(bin, offset)
  }

  /** What the allocator reads: the two flags first. */
  function Decode(w: int): Info {
    if SrunFlag(w) then
      if LrunFlag(w) then NRun(SrunBin(w), NrunOffset(w)) else SRun(SrunBin(w), SrunCounter(w))
    else if LrunFlag(w) then LRun(LrunPages(w))
    else FRun
  }

  predicate Fits(info: Info) {
    match info
    case FRun => true
    case LRun(n) => 0 <= n < 0x400
    case SRun(bin, c) => 0 <= bin < 0x20 && 0 <= c < 0x200
    case NRun(bin, offset) => 0 <= bin < 0x20 && 0 <= offset < 0x200
  }

  /** A word put together from two flag bits, 14 bits above and 16 bits below. */
  function Packed(flags: int, high: int, low: int): int { flags * IS_LRUN + high * 0x1_0000 + low }

  predicate InFields(flags: int, high: int, low: int) {
    0 <= flags < 4 && 0 <= high < 0x4000 && 0 <= low < 0x1_0000
  }

  lemma {:induction false} ManyTimes(k: int, d: int)
    requires k >= 1 && d > 0
    ensures k * d >= d
    decreases k
  {
    if k > 1 {
      ManyTimes(k - 1, d);
      assert k * d == (k - 1) * d + d;
    }
  }

  lemma OneQuotient(d: int, q: int, r: int, q': int, r': int)
    requires 0 <= r < d && 0 <= r' < d && q * d + r == q' * d + r'
    ensures q == q' && r == r'
  {
    assert (q - q') * d == r' - r && (q' - q) * d == r - r';
    if q > q' {
      ManyTimes(q - q', d);
    } else if q < q' {
      ManyTimes(q' - q, d);
    }
  }

  lemma Quotient(w: int, d: int, q: int, r: int)
    requires d > 0 && 0 <= r < d && w == q * d + r
    ensures w / d == q && w % d == r
  {
    OneQuotient(d, q, r, w / d, w % d);
  }

  lemma PackedFlags(flags: int, high: int, low: int)
    requires InFields(flags, high, low)
    ensures var w := Packed(flags, high, low);
            0 <= w < 0x1_0000_0000 && (LrunFlag(w) <==> flags % 2 == 1) && (SrunFlag(w) <==> flags >= 2)
  {
    var w := Packed(flags, high, low);
    Quotient(w, IS_LRUN, flags, high * 0x1_0000 + low);
    Quotient(w, IS_SRUN, if flags >= 2 then 1 else 0, w - if flags >= 2 then IS_SRUN else 0);
  }

  lemma PackedHigh(flags: int, high: int, low: int)
    requires InFields(flags, high, low)
    ensures Packed(flags, high, low) / 0x1_0000 % 0x200 == high % 0x200
  {
    Quotient(Packed(flags, high, low), 0x1_0000, flags * 0x4000 + high, low);
    Quotient(flags * 0x4000 + high, 0x200, flags * 0x20 + high / 0x200, high % 0x200);
  }

  lemma PackedLow(flags: int, high: int, low: int)
    requires InFields(flags, high, low)
    ensures Packed(flags, high, low) % 0x20 == low % 0x20
    ensures Packed(flags, high, low) % 0x400 == low % 0x400
  {
    var w := Packed(flags, high, low);
    Quotient(w, 0x20, flags * 0x200_0000 + high * 0x800 + low / 0x20, low % 0x20);
    Quotient(w, 0x400, flags * 0x10_0000 + high * 0x40 + low / 0x400, low % 0x400);
  }

  /** Where the fields are: two flags at the top, counter or offset from bit 16, bin or length from bit 0. */
  lemma WordLayout(info: Info)
    requires Fits(info)
    ensures 0 <= Encode(info) < 0x1_0000_0000
    ensures Encode(info) / 0x8000_0000 == (if info.SRun? || info.NRun? then 1 else 0)
    ensures Encode(info) / 0x4000_0000 % 2 == (if info.LRun? || info.NRun? then 1 else 0)
    ensures Encode(info) / 0x1_0000 % 0x4000 == (match info case SRun(_, c) => c case NRun(_, offset) => offset case _ => 0)
    ensures Encode(info) % 0x1_0000 == (match info case LRun(n) => n case SRun(bin, _) => bin case NRun(bin, _) => bin case FRun => 0)
  {
    match info
    case FRun =>
    case LRun(n) =>
    case SRun(bin, c) =>
      Quotient(Encode(info), 0x1_0000, 0x8000 + c, bin);
    case NRun(bin, offset) =>
      Quotient(Encode(info), 0x1_0000, 0xC000 + offset, bin);
  }

  /** Reading a word gives back its fields: the counter and the offset are read with 9 bits. */
  lemma PackedReads(flags: int, high: int, low: int)
    requires InFields(flags, high, low)
    ensures Decode(Packed(flags, high, low)) ==
            (if flags == 0 then FRun
             else if flags == 1 then LRun(low % 0x400)
             else if flags == 2 then SRun(low % 0x20, high % 0x200)
             else NRun(low % 0x20, high % 0x200))
  {
    hide Packed, LrunFlag, SrunFlag;
    PackedFlags(flags, high, low);
    PackedHigh(flags, high, low);
    PackedLow(flags, high, low);
  }

  lemma WordsPacked(info: Info)
    requires Fits(info)
    ensures match info
            case FRun => Encode(info) == Packed(0, 0, 0)
            case LRun(n) => Encode(info) == Packed(1, 0, n)
            case SRun(bin, c) => Encode(info) == Packed(2, c, bin)
            case NRun(bin, offset) => Encode(info) == Packed(3, offset, bin)
  {}

  /** Reading gives back what was written, exactly for the infos whose fields fit. */
  lemma InfoRoundTrip(info: Info)
    requires Fits(info)
    ensures Decode(Encode(info)) == info && 0 <= Encode(info) < 0x1_0000_0000
  {
    hide Decode, Encode, Packed;
    WordsPacked(info);
    match info {
      case FRun => PackedReads(0, 0, 0); PackedFlags(0, 0, 0);
      case LRun(n) => PackedReads(1, 0, n); PackedFlags(1, 0, n);
      case SRun(bin, c) => PackedReads(2, c, bin); PackedFlags(2, c, bin);
      case NRun(bin, offset) => PackedReads(3, offset, bin); PackedFlags(3, offset, bin);
    }
  }

  /** The collector writes counts up to 512 into 9 bits: a full count of bin 0 reads as zero. */
  lemma CounterWraps(bin: int, count: int)
    requires 0 <= bin < BINS && 0 <= count <= 512
    ensures Decode(SrunExWord(bin, count)) == SRun(bin, Wrapped(count))
  {
    hide Decode;
    assert SrunExWord(bin, count) == Packed(2, count, bin);
    PackedReads(2, count, bin);
  }

  /** Every run of a chunk in use has an info word that fits. */
  lemma RunsFit(t: Table, o: Owner, p: int)
    requires TableOk(t, o) && 0 <= p < PAGES && PageAt(t, o, p).PageRef?
    ensures Fits(PageAt(t, o, p).info) && |t.map_| == PAGES
    ensures p != PageAt(t, o, p).start && PageAt(t, o, p).info.SRun? ==> Fits(t.map_[p])
  {
    PageSpan(t, o, p);
    var PageRef(s, info) := PageAt(t, o, p);
    if info.SRun? {
      BinFacts(info.bin);
    }
  }
}
