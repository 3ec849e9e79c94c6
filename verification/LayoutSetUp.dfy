/** How dm-integrity sets up its layout: the tag run from the tag size, the interleave and the
    padding, and the metadata buffer from what was asked for and the run; and for which requests
    the layout that comes out keeps tags and data apart.
 */
module LayoutSetUp {
  import opened Arithmetic
  import opened Layout

  const MAX_TAG_SIZE := 424
  const MIN_LOG2_INTERLEAVE := 3

  datatype Request = Request(
    tag: nat,            // tag_size, in bytes
    interleave: nat,     // log2_interleave_sectors of the superblock
    block: nat,          // log2_sectors_per_block
    buffer: nat,         // log2 of the buffer size asked for
    fixedPadding: bool,  // SB_FLAG_FIXED_PADDING
    initial: nat,
    start: nat)

  /** What the constructor and the superblock checks let through. */
  predicate Accepted(r: Request) {
    && 0 < r.tag <= MAX_TAG_SIZE && MIN_LOG2_INTERLEAVE <= r.interleave && r.block <= 3
    && r.initial >= SB_SECTORS
  }

  /** `__ffs`: the place of the lowest bit that is set. */
  function LowestBit(n: nat): (b: nat)
    requires n > 0
    ensures n % Pow2(b) == 0 && Pow2(b) <= n
  {
    if n % 2 == 1 then 0
    else
      var b := LowestBit(n / 2);
      assert n % Pow2(b + 1) == 0 by { Doubled(n / 2, Pow2(b)); }
      b + 1
  }

  lemma Doubled(n: nat, d: nat)
    requires d > 0 && n % d == 0
    ensures (2 * n) % (2 * d) == 0
  {
    DivMod(n, d);
    var q := n / d;
    assert 2 * n == q * (2 * d);
    DivUnique(q, 0, 2 * d);
  }

  /** The logarithm of a power of two, else -1. */
  function LogOrNone(n: nat): int
    requires n > 0
  {
    if n == Pow2(LowestBit(n)) then LowestBit(n) else -1
  }

  /** Logarithm of the padding in sectors; the old one shifts by what it should multiply with. */
  function LogPadding(fixedPadding: bool): nat {
    if fixedPadding then 3 else 8
  }

  function Run(r: Request): nat
    requires Accepted(r)
  {
    MetadataRun(r.tag, r.interleave, r.block, Pow2(LogPadding(r.fixedPadding)) * SECTOR)
  }

  /** The tag run is a whole number of paddings, as few as hold the tags. */
  lemma RunIsPadded(r: Request) returns (q: nat)
    requires Accepted(r)
    ensures q > 0 && Run(r) == q * Pow2(LogPadding(r.fixedPadding))
    ensures (q - 1) * (Pow2(LogPadding(r.fixedPadding)) * SECTOR) < r.tag * Pow2(r.interleave - r.block)
  {
    var bytes, sectors := r.tag * Pow2(r.interleave - r.block), Pow2(LogPadding(r.fixedPadding));
    var padding := sectors * SECTOR;
    MulMono(1, r.tag, Pow2(r.interleave - r.block));
    q := Div(bytes + padding - 1, padding);
    assert q * padding == (q * sectors) * SECTOR;
    DivIs(q * sectors, 0, SECTOR);
    MulAdd(q, -1, padding);
    if q == 0 {
      assert false;
    }
  }

  /** What set-up comes to. */
  function SetUp(r: Request): Config
    requires Accepted(r) && Run(r) > 0
  {
    var run := Run(r);
    Config(r.interleave, if r.buffer < LowestBit(run) then r.buffer else LowestBit(run), r.block,
           r.tag, LogOrNone(r.tag), run, LogOrNone(run), r.initial, r.start)
  }

  lemma DividedByLess(n: nat, a: nat, b: nat)
    requires a <= b && n % Pow2(b) == 0
    ensures n % Pow2(a) == 0
  {
    Pow2Add(b - a, a);
    DivMod(n, Pow2(b));
    var q := n / Pow2(b);
    MulAssoc(q, Pow2(b - a), Pow2(a));
    DivUnique(q * Pow2(b - a), 0, Pow2(a));
  }

  /** Set-up gives a layout that the address functions work with. */
  lemma SetUpIsValid(r: Request)
    requires Accepted(r)
    ensures Run(r) > 0 && SetUp(r).Valid()
  {
    var q := RunIsPadded(r);
    var sectors := Pow2(LogPadding(r.fixedPadding));
    MulMono(1, q, sectors);
    RunHoldsTags(r.tag, r.interleave, r.block, sectors);
    var c := SetUp(r);
    DividedByLess(c.run, c.buffer, LowestBit(c.run));
    if c.log2Tag > 9 {
      Pow2Nine();
      Pow2Less(9, c.log2Tag);
    }
  }

  /** Rounding up to a padding does not pass a number of whole paddings. */
  lemma RoundedFits(q: nat, sectors: nat, bytes: nat, k: nat)
    requires (q - 1) * (sectors * SECTOR) < bytes <= (k * sectors) * SECTOR
    ensures q * sectors <= k * sectors
  {
    MulAssoc(k, sectors, SECTOR);
    if q > k {
      MulMono(k, q - 1, sectors * SECTOR);
    }
    MulMono(q, k, sectors);
  }

  lemma TagBytes(r: Request)
    requires Accepted(r)
    ensures r.tag * Pow2(r.interleave - r.block) <= Pow2(r.interleave) * SECTOR
  {
    var blocks := Pow2(r.interleave - r.block);
    Pow2Add(r.interleave - r.block, r.block);
    MulMono(r.tag, SECTOR, blocks);
    MulMono(1, Pow2(r.block), blocks);
    MulMono(blocks, Pow2(r.interleave), SECTOR);
  }

  /** With a padding no larger than the data of an area, its tags take no more room than its data. */
  lemma RunIsShort(r: Request)
    requires Accepted(r) && LogPadding(r.fixedPadding) <= r.interleave
    ensures Run(r) <= Pow2(r.interleave)
  {
    var p := LogPadding(r.fixedPadding);
    var q := RunIsPadded(r);
    TagBytes(r);
    Pow2Add(r.interleave - p, p);
    RoundedFits(q, Pow2(p), r.tag * Pow2(r.interleave - r.block), Pow2(r.interleave - p));
  }

  /** The lowest bit of a multiple of a power of two is no lower than that. */
  lemma {:induction false} LowestBitOfMultiple(n: nat, b: nat)
    requires n > 0 && n % Pow2(b) == 0
    ensures LowestBit(n) >= b
  {
    if b > 0 {
      DivMod(n, Pow2(b));
      var q := n / Pow2(b);
      var half := q * Pow2(b - 1);
      assert n == 2 * half by {
        MulAssoc(q, 2, Pow2(b - 1));
        MulAssoc(2, q, Pow2(b - 1));
      }
      assert half > 0 && n / 2 == half && n % 2 == 0;
      DivUnique(q, 0, Pow2(b - 1));
      LowestBitOfMultiple(half, b - 1);
    }
  }

  /** The buffer outgrows the interleave exactly when the old padding does, and a larger buffer was
      asked for. */
  lemma BufferFits(r: Request)
    requires Accepted(r)
    ensures Run(r) > 0
    ensures SetUp(r).buffer <= r.interleave <==> r.fixedPadding || r.interleave >= 8 || r.buffer <= r.interleave
  {
    SetUpIsValid(r);
    var c := SetUp(r);
    if LogPadding(r.fixedPadding) <= r.interleave {
      RunIsShort(r);
      if c.buffer > r.interleave {
        Pow2Less(r.interleave, c.buffer);
        if c.buffer < LowestBit(c.run) {
          Pow2Less(c.buffer, LowestBit(c.run));
        }
      }
    } else {
      var q := RunIsPadded(r);
      DivUnique(q, 0, Pow2(8));
      LowestBitOfMultiple(c.run, 8);
    }
  }

  /** For every request that is accepted: tags and data are apart on every device with two areas if
      and only if the padding is the fixed one, or an area has 256 sectors or more, or the buffer
      asked for is no larger than an area. */
  lemma SetUpIsSafeWhen(r: Request)
    requires Accepted(r)
    ensures Run(r) > 0
    ensures r.fixedPadding || r.interleave >= 8 || r.buffer <= r.interleave
       <==> forall x: nat, y: nat :: x < 2 * Pow2(r.interleave) && y < 2 * Pow2(r.interleave) ==>
              BytesApart(TagByte(SetUp(r), x), r.tag, DataSector(SetUp(r), y) * SECTOR, SECTOR)
  {
    SetUpIsValid(r);
    BufferFits(r);
    LayoutIsSafeWhen(SetUp(r));
  }

  /** Areas of eight sectors with the old padding, four-byte tags and the default buffer: the first
      tag of the second area is the first data sector. */
  lemma SmallAreasCollide(initial: nat, start: nat)
    requires initial >= SB_SECTORS
    ensures var r := Request(4, 3, 0, 7, false, initial, start);
            && Accepted(r) && Run(r) == 256
            && TagByte(SetUp(r), 8) == DataSector(SetUp(r), 0) * SECTOR
  {
    var r := Request(4, 3, 0, 7, false, initial, start);
    SetUpIsValid(r);
    BufferFits(r);
    LargeBufferCollides(SetUp(r));
    assert Pow2(3) == 8;
    assert Pow2(8) == 256 by { Pow2Add(4, 4); assert Pow2(4) == 16; }
    var q := RunIsPadded(r);
    if q > 1 {
      MulMono(1, q - 1, 256 * SECTOR);
    }
  }
}
