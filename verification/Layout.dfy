/** The interleaved layout of dm-integrity on a single device: superblock, journal, and then
    areas, each a run of tag sectors followed by a run of data sectors.

    Shifts are written as products and quotients of powers of two; numbers are unbounded.
 */
module Layout {
  import opened Arithmetic

  const SECTOR := 512
  const SB_SECTORS := 8

  lemma Pow2Less(m: nat, n: nat)
    requires m < n
    ensures Pow2(m) < Pow2(n)
    decreases n
  {
    if m < n - 1 {
      Pow2Less(m, n - 1);
    }
  }

  // ---------------------------------------------------------------- arithmetic

  /** Quotient and remainder of natural numbers: a shift right, and a mask. */
  function Div(n: nat, d: nat): (q: nat)
    requires d > 0
    ensures q * d <= n < q * d + d
  {
    DivMod(n, d);
    n / d
  }

  function Mod(n: nat, d: nat): (r: nat)
    requires d > 0
    ensures r < d && n == Div(n, d) * d + r
  {
    DivMod(n, d);
    n % d
  }

  lemma DivIs(q: nat, r: nat, d: nat)
    requires r < d
    ensures Div(q * d + r, d) == q && Mod(q * d + r, d) == r
  {
    DivUnique(q, r, d);
  }

  // ---------------------------------------------------------------- the parameters

  datatype Config = Config(
    interleave: nat,     // log2_interleave_sectors
    buffer: nat,         // log2_buffer_sectors
    block: nat,          // log2_sectors_per_block
    tag: nat,            // tag_size, in bytes
    log2Tag: int,        // log2_tag_size, -1 when not a power of two
    run: nat,            // metadata_run, in sectors
    log2Run: int,        // log2_metadata_run, -1 when not a power of two
    initial: nat,        // initial_sectors: superblock and journal
    start: nat)
  {
    /** What device set-up establishes.  The buffer size divides the tag run, since it is
        clamped to the lowest set bit of the run. */
    ghost predicate Valid() {
      && tag > 0 && run > 0 && block <= interleave && initial >= SB_SECTORS
      && tag * Pow2(interleave - block) <= run * SECTOR
      && run % Pow2(buffer) == 0
      && (log2Run >= 0 ==> run == Pow2(log2Run))
      && (log2Tag >= 0 ==> tag == Pow2(log2Tag) && log2Tag <= 9 + buffer)
    }

    /** Sectors from one area to the next. */
    function Stride(): nat {
      Pow2(interleave) + run
    }
  }

  /** The tag run as set-up computes it: rounded up to a padding that is a whole number of
      sectors. */
  function MetadataRun(tag: nat, interleave: nat, block: nat, padding: nat): nat
    requires block <= interleave && padding > 0
  {
    Div(Div(tag * Pow2(interleave - block) + padding - 1, padding) * padding, SECTOR)
  }

  /** The computed run is a whole number of paddings and holds the tags of a whole area; with one padding
      less it would not. */
  lemma RunHoldsTags(tag: nat, interleave: nat, block: nat, sectors: nat)
    requires block <= interleave && sectors > 0
    ensures
      var run, bytes := MetadataRun(tag, interleave, block, sectors * SECTOR), tag * Pow2(interleave - block);
      bytes <= run * SECTOR < bytes + sectors * SECTOR && Mod(run, sectors) == 0
  {
    var bytes, padding := tag * Pow2(interleave - block), sectors * SECTOR;
    var q := Div(bytes + padding - 1, padding);
    assert q * padding == (q * sectors) * SECTOR;
    DivIs(q * sectors, 0, SECTOR);
    DivIs(q, 0, sectors);
  }

  // ---------------------------------------------------------------- the address functions

  /** `get_area_and_offset` */
  function AreaOf(c: Config, sector: nat): nat {
    Div(sector, Pow2(c.interleave))
  }

  function OffsetOf(c: Config, sector: nat): nat {
    Mod(sector, Pow2(c.interleave))
  }

  /** Multiplication by the tag run, as a shift when it is a power of two. */
  function TimesRun(c: Config, n: nat): nat {
    if c.log2Run >= 0 then n * Pow2(c.log2Run) else n * c.run
  }

  /** `get_data_sector` */
  function DataSector(c: Config, sector: nat): nat {
    AreaOf(c, sector) * Pow2(c.interleave) + TimesRun(c, AreaOf(c, sector) + 1)
    + c.initial + OffsetOf(c, sector) + c.start
  }

  /** Bytes in a metadata buffer. */
  function BufferBytes(c: Config): nat {
    SECTOR * Pow2(c.buffer)
  }

  /** The number of a block within its area. */
  function BlockOf(c: Config, sector: nat): nat {
    Div(OffsetOf(c, sector), Pow2(c.block))
  }

  /** `get_metadata_sector_and_offset`: the buffer, and the byte in it, where a tag starts. */
  function TagBuffer(c: Config, sector: nat): nat {
    var area, n := AreaOf(c, sector), BlockOf(c, sector);
    Div(area * Pow2(c.interleave) + TimesRun(c, area), Pow2(c.buffer))
    + (if 0 <= c.log2Tag <= 9 + c.buffer then Div(n, Pow2(9 + c.buffer - c.log2Tag))
       else Div(n * c.tag, BufferBytes(c)))
  }

  function TagOffset(c: Config, sector: nat): nat {
    var n := BlockOf(c, sector);
    Mod(if c.log2Tag >= 0 then n * Pow2(c.log2Tag) else n * c.tag, BufferBytes(c))
  }

  /** The first byte of a tag on the device: buffers follow one another after the journal. */
  function TagByte(c: Config, sector: nat): nat {
    (c.start + c.initial) * SECTOR + TagBuffer(c, sector) * BufferBytes(c) + TagOffset(c, sector)
  }

  // ---------------------------------------------------------------- where things are

  /** Scaling both sides leaves a quotient unchanged. */
  lemma ScaledDiv(n: nat, tag: nat, d: nat)
    requires tag > 0 && d > 0
    ensures tag * d > 0
    ensures Div(n * tag, tag * d) == Div(n, d)
  {
    var q, r := Div(n, d), Mod(n, d);
    assert n * tag == q * (d * tag) + r * tag by {
      MulAdd(q * d, r, tag);
      assert (q * d) * tag == q * (d * tag);
    }
    MulMono(r + 1, d, tag);
    MulAdd(r, 1, tag);
    assert d * tag == tag * d;
    MulMono(0, r, tag);
    MulMono(1, d, tag);
    DivIs(q, r * tag, tag * d);
  }

  lemma Pow2Nine()
    ensures Pow2(9) == SECTOR
  {
    assert Pow2(4) == 16;
    Pow2Add(4, 5);
    assert Pow2(5) == 32;
  }

  lemma ShiftIsDiv(c: Config, n: nat)
    requires c.Valid() && c.log2Tag >= 0
    ensures Div(n, Pow2(9 + c.buffer - c.log2Tag)) == Div(n * c.tag, BufferBytes(c))
  {
    Pow2Nine();
    Pow2Add(9, c.buffer);
    Pow2Add(c.log2Tag, 9 + c.buffer - c.log2Tag);
    ScaledDiv(n, c.tag, Pow2(9 + c.buffer - c.log2Tag));
  }

  /** First buffer of an area's tags. */
  function AreaBuffer(c: Config, area: nat): nat {
    Div(area * Pow2(c.interleave) + area * c.run, Pow2(c.buffer))
  }

  /** Both ways of locating a tag within its area agree. */
  lemma TagParts(c: Config, sector: nat)
    requires c.Valid()
    ensures TagBuffer(c, sector) * BufferBytes(c) + TagOffset(c, sector)
         == AreaBuffer(c, AreaOf(c, sector)) * BufferBytes(c) + BlockOf(c, sector) * c.tag
  {
    var n, bytes := BlockOf(c, sector), BufferBytes(c);
    if c.log2Tag >= 0 {
      ShiftIsDiv(c, n);
    }
    var first, within := AreaBuffer(c, AreaOf(c, sector)), Div(n * c.tag, bytes);
    assert TagBuffer(c, sector) == first + within;
    MulAdd(first, within, bytes);
    assert n * c.tag == within * bytes + Mod(n * c.tag, bytes);
  }

  lemma CommonFactor(a: nat, k: nat, m: nat, bs: nat)
    requires bs > 0
    ensures a * (k * bs) + a * (m * bs) == (a * k + a * m) * bs
    ensures Div(a * (k * bs) + a * (m * bs), bs) == a * k + a * m
  {
    MulAdd(a * k, a * m, bs);
    assert a * (k * bs) == (a * k) * bs;
    assert a * (m * bs) == (a * m) * bs;
    DivIs(a * k + a * m, 0, bs);
  }

  /** When the buffer is no larger than the interleave, area starts are buffer starts. */
  lemma AreaIsAligned(c: Config, area: nat)
    requires c.Valid() && c.buffer <= c.interleave
    ensures AreaBuffer(c, area) * BufferBytes(c) == area * c.Stride() * SECTOR
  {
    var iv, bs, k, m := Pow2(c.interleave), Pow2(c.buffer), Pow2(c.interleave - c.buffer), Div(c.run, Pow2(c.buffer));
    Pow2Add(c.interleave - c.buffer, c.buffer);
    assert c.run == m * bs + Mod(c.run, bs);
    CommonFactor(area, k, m, bs);
    SplitStride(AreaBuffer(c, area), bs, area, iv, c.run);
  }

  lemma SplitStride(q: nat, bs: nat, area: nat, iv: nat, run: nat)
    requires q * bs == area * iv + area * run
    ensures q * (SECTOR * bs) == area * (iv + run) * SECTOR
  {
    assert area * (iv + run) == area * iv + area * run;
    assert q * (SECTOR * bs) == (q * bs) * SECTOR;
  }

  /** Where an area starts: sector of its first tag. */
  function AreaStart(c: Config, area: nat): nat {
    c.start + c.initial + area * c.Stride()
  }

  lemma DataAddress(c: Config, sector: nat)
    requires c.Valid()
    ensures DataSector(c, sector) == AreaStart(c, AreaOf(c, sector)) + c.run + OffsetOf(c, sector)
    ensures OffsetOf(c, sector) < Pow2(c.interleave)
  {
    var area := AreaOf(c, sector);
    MulAdd(area, 1, c.run);
    assert area * c.Stride() == area * Pow2(c.interleave) + area * c.run;
  }

  /** A tag lies within the tag run of its area, at the place of its block. */
  lemma TagAddress(c: Config, sector: nat)
    requires c.Valid() && c.buffer <= c.interleave
    ensures TagByte(c, sector) == AreaStart(c, AreaOf(c, sector)) * SECTOR + BlockOf(c, sector) * c.tag
    ensures BlockOf(c, sector) * c.tag + c.tag <= c.run * SECTOR
  {
    TagParts(c, sector);
    AreaIsAligned(c, AreaOf(c, sector));
    BlockInArea(c, sector);
    TagFits(BlockOf(c, sector), Pow2(c.interleave - c.block), c.tag);
  }

  lemma TagFits(n: nat, m: nat, tag: nat)
    requires n < m
    ensures n * tag + tag <= tag * m
  {
    MulMono(n + 1, m, tag);
    MulAdd(n, 1, tag);
    assert m * tag == tag * m;
  }

  lemma BlockInArea(c: Config, sector: nat)
    requires c.Valid()
    ensures BlockOf(c, sector) < Pow2(c.interleave - c.block)
  {
    var n, m, b := BlockOf(c, sector), Pow2(c.interleave - c.block), Pow2(c.block);
    Pow2Add(c.interleave - c.block, c.block);
    if n >= m {
      MulMono(m, n, b);
    }
  }

  /** Areas follow one another without overlap. */
  lemma AreasApart(c: Config, a: nat, b: nat)
    requires a < b
    ensures AreaStart(c, a) + c.Stride() <= AreaStart(c, b)
  {
    MulMono(a + 1, b, c.Stride());
    MulAdd(a, 1, c.Stride());
  }

  /** Distinct logical sectors have distinct data sectors, all beyond the journal. */
  lemma DataIsInjective(c: Config, x: nat, y: nat)
    requires c.Valid() && x != y
    ensures DataSector(c, x) != DataSector(c, y)
    ensures DataSector(c, x) >= c.start + c.initial + c.run
  {
    DataAddress(c, x);
    DataAddress(c, y);
    var a, b := AreaOf(c, x), AreaOf(c, y);
    MulMono(0, a, c.Stride());
    if a < b {
      AreasApart(c, a, b);
    } else if b < a {
      AreasApart(c, b, a);
    }
  }

  /** Where a sector lies that is some way behind another: in the same area, or in the next one. */
  lemma Further(c: Config, x: nat, d: nat)
    requires d <= Pow2(c.interleave)
    ensures
      var o := OffsetOf(c, x) + d;
      if o < Pow2(c.interleave) then AreaOf(c, x + d) == AreaOf(c, x) && OffsetOf(c, x + d) == o
      else AreaOf(c, x + d) == AreaOf(c, x) + 1 && OffsetOf(c, x + d) == o - Pow2(c.interleave)
  {
    var p, a, o := Pow2(c.interleave), AreaOf(c, x), OffsetOf(c, x) + d;
    if o < p {
      DivIs(a, o, p);
    } else {
      MulAdd(a, 1, p);
      DivIs(a + 1, o - p, p);
    }
  }

  /** Data starts after the first tag run; the sector after a sector is the next one on the device, except
      that the tag run of the next area stands between the last of an area and the first of the next. */
  lemma DataIsContiguous(c: Config, x: nat)
    requires c.Valid()
    ensures DataSector(c, 0) == c.start + c.initial + c.run
    ensures DataSector(c, x + 1) ==
            DataSector(c, x) + 1 + if OffsetOf(c, x) + 1 == Pow2(c.interleave) then c.run else 0
  {
    DataAddress(c, 0);
    DataAddress(c, x);
    DataAddress(c, x + 1);
    DivIs(0, 0, Pow2(c.interleave));
    Further(c, x, 1);
    MulAdd(AreaOf(c, x), 1, c.Stride());
  }

  /** Tags start right after the journal, and the tag of the next block follows at once; after the last
      block of an area, at the start of the next one. */
  lemma TagsAreContiguous(c: Config, x: nat)
    requires c.Valid()
    ensures TagByte(c, 0) == (c.start + c.initial) * SECTOR
    ensures OffsetOf(c, x) + Pow2(c.block) < Pow2(c.interleave) ==>
              TagByte(c, x + Pow2(c.block)) == TagByte(c, x) + c.tag
    ensures OffsetOf(c, x) + Pow2(c.block) >= Pow2(c.interleave) && c.buffer <= c.interleave ==>
              TagByte(c, x + Pow2(c.block)) == AreaStart(c, AreaOf(c, x) + 1) * SECTOR
  {
    FirstTag(c);
    var b, p, y := Pow2(c.block), Pow2(c.interleave), x + Pow2(c.block);
    BlockInInterleave(c);
    Further(c, x, b);
    if OffsetOf(c, x) + b < p {
      NextBlock(OffsetOf(c, x), b);
      TagParts(c, x);
      TagParts(c, y);
      MulAdd(BlockOf(c, x), 1, c.tag);
    } else if c.buffer <= c.interleave {
      DivIs(0, OffsetOf(c, y), b);
      TagAddress(c, y);
    }
  }

  lemma FirstTag(c: Config)
    requires c.Valid()
    ensures TagByte(c, 0) == (c.start + c.initial) * SECTOR
  {
    DivIs(0, 0, Pow2(c.interleave));
    DivIs(0, 0, Pow2(c.block));
    DivIs(0, 0, Pow2(c.buffer));
    TagParts(c, 0);
  }

  lemma BlockInInterleave(c: Config)
    requires c.Valid()
    ensures Pow2(c.block) <= Pow2(c.interleave)
  {
    if c.block < c.interleave {
      Pow2Less(c.block, c.interleave);
    }
  }

  lemma NextBlock(o: nat, b: nat)
    requires b > 0
    ensures Div(o + b, b) == Div(o, b) + 1
  {
    MulAdd(Div(o, b), 1, b);
    DivIs(Div(o, b) + 1, Mod(o, b), b);
  }

  predicate BytesApart(x: nat, xLen: nat, y: nat, yLen: nat) {
    x + xLen <= y || y + yLen <= x
  }

  /** Distinct blocks have disjoint tags. */
  lemma TagsAreDisjoint(c: Config, x: nat, y: nat)
    requires c.Valid() && c.buffer <= c.interleave
    requires AreaOf(c, x) != AreaOf(c, y) || BlockOf(c, x) != BlockOf(c, y)
    ensures BytesApart(TagByte(c, x), c.tag, TagByte(c, y), c.tag)
  {
    TagAddress(c, x);
    TagAddress(c, y);
    var a, b, m, n := AreaOf(c, x), AreaOf(c, y), BlockOf(c, x), BlockOf(c, y);
    MulMono(0, m, c.tag);
    MulMono(0, n, c.tag);
    if a < b {
      AreasApart(c, a, b);
    } else if b < a {
      AreasApart(c, b, a);
    } else if m < n {
      MulMono(m + 1, n, c.tag);
      MulAdd(m, 1, c.tag);
    } else {
      MulMono(n + 1, m, c.tag);
      MulAdd(n, 1, c.tag);
    }
  }

  /** No tag touches a data sector, the journal or the superblock. */
  lemma TagsAvoidData(c: Config, x: nat, y: nat)
    requires c.Valid() && c.buffer <= c.interleave
    ensures BytesApart(TagByte(c, x), c.tag, DataSector(c, y) * SECTOR, SECTOR)
    ensures TagByte(c, x) >= (c.start + c.initial) * SECTOR
  {
    TagAddress(c, x);
    DataAddress(c, y);
    var a, b := AreaOf(c, x), AreaOf(c, y);
    MulMono(0, BlockOf(c, x), c.tag);
    MulMono(0, a, c.Stride());
    if a < b {
      AreasApart(c, a, b);
    } else if b < a {
      AreasApart(c, b, a);
    }
  }

  /** Rounding the start of the second area down to a buffer loses the data before it. */
  lemma SecondBuffer(iv: nat, run: nat, bs: nat)
    requires 0 < iv < bs && run % bs == 0
    ensures Div(iv + run, bs) * (SECTOR * bs) == run * SECTOR
  {
    DivMod(run, bs);
    var m := run / bs;
    DivIs(m, iv, bs);
    assert m * (SECTOR * bs) == (m * bs) * SECTOR;
  }

  /** With a buffer larger than the interleave the second area's first tag is written over the
      first data sector of the first area. */
  lemma LargeBufferCollides(c: Config)
    requires c.Valid() && c.buffer > c.interleave
    ensures TagByte(c, Pow2(c.interleave)) == DataSector(c, 0) * SECTOR
  {
    SecondArea(c);
    TagParts(c, Pow2(c.interleave));
    DataAddress(c, 0);
    Pow2Less(c.interleave, c.buffer);
    SecondBuffer(Pow2(c.interleave), c.run, Pow2(c.buffer));
  }

  lemma SecondArea(c: Config)
    ensures AreaOf(c, 0) == 0 && OffsetOf(c, 0) == 0
    ensures AreaOf(c, Pow2(c.interleave)) == 1 && BlockOf(c, Pow2(c.interleave)) == 0
  {
    DivIs(1, 0, Pow2(c.interleave));
    DivIs(0, 0, Pow2(c.interleave));
    DivIs(0, 0, Pow2(c.block));
  }

  /** So the layout keeps tags and data apart on every device with two areas exactly when the
      buffer is no larger than the interleave. */
  lemma LayoutIsSafeWhen(c: Config)
    requires c.Valid()
    ensures c.buffer <= c.interleave
       <==> forall x: nat, y: nat :: x < 2 * Pow2(c.interleave) && y < 2 * Pow2(c.interleave) ==>
              BytesApart(TagByte(c, x), c.tag, DataSector(c, y) * SECTOR, SECTOR)
  {
    var n := 2 * Pow2(c.interleave);
    if c.buffer <= c.interleave {
      forall x: nat, y: nat | x < n && y < n
        ensures BytesApart(TagByte(c, x), c.tag, DataSector(c, y) * SECTOR, SECTOR)
      {
        TagsAvoidData(c, x, y);
      }
    } else {
      LargeBufferCollides(c);
      assert !BytesApart(TagByte(c, Pow2(c.interleave)), c.tag, DataSector(c, 0) * SECTOR, SECTOR);
    }
  }
}
