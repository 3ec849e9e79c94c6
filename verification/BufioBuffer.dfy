/** One buffer of dm-bufio: a copy of a disk block, with the part of it that is dirty and the
    part of it that a write in flight has still to bring to the disk.
 */
module BufioBuffer {

  /** `DM_BUFIO_WRITE_ALIGN` */
  const ALIGN: nat := 4096
  const SECTOR: nat := 512

  type Block = seq<int>

  /** A buffer; `todo` are the bytes the device has not stored yet for the write in flight, and
      `unmarked` the bytes a holder has changed without having marked them dirty yet. */
  datatype Buffer = Buffer(data: Block, reading: bool,
                           dirty: bool, dirtyStart: nat, dirtyEnd: nat,
                           writing: bool, writeStart: nat, writeEnd: nat, todo: set<nat>,
                           hold: nat, unmarked: set<nat>)

  predicate AtLeast(i: nat, lo: nat) {
    lo <= i
  }

  function Range(lo: nat, hi: nat): set<nat> {
    set i: nat | i < hi && AtLeast(i, lo)
  }

  function AlignDown(x: nat): nat {
    x / ALIGN * ALIGN
  }

  function AlignUp(x: nat): nat {
    (x + ALIGN - 1) / ALIGN * ALIGN
  }

  /** `submit_io`: the bytes a write covers, rounded outwards and cut at the end of the block. */
  function WriteLo(start: nat): nat {
    AlignDown(start)
  }

  function WriteHi(end: nat, size: nat): nat {
    if AlignUp(end) > size then size else AlignUp(end)
  }

  lemma Whole(m: int)
    ensures m * SECTOR / SECTOR == m
  {
  }

  /** The write covers the range it was asked for, stays in the block, and is a whole number of
      sectors from a sector boundary on. */
  lemma WriteCovers(start: nat, end: nat, size: nat)
    requires start < end <= size && size % SECTOR == 0
    ensures WriteLo(start) <= start && end <= WriteHi(end, size) <= size
    ensures WriteLo(start) / SECTOR * SECTOR == WriteLo(start)
    ensures (WriteHi(end, size) - WriteLo(start)) / SECTOR * SECTOR == WriteHi(end, size) - WriteLo(start)
  {
    var lo, up, n := start / ALIGN, (end + ALIGN - 1) / ALIGN, size / SECTOR;
    assert WriteLo(start) == (lo * 8) * SECTOR && size == n * SECTOR;
    var hi := if AlignUp(end) > size then n else up * 8;
    assert WriteHi(end, size) == hi * SECTOR;
    Whole(lo * 8);
    Whole(hi - lo * 8);
  }

  /** What the cache relies on: wherever the buffer and its block on disk differ, the byte is
      dirty, or still to be written, or about to be marked by its holder. */
  ghost predicate BufferOk(b: Buffer, disk: Block, size: nat) {
    && |b.data| == |disk| == size
    && (b.dirty ==> b.dirtyStart < b.dirtyEnd <= size)
    && (b.writing ==> b.writeStart < b.writeEnd <= size)
    && (if b.writing then b.todo <= Range(WriteLo(b.writeStart), WriteHi(b.writeEnd, size)) else b.todo == {})
    && (b.hold == 0 ==> b.unmarked == {})
    && (b.reading ==> !b.dirty && !b.writing && b.unmarked == {})
    && (!b.reading ==> forall i :: 0 <= i < size && b.data[i] != disk[i] ==> Accounted(b, i))
  }

  ghost predicate Accounted(b: Buffer, i: nat) {
    (b.dirty && b.dirtyStart <= i < b.dirtyEnd) || i in b.todo || i in b.unmarked
  }

  /** A clean, quiet, unheld buffer is the same as its block on disk. */
  lemma CleanIsDisk(b: Buffer, disk: Block, size: nat)
    requires BufferOk(b, disk, size) && !b.reading && !b.dirty && !b.writing && b.unmarked == {}
    ensures b.data == disk
  {
    forall i | 0 <= i < size
      ensures b.data[i] == disk[i]
    {
      assert !Accounted(b, i);
    }
  }

  /** `dm_bufio_mark_partial_buffer_dirty`: the dirty range grows to include the given one. */
  function Mark(b: Buffer, start: nat, end: nat): Buffer {
    if !b.dirty then b.(dirty := true, dirtyStart := start, dirtyEnd := end, unmarked := b.unmarked - Range(start, end))
    else b.(dirtyStart := if start < b.dirtyStart then start else b.dirtyStart,
            dirtyEnd := if end > b.dirtyEnd then end else b.dirtyEnd, unmarked := b.unmarked - Range(start, end))
  }

  lemma MarkKeeps(b: Buffer, disk: Block, size: nat, start: nat, end: nat)
    requires BufferOk(b, disk, size) && !b.reading && start < end <= size
    ensures BufferOk(Mark(b, start, end), disk, size)
  {
    forall i: nat | Accounted(b, i)
      ensures Accounted(Mark(b, start, end), i)
    {
    }
  }

  /** A holder stores a byte. */
  function Store(b: Buffer, i: nat, x: int): Buffer
    requires i < |b.data|
  {
    b.(data := b.data[i := x], unmarked := b.unmarked + {i})
  }

  lemma StoreKeeps(b: Buffer, disk: Block, size: nat, i: nat, x: int)
    requires BufferOk(b, disk, size) && !b.reading && b.hold > 0 && i < size
    ensures BufferOk(Store(b, i, x), disk, size)
  {
    forall j | 0 <= j < size && Store(b, i, x).data[j] != disk[j]
      ensures Accounted(Store(b, i, x), j)
    {
      if j != i { assert Accounted(b, j); }
    }
  }

  /** `__write_dirty_buffer` once no earlier write is in flight: what was dirty is now to be
      written, rounded to the alignment of the device. */
  function StartWrite(b: Buffer, size: nat): Buffer {
    b.(dirty := false, writing := true, writeStart := b.dirtyStart, writeEnd := b.dirtyEnd,
       todo := Range(WriteLo(b.dirtyStart), WriteHi(b.dirtyEnd, size)))
  }

  lemma StartWriteKeeps(b: Buffer, disk: Block, size: nat)
    requires BufferOk(b, disk, size) && b.dirty && !b.writing && size % SECTOR == 0
    ensures BufferOk(StartWrite(b, size), disk, size)
  {
    WriteCovers(b.dirtyStart, b.dirtyEnd, size);
    forall i: nat | Accounted(b, i)
      ensures Accounted(StartWrite(b, size), i)
    {
    }
  }

  /** The device stores a byte as the buffer holds it at that moment. */
  lemma TransferKeeps(b: Buffer, disk: Block, size: nat, i: nat)
    requires BufferOk(b, disk, size) && b.writing && i < size
    ensures BufferOk(b.(todo := b.todo - {i}), disk[i := b.data[i]], size)
  {
    forall j | 0 <= j < size && b.data[j] != disk[i := b.data[i]][j]
      ensures Accounted(b.(todo := b.todo - {i}), j)
    {
      assert Accounted(b, j);
    }
  }

  /** A block after the device has stored the given bytes of a buffer. */
  function Merge(disk: Block, data: Block, todo: set<nat>): Block
    requires |disk| == |data|
  {
    seq(|disk|, i requires 0 <= i < |disk| => if i in todo then data[i] else disk[i])
  }

  lemma FinishKeeps(b: Buffer, disk: Block, size: nat)
    requires BufferOk(b, disk, size) && b.writing
    ensures BufferOk(b.(todo := {}, writing := false), Merge(disk, b.data, b.todo), size)
    ensures b.todo == {} ==> BufferOk(b.(writing := false), disk, size)
  {
    forall j | 0 <= j < size && b.data[j] != Merge(disk, b.data, b.todo)[j]
      ensures Accounted(b.(todo := {}, writing := false), j)
    {
      assert Accounted(b, j);
    }
    forall j: nat
      ensures b.todo == {} ==> Accounted(b, j) == Accounted(b.(writing := false), j)
    {
    }
  }
}
