/** The state of a dm-bufio client: the disk, the buffers by block number, and the lists of clean
    and dirty buffers.  The invariant, the disk the client sees, and what each kind of change
    does to both.
 */
module BufioCache {
  import opened Sequences
  import opened BufioBuffer

  datatype Cache = Cache(size: nat, disk: seq<Block>, bufs: map<nat, Buffer>,
                         clean: seq<nat>, nClean: nat, dirty: seq<nat>, nDirty: nat)

  lemma WithoutMembers(s: seq<nat>, x: nat)
    requires NoDup(s)
    ensures forall y :: y in Without(s, x) <==> y in s && y != x
    ensures NoDup(Without(s, x))
  {
    var i := WithoutIs(s, x);
    if x in s {
      NoDupRemove(s, i);
      forall y: nat
        ensures y in Without(s, x) <==> y in s && y != x
      {
        RemoveAtMembers(s, i, y);
      }
    }
  }

  /** `list_del` */
  method Remove(s: seq<nat>, x: nat) returns (t: seq<nat>)
    ensures t == Without(s, x)
  {
    var i := 0;
    while i < |s| && s[i] != x
      invariant 0 <= i <= |s| && Without(s, x) == s[..i] + Without(s[i..], x)
    {
      assert s[i..][1..] == s[i + 1..];
      i := i + 1;
    }
    t := if i < |s| then s[..i] + s[i + 1..] else s;
  }

  /** Every buffer is in exactly one of the two lists, once. */
  ghost predicate ListsOk(keys: set<nat>, clean: seq<nat>, dirty: seq<nat>) {
    && NoDup(clean) && NoDup(dirty)
    && (forall k :: k in keys <==> k in clean || k in dirty)
    && (forall k :: k in clean ==> k !in dirty)
  }

  lemma ListsGrow(keys: set<nat>, clean: seq<nat>, dirty: seq<nat>, k: nat)
    requires ListsOk(keys, clean, dirty) && k !in keys
    ensures ListsOk(keys + {k}, [k] + clean, dirty) && ListsOk(keys + {k}, clean, [k] + dirty)
  {
  }

  /** Clean buffers are neither dirty nor being written, dirty ones are not being read. */
  ghost predicate ModesOk(bufs: map<nat, Buffer>, clean: seq<nat>, dirty: seq<nat>) {
    && (forall k :: k in clean && k in bufs ==> !bufs[k].dirty && !bufs[k].writing)
    && (forall k :: k in dirty && k in bufs ==> !bufs[k].reading)
  }

  lemma ModesGrow(bufs: map<nat, Buffer>, clean: seq<nat>, dirty: seq<nat>, k: nat, b: Buffer)
    requires ModesOk(bufs, clean, dirty) && k !in clean && k !in dirty
    ensures !b.reading ==> ModesOk(bufs[k := b], clean, [k] + dirty)
    ensures !b.dirty && !b.writing ==> ModesOk(bufs[k := b], [k] + clean, dirty)
  {
  }

  lemma ListsShrink(keys: set<nat>, clean: seq<nat>, dirty: seq<nat>, clean': seq<nat>, dirty': seq<nat>, k: nat)
    requires ListsOk(keys, clean, dirty) && clean' == Without(clean, k) && dirty' == Without(dirty, k)
    ensures ListsOk(keys - {k}, clean', dirty') && k !in clean' && k !in dirty'
    ensures forall j :: j in dirty' <==> j in dirty && j != k
    ensures forall j :: j in clean' <==> j in clean && j != k
  {
    WithoutMembers(clean, k);
    WithoutMembers(dirty, k);
  }

  ghost predicate BuffersOk(size: nat, disk: seq<Block>, bufs: map<nat, Buffer>) {
    && (forall k :: 0 <= k < |disk| ==> |disk[k]| == size)
    && (forall k :: k in bufs ==> k < |disk| && BufferOk(bufs[k], disk[k], size))
  }

  ghost predicate Sound(c: Cache) {
    && c.size % SECTOR == 0 && c.nClean == |c.clean| && c.nDirty == |c.dirty|
    && ListsOk(c.bufs.Keys, c.clean, c.dirty) && ModesOk(c.bufs, c.clean, c.dirty)
    && BuffersOk(c.size, c.disk, c.bufs)
  }

  /** The disk as the client sees it: through the cache. */
  ghost function View(c: Cache): seq<Block> {
    ViewOf(c.disk, c.bufs)
  }

  ghost function ViewOf(disk: seq<Block>, bufs: map<nat, Buffer>): seq<Block> {
    seq(|disk|, k requires 0 <= k < |disk| => if k in bufs && !bufs[k].reading then bufs[k].data else disk[k])
  }

  /** A buffer appears, changes or goes, perhaps together with its block on disk. */
  lemma ViewChange(disk: seq<Block>, bufs: map<nat, Buffer>, k: nat, b: Buffer, block: Block)
    requires k < |disk|
    ensures ViewOf(disk[k := block], bufs[k := b]) == ViewOf(disk, bufs)[k := if b.reading then block else b.data]
    ensures ViewOf(disk, bufs - {k}) == ViewOf(disk, bufs)[k := disk[k]]
    ensures ViewOf(disk, bufs)[k] == if k in bufs && !bufs[k].reading then bufs[k].data else disk[k]
  {
  }

  lemma BuffersChange(size: nat, disk: seq<Block>, bufs: map<nat, Buffer>, k: nat, b: Buffer, block: Block)
    requires BuffersOk(size, disk, bufs) && k < |disk| && BufferOk(b, block, size)
    ensures BuffersOk(size, disk[k := block], bufs[k := b])
  {
  }

  /** Replacing a buffer that keeps its place in the lists. */
  lemma BufferReplaced(c: Cache, k: nat, b: Buffer) returns (c': Cache)
    requires Sound(c) && k in c.bufs && BufferOk(b, c.disk[k], c.size)
    requires if k in c.dirty then !b.reading else !b.dirty && !b.writing
    ensures c' == c.(bufs := c.bufs[k := b]) && Sound(c')
    ensures View(c') == if b.reading then View(c)[k := c.disk[k]] else View(c)[k := b.data]
  {
    c' := c.(bufs := c.bufs[k := b]);
    assert c'.bufs.Keys == c.bufs.Keys;
    assert c.disk[k := c.disk[k]] == c.disk;
    BuffersChange(c.size, c.disk, c.bufs, k, b, c.disk[k]);
    ViewChange(c.disk, c.bufs, k, b, c.disk[k]);
  }

  /** Replacing a buffer by one that shows the client the same data. */
  lemma BufferKept(c: Cache, k: nat, b: Buffer) returns (c': Cache)
    requires Sound(c) && k in c.bufs && BufferOk(b, c.disk[k], c.size)
    requires if k in c.dirty then !b.reading else !b.dirty && !b.writing
    requires if b.reading then c.bufs[k].reading
             else b.data == if c.bufs[k].reading then c.disk[k] else c.bufs[k].data
    ensures c' == c.(bufs := c.bufs[k := b]) && Sound(c')
    ensures View(c') == View(c)
  {
    c' := BufferReplaced(c, k, b);
    ViewChange(c.disk, c.bufs, k, b, c.disk[k]);
    assert View(c)[k := View(c)[k]] == View(c);
  }

  /** Replacing a buffer together with its block on disk. */
  lemma BlockReplaced(c: Cache, k: nat, b: Buffer, block: Block) returns (c': Cache)
    requires Sound(c) && k in c.bufs && BufferOk(b, block, c.size) && !b.reading && b.data == c.bufs[k].data
    requires k in c.dirty && !c.bufs[k].reading
    ensures c' == c.(bufs := c.bufs[k := b], disk := c.disk[k := block]) && Sound(c')
    ensures View(c') == View(c)
  {
    c' := c.(bufs := c.bufs[k := b], disk := c.disk[k := block]);
    assert c'.bufs.Keys == c.bufs.Keys;
    BuffersChange(c.size, c.disk, c.bufs, k, b, block);
    ViewChange(c.disk, c.bufs, k, b, block);
    assert View(c)[k := b.data] == View(c);
  }

  /** Replacing a block that has no buffer. */
  lemma BlockWritten(c: Cache, k: nat, block: Block) returns (c': Cache)
    requires Sound(c) && k < |c.disk| && k !in c.bufs && |block| == c.size
    ensures c' == c.(disk := c.disk[k := block]) && Sound(c')
    ensures View(c)[k] == c.disk[k] && View(c') == View(c)[k := block]
  {
    c' := c.(disk := c.disk[k := block]);
    assert forall j :: j in c.bufs ==> c'.disk[j] == c.disk[j];
  }

  /** The lists after a buffer has moved to the front of one of them. */
  function Relink(lists: (seq<nat>, seq<nat>), k: nat, toDirty: bool): (seq<nat>, seq<nat>) {
    var (clean, dirty) := (Without(lists.0, k), Without(lists.1, k));
    if toDirty then (clean, [k] + dirty) else ([k] + clean, dirty)
  }

  lemma ListsRelinked(bufs: map<nat, Buffer>, lists: (seq<nat>, seq<nat>), k: nat, toDirty: bool)
    requires ListsOk(bufs.Keys, lists.0, lists.1) && ModesOk(bufs, lists.0, lists.1) && k in bufs
    requires if toDirty then !bufs[k].reading else !bufs[k].dirty && !bufs[k].writing
    ensures
      var (clean, dirty) := Relink(lists, k, toDirty);
      && ListsOk(bufs.Keys, clean, dirty) && ModesOk(bufs, clean, dirty)
      && forall j :: j in dirty <==> (j in lists.1 && j != k) || (toDirty && j == k)
  {
    var clean, dirty := Without(lists.0, k), Without(lists.1, k);
    ListsShrink(bufs.Keys, lists.0, lists.1, clean, dirty, k);
    ListsGrow(bufs.Keys - {k}, clean, dirty, k);
    assert bufs.Keys - {k} + {k} == bufs.Keys && bufs[k := bufs[k]] == bufs;
    ModesGrow(bufs, clean, dirty, k, bufs[k]);
  }

  /** `__relink_lru`: a buffer moves to the front of a list. */
  method RelinkLru(c: Cache, k: nat, toDirty: bool) returns (c': Cache)
    requires Sound(c) && k in c.bufs
    requires if toDirty then !c.bufs[k].reading else !c.bufs[k].dirty && !c.bufs[k].writing
    ensures Sound(c') && View(c') == View(c) && c'.bufs == c.bufs && c'.disk == c.disk && c'.size == c.size
    ensures (c'.clean, c'.dirty) == Relink((c.clean, c.dirty), k, toDirty)
    ensures forall j :: j in c'.dirty <==> (j in c.dirty && j != k) || (toDirty && j == k)
  {
    var clean := Remove(c.clean, k);
    var dirty := Remove(c.dirty, k);
    ListsRelinked(c.bufs, (c.clean, c.dirty), k, toDirty);
    clean, dirty := if toDirty then clean else [k] + clean, if toDirty then [k] + dirty else dirty;
    c' := c.(clean := clean, nClean := |clean|, dirty := dirty, nDirty := |dirty|);
  }

  /** `__link_buffer`: a new buffer enters the cache. */
  function LinkBuffer(c: Cache, k: nat, b: Buffer, toDirty: bool): Cache {
    if toDirty then c.(bufs := c.bufs[k := b], dirty := [k] + c.dirty, nDirty := c.nDirty + 1)
    else c.(bufs := c.bufs[k := b], clean := [k] + c.clean, nClean := c.nClean + 1)
  }

  lemma BufferLinked(c: Cache, k: nat, b: Buffer, toDirty: bool)
    requires Sound(c) && k !in c.bufs && k < |c.disk| && BufferOk(b, c.disk[k], c.size)
    requires if toDirty then !b.reading else !b.dirty && !b.writing
    ensures Sound(LinkBuffer(c, k, b, toDirty))
    ensures View(LinkBuffer(c, k, b, toDirty)) == if b.reading then View(c) else View(c)[k := b.data]
  {
    var c' := LinkBuffer(c, k, b, toDirty);
    ListsGrow(c.bufs.Keys, c.clean, c.dirty, k);
    ModesGrow(c.bufs, c.clean, c.dirty, k, b);
    assert c'.bufs.Keys == c.bufs.Keys + {k};
    assert c.disk[k := c.disk[k]] == c.disk;
    BuffersChange(c.size, c.disk, c.bufs, k, b, c.disk[k]);
    ViewChange(c.disk, c.bufs, k, b, c.disk[k]);
    assert View(c)[k := c.disk[k]] == View(c) by {
      assert View(c)[k] == c.disk[k];
    }
  }

  /** `__unlink_buffer` of a clean and quiet buffer: nothing the client sees changes. */
  method UnlinkBuffer(c: Cache, k: nat) returns (c': Cache)
    requires Sound(c) && k in c.bufs && c.bufs[k].hold == 0
    requires !c.bufs[k].reading && !c.bufs[k].dirty && !c.bufs[k].writing
    ensures Sound(c') && View(c') == View(c) && c'.bufs == c.bufs - {k} && c'.disk == c.disk && c'.size == c.size
    ensures c'.clean == Without(c.clean, k) && c'.dirty == Without(c.dirty, k)
  {
    var clean := Remove(c.clean, k);
    var dirty := Remove(c.dirty, k);
    c' := c.(bufs := c.bufs - {k}, clean := clean, nClean := |clean|, dirty := dirty, nDirty := |dirty|);
    ListsShrink(c.bufs.Keys, c.clean, c.dirty, clean, dirty, k);
    assert c'.bufs.Keys == c.bufs.Keys - {k};
    CleanIsDisk(c.bufs[k], c.disk[k], c.size);
    ViewChange(c.disk, c.bufs, k, c.bufs[k], c.disk[k]);
    assert View(c)[k := c.disk[k]] == View(c);
  }

  /** When nothing is dirty or in flight and every change has been marked, the disk is what the
      client sees. */
  lemma AllClean(c: Cache)
    requires Sound(c) && forall k :: k in c.bufs ==> !c.bufs[k].dirty && !c.bufs[k].writing && c.bufs[k].unmarked == {}
    ensures View(c) == c.disk
  {
    forall k | 0 <= k < |c.disk|
      ensures View(c)[k] == c.disk[k]
    {
      if k in c.bufs && !c.bufs[k].reading {
        CleanIsDisk(c.bufs[k], c.disk[k], c.size);
      }
    }
  }

  lemma BlocksAreWhole(c: Cache)
    requires Sound(c)
    ensures forall k :: 0 <= k < |c.disk| ==> |View(c)[k]| == c.size
  {
  }
}
