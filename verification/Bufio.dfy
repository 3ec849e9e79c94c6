/** The operations of a dm-bufio client and the events of its device.  Each method is one atomic
    step under the client's lock, or one step of the device; every interleaving is a sequence of
    them.  What the client sees changes only by its own stores, fresh buffers and moves.

    Waiting for a write is modelled as the device doing the rest of it.
 */
module Bufio {
  import opened Sequences
  import opened BufioBuffer
  import opened BufioCache

  datatype NewFlag = Fresh | Read | Get | Prefetch

  // ---------------------------------------------------------------- writing

  /** The device finishes a write somebody waits for. */
  method FinishWrite(c: Cache, k: nat) returns (c': Cache)
    requires Sound(c) && k in c.bufs && c.bufs[k].writing
    ensures Sound(c') && View(c') == View(c)
    ensures c'.bufs == c.bufs[k := c.bufs[k].(todo := {}, writing := false)]
    ensures c'.clean == c.clean && c'.dirty == c.dirty && c'.size == c.size
  {
    var b, block := c.bufs[k].(todo := {}, writing := false), Merge(c.disk[k], c.bufs[k].data, c.bufs[k].todo);
    FinishKeeps(c.bufs[k], c.disk[k], c.size);
    ghost var d := BlockReplaced(c, k, b, block);
    c' := c.(disk := c.disk[k := block], bufs := c.bufs[k := b]);
  }

  /** A buffer after its dirty range, if it has one, was put in flight, and after a write has ended. */
  ghost function Started(b: Buffer, size: nat): Buffer {
    if b.dirty then StartWrite(b, size) else b
  }

  ghost function Settled(b: Buffer): Buffer {
    b.(writing := false, todo := {})
  }

  /** `__write_dirty_buffer`: waits for an earlier write, then starts one for the dirty range. */
  method WriteDirtyBuffer(c: Cache, k: nat) returns (c': Cache)
    requires Sound(c) && k in c.bufs
    ensures Sound(c') && View(c') == View(c)
    ensures c'.bufs == c.bufs[k := Started(c.bufs[k], c.size)]
    ensures c'.clean == c.clean && c'.dirty == c.dirty && c'.size == c.size
    ensures !c.bufs[k].dirty ==> c' == c
  {
    c' := c;
    UpdateTwice(c.bufs, k);
    if c.bufs[k].dirty {
      if c.bufs[k].writing {
        c' := FinishWrite(c, k);
      }
      StartWriteKeeps(c'.bufs[k], c'.disk[k], c'.size);
      ghost var d := BufferKept(c', k, StartWrite(c'.bufs[k], c'.size));
      c' := c'.(bufs := c'.bufs[k := StartWrite(c'.bufs[k], c'.size)]);
    }
  }

  lemma UpdateTwice(m: map<nat, Buffer>, k: nat)
    requires k in m
    ensures m[k := m[k]] == m
    ensures forall a, b {:trigger m[k := a][k := b]} :: m[k := a][k := b] == m[k := b]
  {
  }

  ghost predicate SameData(b: Buffer, b': Buffer) {
    b'.data == b.data && b'.reading == b.reading && b'.hold == b.hold && b'.unmarked == b.unmarked
  }

  /** `__make_buffer_clean` of a buffer nobody holds. */
  method MakeBufferClean(c: Cache, k: nat) returns (c': Cache)
    requires Sound(c) && k in c.bufs && c.bufs[k].hold == 0 && !c.bufs[k].reading
    ensures Sound(c') && View(c') == View(c) && c'.size == c.size
    ensures k in c'.bufs && c'.bufs == c.bufs[k := c'.bufs[k]] && SameData(c.bufs[k], c'.bufs[k])
    ensures !c'.bufs[k].dirty && !c'.bufs[k].writing && c'.clean == c.clean && c'.dirty == c.dirty
  {
    c' := WriteDirtyBuffer(c, k);
    UpdateTwice(c.bufs, k);
    if c'.bufs[k].writing {
      c' := FinishWrite(c', k);
    }
  }

  /** `read_endio`: the block has been read into the buffer. */
  method ReadEnd(c: Cache, k: nat) returns (c': Cache)
    requires Sound(c) && k in c.bufs && c.bufs[k].reading
    ensures Sound(c') && View(c') == View(c) && c' == c.(bufs := c'.bufs)
    ensures c'.bufs == c.bufs[k := c.bufs[k].(reading := false, data := c.disk[k])]
  {
    var b := c.bufs[k].(reading := false, data := c.disk[k]);
    ghost var d := BufferKept(c, k, b);
    c' := c.(bufs := c.bufs[k := b]);
  }

  /** `__make_buffer_clean`, waiting for a read too, and `__unlink_buffer`. */
  method Evict(c: Cache, k: nat) returns (c': Cache)
    requires Sound(c) && k in c.bufs && c.bufs[k].hold == 0
    ensures Sound(c') && View(c') == View(c) && c'.size == c.size && c'.bufs == c.bufs - {k}
    ensures c'.clean == Without(c.clean, k) && c'.dirty == Without(c.dirty, k)
  {
    c' := c;
    UpdateTwice(c.bufs, k);
    RemoveUpdated(c.bufs, k);
    if c.bufs[k].reading {
      c' := ReadEnd(c, k);
    }
    c' := MakeBufferClean(c', k);
    c' := UnlinkBuffer(c', k);
  }

  lemma RemoveUpdated(m: map<nat, Buffer>, k: nat)
    ensures forall a {:trigger m[k := a]} :: m[k := a] - {k} == m - {k}
  {
  }

  /** The buffer at this place of a list is the last one that nobody holds. */
  ghost predicate LastUnheld(c: Cache, list: seq<nat>, i: nat) {
    && (forall j :: 0 <= j < |list| ==> list[j] in c.bufs)
    && i < |list| && c.bufs[list[i]].hold == 0 && forall j :: i < j < |list| ==> c.bufs[list[j]].hold > 0
  }

  ghost predicate AllHeld(c: Cache, list: seq<nat>) {
    forall j :: 0 <= j < |list| ==> list[j] in c.bufs && c.bufs[list[j]].hold > 0
  }

  /** The scan of a list from its end. */
  method FindUnheld(c: Cache, list: seq<nat>) returns (found: bool, i: nat)
    requires forall i :: 0 <= i < |list| ==> list[i] in c.bufs
    ensures if found then LastUnheld(c, list, i) else AllHeld(c, list)
  {
    i := |list|;
    while i > 0
      invariant 0 <= i <= |list|
      invariant forall j :: i <= j < |list| ==> c.bufs[list[j]].hold > 0
    {
      i := i - 1;
      if c.bufs[list[i]].hold == 0 {
        return true, i;
      }
    }
    found := false;
  }

  /** The buffer to give up: the clean one least recently used that nobody holds; only without one, the
      dirty one. */
  ghost predicate Victim(c: Cache, k: nat) {
    || (exists i :: 0 <= i < |c.clean| && c.clean[i] == k && LastUnheld(c, c.clean, i))
    || (AllHeld(c, c.clean) && exists i :: 0 <= i < |c.dirty| && c.dirty[i] == k && LastUnheld(c, c.dirty, i))
  }

  /** `__get_unclaimed_buffer`: cleans and unlinks a buffer nobody holds, clean ones first. */
  method GetUnclaimedBuffer(c: Cache) returns (found: bool, k: nat, c': Cache)
    requires Sound(c)
    ensures Sound(c') && View(c') == View(c) && c'.size == c.size
    ensures found <==> exists j :: j in c.bufs && c.bufs[j].hold == 0
    ensures if found then && k in c.bufs && Victim(c, k) && c'.bufs == c.bufs - {k}
                          && c'.clean == Without(c.clean, k) && c'.dirty == Without(c.dirty, k)
            else c' == c
  {
    c', k := c, 0;
    var i;
    found, i := FindUnheld(c, c.clean);
    if found {
      k := c.clean[i];
    } else {
      found, i := FindUnheld(c, c.dirty);
      if found {
        k := c.dirty[i];
      }
    }
    if found {
      c' := Evict(c, k);
    }
  }

  predicate Busy(b: Buffer) {
    b.dirty || b.writing
  }

  /** What one buffer on the dirty list gets: the clean list if it is clean and quiet, else a write. */
  method CleanOrWrite(c: Cache, k: nat) returns (c': Cache)
    requires Sound(c) && k in c.dirty && k in c.bufs
    ensures Sound(c') && View(c') == View(c) && c'.size == c.size
    ensures c'.bufs == c.bufs[k := Started(c.bufs[k], c.size)]
    ensures forall j :: j in c'.dirty <==> j in c.dirty && (j == k ==> Busy(c.bufs[k]))
  {
    UpdateTwice(c.bufs, k);
    if !Busy(c.bufs[k]) {
      c' := RelinkLru(c, k, false);
    } else {
      c' := WriteDirtyBuffer(c, k);
    }
  }

  /** The dirty buffers in a list from a place on have been put in flight, the others are untouched. */
  ghost predicate StartedFrom(c: Cache, bufs: map<nat, Buffer>, n: nat) {
    && bufs.Keys == c.bufs.Keys
    && (forall k :: k in c.bufs && k !in c.dirty ==> bufs[k] == c.bufs[k])
    && (forall j :: 0 <= j < |c.dirty| && c.dirty[j] in c.bufs ==>
          bufs[c.dirty[j]] == if j >= n then Started(c.bufs[c.dirty[j]], c.size) else c.bufs[c.dirty[j]])
  }

  /** Buffers from a place of the dirty list on have left it if they were clean and quiet. */
  ghost predicate LeftFrom(c: Cache, dirty: seq<nat>, n: nat) {
    && (forall k :: k in dirty ==> k in c.dirty)
    && (forall j :: 0 <= j < |c.dirty| && c.dirty[j] in c.bufs ==>
          (c.dirty[j] in dirty <==> j < n || Busy(c.bufs[c.dirty[j]])))
  }

  /** The buffer at this place of the dirty list is being written. */
  predicate WrittenAt(c: Cache, n: nat) {
    n < |c.dirty| && c.dirty[n] in c.bufs && c.bufs[c.dirty[n]].writing
  }

  ghost predicate NoneWritten(c: Cache, n: nat) {
    forall j: nat :: j >= n ==> !WrittenAt(c, j)
  }

  lemma OneNotWritten(c: Cache, n: nat)
    requires n > 0 && NoneWritten(c, n) && !WrittenAt(c, n - 1)
    ensures NoneWritten(c, n - 1)
  {
  }

  ghost predicate Listed(c: Cache) {
    NoDup(c.dirty) && forall j :: 0 <= j < |c.dirty| ==> c.dirty[j] in c.bufs
  }

  /** `__write_dirty_buffers_async` has come down to some place of the dirty list. */
  ghost predicate Reached(c: Cache, c': Cache, noWait: bool, n: nat) {
    && Sound(c') && View(c') == View(c) && c'.size == c.size
    && n <= |c.dirty| && StartedFrom(c, c'.bufs, n) && LeftFrom(c, c'.dirty, n)
    && (noWait ==> NoneWritten(c, n))
  }

  lemma NoneStarted(c: Cache, noWait: bool)
    requires Sound(c)
    ensures Listed(c) && Reached(c, c, noWait, |c.dirty|)
  {
  }

  lemma MoreStarted(c: Cache, bufs: map<nat, Buffer>, n: nat)
    requires 0 < n <= |c.dirty| && NoDup(c.dirty) && c.dirty[n - 1] in c.bufs && StartedFrom(c, bufs, n)
    ensures c.dirty[n - 1] in bufs && bufs[c.dirty[n - 1]] == c.bufs[c.dirty[n - 1]]
    ensures StartedFrom(c, bufs[c.dirty[n - 1] := Started(c.bufs[c.dirty[n - 1]], c.size)], n - 1)
  {
  }

  lemma StillDirty(c: Cache, dirty: seq<nat>, n: nat)
    requires 0 < n <= |c.dirty| && c.dirty[n - 1] in c.bufs && LeftFrom(c, dirty, n)
    ensures c.dirty[n - 1] in dirty
  {
  }

  lemma MoreLeft(c: Cache, dirty: seq<nat>, dirty': seq<nat>, n: nat)
    requires 0 < n <= |c.dirty| && NoDup(c.dirty) && c.dirty[n - 1] in c.bufs && LeftFrom(c, dirty, n)
    requires forall j :: j in dirty' <==> j in dirty && (j == c.dirty[n - 1] ==> Busy(c.bufs[c.dirty[n - 1]]))
    ensures LeftFrom(c, dirty', n - 1)
  {
  }

  /** One turn of the loop of `__write_dirty_buffers_async`. */
  method StartOne(c: Cache, now: Cache, noWait: bool, n: nat) returns (c': Cache)
    requires Listed(c) && 0 < n <= |c.dirty| && Reached(c, now, noWait, n) && !(noWait && WrittenAt(c, n - 1))
    ensures Reached(c, c', noWait, n - 1)
  {
    MoreStarted(c, now.bufs, n);
    StillDirty(c, now.dirty, n);
    c' := CleanOrWrite(now, c.dirty[n - 1]);
    MoreLeft(c, now.dirty, c'.dirty, n);
    if noWait {
      OneNotWritten(c, n);
    }
  }

  /** `__write_dirty_buffers_async`: starts writing the dirty buffers, least recently used first, down to
      the first one that is still being written if told not to wait, else all. */
  method WriteDirtyBuffersAsync(c: Cache, noWait: bool) returns (c': Cache, ghost n: nat)
    requires Sound(c)
    ensures Reached(c, c', noWait, n)
    ensures n > 0 ==> noWait && WrittenAt(c, n - 1)
  {
    NoneStarted(c, noWait);
    c', n := StartFromEnd(c, noWait);
  }

  method StartFromEnd(c: Cache, noWait: bool) returns (c': Cache, ghost n: nat)
    requires Listed(c) && Reached(c, c, noWait, |c.dirty|)
    ensures Reached(c, c', noWait, n)
    ensures n > 0 ==> noWait && WrittenAt(c, n - 1)
  {
    c' := c;
    var i: nat := |c.dirty|;
    while i > 0 && !(noWait && WrittenAt(c, i - 1))
      invariant Reached(c, c', noWait, i)
    {
      c' := StartOne(c, c', noWait, i);
      i := i - 1;
    }
    n := i;
  }

  /** Waits for the write of one buffer and puts it on the clean list if it is clean. */
  method WaitForWrite(c: Cache, k: nat) returns (c': Cache)
    requires Sound(c) && k in c.dirty && k in c.bufs
    ensures Sound(c') && View(c') == View(c) && c'.size == c.size
    ensures c'.bufs == c.bufs[k := Settled(c.bufs[k])]
    ensures forall j :: j in c'.dirty <==> j in c.dirty && (j == k ==> c.bufs[k].dirty)
  {
    c' := Settle(c, k);
    if !c'.bufs[k].dirty && !c'.bufs[k].writing {
      c' := RelinkLru(c', k, false);
    }
  }

  /** Waits for a write if there is one. */
  method Settle(c: Cache, k: nat) returns (c': Cache)
    requires Sound(c) && k in c.bufs
    ensures Sound(c') && View(c') == View(c) && c'.size == c.size && c'.clean == c.clean && c'.dirty == c.dirty
    ensures c'.bufs == c.bufs[k := Settled(c.bufs[k])]
  {
    c' := c;
    UpdateTwice(c.bufs, k);
    if c.bufs[k].writing {
      c' := FinishWrite(c, k);
    }
  }

  /** The writes of the buffers in a list from a place on are over, the others are untouched. */
  ghost predicate SettledFrom(c: Cache, bufs: map<nat, Buffer>, n: nat) {
    && bufs.Keys == c.bufs.Keys
    && (forall k :: k in c.bufs && k !in c.dirty ==> bufs[k] == c.bufs[k])
    && (forall j :: 0 <= j < |c.dirty| && c.dirty[j] in c.bufs ==>
          bufs[c.dirty[j]] == if j >= n then Settled(c.bufs[c.dirty[j]]) else c.bufs[c.dirty[j]])
  }

  /** The members of a list from a place on have left it. */
  ghost predicate GoneFrom(list: seq<nat>, list': seq<nat>, n: nat) {
    && (forall k :: k in list' ==> k in list)
    && (forall j :: 0 <= j < |list| ==> (list[j] in list' <==> j < n))
  }

  lemma MoreGone(list: seq<nat>, list': seq<nat>, list'': seq<nat>, n: nat)
    requires 0 < n <= |list| && NoDup(list) && GoneFrom(list, list', n)
    requires forall j :: j in list'' <==> j in list' && j != list[n - 1]
    ensures GoneFrom(list, list'', n - 1)
  {
  }

  /** The waiting of `dm_bufio_write_dirty_buffers` has come down to some place of the dirty list. */
  ghost predicate Waited(c: Cache, c': Cache, n: nat) {
    && Sound(c') && View(c') == View(c) && c'.size == c.size && n <= |c.dirty| && SettledFrom(c, c'.bufs, n)
    && GoneFrom(c.dirty, c'.dirty, n)
  }

  lemma NoneSettled(c: Cache)
    requires Sound(c)
    ensures Listed(c) && Waited(c, c, |c.dirty|)
  {
  }

  lemma MoreSettled(c: Cache, bufs: map<nat, Buffer>, n: nat)
    requires 0 < n <= |c.dirty| && NoDup(c.dirty) && c.dirty[n - 1] in c.bufs && SettledFrom(c, bufs, n)
    ensures c.dirty[n - 1] in bufs && bufs[c.dirty[n - 1]] == c.bufs[c.dirty[n - 1]]
    ensures SettledFrom(c, bufs[c.dirty[n - 1] := Settled(c.bufs[c.dirty[n - 1]])], n - 1)
  {
  }

  ghost predicate NoneMarked(bufs: map<nat, Buffer>) {
    forall k :: k in bufs ==> !bufs[k].dirty
  }

  /** One turn of the waiting loop. */
  method WaitOne(c: Cache, now: Cache, n: nat) returns (c': Cache)
    requires Listed(c) && 0 < n <= |c.dirty| && Waited(c, now, n) && NoneMarked(c.bufs)
    ensures Waited(c, c', n - 1)
  {
    MoreSettled(c, now.bufs, n);
    assert c.dirty[n - 1] in now.dirty;
    c' := WaitForWrite(now, c.dirty[n - 1]);
    MoreGone(c.dirty, now.dirty, c'.dirty, n);
  }

  /** Waits for all writes, with nothing dirty. */
  method WaitForAll(c: Cache) returns (c': Cache)
    requires Listed(c) && Waited(c, c, |c.dirty|) && NoneMarked(c.bufs)
    ensures Waited(c, c', 0)
  {
    c' := c;
    var i: nat := |c.dirty|;
    while i > 0
      invariant Waited(c, c', i)
    {
      c' := WaitOne(c, c', i);
      i := i - 1;
    }
  }

  /** `dm_bufio_write_dirty_buffers`, with nobody else marking buffers meanwhile: every dirty range has
      been written, no buffer is on the dirty list, and if all changes had been marked the disk is what
      the client sees. */
  method WriteDirtyBuffers(c: Cache) returns (c': Cache)
    requires Sound(c)
    ensures Sound(c') && View(c') == View(c) && c'.size == c.size && c'.bufs.Keys == c.bufs.Keys
    ensures forall k :: k in c.bufs ==> c'.bufs[k] == Settled(Started(c.bufs[k], c.size))
    ensures c'.dirty == []
    ensures (forall k :: k in c.bufs ==> c.bufs[k].unmarked == {}) ==> c'.disk == View(c)
  {
    var a, _ := WriteDirtyBuffersAsync(c, false);
    AllStarted(c, a.bufs);
    NoneSettled(a);
    c' := WaitForAll(a);
    AllSettled(a, c'.bufs);
    NoneDirty(a, c');
    if forall k :: k in c.bufs ==> c.bufs[k].unmarked == {} {
      AllQuiet(c.bufs, c'.bufs, c.size);
      AllClean(c');
    }
  }

  lemma AllQuiet(bufs: map<nat, Buffer>, bufs': map<nat, Buffer>, size: nat)
    requires bufs'.Keys == bufs.Keys && forall k :: k in bufs ==> bufs'[k] == Settled(Started(bufs[k], size))
    ensures forall k :: k in bufs' ==>
              !bufs'[k].dirty && !bufs'[k].writing && bufs'[k].unmarked == bufs[k].unmarked
  {
  }

  lemma NoneDirty(c: Cache, c': Cache)
    requires Waited(c, c', 0)
    ensures c'.dirty == []
  {
    assert forall k :: k in c.dirty ==> k !in c'.dirty;
    FirstIsIn(c'.dirty);
  }

  lemma FirstIsIn(s: seq<nat>)
    ensures |s| > 0 ==> s[0] in s
  {
  }

  lemma AllStarted(c: Cache, bufs: map<nat, Buffer>)
    requires Sound(c) && StartedFrom(c, bufs, 0)
    ensures NoneMarked(bufs) && forall k :: k in c.bufs ==> bufs[k] == Started(c.bufs[k], c.size)
  {
  }

  lemma AllSettled(c: Cache, bufs: map<nat, Buffer>)
    requires Sound(c) && SettledFrom(c, bufs, 0)
    ensures forall k :: k in c.bufs ==> bufs[k] == Settled(c.bufs[k])
  {
    forall k | k in c.bufs
      ensures bufs[k] == Settled(c.bufs[k])
    {
      assert k in c.clean || k in c.dirty;
      assert BufferOk(c.bufs[k], c.disk[k], c.size);
    }
  }

  // ---------------------------------------------------------------- getting a buffer

  datatype Got = Nothing | Buf(needSubmit: bool)

  /** What a buffer's memory still has from its earlier use: its data, and the range last written. */
  datatype Memory = Memory(data: Block, writeStart: nat, writeEnd: nat)

  /** A buffer just linked: a fresh one holds whatever its memory held, which its holder is to
      overwrite and mark; any other one waits for its block to be read. */
  function NewBuffer(nf: NewFlag, memory: Memory, size: nat): Buffer {
    Buffer(memory.data, nf != Fresh, false, 0, 0, false, memory.writeStart, memory.writeEnd, {}, 1,
           if nf == Fresh then Range(0, size) else {})
  }

  /** The cache without one buffer. */
  ghost function GivenUp(c: Cache, k: nat): Cache {
    c.(bufs := c.bufs - {k}, clean := Without(c.clean, k), dirty := Without(c.dirty, k))
  }

  /** A new buffer stands first on the clean list.  With more than three dirty buffers to a clean one
      those from some place of the dirty list on have been put in flight; no other buffer has changed. */
  ghost predicate Joined(c: Cache, c': Cache, k: nat, b: Buffer, n: nat) {
    && k in c'.bufs && c'.bufs[k] == b && |c'.clean| > 0 && c'.clean[0] == k
    && if |c.dirty| > 3 * |c.clean|
       then && n <= |c.dirty| && StartedFrom(c, c'.bufs - {k}, n)
            && (n > 0 ==> WrittenAt(c, n - 1)) && NoneWritten(c, n)
       else c'.bufs - {k} == c.bufs && c'.clean == [k] + c.clean && c'.dirty == c.dirty
  }

  /** `__check_watermark` and `__link_buffer` */
  method AddBuffer(c: Cache, k: nat, nf: NewFlag, memory: Memory) returns (c': Cache, ghost n: nat)
    requires Sound(c) && k < |c.disk| && k !in c.bufs && |memory.data| == c.size
    ensures Sound(c') && c'.size == c.size
    ensures View(c') == if nf == Fresh then View(c)[k := memory.data] else View(c)
    ensures Joined(c, c', k, NewBuffer(nf, memory, c.size), n)
  {
    c', n := c, 0;
    assert |View(c)| == |c.disk|;
    if c.nDirty > c.nClean * 3 {
      c', n := WriteDirtyBuffersAsync(c, true);
      assert |View(c')| == |c'.disk|;
    }
    NewIsOk(nf, memory, c'.disk[k], c'.size);
    BufferLinked(c', k, NewBuffer(nf, memory, c'.size), false);
    LinkedIs(c'.bufs, k, NewBuffer(nf, memory, c'.size));
    c' := LinkBuffer(c', k, NewBuffer(nf, memory, c'.size), false);
  }

  lemma LinkedIs(bufs: map<nat, Buffer>, k: nat, b: Buffer)
    requires k !in bufs
    ensures bufs[k := b] - {k} == bufs
  {
  }

  /** The part of `__bufio_new` for a block that has a buffer. */
  method Found(c: Cache, k: nat, nf: NewFlag) returns (c': Cache, r: Got)
    requires Sound(c) && k in c.bufs
    ensures Sound(c') && View(c') == View(c) && c'.size == c.size
    ensures r == Nothing <==> nf == Prefetch || (nf == Get && c.bufs[k].reading)
    ensures if r == Nothing then c' == c else r == Buf(false) && Taken(c, c', k)
  {
    c', r := c, Nothing;
    if nf != Prefetch && !(nf == Get && c.bufs[k].reading) {
      c' := Take(c, k);
      r := Buf(false);
    }
  }

  method Take(c: Cache, k: nat) returns (c': Cache)
    requires Sound(c) && k in c.bufs
    ensures Sound(c') && View(c') == View(c) && c'.size == c.size && Taken(c, c', k)
  {
    var a := Hold(c, k);
    assert a.clean == c.clean && a.dirty == c.dirty && a.disk == c.disk && Busy(a.bufs[k]) == Busy(c.bufs[k]);
    c' := RelinkLru(a, k, Busy(a.bufs[k]));
  }

  method Hold(c: Cache, k: nat) returns (c': Cache)
    requires Sound(c) && k in c.bufs
    ensures Sound(c') && View(c') == View(c)
    ensures c' == c.(bufs := c.bufs[k := c.bufs[k].(hold := c.bufs[k].hold + 1)])
    ensures if Busy(c'.bufs[k]) then !c'.bufs[k].reading else !c'.bufs[k].dirty && !c'.bufs[k].writing
  {
    var b := c.bufs[k].(hold := c.bufs[k].hold + 1);
    ghost var d := BufferKept(c, k, b);
    c' := c.(bufs := c.bufs[k := b]);
  }

  /** A buffer has one more holder and stands first on its list. */
  ghost predicate Taken(c: Cache, c': Cache, k: nat)
    requires k in c.bufs
  {
    && c'.bufs == c.bufs[k := c.bufs[k].(hold := c.bufs[k].hold + 1)] && c'.disk == c.disk
    && (c'.clean, c'.dirty) == Relink((c.clean, c.dirty), k, Busy(c.bufs[k]))
  }

  /** The part of `__bufio_new` for a block without a buffer: none is made when nobody asks for one, or
      when there is no memory and none may or can be given up. */
  method Allocate(c: Cache, k: nat, nf: NewFlag, memory: Memory, noMemory: bool)
    returns (c': Cache, r: Got, ghost v: nat, ghost n: nat)
    requires Sound(c) && k < |c.disk| && k !in c.bufs && |memory.data| == c.size
    ensures Sound(c') && c'.size == c.size
    ensures View(c') == if nf == Fresh && r.Buf? then View(c)[k := memory.data] else View(c)
    ensures r == Nothing <==>
            nf == Get || (noMemory && (nf == Prefetch || forall j :: j in c.bufs ==> c.bufs[j].hold > 0))
    ensures if r == Nothing then c' == c
            else r == Buf(nf != Fresh) && Replaced(c, c', k, NewBuffer(nf, memory, c.size), noMemory, v, n)
  {
    c', r, v, n := c, Nothing, 0, 0;
    if nf == Get || (noMemory && nf == Prefetch) {
      return;
    }
    if noMemory {
      var found, k', room := GetUnclaimedBuffer(c);
      if !found {
        return;
      }
      v := k';
      SameLength(c, room);
      c', n := AddBuffer(room, k, nf, memory);
      JoinedSame(room, GivenUp(c, v), c', k, NewBuffer(nf, memory, c.size), n);
    } else {
      c', n := AddBuffer(c, k, nf, memory);
    }
    r := Buf(nf != Fresh);
  }

  lemma SameLength(c: Cache, c': Cache)
    requires View(c') == View(c)
    ensures |c'.disk| == |c.disk|
  {
    assert |View(c')| == |c'.disk| && |View(c)| == |c.disk|;
  }

  lemma JoinedSame(a: Cache, b: Cache, c: Cache, k: nat, buf: Buffer, n: nat)
    requires a.bufs == b.bufs && a.clean == b.clean && a.dirty == b.dirty && a.size == b.size
    requires Joined(a, c, k, buf, n)
    ensures Joined(b, c, k, buf, n)
  {
    assert forall j: nat :: WrittenAt(b, j) == WrittenAt(a, j);
  }

  /** A new buffer has joined, and where memory was short another one has been given up for it. */
  ghost predicate Replaced(c: Cache, c': Cache, k: nat, b: Buffer, noMemory: bool, v: nat, n: nat) {
    if noMemory then v in c.bufs && Victim(c, v) && Joined(GivenUp(c, v), c', k, b, n) else Joined(c, c', k, b, n)
  }

  /** `__bufio_new`.  When there is no memory for a buffer one is evicted, and when that fails
      the caller waits. */
  method BufioNew(c: Cache, k: nat, nf: NewFlag, memory: Memory, noMemory: bool)
    returns (c': Cache, r: Got, ghost v: nat, ghost n: nat)
    requires Sound(c) && k < |c.disk| && |memory.data| == c.size
    ensures Sound(c') && c'.size == c.size
    ensures View(c') == if k !in c.bufs && nf == Fresh && r.Buf? then View(c)[k := memory.data] else View(c)
    ensures k in c.bufs ==> (r == Nothing <==> nf == Prefetch || (nf == Get && c.bufs[k].reading))
    ensures k !in c.bufs ==> (r == Nothing <==>
              nf == Get || (noMemory && (nf == Prefetch || forall j :: j in c.bufs ==> c.bufs[j].hold > 0)))
    ensures r == Nothing ==> c' == c
    ensures k in c.bufs && r.Buf? ==> r == Buf(false) && Taken(c, c', k)
    ensures k !in c.bufs && r.Buf? ==>
              r == Buf(nf != Fresh) && Replaced(c, c', k, NewBuffer(nf, memory, c.size), noMemory, v, n)
  {
    v, n := 0, 0;
    if k in c.bufs {
      c', r := Found(c, k, nf);
    } else {
      c', r, v, n := Allocate(c, k, nf, memory, noMemory);
    }
  }

  lemma NewIsOk(nf: NewFlag, memory: Memory, disk: Block, size: nat)
    requires |memory.data| == |disk| == size
    ensures BufferOk(NewBuffer(nf, memory, size), disk, size)
  {
    forall i: nat | i < size && nf == Fresh
      ensures Accounted(NewBuffer(nf, memory, size), i)
    {
      assert AtLeast(i, 0);
    }
  }

  /** `dm_bufio_release` by a holder that has marked all it changed. */
  method Release(c: Cache, k: nat) returns (c': Cache)
    requires Sound(c) && k in c.bufs && c.bufs[k].hold > 0 && (c.bufs[k].hold == 1 ==> c.bufs[k].unmarked == {})
    ensures Sound(c') && View(c') == View(c) && c'.disk == c.disk && c'.size == c.size
    ensures c'.bufs == c.bufs[k := c.bufs[k].(hold := c.bufs[k].hold - 1)]
  {
    var b := c.bufs[k].(hold := c.bufs[k].hold - 1);
    ghost var d := BufferKept(c, k, b);
    c' := c.(bufs := c.bufs[k := b]);
  }

  /** The bytes of a buffer that the write to its new place covers when others hold it too: those of
      its dirty range or, when it is clean, of the last write it had. */
  function MoveRange(b: Buffer, size: nat): set<nat> {
    if b.dirty then Range(WriteLo(b.dirtyStart), WriteHi(b.dirtyEnd, size))
    else Range(WriteLo(b.writeStart), WriteHi(b.writeEnd, size))
  }

  /** `dm_bufio_release_move`: after a write to its old place the buffer of a sole holder becomes the
      dirty buffer of another block; a buffer that others hold too stays, and a part of it is written
      to the other block.  A buffer the other block had is evicted, or waited for if it is held. */
  method ReleaseMove(c: Cache, k: nat, to: nat) returns (c': Cache, moved: bool)
    requires Sound(c) && 0 < c.size && k in c.bufs && to < |c.disk|
    requires c.bufs[k].hold > 0 && !c.bufs[k].reading && (c.bufs[k].hold == 1 ==> c.bufs[k].unmarked == {})
    ensures Sound(c') && c'.size == c.size
    ensures moved <==> to !in c.bufs || c.bufs[to].hold == 0
    ensures !moved ==> c' == c
    ensures moved ==> c'.bufs - {k, to} == c.bufs - {k, to}
    ensures moved && c.bufs[k].hold == 1 ==>
              && View(c') == View(c)[to := View(c)[k]]
              && k !in c'.bufs && to in c'.bufs && WholeDirty(c'.bufs[to], c.size)
    ensures moved && c.bufs[k].hold > 1 ==>
              && |View(c)[to]| == |View(c)[k]|
              && View(c') == View(c)[to := Merge(View(c)[to], View(c)[k], MoveRange(c.bufs[k], c.size))]
              && to !in c'.bufs && k in c'.bufs && PutDownFrom(c.bufs[k], c'.bufs[k])
  {
    c', moved := MakeRoom(c, to);
    if moved {
      if c.bufs[k].hold == 1 {
        c' := Relocate(c', k, to);
        OthersKept(c.bufs, k, to, c'.bufs[to]);
      } else {
        c' := WriteElsewhere(c', k, to);
        OthersKept(c.bufs, k, to, c'.bufs[k]);
      }
    }
  }

  lemma OthersKept(m: map<nat, Buffer>, k: nat, to: nat, b: Buffer)
    ensures (m - {to} - {k})[to := b] - {k, to} == m - {k, to}
    ensures (m - {to})[k := b] - {k, to} == m - {k, to}
  {
  }

  /** A buffer nobody holds, dirty from end to end. */
  ghost predicate WholeDirty(b: Buffer, size: nat) {
    b.dirty && b.dirtyStart == 0 && b.dirtyEnd == size && !b.writing && !b.reading && b.hold == 0 && b.unmarked == {}
  }

  /** A buffer has been written and has a holder less. */
  ghost predicate PutDownFrom(b: Buffer, b': Buffer) {
    && b'.data == b.data && b'.unmarked == b.unmarked && b'.hold == b.hold - 1
    && !b'.reading && !b'.dirty && !b'.writing
  }

  /** Sees to it that a block has no buffer, unless somebody holds it. */
  method MakeRoom(c: Cache, to: nat) returns (c': Cache, ok: bool)
    requires Sound(c) && to < |c.disk|
    ensures Sound(c') && View(c') == View(c) && c'.size == c.size && |c'.disk| == |c.disk|
    ensures ok <==> to !in c.bufs || c.bufs[to].hold == 0
    ensures if ok then c'.bufs == c.bufs - {to} else c' == c
  {
    c', ok := c, to !in c.bufs;
    if to in c.bufs && c.bufs[to].hold == 0 {
      c' := Evict(c, to);
      ok := true;
    }
    assert |View(c')| == |c'.disk| && |View(c)| == |c.disk|;
  }

  /** Writes a buffer back if it is dirty and waits, whoever holds it. */
  method WriteAndWait(c: Cache, k: nat) returns (c': Cache)
    requires Sound(c) && k in c.bufs && !c.bufs[k].reading
    ensures Sound(c') && View(c') == View(c) && c'.size == c.size && k in c'.bufs
    ensures c'.bufs == c.bufs[k := c'.bufs[k]] && SameData(c.bufs[k], c'.bufs[k])
    ensures !c'.bufs[k].dirty && !c'.bufs[k].writing && MoveRange(c'.bufs[k], c.size) == MoveRange(c.bufs[k], c.size)
  {
    UpdateTwice(c.bufs, k);
    c' := WriteDirtyBuffer(c, k);
    c' := Settle(c', k);
  }

  /** The branch of `dm_bufio_release_move` for a buffer that others hold too. */
  method WriteElsewhere(c: Cache, k: nat, to: nat) returns (c': Cache)
    requires Sound(c) && k in c.bufs && to < |c.disk| && to !in c.bufs && c.bufs[k].hold > 1 && !c.bufs[k].reading
    ensures Sound(c') && c'.size == c.size && |View(c)[to]| == |View(c)[k]|
    ensures View(c') == View(c)[to := Merge(View(c)[to], View(c)[k], MoveRange(c.bufs[k], c.size))]
    ensures k in c'.bufs && c'.bufs == c.bufs[k := c'.bufs[k]] && PutDownFrom(c.bufs[k], c'.bufs[k])
  {
    BlocksAreWhole(c);
    UpdateTwice(c.bufs, k);
    c' := CopyRange(c, k, to);
    c' := PutDown(c', k);
  }

  method CopyRange(c: Cache, k: nat, to: nat) returns (c': Cache)
    requires Sound(c) && k in c.bufs && to < |c.disk| && to !in c.bufs && !c.bufs[k].reading
    requires k < |c.disk| && |View(c)[to]| == |View(c)[k]|
    ensures Sound(c') && c'.size == c.size
    ensures View(c') == View(c)[to := Merge(View(c)[to], View(c)[k], MoveRange(c.bufs[k], c.size))]
    ensures k in c'.bufs && c'.bufs == c.bufs[k := c'.bufs[k]] && SameData(c.bufs[k], c'.bufs[k])
    ensures !c'.bufs[k].dirty && !c'.bufs[k].writing
  {
    var a := WriteAndWait(c, k);
    assert |View(a)| == |a.disk| && |View(c)| == |c.disk|;
    c' := WriteRange(a, k, to);
  }

  /** A quiet buffer goes to the front of its list and loses a holder, though not the last. */
  method PutDown(c: Cache, k: nat) returns (c': Cache)
    requires Sound(c) && k in c.bufs && c.bufs[k].hold > 1 && !c.bufs[k].reading && !c.bufs[k].dirty &&
             !c.bufs[k].writing
    ensures Sound(c') && View(c') == View(c) && c'.size == c.size
    ensures c'.bufs == c.bufs[k := c.bufs[k].(hold := c.bufs[k].hold - 1)]
  {
    c' := RelinkLru(c, k, k in c.dirty);
    c' := Release(c', k);
  }

  /** A part of a quiet buffer is written to a block that has none. */
  method WriteRange(c: Cache, k: nat, to: nat) returns (c': Cache)
    requires Sound(c) && k in c.bufs && to < |c.disk| && to !in c.bufs && !c.bufs[k].reading &&
             |View(c)[to]| == |View(c)[k]|
    ensures Sound(c') && c'.size == c.size && c'.bufs == c.bufs
    ensures View(c') == View(c)[to := Merge(View(c)[to], View(c)[k], MoveRange(c.bufs[k], c.size))]
  {
    ViewChange(c.disk, c.bufs, k, c.bufs[k], c.disk[k]);
    var block := Merge(c.disk[to], c.bufs[k].data, MoveRange(c.bufs[k], c.size));
    ghost var d := BlockWritten(c, to, block);
    c' := c.(disk := c.disk[to := block]);
  }

  /** A buffer held by others as well is copied in full, whatever the blocks hold, if and only if the
      range written is the whole block. */
  lemma SharedMoveCopiesWhen(b: Buffer, size: nat)
    requires size > 0
    ensures (forall x: Block, y: Block :: |x| == |y| == size ==> Merge(x, y, MoveRange(b, size)) == y)
       <==> if b.dirty then b.dirtyStart < ALIGN && WriteHi(b.dirtyEnd, size) == size
            else b.writeStart < ALIGN && WriteHi(b.writeEnd, size) == size
  {
    var start, end := if b.dirty then b.dirtyStart else b.writeStart, if b.dirty then b.dirtyEnd else b.writeEnd;
    var r := MoveRange(b, size);
    AlignedDown(start);
    if start < ALIGN && WriteHi(end, size) == size {
      forall x: Block, y: Block | |x| == |y| == size
        ensures Merge(x, y, r) == y
      {
        assert forall i :: 0 <= i < size ==> AtLeast(i, 0) && i in r;
      }
    } else {
      var i := if start < ALIGN then size - 1 else 0;
      assert i !in r;
      var x, y := seq(size, _ => 0), seq(size, _ => 1);
      assert Merge(x, y, r)[i] == 0;
    }
  }

  lemma AlignedDown(x: nat)
    ensures if x < ALIGN then WriteLo(x) == 0 else WriteLo(x) > 0
  {
  }

  /** Two holders, a clean buffer of two pages whose last write was of the first sector: only the first
      page is copied. */
  lemma SharedMoveCopiesPart(data: Block, other: Block)
    requires |data| == |other| == 8192
    ensures var b := Buffer(data, false, false, 0, 0, false, 0, 512, {}, 2, {});
            BufferOk(b, data, 8192) && Merge(other, data, MoveRange(b, 8192)) == data[..4096] + other[4096..]
  {
    var b := Buffer(data, false, false, 0, 0, false, 0, 512, {}, 2, {});
    assert forall i: nat :: i in MoveRange(b, 8192) <==> i < 4096 && AtLeast(i, 0);
  }

  /** The part of `dm_bufio_release_move` after the other block's buffer is gone. */
  method Relocate(c: Cache, k: nat, to: nat) returns (c': Cache)
    requires Sound(c) && 0 < c.size && k in c.bufs && to < |c.disk| && to !in c.bufs
    requires c.bufs[k].hold == 1 && !c.bufs[k].reading && c.bufs[k].unmarked == {}
    ensures Sound(c') && c'.size == c.size && View(c') == View(c)[to := View(c)[k]]
    ensures to in c'.bufs && WholeDirty(c'.bufs[to], c.size) && c'.bufs == (c.bufs - {k})[to := c'.bufs[to]]
  {
    var b;
    c', b := TakeOut(c, k);
    b := b.(dirty := true, dirtyStart := 0, dirtyEnd := c'.size);
    MovedIsOk(b, c'.disk[to], c'.size);
    BufferLinked(c', to, b, true);
    c' := LinkBuffer(c', to, b, true);
  }

  /** Writes a buffer if it is dirty, waits for the write, and takes it out of the cache. */
  method TakeOut(c: Cache, k: nat) returns (c': Cache, b: Buffer)
    requires Sound(c) && k in c.bufs && c.bufs[k].hold == 1 && !c.bufs[k].reading && c.bufs[k].unmarked == {}
    ensures Sound(c') && View(c') == View(c) && c'.size == c.size && c'.bufs == c.bufs - {k}
    ensures k < |View(c)| && b.data == View(c)[k] && |b.data| == c.size && b.hold == 0
    ensures !b.dirty && !b.writing && !b.reading && b.todo == {} && b.unmarked == {}
  {
    RemoveUpdated(c.bufs, k);
    UpdateTwice(c.bufs, k);
    c' := Release(c, k);
    c' := MakeBufferClean(c', k);
    b := c'.bufs[k];
    c' := UnlinkBuffer(c', k);
  }

  lemma MovedIsOk(b: Buffer, disk: Block, size: nat)
    requires |b.data| == |disk| == size > 0 && !b.reading && !b.writing && b.todo == {} && b.unmarked == {}
    requires b.dirty && b.dirtyStart == 0 && b.dirtyEnd == size
    ensures BufferOk(b, disk, size)
  {
    assert forall i: nat :: i < size ==> Accounted(b, i);
  }

  predicate Idle(c: Cache, k: nat) {
    k in c.bufs && c.bufs[k].hold == 0 && !c.bufs[k].reading && !c.bufs[k].dirty && !c.bufs[k].writing
  }

  /** `dm_bufio_forget`: drops a buffer exactly when it is neither held nor busy nor dirty. */
  method Forget(c: Cache, k: nat) returns (c': Cache)
    requires Sound(c)
    ensures Sound(c') && View(c') == View(c) && c'.size == c.size && c'.disk == c.disk
    ensures if Idle(c, k) then c'.bufs == c.bufs - {k} else c' == c
  {
    c' := c;
    if Idle(c, k) {
      c' := UnlinkBuffer(c, k);
    }
  }

  /** `dm_bufio_mark_partial_buffer_dirty` */
  method MarkDirty(c: Cache, k: nat, start: nat, end: nat) returns (c': Cache)
    requires Sound(c) && k in c.bufs && c.bufs[k].hold > 0 && !c.bufs[k].reading && start < end <= c.size
    ensures Sound(c') && View(c') == View(c) && c'.size == c.size
    ensures c'.bufs == c.bufs[k := Mark(c.bufs[k], start, end)] && k in c'.dirty
  {
    c' := c;
    if !c.bufs[k].dirty {
      c' := RelinkLru(c, k, true);
    }
    MarkKeeps(c.bufs[k], c.disk[k], c.size, start, end);
    ghost var d := BufferKept(c', k, Mark(c.bufs[k], start, end));
    c' := c'.(bufs := c'.bufs[k := Mark(c.bufs[k], start, end)]);
  }

  /** A holder stores a byte in its buffer. */
  method StoreByte(c: Cache, k: nat, i: nat, x: int) returns (c': Cache)
    requires Sound(c) && k in c.bufs && c.bufs[k].hold > 0 && !c.bufs[k].reading && i < c.size
    ensures Sound(c') && c'.size == c.size
    ensures k < |View(c)| && |View(c)[k]| == c.size && View(c') == View(c)[k := View(c)[k][i := x]]
    ensures c'.bufs == c.bufs[k := Store(c.bufs[k], i, x)]
  {
    StoreKeeps(c.bufs[k], c.disk[k], c.size, i, x);
    ghost var d := BufferReplaced(c, k, Store(c.bufs[k], i, x));
    c' := c.(bufs := c.bufs[k := Store(c.bufs[k], i, x)]);
  }

  /** The device stores one byte of a write in flight. */
  method Transfer(c: Cache, k: nat, i: nat) returns (c': Cache)
    requires Sound(c) && k in c.bufs && c.bufs[k].writing && i < c.size
    ensures Sound(c') && View(c') == View(c) && c'.size == c.size
    ensures c'.bufs == c.bufs[k := c.bufs[k].(todo := c.bufs[k].todo - {i})]
    ensures c'.disk == c.disk[k := c.disk[k][i := c.bufs[k].data[i]]]
  {
    var b, block := c.bufs[k].(todo := c.bufs[k].todo - {i}), c.disk[k][i := c.bufs[k].data[i]];
    TransferKeeps(c.bufs[k], c.disk[k], c.size, i);
    ghost var d := BlockReplaced(c, k, b, block);
    c' := c.(disk := c.disk[k := block], bufs := c.bufs[k := b]);
  }

  /** `write_endio`, once the device has stored the whole range. */
  method WriteEnd(c: Cache, k: nat) returns (c': Cache)
    requires Sound(c) && k in c.bufs && c.bufs[k].writing && c.bufs[k].todo == {}
    ensures Sound(c') && View(c') == View(c) && c'.disk == c.disk && c'.size == c.size
    ensures c'.bufs == c.bufs[k := c.bufs[k].(writing := false)]
  {
    FinishKeeps(c.bufs[k], c.disk[k], c.size);
    ghost var d := BufferKept(c, k, c.bufs[k].(writing := false));
    c' := c.(bufs := c.bufs[k := c.bufs[k].(writing := false)]);
  }
}
