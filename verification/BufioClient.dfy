/** A dm-bufio client against a plain array of blocks: `seen` is what that array would hold.
    Whatever the calls and however the device's events fall between them, a byte read from a
    buffer is the byte of the plain array.
 */
module BufioClient {
  import opened BufioBuffer
  import opened BufioCache
  import Bufio

  class Client {
    var cache: Cache
    ghost var seen: seq<Block>

    ghost predicate Valid()
      reads this
    {
      Sound(cache) && 0 < cache.size && View(cache) == seen
    }

    /** Blocks the caller may touch: it holds their buffer and the buffer has been read. */
    ghost predicate Holds(k: nat)
      reads this
    {
      k in cache.bufs && cache.bufs[k].hold > 0 && !cache.bufs[k].reading
    }

    constructor (size: nat, disk: seq<Block>)
      requires 0 < size && size % SECTOR == 0 && forall k :: 0 <= k < |disk| ==> |disk[k]| == size
      ensures Valid() && seen == disk && cache.size == size
    {
      cache := Cache(size, disk, map[], [], 0, [], 0);
      seen := disk;
    }

    /** A byte of a buffer the caller holds. */
    method Load(k: nat, i: nat) returns (x: int)
      requires Valid() && Holds(k) && i < cache.size
      ensures k < |seen| && i < |seen[k]| && x == seen[k][i]
    {
      ViewChange(cache.disk, cache.bufs, k, cache.bufs[k], cache.disk[k]);
      x := cache.bufs[k].data[i];
    }

    method Store(k: nat, i: nat, x: int)
      requires Valid() && Holds(k) && i < cache.size
      modifies this
      ensures Valid() && Holds(k) && cache.size == old(cache.size)
      ensures k < |old(seen)| && i < |old(seen)[k]| && seen == old(seen)[k := old(seen)[k][i := x]]
    {
      cache := Bufio.StoreByte(cache, k, i, x);
      seen := seen[k := seen[k][i := x]];
    }

    /** `dm_bufio_new`, `dm_bufio_read`, `dm_bufio_get` and `dm_bufio_prefetch` up to the wait
        for the read: only a fresh buffer of a block that had none shows other data. */
    method NewRead(k: nat, nf: Bufio.NewFlag, memory: Bufio.Memory, noMemory: bool) returns (r: Bufio.Got)
      requires Valid() && k < |cache.disk| && |memory.data| == cache.size
      modifies this
      ensures Valid() && cache.size == old(cache.size)
      ensures k < |old(seen)|
      ensures seen == if nf == Bufio.Fresh && r.Buf? && k !in old(cache.bufs) then old(seen)[k := memory.data]
                      else old(seen)
      ensures k in old(cache.bufs) ==>
                (r == Bufio.Nothing <==> nf == Bufio.Prefetch || (nf == Bufio.Get && old(cache.bufs)[k].reading))
      ensures k !in old(cache.bufs) ==>
                (r == Bufio.Nothing <==>
                   nf == Bufio.Get || (noMemory && (nf == Bufio.Prefetch || forall j :: j in old(cache.bufs) ==>
                                                                              old(cache.bufs)[j].hold > 0)))
      ensures r == Bufio.Nothing ==> cache == old(cache)
      ensures r.Buf? ==> k in cache.bufs && cache.bufs[k].hold > 0
      ensures r.Buf? ==> (r.needSubmit <==> k !in old(cache.bufs) && nf != Bufio.Fresh)
    {
      ghost var unseen := nf == Bufio.Fresh && k !in cache.bufs;
      ghost var v, n;
      cache, r, v, n := Bufio.BufioNew(cache, k, nf, memory, noMemory);
      if unseen && r.Buf? {
        seen := seen[k := memory.data];
      }
    }

    method MarkDirty(k: nat, start: nat, end: nat)
      requires Valid() && Holds(k) && start < end <= cache.size
      modifies `cache
      ensures Valid() && cache.bufs == old(cache.bufs)[k := Mark(old(cache.bufs)[k], start, end)] && k in cache.dirty
    {
      cache := Bufio.MarkDirty(cache, k, start, end);
    }

    /** The last holder releases its buffer when it has marked what it changed. */
    method Release(k: nat)
      requires Valid() && k in cache.bufs && cache.bufs[k].hold > 0 &&
               (cache.bufs[k].hold == 1 ==> cache.bufs[k].unmarked == {})
      modifies `cache
      ensures Valid()
      ensures cache.bufs == old(cache.bufs)[k := old(cache.bufs)[k].(hold := old(cache.bufs)[k].hold - 1)]
    {
      cache := Bufio.Release(cache, k);
    }

    /** A sole holder copies its block; with other holders only a part of it is copied. */
    method ReleaseMove(k: nat, to: nat) returns (moved: bool)
      requires Valid() && Holds(k) && (cache.bufs[k].hold == 1 ==> cache.bufs[k].unmarked == {}) && to < |cache.disk|
      modifies this
      ensures Valid() && k < |old(seen)| && to < |old(seen)| && |old(seen)[to]| == |old(seen)[k]|
      ensures moved <==> to !in old(cache.bufs) || old(cache.bufs)[to].hold == 0
      ensures !moved ==> seen == old(seen) && cache == old(cache)
      ensures moved && old(cache.bufs[k]).hold == 1 ==> seen == old(seen)[to := old(seen)[k]]
      ensures moved && old(cache.bufs[k]).hold > 1 ==>
                seen == old(seen)[to := Merge(old(seen)[to], old(seen)[k],
                                              Bufio.MoveRange(old(cache.bufs[k]), old(cache).size))]
    {
      BlocksAreWhole(cache);
      cache, moved := Bufio.ReleaseMove(cache, k, to);
      seen := View(cache);
    }

    method Forget(k: nat)
      requires Valid()
      modifies `cache
      ensures Valid()
      ensures cache.bufs == if Bufio.Idle(old(cache), k) then old(cache.bufs) - {k} else old(cache.bufs)
    {
      cache := Bufio.Forget(cache, k);
    }

    /** Writes back everything; what the caller sees is then on the disk. */
    method WriteDirtyBuffers()
      requires Valid()
      modifies `cache
      ensures Valid() && cache.dirty == [] && cache.bufs.Keys == old(cache.bufs.Keys)
      ensures (forall k :: k in old(cache.bufs) ==> old(cache.bufs)[k].unmarked == {}) ==> cache.disk == seen
    {
      cache := Bufio.WriteDirtyBuffers(cache);
    }

    /** The events of the device. */
    method Device(k: nat, i: nat)
      requires Valid()
      modifies `cache
      ensures Valid()
      ensures k !in old(cache.bufs) ==> cache == old(cache)
      ensures k in old(cache.bufs) ==> k in cache.bufs && cache.bufs == old(cache.bufs)[k := cache.bufs[k]]
      ensures k in old(cache.bufs) ==>
                var b := old(cache.bufs)[k];
                if b.reading then !cache.bufs[k].reading
                else if b.writing && i < old(cache.size) then cache.bufs[k] == b.(todo := b.todo - {i})
                else if b.writing && b.todo == {} then cache.bufs[k] == b.(writing := false)
                else cache == old(cache)
    {
      if k in cache.bufs {
        if cache.bufs[k].reading {
          cache := Bufio.ReadEnd(cache, k);
        } else if cache.bufs[k].writing && i < cache.size {
          cache := Bufio.Transfer(cache, k, i);
        } else if cache.bufs[k].writing && cache.bufs[k].todo == {} {
          cache := Bufio.WriteEnd(cache, k);
        }
      }
    }
  }
}
