/** A dm-clone device: completions, discards, the steps of a commit and of the handling of its
    failure, in any order the commit lock allows.
 */
module Clone {
  import opened CloneMetadata
  import opened CloneCommit

  /** `dm_clone_changed_this_transaction` */
  predicate Changed(m: Metadata)
    requires |m.dmap| == 2
  {
    m.dmap[0].changed || m.dmap[1].changed
  }

  /** The dirty maps have changed places. */
  ghost predicate Swapped(m: Metadata, m': Metadata) {
    m.current < 2 && m' == m.(committing := m.current, current := 1 - m.current, phase := PreCommitted)
  }

  class CloneDevice {
    var md: Metadata
    ghost var dev: Device

    /** Whenever the machine stops, the regions the disk has as hydrated are durable, unless
        they were discarded. */
    ghost predicate Valid()
      reads this
    {
      Sound(md, dev) && Marked(md.onDisk) <= dev.durable + dev.discarded
    }

    constructor (stored: seq<bool>)
      ensures Valid() && md.onDisk == stored && md.phase == Idle &&
              dev == Device(Marked(stored), {}, Marked(stored), {})
    {
      md, dev := Open(stored), Device(Marked(stored), {}, Marked(stored), {});
      OpenIsSound(stored, Device(Marked(stored), {}, Marked(stored), {}));
    }

    /** The copy or overwrite of a region has completed, and `hydration_update_metadata` notes it. */
    method CompleteHydration(r: nat) returns (res: Result)
      requires Valid()
      modifies this
      ensures Valid() && dev == old(dev).(written := old(dev.written) + {r})
      ensures res == if r >= old(md.n) then ERange else if old(md.readOnly) then EPerm else Ok
      ensures if res == Ok then Noted(old(md), md, {r}) else md == old(md)
    {
      dev := dev.(written := dev.written + {r});
      md, res := SetRegionHydrated(md, dev, r);
    }

    /** A discard of regions passed down: those not hydrated count as hydrated from then on. */
    method Discard(start: nat, count: nat) returns (res: Result)
      requires Valid()
      modifies this
      ensures Valid()
      ensures res == if start >= old(md.n) || start + count > old(md.n) then ERange
                     else if old(md.readOnly) then EPerm else Ok
      ensures
        var added := Span(start, start + count) - Marked(old(md.regionMap));
        if res == Ok then Noted(old(md), md, added) && dev == old(dev).(discarded := old(dev.discarded) + added)
        else md == old(md) && dev == old(dev)
    {
      ghost var d;
      md, d, res := CondSetRange(md, dev, start, count);
      dev := d;
    }

    /** One step of `commit_metadata`, or of `__metadata_operation_failed`. */
    method Step(fails: bool, failing: set<nat>, reached: bool)
      requires Valid()
      modifies this
      ensures Valid()
      ensures old(md.phase) == Idle ==>
                dev == old(dev) && if old(Changed(md)) then Swapped(old(md), md) else md == old(md)
      ensures old(md.phase) == PreCommitted ==>
                md == old(md).(phase := Flushing) && dev == old(dev).(flushing := old(dev.written))
      ensures old(md.phase) == Flushing && fails ==> md == old(md).(phase := Failed) && dev == old(dev)
      ensures old(md.phase) == Flushing && !fails ==>
                md == old(md).(phase := Flushed) && dev == old(dev).(durable := old(dev.durable + dev.flushing))
      ensures old(md.phase) == Flushed ==>
                dev == old(dev) && if !fails && old(Dirty(md)) !! failing then Committed(old(md), md)
                                   else NotCommitted(old(md), md, failing, reached)
      ensures old(md.phase) == Failed ==>
                && dev == old(dev)
                && md == old(md).(bits := md.bits, failIo := old(md.failIo) || fails, phase := Aborted)
                && (!fails ==> md.bits == md.onDisk)
      ensures old(md.phase) == Aborted ==> dev == old(dev) && md == old(md).(readOnly := true, phase := Frozen)
      ensures old(md.phase) == Frozen ==>
                && dev == old(dev) && md == old(md).(regionMap := md.regionMap, phase := Reloaded)
                && md.regionMap == if md.failIo then old(md.regionMap) else md.onDisk
      ensures old(md.phase) == Reloaded ==> md == old(md) && dev == old(dev)
    {
      match md.phase
      case Idle =>
        if Changed(md) {
          var res;
          md, res := PreCommit(md, dev);
        }
      case PreCommitted =>
        ghost var d;
        md, d := IssueFlush(md, dev);
        dev := d;
      case Flushing =>
        ghost var d;
        md, d := FlushDone(md, dev, fails);
        dev := d;
      case Flushed =>
        var res;
        md, res := Commit(md, dev, failing, fails, reached);
      case Failed => md := Abort(md, dev, fails);
      case Aborted => md := SetReadOnly(md, dev);
      case Frozen => md := Reload(md, dev);
      case Reloaded =>
    }

    /** `commit_metadata` with nothing in between: all of the core map is on disk afterwards; or, when
        a step fails, the core map is again the one on disk and no region is marked any more. */
    method CommitMetadata(flushFails: bool, failing: set<nat>, commitFails: bool, reached: bool, abortFails: bool)
      returns (ok: bool)
      requires Valid() && md.phase == Idle
      modifies this
      ensures Valid()
      ensures ok <==> !old(Changed(md)) || (!flushFails && !commitFails &&
                                            old(Marked(md.dmap[md.current].regions)) !! failing)
      ensures ok ==> md.phase == Idle && md.onDisk == md.regionMap == old(md.regionMap)
      ensures ok && old(Changed(md)) ==> dev == old(dev).(flushing := old(dev.written), durable := old(dev.written))
      ensures !ok ==> md.phase == Reloaded && md.readOnly && md.failIo == abortFails
      ensures !ok && !abortFails ==> md.regionMap == md.onDisk
      ensures !ok ==> md.onDisk == old(md.onDisk) || (!flushFails && reached && md.onDisk == old(md.regionMap))
    {
      if !Changed(md) {
        NothingToCommit(md, dev);
        return true;
      }
      Step(false, {}, false);
      Step(false, {}, false);
      Step(flushFails, {}, false);
      if !flushFails {
        AllDirty(md, dev);
        Step(commitFails, failing, reached);
        SameBits(md.onDisk, old(md.regionMap));
        if md.phase == Idle {
          return true;
        }
      }
      Step(abortFails, {}, false);
      Step(false, {}, false);
      Step(false, {}, false);
      ok := false;
    }
  }

  /** What the core has beyond the disk is in the dirty map swapped away, while the one in use is empty. */
  lemma AllDirty(m: Metadata, d: Device)
    requires Sound(m, d) && m.phase == Flushed && !m.dmap[m.current].changed
    ensures Marked(m.regionMap) == Marked(m.onDisk) + Dirty(m)
  {
    assert Marked(m.dmap[m.current].regions) == {};
    assert Waiting(m) == Dirty(m);
  }

  lemma SameBits(a: seq<bool>, b: seq<bool>)
    requires |a| == |b|
    ensures Marked(a) == Marked(b) ==> a == b
  {
    if Marked(a) == Marked(b) {
      forall r | 0 <= r < |a|
        ensures a[r] == b[r]
      {
        assert a[r] <==> r in Marked(a);
        assert b[r] <==> r in Marked(b);
      }
    }
  }
}
