/** The two-phase commit of dm-clone, in steps between which region completions and discards
    may fall: swap the dirty maps, flush the destination, write the old dirty map and commit;
    and, when a step fails, abort, go read-only and reload.
 */
module CloneCommit {
  import opened CloneMetadata

  /** Where `commit_metadata` stands, under its lock. */
  datatype Phase = Idle | PreCommitted | Flushing | Flushed | Failed | Aborted | Frozen | Reloaded

  datatype Result = Ok | ERange | EPerm | EInval | EIo

  const NONE: nat := 2

  datatype Metadata = Metadata(n: nat,                 // nr_regions
                               regionMap: seq<bool>, dmap: seq<DirtyMap>, current: nat, committing: nat,
                               readOnly: bool, failIo: bool, hydrationDone: bool,
                               bits: seq<bool>,        // the bitset of the open transaction
                               onDisk: seq<bool>,      // the bitset last committed
                               phase: Phase)

  /** The destination device: regions a copy or overwrite has written, those written before the
      flush under way, those a flush has followed, and regions marked because they were discarded. */
  datatype Device = Device(written: set<nat>, flushing: set<nat>, durable: set<nat>, discarded: set<nat>)

  ghost predicate Shaped(m: Metadata) {
    && |m.regionMap| == |m.bits| == |m.onDisk| == m.n && |m.dmap| == 2 && m.current < 2
    && MapOk(m.dmap[0], m.n) && MapOk(m.dmap[1], m.n)
  }

  predicate Healthy(m: Metadata) {
    m.phase == Idle || m.phase == PreCommitted || m.phase == Flushing || m.phase == Flushed
  }

  /** Regions waiting in the dirty maps. */
  ghost function Waiting(m: Metadata): set<nat>
    requires Shaped(m)
  {
    Marked(m.dmap[0].regions) + Marked(m.dmap[1].regions)
  }

  /** The in-core map is the working bitset together with both dirty maps; outside a commit the
      map not in use is empty; the working bitset differs from the one on disk only inside one. */
  ghost predicate InStep(m: Metadata)
    requires Shaped(m)
  {
    Healthy(m) ==>
      && !m.readOnly && !m.failIo
      && Marked(m.regionMap) == Marked(m.bits) + Waiting(m)
      && m.bits == m.onDisk
      && (if m.phase == Idle then m.committing == NONE && !m.dmap[1 - m.current].changed
          else m.committing == 1 - m.current)
  }

  /** What is marked as hydrated has been written or discarded, and what has reached the bitset
      has been made durable first. */
  ghost predicate Safe(m: Metadata, d: Device)
    requires Shaped(m)
  {
    && d.durable <= d.written && d.flushing <= d.written
    && Marked(m.onDisk) <= d.durable + d.discarded
    && Marked(m.bits) <= d.durable + d.discarded
    && Marked(m.regionMap) <= d.written + d.discarded
    && Waiting(m) <= d.written + d.discarded
    && (m.phase == Flushing && m.committing < 2 ==> Marked(m.dmap[m.committing].regions) <= d.flushing + d.discarded)
    && (m.phase == Flushed && m.committing < 2 ==> Marked(m.dmap[m.committing].regions) <= d.durable + d.discarded)
    && (m.hydrationDone ==> Marked(Ones(m.n)) <= d.written + d.discarded)
  }

  /** After a failure the in-core map ends up as what is on disk, and stays so. */
  ghost predicate Recovering(m: Metadata) {
    && (m.phase == Frozen || m.phase == Reloaded ==> m.readOnly)
    && ((m.phase == Aborted || m.phase == Frozen || m.phase == Reloaded) && !m.failIo ==> m.bits == m.onDisk)
    && (m.phase == Reloaded && !m.failIo ==> m.regionMap == m.onDisk)
  }

  ghost predicate Sound(m: Metadata, d: Device) {
    Shaped(m) && InStep(m) && Safe(m, d) && Recovering(m)
  }

  /** Metadata as opened from disk. */
  function Open(stored: seq<bool>): Metadata {
    var empty := DirtyMap(Zeroes(Words(|stored|)), Zeroes(|stored|), false);
    Metadata(|stored|, stored, [empty, empty], 0, NONE, false, false, stored == Ones(|stored|), stored, stored, Idle)
  }

  lemma OpenIsSound(stored: seq<bool>, d: Device)
    requires Marked(stored) <= d.durable + d.discarded && d.durable <= d.written && d.flushing <= d.written
    ensures Sound(Open(stored), d)
  {
    assert forall n :: Marked(Zeroes(n)) == {};
  }

  /** A region is marked in core. */
  function MarkHydrated(m: Metadata, r: nat): Metadata
    requires r < |m.regionMap| && m.current < |m.dmap|
    requires r < |m.dmap[m.current].regions| && r / BITS < |m.dmap[m.current].words|
  {
    m.(regionMap := m.regionMap[r := true], dmap := m.dmap[m.current := MarkRegion(m.dmap[m.current], r)])
  }

  lemma MarkHydratedKeeps(m: Metadata, d: Device, r: nat)
    requires Sound(m, d) && r < m.n && r in d.written + d.discarded && !m.readOnly
    ensures r / BITS < |m.dmap[m.current].words| && Sound(MarkHydrated(m, r), d)
    ensures Marked(MarkHydrated(m, r).regionMap) == Marked(m.regionMap) + {r}
    ensures Marked(MarkHydrated(m, r).dmap[m.current].regions) == Marked(m.dmap[m.current].regions) + {r}
  {
    MarkKeeps(m.dmap[m.current], m.n, r);
    MarkedAdd(m.regionMap, r);
    MarkedAdd(m.dmap[m.current].regions, r);
    var m' := MarkHydrated(m, r);
    assert Waiting(m') == Waiting(m) + {r};
    assert m.committing < 2 && (m.phase == Flushing || m.phase == Flushed) ==>
           m'.dmap[m.committing] == m.dmap[m.committing];
  }

  /** Regions are marked in core and noted in the dirty map in use; nothing else changes. */
  ghost predicate Noted(m: Metadata, m': Metadata, regions: set<nat>)
    requires m.current < |m.dmap| == |m'.dmap|
  {
    && m' == m.(regionMap := m'.regionMap, dmap := m.dmap[m.current := m'.dmap[m.current]])
    && Marked(m'.regionMap) == Marked(m.regionMap) + regions
    && Marked(m'.dmap[m.current].regions) == Marked(m.dmap[m.current].regions) + regions
    && (m'.dmap[m.current].changed <==> m.dmap[m.current].changed || regions != {})
  }

  /** `dm_clone_set_region_hydrated`, after the region's data has been written. */
  method SetRegionHydrated(m: Metadata, ghost d: Device, r: nat) returns (m': Metadata, res: Result)
    requires Sound(m, d) && r in d.written
    ensures Sound(m', d)
    ensures res == if r >= m.n then ERange else if m.readOnly then EPerm else Ok
    ensures if res == Ok then Noted(m, m', {r}) else m' == m
  {
    if r >= m.n {
      return m, ERange;
    }
    if m.readOnly {
      return m, EPerm;
    }
    MarkHydratedKeeps(m, d, r);
    m', res := MarkHydrated(m, r), Ok;
  }

  ghost function Span(lo: nat, hi: nat): set<nat> {
    Marked(Ones(hi)) - Marked(Ones(lo))
  }

  lemma SpanGrows(lo: nat, hi: nat)
    requires lo <= hi
    ensures Span(lo, hi + 1) == Span(lo, hi) + {hi} && hi !in Span(lo, hi)
  {
    assert forall r: nat :: r in Marked(Ones(hi + 1)) <==> r in Marked(Ones(hi)) || r == hi;
  }

  /** One more region of a span is new unless it is marked already. */
  lemma SpanStep(marked: set<nat>, lo: nat, hi: nat)
    requires lo <= hi
    ensures hi in marked + (Span(lo, hi) - marked) <==> hi in marked
    ensures Span(lo, hi + 1) - marked == if hi in marked then Span(lo, hi) - marked else Span(lo, hi) - marked + {hi}
  {
    SpanGrows(lo, hi);
  }

  lemma NotedMore(m: Metadata, m': Metadata, regions: set<nat>, r: nat)
    requires Shaped(m) && Shaped(m') && Noted(m, m', regions) && r < m.n && r / BITS < |m'.dmap[m.current].words|
    ensures Noted(m, MarkHydrated(m', r), regions + {r})
  {
    MarkedAdd(m'.regionMap, r);
    MarkedAdd(m'.dmap[m.current].regions, r);
  }

  lemma DiscardNoted(m: Metadata, d: Device, r: nat) returns (d': Device)
    requires Sound(m, d)
    ensures d' == d.(discarded := d.discarded + {r}) && Sound(m, d')
  {
    d' := d.(discarded := d.discarded + {r});
  }

  /** The regions of a span not marked before are marked, and noted as discarded. */
  ghost predicate RangeSet(m: Metadata, d: Device, m': Metadata, d': Device, lo: nat, hi: nat)
    requires Shaped(m)
  {
    && Sound(m', d') && Noted(m, m', Span(lo, hi) - Marked(m.regionMap))
    && d' == d.(discarded := d.discarded + (Span(lo, hi) - Marked(m.regionMap)))
  }

  lemma NothingSet(m: Metadata, d: Device, lo: nat)
    requires Sound(m, d)
    ensures RangeSet(m, d, m, d, lo, lo)
  {
    assert Span(lo, lo) == {};
  }

  lemma RangeGrows(m: Metadata, d: Device, m': Metadata, d': Device, lo: nat, r: nat)
    requires Shaped(m) && !m.readOnly && RangeSet(m, d, m', d', lo, r) && lo <= r < m.n
    ensures |m'.dmap| == 2 && m'.current < 2 && |m'.regionMap| == |m'.dmap[m'.current].regions| == m.n
    ensures r / BITS < |m'.dmap[m'.current].words|
    ensures if m'.regionMap[r] then RangeSet(m, d, m', d', lo, r + 1)
            else RangeSet(m, d, MarkHydrated(m', r), d'.(discarded := d'.discarded + {r}), lo, r + 1)
  {
    SpanStep(Marked(m.regionMap), lo, r);
    WordInRange(r, m.n);
    assert m'.regionMap[r] <==> r in Marked(m'.regionMap);
    if !m'.regionMap[r] {
      var d'' := DiscardNoted(m', d', r);
      MarkHydratedKeeps(m', d'', r);
      NotedMore(m, m', Span(lo, r) - Marked(m.regionMap), r);
    }
  }

  /** One turn of the loop of `dm_clone_cond_set_range`. */
  method CondSet(ghost m: Metadata, ghost d: Device, now: Metadata, ghost dev: Device, ghost lo: nat, r: nat)
    returns (m': Metadata, ghost d': Device)
    requires Shaped(m) && !m.readOnly && RangeSet(m, d, now, dev, lo, r) && lo <= r < m.n
    ensures RangeSet(m, d, m', d', lo, r + 1)
  {
    RangeGrows(m, d, now, dev, lo, r);
    m', d' := now, dev;
    if !now.regionMap[r] {
      m', d' := MarkHydrated(now, r), dev.(discarded := dev.discarded + {r});
    }
  }

  /** `dm_clone_cond_set_range` for a discard: marks the regions not marked yet. */
  method CondSetRange(m: Metadata, ghost d: Device, start: nat, count: nat)
    returns (m': Metadata, ghost d': Device, res: Result)
    requires Sound(m, d)
    ensures res == if start >= m.n || start + count > m.n then ERange else if m.readOnly then EPerm else Ok
    ensures if res == Ok then RangeSet(m, d, m', d', start, start + count) else m' == m && d' == d
  {
    m', d' := m, d;
    if start >= m.n || start + count > m.n {
      return m', d', ERange;
    }
    if m.readOnly {
      return m', d', EPerm;
    }
    var r := start;
    NothingSet(m, d, start);
    while r < start + count
      invariant start <= r <= start + count
      invariant RangeSet(m, d, m', d', start, r)
    {
      m', d' := CondSet(m, d, m', d', start, r);
      r := r + 1;
    }
    res := Ok;
  }

  /** `dm_clone_metadata_pre_commit`: swaps the dirty maps.  In a healthy state it succeeds. */
  method PreCommit(m: Metadata, ghost d: Device) returns (m': Metadata, res: Result)
    requires Sound(m, d) && m.phase == Idle
    ensures Sound(m', d) && res == Ok
    ensures m' == m.(committing := m.current, current := 1 - m.current, phase := PreCommitted)
  {
    if m.failIo || m.readOnly {
      return m, EPerm;
    }
    var next := if m.current == 0 then 1 else 0;
    if m.dmap[next].changed || m.committing != NONE {
      return m, EInval;
    }
    m' := m.(current := next, committing := m.current, phase := PreCommitted);
    res := Ok;
  }

  /** The flush of the destination device is issued: it covers what has been written so far. */
  method IssueFlush(m: Metadata, ghost d: Device) returns (m': Metadata, ghost d': Device)
    requires Sound(m, d) && m.phase == PreCommitted
    ensures Sound(m', d') && m' == m.(phase := Flushing) && d' == d.(flushing := d.written)
  {
    m', d' := m.(phase := Flushing), d.(flushing := d.written);
  }

  /** The flush has finished: what had been written when it was issued is durable. */
  method FlushDone(m: Metadata, ghost d: Device, fails: bool) returns (m': Metadata, ghost d': Device)
    requires Sound(m, d) && m.phase == Flushing
    ensures Sound(m', d') && m' == m.(phase := if fails then Failed else Flushed)
    ensures d' == if fails then d else d.(durable := d.durable + d.flushing)
  {
    m' := m.(phase := if fails then Failed else Flushed);
    d' := if fails then d else d.(durable := d.durable + d.flushing);
  }

  /** Some bits of the map swapped away have reached the bitset, the others wait as before. */
  lemma BitsMoved(m: Metadata, d: Device, bits: seq<bool>, moved: DirtyMap)
    requires Sound(m, d) && m.phase == Flushed && MapOk(moved, m.n)
    requires Moved(m.bits, m.dmap[m.committing].regions, bits, moved.regions)
    ensures |bits| == m.n && Marked(bits) <= d.durable + d.discarded
    ensures Marked(bits) + Marked(moved.regions) == Marked(m.onDisk) + Marked(m.dmap[m.committing].regions)
    ensures Marked(m.regionMap) == Marked(bits) + (Marked(m.dmap[m.current].regions) + Marked(moved.regions))
    ensures Marked(moved.regions) + Marked(m.dmap[m.current].regions) <= d.written + d.discarded
  {
    MarkedMoved(m.bits, m.dmap[m.committing].regions, bits, moved.regions);
    assert Waiting(m) == Marked(m.dmap[m.current].regions) + Marked(m.dmap[m.committing].regions);
  }

  lemma CommitFailed(m: Metadata, d: Device, bits: seq<bool>, moved: DirtyMap, onDisk: seq<bool>)
    requires Sound(m, d) && m.phase == Flushed && MapOk(moved, m.n) && (onDisk == m.onDisk || onDisk == bits)
    requires Moved(m.bits, m.dmap[m.committing].regions, bits, moved.regions)
    ensures Sound(m.(bits := bits, dmap := m.dmap[m.committing := moved], onDisk := onDisk, phase := Failed), d)
  {
    BitsMoved(m, d, bits, moved);
    var m' := m.(bits := bits, dmap := m.dmap[m.committing := moved], onDisk := onDisk, phase := Failed);
    assert Waiting(m') == Marked(m.dmap[m.current].regions) + Marked(moved.regions);
  }

  lemma CommitDone(m: Metadata, d: Device, bits: seq<bool>, moved: DirtyMap, all: bool)
    requires Sound(m, d) && m.phase == Flushed && MapOk(moved, m.n)
    requires forall r :: 0 <= r < m.n ==> !moved.regions[r]
    requires Moved(m.bits, m.dmap[m.committing].regions, bits, moved.regions)
    requires all == (m.hydrationDone || m.regionMap == Ones(m.n))
    ensures Sound(m.(bits := bits, dmap := m.dmap[m.committing := moved.(changed := false)], onDisk := bits,
                     committing := NONE, phase := Idle, hydrationDone := all), d)
  {
    BitsMoved(m, d, bits, moved);
    assert Marked(moved.regions) == {} && MapOk(moved.(changed := false), m.n);
    var m' := m.(bits := bits, dmap := m.dmap[m.committing := moved.(changed := false)], onDisk := bits,
                 committing := NONE, phase := Idle, hydrationDone := all);
    assert Waiting(m') == Marked(m.dmap[m.current].regions);
  }

  /** The regions in the dirty map swapped away. */
  ghost function Dirty(m: Metadata): set<nat>
    requires m.committing < |m.dmap|
  {
    Marked(m.dmap[m.committing].regions)
  }

  /** The disk has gained the regions of the dirty map swapped away, which is empty; the end of
      hydration is noted when the core has all regions. */
  ghost predicate Committed(m: Metadata, m': Metadata)
    requires m.committing < |m.dmap| == |m'.dmap|
  {
    && m' == m.(bits := m'.bits, onDisk := m'.onDisk, dmap := m.dmap[m.committing := m'.dmap[m.committing]],
                committing := NONE, phase := Idle, hydrationDone := m.hydrationDone || m.regionMap == Ones(m.n))
    && m'.bits == m'.onDisk && Marked(m'.onDisk) == Marked(m.onDisk) + Dirty(m)
    && Marked(m'.dmap[m.committing].regions) == {} && !m'.dmap[m.committing].changed
  }

  /** Dirty regions are in the open transaction or still in the dirty map; the disk has what it
      had, or all of them where the commit reached it. */
  ghost predicate NotCommitted(m: Metadata, m': Metadata, failing: set<nat>, reached: bool)
    requires m.committing < |m.dmap| == |m'.dmap|
  {
    && m' == m.(bits := m'.bits, onDisk := m'.onDisk, dmap := m.dmap[m.committing := m'.dmap[m.committing]],
                phase := Failed)
    && Marked(m'.bits) + Marked(m'.dmap[m.committing].regions) == Marked(m.onDisk) + Dirty(m)
    && Dirty(m) * failing <= Marked(m'.dmap[m.committing].regions)
    && (if reached && Dirty(m) !! failing then Marked(m'.onDisk) == Marked(m.onDisk) + Dirty(m)
        else m'.onDisk == m.onDisk)
  }

  /** `dm_clone_metadata_commit`: writes out the dirty map swapped away and commits.  Setting a
      bit may fail, and so may the commit, which may then have reached the disk or not. */
  method Commit(m: Metadata, ghost d: Device, failing: set<nat>, commitFails: bool, reached: bool)
    returns (m': Metadata, res: Result)
    requires Sound(m, d) && m.phase == Flushed
    ensures Sound(m', d) && m'.phase == (if res == Ok then Idle else Failed)
    ensures res == Ok <==> !commitFails && Dirty(m) !! failing
    ensures res == Ok ==> Committed(m, m')
    ensures res != Ok ==> NotCommitted(m, m', failing, reached)
  {
    var c := m.committing;
    var ok, bits, moved := FlushWords(m.bits, m.dmap[c], failing);
    BitsMoved(m, d, bits, moved);
    assert ok ==> Marked(moved.regions) == {};
    if !ok || commitFails {
      CommitFailed(m, d, bits, moved, if ok && reached then bits else m.onDisk);
      m' := m.(bits := bits, dmap := m.dmap[c := moved], onDisk := if ok && reached then bits else m.onDisk,
               phase := Failed);
      return m', EIo;
    }
    var all := m.hydrationDone || m.regionMap == Ones(m.n);
    CommitDone(m, d, bits, moved, all);
    m' := m.(bits := bits, dmap := m.dmap[c := moved.(changed := false)], onDisk := bits, committing := NONE,
             phase := Idle, hydrationDone := all);
    res := Ok;
  }

  /** With no change noted in either map, the disk says what the core says. */
  lemma NothingToCommit(m: Metadata, d: Device)
    requires Sound(m, d) && m.phase == Idle && !m.dmap[0].changed && !m.dmap[1].changed
    ensures m.onDisk == m.regionMap
  {
    assert Waiting(m) == {};
    forall r | 0 <= r < m.n
      ensures m.onDisk[r] == m.regionMap[r]
    {
      assert m.onDisk[r] <==> r in Marked(m.onDisk);
      assert m.regionMap[r] <==> r in Marked(m.regionMap);
    }
  }

  /** `dm_clone_metadata_abort`: the open transaction is thrown away. */
  method Abort(m: Metadata, ghost d: Device, fails: bool) returns (m': Metadata)
    requires Sound(m, d) && m.phase == Failed
    ensures Sound(m', d) && (!fails ==> m'.bits == m'.onDisk)
    ensures m' == m.(bits := m'.bits, failIo := m.failIo || fails, phase := Aborted)
  {
    m' := if fails then m.(failIo := true, phase := Aborted) else m.(bits := m.onDisk, phase := Aborted);
  }

  /** `dm_clone_metadata_set_read_only` */
  method SetReadOnly(m: Metadata, ghost d: Device) returns (m': Metadata)
    requires Sound(m, d) && m.phase == Aborted
    ensures Sound(m', d) && m' == m.(readOnly := true, phase := Frozen)
  {
    m' := m.(readOnly := true, phase := Frozen);
  }

  /** `dm_clone_reload_in_core_bitset` */
  method Reload(m: Metadata, ghost d: Device) returns (m': Metadata)
    requires Sound(m, d) && m.phase == Frozen
    ensures Sound(m', d) && m' == m.(regionMap := if m.failIo then m.regionMap else m.onDisk, phase := Reloaded)
  {
    m' := if m.failIo then m.(phase := Reloaded) else m.(regionMap := m.bits, phase := Reloaded);
  }

  /** `dm_clone_is_region_hydrated`: only regions with data, or discarded ones, are reported; unless
      hydration is over, those of the bitset and the dirty maps, and after a failure those on disk. */
  method IsRegionHydrated(m: Metadata, ghost d: Device, r: nat) returns (b: bool)
    requires Sound(m, d) && r < m.n
    ensures b ==> r in d.written + d.discarded
    ensures m.hydrationDone ==> b
    ensures !m.hydrationDone && Healthy(m) ==> (b <==> r in Marked(m.bits) + Waiting(m))
    ensures !m.hydrationDone && m.phase == Reloaded && !m.failIo ==> (b <==> r in Marked(m.onDisk))
  {
    b := m.hydrationDone || m.regionMap[r];
    assert m.regionMap[r] <==> r in Marked(m.regionMap);
    assert r in Marked(Ones(m.n));
  }

  /** Whenever the machine stops, a region the disk has as hydrated is durable, unless it was
      discarded. */
  lemma CrashSafe(m: Metadata, d: Device, r: nat)
    requires Sound(m, d) && r < m.n && m.onDisk[r] && r !in d.discarded
    ensures r in d.durable
  {
    assert r in Marked(m.onDisk);
  }
}
