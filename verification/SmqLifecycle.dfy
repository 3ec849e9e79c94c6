/** The life cycle of smq cache entries: free, queued as clean or dirty, or out of the queues
    while background work on them is pending.

    The free list, the two queues and the hash table appear here as the sets of entries they
    hold; each lemma is one transition and says that it keeps the sets consistent.
 */
module SmqLifecycle {
  import opened BackgroundTracker

  /** What an entry records about itself besides its links and level. */
  datatype Entry = Entry(oblock: nat, dirty: bool, inUse: bool, pending: bool)

  ghost function Unallocated(es: seq<Entry>): set<nat> {
    set i | 0 <= i < |es| && !es[i].inUse
  }

  ghost function Allocated(es: seq<Entry>): set<nat> {
    set i | 0 <= i < |es| && es[i].inUse
  }

  /** Entries that belong in the clean or the dirty queue. */
  ghost function Queued(es: seq<Entry>, dirty: bool): set<nat> {
    set i | 0 <= i < |es| && es[i].inUse && !es[i].pending && es[i].dirty == dirty
  }

  ghost function Pending(es: seq<Entry>): set<nat> {
    set i | 0 <= i < |es| && es[i].inUse && es[i].pending
  }

  ghost function Targets(works: set<Work>): set<nat> {
    set w | w in works :: w.cblock
  }

  /** Entries reserved for a promotion that has not finished. */
  ghost function Reserved(works: set<Work>): set<nat> {
    set w | w in works && w.op == Promote :: w.cblock
  }

  datatype Sets = Sets(free: set<nat>, clean: set<nat>, dirty: set<nat>, table: set<nat>, works: set<Work>)

  /** Every entry is in exactly one place: the free list, its queue, or out on pending work;
      and it is in the hash table unless it is free or being promoted. */
  ghost predicate Placed(es: seq<Entry>, s: Sets) {
    && s.free == Unallocated(es)
    && s.clean == Queued(es, false)
    && s.dirty == Queued(es, true)
    && Pending(es) == Targets(s.works)
    && s.table == Allocated(es) - Reserved(s.works)
  }

  /** Work items: one per entry, and demotions and writebacks name the block their entry maps. */
  ghost predicate WorkFits(es: seq<Entry>, works: set<Work>) {
    && (forall w, v :: w in works && v in works && w.cblock == v.cblock ==> w == v)
    && (forall w :: w in works && w.op != Promote ==> w.cblock < |es| && es[w.cblock].oblock == w.oblock)
  }

  /** No origin block is mapped twice, or both mapped and being promoted. */
  ghost predicate Injective(es: seq<Entry>, s: Sets) {
    && (forall i, j :: i in s.table && j in s.table && i < |es| && j < |es| && es[i].oblock == es[j].oblock ==> i == j)
    && (forall w, i :: w in s.works && w.op == Promote && i in s.table && i < |es| ==> es[i].oblock != w.oblock)
  }

  ghost predicate Good(es: seq<Entry>, s: Sets) {
    Placed(es, s) && WorkFits(es, s.works) && Injective(es, s)
  }

  ghost predicate DistinctWork(works: set<Work>) {
    forall w, v :: w in works && v in works && w.oblock == v.oblock ==> w == v
  }

  /** Queueing a demotion or writeback takes the entry out of its queue. */
  lemma StartWork(es: seq<Entry>, s: Sets, i: nat, op: Op)
    requires Good(es, s) && op != Promote && i in Queued(es, op == Writeback)
    ensures var w := Work(op, es[i].oblock, i);
            Good(es[i := es[i].(pending := true)],
                 s.(clean := s.clean - {i}, dirty := s.dirty - {i}, works := s.works + {w}))
  {
    var w := Work(op, es[i].oblock, i);
    var es', s' := es[i := es[i].(pending := true)],
                   s.(clean := s.clean - {i}, dirty := s.dirty - {i}, works := s.works + {w});
    assert i !in Pending(es);
    assert Pending(es') == Pending(es) + {i};
    assert Targets(s'.works) == Targets(s.works) + {i};
    assert Reserved(s'.works) == Reserved(s.works);
    assert Allocated(es') == Allocated(es) && Unallocated(es') == Unallocated(es);
  }

  /** Queueing a promotion reserves a free entry. */
  lemma StartPromotion(es: seq<Entry>, s: Sets, i: nat, oblock: nat)
    requires Good(es, s) && i in s.free
    requires forall j :: j in s.table && j < |es| ==> es[j].oblock != oblock
    ensures var w := Work(Promote, oblock, i);
            Good(es[i := es[i].(dirty := true, inUse := true, pending := true)],
                 s.(free := s.free - {i}, works := s.works + {w}))
  {
    var w := Work(Promote, oblock, i);
    var es', s' := es[i := es[i].(dirty := true, inUse := true, pending := true)],
                   s.(free := s.free - {i}, works := s.works + {w});
    assert i !in Pending(es) && i !in Allocated(es);
    assert Pending(es') == Pending(es) + {i};
    assert Targets(s'.works) == Targets(s.works) + {i};
    assert Reserved(s'.works) == Reserved(s.works) + {i};
    assert Allocated(es') == Allocated(es) + {i} && Unallocated(es') == Unallocated(es) - {i};
    assert Queued(es', true) == Queued(es, true) && Queued(es', false) == Queued(es, false);
  }

  /** The sets with an entry added to the queue its dirty bit names. */
  function Enqueue(s: Sets, i: nat, dirty: bool): Sets {
    if dirty then s.(dirty := s.dirty + {i}) else s.(clean := s.clean + {i})
  }

  lemma DropWork(works: set<Work>, w: Work)
    requires w in works && forall v, u :: v in works && u in works && v.cblock == u.cblock ==> v == u
    ensures Targets(works - {w}) == Targets(works) - {w.cblock}
    ensures Reserved(works - {w}) == Reserved(works) - {w.cblock}
    ensures w.op != Promote ==> w.cblock !in Reserved(works)
  {
    forall c | c in Targets(works) - {w.cblock}
      ensures c in Targets(works - {w})
    {
      var v :| v in works && v.cblock == c;
      assert v in works - {w};
    }
    forall c | c in Reserved(works) - {w.cblock}
      ensures c in Reserved(works - {w})
    {
      var v :| v in works && v.op == Promote && v.cblock == c;
      assert v in works - {w};
    }
  }

  /** A finished promotion maps its block and queues its entry. */
  lemma FinishPromotion(es: seq<Entry>, s: Sets, w: Work)
    requires Good(es, s) && DistinctWork(s.works) && w in s.works && w.op == Promote
    ensures w.cblock < |es|
    ensures var i := w.cblock;
            Good(es[i := es[i].(oblock := w.oblock, pending := false)],
                 Enqueue(s.(table := s.table + {i}, works := s.works - {w}), i, es[i].dirty))
  {
    var i := w.cblock;
    assert i in Targets(s.works) && i in Reserved(s.works);
    var es' := es[i := es[i].(oblock := w.oblock, pending := false)];
    DropWork(s.works, w);
    assert Pending(es') == Pending(es) - {i};
    assert Allocated(es') == Allocated(es) && Unallocated(es') == Unallocated(es);
    assert Queued(es', es[i].dirty) == Queued(es, es[i].dirty) + {i};
    assert Queued(es', !es[i].dirty) == Queued(es, !es[i].dirty);
  }

  /** Demotions and failed promotions give their entry back. */
  lemma ReleaseEntry(es: seq<Entry>, s: Sets, w: Work)
    requires Good(es, s) && w in s.works && w.op != Writeback
    ensures w.cblock < |es|
    ensures var i := w.cblock;
            forall e: Entry :: !e.inUse ==>
              Good(es[i := e], s.(free := s.free + {i}, table := s.table - {i}, works := s.works - {w}))
  {
    var i := w.cblock;
    assert i in Targets(s.works);
    DropWork(s.works, w);
    forall e: Entry | !e.inUse
      ensures Good(es[i := e], s.(free := s.free + {i}, table := s.table - {i}, works := s.works - {w}))
    {
      var es' := es[i := e];
      assert Pending(es') == Pending(es) - {i};
      assert Allocated(es') == Allocated(es) - {i} && Unallocated(es') == Unallocated(es) + {i};
      assert Queued(es', true) == Queued(es, true) && Queued(es', false) == Queued(es, false);
    }
  }

  /** A writeback or a failed demotion returns its entry to the queue its dirty bit names now. */
  lemma ReturnEntry(es: seq<Entry>, s: Sets, w: Work)
    requires Good(es, s) && w in s.works && w.op != Promote
    ensures w.cblock < |es|
    ensures var i := w.cblock;
            Good(es[i := es[i].(pending := false)], Enqueue(s.(works := s.works - {w}), i, es[i].dirty))
  {
    var i := w.cblock;
    assert i in Targets(s.works);
    var es' := es[i := es[i].(pending := false)];
    DropWork(s.works, w);
    assert Pending(es') == Pending(es) - {i};
    assert Allocated(es') == Allocated(es) && Unallocated(es') == Unallocated(es);
    assert Queued(es', es[i].dirty) == Queued(es, es[i].dirty) + {i};
    assert Queued(es', !es[i].dirty) == Queued(es, !es[i].dirty);
  }

  /** Changing the dirty bit moves a queued entry between the queues and leaves a pending one
      where it is. */
  lemma ChangeDirty(es: seq<Entry>, s: Sets, i: nat, dirty: bool)
    requires Good(es, s) && i < |es| && es[i].inUse
    ensures var s' := if es[i].pending then s
                      else Enqueue(s.(clean := s.clean - {i}, dirty := s.dirty - {i}), i, dirty);
            Good(es[i := es[i].(dirty := dirty)], s')
  {
    var es' := es[i := es[i].(dirty := dirty)];
    assert Pending(es') == Pending(es);
    assert Allocated(es') == Allocated(es) && Unallocated(es') == Unallocated(es);
    if es[i].pending {
      assert Queued(es', true) == Queued(es, true) && Queued(es', false) == Queued(es, false);
    } else {
      assert Queued(es', dirty) == Queued(es, dirty) + {i};
      assert Queued(es', !dirty) == Queued(es, !dirty) - {i};
    }
  }

  /** Loading a mapping takes a particular free entry. */
  lemma LoadEntry(es: seq<Entry>, s: Sets, i: nat, oblock: nat, dirty: bool)
    requires Good(es, s) && i in s.free
    requires forall j :: j in s.table && j < |es| ==> es[j].oblock != oblock
    requires forall w :: w in s.works ==> w.oblock != oblock
    ensures Good(es[i := Entry(oblock, dirty, true, false)],
                 Enqueue(s.(free := s.free - {i}, table := s.table + {i}), i, dirty))
  {
    LoadedPlaces(es, s, i, oblock, dirty);
    assert i !in Targets(s.works);
    assert forall w :: w in s.works ==> w.cblock in Targets(s.works);
  }

  lemma LoadedPlaces(es: seq<Entry>, s: Sets, i: nat, oblock: nat, dirty: bool)
    requires Placed(es, s) && i in s.free
    ensures i !in Targets(s.works)
    ensures Placed(es[i := Entry(oblock, dirty, true, false)],
                   Enqueue(s.(free := s.free - {i}, table := s.table + {i}), i, dirty))
  {
    var es' := es[i := Entry(oblock, dirty, true, false)];
    assert i !in Pending(es) && i !in Allocated(es) && i !in Targets(s.works);
    assert forall w :: w in s.works && w.op == Promote ==> w.cblock in Targets(s.works);
    assert i !in Reserved(s.works);
    assert Pending(es') == Pending(es);
    assert Allocated(es') == Allocated(es) + {i} && Unallocated(es') == Unallocated(es) - {i};
    assert Queued(es', dirty) == Queued(es, dirty) + {i};
    assert Queued(es', !dirty) == Queued(es, !dirty);
  }

  /** Invalidating a mapping frees an entry that has no work pending. */
  lemma InvalidateEntry(es: seq<Entry>, s: Sets, i: nat)
    requires Good(es, s) && i < |es| && es[i].inUse && !es[i].pending
    ensures Good(es[i := es[i].(inUse := false)],
                 s.(free := s.free + {i}, clean := s.clean - {i}, dirty := s.dirty - {i}, table := s.table - {i}))
  {
    var es' := es[i := es[i].(inUse := false)];
    assert i !in Pending(es);
    assert forall w :: w in s.works ==> w.cblock in Targets(s.works);
    assert Pending(es') == Pending(es);
    assert Allocated(es') == Allocated(es) - {i} && Unallocated(es') == Unallocated(es) + {i};
    assert Queued(es', true) == Queued(es, true) - {i} && Queued(es', false) == Queued(es, false) - {i};
  }

  /** What a free entry still records is of no consequence. */
  lemma FreeFields(es: seq<Entry>, s: Sets, i: nat, e: Entry)
    requires Good(es, s) && i in s.free && !e.inUse
    ensures Good(es[i := e], s)
  {
    var es' := es[i := e];
    assert i !in Pending(es) && i !in Allocated(es);
    assert forall w :: w in s.works ==> w.cblock in Targets(s.works);
    assert Pending(es') == Pending(es) && Allocated(es') == Allocated(es) && Unallocated(es') == Unallocated(es);
    assert Queued(es', true) == Queued(es, true) && Queued(es', false) == Queued(es, false);
  }
}
