/** The smq cache policy: one method per operation, each keeping the invariant of SmqState and
    saying what it does to the mapping and to the background work.

    The lists are index links in one array and the hash table is its chains; the sequences and the
    set they stand for are followed as ghosts.  The hotspot queue, which only decides when to promote,
    is left to the caller, as are the hit bits and the periods that trigger a tick.
 */
module SmqPolicy {
  import opened Sequences
  import opened IndexList
  import opened SmqWeave
  import opened SmqHash
  import opened SmqQueue
  import opened SmqTargets
  import opened SmqQueueOps
  import opened BackgroundTracker
  import opened SmqLifecycle
  import opened SmqState
  import opened SmqSetUp
  import SQ = SmqQueue

  /** Work on an entry was queued if the tracker had room for its block: it is pending then, and in no
      queue.  Else it has gone to the front of its level.  Nothing else has changed. */
  ghost predicate Offered(st: State, st': State, room: iset<nat>, op: Op, e: nat) {
    && OnlyEntry(st, st', e) && st'.level == st.level
    && if st.es[e].oblock in room
       then st'.works == st.works + {Work(op, st.es[e].oblock, e)} && st'.es[e] == st.es[e].(pending := true)
       else st'.works == st.works && st'.es == st.es && Stands(st', e, true)
  }

  /** A work item is over.  A block promoted is mapped by its entry, at the back of the top level; a block
      demoted, or not promoted, has left its entry free; any other entry is back at the end of the level it
      had, in the queue its dirty bit names.  The dirty bit and all other entries are untouched. */
  ghost predicate Completed(st: State, st': State, v: Work, success: bool) {
    var e := v.cblock;
    && OnlyEntry(st, st', e) && st'.works == st.works - {v}
    && if v.op == Promote && success
       then && st'.es[e] == Entry(v.oblock, st.es[e].dirty, true, false)
            && st'.level[e] == |st.clean| - 1 && Stands(st', e, false)
       else if v.op == Promote || (v.op == Demote && success)
       then && st'.es[e] == st.es[e].(inUse := false, pending := v.op == Demote)
            && st'.level == st.level && st'.free == st.free + [e]
       else && st'.es[e] == st.es[e].(pending := false)
            && st'.level == st.level && Stands(st', e, false)
  }

  /** The first free entry is set up for a promotion, pending and at the bottom level: taken for it, or last
      of the free list when the tracker has refused the work. */
  ghost predicate SetUpFor(st: State, st': State, oblock: nat, ok: bool) {
    |st.free| > 0 &&
    var e := st.free[0];
    && OnlyEntry(st, st', e) && st'.clean == st.clean && st'.dirty == st.dirty && st'.table == st.table
    && st'.es[e] == st.es[e].(dirty := true, inUse := ok, pending := true) && st'.level[e] == 0
    && st'.works == (if ok then st.works + {Work(Promote, oblock, e)} else st.works)
    && st'.free == RemoveAt(st.free, 0) + (if ok then [] else [e])
  }

  lemma PromotionOutcome(st: State, oblock: nat, ok: bool) returns (st': State)
    requires Sound(st) && |st.free| > 0 && oblock !in Mapped(st)
    ensures st.free[0] < |st.es|
    ensures Sound(st') && Mapping(st') == Mapping(st) && SetUpFor(st, st', oblock, ok)
    ensures st' == Promoting(st, oblock, ok)
  {
    FreeIsEntry(st, 0);
    if ok {
      st' := PromotionStarted(st, 0, oblock);
    } else {
      st' := PromotionRefused(st, 0);
    }
    PromotionOnly(st, oblock, ok);
  }

  lemma PromotionOnly(st: State, oblock: nat, ok: bool)
    requires |st.free| > 0 && st.free[0] < |st.es| <= |st.level| && NoDup(st.free)
    ensures SetUpFor(st, Promoting(st, oblock, ok), oblock, ok)
  {
    WithoutRemoved(st.free, 0);
    if !ok {
      NoDupRemove(st.free, 0);
      FreeOnly(RemoveAt(st.free, 0), st.free[0]);
    }
  }

  ghost function Promoting(st: State, oblock: nat, ok: bool): State
    requires |st.free| > 0 && st.free[0] < |st.es| <= |st.level|
  {
    var e := st.free[0];
    var a := st.(es := st.es[e := st.es[e].(dirty := true, inUse := ok, pending := true)], level := st.level[e := 0]);
    if ok then a.(free := RemoveAt(st.free, 0), nrAllocated := st.nrAllocated + 1,
                  works := st.works + {Work(Promote, oblock, e)})
    else a.(free := RemoveAt(st.free, 0) + [e])
  }

  /** An entry has become the last of the free list. */
  ghost predicate Dropped(st: State, st': State, e: nat) {
    && OnlyEntry(st, st', e) && st'.es[e] == st.es[e].(inUse := false) && st'.level == st.level
    && st'.free == st.free + [e] && st'.works == st.works
  }

  lemma OfferOutcome(st: State, e: nat, op: Op, q: Queue, q': Queue, ok: bool, room: iset<nat>) returns (st': State)
    requires Sound(st) && op != Promote && e in Queued(st.es, op == Writeback) && ok == (st.es[e].oblock in room)
    requires var dirty, nr := op == Writeback, Counter(st, op == Writeback);
             && nr > 0 && Withdrawn(st, dirty, q, nr - 1, e)
             && (!ok ==> With(WithQueue(st, dirty, q, nr - 1), dirty, q', nr, e, true))
    ensures Sound(st') && Mapping(st') == Mapping(st) && st'.free == st.free && Offered(st, st', room, op, e)
    ensures var dirty, nr := op == Writeback, Counter(st, op == Writeback);
            st' == if ok then WithQueue(st, dirty, q, nr - 1).(es := st.es[e := st.es[e].(pending := true)],
                                                               works := st.works + {Work(op, st.es[e].oblock, e)})
                   else WithQueue(st, dirty, q', nr)
  {
    var dirty, nr := op == Writeback, Counter(st, op == Writeback);
    if ok {
      st' := WorkStarted(st, e, op, q, nr - 1);
      QueueOnly(st, st', dirty, q, nr - 1, e);
    } else {
      st' := PutBack(st, dirty, q, nr - 1, q', nr, e);
      QueueOnlyTwice(st, WithQueue(st, dirty, q, nr - 1), st', dirty, q, dirty, q', nr - 1, nr, e);
    }
  }

  lemma PromotionCompleted(st: State, v: Work, q: Queue, nr: nat) returns (st': State)
    requires Sound(st) && DistinctWork(st.works) && v in st.works && v.op == Promote
    requires v.cblock < |st.es| <= |st.level|
    requires With(st.(level := st.level[v.cblock := |st.clean| - 1]), st.es[v.cblock].dirty, q, nr, v.cblock, false)
    ensures Sound(st') && Mapping(st') == Mapping(st)[v.cblock := v.oblock] && Completed(st, st', v, true)
    ensures var e := v.cblock;
            st' == WithQueue(st, st.es[e].dirty, q, nr).(
                 es := st.es[e := st.es[e].(oblock := v.oblock, pending := false)],
                 table := st.table + {e}, works := st.works - {v})
    ensures st.es[v.cblock].inUse
  {
    Outside(st, v);
    st' := PromotionFinished(st, v, q, nr);
    QueueOnly(st, st', st.es[v.cblock].dirty, q, nr, v.cblock);
  }

  lemma ReleaseCompleted(st: State, v: Work) returns (st': State)
    requires Sound(st) && v in st.works && v.op != Writeback
    ensures v.cblock < |st.es| && st.nrAllocated > 0
    ensures Sound(st') && Mapping(st') == Mapping(st) - {v.cblock} && Completed(st, st', v, v.op == Demote)
    ensures v.op == Promote ==> Mapping(st') == Mapping(st)
    ensures var e := v.cblock;
            st' == st.(es := st.es[e := st.es[e].(inUse := false, pending := v.op != Promote)], free := st.free + [e],
                   nrAllocated := st.nrAllocated - 1, table := st.table - {e}, works := st.works - {v})
  {
    Outside(st, v);
    NotFree(st, v.cblock);
    st' := EntryReleased(st, v, v.op != Promote);
    FreeOnly(st.free, v.cblock);
    if v.op == Promote {
      assert Mapping(st) - {v.cblock} == Mapping(st);
    }
  }

  lemma ReturnCompleted(st: State, v: Work, q: Queue, nr: nat) returns (st': State)
    requires Sound(st) && v in st.works && v.op != Promote && v.cblock < |st.es|
    requires With(st, st.es[v.cblock].dirty, q, nr, v.cblock, false)
    ensures Sound(st') && Mapping(st') == Mapping(st) && Completed(st, st', v, v.op == Writeback)
    ensures var e := v.cblock;
            st' == WithQueue(st, st.es[e].dirty, q, nr).(
                 es := st.es[e := st.es[e].(pending := false)], works := st.works - {v})
  {
    Outside(st, v);
    st' := EntryReturned(st, v, q, nr);
    QueueOnly(st, st', st.es[v.cblock].dirty, q, nr, v.cblock);
  }

  /** The state when an entry has changed its dirty bit, and its queue with it. */
  ghost function Changed(st: State, e: nat, dirty: bool, q0: Queue, nr0: nat, q1: Queue, nr1: nat): State
    requires e < |st.es|
  {
    WithQueue(WithQueue(st, st.es[e].dirty, q0, nr0), dirty, q1, nr1).(es := st.es[e := st.es[e].(dirty := dirty)])
  }

  /** The state when a mapping has been loaded into a free entry. */
  ghost function Loaded(st: State, k: nat, oblock: nat, dirty: bool, q: Queue, nr: nat): State
    requires k < |st.free| && st.free[k] < |st.es|
  {
    var e := st.free[k];
    WithQueue(st, dirty, q, nr).(es := st.es[e := Entry(oblock, dirty, true, false)], free := RemoveAt(st.free, k),
                                 nrAllocated := st.nrAllocated + 1, table := st.table + {e})
  }

  /** It comes of taking the entry, hashing and queueing it, and counting it. */
  lemma LoadedInSteps(st: State, k: nat, l: nat, oblock: nat, dirty: bool, q: Queue, nr: nat)
    requires k < |st.free| && st.free[k] < |st.es| <= |st.level|
    ensures
      var e, a := st.free[k], st.(free := RemoveAt(st.free, k));
      var b := a.(level := a.level[e := l]);
      && (With(b, dirty, q, nr, e, true) ==> With(st.(level := st.level[e := l]), dirty, q, nr, e, true))
      && WithQueue(b, dirty, q, nr).(es := a.es[e := Entry(oblock, dirty, true, false)], table := a.table + {e},
                                     nrAllocated := a.nrAllocated + 1) == Loaded(st, k, oblock, dirty, q, nr)
  {
    var e, a := st.free[k], st.(free := RemoveAt(st.free, k));
    assert TheQueue(a.(level := a.level[e := l]), dirty) == TheQueue(st.(level := st.level[e := l]), dirty);
  }

  lemma DirtyOutcome(st: State, e: nat, dirty: bool, q0: Queue, nr0: nat, q1: Queue, nr1: nat) returns (st': State)
    requires Sound(st) && e < |st.es| && st.es[e].inUse && !st.es[e].pending
    requires Withdrawn(st, st.es[e].dirty, q0, nr0, e)
    requires With(WithQueue(st, st.es[e].dirty, q0, nr0), dirty, q1, nr1, e, false)
    ensures Sound(st') && Mapping(st') == Mapping(st)
    ensures st' == Changed(st, e, dirty, q0, nr0, q1, nr1)
    ensures OnlyEntry(st, st', e) && st'.level == st.level && st'.works == st.works && Stands(st', e, false)
  {
    st' := DirtyMoved(st, e, dirty, q0, nr0, q1, nr1);
    QueueOnlyTwice(st, WithQueue(st, st.es[e].dirty, q0, nr0), st', st.es[e].dirty, q0, dirty, q1, nr0, nr1, e);
  }

  lemma LoadOutcome(st: State, k: nat, oblock: nat, dirty: bool, l: nat, q: Queue, nr: nat) returns (st': State)
    requires Sound(st) && k < |st.free| && st.free[k] < |st.es| <= |st.level| && l < |st.clean|
    requires oblock !in Mapped(st) && forall w :: w in st.works ==> w.oblock != oblock
    requires With(st.(level := st.level[st.free[k] := l]), dirty, q, nr, st.free[k], true)
    ensures Sound(st') && Mapping(st') == Mapping(st)[st.free[k] := oblock]
    ensures st' == Loaded(st, k, oblock, dirty, q, nr)
    ensures OnlyEntry(st, st', st.free[k]) && Stands(st', st.free[k], true) && st'.level[st.free[k]] == l
  {
    st' := EntryLoaded(st, k, oblock, dirty, l, q, nr);
    WithoutRemoved(st.free, k);
    QueueOnly(st, st', dirty, q, nr, st.free[k]);
  }

  lemma DropOutcome(st: State, e: nat, q: Queue, nr: nat) returns (st': State)
    requires Sound(st) && e < |st.es| && st.es[e].inUse && !st.es[e].pending && Withdrawn(st, st.es[e].dirty, q, nr, e)
    ensures st.nrAllocated > 0
    ensures Sound(st') && Mapping(st') == Mapping(st) - {e} && Dropped(st, st', e)
    ensures st' == WithQueue(st, st.es[e].dirty, q, nr).(es := st.es[e := st.es[e].(inUse := false)],
                 free := st.free + [e], nrAllocated := st.nrAllocated - 1, table := st.table - {e})
  {
    st' := EntryInvalidated(st, e, q, nr);
    NotFree(st, e);
    FreeOnly(st.free, e);
    QueueOnly(st, st', st.es[e].dirty, q, nr, e);
  }

  /** The oldest entry of a queue, if there is one to offer, was offered for work. */
  ghost predicate OldestOffered(st: State, st': State, room: iset<nat>, op: Op, maxLevel: nat, cross: bool) {
    var q := TheQueue(st, op == Writeback);
    if NoneOffered(q, maxLevel, cross, |st.es|) then st' == st
    else exists e :: Oldest(q, e, maxLevel, cross, |st.es|) && Offered(st, st', room, op, e)
  }

  /** The oldest clean entry of the lower half of the levels was offered for demotion; when there is none
      and something is dirty, the oldest dirty entry before any sentinel for writeback. */
  ghost predicate DemotionOffered(st: State, st': State, room: iset<nat>) {
    if NoneOffered(TheQueue(st, false), |st.clean| / 2, true, |st.es|) && st.nrDirty != 0
    then OldestOffered(st, st', room, Writeback, |st.clean|, false)
    else OldestOffered(st, st', room, Demote, |st.clean| / 2, true)
  }

  /** What asking for a promotion comes to.  With nothing free a demotion is asked for, if too few are under
      way; a block that has work pending is passed over. */
  ghost predicate AskedToPromote(st: State, st': State, allowed: bool, pending: bool, fewDemotes: bool, oblock: nat,
                                 room: iset<nat>) {
    if !allowed then st' == st
    else if |st.free| == 0 then if fewDemotes then DemotionOffered(st, st', room) else st' == st
    else if pending then st' == st
    else SetUpFor(st, st', oblock, oblock in room)
  }

  // ---------------------------------------------------------------- the policy

  class Policy {
    const n: nat                    // cache_size
    const nrLevels: nat             // NR_CACHE_LEVELS
    const bg: Tracker
    const w: Weave                  // free list, levels of the clean and of the dirty queue
    const ht: HashTable

    var es: seq<Entry>
    var level: seq<nat>             // levels of entries, then of sentinels
    var nrAllocated: nat
    var nrClean: nat
    var nrDirty: nat
    var currentWriteback: bool
    var currentDemote: bool
    var migrationsAllowed: bool

    ghost var now: State            // what all of this stands for

    ghost predicate Lined()
      reads this, w, w.space.links
    {
      && es == now.es && level == now.level
      && nrAllocated == now.nrAllocated && nrClean == now.nrClean && nrDirty == now.nrDirty
      && |es| == n && |now.clean| == nrLevels && Carried(now, w)
    }

    /** The fields, the links, the chains and the work lists represent the state. */
    ghost predicate Concrete()
      reads this, bg, w, w.space.links, ht
    {
      Lined() && bg.Valid() && bg.All() == now.works && Hashed(now.table, now.es, ht)
    }

    /** And the state is good. */
    ghost predicate Valid()
      reads this, bg, w, w.space.links, ht
    {
      Sound(now) && Concrete()
    }

    /** Origin blocks the tracker has room for. */
    ghost function Room(): iset<nat>
      reads bg
    {
      iset o: nat | |bg.Works()| < bg.maxWork && o !in bg.pending
    }

    /** An empty cache: everything free, and every list holding its two sentinels. */
    constructor (cacheSize: nat, levels: nat, bg: Tracker, hash: nat -> nat, nrBuckets: nat)
      requires levels > 0 && bg.Valid() && bg.Works() == [] && cacheSize + 4 * levels <= NULL
      requires forall o :: hash(o) < nrBuckets
      ensures Valid() && n == cacheSize && nrLevels == levels && this.bg == bg && Mapping(now) == map[]
      ensures fresh(w) && fresh(w.space) && fresh(w.space.links) && fresh(ht)
    {
      n, nrLevels, this.bg := cacheSize, levels, bg;
      var lists := InitLists(cacheSize, levels);
      w := lists;
      ht := new HashTable(hash, cacheSize, nrBuckets);
      es := seq(cacheSize, _ => Entry(0, false, false, false));
      level := InitialLevels(cacheSize, levels);
      nrAllocated, nrClean, nrDirty := 0, 0, 0;
      currentWriteback, currentDemote, migrationsAllowed := true, true, true;
      now := State(seq(cacheSize, _ => Entry(0, false, false, false)), InitialLevels(cacheSize, levels),
                   seq(cacheSize, i => i), 0, InitialLists(cacheSize + 2 * levels, levels), 0,
                   InitialLists(cacheSize, levels), 0, {}, {});
      new;
      Initially(now, levels);
    }

    // -------------------------------------------------------------- invariants a client can use

    /** No origin block is mapped twice, and none is mapped while its promotion is pending. */
    lemma MappingIsInjective(c: nat, d: nat)
      requires Valid() && c in Mapping(now) && d in Mapping(now)
      ensures Mapping(now)[c] == Mapping(now)[d] ==> c == d
      ensures forall v :: v in bg.All() && v.op == Promote ==> Mapping(now)[c] != v.oblock
    {
    }

    /** Every entry is free, in one queue at the level it records, or the target of one work item; the
        links of the free list and of that level are the only ones that lead to it. */
    lemma EveryEntryHasOnePlace(c: nat)
      requires Valid() && c < n
      ensures !es[c].inUse ==>
                && c in now.free && c !in now.table && c !in Targets(bg.All())
                && forall i: nat :: Listed(w.spelled, i, c) <==> i == 0
      ensures es[c].inUse && !es[c].pending ==>
                && c !in now.free && c in now.table && c !in Targets(bg.All())
                && level[c] < nrLevels
                && forall i: nat :: Listed(w.spelled, i, c) <==> i == Base(es[c].dirty, nrLevels) + level[c]
      ensures es[c].inUse && es[c].pending ==>
                && Nowhere(w.spelled, c) && (c in now.table <==> c !in Reserved(bg.All()))
                && (exists v :: v in bg.All() && v.cblock == c)
                && (forall u, v :: u in bg.All() && v in bg.All() && u.cblock == c && v.cblock == c ==> u == v)
    {
      QueuesAreDisjoint(now, c);
      assert c in Unallocated(es) || c in Queued(es, es[c].dirty) || c in Pending(es);
      assert Reserved(bg.All()) <= Targets(bg.All());
      assert c in now.free <==> c in Elements(now.free);
      if es[c].inUse && es[c].pending {
        InNoList(now, c);
        assert c in Targets(bg.All());
      } else if es[c].inUse {
        QueuedOnce(now, es[c].dirty, c);
      } else {
        FreeOnce(now, c);
      }
    }

    // -------------------------------------------------------------- the two queues

    /** `q_del` */
    method Unqueue(isDirty: bool, e: nat) returns (ghost q: Queue)
      requires Lined() && e < n && Has(TheQueue(now, isDirty), e) && e < |level|
      requires QueueOk(TheQueue(now, isDirty), Counter(now, isDirty), n, nrLevels, isDirty)
      modifies `nrDirty, `nrClean, `now, w, w.space.links
      ensures Lined() && Nowhere(w.spelled, e)
      ensures var st, nr := old(now), old(Counter(now, isDirty));
              nr > 0 && Withdrawn(st, isDirty, q, nr - 1, e) && !Has(q, e) && now == WithQueue(st, isDirty, q, nr - 1)
    {
      q := Delete(w, now, isDirty, e, level[e], nrLevels, n);
      now := WithQueue(now, isDirty, q, Counter(now, isDirty) - 1);
      if isDirty {
        nrDirty := nrDirty - 1;
      } else {
        nrClean := nrClean - 1;
      }
    }

    /** `q_push` and `q_push_front` */
    method Enqueue(isDirty: bool, e: nat, front: bool) returns (ghost q: Queue)
      requires Lined() && e < n && e < |level| && level[e] < nrLevels
      requires QueueOk(TheQueue(now, isDirty), Counter(now, isDirty), n, nrLevels, isDirty)
      requires !Has(TheQueue(now, isDirty), e) && Nowhere(w.spelled, e)
      modifies `nrDirty, `nrClean, `now, w, w.space.links
      ensures Lined()
      ensures var st, nr := old(now), old(Counter(now, isDirty));
              With(st, isDirty, q, nr + 1, e, front) && now == WithQueue(st, isDirty, q, nr + 1)
    {
      q := Push(w, now, isDirty, e, level[e], front, nrLevels, n);
      now := WithQueue(now, isDirty, q, Counter(now, isDirty) + 1);
      if isDirty {
        nrDirty := nrDirty + 1;
      } else {
        nrClean := nrClean + 1;
      }
    }

    // -------------------------------------------------------------- starting background work

    /** `btracker_queue` and, if it takes the work, `mark_pending`. */
    method Submit(op: Op, e: nat) returns (ok: bool)
      requires Concrete() && op != Promote && e < n
      modifies `es, `now, bg
      ensures Concrete() && ok == (old(es[e]).oblock in old(Room())) && bg.issued == old(bg.issued)
      ensures bg.queued == (if ok then [Work(op, old(es[e]).oblock, e)] else []) + old(bg.queued)
      ensures var st := old(now);
              now == if ok then st.(es := st.es[e := st.es[e].(pending := true)],
                                    works := st.works + {Work(op, st.es[e].oblock, e)})
                     else st
    {
      var r := bg.QueueWork(Work(op, es[e].oblock, e), false);
      ok := r == Ok;
      if ok {
        now := now.(es := es[e := es[e].(pending := true)], works := now.works + {Work(op, es[e].oblock, e)});
        es := es[e := es[e].(pending := true)];
      }
    }

    /** Marks a queued entry pending and takes it out of its queue for a demotion or writeback;
        if the tracker refuses the work, the entry goes back to the front of its queue. */
    method TryOffer(op: Op, e: nat) returns (ok: bool, ghost q: Queue, ghost q': Queue)
      requires Concrete() && op != Promote && e < n && Has(TheQueue(now, op == Writeback), e)
      requires QueueOk(TheQueue(now, op == Writeback), Counter(now, op == Writeback), n, nrLevels, op == Writeback)
      requires level[e] < nrLevels
      modifies this, bg, w, w.space.links
      ensures Concrete() && ok == (old(es[e]).oblock in old(Room())) && bg.issued == old(bg.issued)
      ensures bg.queued == (if ok then [Work(op, old(es[e]).oblock, e)] else []) + old(bg.queued)
      ensures var st, dirty := old(now), op == Writeback;
              var nr := Counter(st, dirty);
              && nr > 0 && Withdrawn(st, dirty, q, nr - 1, e)
              && (ok ==> now == WithQueue(st, dirty, q, nr - 1).(es := st.es[e := st.es[e].(pending := true)],
                                                                 works := st.works + {Work(op, st.es[e].oblock, e)}))
              && (!ok ==> With(WithQueue(st, dirty, q, nr - 1), dirty, q', nr, e, true))
              && (!ok ==> now == WithQueue(st, dirty, q', nr))
    {
      q := Unqueue(op == Writeback, e);
      ok := Submit(op, e);
      q' := q;
      if !ok {
        q' := Enqueue(op == Writeback, e, true);
      }
    }

    method Offer(op: Op, e: nat)
      requires Valid() && op != Promote && e < n && Has(TheQueue(now, op == Writeback), e)
      modifies this, bg, w, w.space.links
      ensures Valid() && Mapping(now) == old(Mapping(now)) && now.free == old(now).free
      ensures Offered(old(now), now, old(Room()), op, e) && bg.issued == old(bg.issued)
      ensures var accepted := if old(es[e]).oblock in old(Room()) then [Work(op, old(es[e]).oblock, e)] else [];
              bg.queued == accepted + old(bg.queued)
    {
      ghost var st, room := now, Room();
      QueuesAreDisjoint(st, e);
      var ok;
      ghost var q, q';
      ok, q, q' := TryOffer(op, e);
      st := OfferOutcome(st, e, op, q, q', ok, room);
      assert now == st;
    }

    /** `q_peek` */
    method PeekAt(isDirty: bool, maxLevel: nat, cross: bool) returns (found: bool, e: nat)
      requires Lined() && SQ.Valid(TheQueue(now, isDirty))
      ensures found <==> !NoneOffered(TheQueue(now, isDirty), maxLevel, cross, n)
      ensures found ==> Has(TheQueue(now, isDirty), e) && Oldest(TheQueue(now, isDirty), e, maxLevel, cross, n)
    {
      QueueHeld(now, isDirty, w);
      found, e := Peek(w, Lists(now), Base(isDirty, nrLevels), TheQueue(now, isDirty), nrLevels, maxLevel, cross, n);
    }

    /** `queue_writeback`: the oldest dirty entry. */
    method QueueWriteback(idle: bool)
      requires Valid()
      modifies this, bg, w, w.space.links
      ensures Valid() && Mapping(now) == old(Mapping(now)) && now.free == old(now).free
      ensures OldestOffered(old(now), now, old(Room()), Writeback, nrLevels, idle)
      ensures bg.issued == old(bg.issued)
      ensures now.works == old(now).works ==> bg.queued == old(bg.queued)
      ensures now.works != old(now).works ==>
                && |bg.queued| > 0 && bg.queued[1..] == old(bg.queued)
                && bg.queued[0] !in old(bg.All()) && bg.queued[0].op == Writeback
    {
      var found, e := PeekAt(true, nrLevels, idle);
      if found {
        Offer(Writeback, e);
      }
    }

    /** `queue_demotion`: the oldest clean entry of the lower half of the levels; when there is
        none, a writeback instead if anything is dirty. */
    method QueueDemotion()
      requires Valid()
      modifies this, bg, w, w.space.links
      ensures Valid() && Mapping(now) == old(Mapping(now)) && now.free == old(now).free
      ensures !old(migrationsAllowed) ==> now == old(now)
      ensures old(migrationsAllowed) ==> DemotionOffered(old(now), now, old(Room()))
    {
      if !migrationsAllowed {
        return;
      }
      var found, e := PeekAt(false, nrLevels / 2, true);
      if found {
        Offer(Demote, e);
      } else if nrDirty != 0 {
        QueueWriteback(false);
      }
    }

    /** `queue_promotion` of a block that is not mapped: reserves the first free entry, or asks
        for a demotion when none is free and too few are under way. */
    method QueuePromotion(oblock: nat, issue: bool)
      requires Valid() && oblock !in Mapped(now)
      modifies this, bg, w, w.space.links
      ensures Valid() && Mapping(now) == old(Mapping(now))
      ensures AskedToPromote(old(now), now, old(migrationsAllowed), oblock in old(bg.pending),
                             old(bg.demotes) < n * 25 / 100, oblock, old(Room()))
    {
      if !migrationsAllowed {
        return;
      }
      if w.Empty(0) {
        if n - nrAllocated + bg.demotes < n * 25 / 100 {
          QueueDemotion();
        }
        return;
      }
      if oblock in bg.pending {
        return;
      }
      Reserve(oblock, issue);
    }

    /** `alloc_entry`: the first of the free list leaves it. */
    method TakeFree() returns (e: nat)
      requires Lined() && |now.free| > 0 && now.free[0] < n
      modifies `now, w, w.space.links
      ensures Lined() && Nowhere(w.spelled, e) && e == old(now).free[0]
      ensures now == old(now).(free := RemoveAt(old(now).free, 0))
    {
      assert Threads(w.space.links[..], w.space.sentinel, w.lists[0], w.spelled[0]);
      CountRemove(w.space.sentinel, now.free, 0);
      var found;
      ghost var k;
      found, e, k := w.Pop(0, false);
      ListsFree(now, RemoveAt(now.free, k));
      now := now.(free := RemoveAt(now.free, k));
    }

    /** `free_entry`: to the back of the free list. */
    method GiveFree(e: nat)
      requires Lined() && Nowhere(w.spelled, e) && e < |level|
      modifies `now, w, w.space.links
      ensures Lined() && now == old(now).(free := old(now).free + [e])
    {
      w.Put(0, e, Back, |now.free|);
      assert InsertAt(now.free, |now.free|, e) == now.free + [e];
      ListsFree(now, now.free + [e]);
      now := now.(free := now.free + [e]);
    }

    /** `init_entry` of an entry about to be promoted into. */
    method InitEntry(e: nat, ok: bool)
      requires Lined() && e < n <= |level| && Hashed(now.table, now.es, ht)
      modifies `es, `level, `now
      ensures Lined() && Hashed(now.table, now.es, ht)
      ensures var st := old(now);
              now == st.(es := st.es[e := st.es[e].(dirty := true, inUse := ok, pending := true)],
                         level := st.level[e := 0])
    {
      level, es := level[e := 0], es[e := es[e].(dirty := true, inUse := ok, pending := true)];
      now := now.(level := level, es := es);
    }

    /** Allocates the first free entry for a promotion and queues the work, or frees the entry
        again when the tracker refuses. */
    method TryReserve(oblock: nat, issue: bool) returns (ok: bool)
      requires Concrete() && |now.free| > 0 && now.free[0] < n <= |level|
      modifies this, bg, w, w.space.links
      ensures Concrete() && ok == (oblock in old(Room()))
      ensures now == Promoting(old(now), oblock, ok)
    {
      var e := TakeFree();
      var r := bg.QueueWork(Work(Promote, oblock, e), issue);
      ok := r == Ok;
      InitEntry(e, ok);
      if ok {
        nrAllocated := nrAllocated + 1;
        now := now.(nrAllocated := nrAllocated, works := now.works + {Work(Promote, oblock, e)});
      } else {
        GiveFree(e);
      }
    }

    method Reserve(oblock: nat, issue: bool)
      requires Valid() && oblock !in Mapped(now) && |now.free| > 0
      modifies this, bg, w, w.space.links
      ensures Valid() && Mapping(now) == old(Mapping(now))
      ensures SetUpFor(old(now), now, oblock, oblock in old(Room()))
    {
      ghost var st := now;
      FreeIsEntry(st, 0);
      var ok := TryReserve(oblock, issue);
      st := PromotionOutcome(st, oblock, ok);
      assert now == st;
    }

    // -------------------------------------------------------------- lookups

    /** `__lookup`: finds the cache block of an origin block, if it has one, and moves its entry
        up on the first hit of a period unless work on it is pending.  On a miss the caller's
        hotspot statistics decide whether to promote. */
    method Lookup(oblock: nat, firstHit: bool, promote: bool, issue: bool) returns (hit: bool, c: nat)
      requires Valid()
      modifies this, bg, w, w.space.links, ht
      ensures Valid() && Mapping(now) == old(Mapping(now))
      ensures hit <==> oblock in old(Mapped(now))
      ensures hit ==> c in Mapping(now) && Mapping(now)[c] == oblock && bg.All() == old(bg.All())
      ensures hit && (old(es)[c].pending || !firstHit) ==> now == old(now)
      ensures hit && !old(es)[c].pending && firstHit ==> Lifted(old(now), now, c, currentWriteback)
      ensures !hit && !promote ==> now == old(now)
      ensures !hit && promote ==> AskedToPromote(old(now), now, old(migrationsAllowed), oblock in old(bg.pending),
                                                 old(bg.demotes) < n * 25 / 100, oblock, old(Room()))
    {
      hit, c := ht.Lookup(oblock);
      assert hit ==> c in now.table;
      if hit {
        InTheTable(now, c);
        if !es[c].pending && firstHit {
          Touch(c);
        }
      } else if promote {
        QueuePromotion(oblock, issue);
      }
    }

    /** The links of a queue have been put in another order. */
    method Relist(isDirty: bool, ghost q: Queue, newLevel: seq<nat>)
      requires es == now.es && nrAllocated == now.nrAllocated && nrClean == now.nrClean && nrDirty == now.nrDirty
      requires |es| == n && |now.clean| == |now.dirty| == |q.qs| == nrLevels
      requires Holds(w, Lists(now), Base(isDirty, nrLevels), q, n) && q.level == newLevel &&
               |newLevel| == |w.space.sentinel|
      modifies `level, `now
      ensures Lined() && now == WithQueue(old(now), isDirty, q, Counter(old(now), isDirty))
    {
      QueueAdopted(now, isDirty, q, Counter(now, isDirty), w);
      level, now := newLevel, WithQueue(now, isDirty, q, Counter(now, isDirty));
    }

    /** `q_requeue` by one level. */
    method MoveUp(isDirty: bool, e: nat, marks: Sentinels) returns (ghost q: Queue)
      requires Lined() && e < n <= |level| && level[e] < nrLevels
      requires QueueOk(TheQueue(now, isDirty), Counter(now, isDirty), n, nrLevels, isDirty) &&
               Has(TheQueue(now, isDirty), e)
      requires SentinelsAt(TheQueue(now, isDirty), marks, level[e], n)
      modifies `level, `now, w, w.space.links
      ensures Lined() && Rearranged(TheQueue(old(now), isDirty), q, n)
      ensures now == WithQueue(old(now), isDirty, q, Counter(old(now), isDirty))
      ensures level[e] == Raised(old(level[e]), 1, nrLevels)
      ensures Requeued(TheQueue(old(now), isDirty), q, e, 1, marks, n)
    {
      var newLevel;
      q, newLevel := Raise(w, now, isDirty, level, e, marks, nrLevels, n);
      Relist(isDirty, q, newLevel);
    }

    /** `requeue` of an entry that is in a queue, with the sentinels of its level if it is dirty. */
    method Touch(e: nat)
      requires Valid() && e < n && es[e].inUse && !es[e].pending
      modifies `level, `now, w, w.space.links
      ensures Valid() && Mapping(now) == old(Mapping(now)) && Lifted(old(now), now, e, currentWriteback)
    {
      ghost var st := now;
      Touchable(st, e, currentWriteback);
      ghost var q := MoveUp(es[e].dirty, e, MarksOf(n, nrLevels, level[e], es[e].dirty, currentWriteback));
      st := Touched(st, e, q, currentWriteback);
      assert now == st;
    }

    // -------------------------------------------------------------- finishing background work

    /** `smq_get_background_work`: the item queued last, if there is one; otherwise, when idle, the
        oldest dirty entry is offered for writeback, and its item returned if the tracker takes it. */
    method GetBackgroundWork(idle: bool) returns (found: bool, v: Work)
      requires Valid()
      modifies this, bg, w, w.space.links
      ensures Valid() && Mapping(now) == old(Mapping(now))
      ensures found ==> v in bg.issued && v in bg.All()
      ensures old(bg.queued) != [] ==> found && v == old(bg.queued)[0] && now == old(now)
      ensures old(bg.queued) == [] && (!idle || old(nrDirty) == 0) ==> !found && now == old(now)
      ensures old(bg.queued) == [] && idle && old(nrDirty) != 0 ==>
                && OldestOffered(old(now), now, old(Room()), Writeback, nrLevels, true)
                && (found <==> bg.All() != old(bg.All()))
                && (found ==> v !in old(bg.All()) && v.op == Writeback)
    {
      found, v := bg.IssueWork();
      assert found ==> bg.Works()[0] == v;
      if !found && idle && nrDirty != 0 {
        found, v := IssueWriteback();
      }
    }

    /** With no work queued, what `queue_writeback` queues is issued at once. */
    method IssueWriteback() returns (found: bool, v: Work)
      requires Valid() && bg.queued == []
      modifies this, bg, w, w.space.links
      ensures Valid() && Mapping(now) == old(Mapping(now))
      ensures found ==> v in bg.issued && v in bg.All() && v !in old(bg.All()) && v.op == Writeback
      ensures OldestOffered(old(now), now, old(Room()), Writeback, nrLevels, true)
      ensures found <==> bg.All() != old(bg.All())
    {
      QueueWriteback(true);
      found, v := bg.IssueWork();
      assert found ==> bg.Works()[0] == v;
    }

    /** Hashes an entry that is in no list, at the given level, and queues it. */
    method Map(e: nat, oblock: nat, isDirty: bool, l: nat, front: bool) returns (ghost q: Queue)
      requires Concrete() && e < n <= |level| && l < nrLevels && e !in now.table && Nowhere(w.spelled, e)
      requires var q0 := TheQueue(now, isDirty).(level := level[e := l]);
               QueueOk(q0, Counter(now, isDirty), n, nrLevels, isDirty) && !Has(q0, e)
      modifies this, w, w.space.links, ht
      ensures Concrete()
      ensures var st := old(now);
              var a, nr := st.(level := st.level[e := l]), Counter(st, isDirty) + 1;
              && With(a, isDirty, q, nr, e, front)
              && now == WithQueue(a, isDirty, q, nr).(es := st.es[e := Entry(oblock, isDirty, true, false)],
                                                        table := st.table + {e})
    {
      HashIn(e, oblock, isDirty, l);
      q := Enqueue(isDirty, e, front);
    }

    /** `h_insert` of an entry under another block. */
    method HashIn(e: nat, oblock: nat, isDirty: bool, l: nat)
      requires Concrete() && e < n <= |level| && e !in now.table
      modifies `es, `level, `now, ht
      ensures Concrete()
      ensures var st := old(now);
              now == st.(level := st.level[e := l], es := st.es[e := Entry(oblock, isDirty, true, false)],
                         table := st.table + {e})
    {
      ht.SetBlock(e, oblock);
      ht.Insert(ht.hash(oblock), e);
      level, es := level[e := l], es[e := Entry(oblock, isDirty, true, false)];
      now := now.(level := level, es := es, table := now.table + {e});
    }

    /** A promotion succeeds: its entry is mapped and goes to the top level. */
    method FinishPromote(v: Work)
      requires Valid() && v in bg.issued && v in bg.All() && v.op == Promote
      modifies this, bg, w, w.space.links, ht
      ensures Valid() && bg.All() == old(bg.All()) - {v}
      ensures Mapping(now) == old(Mapping(now))[v.cblock := v.oblock] && Completed(old(now), now, v, true)
    {
      ghost var st := now;
      var e := v.cblock;
      bg.WorkIsDistinct();
      PromotionReady(st, v);
      ghost var nr := Counter(st, es[e].dirty);
      ghost var q := Map(e, v.oblock, es[e].dirty, nrLevels - 1, false);
      ghost var st' := PromotionCompleted(st, v, q, nr + 1);
      FinishWork(v, st');
    }

    /** `btracker_complete`, when all else is done. */
    method FinishWork(v: Work, ghost st: State)
      requires Concrete() && v in bg.issued && st == now.(works := now.works - {v})
      modifies `now, bg
      ensures Concrete() && now == st
    {
      bg.CompleteWork(v);
      now := st;
    }

    /** Puts an entry that is in no list on the free list, taking it from the table if it is there. */
    method Unmap(e: nat, hashed: bool, pending: bool)
      requires Concrete() && e < n <= |level| && Nowhere(w.spelled, e) && nrAllocated > 0
      requires hashed == (e in now.table) && Unique(now)
      modifies this, w, w.space.links, ht
      ensures Concrete()
      ensures var st := old(now);
              now == st.(es := st.es[e := st.es[e].(inUse := false, pending := pending)], free := st.free + [e],
                           nrAllocated := st.nrAllocated - 1, table := st.table - {e})
    {
      if hashed {
        ht.Remove(e);
      }
      es, nrAllocated := es[e := es[e].(inUse := false, pending := pending)], nrAllocated - 1;
      now := now.(es := es, nrAllocated := nrAllocated, table := now.table - {e});
      GiveFree(e);
    }

    /** A demotion succeeds or a promotion fails: the entry is free again.  An entry under promotion is
        not in the table. */
    method Release(v: Work)
      requires Valid() && v in bg.issued && v in bg.All() && v.op != Writeback
      modifies this, bg, w, w.space.links, ht
      ensures Valid() && bg.All() == old(bg.All()) - {v}
      ensures Mapping(now) == old(Mapping(now)) - {v.cblock}
      ensures v.op == Promote ==> Mapping(now) == old(Mapping(now))
      ensures Completed(old(now), now, v, v.op == Demote)
    {
      ghost var st := now;
      Outside(st, v);
      IsUnique(st);
      ghost var st' := ReleaseCompleted(st, v);
      Unmap(v.cblock, v.op != Promote, v.op != Promote);
      FinishWork(v, st');
    }

    /** A writeback ends or a demotion fails: the entry goes back to the queue its dirty bit names. */
    method Return(v: Work)
      requires Valid() && v in bg.issued && v in bg.All() && v.op != Promote
      modifies this, bg, w, w.space.links
      ensures Valid() && bg.All() == old(bg.All()) - {v}
      ensures Mapping(now) == old(Mapping(now)) && Completed(old(now), now, v, v.op == Writeback)
    {
      ghost var st := now;
      Outside(st, v);
      ghost var nr := Counter(st, es[v.cblock].dirty);
      ghost var q := Requeueing(v.cblock);
      ghost var st' := ReturnCompleted(st, v, q, nr + 1);
      FinishWork(v, st');
    }

    /** Clears the pending mark of an entry and queues it again. */
    method Requeueing(e: nat) returns (ghost q: Queue)
      requires Concrete() && e < n <= |level| && level[e] < nrLevels && Nowhere(w.spelled, e)
      requires var isDirty := now.es[e].dirty;
               && QueueOk(TheQueue(now, isDirty), Counter(now, isDirty), n, nrLevels, isDirty)
               && !Has(TheQueue(now, isDirty), e)
      modifies this, w, w.space.links
      ensures Concrete()
      ensures var st, isDirty := old(now), old(es)[e].dirty;
              var nr := Counter(st, isDirty) + 1;
              With(st, isDirty, q, nr, e, false) &&
                  now == WithQueue(st, isDirty, q, nr).(es := st.es[e := st.es[e].(pending := false)])
    {
      q := Enqueue(es[e].dirty, e, false);
      SetBits(e, es[e].dirty, false);
    }

    /** `__complete_background_work` */
    method Complete(v: Work, success: bool)
      requires Valid() && v in bg.issued
      modifies this, bg, w, w.space.links, ht
      ensures Valid() && bg.All() == old(bg.All()) - {v}
      ensures Mapping(now) == if v.op == Promote && success then old(Mapping(now))[v.cblock := v.oblock]
                                else if v.op == Demote && success then old(Mapping(now)) - {v.cblock}
                                else old(Mapping(now))
      ensures Completed(old(now), now, v, success)
    {
      bg.IssuedIsKnown(v);
      if v.op == Promote && success {
        FinishPromote(v);
      } else if v.op != Writeback && (v.op == Promote || success) {
        Release(v);
      } else {
        Return(v);
      }
    }

    // -------------------------------------------------------------- other operations

    /** `__smq_set_clear_dirty` of an allocated entry: a queued one changes queue as well. */
    method SetClearDirty(e: nat, set_: bool)
      requires Valid() && e < n && es[e].inUse
      modifies this, w, w.space.links
      ensures Valid() && Mapping(now) == old(Mapping(now)) && es == old(es)[e := old(es)[e].(dirty := set_)]
      ensures OnlyEntry(old(now), now, e) && level == old(level) && now.works == old(now).works
      ensures if old(es[e].pending) then now == old(now).(es := es) else Stands(now, e, false)
    {
      if es[e].pending {
        NoteDirty(e, set_);
      } else {
        MoveDirty(e, set_);
      }
    }

    method NoteDirty(e: nat, set_: bool)
      requires Valid() && e < n && es[e].inUse && es[e].pending
      modifies `es, `now
      ensures Valid() && Mapping(now) == old(Mapping(now)) && es == old(es)[e := old(es)[e].(dirty := set_)]
      ensures OnlyEntry(old(now), now, e) && now == old(now).(es := es)
    {
      ghost var st := DirtyNoted(now, e, set_);
      es, now := es[e := es[e].(dirty := set_)], st;
    }

    method MoveDirty(e: nat, set_: bool)
      requires Valid() && e < n && es[e].inUse && !es[e].pending
      modifies this, w, w.space.links
      ensures Valid() && Mapping(now) == old(Mapping(now)) && es == old(es)[e := old(es)[e].(dirty := set_)]
      ensures OnlyEntry(old(now), now, e) && level == old(level) && now.works == old(now).works && Stands(now, e, false)
    {
      ghost var st := now;
      InOneQueue(st, e, set_);
      ghost var q0, nr0, q1, nr1 := ChangeQueue(e, es[e].dirty, set_);
      ghost var st' := DirtyOutcome(st, e, set_, q0, nr0, q1, nr1);
      assert now == st';
    }

    /** Takes an entry from one queue to the back of another, or of the same. */
    method ChangeQueue(e: nat, from: bool, to: bool)
      returns (ghost q0: Queue, ghost nr0: nat, ghost q1: Queue, ghost nr1: nat)
      requires Concrete() && e < n <= |level| && level[e] < nrLevels && from == es[e].dirty
      requires Has(TheQueue(now, from), e) && (from != to ==> !Has(TheQueue(now, to), e))
      requires QueueOk(TheQueue(now, from), Counter(now, from), n, nrLevels, from)
      requires QueueOk(TheQueue(now, to), Counter(now, to), n, nrLevels, to)
      modifies this, w, w.space.links
      ensures Concrete()
      ensures var st := old(now);
              && Withdrawn(st, from, q0, nr0, e) && With(WithQueue(st, from, q0, nr0), to, q1, nr1, e, false)
              && now == Changed(st, e, to, q0, nr0, q1, nr1)
    {
      q0 := Unqueue(from, e);
      nr0 := Counter(now, from);
      nr1 := Counter(now, to) + 1;
      q1 := Enqueue(to, e, false);
      SetBits(e, to, es[e].pending);
    }

    method SetBits(e: nat, isDirty: bool, pending: bool)
      requires Concrete() && e < n
      modifies `es, `now
      ensures Concrete()
      ensures now == old(now).(es := old(now).es[e := old(now).es[e].(dirty := isDirty, pending := pending)])
    {
      es := es[e := es[e].(dirty := isDirty, pending := pending)];
      now := now.(es := es);
    }

    /** `smq_load_mapping` into a block that is still free, of an origin block nobody has. */
    method LoadMapping(oblock: nat, e: nat, isDirty: bool, l: nat)
      requires Valid() && e < n && !es[e].inUse && l < nrLevels
      requires oblock !in Mapped(now) && forall v :: v in bg.All() ==> v.oblock != oblock
      modifies this, w, w.space.links, ht
      ensures Valid() && Mapping(now) == old(Mapping(now))[e := oblock] && now.works == old(now).works
      ensures OnlyEntry(old(now), now, e) && es[e] == Entry(oblock, isDirty, true, false) && level[e] == l
      ensures Stands(now, e, true)
    {
      ghost var st := now;
      Releveled(st, e, l);
      ghost var k := IsFree(st, e);
      ghost var q, nr := LoadLinks(oblock, e, isDirty, l, k);
      ghost var st' := LoadOutcome(st, k, oblock, isDirty, l, q, nr);
      assert now == st';
    }

    method LoadLinks(oblock: nat, e: nat, isDirty: bool, l: nat, ghost k: nat) returns (ghost q: Queue, ghost nr: nat)
      requires Concrete() && e < n <= |level| && l < nrLevels && k < |now.free| && now.free[k] == e && e !in now.table
      requires var q0 := TheQueue(now, isDirty).(level := level[e := l]);
               QueueOk(q0, Counter(now, isDirty), n, nrLevels, isDirty) && !Has(q0, e)
      modifies this, w, w.space.links, ht
      ensures Concrete()
      ensures With(old(now).(level := old(now).level[e := l]), isDirty, q, nr, e, true)
      ensures now == Loaded(old(now), k, oblock, isDirty, q, nr)
    {
      ghost var st := now;
      TakeParticular(e, k);
      nr := Counter(now, isDirty) + 1;
      q := Map(e, oblock, isDirty, l, true);
      CountOneMore();
      LoadedInSteps(st, k, l, oblock, isDirty, q, nr);
    }

    method CountOneMore()
      requires Concrete()
      modifies `nrAllocated, `now
      ensures Concrete() && now == old(now).(nrAllocated := old(now).nrAllocated + 1)
    {
      nrAllocated, now := nrAllocated + 1, now.(nrAllocated := nrAllocated + 1);
    }

    /** `alloc_particular_entry` */
    method TakeParticular(e: nat, ghost k: nat)
      requires Lined() && k < |now.free| && now.free[k] == e
      modifies `now, w, w.space.links
      ensures Lined() && Nowhere(w.spelled, e) && now == old(now).(free := RemoveAt(old(now).free, k))
    {
      w.Take(0, e, k);
      ListsFree(now, RemoveAt(now.free, k));
      now := now.(free := RemoveAt(now.free, k));
    }

    /** `smq_invalidate_mapping`.  The source asks itself what to do when work on the entry is pending;
        by InvalidateWhen of SmqState no outcome is right then. */
    method Invalidate(e: nat) returns (found: bool)
      requires Valid() && e < n && !(es[e].inUse && es[e].pending)
      modifies this, w, w.space.links, ht
      ensures Valid() && found == old(es[e].inUse) && Mapping(now) == old(Mapping(now)) - {e}
      ensures if found then Dropped(old(now), now, e) else now == old(now)
    {
      found := es[e].inUse;
      if found {
        Drop(e);
      } else {
        NotMapped(now, e);
      }
    }

    method Drop(e: nat)
      requires Valid() && e < n && es[e].inUse && !es[e].pending
      modifies this, w, w.space.links, ht
      ensures Valid() && Mapping(now) == old(Mapping(now)) - {e} && Dropped(old(now), now, e)
    {
      ghost var st := now;
      InTheQueue(st, e);
      IsUnique(st);
      ghost var q := DropLinks(e);
      ghost var st' := DropOutcome(st, e, q, Counter(st, st.es[e].dirty) - 1);
      assert now == st';
    }

    /** `del_queue`, `h_remove` and `free_entry` */
    method DropLinks(e: nat) returns (ghost q: Queue)
      requires Concrete() && e < n <= |level| && e in now.table && Unique(now) && nrAllocated > 0
      requires Has(TheQueue(now, es[e].dirty), e) && !es[e].pending
      requires QueueOk(TheQueue(now, es[e].dirty), Counter(now, es[e].dirty), n, nrLevels, es[e].dirty)
      modifies this, w, w.space.links, ht
      ensures Concrete()
      ensures var st, dirty := old(now), old(es[e]).dirty;
              var nr := Counter(st, dirty);
              && nr > 0 && Withdrawn(st, dirty, q, nr - 1, e)
              && now == WithQueue(st, dirty, q, nr - 1).(es := st.es[e := st.es[e].(inUse := false)],
                   free := st.free + [e], nrAllocated := st.nrAllocated - 1, table := st.table - {e})
    {
      q := Unqueue(es[e].dirty, e);
      Unmap(e, true, false);
    }

    /** `__update_writeback_sentinels` and `__update_demote_sentinels` */
    method MoveSentinels(writeback: bool, which: bool) returns (ghost q: Queue)
      requires Lined() && QueueOk(TheQueue(now, writeback), Counter(now, writeback), n, nrLevels, writeback)
      modifies `level, `now, w, w.space.links
      ensures Lined() && Rearranged(TheQueue(old(now), writeback), q, n)
      ensures now == WithQueue(old(now), writeback, q, Counter(old(now), writeback)) && level == old(level)
      ensures Moved(TheQueue(old(now), writeback), q, nrLevels, n, nrLevels, which, writeback)
    {
      QueueHeld(now, writeback, w);
      q := SentinelsToBack(w, Lists(now), Base(writeback, nrLevels), TheQueue(now, writeback), level,
                           Counter(now, writeback), n, nrLevels, which, writeback);
      Relist(writeback, q, level);
    }

    /** `update_sentinels`: the other sentinel of every level goes to the back of its list, the rest of
        which stays in order. */
    method UpdateSentinels(writeback: bool)
      requires Valid()
      modifies this, w, w.space.links
      ensures Valid() && Mapping(now) == old(Mapping(now)) && level == old(level)
      ensures now == WithQueue(old(now), writeback, TheQueue(now, writeback), old(Counter(now, writeback)))
      ensures Moved(old(TheQueue(now, writeback)), TheQueue(now, writeback), nrLevels, n, nrLevels,
                    if writeback then currentWriteback else currentDemote, writeback)
    {
      if writeback {
        currentWriteback := !currentWriteback;
      } else {
        currentDemote := !currentDemote;
      }
      ghost var st := now;
      ghost var q := MoveSentinels(writeback, if writeback then currentWriteback else currentDemote);
      st := Reordered(st, writeback, q);
    }

    /** Spreads the entries of a queue over its levels. */
    method Spread(isDirty: bool) returns (ghost q: Queue, ghost trail: seq<Queue>)
      requires Lined() && 0 < nrLevels
      requires QueueOk(TheQueue(now, isDirty), Counter(now, isDirty), n, nrLevels, isDirty)
      modifies `level, `now, w, w.space.links
      ensures Lined() && Rearranged(TheQueue(old(now), isDirty), q, n)
      ensures now == WithQueue(old(now), isDirty, q, Counter(old(now), isDirty))
      ensures forall l :: 0 <= l < nrLevels ==> SQ.Items(q.qs[l], n) == Share(Counter(old(now), isDirty), nrLevels, l)
      ensures TrailTo(trail, TheQueue(old(now), isDirty), q, nrLevels - 1,
                      LevelTargets(nrLevels, Counter(old(now), isDirty), 0, 0), n)
    {
      var nr := if isDirty then nrDirty else nrClean;
      var target := SetTargets(seq(nrLevels, _ => 0), nr, 0, 0);
      TargetsAddUpWhen(nrLevels, nr, 0, 0);
      QueueHeld(now, isDirty, w);
      var newLevel;
      q, newLevel, trail := Redistribute(w, Lists(now), Base(isDirty, nrLevels), TheQueue(now, isDirty), nrLevels,
                                         level, target, n);
      forall l | 0 <= l < nrLevels
        ensures SQ.Items(q.qs[l], n) == Share(nr, nrLevels, l)
      {
        FilledIsTarget(target, l);
      }
      Relist(isDirty, q, newLevel);
    }

    /** `end_cache_period`: every level of a queue gets its share of the entries. */
    method EndCachePeriod(isDirty: bool) returns (ghost trail: seq<Queue>)
      requires Valid()
      modifies this, w, w.space.links
      ensures Valid() && Mapping(now) == old(Mapping(now))
      ensures now == WithQueue(old(now), isDirty, TheQueue(now, isDirty), old(Counter(now, isDirty)))
      ensures Rearranged(old(TheQueue(now, isDirty)), TheQueue(now, isDirty), n)
      ensures forall l :: 0 <= l < nrLevels ==>
                SQ.Items(TheQueue(now, isDirty).qs[l], n) == Share(Counter(now, isDirty), nrLevels, l)
      ensures nrLevels > 0 && TrailTo(trail, old(TheQueue(now, isDirty)), TheQueue(now, isDirty), nrLevels - 1,
                                      LevelTargets(nrLevels, Counter(now, isDirty), 0, 0), n)
    {
      ghost var st := now;
      ghost var q;
      q, trail := Spread(isDirty);
      st := Reordered(st, isDirty, q);
      assert now == st;
    }
  }

  /** One member of a list has gone to its end; the others stand as they did. */
  ghost predicate MovedToBack(s: seq<nat>, s': seq<nat>, x: nat) {
    exists k :: 0 <= k < |s| && s[k] == x && s' == RemoveAt(s, k) + [x]
  }

  /** The sentinels of the levels below l have moved, and nothing else has. */
  ghost predicate Moved(q: Queue, q': Queue, l: nat, n: nat, levels: nat, which: bool, writeback: bool) {
    && |q.qs| == |q'.qs| == levels
    && (forall m :: 0 <= m < l && m < levels ==>
        MovedToBack(q.qs[m], q'.qs[m], Sentinel(n, levels, m, which, writeback)))
    && (forall m :: l <= m < levels ==> q'.qs[m] == q.qs[m])
  }

  lemma MovedStep(q: Queue, a: Queue, q': Queue, l: nat, k: nat, n: nat, levels: nat, which: bool, writeback: bool)
    requires Moved(q, a, l, n, levels, which, writeback) && l < levels && k < |a.qs[l]|
    requires a.qs[l][k] == Sentinel(n, levels, l, which, writeback)
    requires q'.qs == a.qs[l := RemoveAt(a.qs[l], k) + [a.qs[l][k]]]
    ensures Moved(q, q', l + 1, n, levels, which, writeback)
  {
  }

  /** Sends one sentinel of every level to the back of its list. */
  method SentinelsToBack(w: Weave, ghost all: seq<seq<nat>>, base: nat, ghost q: Queue, level: seq<nat>, ghost nr: nat,
                         n: nat, levels: nat, which: bool, writeback: bool)
    returns (ghost q': Queue)
    requires Holds(w, all, base, q, n) && level == q.level && QueueOk(q, nr, n, levels, writeback)
    modifies w, w.space.links
    ensures Holds(w, all, base, q', n) && Rearranged(q, q', n) && q'.level == level
    ensures Moved(q, q', levels, n, levels, which, writeback)
  {
    q' := q;
    for l := 0 to levels
      invariant Holds(w, all, base, q', n) && Rearranged(q, q', n) && q'.level == level
      invariant Moved(q, q', l, n, levels, which, writeback)
    {
      var s := Sentinel(n, levels, l, which, writeback);
      assert Has(q, s) && level[s] == l;
      ghost var a, k := q', 0;
      q', k := ToBack(w, all, base, q, q', level, s, n);
      MovedStep(q, a, q', l, k, n, levels, which, writeback);
    }
  }
}
