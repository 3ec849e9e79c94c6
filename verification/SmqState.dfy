/** The state of the smq cache policy: entries, queues, allocator, hash table and background
    work together, the invariant that ties them to each other, and one lemma per transition.
 */
module SmqState {
  import opened Sequences
  import opened SmqWeave
  import opened SmqHash
  import opened SmqQueue
  import opened SmqQueueOps
  import opened BackgroundTracker
  import opened SmqLifecycle
  import SQ = SmqQueue

  /** Entries in a queue, sentinels aside. */
  ghost function Members(q: Queue, n: nat): set<nat> {
    set x | 0 <= x < n && Has(q, x)
  }

  ghost function Elements(s: seq<nat>): set<nat> {
    set x | x in s
  }

  lemma MembersAdd(q: Queue, e: nat, k: nat, n: nat)
    requires SQ.Valid(q) && e < |q.level| && q.level[e] < |q.qs| && k <= |q.qs[q.level[e]]| && !Has(q, e) && e < n
    ensures SQ.Valid(AddAt(q, e, k))
    ensures Members(AddAt(q, e, k), n) == Members(q, n) + {e}
    ensures forall x: nat :: x >= n ==> (Has(AddAt(q, e, k), x) <==> Has(q, x))
    ensures Total(AddAt(q, e, k).qs, n, 0) == Total(q.qs, n, 0) + 1
  {
    AddKeeps(q, e, k, n);
  }

  lemma MembersTake(q: Queue, e: nat, k: nat, n: nat)
    requires SQ.Valid(q) && e < n && e < |q.level| && q.level[e] < |q.qs|
    requires k < |q.qs[q.level[e]]| && q.qs[q.level[e]][k] == e
    ensures SQ.Valid(TakeAt(q, q.level[e], k))
    ensures Members(TakeAt(q, q.level[e], k), n) == Members(q, n) - {e} && !Has(TakeAt(q, q.level[e], k), e)
    ensures forall x: nat :: x >= n ==> (Has(TakeAt(q, q.level[e], k), x) <==> Has(q, x))
    ensures Total(TakeAt(q, q.level[e], k).qs, n, 0) == Total(q.qs, n, 0) - 1
  {
    TakeKeeps(q, q.level[e], k, n);
  }

  /** Levels may change for entries that are not in the queue. */
  lemma OtherLevels(q: Queue, level: seq<nat>)
    requires SQ.Valid(q) && |level| == |q.level|
    requires forall x: nat :: x < |level| && Has(q, x) ==> level[x] == q.level[x]
    ensures SQ.Valid(q.(level := level))
    ensures forall x: nat :: Has(q.(level := level), x) <==> Has(q, x)
  {
    var q' := q.(level := level);
    forall l: nat, x: nat
      ensures In(q', l, x) <==> In(q, l, x)
    {
    }
    forall l: nat, x: nat | In(q', l, x)
      ensures x < |q'.level| && q'.level[x] == l
    {
      assert In(q, l, x) && Has(q, x);
    }
    forall x: nat
      ensures Has(q', x) <==> Has(q, x)
    {
      if l: nat :| In(q, l, x) { assert In(q', l, x); }
      if l: nat :| In(q', l, x) { assert In(q, l, x); }
    }
  }

  /** Entries start at level 0; sentinels come in four rows of one per level. */
  function InitialLevels(n: nat, levels: nat): (s: seq<nat>)
    ensures |s| == n + 4 * levels
  {
    seq(n + 4 * levels, i requires 0 <= i < n + 4 * levels =>
      if i < n then 0
      else if i < n + levels then i - n
      else if i < n + 2 * levels then i - n - levels
      else if i < n + 3 * levels then i - n - 2 * levels
      else i - n - 3 * levels)
  }

  function InitialLists(first: nat, levels: nat): (qs: seq<seq<nat>>)
    ensures |qs| == levels
  {
    seq(levels, l requires 0 <= l < levels => [first + levels + l, first + l])
  }

  /** Lists that hold two sentinels per level, from the given row on, form an empty queue. */
  lemma InitialQueue(n: nat, levels: nat, row: nat)
    requires row == 0 || row == 2 * levels
    ensures var q := Queue(InitialLists(n + row, levels), InitialLevels(n, levels));
            && SQ.Valid(q) && Members(q, n) == {} && Total(q.qs, n, 0) == 0
            && (forall x: nat :: n + row <= x < n + row + 2 * levels ==> Has(q, x))
  {
    var q := Queue(InitialLists(n + row, levels), InitialLevels(n, levels));
    forall x: nat | n + row <= x < n + row + 2 * levels
      ensures Has(q, x)
    {
      var l := if x < n + row + levels then x - n - row else x - n - row - levels;
      assert q.qs[l][1] == n + row + l && q.qs[l][0] == n + row + levels + l;
      assert In(q, l, x);
    }
    NoItemsAnywhere(q.qs, n, 0);
  }

  // ---------------------------------------------------------------- one queue

  /** The entry number of a sentinel: two per level and queue. */
  function Sentinel(n: nat, levels: nat, l: nat, which: bool, writeback: bool): nat {
    n + (if which then l else levels + l) + (if writeback then 0 else 2 * levels)
  }

  /** Both sentinels of every level are in its list. */
  ghost predicate Marked(q: Queue, n: nat, levels: nat, writeback: bool) {
    forall l: nat, b: bool :: l < levels ==>
      && Sentinel(n, levels, l, b, writeback) < |q.level|
      && q.level[Sentinel(n, levels, l, b, writeback)] == l
      && Has(q, Sentinel(n, levels, l, b, writeback))
  }

  /** A well-formed queue with its counter. */
  ghost predicate QueueOk(q: Queue, nr: nat, n: nat, levels: nat, writeback: bool) {
    |q.qs| == levels && SQ.Valid(q) && nr == Total(q.qs, n, 0) && Marked(q, n, levels, writeback)
  }

  /** `q_del`: exactly that entry leaves. */
  lemma Deleted(q: Queue, nr: nat, e: nat, n: nat, levels: nat, writeback: bool) returns (k: nat, q': Queue)
    requires QueueOk(q, nr, n, levels, writeback) && Has(q, e) && e < n
    ensures e < |q.level| && q.level[e] < levels && k < |q.qs[q.level[e]]| && q.qs[q.level[e]][k] == e
    ensures q' == TakeAt(q, q.level[e], k) && nr > 0 && QueueOk(q', nr - 1, n, levels, writeback)
    ensures Members(q', n) == Members(q, n) - {e} && !Has(q', e) && SameBut(q.qs, q'.qs, e)
  {
    k := IndexOf(q, e);
    MembersTake(q, e, k, n);
    q' := TakeAt(q, q.level[e], k);
    WithoutRemoved(q.qs[q.level[e]], k);
  }

  /** `q_push` and `q_push_front`: the entry joins its level at the back or at the front. */
  lemma Pushed(q: Queue, nr: nat, e: nat, front: bool, n: nat, levels: nat, writeback: bool) returns (k: nat, q': Queue)
    requires QueueOk(q, nr, n, levels, writeback) && !Has(q, e) && e < n && e < |q.level| && q.level[e] < levels
    ensures k == (if front then 0 else |q.qs[q.level[e]]|) && q' == AddAt(q, e, k)
    ensures QueueOk(q', nr + 1, n, levels, writeback) && Members(q', n) == Members(q, n) + {e}
    ensures SameBut(q.qs, q'.qs, e) && AtEnd(q'.qs[q.level[e]], e, front)
  {
    k := if front then 0 else |q.qs[q.level[e]]|;
    MembersAdd(q, e, k, n);
    q' := AddAt(q, e, k);
    assert !In(q, q.level[e], e);
    WithoutInserted(q.qs[q.level[e]], k, e);
  }

  /** Levels may change for entries that are not in the queue. */
  lemma LevelsElsewhere(q: Queue, nr: nat, level: seq<nat>, n: nat, levels: nat, writeback: bool)
    requires QueueOk(q, nr, n, levels, writeback) && |level| == |q.level|
    requires forall x: nat :: x < |level| && Has(q, x) ==> level[x] == q.level[x]
    ensures QueueOk(q.(level := level), nr, n, levels, writeback)
    ensures Members(q.(level := level), n) == Members(q, n)
  {
    OtherLevels(q, level);
  }

  // ---------------------------------------------------------------- the whole policy

  /** Everything the policy records: entries and their levels, the allocator, the two queues
      with their counters, the entries in the hash table, and the background work. */
  datatype State = State(es: seq<Entry>, level: seq<nat>, free: seq<nat>, nrAllocated: nat,
                         clean: seq<seq<nat>>, nrClean: nat, dirty: seq<seq<nat>>, nrDirty: nat,
                         table: set<nat>, works: set<Work>)

  function TheQueue(st: State, dirty: bool): Queue {
    Queue(if dirty then st.dirty else st.clean, st.level)
  }

  function Counter(st: State, dirty: bool): nat {
    if dirty then st.nrDirty else st.nrClean
  }

  function WithQueue(st: State, dirty: bool, q: Queue, nr: nat): State {
    if dirty then st.(dirty := q.qs, nrDirty := nr, level := q.level)
    else st.(clean := q.qs, nrClean := nr, level := q.level)
  }

  ghost function Places(st: State): Sets {
    Sets(Elements(st.free), Members(TheQueue(st, false), |st.es|), Members(TheQueue(st, true), |st.es|), st.table,
         st.works)
  }

  /** The mapping the policy maintains: cache blocks to origin blocks. */
  ghost function Mapping(st: State): map<nat, nat> {
    MapOf(st.table, st.es)
  }

  ghost function MapOf(table: set<nat>, es: seq<Entry>): map<nat, nat> {
    map c | c in table && c < |es| :: es[c].oblock
  }

  /** What changing one entry, or adding or dropping it, does to the mapping. */
  lemma MapChange(table: set<nat>, es: seq<Entry>, e: nat, x: Entry)
    requires e < |es|
    ensures e !in table || x.oblock == es[e].oblock ==> MapOf(table, es[e := x]) == MapOf(table, es)
    ensures MapOf(table + {e}, es[e := x]) == MapOf(table, es)[e := x.oblock]
    ensures MapOf(table - {e}, es[e := x]) == MapOf(table, es) - {e}
  {
  }

  ghost predicate QueuesOk(st: State) {
    && QueueOk(TheQueue(st, false), st.nrClean, |st.es|, |st.clean|, false)
    && QueueOk(TheQueue(st, true), st.nrDirty, |st.es|, |st.clean|, true)
  }

  ghost predicate LevelsOk(st: State) {
    && |st.es| <= |st.level| && 0 < |st.clean|
    && forall x :: 0 <= x < |st.es| ==> st.level[x] < |st.clean|
  }

  /** The allocator's free list has no repetitions and its counter is exact. */
  ghost predicate AllocatorOk(st: State) {
    NoDup(st.free) && st.nrAllocated + |st.free| == |st.es|
  }

  /** The invariant of the policy. */
  ghost predicate Sound(st: State) {
    LevelsOk(st) && QueuesOk(st) && AllocatorOk(st) && Good(st.es, Places(st))
  }

  // ---------------------------------------------------------------- links and chains

  /** The lists in the order they are threaded: the free entries, then the levels of both queues. */
  ghost function Lists(st: State): seq<seq<nat>> {
    [st.free] + st.clean + st.dirty
  }

  function Base(dirty: bool, levels: nat): nat {
    if dirty then 1 + levels else 1
  }

  /** One array of links spells out all the lists, no entry being in two of them. */
  ghost predicate Threaded(lists: seq<seq<nat>>, n: nat, all: nat, w: Weave)
    reads w, w.space.links
  {
    && w.Valid() && w.spelled == lists
    && Numbered(w.space.sentinel, n) && all == |w.space.sentinel| == w.space.links.Length
  }

  /** The chains of the hash table hold exactly the entries of the table, under the blocks they map. */
  ghost predicate Hashed(table: set<nat>, es: seq<Entry>, ht: HashTable)
    reads ht
  {
    && ht.Valid() && ht.Contents() == table && |ht.oblock| == |es|
    && forall i :: 0 <= i < |es| ==> ht.oblock[i] == es[i].oblock
  }

  lemma ListsSplice(st: State, dirty: bool, q: Queue, nr: nat)
    requires |st.clean| == |st.dirty| == |q.qs|
    ensures Base(dirty, |q.qs|) + |q.qs| <= |Lists(st)|
    ensures Splice(Lists(st), Base(dirty, |q.qs|), q.qs) == Lists(WithQueue(st, dirty, q, nr))
  {
  }

  lemma ListsFree(st: State, free: seq<nat>)
    ensures Lists(st)[0 := free] == Lists(st.(free := free))
  {
  }

  /** The lists of a state, with its levels and entries, are those threaded through w. */
  ghost predicate Carried(st: State, w: Weave)
    reads w, w.space.links
  {
    |st.clean| == |st.dirty| && Threaded(Lists(st), |st.es|, |st.level|, w)
  }

  lemma QueueHeld(st: State, dirty: bool, w: Weave)
    requires Carried(st, w)
    ensures Holds(w, Lists(st), Base(dirty, |st.clean|), TheQueue(st, dirty), |st.es|)
  {
    ListsSplice(st, dirty, TheQueue(st, dirty), Counter(st, dirty));
  }

  lemma QueueAdopted(st: State, dirty: bool, q: Queue, nr: nat, w: Weave)
    requires |q.qs| == |st.clean| == |st.dirty| && |q.level| == |w.space.sentinel|
    requires Holds(w, Lists(st), Base(dirty, |st.clean|), q, |st.es|)
    ensures Carried(WithQueue(st, dirty, q, nr), w)
  {
    ListsSplice(st, dirty, q, nr);
  }

  /** `q_del`: exactly that entry leaves, and is in no list then. */
  method Delete(w: Weave, ghost st: State, dirty: bool, e: nat, l: nat, levels: nat, n: nat) returns (ghost q: Queue)
    requires Carried(st, w) && n == |st.es| && levels == |st.clean| && e < n
    requires QueueOk(TheQueue(st, dirty), Counter(st, dirty), n, levels, dirty) && Has(TheQueue(st, dirty), e)
    requires e < |st.level| && l == st.level[e]
    modifies w, w.space.links
    ensures Counter(st, dirty) > 0 && Withdrawn(st, dirty, q, Counter(st, dirty) - 1, e) && !Has(q, e)
    ensures Carried(WithQueue(st, dirty, q, Counter(st, dirty) - 1), w) && Nowhere(w.spelled, e)
  {
    ghost var k;
    k, q := Deleted(TheQueue(st, dirty), Counter(st, dirty), e, n, levels, dirty);
    QueueHeld(st, dirty, w);
    Leave(w, Lists(st), Base(dirty, levels), TheQueue(st, dirty), e, l, k, n);
    QueueAdopted(st, dirty, q, Counter(st, dirty) - 1, w);
  }

  /** `q_requeue` by one level. */
  method Raise(w: Weave, ghost st: State, dirty: bool, level: seq<nat>, e: nat, marks: Sentinels, levels: nat, n: nat)
    returns (ghost q: Queue, level': seq<nat>)
    requires Carried(st, w) && n == |st.es| && levels == |st.clean| == |TheQueue(st, dirty).qs| && level == st.level
    requires QueueOk(TheQueue(st, dirty), Counter(st, dirty), n, levels, dirty) && Has(TheQueue(st, dirty), e)
    requires e < n && e < |level| && level[e] < levels && SentinelsAt(TheQueue(st, dirty), marks, level[e], n)
    modifies w, w.space.links
    ensures Holds(w, Lists(st), Base(dirty, levels), q, n) && q.level == level' && |level'| == |level|
    ensures Rearranged(TheQueue(st, dirty), q, n) && Requeued(TheQueue(st, dirty), q, e, 1, marks, n)
    ensures level'[e] == Raised(level[e], 1, levels)
  {
    QueueHeld(st, dirty, w);
    q, level' := Requeue(w, Lists(st), Base(dirty, levels), TheQueue(st, dirty), levels, level, e, 1, marks, n);
  }

  lemma PushedTo(st: State, dirty: bool, e: nat, front: bool) returns (k: nat, q: Queue)
    requires e < |st.es| && e < |st.level| && st.level[e] < |st.clean| && !Has(TheQueue(st, dirty), e)
    requires QueueOk(TheQueue(st, dirty), Counter(st, dirty), |st.es|, |st.clean|, dirty)
    ensures k == (if front then 0 else |TheQueue(st, dirty).qs[st.level[e]]|) && q == AddAt(TheQueue(st, dirty), e, k)
    ensures With(st, dirty, q, Counter(st, dirty) + 1, e, front)
  {
    k, q := Pushed(TheQueue(st, dirty), Counter(st, dirty), e, front, |st.es|, |st.clean|, dirty);
  }

  /** `q_push` and `q_push_front`: the entry joins the list of its level at the back or at the front. */
  method Push(w: Weave, ghost st: State, dirty: bool, e: nat, l: nat, front: bool, levels: nat, n: nat)
    returns (ghost q: Queue)
    requires Carried(st, w) && n == |st.es| && levels == |st.clean| && e < n
    requires QueueOk(TheQueue(st, dirty), Counter(st, dirty), n, levels, dirty) && !Has(TheQueue(st, dirty), e)
    requires e < |st.level| && l == st.level[e] < levels && Nowhere(w.spelled, e)
    modifies w, w.space.links
    ensures With(st, dirty, q, Counter(st, dirty) + 1, e, front)
    ensures Carried(WithQueue(st, dirty, q, Counter(st, dirty) + 1), w)
  {
    ghost var k;
    k, q := PushedTo(st, dirty, e, front);
    PushLinks(w, st, dirty, e, l, if front then Front else Back, k, levels, n);
  }

  method PushLinks(w: Weave, ghost st: State, dirty: bool, e: nat, l: nat, place: Place, ghost k: nat, levels: nat,
                   n: nat)
    requires Carried(st, w) && n == |st.es| && levels == |st.clean| == |st.dirty|
    requires e < |st.level| && l == st.level[e] < levels && Nowhere(w.spelled, e)
    requires k <= |TheQueue(st, dirty).qs[l]| && Fits(TheQueue(st, dirty).qs[l], place, k)
    modifies w, w.space.links
    ensures Carried(WithQueue(st, dirty, AddAt(TheQueue(st, dirty), e, k), Counter(st, dirty) + 1), w)
  {
    QueueHeld(st, dirty, w);
    Join(w, Lists(st), Base(dirty, levels), TheQueue(st, dirty), e, l, place, k, n);
    QueueAdopted(st, dirty, AddAt(TheQueue(st, dirty), e, k), Counter(st, dirty) + 1, w);
  }

  /** An entry that is neither free nor queued is in no list. */
  lemma InNoList(st: State, e: nat)
    requires e !in st.free && !Has(TheQueue(st, true), e) && !Has(TheQueue(st, false), e)
    ensures Nowhere(Lists(st), e)
  {
    forall i: nat
      ensures !Listed(Lists(st), i, e)
    {
      if 0 < i <= |st.clean| {
        assert !In(TheQueue(st, false), i - 1, e);
      } else if |st.clean| < i < |Lists(st)| {
        assert !In(TheQueue(st, true), i - 1 - |st.clean|, e);
      }
    }
  }

  lemma QueuesAreDisjoint(st: State, x: nat)
    requires Sound(st) && x < |st.es|
    ensures Has(TheQueue(st, false), x) ==> !Has(TheQueue(st, true), x)
    ensures Has(TheQueue(st, false), x) <==> x in Queued(st.es, false)
    ensures Has(TheQueue(st, true), x) <==> x in Queued(st.es, true)
  {
    assert x in Members(TheQueue(st, false), |st.es|) <==> Has(TheQueue(st, false), x);
    assert x in Members(TheQueue(st, true), |st.es|) <==> Has(TheQueue(st, true), x);
  }

  lemma NotFree(st: State, e: nat)
    requires Sound(st) && e < |st.es| && st.es[e].inUse
    ensures e !in st.free
  {
    assert e !in Elements(st.free);
  }

  /** The entry of a work item is allocated, pending, in no list, and hashed unless it is being
      promoted. */
  lemma Outside(st: State, v: Work)
    requires Sound(st) && v in st.works
    ensures v.cblock < |st.es| <= |st.level| && st.es[v.cblock].inUse && st.es[v.cblock].pending
    ensures st.level[v.cblock] < |st.clean| && st.nrAllocated > 0
    ensures !Has(TheQueue(st, true), v.cblock) && !Has(TheQueue(st, false), v.cblock) && Nowhere(Lists(st), v.cblock)
    ensures v.cblock in st.table <==> v.op != Promote
  {
    Waiting(st, v);
    NotFree(st, v.cblock);
    InNoList(st, v.cblock);
    SomeAllocated(st, v.cblock);
  }

  lemma SomeAllocated(st: State, e: nat)
    requires Sound(st) && e < |st.es| && st.es[e].inUse
    ensures st.nrAllocated > 0
  {
    NotFree(st, e);
    assert forall x :: x in st.free + [e] ==> x in Unallocated(st.es) + {e};
    FreeFits(st.free + [e], |st.es|);
  }

  lemma InTheTable(st: State, e: nat)
    requires Sound(st) && e in st.table
    ensures e < |st.es| && st.es[e].inUse
  {
  }

  lemma InTheQueue(st: State, e: nat)
    requires Sound(st) && e < |st.es| && st.es[e].inUse && !st.es[e].pending
    ensures e in st.table && Has(TheQueue(st, st.es[e].dirty), e) && st.nrAllocated > 0
  {
    QueuesAreDisjoint(st, e);
    SomeAllocated(st, e);
    assert e in Allocated(st.es) && e !in Pending(st.es);
    assert Reserved(st.works) <= Targets(st.works);
  }

  lemma InOneQueue(st: State, e: nat, to: bool)
    requires Sound(st) && e < |st.es| && st.es[e].inUse && !st.es[e].pending
    ensures QueueOk(TheQueue(st, st.es[e].dirty), Counter(st, st.es[e].dirty), |st.es|, |st.clean|, st.es[e].dirty)
    ensures QueueOk(TheQueue(st, to), Counter(st, to), |st.es|, |st.clean|, to)
    ensures Has(TheQueue(st, st.es[e].dirty), e) && !Has(TheQueue(st, !st.es[e].dirty), e)
    ensures e < |st.level| && st.level[e] < |st.clean|
  {
    QueuesAreDisjoint(st, e);
  }

  /** No two entries in the table map the same block. */
  ghost predicate Unique(st: State) {
    forall i, j ::
      i in st.table && j in st.table && i < |st.es| && j < |st.es| && st.es[i].oblock == st.es[j].oblock ==> i == j
  }

  lemma IsUnique(st: State)
    requires Sound(st)
    ensures Unique(st)
  {
  }

  lemma NotMapped(st: State, e: nat)
    requires Sound(st) && e < |st.es| && !st.es[e].inUse
    ensures Mapping(st) - {e} == Mapping(st)
  {
    assert e !in st.table;
  }

  lemma FreeIsEntry(st: State, k: nat)
    requires Sound(st) && k < |st.free|
    ensures st.free[k] < |st.es| <= |st.level|
  {
    assert st.free[k] in Elements(st.free);
  }

  lemma IsFree(st: State, e: nat) returns (k: nat)
    requires Sound(st) && e < |st.es| && !st.es[e].inUse
    ensures k < |st.free| && st.free[k] == e && e !in st.table
  {
    assert e in Elements(st.free);
    k :| 0 <= k < |st.free| && st.free[k] == e;
  }

  /** A queued entry is in one list of all: that of the level it records, in its queue. */
  lemma QueuedOnce(st: State, dirty: bool, e: nat)
    requires Sound(st) && e in Queued(st.es, dirty)
    ensures e < |st.level| && st.level[e] < |st.clean|
    ensures forall i: nat :: Listed(Lists(st), i, e) <==> i == Base(dirty, |st.clean|) + st.level[e]
  {
    QueuesAreDisjoint(st, e);
    var l: nat :| In(TheQueue(st, dirty), l, e);
    assert e !in Elements(st.free);
    forall i: nat
      ensures Listed(Lists(st), i, e) <==> i == Base(dirty, |st.clean|) + l
    {
      if 0 < i <= |st.clean| {
        assert In(TheQueue(st, false), i - 1, e) <==> Listed(Lists(st), i, e);
      } else if |st.clean| < i < |Lists(st)| {
        assert In(TheQueue(st, true), i - 1 - |st.clean|, e) <==> Listed(Lists(st), i, e);
      }
    }
  }

  lemma FreeOnce(st: State, e: nat)
    requires Sound(st) && e in Unallocated(st.es)
    ensures forall i: nat :: Listed(Lists(st), i, e) <==> i == 0
  {
    QueuesAreDisjoint(st, e);
    assert e in Elements(st.free);
    forall i: nat
      ensures Listed(Lists(st), i, e) <==> i == 0
    {
      if 0 < i <= |st.clean| {
        assert !In(TheQueue(st, false), i - 1, e);
      } else if |st.clean| < i < |Lists(st)| {
        assert !In(TheQueue(st, true), i - 1 - |st.clean|, e);
      }
    }
  }

  /** Reordering one queue, and the levels of its own entries with it, changes nothing else. */
  lemma Reordered(st: State, dirty: bool, q: Queue) returns (st': State)
    requires Sound(st) && Rearranged(TheQueue(st, dirty), q, |st.es|)
    ensures Sound(st') && Mapping(st') == Mapping(st)
    ensures st' == WithQueue(st, dirty, q, Counter(st, dirty))
  {
    var n, mine, other := |st.es|, TheQueue(st, dirty), TheQueue(st, !dirty);
    st' := WithQueue(st, dirty, q, Counter(st, dirty));
    forall x: nat | x < |q.level| && Has(other, x)
      ensures q.level[x] == st.level[x]
    {
      if x < n { QueuesAreDisjoint(st, x); }
    }
    LevelsElsewhere(other, Counter(st, !dirty), q.level, n, |st.clean|, !dirty);
    assert TheQueue(st', dirty) == q && TheQueue(st', !dirty) == other.(level := q.level);
    assert Members(q, n) == Members(mine, n);
    assert Places(st') == Places(st);
    forall x | 0 <= x < n
      ensures q.level[x] < |st.clean|
    {
      if l: nat :| In(q, l, x) { }
    }
  }

  /** An entry in neither queue may be given any level. */
  lemma Releveled(st: State, e: nat, l: nat)
    requires Sound(st) && e < |st.es| && l < |st.clean| && e !in Queued(st.es, false) && e !in Queued(st.es, true)
    ensures Sound(st.(level := st.level[e := l]))
    ensures !Has(TheQueue(st.(level := st.level[e := l]), true), e) &&
            !Has(TheQueue(st.(level := st.level[e := l]), false), e)
  {
    var level := st.level[e := l];
    var st' := st.(level := level);
    QueuesAreDisjoint(st, e);
    LevelsElsewhere(TheQueue(st, false), st.nrClean, level, |st.es|, |st.clean|, false);
    LevelsElsewhere(TheQueue(st, true), st.nrDirty, level, |st.es|, |st.clean|, true);
    assert TheQueue(st', false) == TheQueue(st, false).(level := level);
    assert TheQueue(st', true) == TheQueue(st, true).(level := level);
    assert Places(st') == Places(st);
    QueuesAreDisjoint(st', e);
  }

  /** What mapping a promoted entry at the top level asks for. */
  lemma PromotionReady(st: State, v: Work)
    requires Sound(st) && v in st.works && v.op == Promote
    ensures v.cblock < |st.es| <= |st.level| && v.cblock !in st.table && Nowhere(Lists(st), v.cblock) && |st.clean| > 0
    ensures var dirty, levels := st.es[v.cblock].dirty, |st.clean|;
            var q := TheQueue(st, dirty).(level := st.level[v.cblock := levels - 1]);
            QueueOk(q, Counter(st, dirty), |st.es|, levels, dirty) && !Has(q, v.cblock)
  {
    Outside(st, v);
    Releveled(st, v.cblock, |st.clean| - 1);
  }

  /** q is a queue of the state without entry e. */
  ghost predicate Withdrawn(st: State, dirty: bool, q: Queue, nr: nat, e: nat) {
    && QueueOk(q, nr, |st.es|, |st.clean|, dirty) && q.level == st.level
    && Members(q, |st.es|) == Members(TheQueue(st, dirty), |st.es|) - {e} && SameBut(TheQueue(st, dirty).qs, q.qs, e)
  }

  /** q is a queue of the state with entry e added at the front or at the back of its level. */
  ghost predicate With(st: State, dirty: bool, q: Queue, nr: nat, e: nat, front: bool) {
    && QueueOk(q, nr, |st.es|, |st.clean|, dirty) && q.level == st.level
    && Members(q, |st.es|) == Members(TheQueue(st, dirty), |st.es|) + {e} && SameBut(TheQueue(st, dirty).qs, q.qs, e)
    && e < |q.level| && q.level[e] < |q.qs| && AtEnd(q.qs[q.level[e]], e, front)
  }

  /** Only one entry, its level and its place in the lists and in the table differ. */
  ghost predicate OnlyEntry(st: State, st': State, e: nat) {
    && e < |st.es| == |st'.es| && st'.es == st.es[e := st'.es[e]]
    && e < |st.level| == |st'.level| && st'.level == st.level[e := st'.level[e]]
    && Without(st'.free, e) == Without(st.free, e)
    && SameBut(st.clean, st'.clean, e) && SameBut(st.dirty, st'.dirty, e)
    && st'.table - {e} == st.table - {e}
  }

  lemma FreeOnly(free: seq<nat>, e: nat)
    requires e !in free
    ensures Without(free + [e], e) == Without(free, e)
  {
    WithoutInserted(free, |free|, e);
    assert InsertAt(free, |free|, e) == free + [e];
  }

  /** One queue has changed in the place of an entry, and otherwise at most that entry, its place among
      the free ones and its place in the table have. */
  lemma QueueOnly(st: State, st': State, dirty: bool, q: Queue, nr: nat, e: nat)
    requires SameBut(TheQueue(st, dirty).qs, q.qs, e) && e < |st.es| == |st'.es| && e < |st.level| == |q.level|
    requires st'.es == st.es[e := st'.es[e]] && q.level == st.level[e := q.level[e]]
    requires Without(st'.free, e) == Without(st.free, e) && st'.table - {e} == st.table - {e}
    requires st' == WithQueue(st, dirty, q, nr).(es := st'.es, free := st'.free, table := st'.table,
                                                 nrAllocated := st'.nrAllocated, works := st'.works)
    ensures OnlyEntry(st, st', e)
  {
  }

  /** The same when the entry has left one queue, giving q0, and joined one, giving q1. */
  lemma QueueOnlyTwice(st: State, a: State, st': State, from: bool, q0: Queue, to: bool, q1: Queue, nr0: nat, nr1: nat,
                       e: nat)
    requires a == WithQueue(st, from, q0, nr0) && st' == WithQueue(a, to, q1, nr1).(es := st'.es)
    requires SameBut(TheQueue(st, from).qs, q0.qs, e) && SameBut(TheQueue(a, to).qs, q1.qs, e)
    requires e < |st.es| == |st'.es| && e < |st.level| && q0.level == q1.level == st.level
    requires st'.es == st.es[e := st'.es[e]]
    ensures OnlyEntry(st, st', e)
  {
    QueueOnly(st, a, from, q0, nr0, e);
    QueueOnly(a, st', to, q1, nr1, e);
  }

  /** An entry stands at the front or at the back of its level, in the queue its dirty bit names. */
  ghost predicate Stands(st: State, e: nat, front: bool) {
    && e < |st.es| && e < |st.level|
    && var qs := TheQueue(st, st.es[e].dirty).qs;
       st.level[e] < |qs| && AtEnd(qs[st.level[e]], e, front)
  }

  /** An entry that left a queue has come back to it. */
  lemma PutBack(st: State, dirty: bool, q0: Queue, nr0: nat, q: Queue, nr: nat, e: nat) returns (st': State)
    requires Sound(st) && e in Queued(st.es, dirty)
    requires Withdrawn(st, dirty, q0, nr0, e) && With(WithQueue(st, dirty, q0, nr0), dirty, q, nr, e, true)
    ensures Sound(st') && Mapping(st') == Mapping(st)
    ensures st' == WithQueue(st, dirty, q, nr)
  {
    st' := WithQueue(st, dirty, q, nr);
    QueuesAreDisjoint(st, e);
    assert TheQueue(WithQueue(st, dirty, q0, nr0), dirty) == q0;
    assert TheQueue(st', dirty) == q && TheQueue(st', !dirty) == TheQueue(st, !dirty);
    assert Places(st') == Places(st);
  }

  /** A demotion or writeback is queued. */
  lemma WorkStarted(st: State, e: nat, op: Op, q: Queue, nr: nat) returns (st': State)
    requires Sound(st) && op != Promote && e in Queued(st.es, op == Writeback)
    requires Withdrawn(st, op == Writeback, q, nr, e)
    ensures Sound(st') && Mapping(st') == Mapping(st)
    ensures st' == WithQueue(st, op == Writeback, q, nr).(es := st.es[e := st.es[e].(pending := true)],
                                                         works := st.works + {Work(op, st.es[e].oblock, e)})
  {
    var w := Work(op, st.es[e].oblock, e);
    st' := WithQueue(st, op == Writeback, q, nr).(es := st.es[e := st.es[e].(pending := true)],
                                                  works := st.works + {w});
    StartWork(st.es, Places(st), e, op);
    assert TheQueue(st', op == Writeback) == q;
    assert TheQueue(st', op != Writeback) == TheQueue(st, op != Writeback);
    var s := Places(st);
    assert Places(st') == s.(clean := s.clean - {e}, dirty := s.dirty - {e}, works := s.works + {w}) by {
      if op == Writeback { assert e !in s.clean; } else { assert e !in s.dirty; }
    }
    MapChange(st.table, st.es, e, st'.es[e]);
  }

  /** The entry of a work item is allocated, pending and in no queue. */
  lemma Waiting(st: State, w: Work)
    requires Sound(st) && w in st.works
    ensures w.cblock < |st.es| && st.es[w.cblock].inUse && st.es[w.cblock].pending
    ensures !Has(TheQueue(st, true), w.cblock) && !Has(TheQueue(st, false), w.cblock)
    ensures w.cblock in st.table <==> w.op != Promote
  {
    assert w.cblock in Targets(st.works);
    assert w.cblock in Pending(st.es);
    QueuesAreDisjoint(st, w.cblock);
    if w.op != Promote {
      DropWork(st.works, w);
    } else {
      assert w.cblock in Reserved(st.works);
    }
  }

  /** A list holds the sentinels of its level. */
  lemma SentinelsFound(q: Queue, nr: nat, n: nat, levels: nat, l: nat, marks: Sentinels)
    requires marks.Sentinels? ==> QueueOk(q, nr, n, levels, true) && l < levels
    requires marks.Sentinels? ==>
               exists b ::
                 && marks.first == Sentinel(n, levels, l, b, true)
                 && marks.second == Sentinel(n, levels, l, !b, true)
    ensures SentinelsAt(q, marks, l, n)
  {
    if marks.Sentinels? {
      var m: nat :| In(q, m, marks.first);
      var m': nat :| In(q, m', marks.second);
      assert q.level[marks.first] == l && q.level[marks.second] == l;
    }
  }

  /** The sentinels of a level of the dirty queue: the other one, then the current one. */
  function MarksOf(n: nat, levels: nat, l: nat, dirty: bool, current: bool): Sentinels {
    if dirty then Sentinels(Sentinel(n, levels, l, !current, true), Sentinel(n, levels, l, current, true))
    else NoSentinels
  }

  /** What re-queueing asks of an entry holds of one that has no work pending. */
  lemma Touchable(st: State, e: nat, current: bool)
    requires Sound(st) && e < |st.es| && st.es[e].inUse && !st.es[e].pending
    ensures var dirty, levels := st.es[e].dirty, |st.clean|;
            var q := TheQueue(st, dirty);
            && e < |st.level| && st.level[e] < levels && Has(q, e)
            && QueueOk(q, Counter(st, dirty), |st.es|, levels, dirty)
            && SentinelsAt(q, MarksOf(|st.es|, levels, st.level[e], dirty, current), st.level[e], |st.es|)
  {
    var dirty, levels := st.es[e].dirty, |st.clean|;
    InTheQueue(st, e);
    SentinelsFound(TheQueue(st, dirty), Counter(st, dirty), |st.es|, levels, st.level[e],
                   MarksOf(|st.es|, levels, st.level[e], dirty, current));
  }

  /** An entry was re-queued one level up, around the sentinels of its level if it is dirty; nothing else
      has changed. */
  ghost predicate Lifted(st: State, st': State, e: nat, current: bool) {
    && e < |st.es| && e < |st.level| && e < |st'.level|
    && st'.level[e] == (if st.level[e] + 1 < |st.clean| then st.level[e] + 1 else |st.clean| - 1)
    && var dirty := st.es[e].dirty;
    && Requeued(TheQueue(st, dirty), TheQueue(st', dirty), e, 1,
                MarksOf(|st.es|, |st.clean|, st.level[e], dirty, current), |st.es|)
    && st' == WithQueue(st, dirty, TheQueue(st', dirty), Counter(st, dirty))
  }

  lemma Touched(st: State, e: nat, q: Queue, current: bool) returns (st': State)
    requires Sound(st) && e < |st.es| && Rearranged(TheQueue(st, st.es[e].dirty), q, |st.es|)
    requires e < |st.level| && e < |q.level| && q.level[e] == Raised(st.level[e], 1, |st.clean|)
    requires Requeued(TheQueue(st, st.es[e].dirty), q, e, 1,
                      MarksOf(|st.es|, |st.clean|, st.level[e], st.es[e].dirty, current), |st.es|)
    ensures Sound(st') && Mapping(st') == Mapping(st) && Lifted(st, st', e, current)
    ensures st' == WithQueue(st, st.es[e].dirty, q, Counter(st, st.es[e].dirty))
  {
    st' := Reordered(st, st.es[e].dirty, q);
    assert TheQueue(st', st.es[e].dirty) == q;
  }

  lemma FreeTaken(free: seq<nat>, k: nat)
    requires NoDup(free) && k < |free|
    ensures NoDup(RemoveAt(free, k)) && Elements(RemoveAt(free, k)) == Elements(free) - {free[k]}
  {
    NoDupRemove(free, k);
    forall x: nat
      ensures x in RemoveAt(free, k) <==> x in free && x != free[k]
    {
      RemoveAtMembers(free, k, x);
    }
  }

  lemma FreeGiven(free: seq<nat>, e: nat)
    requires NoDup(free) && e !in free
    ensures NoDup(free + [e]) && Elements(free + [e]) == Elements(free) + {e}
  {
  }

  /** A free entry is reserved for a promotion. */
  lemma PromotionStarted(st: State, k: nat, oblock: nat) returns (st': State)
    requires Sound(st) && k < |st.free| && oblock !in Mapped(st)
    ensures st.free[k] < |st.es|
    ensures Sound(st') && Mapping(st') == Mapping(st)
    ensures var e := st.free[k];
            st' == st.(es := st.es[e := st.es[e].(dirty := true, inUse := true, pending := true)],
                       level := st.level[e := 0],
                   free := RemoveAt(st.free, k), nrAllocated := st.nrAllocated + 1,
                   works := st.works + {Work(Promote, oblock, e)})
  {
    var e := st.free[k];
    assert e in Elements(st.free);
    Releveled(st, e, 0);
    var a := st.(level := st.level[e := 0]);
    assert Places(a).free == Places(st).free;
    FreeTaken(st.free, k);
    assert forall j :: j in st.table && j < |st.es| ==> st.es[j].oblock in Mapped(st);
    StartPromotion(st.es, Places(a), e, oblock);
    st' := a.(es := st.es[e := st.es[e].(dirty := true, inUse := true, pending := true)],
                  free := RemoveAt(st.free, k), nrAllocated := st.nrAllocated + 1,
                  works := st.works + {Work(Promote, oblock, e)});
    assert TheQueue(st', true) == TheQueue(a, true) && TheQueue(st', false) == TheQueue(a, false);
    assert Places(st') == Places(a).(free := Places(a).free - {e}, works := st.works + {Work(Promote, oblock, e)});
    MapChange(st.table, st.es, e, st'.es[e]);
  }

  /** Origin blocks in the hash table. */
  ghost function Mapped(st: State): set<nat> {
    set i | i in st.table && i < |st.es| :: st.es[i].oblock
  }

  /** A promotion the tracker refuses sends its entry from the head of the free list to the tail. */
  lemma PromotionRefused(st: State, k: nat) returns (st': State)
    requires Sound(st) && k < |st.free|
    ensures st.free[k] < |st.es|
    ensures Sound(st') && Mapping(st') == Mapping(st)
    ensures var e := st.free[k];
            st' == st.(es := st.es[e := st.es[e].(dirty := true, inUse := false, pending := true)],
                       level := st.level[e := 0],
                   free := RemoveAt(st.free, k) + [e])
  {
    var e := st.free[k];
    assert e in Elements(st.free);
    Releveled(st, e, 0);
    var a := st.(level := st.level[e := 0]);
    FreeTaken(st.free, k);
    assert e !in Elements(RemoveAt(st.free, k));
    FreeGiven(RemoveAt(st.free, k), e);
    st' := a.(es := st.es[e := st.es[e].(dirty := true, inUse := false, pending := true)],
                  free := RemoveAt(st.free, k) + [e]);
    assert TheQueue(st', true) == TheQueue(a, true) && TheQueue(st', false) == TheQueue(a, false);
    assert Places(st') == Places(a);
    FreeFields(st.es, Places(a), e, st'.es[e]);
    MapChange(st.table, st.es, e, st'.es[e]);
  }

  /** A promotion succeeds: its entry enters the hash table, and the top level of its queue. */
  lemma PromotionFinished(st: State, w: Work, q: Queue, nr: nat) returns (st': State)
    requires Sound(st) && DistinctWork(st.works) && w in st.works && w.op == Promote
    requires w.cblock < |st.es| <= |st.level|
    requires With(st.(level := st.level[w.cblock := |st.clean| - 1]), st.es[w.cblock].dirty, q, nr, w.cblock, false)
    ensures Sound(st') && Mapping(st') == Mapping(st)[w.cblock := w.oblock]
    ensures var e := w.cblock;
            st' == WithQueue(st, st.es[e].dirty, q, nr).(
                 es := st.es[e := st.es[e].(oblock := w.oblock, pending := false)],
                 table := st.table + {e}, works := st.works - {w})
  {
    var e, dirty := w.cblock, st.es[w.cblock].dirty;
    assert e in Targets(st.works);
    assert e in Pending(st.es);
    Releveled(st, e, |st.clean| - 1);
    var a := st.(level := st.level[e := |st.clean| - 1]);
    FinishPromotion(st.es, Places(a), w);
    st' := WithQueue(st, dirty, q, nr).(es := st.es[e := st.es[e].(oblock := w.oblock, pending := false)],
                                            table := st.table + {e}, works := st.works - {w});
    assert TheQueue(st', dirty) == q && TheQueue(st', !dirty) == TheQueue(a, !dirty);
    assert Places(st') == Enqueue(Places(a).(table := st.table + {e}, works := st.works - {w}), e, dirty);
    MapChange(st.table, st.es, e, st'.es[e]);
  }

  /** A demotion succeeds or a promotion fails: the entry is free again. */
  lemma EntryReleased(st: State, w: Work, pending: bool) returns (st': State)
    requires Sound(st) && w in st.works && w.op != Writeback
    ensures w.cblock < |st.es| && st.nrAllocated > 0
    ensures Sound(st') && Mapping(st') == Mapping(st) - {w.cblock}
    ensures var e := w.cblock;
            st' == st.(es := st.es[e := st.es[e].(inUse := false, pending := pending)], free := st.free + [e],
                   nrAllocated := st.nrAllocated - 1, table := st.table - {e}, works := st.works - {w})
  {
    var e := w.cblock;
    assert e in Targets(st.works);
    assert e in Pending(st.es);
    assert e !in Elements(st.free);
    FreeGiven(st.free, e);
    assert forall x :: x in st.free + [e] ==> x in Unallocated(st.es) + {e};
    FreeFits(st.free + [e], |st.es|);
    ReleaseEntry(st.es, Places(st), w);
    st' := st.(es := st.es[e := st.es[e].(inUse := false, pending := pending)], free := st.free + [e],
                   nrAllocated := st.nrAllocated - 1, table := st.table - {e}, works := st.works - {w});
    assert TheQueue(st', true) == TheQueue(st, true) && TheQueue(st', false) == TheQueue(st, false);
    assert Places(st') == Places(st).(free := Places(st).free + {e}, table := st.table - {e}, works := st.works - {w});
    MapChange(st.table, st.es, e, st'.es[e]);
  }

  /** A list without repetitions of numbers below n has at most n of them. */
  lemma {:induction false} FreeFits(s: seq<nat>, n: nat)
    requires NoDup(s) && forall x :: x in s ==> x < n
    ensures |s| <= n
  {
    if n == 0 {
      assert forall k :: 0 <= k < |s| ==> s[k] in s;
    } else if n - 1 in s {
      var k :| 0 <= k < |s| && s[k] == n - 1;
      NoDupRemove(s, k);
      forall x: nat
        ensures x in RemoveAt(s, k) <==> x in s && x != s[k]
      {
        RemoveAtMembers(s, k, x);
      }
      FreeFits(RemoveAt(s, k), n - 1);
    } else {
      FreeFits(s, n - 1);
    }
  }

  /** A writeback ends or a demotion fails: the entry goes to the queue its dirty bit now names. */
  lemma EntryReturned(st: State, w: Work, q: Queue, nr: nat) returns (st': State)
    requires Sound(st) && w in st.works && w.op != Promote && w.cblock < |st.es|
    requires With(st, st.es[w.cblock].dirty, q, nr, w.cblock, false)
    ensures Sound(st') && Mapping(st') == Mapping(st)
    ensures var e := w.cblock;
            st' == WithQueue(st, st.es[e].dirty, q, nr).(
                 es := st.es[e := st.es[e].(pending := false)], works := st.works - {w})
  {
    var e, dirty := w.cblock, st.es[w.cblock].dirty;
    ReturnEntry(st.es, Places(st), w);
    st' := WithQueue(st, dirty, q, nr).(es := st.es[e := st.es[e].(pending := false)], works := st.works - {w});
    assert TheQueue(st', dirty) == q && TheQueue(st', !dirty) == TheQueue(st, !dirty);
    assert Places(st') == Enqueue(Places(st).(works := st.works - {w}), e, dirty);
    MapChange(st.table, st.es, e, st'.es[e]);
  }

  /** A dirty bit changes.  A queued entry leaves its queue, giving q0, and joins the back of the
      one the new bit names, giving q1; the two queues may be the same. */
  lemma DirtyMoved(st: State, e: nat, dirty: bool, q0: Queue, nr0: nat, q1: Queue, nr1: nat) returns (st': State)
    requires Sound(st) && e < |st.es| && st.es[e].inUse && !st.es[e].pending
    requires Withdrawn(st, st.es[e].dirty, q0, nr0, e)
    requires With(WithQueue(st, st.es[e].dirty, q0, nr0), dirty, q1, nr1, e, false)
    ensures Sound(st') && Mapping(st') == Mapping(st)
    ensures var a := WithQueue(st, st.es[e].dirty, q0, nr0);
            st' == WithQueue(a, dirty, q1, nr1).(es := st.es[e := st.es[e].(dirty := dirty)])
  {
    var a := WithQueue(st, st.es[e].dirty, q0, nr0);
    st' := WithQueue(a, dirty, q1, nr1).(es := st.es[e := st.es[e].(dirty := dirty)]);
    ChangeDirty(st.es, Places(st), e, dirty);
    assert TheQueue(st', dirty) == q1;
    assert TheQueue(a, st.es[e].dirty) == q0 && TheQueue(a, !st.es[e].dirty) == TheQueue(st, !st.es[e].dirty);
    assert TheQueue(st', !dirty) == TheQueue(a, !dirty);
    var s := Places(st);
    assert Places(st') == Enqueue(s.(clean := s.clean - {e}, dirty := s.dirty - {e}), e, dirty) by {
      QueuesAreDisjoint(st, e);
    }
    MapChange(st.table, st.es, e, st'.es[e]);
  }

  lemma DirtyNoted(st: State, e: nat, dirty: bool) returns (st': State)
    requires Sound(st) && e < |st.es| && st.es[e].inUse && st.es[e].pending
    ensures Sound(st') && Mapping(st') == Mapping(st)
    ensures st' == st.(es := st.es[e := st.es[e].(dirty := dirty)])
  {
    st' := st.(es := st.es[e := st.es[e].(dirty := dirty)]);
    ChangeDirty(st.es, Places(st), e, dirty);
    assert TheQueue(st', true) == TheQueue(st, true) && TheQueue(st', false) == TheQueue(st, false);
    MapChange(st.table, st.es, e, st'.es[e]);
  }

  /** A mapping is loaded into a particular free entry. */
  lemma EntryLoaded(st: State, k: nat, oblock: nat, dirty: bool, l: nat, q: Queue, nr: nat) returns (st': State)
    requires Sound(st) && k < |st.free| && st.free[k] < |st.es| <= |st.level| && l < |st.clean|
    requires oblock !in Mapped(st) && forall w :: w in st.works ==> w.oblock != oblock
    requires With(st.(level := st.level[st.free[k] := l]), dirty, q, nr, st.free[k], true)
    ensures Sound(st') && Mapping(st') == Mapping(st)[st.free[k] := oblock]
    ensures var e := st.free[k];
            st' == WithQueue(st, dirty, q, nr).(es := st.es[e := Entry(oblock, dirty, true, false)],
                 free := RemoveAt(st.free, k), nrAllocated := st.nrAllocated + 1, table := st.table + {e})
  {
    var e := st.free[k];
    assert e in Elements(st.free);
    Releveled(st, e, l);
    var a := st.(level := st.level[e := l]);
    assert e in Places(a).free;
    FreeTaken(st.free, k);
    assert forall j :: j in st.table && j < |st.es| ==> st.es[j].oblock in Mapped(st);
    LoadEntry(st.es, Places(a), e, oblock, dirty);
    st' := WithQueue(st, dirty, q, nr).(es := st.es[e := Entry(oblock, dirty, true, false)],
                 free := RemoveAt(st.free, k), nrAllocated := st.nrAllocated + 1, table := st.table + {e});
    assert TheQueue(st', dirty) == q && TheQueue(st', !dirty) == TheQueue(a, !dirty);
    assert Places(st') == Enqueue(Places(a).(free := Places(a).free - {e}, table := st.table + {e}), e, dirty);
    MapChange(st.table, st.es, e, st'.es[e]);
  }

  /** A mapping without pending work is invalidated. */
  lemma EntryInvalidated(st: State, e: nat, q: Queue, nr: nat) returns (st': State)
    requires Sound(st) && e < |st.es| && st.es[e].inUse && !st.es[e].pending && Withdrawn(st, st.es[e].dirty, q, nr, e)
    ensures st.nrAllocated > 0
    ensures Sound(st') && Mapping(st') == Mapping(st) - {e}
    ensures st' == WithQueue(st, st.es[e].dirty, q, nr).(es := st.es[e := st.es[e].(inUse := false)],
                 free := st.free + [e], nrAllocated := st.nrAllocated - 1, table := st.table - {e})
  {
    var dirty := st.es[e].dirty;
    assert e !in Elements(st.free);
    FreeGiven(st.free, e);
    assert forall x :: x in st.free + [e] ==> x in Unallocated(st.es) + {e};
    FreeFits(st.free + [e], |st.es|);
    InvalidateEntry(st.es, Places(st), e);
    QueuesAreDisjoint(st, e);
    st' := WithQueue(st, dirty, q, nr).(es := st.es[e := st.es[e].(inUse := false)],
                 free := st.free + [e], nrAllocated := st.nrAllocated - 1, table := st.table - {e});
    assert TheQueue(st', dirty) == q && TheQueue(st', !dirty) == TheQueue(st, !dirty);
    var s := Places(st);
    assert Places(st') == s.(free := s.free + {e}, clean := s.clean - {e}, dirty := s.dirty - {e},
                             table := s.table - {e});
    MapChange(st.table, st.es, e, st'.es[e]);
  }

  /** What is left of a state when an entry has been taken for free: whatever became of the lists, of
      the table and of the counters. */
  ghost predicate Freed(st: State, st': State, e: nat) {
    e < |st.es| && st'.es == st.es[e := st.es[e].(inUse := false)] && st'.works == st.works
  }

  /** Freeing an allocated entry can lead to a good state if and only if no work on it is pending. */
  lemma InvalidateWhen(st: State, e: nat)
    requires Sound(st) && e < |st.es| && st.es[e].inUse
    ensures (exists st' :: Freed(st, st', e) && Sound(st')) <==> !st.es[e].pending
  {
    if st.es[e].pending {
      forall st' | Freed(st, st', e)
        ensures !Sound(st')
      {
        assert e in Pending(st.es) && e !in Pending(st'.es);
      }
    } else {
      InTheQueue(st, e);
      var k, q := Deleted(TheQueue(st, st.es[e].dirty), Counter(st, st.es[e].dirty), e, |st.es|, |st.clean|,
                          st.es[e].dirty);
      var st' := EntryInvalidated(st, e, q, Counter(st, st.es[e].dirty) - 1);
      assert Freed(st, st', e);
    }
  }

  lemma EmptyIsGood(es: seq<Entry>, free: seq<nat>, s: Sets)
    requires forall i :: 0 <= i < |es| ==> !es[i].inUse
    requires |free| == |es| && forall i :: 0 <= i < |free| ==> free[i] == i
    requires s == Sets(Elements(free), {}, {}, {}, {})
    ensures Good(es, s)
  {
    forall x | x in Unallocated(es)
      ensures x in Elements(free)
    {
      assert free[x] == x;
    }
  }

  lemma InitialOk(n: nat, levels: nat, writeback: bool)
    ensures var q := Queue(InitialLists(if writeback then n else n + 2 * levels, levels), InitialLevels(n, levels));
            QueueOk(q, 0, n, levels, writeback) && Members(q, n) == {}
  {
    InitialQueue(n, levels, if writeback then 0 else 2 * levels);
  }

  /** An empty cache with its sentinels in place is a good state. */
  lemma Initially(st: State, levels: nat)
    requires levels > 0 && st.works == {} && st.table == {}
    requires forall i :: 0 <= i < |st.es| ==> !st.es[i].inUse
    requires st.level == InitialLevels(|st.es|, levels)
    requires |st.free| == |st.es| && (forall i :: 0 <= i < |st.free| ==> st.free[i] == i) && st.nrAllocated == 0
    requires st.dirty == InitialLists(|st.es|, levels) && st.nrDirty == 0
    requires st.clean == InitialLists(|st.es| + 2 * levels, levels) && st.nrClean == 0
    ensures Sound(st)
  {
    InitialOk(|st.es|, levels, true);
    InitialOk(|st.es|, levels, false);
    EmptyIsGood(st.es, st.free, Places(st));
  }

  lemma {:induction false} NoItemsAnywhere(qs: seq<seq<nat>>, n: nat, from: nat)
    requires from <= |qs| && forall l :: 0 <= l < |qs| ==> forall i :: 0 <= i < |qs[l]| ==> qs[l][i] >= n
    ensures Total(qs, n, from) == 0
    decreases |qs| - from
  {
    if from < |qs| {
      NoItemsLeft(qs[from], n);
      NoItemsAnywhere(qs, n, from + 1);
    }
  }

  lemma OneLoaded(levels: nat) returns (st: State)
    requires levels > 0
    ensures Sound(st) && st.es == [Entry(0, false, true, false)] && st.works == {}
    ensures |st.clean| == levels && st.nrClean == 1
  {
    var level := InitialLevels(1, levels);
    st := State([Entry(0, false, false, false)], level, [0], 0, InitialLists(1 + 2 * levels, levels), 0,
                InitialLists(1, levels), 0, {}, {});
    Initially(st, levels);
    assert 0 in Elements(st.free);
    QueuesAreDisjoint(st, 0);
    var clean := Queue(st.clean, level[0 := 0]);
    LevelsElsewhere(TheQueue(st, false), 0, level[0 := 0], 1, levels, false);
    assert clean == TheQueue(st, false).(level := level[0 := 0]);
    var k, q := Pushed(clean, 0, 0, true, 1, levels, false);
    st := EntryLoaded(st, 0, 0, false, 0, q, 1);
  }

  /** A cache of one entry: block 0 is loaded, clean, and its demotion is queued.  However the entry is
      then freed, no good state results. */
  lemma PendingHasNoOutcome(levels: nat) returns (st: State)
    requires levels > 0
    ensures Sound(st) && st.es == [Entry(0, false, true, true)] && st.works == {Work(Demote, 0, 0)}
    ensures forall st' :: Freed(st, st', 0) ==> !Sound(st')
  {
    st := OneLoaded(levels);
    assert 0 in Queued(st.es, false);
    InTheQueue(st, 0);
    var k, q := Deleted(TheQueue(st, false), 1, 0, 1, levels, false);
    st := WorkStarted(st, 0, Demote, q, 0);
    InvalidateWhen(st, 0);
  }
}
