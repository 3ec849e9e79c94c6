/** The deferred set of bio-prison v1: a ring of 64 entries.  Reads in flight are counted in the
    entry current when they began; work is kept in the entry current when it was added, until
    the reads of that entry and of all older ones are over.

    Reads are numbered in the order they begin, and a work item records the reads in flight when
    it was added; the source only counts reads.
 */
module DeferredSet {

  const SIZE: nat := 64             // DEFERRED_SET_SIZE

  datatype Work = Work(id: nat, blockers: set<nat>)

  datatype Ring = Ring(count: seq<nat>, work: seq<seq<Work>>, flying: seq<set<nat>>, sweeper: nat, current: nat,
                       next: nat)

  function DsNext(i: nat): nat {
    (i + 1) % SIZE
  }

  /** How far an entry is behind the sweeper, going round the ring. */
  function Age(r: Ring, i: nat): int {
    if i >= r.sweeper then i - r.sweeper else i + SIZE - r.sweeper
  }

  ghost predicate Shaped(r: Ring) {
    && |r.count| == |r.work| == |r.flying| == SIZE && r.sweeper < SIZE && r.current < SIZE
    && forall i :: 0 <= i < SIZE ==> r.count[i] == |r.flying[i]|
  }

  predicate BlockedBy(work: seq<Work>, x: nat) {
    exists w :: w in work && x in w.blockers
  }

  /** Entries past the current one are empty. */
  ghost predicate EmptyPastCurrent(r: Ring)
    requires Shaped(r)
  {
    forall i :: 0 <= i < SIZE && Age(r, i) > Age(r, r.current) ==> r.flying[i] == {} && r.work[i] == []
  }

  /** A read in flight that blocks a work item is in that item's entry or an older one. */
  ghost predicate BlockersAreOlder(r: Ring)
    requires Shaped(r)
  {
    forall i, j, x :: 0 <= i < SIZE && 0 <= j < SIZE && x in r.flying[j] && BlockedBy(r.work[i], x) ==>
        Age(r, j) <= Age(r, i)
  }

  /** Numbers of reads are given out in order, and each is in one entry. */
  ghost predicate Numbered(r: Ring)
    requires Shaped(r)
  {
    && (forall i, x :: 0 <= i < SIZE && x in r.flying[i] ==> x < r.next)
    && (forall i, j, x :: 0 <= i < SIZE && 0 <= j < SIZE && x in r.flying[i] && x in r.flying[j] ==> i == j)
    && (forall i, x: nat :: 0 <= i < SIZE && BlockedBy(r.work[i], x) ==> x < r.next)
  }

  ghost predicate Ordered(r: Ring) {
    Shaped(r) && EmptyPastCurrent(r) && BlockersAreOlder(r) && Numbered(r)
  }

  /** Moreover the sweeper stops at an entry with reads, or at the current one. */
  ghost predicate Valid(r: Ring) {
    && Ordered(r)
    && (r.sweeper != r.current ==> r.count[r.sweeper] > 0)
  }

  function InFlight(r: Ring): set<nat> {
    Union(r.flying)
  }

  function Union(sets: seq<set<nat>>): set<nat> {
    set i, x | 0 <= i < |sets| && x in sets[i] :: x
  }

  lemma UnionIs(sets: seq<set<nat>>, x: nat)
    ensures x in Union(sets) <==> exists i :: 0 <= i < |sets| && x in sets[i]
  {
  }

  lemma UnionAdd(sets: seq<set<nat>>, i: nat, x: nat)
    requires i < |sets|
    ensures Union(sets[i := sets[i] + {x}]) == Union(sets) + {x}
  {
    var t := sets[i := sets[i] + {x}];
    forall y: nat
      ensures y in Union(t) <==> y in Union(sets) || y == x
    {
      if k :| 0 <= k < |sets| && y in sets[k] { assert y in t[k]; }
      if y == x { assert y in t[i]; }
      if k :| 0 <= k < |t| && y in t[k] { assert y in sets[k] || y == x; }
    }
  }

  lemma UnionDrop(sets: seq<set<nat>>, i: nat, x: nat)
    requires i < |sets| && forall j :: 0 <= j < |sets| && j != i ==> x !in sets[j]
    ensures Union(sets[i := sets[i] - {x}]) == Union(sets) - {x}
  {
    var t := sets[i := sets[i] - {x}];
    forall y: nat
      ensures y in Union(t) <==> y in Union(sets) && y != x
    {
      if k :| 0 <= k < |sets| && y in sets[k] && y != x { assert y in t[k]; }
      if k :| 0 <= k < |t| && y in t[k] { assert y in sets[k] && y != x; }
    }
  }

  ghost function AllWork(work: seq<seq<Work>>): multiset<Work> {
    if |work| == 0 then multiset{} else AllWork(work[..|work| - 1]) + multiset(work[|work| - 1])
  }

  lemma {:induction false} AllWorkUpdate(work: seq<seq<Work>>, i: nat, s: seq<Work>)
    requires i < |work|
    ensures AllWork(work[i := s]) + multiset(work[i]) == AllWork(work) + multiset(s)
  {
    var n := |work| - 1;
    if i < n {
      AllWorkUpdate(work[..n], i, s);
      assert work[i := s][..n] == work[..n][i := s] && work[i := s][n] == work[n];
      var a, b, c, d := AllWork(work[..n][i := s]), AllWork(work[..n]), multiset(work[n]), multiset(work[i]);
      assert a + d == b + multiset(s);
      assert (a + c) + d == (a + d) + c;
      assert (b + c) + multiset(s) == (b + multiset(s)) + c;
    } else {
      assert work[i := s][..n] == work[..n];
    }
  }

  // ---------------------------------------------------------------- reads begin and end

  function Begin(r: Ring): Ring
    requires r.current < |r.count| && r.current < |r.flying|
  {
    var c := r.current;
    r.(count := r.count[c := r.count[c] + 1], flying := r.flying[c := r.flying[c] + {r.next}], next := r.next + 1)
  }

  lemma BeginShaped(r: Ring)
    requires Shaped(r) && Numbered(r) && EmptyPastCurrent(r)
    ensures Shaped(Begin(r)) && EmptyPastCurrent(Begin(r)) && r.next !in InFlight(r)
  {
    assert r.next !in r.flying[r.current];
  }

  lemma BeginNumbered(r: Ring)
    requires Shaped(r) && Shaped(Begin(r)) && Numbered(r)
    ensures Numbered(Begin(r))
  {
    var r' := Begin(r);
    assert forall i :: 0 <= i < SIZE && i != r.current ==> r'.flying[i] == r.flying[i];
  }

  lemma BeginOlder(r: Ring)
    requires Shaped(r) && Shaped(Begin(r)) && Numbered(r) && BlockersAreOlder(r)
    ensures BlockersAreOlder(Begin(r))
  {
    var r' := Begin(r);
    forall i, j, x | 0 <= i < SIZE && 0 <= j < SIZE && x in r'.flying[j] && BlockedBy(r'.work[i], x)
      ensures Age(r', j) <= Age(r', i)
    {
      assert x in r.flying[j];
    }
  }

  lemma BeginKeeps(r: Ring)
    requires Valid(r)
    ensures Valid(Begin(r)) && r.next !in InFlight(r) && InFlight(Begin(r)) == InFlight(r) + {r.next}
  {
    BeginShaped(r);
    BeginNumbered(r);
    BeginOlder(r);
    UnionAdd(r.flying, r.current, r.next);
  }

  function End(r: Ring, i: nat, x: nat): Ring
    requires i < |r.count| && i < |r.flying| && r.count[i] > 0
  {
    r.(count := r.count[i := r.count[i] - 1], flying := r.flying[i := r.flying[i] - {x}])
  }

  lemma EndKeeps(r: Ring, i: nat, x: nat)
    requires Ordered(r) && i < SIZE && x in r.flying[i]
    ensures r.count[i] > 0 && Ordered(End(r, i, x)) && InFlight(End(r, i, x)) == InFlight(r) - {x}
  {
    UnionDrop(r.flying, i, x);
    var r' := End(r, i, x);
    forall k, j, y | 0 <= k < SIZE && 0 <= j < SIZE && y in r'.flying[j] && BlockedBy(r'.work[k], y)
      ensures Age(r', j) <= Age(r', k)
    {
      assert y in r.flying[j];
    }
  }

  // ---------------------------------------------------------------- sweeping

  /** One round of `__sweep`: the work of the oldest entry is taken, and the sweeper moves on
      unless it has reached the current entry. */
  function SweepOne(r: Ring): Ring
    requires r.sweeper < |r.work|
  {
    r.(work := r.work[r.sweeper := []], sweeper := if r.sweeper == r.current then r.sweeper else DsNext(r.sweeper))
  }

  /** The work of an entry without reads that is the oldest is blocked by no read in flight. */
  lemma OldestIsFree(r: Ring, w: Work)
    requires Ordered(r) && r.count[r.sweeper] == 0 && w in r.work[r.sweeper]
    ensures w.blockers * InFlight(r) == {}
  {
    assert r.flying[r.sweeper] == {};
    forall x | x in w.blockers
      ensures x !in InFlight(r)
    {
      UnionIs(r.flying, x);
      assert BlockedBy(r.work[r.sweeper], x);
      assert forall j: nat :: j < SIZE && x in r.flying[j] ==> Age(r, j) <= 0;
    }
  }

  lemma SweepKeeps(r: Ring)
    requires Ordered(r) && r.count[r.sweeper] == 0
    ensures Ordered(SweepOne(r)) && InFlight(SweepOne(r)) == InFlight(r)
    ensures r.sweeper != r.current ==> Age(SweepOne(r), r.current) == Age(r, r.current) - 1
  {
    var r' := SweepOne(r);
    assert r.flying[r.sweeper] == {};
    if r.sweeper != r.current {
      assert forall i: nat :: i < SIZE && i != r.sweeper ==> Age(r', i) == Age(r, i) - 1;
      assert Age(r', r.sweeper) == SIZE - 1;
    }
    forall i, j, x | 0 <= i < SIZE && 0 <= j < SIZE && x in r'.flying[j] && BlockedBy(r'.work[i], x)
      ensures Age(r', j) <= Age(r', i)
    {
      assert i != r.sweeper && j != r.sweeper;
      assert BlockedBy(r.work[i], x);
    }
    forall i | 0 <= i < SIZE && Age(r', i) > Age(r', r'.current)
      ensures r'.flying[i] == {} && r'.work[i] == []
    {
      if i != r.sweeper { assert Age(r, i) > Age(r, r.current); }
    }
  }

  /** `__sweep`: hands over the work of the oldest entries without reads. */
  method Sweep(r: Ring) returns (r': Ring, out: seq<Work>)
    requires Ordered(r)
    ensures Valid(r') && InFlight(r') == InFlight(r)
    ensures forall w :: w in out ==> w.blockers * InFlight(r) == {}
    ensures AllWork(r'.work) + multiset(out) == AllWork(r.work)
    ensures InFlight(r) == {} ==> forall i :: 0 <= i < SIZE ==> r'.work[i] == []
    ensures r'.current == r.current && r'.count == r.count && r'.flying == r.flying
  {
    r', out := r, [];
    while r'.sweeper != r'.current && r'.count[r'.sweeper] == 0
      invariant Ordered(r') && InFlight(r') == InFlight(r)
      invariant r'.current == r.current && r'.count == r.count && r'.flying == r.flying
      invariant forall w :: w in out ==> w.blockers * InFlight(r) == {}
      invariant AllWork(r'.work) + multiset(out) == AllWork(r.work)
      decreases Age(r', r'.current)
    {
      r', out := Splice(r', out);
    }
    if r'.sweeper == r'.current && r'.count[r'.sweeper] == 0 {
      r', out := Splice(r', out);
    }
    if InFlight(r) == {} {
      NothingFlies(r');
    }
  }

  method Splice(r: Ring, out: seq<Work>) returns (r': Ring, out': seq<Work>)
    requires Ordered(r) && r.count[r.sweeper] == 0 && forall w :: w in out ==> w.blockers * InFlight(r) == {}
    ensures r' == SweepOne(r) && Ordered(r') && InFlight(r') == InFlight(r)
    ensures forall w :: w in out' ==> w.blockers * InFlight(r) == {}
    ensures AllWork(r'.work) + multiset(out') == AllWork(r.work) + multiset(out)
    ensures r.sweeper != r.current ==> Age(r', r.current) == Age(r, r.current) - 1
  {
    SweepKeeps(r);
    forall w | w in r.work[r.sweeper]
      ensures w.blockers * InFlight(r) == {}
    {
      OldestIsFree(r, w);
    }
    AllWorkUpdate(r.work, r.sweeper, []);
    r', out' := SweepOne(r), r.work[r.sweeper] + out;
    ghost var taken := multiset(r.work[r.sweeper]);
    assert multiset(out') == taken + multiset(out);
    assert AllWork(r'.work) + taken == AllWork(r.work);
    assert AllWork(r'.work) + (taken + multiset(out)) == (AllWork(r'.work) + taken) + multiset(out);
  }

  lemma NothingFlies(r: Ring)
    requires Ordered(r) && InFlight(r) == {}
    ensures forall i :: 0 <= i < SIZE ==> r.count[i] == 0
  {
    forall i | 0 <= i < SIZE
      ensures r.flying[i] == {}
    {
      forall x | x in r.flying[i]
        ensures false
      {
        UnionIs(r.flying, x);
      }
    }
  }

  // ---------------------------------------------------------------- adding work

  /** Work joins the current entry, and the next entry becomes current if it is free. */
  function Add(r: Ring, w: Work): Ring
    requires r.current < |r.work| && DsNext(r.current) < |r.count|
  {
    r.(work := r.work[r.current := [w] + r.work[r.current]],
       current := if r.count[DsNext(r.current)] == 0 then DsNext(r.current) else r.current)
  }

  lemma AddPlace(r: Ring, w: Work)
    requires Ordered(r) && r.count[r.sweeper] > 0
    ensures Shaped(Add(r, w)) && EmptyPastCurrent(Add(r, w))
  {
    var r', c := Add(r, w), r.current;
    assert r'.current != c ==> Age(r, r'.current) == Age(r, c) + 1;
  }

  lemma AddOlder(r: Ring, w: Work)
    requires Ordered(r) && Shaped(Add(r, w))
    ensures BlockersAreOlder(Add(r, w))
  {
    var r', c := Add(r, w), r.current;
    forall i, j, x: nat | 0 <= i < SIZE && 0 <= j < SIZE && x in r'.flying[j] && BlockedBy(r'.work[i], x)
      ensures Age(r', j) <= Age(r', i)
    {
      if i == c {
        assert r.flying[j] != {};
      } else {
        assert BlockedBy(r.work[i], x);
      }
    }
  }

  lemma AddKeeps(r: Ring, w: Work)
    requires Valid(r) && w.blockers == InFlight(r) && !(r.sweeper == r.current && r.count[r.current] == 0)
    ensures Valid(Add(r, w)) && InFlight(Add(r, w)) == InFlight(r)
    ensures AllWork(Add(r, w).work) == AllWork(r.work) + multiset{w}
  {
    AddPlace(r, w);
    AddOlder(r, w);
    AddNumbered(r, w);
    AddCounts(r, w);
  }

  lemma AddCounts(r: Ring, w: Work)
    requires Shaped(r)
    ensures AllWork(Add(r, w).work) == AllWork(r.work) + multiset{w}
  {
    var s := r.work[r.current];
    AllWorkUpdate(r.work, r.current, [w] + s);
    assert multiset([w] + s) == multiset{w} + multiset(s);
    assert AllWork(r.work) + (multiset{w} + multiset(s)) == (AllWork(r.work) + multiset{w}) + multiset(s);
    Cancel(AllWork(Add(r, w).work), AllWork(r.work) + multiset{w}, multiset(s));
  }

  lemma Cancel(a: multiset<Work>, b: multiset<Work>, c: multiset<Work>)
    requires a + c == b + c
    ensures a == b
  {
    forall x
      ensures a[x] == b[x]
    {
      assert (a + c)[x] == (b + c)[x];
    }
  }

  lemma AddNumbered(r: Ring, w: Work)
    requires Ordered(r) && w.blockers == InFlight(r)
    ensures Numbered(Add(r, w))
  {
    var r' := Add(r, w);
    forall i, x: nat | 0 <= i < SIZE && BlockedBy(r'.work[i], x)
      ensures x < r.next
    {
      UnionIs(r.flying, x);
      var v :| v in r'.work[i] && x in v.blockers;
      assert v == w || BlockedBy(r.work[i], x);
    }
  }

  /** A read in flight keeps the sweeper at an entry with reads. */
  lemma SomethingFlies(r: Ring)
    requires Valid(r)
    ensures InFlight(r) == {} <==> r.sweeper == r.current && r.count[r.current] == 0
  {
    if InFlight(r) == {} {
      NothingFlies(r);
    }
    if r.sweeper == r.current && r.count[r.current] == 0 {
      assert forall i :: 0 <= i < SIZE ==> r.flying[i] == {};
    }
  }

  class Set {
    var r: Ring

    constructor ()
      ensures Valid(r) && InFlight(r) == {} && AllWork(r.work) == multiset{}
    {
      r := Ring(seq(SIZE, _ => 0), seq(SIZE, _ => []), seq(SIZE, _ => {}), 0, 0, 0);
      NoWork(seq(SIZE, _ => []));
    }

    /** `dm_deferred_entry_inc`: a read begins. */
    method Inc() returns (entry: nat, read: nat)
      requires Valid(r)
      modifies this
      ensures Valid(r) && entry < SIZE && read in r.flying[entry] && read !in old(InFlight(r))
      ensures InFlight(r) == old(InFlight(r)) + {read} && r.work == old(r.work)
      ensures entry == r.current == old(r.current) && r.sweeper == old(r.sweeper)
    {
      BeginKeeps(r);
      entry, read := r.current, r.next;
      r := Begin(r);
    }

    /** `dm_deferred_entry_dec`: a read ends.  All the reads that were in flight when a work item
        it hands back was added are over; and when no read is left, no work is left. */
    method Dec(entry: nat, read: nat) returns (out: seq<Work>)
      requires Valid(r) && entry < SIZE && read in r.flying[entry]
      modifies this
      ensures Valid(r) && InFlight(r) == old(InFlight(r)) - {read}
      ensures forall w :: w in out ==> w.blockers * InFlight(r) == {}
      ensures AllWork(r.work) + multiset(out) == old(AllWork(r.work))
      ensures InFlight(r) == {} ==> AllWork(r.work) == multiset{}
      ensures r.current == old(r.current) && (InFlight(r) != {} ==> r.count[r.sweeper] > 0)
    {
      EndKeeps(r, entry, read);
      var r';
      r', out := Sweep(End(r, entry, read));
      r := r';
      SomethingFlies(r);
      if InFlight(r) == {} {
        NoWork(r.work);
      }
    }

    /** `dm_deferred_set_add_work`: declines exactly when no read is in flight. */
    method AddWork(id: nat) returns (deferred: bool)
      requires Valid(r)
      modifies this
      ensures Valid(r) && InFlight(r) == old(InFlight(r))
      ensures deferred <==> InFlight(r) != {}
      ensures AllWork(r.work) == old(AllWork(r.work)) + if deferred then multiset{Work(id, InFlight(r))} else multiset{}
      ensures deferred ==> Work(id, InFlight(r)) in r.work[old(r.current)]
      ensures r.current == if deferred && r.count[DsNext(old(r.current))] == 0 then DsNext(old(r.current))
                           else old(r.current)
      ensures r.count == old(r.count) && r.flying == old(r.flying) && r.sweeper == old(r.sweeper)
    {
      SomethingFlies(r);
      if r.sweeper == r.current && r.count[r.current] == 0 {
        return false;
      }
      var w := Work(id, InFlight(r));
      AddKeeps(r, w);
      r := Add(r, w);
      deferred := true;
    }
  }

  lemma {:induction false} NoWork(work: seq<seq<Work>>)
    requires forall i :: 0 <= i < |work| ==> work[i] == []
    ensures AllWork(work) == multiset{}
  {
    if |work| > 0 {
      NoWork(work[..|work| - 1]);
    }
  }
}
