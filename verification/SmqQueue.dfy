/** The multi-level queues of the smq cache policy: one list per level, oldest entry first,
    with sentinel entries standing in the lists as markers.

    Entries are numbers below `n`; numbers from `n` on are sentinels.  A list is the sequence
    its index links spell out.
 */
module SmqQueue {
  import opened Sequences

  /** The lists, and the level each entry records for itself. */
  datatype Queue = Queue(qs: seq<seq<nat>>, level: seq<nat>)

  ghost predicate In(q: Queue, l: nat, x: nat) {
    l < |q.qs| && x in q.qs[l]
  }

  ghost predicate Has(q: Queue, x: nat) {
    exists l: nat :: In(q, l, x)
  }

  /** Every member is in the list of the level it records, once. */
  ghost predicate Valid(q: Queue) {
    && (forall l :: 0 <= l < |q.qs| ==> NoDup(q.qs[l]))
    && (forall l: nat, x: nat :: In(q, l, x) ==> x < |q.level| && q.level[x] == l)
  }

  /** Number of entries in a list, sentinels not counted. */
  function Items(s: seq<nat>, n: nat): nat {
    if |s| == 0 then 0 else Items(s[..|s| - 1], n) + Bit(s[|s| - 1] < n)
  }

  /** Number of entries from a level upwards. */
  function Total(qs: seq<seq<nat>>, n: nat, from: nat): nat
    requires from <= |qs|
    decreases |qs| - from
  {
    if from == |qs| then 0 else Items(qs[from], n) + Total(qs, n, from + 1)
  }

  lemma {:induction false} ItemsConcat(s: seq<nat>, t: seq<nat>, n: nat)
    ensures Items(s + t, n) == Items(s, n) + Items(t, n)
  {
    if |t| == 0 {
      assert s + t == s;
    } else {
      assert (s + t)[..|s + t| - 1] == s + t[..|t| - 1];
      ItemsConcat(s, t[..|t| - 1], n);
    }
  }

  lemma ItemsRemove(s: seq<nat>, k: nat, n: nat)
    requires k < |s|
    ensures Items(s, n) == Items(RemoveAt(s, k), n) + Bit(s[k] < n)
  {
    assert s == s[..k] + ([s[k]] + s[k + 1..]);
    ItemsConcat(s[..k], [s[k]] + s[k + 1..], n);
    ItemsConcat([s[k]], s[k + 1..], n);
    ItemsConcat(s[..k], s[k + 1..], n);
  }

  lemma {:induction false} NoItemsLeft(s: seq<nat>, n: nat)
    requires forall i :: 0 <= i < |s| ==> s[i] >= n
    ensures Items(s, n) == 0
  {
    if |s| > 0 {
      NoItemsLeft(s[..|s| - 1], n);
    }
  }

  // ---------------------------------------------------------------- adding and taking

  /** Puts e at index k of the list of its level. */
  function AddAt(q: Queue, e: nat, k: nat): Queue
    requires e < |q.level| && q.level[e] < |q.qs| && k <= |q.qs[q.level[e]]|
  {
    q.(qs := q.qs[q.level[e] := InsertAt(q.qs[q.level[e]], k, e)])
  }

  /** Takes out the k-th member of the list of level l. */
  function TakeAt(q: Queue, l: nat, k: nat): Queue
    requires l < |q.qs| && k < |q.qs[l]|
  {
    q.(qs := q.qs[l := RemoveAt(q.qs[l], k)])
  }

  lemma AddIn(q: Queue, e: nat, k: nat, l: nat, x: nat)
    requires e < |q.level| && q.level[e] < |q.qs| && k <= |q.qs[q.level[e]]|
    ensures In(AddAt(q, e, k), l, x) <==> In(q, l, x) || (x == e && l == q.level[e])
  {
    InsertAtMembers(q.qs[q.level[e]], k, e, x);
  }

  /** A new member keeps the queue well formed and is the only change. */
  lemma AddKeeps(q: Queue, e: nat, k: nat, n: nat)
    requires Valid(q) && e < |q.level| && q.level[e] < |q.qs| && k <= |q.qs[q.level[e]]| && !Has(q, e)
    ensures Valid(AddAt(q, e, k))
    ensures forall x: nat :: Has(AddAt(q, e, k), x) <==> Has(q, x) || x == e
    ensures Total(AddAt(q, e, k).qs, n, 0) == Total(q.qs, n, 0) + Bit(e < n)
  {
    var q' := AddAt(q, e, k);
    assert !In(q, q.level[e], e);
    NoDupInsert(q.qs[q.level[e]], k, e);
    forall l: nat, x: nat | In(q', l, x)
      ensures x < |q'.level| && q'.level[x] == l
    {
      AddIn(q, e, k, l, x);
    }
    forall x: nat
      ensures Has(q', x) <==> Has(q, x) || x == e
    {
      if l: nat :| In(q, l, x) { AddIn(q, e, k, l, x); assert In(q', l, x); }
      AddIn(q, e, k, q.level[e], e);
      assert In(q', q.level[e], e);
      if l: nat :| In(q', l, x) { AddIn(q, e, k, l, x); }
    }
    ItemsRemove(InsertAt(q.qs[q.level[e]], k, e), k, n);
    assert RemoveAt(InsertAt(q.qs[q.level[e]], k, e), k) == q.qs[q.level[e]];
    TotalUpdate(q.qs, q.level[e], InsertAt(q.qs[q.level[e]], k, e), n, 0);
  }

  lemma {:induction false} TotalUpdate(qs: seq<seq<nat>>, l: nat, s: seq<nat>, n: nat, from: nat)
    requires l < |qs| && from <= |qs|
    ensures Total(qs[l := s], n, from) == Total(qs, n, from) + (if l >= from then Items(s, n) - Items(qs[l], n) else 0)
    decreases |qs| - from
  {
    if from < |qs| {
      TotalUpdate(qs, l, s, n, from + 1);
    }
  }

  /** Taking a member out is the only change. */
  lemma TakeKeeps(q: Queue, l: nat, k: nat, n: nat)
    requires Valid(q) && l < |q.qs| && k < |q.qs[l]|
    ensures Valid(TakeAt(q, l, k))
    ensures forall x: nat :: Has(TakeAt(q, l, k), x) <==> Has(q, x) && x != q.qs[l][k]
    ensures Total(TakeAt(q, l, k).qs, n, 0) == Total(q.qs, n, 0) - Bit(q.qs[l][k] < n)
  {
    var q', e := TakeAt(q, l, k), q.qs[l][k];
    NoDupRemove(q.qs[l], k);
    assert In(q, l, e);
    forall m: nat, x: nat
      ensures In(q', m, x) <==> In(q, m, x) && x != e
    {
      TakeIn(q, l, k, m, x);
    }
    forall x: nat
      ensures Has(q', x) <==> Has(q, x) && x != e
    {
      if m: nat :| In(q, m, x) && x != e { assert In(q', m, x); }
      if m: nat :| In(q', m, x) { assert In(q, m, x) && x != e; }
    }
    ItemsRemove(q.qs[l], k, n);
    TotalUpdate(q.qs, l, RemoveAt(q.qs[l], k), n, 0);
  }

  lemma TakeIn(q: Queue, l: nat, k: nat, m: nat, x: nat)
    requires Valid(q) && l < |q.qs| && k < |q.qs[l]|
    ensures In(TakeAt(q, l, k), m, x) <==> In(q, m, x) && x != q.qs[l][k]
  {
    RemoveAtMembers(q.qs[l], k, x);
    assert In(q, l, q.qs[l][k]);
    assert In(q, m, x) ==> q.level[x] == m;
  }

  /** An entry outside the queue may change the level it records. */
  lemma RelevelKeeps(q: Queue, e: nat, l: nat)
    requires Valid(q) && e < |q.level| && !Has(q, e)
    ensures Valid(q.(level := q.level[e := l]))
    ensures forall x: nat :: Has(q.(level := q.level[e := l]), x) <==> Has(q, x)
  {
    var q' := q.(level := q.level[e := l]);
    forall m: nat, x: nat
      ensures In(q', m, x) <==> In(q, m, x)
    {
    }
    forall m: nat, x: nat | In(q', m, x)
      ensures x < |q'.level| && q'.level[x] == m
    {
      assert In(q, m, x);
      assert x != e;
    }
    forall x: nat
      ensures Has(q', x) <==> Has(q, x)
    {
      if m: nat :| In(q, m, x) { assert In(q', m, x); }
      if m: nat :| In(q', m, x) { assert In(q, m, x); }
    }
  }

  /** Index of a member in the list of its level, as `l_del` finds it through its links. */
  lemma IndexOf(q: Queue, e: nat) returns (k: nat)
    requires Valid(q) && Has(q, e)
    ensures e < |q.level| && q.level[e] < |q.qs| && k < |q.qs[q.level[e]]| && q.qs[q.level[e]][k] == e
  {
    var l: nat :| In(q, l, e);
    k :| 0 <= k < |q.qs[l]| && q.qs[l][k] == e;
  }

  // ---------------------------------------------------------------- moving an entry

  /** Member e, at index `at` of its list, goes to index k of the list of level l. */
  function Shifted(q: Queue, e: nat, at: nat, l: nat, k: nat): Queue
    requires e < |q.level| && q.level[e] < |q.qs| && at < |q.qs[q.level[e]]| && l < |q.qs|
    requires k <= |TakeAt(q, q.level[e], at).qs[l]|
  {
    var a := TakeAt(q, q.level[e], at);
    AddAt(a.(level := a.level[e := l]), e, k)
  }

  /** q' holds the same members; only members that are entries may have changed level. */
  ghost predicate Rearranged(q: Queue, q': Queue, n: nat) {
    && |q'.qs| == |q.qs| && |q'.level| == |q.level|
    && Valid(q')
    && (forall x: nat :: Has(q', x) <==> Has(q, x))
    && (forall x: nat :: x < |q.level| && (x >= n || !Has(q, x)) ==> q'.level[x] == q.level[x])
    && Total(q'.qs, n, 0) == Total(q.qs, n, 0)
  }

  /** Moving a member keeps all members and counts; a sentinel stays in its level. */
  lemma ShiftRearranges(q0: Queue, q: Queue, e: nat, at: nat, l: nat, k: nat, n: nat)
    requires Rearranged(q0, q, n) && e < |q.level| && q.level[e] < |q.qs| && l < |q.qs|
    requires at < |q.qs[q.level[e]]| && q.qs[q.level[e]][at] == e && (e < n || l == q.level[e])
    requires k <= |TakeAt(q, q.level[e], at).qs[l]|
    ensures Rearranged(q0, Shifted(q, e, at, l, k), n)
  {
    var a := TakeAt(q, q.level[e], at);
    assert In(q, q.level[e], e);
    TakeKeeps(q, q.level[e], at, n);
    RelevelKeeps(a, e, l);
    AddKeeps(a.(level := a.level[e := l]), e, k, n);
  }

  /** Moving an entry shifts one unit of count from one level to the other. */
  lemma ShiftCounts(q: Queue, e: nat, at: nat, l: nat, k: nat, n: nat, m: nat)
    requires e < |q.level| && q.level[e] < |q.qs| && l < |q.qs| && e < n && m < |q.qs|
    requires at < |q.qs[q.level[e]]| && q.qs[q.level[e]][at] == e
    requires k <= |TakeAt(q, q.level[e], at).qs[l]|
    ensures Items(Shifted(q, e, at, l, k).qs[m], n)
         == Items(q.qs[m], n) + Bit(m == l) - Bit(m == q.level[e])
  {
    var a := TakeAt(q, q.level[e], at);
    ItemsRemove(q.qs[q.level[e]], at, n);
    var s := InsertAt(a.qs[l], k, e);
    ItemsRemove(s, k, n);
    assert RemoveAt(s, k) == a.qs[l];
  }

  lemma {:induction false} TotalShift(qs: seq<seq<nat>>, qs': seq<seq<nat>>, n: nat, l: nat, from: nat, to: nat)
    requires |qs| == |qs'| && l <= |qs| && from < |qs| && to < |qs|
    requires forall i :: 0 <= i < |qs| ==>
               Items(qs'[i], n) == Items(qs[i], n) + Bit(i == to) - Bit(i == from)
    ensures Total(qs', n, l) == Total(qs, n, l) + Bit(to >= l) - Bit(from >= l)
    decreases |qs| - l
  {
    if l < |qs| {
      TotalShift(qs, qs', n, l + 1, from, to);
    }
  }

  lemma ShiftTotal(q: Queue, e: nat, at: nat, l: nat, k: nat, n: nat, from: nat)
    requires e < |q.level| && q.level[e] < |q.qs| && l < |q.qs| && e < n && from <= |q.qs|
    requires at < |q.qs[q.level[e]]| && q.qs[q.level[e]][at] == e
    requires k <= |TakeAt(q, q.level[e], at).qs[l]|
    ensures Total(Shifted(q, e, at, l, k).qs, n, from)
         == Total(q.qs, n, from) + Bit(l >= from) - Bit(q.level[e] >= from)
  {
    forall m | 0 <= m < |q.qs|
      ensures Items(Shifted(q, e, at, l, k).qs[m], n) == Items(q.qs[m], n) + Bit(m == l) - Bit(m == q.level[e])
    {
      ShiftCounts(q, e, at, l, k, n, m);
    }
    TotalShift(q.qs, Shifted(q, e, at, l, k).qs, n, from, q.level[e], l);
  }
}
