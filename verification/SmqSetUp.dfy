/** Setting up the lists of the smq cache policy: every entry goes to the free list and two sentinels
    to every level of both queues, in the order the policy puts them there.
 */
module SmqSetUp {
  import opened IndexList
  import opened SmqWeave
  import opened SmqQueueOps
  import opened SmqState

  /** The levels of a queue when the first a levels have one sentinel and the first b of them both. */
  ghost function Rows(first: nat, levels: nat, a: nat, b: nat): (r: seq<seq<nat>>)
    ensures |r| == levels
  {
    seq(levels, l requires 0 <= l < levels =>
      (if l < a then [first + levels + l] else []) + (if l < b then [first + l] else []))
  }

  ghost function Filled(n: nat, levels: nat, a: nat, b: nat): (r: seq<seq<nat>>)
    ensures |r| == 1 + 2 * levels
  {
    [seq(n, i => i)] + Rows(n + 2 * levels, levels, a, b) + Rows(n, levels, a, b)
  }

  /** The sentinels that are in a list then. */
  predicate Linked(x: nat, n: nat, levels: nat, a: nat, b: nat) {
    || n <= x < n + b || n + levels <= x < n + levels + a
    || n + 2 * levels <= x < n + 2 * levels + b || n + 3 * levels <= x < n + 3 * levels + a
  }

  lemma FilledWith(n: nat, levels: nat, a: nat, b: nat, i: nat, x: nat)
    requires b <= a <= levels && Listed(Filled(n, levels, a, b), i, x)
    ensures x < n || Linked(x, n, levels, a, b)
  {
    if 0 < i <= levels {
      assert x in Rows(n + 2 * levels, levels, a, b)[i - 1];
    } else if i > levels {
      assert x in Rows(n, levels, a, b)[i - 1 - levels];
    }
  }

  lemma NotYet(n: nat, levels: nat, a: nat, b: nat, x: nat)
    requires b <= a <= levels && x >= n && !Linked(x, n, levels, a, b)
    ensures Nowhere(Filled(n, levels, a, b), x)
  {
    forall i: nat
      ensures !Listed(Filled(n, levels, a, b), i, x)
    {
      if Listed(Filled(n, levels, a, b), i, x) {
        FilledWith(n, levels, a, b, i, x);
      }
    }
  }

  /** The sentinel pass number `which` adds to level l of a queue. */
  function Added(first: nat, levels: nat, l: nat, which: bool): nat {
    first + (if which then l else levels + l)
  }

  /** The lists once a pass has come to level l. */
  ghost function PassRows(first: nat, levels: nat, l: nat, which: bool): (r: seq<seq<nat>>)
    ensures |r| == levels
  {
    if which then Rows(first, levels, levels, l) else Rows(first, levels, l, 0)
  }

  lemma RowsStep(first: nat, levels: nat, l: nat, which: bool)
    requires l < levels
    ensures var r := PassRows(first, levels, l, which);
            r[l := r[l] + [Added(first, levels, l, which)]] == PassRows(first, levels, l + 1, which)
  {
    var r, r' := PassRows(first, levels, l, which), PassRows(first, levels, l + 1, which);
    assert r[l] + [Added(first, levels, l, which)] == r'[l];
    assert forall m :: 0 <= m < levels && m != l ==> r[m] == r'[m];
  }

  lemma UpdateParts(f: seq<nat>, a: seq<seq<nat>>, b: seq<seq<nat>>, l: nat, s: seq<nat>)
    ensures l < |a| ==> ([f] + a + b)[1 + l := s] == [f] + a[l := s] + b && ([f] + a + b)[1 + l] == a[l]
    ensures l < |b| ==> ([f] + a + b)[1 + |a| + l := s] == [f] + a + b[l := s] && ([f] + a + b)[1 + |a| + l] == b[l]
  {
  }

  ghost function Pass(n: nat, levels: nat, l: nat, which: bool): (r: seq<seq<nat>>)
    ensures |r| == 1 + 2 * levels
  {
    if which then Filled(n, levels, levels, l) else Filled(n, levels, l, 0)
  }

  lemma PassNotYet(n: nat, levels: nat, l: nat, which: bool, writeback: bool)
    requires l < levels
    ensures Nowhere(Pass(n, levels, l, which), Sentinel(n, levels, l, which, writeback))
  {
    NotYet(n, levels, if which then levels else l, if which then l else 0, Sentinel(n, levels, l, which, writeback));
  }

  lemma PassParts(n: nat, levels: nat, l: nat, which: bool)
    ensures Pass(n, levels, l, which)
         == [seq(n, i => i)] + PassRows(n + 2 * levels, levels, l, which) + PassRows(n, levels, l, which)
  {
  }

  /** Both queues get the sentinel of a level: first the dirty one, then the clean one. */
  lemma PassStep(n: nat, levels: nat, l: nat, which: bool, seqs: seq<seq<nat>>, half: seq<seq<nat>>)
    requires l < levels && seqs == Pass(n, levels, l, which)
    requires half == seqs[1 + levels + l := seqs[1 + levels + l] + [Sentinel(n, levels, l, which, true)]]
    ensures half[1 + l := half[1 + l] + [Sentinel(n, levels, l, which, false)]] == Pass(n, levels, l + 1, which)
  {
    var f, a, b := seq(n, i => i), PassRows(n + 2 * levels, levels, l, which), PassRows(n, levels, l, which);
    var b' := b[l := b[l] + [Added(n, levels, l, which)]];
    PassParts(n, levels, l, which);
    PassParts(n, levels, l + 1, which);
    RowsStep(n, levels, l, which);
    RowsStep(n + 2 * levels, levels, l, which);
    UpdateParts(f, a, b, l, b[l] + [Added(n, levels, l, which)]);
    UpdateParts(f, a, b', l, a[l] + [Added(n + 2 * levels, levels, l, which)]);
  }

  lemma HalfNotYet(n: nat, levels: nat, l: nat, which: bool, seqs: seq<seq<nat>>, half: seq<seq<nat>>)
    requires l < levels && seqs == Pass(n, levels, l, which)
    requires half == seqs[1 + levels + l := seqs[1 + levels + l] + [Sentinel(n, levels, l, which, true)]]
    ensures Nowhere(half, Sentinel(n, levels, l, which, false))
  {
    PassNotYet(n, levels, l, which, false);
    var y := Sentinel(n, levels, l, which, false);
    forall i: nat
      ensures !Listed(half, i, y)
    {
      assert !Listed(seqs, i, y);
    }
  }

  /** `__sentinels_init`, for one of the two sentinels of every level. */
  method SentinelsInit(w: Weave, n: nat, levels: nat, which: bool)
    requires w.Valid() && n + 4 * levels <= w.space.links.Length && w.spelled == Pass(n, levels, 0, which)
    modifies w, w.space.links
    ensures w.Valid() && w.spelled == Pass(n, levels, levels, which)
  {
    for l := 0 to levels
      invariant w.Valid() && w.spelled == Pass(n, levels, l, which)
    {
      ghost var seqs := w.spelled;
      PassNotYet(n, levels, l, which, true);
      w.Put(1 + levels + l, Sentinel(n, levels, l, which, true), Back, |w.spelled[1 + levels + l]|);
      ghost var half := w.spelled;
      assert half[1 + levels + l] == seqs[1 + levels + l] + [Sentinel(n, levels, l, which, true)];
      HalfNotYet(n, levels, l, which, seqs, half);
      PassStep(n, levels, l, which, seqs, half);
      w.Put(1 + l, Sentinel(n, levels, l, which, false), Back, |w.spelled[1 + l]|);
      assert w.spelled[1 + l] == half[1 + l] + [Sentinel(n, levels, l, which, false)];
    }
  }

  /** `init_allocator`: all entries are free. */
  method AllocatorInit(w: Weave, n: nat, ghost levels: nat)
    requires w.Valid() && n <= w.space.links.Length && w.spelled == seq(1 + 2 * levels, _ => [])
    modifies w, w.space.links
    ensures w.Valid() && w.spelled == Filled(n, levels, 0, 0)
  {
    assert seq(0, j => j) == [];
    for i := 0 to n
      invariant w.Valid() && w.spelled == seq(1 + 2 * levels, _ => [])[0 := seq(i, j => j)]
    {
      assert forall j: nat :: !Listed(w.spelled, j, i);
      w.Put(0, i, Back, i);
      assert w.spelled[0] == seq(i + 1, j => j);
    }
  }

  lemma BothSentinels(first: nat, levels: nat)
    ensures Rows(first, levels, levels, levels) == InitialLists(first, levels)
  {
    forall l | 0 <= l < levels
      ensures Rows(first, levels, levels, levels)[l] == InitialLists(first, levels)[l]
    {
      assert [first + levels + l] + [first + l] == [first + levels + l, first + l];
    }
  }

  /** The lists of an empty cache: all entries free, and both sentinels in every level. */
  method InitLists(n: nat, levels: nat) returns (w: Weave)
    requires n + 4 * levels <= NULL
    ensures fresh(w) && fresh(w.space) && fresh(w.space.links)
    ensures w.Valid() && w.space.links.Length == |w.space.sentinel| == n + 4 * levels && Numbered(w.space.sentinel, n)
    ensures w.spelled == [seq(n, i => i)] + InitialLists(n + 2 * levels, levels) + InitialLists(n, levels)
  {
    w := new Weave(1 + 2 * levels, seq(n + 4 * levels, i => i >= n));
    AllocatorInit(w, n, levels);
    SentinelsInit(w, n, levels, false);
    SentinelsInit(w, n, levels, true);
    BothSentinels(n, levels);
    BothSentinels(n + 2 * levels, levels);
  }
}
