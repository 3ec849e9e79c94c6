/** The operations of a multi-level queue on the links of its lists: looking for the oldest entry,
    re-queueing, redistributing and moving sentinels.

    The lists of the queue are some of those threaded through the entries, from index `base` on; the
    sequences they spell are followed as a ghost, and `all` stands for the lists the operation leaves
    alone.
 */
module SmqQueueOps {
  import opened Sequences
  import opened IndexList
  import opened SmqWeave
  import opened SmqQueue
  import opened SmqOrder
  import opened SmqTargets

  /** Some lists of many replaced. */
  ghost function Splice(all: seq<seq<nat>>, base: nat, qs: seq<seq<nat>>): (r: seq<seq<nat>>)
    requires base + |qs| <= |all|
    ensures |r| == |all| && forall l :: 0 <= l < |qs| ==> r[base + l] == qs[l]
  {
    all[..base] + qs + all[base + |qs|..]
  }

  lemma SpliceUpdate(all: seq<seq<nat>>, base: nat, qs: seq<seq<nat>>, l: nat, s: seq<nat>)
    requires base + |qs| <= |all| && l < |qs|
    ensures Splice(all, base, qs)[base + l := s] == Splice(all, base, qs[l := s])
  {
  }

  /** Numbers from n on are sentinels. */
  ghost predicate Numbered(sentinel: seq<bool>, n: nat) {
    forall x :: 0 <= x < |sentinel| ==> (sentinel[x] <==> x >= n)
  }

  /** Among the lists threaded through the entries are those of q. */
  ghost predicate Holds(w: Weave, all: seq<seq<nat>>, base: nat, q: Queue, n: nat)
    reads w, w.space.links
  {
    && w.Valid() && base + |q.qs| <= |all| && w.spelled == Splice(all, base, q.qs)
    && Numbered(w.space.sentinel, n) && |q.level| <= |w.space.sentinel| == w.space.links.Length
  }

  lemma {:induction false} CountIsItems(sentinel: seq<bool>, s: seq<nat>, n: nat)
    requires Numbered(sentinel, n) && forall i :: 0 <= i < |s| ==> s[i] < |sentinel|
    ensures Count(sentinel, s) == Items(s, n)
  {
    if |s| > 0 {
      CountIsItems(sentinel, s[..|s| - 1], n);
    }
  }

  // ---------------------------------------------------------------- one member

  /** An entry in no list joins the list of its level. */
  method Join(w: Weave, ghost all: seq<seq<nat>>, base: nat, ghost q: Queue, e: nat, l: nat, place: Place, ghost k: nat,
              n: nat)
    requires Holds(w, all, base, q, n) && Nowhere(w.spelled, e) && e < |q.level| && l == q.level[e] < |q.qs|
    requires k <= |q.qs[l]| && Fits(q.qs[l], place, k)
    modifies w, w.space.links
    ensures Holds(w, all, base, AddAt(q, e, k), n)
  {
    SpliceUpdate(all, base, q.qs, l, InsertAt(q.qs[l], k, e));
    w.Put(base + l, e, place, k);
  }

  /** A member leaves its list, and is in none then. */
  method Leave(w: Weave, ghost all: seq<seq<nat>>, base: nat, ghost q: Queue, e: nat, l: nat, ghost k: nat, n: nat)
    requires Holds(w, all, base, q, n) && l < |q.qs| && k < |q.qs[l]| && q.qs[l][k] == e
    modifies w, w.space.links
    ensures Holds(w, all, base, TakeAt(q, l, k), n) && Nowhere(w.spelled, e)
  {
    SpliceUpdate(all, base, q.qs, l, RemoveAt(q.qs[l], k));
    w.Take(base + l, e, k);
  }

  /** Moves a member to a place in the list of another level, or of its own. */
  method MoveTo(w: Weave, ghost all: seq<seq<nat>>, base: nat, ghost q: Queue, level: seq<nat>, e: nat, l: nat,
                place: Place,
                ghost at: nat, ghost k: nat, n: nat) returns (ghost q': Queue, level': seq<nat>)
    requires Holds(w, all, base, q, n) && level == q.level && e < |level| && level[e] < |q.qs| && l < |q.qs|
    requires at < |q.qs[level[e]]| && q.qs[level[e]][at] == e
    requires k <= |TakeAt(q, level[e], at).qs[l]| && Fits(TakeAt(q, level[e], at).qs[l], place, k)
    modifies w, w.space.links
    ensures Holds(w, all, base, q', n) && level' == q'.level == level[e := l] && q' == Shifted(q, e, at, l, k)
  {
    ghost var a := TakeAt(q, level[e], at);
    Leave(w, all, base, q, e, level[e], at, n);
    level' := level[e := l];
    ghost var b := a.(level := level');
    Join(w, all, base, b, e, l, place, k, n);
    q' := AddAt(b, e, k);
  }

  /** Moves an entry or a sentinel to the back of its own level. */
  method ToBack(w: Weave, ghost all: seq<seq<nat>>, base: nat, ghost q0: Queue, ghost q: Queue, level: seq<nat>, e: nat,
                n: nat)
    returns (ghost q': Queue, ghost k: nat)
    requires Holds(w, all, base, q, n) && level == q.level && Rearranged(q0, q, n) && Has(q, e)
    modifies w, w.space.links
    ensures Holds(w, all, base, q', n) && q'.level == level && Rearranged(q0, q', n)
    ensures e < |level| && level[e] < |q.qs| && k < |q.qs[level[e]]| && q.qs[level[e]][k] == e
    ensures q'.qs == q.qs[level[e] := RemoveAt(q.qs[level[e]], k) + [e]]
  {
    k := IndexOf(q, e);
    ghost var l, last := level[e], |q.qs[level[e]]| - 1;
    ShiftRearranges(q0, q, e, k, l, last, n);
    ghost var level';
    q', level' := MoveTo(w, all, base, q, level, e, level[e], Back, k, last, n);
    assert InsertAt(RemoveAt(q.qs[l], k), last, e) == RemoveAt(q.qs[l], k) + [e];
  }

  // ---------------------------------------------------------------- the oldest entry

  /** Nothing in a level may be taken: no entry at all, or, if sentinels must not be crossed, none
      before the first sentinel. */
  ghost predicate Closed(q: Queue, l: nat, cross: bool, n: nat)
    requires l < |q.qs|
  {
    if cross then Items(q.qs[l], n) == 0 else q.qs[l] == [] || q.qs[l][0] >= n
  }

  /** e is the oldest entry of its level, and levels below it have none to offer. */
  ghost predicate Oldest(q: Queue, e: nat, maxLevel: nat, cross: bool, n: nat) {
    && e < n && e < |q.level| && q.level[e] < maxLevel && q.level[e] < |q.qs|
    && (exists k :: 0 <= k < |q.qs[q.level[e]]| && q.qs[q.level[e]][k] == e
                 && (forall i :: 0 <= i < k ==> q.qs[q.level[e]][i] >= n) && (cross || k == 0))
    && (forall l: nat :: l < q.level[e] ==> Closed(q, l, cross, n))
  }

  /** No level below a bound has an entry to offer. */
  ghost predicate NoneOffered(q: Queue, maxLevel: nat, cross: bool, n: nat) {
    forall l: nat :: l < |q.qs| && l < maxLevel ==> Closed(q, l, cross, n)
  }

  /** What the first entry of a level, if it has one, tells of the level. */
  lemma FirstDecides(q: Queue, l: nat, k: nat, cross: bool, n: nat)
    requires l < |q.qs| && k <= |q.qs[l]| && forall i :: 0 <= i < k ==> q.qs[l][i] >= n
    requires k < |q.qs[l]| ==> q.qs[l][k] < n
    ensures Closed(q, l, cross, n) <==> !(k < |q.qs[l]| && (cross || k == 0))
  {
    if k < |q.qs[l]| {
      ItemsRemove(q.qs[l], k, n);
    } else {
      NoItemsLeft(q.qs[l], n);
    }
  }

  /** The first entry of a level. */
  method FirstOf(w: Weave, ghost all: seq<seq<nat>>, base: nat, ghost q: Queue, l: nat, n: nat)
    returns (found: bool, e: nat, k: nat)
    requires Holds(w, all, base, q, n) && l < |q.qs|
    ensures k <= |q.qs[l]| && forall i :: 0 <= i < k ==> q.qs[l][i] >= n
    ensures if found then k < |q.qs[l]| && q.qs[l][k] == e < n else k == |q.qs[l]|
  {
    found, e, k := w.First(base + l);
    assert w.spelled[base + l] == q.qs[l];
  }

  // ---------------------------------------------------------------- re-queueing

  datatype Sentinels = NoSentinels | Sentinels(first: nat, second: nat)

  ghost predicate SentinelsAt(q: Queue, marks: Sentinels, l: nat, n: nat) {
    marks.Sentinels? ==> marks.first >= n && marks.second >= n && In(q, l, marks.first) && In(q, l, marks.second)
  }

  /** Where an entry that makes room goes in the level below: before the first or the second
      sentinel depending on how many sentinels it stood behind, else to the back. */
  function SwapPlace(marks: Sentinels, passed: nat): Place {
    if marks.Sentinels? && passed == 0 then Before(marks.first)
    else if marks.Sentinels? && passed == 1 then Before(marks.second)
    else Back
  }

  lemma SwapIndex(q: Queue, l: nat, marks: Sentinels, passed: nat, n: nat) returns (k: nat)
    requires l < |q.qs| && SentinelsAt(q, marks, l, n)
    ensures k <= |q.qs[l]| && Fits(q.qs[l], SwapPlace(marks, passed), k)
  {
    match SwapPlace(marks, passed)
    case Before(at) => k :| 0 <= k < |q.qs[l]| && q.qs[l][k] == at;
    case Back => k := |q.qs[l]|;
  }

  /** The level an entry is raised to. */
  function Raised(l: nat, extra: nat, levels: nat): int {
    if l + extra < levels then l + extra else levels - 1
  }

  /** A member is the youngest of its level. */
  ghost predicate IsLast(q: Queue, e: nat) {
    && e < |q.level| && q.level[e] < |q.qs|
    && var s := q.qs[q.level[e]]; s != [] && s[|s| - 1] == e
  }

  /** The i-th member of a level is its oldest entry and has gone down to place k of another. */
  ghost predicate WentDown(q: Queue, q': Queue, above: nat, l: nat, marks: Sentinels, i: nat, k: nat, n: nat) {
    && above < |q.qs| && l < |q.qs| && i < |q.qs[above]|
    && (forall j :: 0 <= j < i ==> q.qs[above][j] >= n)
    && var e := q.qs[above][i];
    && e < n && e < |q.level| && q.level[e] == above
    && k <= |TakeAt(q, above, i).qs[l]| && Fits(q.qs[l], SwapPlace(marks, i), k)
    && q' == Shifted(q, e, i, l, k)
  }

  /** The oldest entry of a level, if it has one, has made room there. */
  ghost predicate MadeRoom(q: Queue, q': Queue, above: nat, l: nat, marks: Sentinels, n: nat) {
    && above < |q.qs|
    && if Items(q.qs[above], n) == 0 then q' == q
       else exists i: nat, k: nat :: WentDown(q, q', above, l, marks, i, k, n)
  }

  /** A member has gone from its place to the back of a level. */
  ghost predicate WentToBack(q: Queue, q': Queue, e: nat, at: nat, l: nat) {
    && e < |q.level| && q.level[e] < |q.qs| && at < |q.qs[q.level[e]]| && q.qs[q.level[e]][at] == e && l < |q.qs|
    && q' == Shifted(q, e, at, l, |TakeAt(q, q.level[e], at).qs[l]|)
  }

  /** What re-queueing comes to: if the entry can go up, the oldest entry of its new level comes down
      for it; then it goes to the back of its new level. */
  ghost predicate Requeued(q: Queue, q': Queue, e: nat, extra: nat, marks: Sentinels, n: nat) {
    && e < |q.level| && 0 <= Raised(q.level[e], extra, |q.qs|)
    && var l, l' := q.level[e], Raised(q.level[e], extra, |q.qs|);
    && exists r: Queue, at: nat ::
         && (if extra > 0 && l < |q.qs| - 1 then MadeRoom(q, r, l', l, marks, n) else r == q)
         && WentToBack(r, q', e, at, l')
  }

  /** `q_requeue`: moves an entry up, swapping it with the oldest entry of its new level, or to
      the back of its own level.  Members and counts stay as they are. */
  method Requeue(w: Weave, ghost all: seq<seq<nat>>, base: nat, ghost q: Queue, levels: nat, level: seq<nat>,
                 e: nat, extra: nat, marks: Sentinels, n: nat)
    returns (ghost q': Queue, level': seq<nat>)
    requires Holds(w, all, base, q, n) && level == q.level && levels == |q.qs|
    requires Valid(q) && Has(q, e) && e < n && SentinelsAt(q, marks, level[e], n)
    modifies w, w.space.links
    ensures Holds(w, all, base, q', n) && q'.level == level' && Rearranged(q, q', n)
    ensures Requeued(q, q', e, extra, marks, n)
    ensures IsLast(q', e) && level'[e] == Raised(level[e], extra, levels) < levels
  {
    ghost var at := IndexOf(q, e);
    var newLevel := Raised(level[e], extra, levels);
    ghost var r := q;
    level' := level;
    if extra > 0 && level[e] < levels - 1 {
      r, level' := Swap(w, all, base, q, level, e, newLevel, marks, n);
    }
    q', level', at := MoveToBackOf(w, all, base, q, r, level', e, newLevel, n);
  }

  /** Moves an entry to the back of a level. */
  method MoveToBackOf(w: Weave, ghost all: seq<seq<nat>>, base: nat, ghost q0: Queue, ghost q: Queue, level: seq<nat>,
                      e: nat, l: nat, n: nat)
    returns (ghost q': Queue, level': seq<nat>, ghost at: nat)
    requires Holds(w, all, base, q, n) && level == q.level && Rearranged(q0, q, n) && Has(q, e) && e < n && l < |q.qs|
    modifies w, w.space.links
    ensures Holds(w, all, base, q', n) && q'.level == level' && Rearranged(q0, q', n)
    ensures IsLast(q', e) && level'[e] == l && WentToBack(q, q', e, at, l)
  {
    at := IndexOf(q, e);
    ghost var last := |TakeAt(q, level[e], at).qs[l]|;
    ShiftRearranges(q0, q, e, at, l, last, n);
    q', level' := MoveTo(w, all, base, q, level, e, l, Back, at, last, n);
  }

  /** The oldest entry of the level above, if there is one, makes room. */
  method Swap(w: Weave, ghost all: seq<seq<nat>>, base: nat, ghost q: Queue, level: seq<nat>, e: nat, newLevel: nat,
              marks: Sentinels, n: nat)
    returns (ghost q': Queue, level': seq<nat>)
    requires Holds(w, all, base, q, n) && level == q.level && Valid(q) && Has(q, e) && e < n
    requires SentinelsAt(q, marks, level[e], n) && level[e] < newLevel < |q.qs|
    modifies w, w.space.links
    ensures Holds(w, all, base, q', n) && q'.level == level' && Rearranged(q, q', n) && level'[e] == level[e]
    ensures MadeRoom(q, q', newLevel, level[e], marks, n)
  {
    q', level' := q, level;
    ghost var at := IndexOf(q, e);
    var found, de, passed := FirstOf(w, all, base, q, newLevel, n);
    FirstDecides(q, newLevel, passed, true, n);
    if found {
      assert q.qs[newLevel][passed] == de;
      assert In(q, newLevel, de) && In(q, level[e], e);
      var l := level[e];
      ghost var k := SwapIndex(q, l, marks, passed, n);
      ShiftRearranges(q, q, de, passed, l, k, n);
      q', level' := MoveTo(w, all, base, q, level, de, l, SwapPlace(marks, passed), passed, k, n);
      assert WentDown(q, q', newLevel, l, marks, passed, k, n);
    }
  }

  /** `q_peek`: the oldest entry of the lowest level, below a bound, that has one to offer. */
  method Peek(w: Weave, ghost all: seq<seq<nat>>, base: nat, ghost q: Queue, levels: nat, maxLevel: nat, cross: bool,
              n: nat)
    returns (found: bool, e: nat)
    requires Holds(w, all, base, q, n) && Valid(q) && levels == |q.qs|
    ensures found <==> !NoneOffered(q, maxLevel, cross, n)
    ensures found ==> Has(q, e) && Oldest(q, e, maxLevel, cross, n)
  {
    var bound := if maxLevel < levels then maxLevel else levels;
    var l := 0;
    while l < bound
      invariant 0 <= l <= bound
      invariant forall m: nat :: m < l ==> Closed(q, m, cross, n)
    {
      var some, x, k := FirstOf(w, all, base, q, l, n);
      FirstDecides(q, l, k, cross, n);
      if some && (cross || k == 0) {
        assert In(q, l, x);
        assert !Closed(q, l, cross, n);
        return true, x;
      }
      l := l + 1;
    }
    found, e := false, 0;
  }

  // ---------------------------------------------------------------- redistribution

  /** `__redist_pop_from` up to the removal: the oldest entry of the lowest level from
      `level` on that has one. */
  method FindFrom(w: Weave, ghost all: seq<seq<nat>>, base: nat, ghost q: Queue, levels: nat, from: nat, n: nat)
    returns (found: bool, l: nat, e: nat, ghost k: nat)
    requires Holds(w, all, base, q, n) && from <= levels == |q.qs|
    ensures found <==> Total(q.qs, n, from) > 0
    ensures found ==>
              && from <= l < |q.qs| && k < |q.qs[l]| && q.qs[l][k] == e < n
              && (forall i :: 0 <= i < k ==> q.qs[l][i] >= n)
              && Total(q.qs, n, from) == Total(q.qs, n, l)
  {
    l, e := from, 0;
    while l < levels
      invariant from <= l <= levels
      invariant Total(q.qs, n, from) == Total(q.qs, n, l)
    {
      found, e, k := FirstOf(w, all, base, q, l, n);
      if found {
        ItemsRemove(q.qs[l], k, n);
        return;
      }
      NoItemsLeft(q.qs[l], n);
      l := l + 1;
    }
    found, k := false, 0;
  }

  /** Length of a list, sentinels not counted. */
  method Length(w: Weave, ghost all: seq<seq<nat>>, base: nat, ghost q: Queue, l: nat, n: nat) returns (r: nat)
    requires Holds(w, all, base, q, n) && l < |q.qs|
    ensures r == Items(q.qs[l], n)
  {
    r := w.Size(base + l);
    assert Threads(w.space.links[..], w.space.sentinel, w.lists[base + l], q.qs[l]);
    CountIsItems(w.space.sentinel, q.qs[l], n);
  }

  /** What a step of the redistribution at level l keeps. */
  ghost predicate Filling(q0: Queue, q: Queue, l: nat, n: nat) {
    && Rearranged(q0, q, n) && l + 1 < |q0.qs|
    && Total(q.qs, n, l) == Total(q0.qs, n, l)
    && forall i :: 0 <= i < l ==> Items(q.qs[i], n) == Items(q0.qs[i], n)
  }

  lemma FillingStep(q0: Queue, q: Queue, e: nat, at: nat, to: nat, k: nat, l: nat, n: nat)
    requires Filling(q0, q, l, n) && e < |q.level| && e < n && l <= q.level[e] < |q.qs| && l <= to < |q.qs|
    requires at < |q.qs[q.level[e]]| && q.qs[q.level[e]][at] == e && k <= |TakeAt(q, q.level[e], at).qs[to]|
    ensures Filling(q0, Shifted(q, e, at, to, k), l, n)
    ensures Total(Shifted(q, e, at, to, k).qs, n, l + 1) == Total(q.qs, n, l + 1) + Bit(to > l) - Bit(q.level[e] > l)
    ensures Items(Shifted(q, e, at, to, k).qs[l], n) == Items(q.qs[l], n) + Bit(to == l) - Bit(q.level[e] == l)
  {
    ShiftRearranges(q0, q, e, at, to, k, n);
    ShiftTotal(q, e, at, to, k, n, l);
    ShiftTotal(q, e, at, to, k, n, l + 1);
    forall i | 0 <= i <= l
      ensures Items(Shifted(q, e, at, to, k).qs[i], n) == Items(q.qs[i], n) + Bit(i == to) - Bit(i == q.level[e])
    {
      ShiftCounts(q, e, at, to, k, n, i);
    }
  }

  lemma BroughtDown(q: Queue, q': Queue, e: nat, at: nat, l: nat, n: nat)
    requires e < |q.level| && l < q.level[e] < |q.qs| && at < |q.qs[q.level[e]]| && q.qs[q.level[e]][at] == e < n
    requires forall i :: 0 <= i < at ==> q.qs[q.level[e]][i] >= n
    requires Total(q.qs, n, l + 1) == Total(q.qs, n, q.level[e]) && q' == Shifted(q, e, at, l, |q.qs[l]|)
    ensures CameDown(q.qs, q'.qs, l, n)
  {
    OneCameDown(q.qs, q'.qs, l, q.level[e], at, n);
  }

  /** The oldest entry of the levels above goes to the back of a level. */
  method PullOne(w: Weave, ghost all: seq<seq<nat>>, base: nat, ghost q0: Queue, ghost q: Queue, levels: nat,
                 level: seq<nat>,
                 l: nat, n: nat)
    returns (found: bool, ghost q': Queue, level': seq<nat>)
    requires Holds(w, all, base, q, n) && level == q.level && levels == |q.qs| && Filling(q0, q, l, n)
    modifies w, w.space.links
    ensures Holds(w, all, base, q', n) && level' == q'.level && Filling(q0, q', l, n)
    ensures found ==> Total(q'.qs, n, l + 1) < Total(q.qs, n, l + 1) && Items(q'.qs[l], n) == Items(q.qs[l], n) + 1
    ensures CameDown(q.qs, q'.qs, l, n)
    ensures !found ==> q' == q && Total(q.qs, n, l + 1) == 0
  {
    q', level' := q, level;
    var from, e;
    ghost var at;
    found, from, e, at := FindFrom(w, all, base, q, levels, l + 1, n);
    if found {
      assert In(q, from, e);
      ghost var k := |q.qs[l]|;
      FillingStep(q0, q, e, at, l, k, l, n);
      q', level' := MoveTo(w, all, base, q, level, e, l, Back, at, k, n);
      BroughtDown(q, q', e, at, l, n);
    } else {
      NoneCameDown(q.qs, l, n);
    }
  }

  /** Pulls entries down from the levels above until the target is met or none is left. */
  method PullDown(w: Weave, ghost all: seq<seq<nat>>, base: nat, ghost q: Queue, levels: nat, level: seq<nat>,
                  l: nat, target: nat, n: nat)
    returns (ghost q': Queue, level': seq<nat>)
    requires Holds(w, all, base, q, n) && level == q.level && Valid(q) && l + 1 < levels == |q.qs|
    modifies w, w.space.links
    ensures Holds(w, all, base, q', n) && level' == q'.level && Filling(q, q', l, n)
    ensures Items(q'.qs[l], n) < target ==> Total(q'.qs, n, l + 1) == 0
    ensures Items(q'.qs[l], n) <= target || Items(q'.qs[l], n) == Items(q.qs[l], n)
    ensures CameDown(q.qs, q'.qs, l, n) && (Items(q.qs[l], n) >= target ==> q' == q)
  {
    q', level' := q, level;
    NoneCameDown(q.qs, l, n);
    var size := Length(w, all, base, q', l, n);
    while size < target
      invariant Holds(w, all, base, q', n) && level' == q'.level && Filling(q, q', l, n)
      invariant size == Items(q'.qs[l], n) && (size <= target || size == Items(q.qs[l], n))
      invariant CameDown(q.qs, q'.qs, l, n) && (Items(q.qs[l], n) >= target ==> q' == q)
      decreases Total(q'.qs, n, l + 1)
    {
      var found;
      ghost var before := q';
      found, q', level' := PullOne(w, all, base, q, q', levels, level', l, n);
      CameDownTrans(q.qs, before.qs, q'.qs, l, n);
      if !found {
        break;
      }
      size := Length(w, all, base, q', l, n);
    }
  }

  /** Pushes the youngest entries up while there are more than the target. */
  method PushUp(w: Weave, ghost all: seq<seq<nat>>, base: nat, ghost q: Queue, levels: nat, level: seq<nat>,
                l: nat, target: nat, n: nat)
    returns (ghost q': Queue, level': seq<nat>)
    requires Holds(w, all, base, q, n) && level == q.level && Valid(q) && l + 1 < levels == |q.qs|
    modifies w, w.space.links
    ensures Holds(w, all, base, q', n) && level' == q'.level && Filling(q, q', l, n)
    ensures Items(q'.qs[l], n) == if Items(q.qs[l], n) > target then target else Items(q.qs[l], n)
    ensures WentUp(q.qs, q'.qs, l, n) && (Items(q.qs[l], n) <= target ==> q' == q)
  {
    q', level' := q, level;
    NoneWentUp(q.qs, l, n);
    var size := Length(w, all, base, q', l, n);
    while size > target
      invariant Holds(w, all, base, q', n) && level' == q'.level && Filling(q, q', l, n)
      invariant size == Items(q'.qs[l], n)
      invariant size == Items(q.qs[l], n) || target <= size <= Items(q.qs[l], n)
      invariant WentUp(q.qs, q'.qs, l, n) && (Items(q.qs[l], n) <= target ==> q' == q)
    {
      q', level' := PushOne(w, all, base, q, q', level', l, n);
      size := Length(w, all, base, q', l, n);
    }
  }

  /** The youngest entry of a level goes to the back of the level above. */
  method PushOne(w: Weave, ghost all: seq<seq<nat>>, base: nat, ghost q0: Queue, ghost q: Queue, level: seq<nat>,
                 l: nat, n: nat)
    returns (ghost q': Queue, level': seq<nat>)
    requires Holds(w, all, base, q, n) && level == q.level && Filling(q0, q, l, n) && Items(q.qs[l], n) > 0
    requires WentUp(q0.qs, q.qs, l, n)
    modifies w, w.space.links
    ensures Holds(w, all, base, q', n) && level' == q'.level && Filling(q0, q', l, n)
    ensures Items(q'.qs[l], n) == Items(q.qs[l], n) - 1 && WentUp(q0.qs, q'.qs, l, n)
  {
    var e;
    ghost var at;
    e, at := PopYoungest(w, all, base, q, l, n);
    assert In(q, l, e);
    ghost var k := |q.qs[l + 1]|;
    FillingStep(q0, q, e, at, l + 1, k, l, n);
    level' := level[e := l + 1];
    ghost var b := TakeAt(q, l, at).(level := level');
    Join(w, all, base, b, e, l + 1, Back, k, n);
    q' := AddAt(b, e, k);
    OneWentUp(q0.qs, q.qs, q'.qs, l, at, n);
  }

  /** `l_pop_tail` of a level that has an entry. */
  method PopYoungest(w: Weave, ghost all: seq<seq<nat>>, base: nat, ghost q: Queue, l: nat, n: nat)
    returns (e: nat, ghost at: nat)
    requires Holds(w, all, base, q, n) && l < |q.qs| && Items(q.qs[l], n) > 0
    modifies w, w.space.links
    ensures at < |q.qs[l]| && q.qs[l][at] == e < n && forall i :: at < i < |q.qs[l]| ==> q.qs[l][i] >= n
    ensures Holds(w, all, base, TakeAt(q, l, at), n) && Nowhere(w.spelled, e)
  {
    assert Threads(w.space.links[..], w.space.sentinel, w.lists[base + l], q.qs[l]);
    CountIsItems(w.space.sentinel, q.qs[l], n);
    var found;
    found, e, at := w.Pop(base + l, true);
    SpliceUpdate(all, base, q.qs, l, RemoveAt(q.qs[l], at));
  }

  /** Pulling down and then pushing up gives a level its target, or all there is. */
  lemma FilledUp(q: Queue, half: Queue, q': Queue, l: nat, target: nat, n: nat)
    requires Filling(q, half, l, n) && Filling(half, q', l, n)
    requires Items(half.qs[l], n) < target ==> Total(half.qs, n, l + 1) == 0
    requires Items(half.qs[l], n) <= target || Items(half.qs[l], n) == Items(q.qs[l], n)
    requires Items(q'.qs[l], n) == if Items(half.qs[l], n) > target then target else Items(half.qs[l], n)
    ensures Filling(q, q', l, n)
    ensures Items(q'.qs[l], n) == if Total(q.qs, n, l) < target then Total(q.qs, n, l) else target
  {
    assert Total(half.qs, n, l) == Items(half.qs[l], n) + Total(half.qs, n, l + 1);
  }

  /** Fills one level to its target from above, or pushes its surplus up. */
  method FillLevel(w: Weave, ghost all: seq<seq<nat>>, base: nat, ghost q: Queue, levels: nat, level: seq<nat>,
                   l: nat, target: nat, n: nat)
    returns (ghost q': Queue, level': seq<nat>)
    requires Holds(w, all, base, q, n) && level == q.level && Valid(q) && l + 1 < levels == |q.qs|
    modifies w, w.space.links
    ensures Holds(w, all, base, q', n) && level' == q'.level && Filling(q, q', l, n)
    ensures Items(q'.qs[l], n) == if Total(q.qs, n, l) < target then Total(q.qs, n, l) else target
    ensures Levelled(q.qs, q'.qs, l, target, n)
  {
    q', level' := PullDown(w, all, base, q, levels, level, l, target, n);
    ghost var half := q';
    q', level' := PushUp(w, all, base, q', levels, level', l, target, n);
    FilledUp(q, half, q', l, target, n);
  }

  /** The levels below l have got what the targets give them. */
  ghost predicate Settled(q0: Queue, q: Queue, target: seq<nat>, l: nat, n: nat) {
    && Rearranged(q0, q, n) && l < |q0.qs| == |target|
    && Total(q.qs, n, l) == Left(target, Total(q0.qs, n, 0), l)
    && forall i :: 0 <= i < l ==> Items(q.qs[i], n) == Filled(target, Total(q0.qs, n, 0), i)
  }

  lemma SettledStep(q0: Queue, q: Queue, q': Queue, target: seq<nat>, l: nat, n: nat)
    requires Settled(q0, q, target, l, n) && Filling(q, q', l, n)
    requires Items(q'.qs[l], n) == if Total(q.qs, n, l) < target[l] then Total(q.qs, n, l) else target[l]
    ensures Settled(q0, q', target, l + 1, n)
  {
  }

  lemma AllSettled(q0: Queue, q: Queue, target: seq<nat>, n: nat)
    requires |target| > 0 && Settled(q0, q, target, |target| - 1, n)
    ensures forall l :: 0 <= l < |q0.qs| ==> Items(q.qs[l], n) == Filled(target, Total(q0.qs, n, 0), l)
  {
    assert Total(q.qs, n, |target|) == 0;
  }

  /** The queues on the way: each level in turn, lowest first, has been given its target. */
  ghost predicate Trail(trail: seq<Queue>, target: seq<nat>, n: nat) {
    |trail| <= |target| &&
    forall i :: 0 <= i < |trail| - 1 ==> Levelled(trail[i].qs, trail[i + 1].qs, i, target[i], n)
  }

  ghost predicate TrailTo(trail: seq<Queue>, q: Queue, q': Queue, l: nat, target: seq<nat>, n: nat) {
    |trail| == l + 1 && trail[0] == q && trail[l] == q' && Trail(trail, target, n)
  }

  lemma TrailGrows(trail: seq<Queue>, q: Queue, a: Queue, q': Queue, l: nat, target: seq<nat>, n: nat)
    requires TrailTo(trail, q, a, l, target, n) && l + 1 < |target| && Levelled(a.qs, q'.qs, l, target[l], n)
    ensures TrailTo(trail + [q'], q, q', l + 1, target, n)
  {
    var t := trail + [q'];
    forall i | 0 <= i < |t| - 1
      ensures Levelled(t[i].qs, t[i + 1].qs, i, target[i], n)
    {
      assert i + 1 < |trail| ==> t[i + 1] == trail[i + 1];
    }
  }

  /** `q_redistribute`: no entry is lost or duplicated, and every level ends with its target
      or with what was left for it; entries that come down keep the order of the row, and a surplus
      goes up youngest first. */
  method Redistribute(w: Weave, ghost all: seq<seq<nat>>, base: nat, ghost q: Queue, levels: nat, level: seq<nat>,
                      target: seq<nat>, n: nat)
    returns (ghost q': Queue, level': seq<nat>, ghost trail: seq<Queue>)
    requires Holds(w, all, base, q, n) && level == q.level && Valid(q) && 0 < levels == |q.qs| == |target|
    modifies w, w.space.links
    ensures Holds(w, all, base, q', n) && level' == q'.level && Rearranged(q, q', n)
    ensures forall l :: 0 <= l < |q.qs| ==> Items(q'.qs[l], n) == Filled(target, Total(q.qs, n, 0), l)
    ensures TrailTo(trail, q, q', levels - 1, target, n)
  {
    q', level', trail := q, level, [q];
    for l := 0 to levels - 1
      invariant Holds(w, all, base, q', n) && level' == q'.level && Settled(q, q', target, l, n)
      invariant TrailTo(trail, q, q', l, target, n)
    {
      ghost var before := q';
      q', level' := FillLevel(w, all, base, q', levels, level', l, target[l], n);
      SettledStep(q, before, q', target, l, n);
      TrailGrows(trail, q, before, q', l, target, n);
      trail := trail + [q'];
    }
    AllSettled(q, q', target, n);
  }
}
