/** The range lock of dm-integrity: a tree of sector ranges in progress and a first-in
    first-out list of ranges that wait for them.

    Requests are numbered in the order they arrive; the number is what the history theorems
    speak about, the code only looks at the ranges.
 */
module RangeLock {
  import opened Options
  import opened Sequences

  datatype Range = Range(start: nat, len: nat)

  datatype Request = Request(id: nat, range: Range)

  /** `ranges_overlap` */
  predicate Overlap(a: Range, b: Range) {
    a.start < b.start + b.len && a.start + a.len > b.start
  }

  datatype Tree = Leaf | Node(left: Tree, item: Request, right: Tree)

  function InOrder(t: Tree): seq<Request> {
    match t
    case Leaf => []
    case Node(l, x, r) => InOrder(l) + [x] + InOrder(r)
  }

  /** Ranges in a sequence are non-empty, ascending and do not overlap. */
  ghost predicate Ordered(s: seq<Request>) {
    && (forall i :: 0 <= i < |s| ==> s[i].range.len > 0)
    && (forall i, j :: 0 <= i < j < |s| ==> s[i].range.start + s[i].range.len <= s[j].range.start)
  }

  ghost predicate Blocked(s: seq<Request>, r: Range) {
    exists i :: 0 <= i < |s| && Overlap(s[i].range, r)
  }

  /** The descent of `add_new_range`: left or right of ranges that lie wholly beside the new
      one, failing at the first that does not. */
  function Link(t: Tree, x: Request): Option<Tree> {
    match t
    case Leaf => Some(Node(Leaf, x, Leaf))
    case Node(l, y, r) =>
      if x.range.start + x.range.len <= y.range.start then
        match Link(l, x) { case Some(l') => Some(Node(l', y, r)) case None => None }
      else if x.range.start >= y.range.start + y.range.len then
        match Link(r, x) { case Some(r') => Some(Node(l, y, r')) case None => None }
      else None
  }

  lemma OrderedParts(left: seq<Request>, y: Request, right: seq<Request>)
    requires Ordered(left + [y] + right)
    ensures Ordered(left) && Ordered(right) && y.range.len > 0
    ensures forall i :: 0 <= i < |left| ==> left[i].range.start + left[i].range.len <= y.range.start
    ensures forall i :: 0 <= i < |right| ==> y.range.start + y.range.len <= right[i].range.start
  {
    var s := left + [y] + right;
    var n := |left|;
    assert s[n] == y;
    SubOrdered(s, 0, n);
    SubOrdered(s, n + 1, |s|);
    assert s[0..n] == left && s[n + 1..|s|] == right;
    forall i | 0 <= i < n
      ensures left[i].range.start + left[i].range.len <= y.range.start
    {
      assert left[i] == s[i];
    }
    forall i | 0 <= i < |right|
      ensures y.range.start + y.range.len <= right[i].range.start
    {
      assert right[i] == s[n + 1 + i];
    }
  }

  lemma SubOrdered(s: seq<Request>, lo: nat, hi: nat)
    requires Ordered(s) && lo <= hi <= |s|
    ensures Ordered(s[lo..hi])
  {
    var t := s[lo..hi];
    forall i, j | 0 <= i < j < |t|
      ensures t[i].range.start + t[i].range.len <= t[j].range.start
    {
      assert t[i] == s[lo + i] && t[j] == s[lo + j];
    }
  }

  lemma OrderedJoin(left: seq<Request>, y: Request, right: seq<Request>)
    requires Ordered(left) && Ordered(right) && y.range.len > 0
    requires forall i :: 0 <= i < |left| ==> left[i].range.start + left[i].range.len <= y.range.start
    requires forall i :: 0 <= i < |right| ==> y.range.start + y.range.len <= right[i].range.start
    ensures Ordered(left + [y] + right)
  {
    var s := left + [y] + right;
    forall i, j | 0 <= i < j < |s|
      ensures s[i].range.start + s[i].range.len <= s[j].range.start
    {
      assert i < |left| ==> s[i] == left[i];
      assert j < |left| ==> s[j] == left[j];
      assert i > |left| ==> s[i] == right[i - |left| - 1];
      assert j > |left| ==> s[j] == right[j - |left| - 1];
    }
  }

  /** Where a range that fits goes. */
  ghost predicate Inserted(s: seq<Request>, x: Request, s': seq<Request>) {
    exists n :: 0 <= n <= |s| && s' == s[..n] + [x] + s[n..]
  }

  lemma BlockedParts(left: seq<Request>, y: Request, right: seq<Request>, r: Range)
    ensures Blocked(left + [y] + right, r) <==> Blocked(left, r) || Overlap(y.range, r) || Blocked(right, r)
  {
    var s := left + [y] + right;
    assert s[|left|] == y;
    if i :| 0 <= i < |left| && Overlap(left[i].range, r) { assert s[i] == left[i]; }
    if i :| 0 <= i < |right| && Overlap(right[i].range, r) { assert s[|left| + 1 + i] == right[i]; }
  }

  lemma InsertedParts(left: seq<Request>, y: Request, right: seq<Request>, x: Request, part: seq<Request>)
    ensures Inserted(left, x, part) ==> Inserted(left + [y] + right, x, part + [y] + right)
    ensures Inserted(right, x, part) ==> Inserted(left + [y] + right, x, left + [y] + part)
  {
    var s := left + [y] + right;
    if n :| 0 <= n <= |left| && part == left[..n] + [x] + left[n..] {
      assert part + [y] + right == s[..n] + [x] + s[n..];
    }
    if n :| 0 <= n <= |right| && part == right[..n] + [x] + right[n..] {
      var m := |left| + 1 + n;
      assert left + [y] + part == s[..m] + [x] + s[m..];
    }
  }

  /** The descent along one path decides for the whole tree: it fails exactly when some range
      in progress overlaps, and otherwise links the range in its place. */
  lemma {:induction false} LinkDecides(t: Tree, x: Request)
    requires Ordered(InOrder(t)) && x.range.len > 0
    ensures Link(t, x).None? <==> Blocked(InOrder(t), x.range)
    ensures Link(t, x).Some? ==>
              && Inserted(InOrder(t), x, InOrder(Link(t, x).value))
              && Ordered(InOrder(Link(t, x).value))
  {
    match t
    case Leaf =>
      assert InOrder(Link(t, x).value) == [][..0] + [x] + [][0..];
    case Node(l, y, r) =>
      var left, right := InOrder(l), InOrder(r);
      OrderedParts(left, y, right);
      BlockedParts(left, y, right, x.range);
      if x.range.start + x.range.len <= y.range.start {
        LinkDecides(l, x);
        if Link(l, x).Some? {
          LinkedLeft(left, y, right, x, InOrder(Link(l, x).value));
        }
      } else if x.range.start >= y.range.start + y.range.len {
        LinkDecides(r, x);
        if Link(r, x).Some? {
          LinkedRight(left, y, right, x, InOrder(Link(r, x).value));
        }
      }
  }

  lemma InsertedMembers(s: seq<Request>, x: Request, s': seq<Request>)
    requires Inserted(s, x, s')
    ensures forall i :: 0 <= i < |s'| ==> s'[i] == x || s'[i] in s
  {
    var n :| 0 <= n <= |s| && s' == s[..n] + [x] + s[n..];
    forall i | 0 <= i < |s'| && i != n
      ensures s'[i] in s
    {
      assert s'[i] == s[if i < n then i else i - 1];
    }
  }

  lemma LinkedLeft(left: seq<Request>, y: Request, right: seq<Request>, x: Request, part: seq<Request>)
    requires Ordered(left + [y] + right) && Ordered(part) && Inserted(left, x, part)
    requires x.range.start + x.range.len <= y.range.start
    ensures Inserted(left + [y] + right, x, part + [y] + right) && Ordered(part + [y] + right)
  {
    OrderedParts(left, y, right);
    InsertedParts(left, y, right, x, part);
    InsertedMembers(left, x, part);
    OrderedJoin(part, y, right);
  }

  lemma LinkedRight(left: seq<Request>, y: Request, right: seq<Request>, x: Request, part: seq<Request>)
    requires Ordered(left + [y] + right) && Ordered(part) && Inserted(right, x, part)
    requires x.range.start >= y.range.start + y.range.len
    ensures Inserted(left + [y] + right, x, left + [y] + part) && Ordered(left + [y] + part)
  {
    OrderedParts(left, y, right);
    InsertedParts(left, y, right, x, part);
    InsertedMembers(right, x, part);
    OrderedJoin(left, y, part);
  }

  // ---------------------------------------------------------------- the lock

  datatype Lock = Lock(inProgress: Tree, waiting: seq<Request>)

  /** A tree with a given in-order sequence, standing for any rebalanced one. */
  function Chain(s: seq<Request>): (t: Tree)
    ensures InOrder(t) == s
  {
    if |s| == 0 then Leaf else Node(Leaf, s[0], Chain(s[1..]))
  }

  /** Whether `add_new_range` turns a newcomer away. */
  ghost predicate Refused(l: Lock, tried: Range) {
    Blocked(l.waiting, tried) || Blocked(InOrder(l.inProgress), tried)
  }

  /** `add_new_range` with the check against waiters on, else joining the waiters.  A read that
      the journal answers waits with its first block only. */
  ghost function Acquire(l: Lock, x: Request, short: Range): Lock {
    if Blocked(l.waiting, x.range) || Link(l.inProgress, x).None?
    then l.(waiting := l.waiting + [x.(range := short)])
    else l.(inProgress := Link(l.inProgress, x).value)
  }

  /** The range a newcomer waits with: all it tried to get, or the front of it. */
  predicate Front(short: Range, tried: Range) {
    short.start == tried.start && 0 < short.len <= tried.len
  }

  /** The loop of `remove_range_unlocked`: lets waiters in from the head until one is blocked. */
  ghost function Drain(l: Lock): Lock
    decreases |l.waiting|
  {
    if |l.waiting| == 0 || Link(l.inProgress, l.waiting[0]).None? then l
    else Drain(Lock(Link(l.inProgress, l.waiting[0]).value, l.waiting[1..]))
  }

  ghost function Release(l: Lock, x: Request): Lock {
    Drain(l.(inProgress := Chain(Without(InOrder(l.inProgress), x))))
  }

  /** In-progress ranges are disjoint; whoever waits has somebody left to wake them. */
  ghost predicate Valid(l: Lock) {
    && Ordered(InOrder(l.inProgress))
    && (forall i :: 0 <= i < |l.waiting| ==> l.waiting[i].range.len > 0)
    && (|l.waiting| > 0 ==> |InOrder(l.inProgress)| > 0)
  }

  /** Whoever waits at the head overlaps a range in progress. */
  ghost predicate HeadOverlaps(l: Lock) {
    |l.waiting| > 0 ==> Blocked(InOrder(l.inProgress), l.waiting[0].range)
  }

  /** The descent in the tree, one loop iteration per level. */
  method CanLink(t: Tree, x: Request) returns (ok: bool)
    ensures ok == Link(t, x).Some?
  {
    var n := t;
    while n.Node?
      invariant Link(t, x).Some? == Link(n, x).Some?
      decreases n
    {
      if x.range.start + x.range.len <= n.item.range.start {
        n := n.left;
      } else if x.range.start >= n.item.range.start + n.item.range.len {
        n := n.right;
      } else {
        return false;
      }
    }
    ok := true;
  }

  class RangeLocker {
    var inProgress: Tree
    var waiting: seq<Request>

    ghost function State(): Lock
      reads this
    {
      Lock(inProgress, waiting)
    }

    constructor ()
      ensures State() == Lock(Leaf, []) && Valid(State())
    {
      inProgress, waiting := Leaf, [];
    }

    /** `add_new_range` */
    method AddNewRange(x: Request, checkWaiting: bool) returns (ok: bool)
      modifies `inProgress
      ensures ok == (!(checkWaiting && Blocked(waiting, x.range)) && Link(old(inProgress), x).Some?)
      ensures inProgress == if ok then Link(old(inProgress), x).value else old(inProgress)
      ensures Ordered(InOrder(old(inProgress))) && x.range.len > 0 ==>
                && (ok <==> !(checkWaiting && Blocked(waiting, x.range)) && !Blocked(InOrder(old(inProgress)), x.range))
                && (ok ==> Inserted(InOrder(old(inProgress)), x, InOrder(inProgress)) && Ordered(InOrder(inProgress)))
    {
      if Ordered(InOrder(inProgress)) && x.range.len > 0 {
        LinkDecides(inProgress, x);
      }
      if checkWaiting {
        var i := 0;
        while i < |waiting|
          invariant 0 <= i <= |waiting|
          invariant forall j :: 0 <= j < i ==> !Overlap(waiting[j].range, x.range)
        {
          if Overlap(waiting[i].range, x.range) {
            return false;
          }
          i := i + 1;
        }
      }
      ok := CanLink(inProgress, x);
      if ok {
        inProgress := Link(inProgress, x).value;
      }
    }

    /** Tries for a range and, turned away, joins the waiters, up to the point of going to sleep:
        with the same range in `add_new_range_and_wait`, with the front of it where the request
        routine has found its first block in the journal. */
    method AddNewRangeAndWait(x: Request, short: Range) returns (granted: bool)
      requires Valid(State()) && Front(short, x.range)
      modifies this
      ensures State() == Acquire(old(State()), x, short) && Valid(State())
      ensures granted <==> !Refused(old(State()), x.range)
      ensures granted ==> Inserted(InOrder(old(inProgress)), x, InOrder(inProgress)) && waiting == old(waiting)
      ensures !granted ==> waiting == old(waiting) + [x.(range := short)] && inProgress == old(inProgress)
    {
      AcquireKeeps(State(), x, short);
      LinkDecides(inProgress, x);
      granted := AddNewRange(x, true);
      if !granted {
        waiting := waiting + [x.(range := short)];
      }
    }

    /** `remove_range_unlocked` */
    method RemoveRange(x: Request) returns (ghost n: nat)
      requires Valid(State()) && x in InOrder(inProgress)
      modifies this
      ensures State() == Release(old(State()), x) && Valid(State()) && HeadOverlaps(State())
      ensures n <= |old(waiting)| && waiting == old(waiting)[n..]
      ensures forall y :: Count(InOrder(inProgress), y) ==
                          Count(InOrder(old(inProgress)), y) - Bit(y == x) + Count(old(waiting)[..n], y)
      ensures forall y :: y in InOrder(old(inProgress)) && y != x ==> y in InOrder(inProgress)
      ensures x !in old(waiting) ==> x !in InOrder(inProgress)
    {
      ReleaseKeeps(State(), x);
      n := ReleaseTakes(State(), x);
      inProgress := Chain(Without(InOrder(inProgress), x));
      LetWaitersIn();
    }

    /** The loop of `remove_range_unlocked`. */
    method LetWaitersIn()
      modifies this
      ensures State() == Drain(old(State()))
    {
      while |waiting| > 0
        invariant Drain(State()) == Drain(old(State()))
        decreases |waiting|
      {
        var head := waiting[0];
        waiting := waiting[1..];
        var ok := AddNewRange(head, false);
        if !ok {
          waiting := [head] + waiting;
          break;
        }
      }
    }
  }

  lemma AcquireKeeps(l: Lock, x: Request, short: Range)
    requires Valid(l) && Front(short, x.range)
    ensures Valid(Acquire(l, x, short))
  {
    LinkDecides(l.inProgress, x);
  }

  /** Letting a range in blocks those it overlaps, and nobody else. */
  lemma BlockedMore(s: seq<Request>, x: Request, s': seq<Request>, r: Range)
    requires Inserted(s, x, s')
    ensures Blocked(s', r) <==> Blocked(s, r) || Overlap(x.range, r)
  {
    var n :| 0 <= n <= |s| && s' == s[..n] + [x] + s[n..];
    BlockedParts(s[..n], x, s[n..], r);
    if Blocked(s, r) {
      var i :| 0 <= i < |s| && Overlap(s[i].range, r);
      assert s'[if i < n then i else i + 1] == s[i];
    }
    if i :| 0 <= i < |s'| && Overlap(s'[i].range, r) && i != n {
      assert s'[i] == s[if i < n then i else i - 1];
    }
  }

  /** Erasing a range leaves the others, disjoint as before, and not itself. */
  lemma WithoutOrdered(s: seq<Request>, x: Request)
    requires Ordered(s)
    ensures Ordered(Without(s, x))
    ensures x !in Without(s, x)
  {
    var k := WithoutIs(s, x);
    if x in s {
      RemoveAtOrdered(s, k);
    }
  }

  lemma RemoveAtOrdered(s: seq<Request>, k: nat)
    requires Ordered(s) && k < |s|
    ensures Ordered(s[..k] + s[k + 1..]) && s[k] !in s[..k] + s[k + 1..]
  {
    var t := s[..k] + s[k + 1..];
    forall i | 0 <= i < |t|
      ensures t[i] == s[if i < k then i else i + 1]
    {
    }
    forall i, j | 0 <= i < j < |t|
      ensures t[i].range.start + t[i].range.len <= t[j].range.start
    {
      var i', j' := if i < k then i else i + 1, if j < k then j else j + 1;
      assert i' < j' && t[i] == s[i'] && t[j] == s[j'];
    }
  }

  /** Letting waiters in keeps ranges disjoint and stops with the list empty or the head blocked. */
  lemma {:induction false} DrainKeeps(l: Lock)
    requires Ordered(InOrder(l.inProgress))
    requires forall i :: 0 <= i < |l.waiting| ==> l.waiting[i].range.len > 0
    ensures Valid(Drain(l)) && HeadOverlaps(Drain(l))
    decreases |l.waiting|
  {
    if |l.waiting| > 0 {
      LinkDecides(l.inProgress, l.waiting[0]);
      if Link(l.inProgress, l.waiting[0]).Some? {
        DrainKeeps(Lock(Link(l.inProgress, l.waiting[0]).value, l.waiting[1..]));
      }
    }
  }

  lemma ReleaseKeeps(l: Lock, x: Request)
    requires Valid(l)
    ensures Valid(Release(l, x)) && HeadOverlaps(Release(l, x))
  {
    WithoutOrdered(InOrder(l.inProgress), x);
    DrainKeeps(l.(inProgress := Chain(Without(InOrder(l.inProgress), x))));
  }

  /** How often a request occurs. */
  ghost function Count(s: seq<Request>, y: Request): nat {
    if |s| == 0 then 0 else Bit(s[0] == y) + Count(s[1..], y)
  }

  lemma {:induction false} CountJoin(s: seq<Request>, t: seq<Request>, y: Request)
    ensures Count(s + t, y) == Count(s, y) + Count(t, y)
  {
    if |s| == 0 {
      assert s + t == t;
    } else {
      assert (s + t)[1..] == s[1..] + t;
      CountJoin(s[1..], t, y);
    }
  }

  lemma {:induction false} CountPositive(s: seq<Request>, y: Request)
    ensures Count(s, y) > 0 <==> y in s
  {
    if |s| > 0 {
      assert s == [s[0]] + s[1..];
      CountPositive(s[1..], y);
    }
  }

  lemma CountInserted(s: seq<Request>, x: Request, s': seq<Request>, y: Request)
    requires Inserted(s, x, s')
    ensures Count(s', y) == Count(s, y) + Bit(x == y)
  {
    var n :| 0 <= n <= |s| && s' == s[..n] + [x] + s[n..];
    CountJoin(s[..n] + [x], s[n..], y);
    CountJoin(s[..n], [x], y);
    CountOne(x, y);
    CountSplit(s, n, y);
  }

  lemma CountOne(x: Request, y: Request)
    ensures Count([x], y) == Bit(x == y)
  {
    assert [x][1..] == [];
  }

  lemma CountSplit(s: seq<Request>, n: nat, y: Request)
    requires n <= |s|
    ensures Count(s, y) == Count(s[..n], y) + Count(s[n..], y)
  {
    CountJoin(s[..n], s[n..], y);
    assert s == s[..n] + s[n..];
  }

  lemma {:induction false} CountWithout(s: seq<Request>, x: Request, y: Request)
    requires x in s
    ensures Count(Without(s, x), y) == Count(s, y) - Bit(x == y)
  {
    if s[0] != x {
      CountWithout(s[1..], x, y);
      CountJoin([s[0]], Without(s[1..], x), y);
      assert [s[0]][1..] == [];
    }
  }

  /** How many waiters a drain lets in. */
  ghost function LetIn(l: Lock): nat
    decreases |l.waiting|
  {
    if |l.waiting| == 0 || Link(l.inProgress, l.waiting[0]).None? then 0
    else 1 + LetIn(Lock(Link(l.inProgress, l.waiting[0]).value, l.waiting[1..]))
  }

  /** They come from the front of the list. */
  lemma {:induction false} DrainTakes(l: Lock)
    ensures LetIn(l) <= |l.waiting| && Drain(l).waiting == l.waiting[LetIn(l)..]
    decreases |l.waiting|
  {
    if |l.waiting| > 0 && Link(l.inProgress, l.waiting[0]).Some? {
      DrainTakes(Lock(Link(l.inProgress, l.waiting[0]).value, l.waiting[1..]));
    }
  }

  /** And nobody in progress goes. */
  lemma {:induction false} DrainCounts(l: Lock, y: Request)
    requires Ordered(InOrder(l.inProgress))
    requires forall i :: 0 <= i < |l.waiting| ==> l.waiting[i].range.len > 0
    ensures LetIn(l) <= |l.waiting|
    ensures Count(InOrder(Drain(l).inProgress), y) ==
            Count(InOrder(l.inProgress), y) + Count(l.waiting[..LetIn(l)], y)
    decreases |l.waiting|
  {
    DrainTakes(l);
    if |l.waiting| > 0 {
      var head := l.waiting[0];
      LinkDecides(l.inProgress, head);
      if Link(l.inProgress, head).Some? {
        var l' := Lock(Link(l.inProgress, head).value, l.waiting[1..]);
        CountInserted(InOrder(l.inProgress), head, InOrder(l'.inProgress), y);
        DrainCounts(l', y);
        assert l.waiting[..LetIn(l)][1..] == l'.waiting[..LetIn(l')];
      }
    }
  }

  /** The end of a range takes that range out, and nothing else but waiters in. */
  lemma ReleaseCounts(l: Lock, x: Request, n: nat, y: Request)
    requires Valid(l) && x in InOrder(l.inProgress)
    requires n == LetIn(l.(inProgress := Chain(Without(InOrder(l.inProgress), x))))
    ensures n <= |l.waiting| && Release(l, x).waiting == l.waiting[n..]
    ensures Count(InOrder(Release(l, x).inProgress), y) ==
            Count(InOrder(l.inProgress), y) - Bit(y == x) + Count(l.waiting[..n], y)
  {
    var s := InOrder(l.inProgress);
    var l' := l.(inProgress := Chain(Without(s, x)));
    WithoutOrdered(s, x);
    CountWithout(s, x, y);
    DrainTakes(l');
    DrainCounts(l', y);
  }

  lemma ReleaseTakes(l: Lock, x: Request) returns (n: nat)
    requires Valid(l) && x in InOrder(l.inProgress)
    ensures n <= |l.waiting| && Release(l, x).waiting == l.waiting[n..]
    ensures forall y :: Count(InOrder(Release(l, x).inProgress), y) ==
                        Count(InOrder(l.inProgress), y) - Bit(y == x) + Count(l.waiting[..n], y)
    ensures forall y :: y in InOrder(l.inProgress) && y != x ==> y in InOrder(Release(l, x).inProgress)
    ensures x !in l.waiting ==> x !in InOrder(Release(l, x).inProgress)
  {
    var s, s' := InOrder(l.inProgress), InOrder(Release(l, x).inProgress);
    n := LetIn(l.(inProgress := Chain(Without(s, x))));
    ReleaseCounts(l, x, n, x);
    forall y
      ensures Count(s', y) == Count(s, y) - Bit(y == x) + Count(l.waiting[..n], y)
    {
      ReleaseCounts(l, x, n, y);
    }
    forall y | y in s && y != x
      ensures y in s'
    {
      CountPositive(s, y);
      CountPositive(s', y);
    }
    if x !in l.waiting {
      OrderedOnce(s, x);
      CountPositive(l.waiting[..n], x);
      CountPositive(s', x);
    }
  }

  lemma OrderedOnce(s: seq<Request>, x: Request)
    requires Ordered(s)
    ensures Count(s, x) <= 1
  {
    CountPositive(s, x);
    if x in s {
      WithoutOrdered(s, x);
      CountWithout(s, x, x);
      CountPositive(Without(s, x), x);
    }
  }

  // ---------------------------------------------------------------- no overtaking

  /** `all` lists every request so far by number.  Waiters stand in order of arrival, and a
      request that is no longer waiting has no earlier overlapping request still waiting. */
  ghost predicate Fair(all: seq<Request>, l: Lock) {
    && (forall i :: 0 <= i < |all| ==> all[i].id == i)
    && (forall i :: 0 <= i < |l.waiting| ==> l.waiting[i] in all)
    && (forall i, j :: 0 <= i < j < |l.waiting| ==> l.waiting[i].id < l.waiting[j].id)
    && (forall i, j :: 0 <= i < j < |all| && Overlap(all[i].range, all[j].range) && all[i] in l.waiting ==>
          all[j] in l.waiting)
  }

  lemma AcquireIsFair(all: seq<Request>, l: Lock, x: Request, short: Range, y: Request)
    requires Fair(all, l) && x.id == |all| && Valid(l) && x.range.len > 0
    requires y == if Refused(l, x.range) then x.(range := short) else x
    ensures Fair(all + [y], Acquire(l, x, short))
  {
    LinkDecides(l.inProgress, x);
    var all', l' := all + [y], Acquire(l, x, short);
    forall i, j | 0 <= i < j < |all'| && Overlap(all'[i].range, all'[j].range) && all'[i] in l'.waiting
      ensures all'[j] in l'.waiting
    {
      assert all'[i] in l.waiting by {
        assert all'[i] != y;
      }
      if j == |all| {
        var k :| 0 <= k < |l.waiting| && l.waiting[k] == all'[i];
        assert y.range == x.range ==> Overlap(l.waiting[k].range, x.range);
      }
    }
  }

  /** The waiter let in is the earliest of all. */
  lemma {:induction false} DrainIsFair(all: seq<Request>, l: Lock)
    requires Fair(all, l)
    ensures Fair(all, Drain(l))
    decreases |l.waiting|
  {
    if |l.waiting| > 0 && Link(l.inProgress, l.waiting[0]).Some? {
      var l' := Lock(Link(l.inProgress, l.waiting[0]).value, l.waiting[1..]);
      forall i, j | 0 <= i < j < |all| && Overlap(all[i].range, all[j].range) && all[i] in l'.waiting
        ensures all[j] in l'.waiting
      {
        var k :| 0 <= k < |l'.waiting| && l'.waiting[k] == all[i];
        assert l.waiting[k + 1] == all[i];
        assert l.waiting[0].id < all[i].id;
        assert all[j] in l.waiting && all[j] != l.waiting[0];
      }
      assert forall i :: 0 <= i < |l'.waiting| ==> l'.waiting[i] == l.waiting[i + 1];
      DrainIsFair(all, l');
    }
  }

  datatype Event = Arrive(tried: Range, short: Range) | Leave(request: Request)

  predicate Proper(e: Event) {
    e.Arrive? ==> Front(e.short, e.tried)
  }

  ghost function Step(all: seq<Request>, l: Lock, e: Event): (seq<Request>, Lock) {
    match e
    case Arrive(tried, short) =>
      (all + [Request(|all|, if Refused(l, tried) then short else tried)], Acquire(l, Request(|all|, tried), short))
    case Leave(x) => (all, Release(l, x))
  }

  /** The lock and the requests so far, with the ranges they hold or wait for, after a run of
      arrivals and departures. */
  ghost function After(events: seq<Event>): (seq<Request>, Lock) {
    if |events| == 0 then ([], Lock(Leaf, []))
    else
      var (all, l) := After(events[..|events| - 1]);
      Step(all, l, events[|events| - 1])
  }

  /** In every run: in-progress ranges are disjoint, nobody overtakes an overlapping waiter, and
      nobody waits without a range in progress whose end will wake the wait list. */
  lemma {:induction false} EveryRun(events: seq<Event>)
    requires forall i :: 0 <= i < |events| ==> Proper(events[i])
    ensures Valid(After(events).1) && Fair(After(events).0, After(events).1)
  {
    if |events| > 0 {
      var e := events[|events| - 1];
      EveryRun(events[..|events| - 1]);
      assert Proper(e);
      var (all, l) := After(events[..|events| - 1]);
      match e
      case Arrive(tried, short) =>
        var x := Request(|all|, tried);
        AcquireKeeps(l, x, short);
        AcquireIsFair(all, l, x, short, if Refused(l, tried) then x.(range := short) else x);
      case Leave(x) =>
        ReleaseKeeps(l, x);
        DrainIsFair(all, l.(inProgress := Chain(Without(InOrder(l.inProgress), x))));
    }
  }

  // ---------------------------------------------------------------- nobody is forgotten

  /** A run of the callers: every wait is with a front, and only a range in progress ends. */
  ghost predicate Legal(events: seq<Event>) {
    forall i :: 0 <= i < |events| ==>
      && Proper(events[i])
      && (events[i].Leave? ==> events[i].request in InOrder(After(events[..i]).1.inProgress))
  }

  /** The requests that have left. */
  ghost function Left(events: seq<Event>): seq<Request> {
    if |events| == 0 then []
    else
      var before, e := Left(events[..|events| - 1]), events[|events| - 1];
      if e.Leave? then before + [e.request] else before
  }

  lemma LegalBefore(events: seq<Event>)
    requires Legal(events) && |events| > 0
    ensures
      var before, e := events[..|events| - 1], events[|events| - 1];
      Legal(before) && Proper(e) && (e.Leave? ==> e.request in InOrder(After(before).1.inProgress))
  {
    var before := events[..|events| - 1];
    forall i | 0 <= i < |before|
      ensures Proper(before[i])
      ensures before[i].Leave? ==> before[i].request in InOrder(After(before[..i]).1.inProgress)
    {
      assert before[i] == events[i] && before[..i] == events[..i];
    }
  }

  /** The requests so far are those waiting, those in progress and those that have left, each
      counted once. */
  lemma {:induction false} Ledger(events: seq<Event>, y: Request)
    requires Legal(events)
    ensures
      var (all, l) := After(events);
      Count(all, y) == Count(l.waiting, y) + Count(InOrder(l.inProgress), y) + Count(Left(events), y)
  {
    if |events| > 0 {
      var before, e := events[..|events| - 1], events[|events| - 1];
      LegalBefore(events);
      Ledger(before, y);
      EveryRun(before);
      var (all, l) := After(before);
      match e
      case Arrive(tried, short) => LedgerArrives(all, l, tried, short, y);
      case Leave(x) =>
        LedgerLeaves(l, x, y);
        CountJoin(Left(before), [x], y);
    }
  }

  lemma LedgerArrives(all: seq<Request>, l: Lock, tried: Range, short: Range, y: Request)
    requires Valid(l) && Front(short, tried)
    ensures
      var (all', l') := Step(all, l, Arrive(tried, short));
      Count(all', y) - Count(all, y) ==
      Count(l'.waiting, y) + Count(InOrder(l'.inProgress), y) - Count(l.waiting, y) - Count(InOrder(l.inProgress), y)
  {
    var x := Request(|all|, tried);
    LinkDecides(l.inProgress, x);
    if Refused(l, tried) {
      CountJoin(all, [x.(range := short)], y);
      CountJoin(l.waiting, [x.(range := short)], y);
    } else {
      CountJoin(all, [x], y);
      CountOne(x, y);
      CountInserted(InOrder(l.inProgress), x, InOrder(Link(l.inProgress, x).value), y);
    }
  }

  lemma LedgerLeaves(l: Lock, x: Request, y: Request)
    requires Valid(l) && x in InOrder(l.inProgress)
    ensures
      var l' := Release(l, x);
      Count(l'.waiting, y) + Count(InOrder(l'.inProgress), y) + Count([x], y) ==
      Count(l.waiting, y) + Count(InOrder(l.inProgress), y)
  {
    var n := ReleaseTakes(l, x);
    CountSplit(l.waiting, n, y);
    CountOne(x, y);
  }

  /** Every request of a run is at one place only, it waits, or is in progress, or has left; and
      nothing else is at any of the three. */
  lemma OnePlace(events: seq<Event>, x: Request)
    requires Legal(events)
    ensures
      var (all, l) := After(events);
      Count(l.waiting, x) + Count(InOrder(l.inProgress), x) + Count(Left(events), x) == Bit(x in all)
  {
    Ledger(events, x);
    EveryRun(events);
    OnceEach(After(events).0, 0, x);
  }

  lemma {:induction false} OnceEach(all: seq<Request>, first: nat, x: Request)
    requires forall i :: 0 <= i < |all| ==> all[i].id == first + i
    ensures Count(all, x) == Bit(x in all)
  {
    if |all| > 0 {
      assert all == [all[0]] + all[1..];
      OnceEach(all[1..], first + 1, x);
    }
  }

  lemma InProgress(events: seq<Event>, x: Request)
    requires Legal(events)
    ensures
      var (all, l) := After(events);
      x in all && x !in l.waiting && x !in Left(events) ==> x in InOrder(l.inProgress)
  {
    OnePlace(events, x);
    var l := After(events).1;
    CountPositive(l.waiting, x);
    CountPositive(InOrder(l.inProgress), x);
    CountPositive(Left(events), x);
  }

  /** Two requests that have been granted their ranges and have not left never overlap. */
  lemma HoldersAreApart(events: seq<Event>, i: nat, j: nat)
    requires Legal(events) && i < j < |After(events).0|
    ensures
      var (all, l) := After(events);
      all[i] !in l.waiting && all[j] !in l.waiting && all[i] !in Left(events) && all[j] !in Left(events) ==>
        !Overlap(all[i].range, all[j].range)
  {
    var (all, l) := After(events);
    EveryRun(events);
    InProgress(events, all[i]);
    InProgress(events, all[j]);
    assert all[i].id == i && all[j].id == j;
    if all[i] in InOrder(l.inProgress) && all[j] in InOrder(l.inProgress) {
      var s := InOrder(l.inProgress);
      var a :| 0 <= a < |s| && s[a] == all[i];
      var b :| 0 <= b < |s| && s[b] == all[j];
      assert a != b;
    }
  }

  /** The end of the last range in progress lets the head of the wait list in. */
  lemma LastOneWakes(l: Lock, x: Request)
    requires Valid(l) && InOrder(l.inProgress) == [x]
    ensures |l.waiting| > 0 ==> |Release(l, x).waiting| < |l.waiting| && |InOrder(Release(l, x).inProgress)| > 0
  {
    ReleaseKeeps(l, x);
    assert Without([x], x) == [];
    if |l.waiting| > 0 {
      var l' := Lock(Chain([]), l.waiting);
      LinkDecides(l'.inProgress, l.waiting[0]);
      assert Chain([]) == Leaf;
      var l'' := Lock(Link(l'.inProgress, l.waiting[0]).value, l.waiting[1..]);
      DrainShrinks(l'');
    }
  }

  lemma {:induction false} DrainShrinks(l: Lock)
    requires Ordered(InOrder(l.inProgress))
    requires forall i :: 0 <= i < |l.waiting| ==> l.waiting[i].range.len > 0
    ensures |Drain(l).waiting| <= |l.waiting| && |InOrder(Drain(l).inProgress)| >= |InOrder(l.inProgress)|
    decreases |l.waiting|
  {
    if |l.waiting| > 0 {
      LinkDecides(l.inProgress, l.waiting[0]);
      if Link(l.inProgress, l.waiting[0]).Some? {
        DrainShrinks(Lock(Link(l.inProgress, l.waiting[0]).value, l.waiting[1..]));
      }
    }
  }

  // ---------------------------------------------------------------- what the head waits for

  /** Eight sectors are in progress; a read of the sixteen around them finds its first block in
      the journal, is refused, and waits with that block alone: for nothing in progress. */
  lemma HeadOverlapsNothing()
    ensures
      var l := After([Arrive(Range(8, 8), Range(8, 8)), Arrive(Range(0, 16), Range(0, 1))]).1;
      |l.waiting| > 0 && !HeadOverlaps(l)
  {
    var e0, e1 := Arrive(Range(8, 8), Range(8, 8)), Arrive(Range(0, 16), Range(0, 1));
    var x0, x1 := Request(0, Range(8, 8)), Request(1, Range(0, 16));
    assert [e0, e1][..1] == [e0] && [e0][..0] == [];
    assert After([]) == ([], Lock(Leaf, []));
    assert Link(Leaf, x0) == Some(Node(Leaf, x0, Leaf));
    assert Step([], Lock(Leaf, []), e0).1 == Lock(Node(Leaf, x0, Leaf), []);
    assert After([e0, e1]).1 == Acquire(Lock(Node(Leaf, x0, Leaf), []), x1, Range(0, 1));
    assert InOrder(Node(Leaf, x0, Leaf)) == [x0];
  }

  /** An arrival that is refused by a range in progress, with nobody waiting yet, waits with a
      front that overlaps one too. */
  ghost predicate Suited(l: Lock, e: Event) {
    e.Arrive? && |l.waiting| == 0 && Blocked(InOrder(l.inProgress), e.tried) ==>
      Blocked(InOrder(l.inProgress), e.short)
  }

  /** Only an arrival at an empty wait list can spoil it, and only a departure repairs it. */
  lemma HeadAfterStep(all: seq<Request>, l: Lock, e: Event)
    requires Valid(l) && Proper(e)
    ensures HeadOverlaps(Step(all, l, e).1) <==> e.Leave? || (HeadOverlaps(l) && Suited(l, e))
  {
    match e
    case Leave(x) =>
      ReleaseKeeps(l, x);
    case Arrive(tried, short) =>
      var x := Request(|all|, tried);
      LinkDecides(l.inProgress, x);
      if !Refused(l, tried) && |l.waiting| > 0 {
        BlockedMore(InOrder(l.inProgress), x, InOrder(Link(l.inProgress, x).value), l.waiting[0].range);
        OverlapSymmetric(tried, l.waiting[0].range);
      }
  }

  lemma OverlapSymmetric(a: Range, b: Range)
    ensures Overlap(a, b) <==> Overlap(b, a)
  {
  }

  /** Every arrival since the last departure was suited. */
  ghost predicate SuitedSince(events: seq<Event>) {
    if |events| == 0 then true
    else
      var before, e := events[..|events| - 1], events[|events| - 1];
      e.Leave? || (Suited(After(before).1, e) && SuitedSince(before))
  }

  /** After any run the head of the wait list overlaps a range in progress if and only if every
      arrival since the last departure was suited. */
  lemma {:induction false} HeadOverlapsWhen(events: seq<Event>)
    requires forall i :: 0 <= i < |events| ==> Proper(events[i])
    ensures HeadOverlaps(After(events).1) <==> SuitedSince(events)
  {
    if |events| > 0 {
      var before, e := events[..|events| - 1], events[|events| - 1];
      EveryRun(before);
      HeadOverlapsWhen(before);
      assert Proper(e);
      HeadAfterStep(After(before).0, After(before).1, e);
    }
  }

  /** Waiting with the range that was tried is always suited; so the head overlaps a range in progress
      in every run in which only the arrivals before some departure shortened theirs. */
  lemma {:induction false} WholeIsSuited(events: seq<Event>)
    requires forall i :: 0 <= i < |events| ==> Proper(events[i])
    requires forall i :: 0 <= i < |events| && events[i].Arrive? && events[i].short != events[i].tried ==>
               exists j :: i < j < |events| && events[j].Leave?
    ensures HeadOverlaps(After(events).1)
  {
    WholeSince(events);
    HeadOverlapsWhen(events);
  }

  lemma {:induction false} WholeSince(events: seq<Event>)
    requires forall i :: 0 <= i < |events| && events[i].Arrive? && events[i].short != events[i].tried ==>
               exists j :: i < j < |events| && events[j].Leave?
    ensures SuitedSince(events)
  {
    if |events| > 0 && !events[|events| - 1].Leave? {
      var before := events[..|events| - 1];
      forall i | 0 <= i < |before| && before[i].Arrive? && before[i].short != before[i].tried
        ensures exists j :: i < j < |before| && before[j].Leave?
      {
        assert events[i] == before[i];
        var j :| i < j < |events| && events[j].Leave?;
        assert before[j].Leave?;
      }
      WholeSince(before);
    }
  }
}
