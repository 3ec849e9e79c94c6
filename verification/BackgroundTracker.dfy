/** The background tracker of dm-cache: work items queued or issued, at most one per origin
    block and at most a fixed number in all.

    The tree that finds an item by its origin block is the set of the blocks it holds.
 */
module BackgroundTracker {
  import opened Sequences

  datatype Op = Promote | Demote | Writeback

  datatype Work = Work(op: Op, oblock: nat, cblock: nat)

  datatype Outcome = Ok | TooMuch | Duplicate

  function CountOp(works: seq<Work>, op: Op): nat {
    if |works| == 0 then 0 else CountOp(works[..|works| - 1], op) + (if works[|works| - 1].op == op then 1 else 0)
  }

  lemma {:induction false} CountConcat(a: seq<Work>, b: seq<Work>, op: Op)
    ensures CountOp(a + b, op) == CountOp(a, op) + CountOp(b, op)
  {
    if |b| == 0 {
      assert a + b == a;
    } else {
      assert (a + b)[..|a + b| - 1] == a + b[..|b| - 1];
      CountConcat(a, b[..|b| - 1], op);
    }
  }

  /** Every item is counted under exactly one operation. */
  lemma {:induction false} CountAll(works: seq<Work>)
    ensures CountOp(works, Promote) + CountOp(works, Demote) + CountOp(works, Writeback) == |works|
  {
    if |works| > 0 {
      CountAll(works[..|works| - 1]);
    }
  }

  ghost predicate DistinctBlocks(works: seq<Work>) {
    forall i, j :: 0 <= i < j < |works| ==> works[i].oblock != works[j].oblock
  }

  ghost function Blocks(works: seq<Work>): set<nat> {
    set i | 0 <= i < |works| :: works[i].oblock
  }

  lemma {:induction false} BlocksSize(works: seq<Work>)
    requires DistinctBlocks(works)
    ensures |Blocks(works)| == |works|
  {
    if |works| > 0 {
      var n := |works| - 1;
      BlocksSize(works[..n]);
      assert Blocks(works) == Blocks(works[..n]) + {works[n].oblock} by {
        assert forall i :: 0 <= i < n ==> works[..n][i] == works[i];
      }
      assert works[n].oblock !in Blocks(works[..n]);
    }
  }

  class Tracker {
    const maxWork: nat
    var promotes: nat
    var writebacks: nat
    var demotes: nat
    var issued: seq<Work>
    var queued: seq<Work>
    var pending: set<nat>

    ghost function Works(): seq<Work>
      reads this
    {
      issued + queued
    }

    ghost function All(): set<Work>
      reads this
    {
      Items(Works())
    }

    /** The counters are exact and the tree holds the blocks of all items, each once. */
    ghost predicate Valid()
      reads this
    {
      && promotes == CountOp(Works(), Promote)
      && demotes == CountOp(Works(), Demote)
      && writebacks == CountOp(Works(), Writeback)
      && DistinctBlocks(Works())
      && pending == Blocks(Works())
      && |Works()| <= maxWork
    }

    /** The three counters add up to the number of items, which is the size of the tree. */
    lemma CountersAddUp()
      requires Valid()
      ensures promotes + demotes + writebacks == |issued| + |queued| == |pending| <= maxWork
    {
      CountAll(Works());
      BlocksSize(Works());
    }

    /** No two items name the same origin block. */
    lemma WorkIsDistinct()
      requires Valid()
      ensures forall w, v :: w in All() && v in All() && w.oblock == v.oblock ==> w == v
    {
    }

    lemma IssuedIsKnown(w: Work)
      requires w in issued
      ensures w in All()
    {
      var k :| 0 <= k < |issued| && issued[k] == w;
      assert Works()[k] == w;
    }

    constructor (max: nat)
      ensures Valid() && Works() == [] && maxWork == max
    {
      maxWork := max;
      promotes, writebacks, demotes := 0, 0, 0;
      issued, queued, pending := [], [], {};
    }

    /** `update_stats` */
    method UpdateStats(op: Op, add: bool)
      requires !add ==> match op
                        case Promote => promotes > 0
                        case Demote => demotes > 0
                        case Writeback => writebacks > 0
      modifies `promotes, `demotes, `writebacks
      ensures promotes == old(promotes) + (if op == Promote then (if add then 1 else -1) else 0)
      ensures demotes == old(demotes) + (if op == Demote then (if add then 1 else -1) else 0)
      ensures writebacks == old(writebacks) + (if op == Writeback then (if add then 1 else -1) else 0)
    {
      match op
      case Promote => promotes := if add then promotes + 1 else promotes - 1;
      case Demote => demotes := if add then demotes + 1 else demotes - 1;
      case Writeback => writebacks := if add then writebacks + 1 else writebacks - 1;
    }

    /** `btracker_queue`: refuses when full or when the block has an item already; otherwise
        the item goes to the front of the issued or the queued list. */
    method QueueWork(w: Work, issue: bool) returns (r: Outcome)
      requires Valid()
      modifies this
      ensures Valid()
      ensures r == if |old(Works())| >= maxWork then TooMuch
                   else if w.oblock in old(pending) then Duplicate else Ok
      ensures r != Ok ==> issued == old(issued) && queued == old(queued)
      ensures All() == if r == Ok then old(All()) + {w} else old(All())
      ensures r == Ok ==>
                && issued == (if issue then [w] + old(issued) else old(issued))
                && queued == (if issue then old(queued) else [w] + old(queued))
    {
      CountersAddUp();
      if promotes + writebacks + demotes >= maxWork {
        return TooMuch;
      }
      if w.oblock in pending {
        return Duplicate;
      }
      Link(w, issue);
      r := Ok;
    }

    /** Enters a new item in the tree and one of the lists, and counts it. */
    method Link(w: Work, issue: bool)
      requires Valid() && w.oblock !in pending && |Works()| < maxWork
      modifies this
      ensures Valid()
      ensures All() == old(All()) + {w}
      ensures issued == (if issue then [w] + old(issued) else old(issued))
      ensures queued == (if issue then old(queued) else [w] + old(queued))
    {
      ghost var s := Works();
      InsertInFront(issued, queued, w);
      if issue {
        Inserted(s, ([w] + issued) + queued, w, 0);
        issued := [w] + issued;
      } else {
        Inserted(s, issued + ([w] + queued), w, |issued|);
        queued := [w] + queued;
      }
      pending := pending + {w.oblock};
      UpdateStats(w.op, true);
    }

    /** `btracker_issue`: the most recently queued item becomes issued. */
    method IssueWork() returns (found: bool, w: Work)
      requires Valid()
      modifies this
      ensures Valid()
      ensures found <==> old(queued) != []
      ensures found ==> w == old(queued)[0] && issued == [w] + old(issued) && queued == old(queued)[1..]
      ensures !found ==> issued == old(issued) && queued == old(queued)
      ensures All() == old(All())
    {
      if |queued| == 0 {
        return false, Work(Promote, 0, 0);
      }
      w := queued[0];
      ghost var before := Works();
      ghost var rest := issued + queued[1..];
      assert rest[..|issued|] + [w] + rest[|issued|..] == before;
      ghost var at := |issued|;
      issued, queued := [w] + issued, queued[1..];
      assert rest[..0] + [w] + rest[0..] == Works();
      Reinserted(rest, w, at, 0);
      ItemsInsert(rest, at, w);
      ItemsInsert(rest, 0, w);
      found := true;
    }

    /** `btracker_complete`: forgets an issued item. */
    method CompleteWork(w: Work)
      requires Valid() && w in issued
      modifies this
      ensures Valid()
      ensures queued == old(queued) && All() == old(All()) - {w}
      ensures exists k :: 0 <= k < |old(issued)| && old(issued)[k] == w
                       && issued == old(issued)[..k] + old(issued)[k + 1..]
    {
      var k := 0;
      while issued[k] != w
        invariant 0 <= k < |issued| && w !in issued[..k]
        decreases |issued| - k
      {
        k := k + 1;
      }
      ghost var before := Works();
      ghost var rest := issued[..k] + issued[k + 1..] + queued;
      assert rest[..k] + [w] + rest[k..] == before;
      Removed(before, rest, w, k);
      UpdateStats(w.op, false);
      pending := pending - {w.oblock};
      issued := issued[..k] + issued[k + 1..];
      assert Works() == rest;
    }
  }

  lemma InsertInFront(a: seq<Work>, b: seq<Work>, w: Work)
    ensures InsertAt(a + b, 0, w) == ([w] + a) + b
    ensures InsertAt(a + b, |a|, w) == a + ([w] + b)
  {
    assert (a + b)[0..] == a + b && (a + b)[..|a|] == a && (a + b)[|a|..] == b;
  }

  lemma CountInsert(s: seq<Work>, k: nat, w: Work, op: Op)
    requires k <= |s|
    ensures CountOp(InsertAt(s, k, w), op) == CountOp(s, op) + (if w.op == op then 1 else 0)
  {
    assert s == s[..k] + s[k..];
    CountConcat(s[..k], s[k..], op);
    CountConcat(s[..k], [w], op);
    CountConcat(s[..k] + [w], s[k..], op);
  }

  lemma BlocksInsert(s: seq<Work>, k: nat, w: Work)
    requires k <= |s|
    ensures Blocks(InsertAt(s, k, w)) == Blocks(s) + {w.oblock}
  {
    var t := InsertAt(s, k, w);
    forall x | x in Blocks(s) + {w.oblock}
      ensures x in Blocks(t)
    {
      if x == w.oblock {
        assert t[k].oblock == x;
      } else {
        var i :| 0 <= i < |s| && s[i].oblock == x;
        assert t[if i < k then i else i + 1].oblock == x;
      }
    }
    forall x | x in Blocks(t)
      ensures x in Blocks(s) + {w.oblock}
    {
      var i :| 0 <= i < |t| && t[i].oblock == x;
      if i != k {
        assert s[if i < k then i else i - 1].oblock == x;
      }
    }
  }

  ghost function Items(works: seq<Work>): set<Work> {
    set i | 0 <= i < |works| :: works[i]
  }

  lemma ItemsInsert(s: seq<Work>, k: nat, w: Work)
    requires k <= |s|
    ensures Items(InsertAt(s, k, w)) == Items(s) + {w}
  {
    var t := InsertAt(s, k, w);
    forall x | x in Items(s) + {w}
      ensures x in Items(t)
    {
      if x == w {
        assert t[k] == x;
      } else {
        var i :| 0 <= i < |s| && s[i] == x;
        assert t[if i < k then i else i + 1] == x;
      }
    }
    forall x | x in Items(t)
      ensures x in Items(s) + {w}
    {
      var i :| 0 <= i < |t| && t[i] == x;
      if i != k {
        assert s[if i < k then i else i - 1] == x;
      }
    }
  }

  lemma DistinctInsert(s: seq<Work>, k: nat, w: Work)
    requires k <= |s| && DistinctBlocks(s) && w.oblock !in Blocks(s)
    ensures DistinctBlocks(InsertAt(s, k, w))
  {
    var t := InsertAt(s, k, w);
    forall i, j | 0 <= i < j < |t|
      ensures t[i].oblock != t[j].oblock
    {
      assert i != k ==> t[i] == s[if i < k then i else i - 1] && t[i].oblock in Blocks(s);
      assert j != k ==> t[j] == s[if j < k then j else j - 1] && t[j].oblock in Blocks(s);
    }
  }

  lemma DistinctRemove(s: seq<Work>, k: nat, w: Work)
    requires k <= |s| && DistinctBlocks(InsertAt(s, k, w))
    ensures DistinctBlocks(s) && w.oblock !in Blocks(s)
  {
    var t := InsertAt(s, k, w);
    forall i, j | 0 <= i < j < |s|
      ensures s[i].oblock != s[j].oblock
    {
      assert t[if i < k then i else i + 1] == s[i] && t[if j < k then j else j + 1] == s[j];
    }
    forall i | 0 <= i < |s|
      ensures s[i].oblock != w.oblock
    {
      assert t[if i < k then i else i + 1] == s[i];
    }
  }

  lemma Inserted(s: seq<Work>, t: seq<Work>, w: Work, k: nat)
    requires k <= |s| && DistinctBlocks(s) && w.oblock !in Blocks(s) && t == InsertAt(s, k, w)
    ensures DistinctBlocks(t) && Blocks(t) == Blocks(s) + {w.oblock} && Items(t) == Items(s) + {w}
    ensures CountOp(t, Promote) == CountOp(s, Promote) + (if w.op == Promote then 1 else 0)
    ensures CountOp(t, Demote) == CountOp(s, Demote) + (if w.op == Demote then 1 else 0)
    ensures CountOp(t, Writeback) == CountOp(s, Writeback) + (if w.op == Writeback then 1 else 0)
  {
    BlocksInsert(s, k, w);
    ItemsInsert(s, k, w);
    DistinctInsert(s, k, w);
    CountInsert(s, k, w, Promote);
    CountInsert(s, k, w, Demote);
    CountInsert(s, k, w, Writeback);
  }

  lemma Removed(s: seq<Work>, t: seq<Work>, w: Work, k: nat)
    requires k <= |t| && DistinctBlocks(s) && s == InsertAt(t, k, w)
    ensures DistinctBlocks(t) && Blocks(t) == Blocks(s) - {w.oblock} && Items(t) == Items(s) - {w}
    ensures CountOp(s, Promote) == CountOp(t, Promote) + (if w.op == Promote then 1 else 0)
    ensures CountOp(s, Demote) == CountOp(t, Demote) + (if w.op == Demote then 1 else 0)
    ensures CountOp(s, Writeback) == CountOp(t, Writeback) + (if w.op == Writeback then 1 else 0)
  {
    DistinctRemove(t, k, w);
    Inserted(t, s, w, k);
    assert forall i :: 0 <= i < |t| ==> t[i].oblock in Blocks(t);
  }

  lemma Reinserted(s: seq<Work>, w: Work, j: nat, k: nat)
    requires j <= |s| && k <= |s| && DistinctBlocks(InsertAt(s, j, w))
    ensures DistinctBlocks(InsertAt(s, k, w)) && Blocks(InsertAt(s, k, w)) == Blocks(InsertAt(s, j, w))
    ensures forall op :: CountOp(InsertAt(s, k, w), op) == CountOp(InsertAt(s, j, w), op)
  {
    DistinctRemove(s, j, w);
    DistinctInsert(s, k, w);
    BlocksInsert(s, j, w);
    BlocksInsert(s, k, w);
    forall op
      ensures CountOp(InsertAt(s, k, w), op) == CountOp(InsertAt(s, j, w), op)
    {
      CountInsert(s, j, w, op);
      CountInsert(s, k, w, op);
    }
  }
}
