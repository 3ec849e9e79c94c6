/** The journal's ring and its search tree together: the tree has exactly the linked nodes of the ring,
    equal sectors in the order their entries were handed out, and so a search finds what the journal
    holds newest.
 */
module JournalIndex {
  import opened Arithmetic
  import opened Sequences
  import opened Options
  import opened JournalRing
  import opened JournalTree
  import Protocol = JournalProtocol

  /** The nodes in the tree, in order, are those linked in the ring. */
  ghost predicate Indexes(s: seq<Entry>, nodes: seq<int>) {
    && (forall i :: 0 <= i < |s| ==> s[i].pos < |nodes| && nodes[s[i].pos] == s[i].sector)
    && (forall p :: 0 <= p < |nodes| && nodes[p] >= 0 ==> Entry(nodes[p], p) in s)
  }

  ghost predicate Good(s: seq<Entry>, nodes: seq<int>, start: nat) {
    Sorted(s) && ByAge(s, start, |nodes|) && Indexes(s, nodes)
  }

  lemma IndexesMore(s: seq<Entry>, k: nat, nodes: seq<int>, p: nat, sector: nat)
    requires Indexes(s, nodes) && k <= |s| && p < |nodes| && nodes[p] < 0
    ensures Indexes(InsertAt(s, k, Entry(sector, p)), nodes[p := sector])
  {
    var s', nodes' := InsertAt(s, k, Entry(sector, p)), nodes[p := sector];
    forall i | 0 <= i < |s'|
      ensures s'[i].pos < |nodes'| && nodes'[s'[i].pos] == s'[i].sector
    {
      assert i != k ==> s'[i] == s[if i < k then i else i - 1];
    }
    forall q | 0 <= q < |nodes'| && nodes'[q] >= 0
      ensures Entry(nodes'[q], q) in s'
    {
      InsertAtMembers(s, k, Entry(sector, p), Entry(nodes'[q], q));
    }
  }

  /** Linking the node of an entry younger than all linked ones. */
  lemma LinkKeeps(t: Tree, nodes: seq<int>, start: nat, p: nat, sector: nat)
    requires Good(InOrder(t), nodes, start) && p < |nodes| && nodes[p] < 0
    requires forall q :: 0 <= q < |nodes| && nodes[q] >= 0 ==> Age(start, q, |nodes|) < Age(start, p, |nodes|)
    ensures Good(InOrder(Add(t, Entry(sector, p))), nodes[p := sector], start)
  {
    AddInserts(t, Entry(sector, p));
    AddKeepsAge(t, Entry(sector, p), start, |nodes|);
    IndexesMore(InOrder(t), Rank(InOrder(t), sector), nodes, p, sector);
  }

  lemma RemoveKeepsOrder(s: seq<Entry>, start: nat, size: nat, i: nat)
    requires Sorted(s) && ByAge(s, start, size) && i < |s|
    ensures Sorted(RemoveAt(s, i)) && ByAge(RemoveAt(s, i), start, size)
  {
    var s' := RemoveAt(s, i);
    forall j | 0 <= j < |s'|
      ensures s'[j] == s[if j < i then j else j + 1]
    {
    }
    forall j, k | 0 <= j < k < |s'|
      ensures s'[j].sector <= s'[k].sector
      ensures s'[j].sector == s'[k].sector ==> Age(start, s'[j].pos, size) < Age(start, s'[k].pos, size)
    {
      var j', k' := if j < i then j else j + 1, if k < i then k else k + 1;
      assert s'[j] == s[j'] && s'[k] == s[k'];
    }
  }

  /** No two nodes are those of one entry. */
  lemma PositionsDiffer(s: seq<Entry>, nodes: seq<int>, start: nat, i: nat, j: nat)
    requires Good(s, nodes, start) && i < j < |s|
    ensures s[i].pos != s[j].pos
  {
  }

  /** Unlinking a node. */
  lemma UnlinkKeeps(s: seq<Entry>, nodes: seq<int>, start: nat, i: nat)
    requires Good(s, nodes, start) && i < |s|
    ensures s[i].pos < |nodes| && Good(RemoveAt(s, i), nodes[s[i].pos := -1], start)
  {
    var s', p := RemoveAt(s, i), s[i].pos;
    var nodes' := nodes[p := -1];
    RemoveKeepsOrder(s, start, |nodes|, i);
    forall j | 0 <= j < |s'|
      ensures s'[j].pos < |nodes'| && nodes'[s'[j].pos] == s'[j].sector
    {
      var j' := if j < i then j else j + 1;
      assert s'[j] == s[j'];
      PositionsDiffer(s, nodes, start, if j' < i then j' else i, if j' < i then i else j');
    }
    forall q | 0 <= q < |nodes'| && nodes'[q] >= 0
      ensures Entry(nodes'[q], q) in s'
    {
      var j :| 0 <= j < |s| && s[j] == Entry(nodes[q], q);
      assert s'[if j < i then j else j - 1] == s[j];
    }
  }

  /** None of the k oldest entries is linked. */
  ghost predicate NoneBefore(nodes: seq<int>, start: nat, k: nat) {
    forall q :: 0 <= q < |nodes| && Age(start, q, |nodes|) < k ==> nodes[q] < 0
  }

  /** And none but the k oldest. */
  ghost predicate NoneFrom(nodes: seq<int>, start: nat, k: int) {
    forall q :: 0 <= q < |nodes| && k <= Age(start, q, |nodes|) ==> nodes[q] < 0
  }

  /** Ages may be counted from a later position once nothing before it is linked. */
  lemma ShiftKeeps(s: seq<Entry>, nodes: seq<int>, start: nat, k: nat)
    requires Good(s, nodes, start) && start < |nodes| && k <= |nodes| && NoneBefore(nodes, start, k)
    requires 0 <= At(start, k, |nodes|) < |nodes|
    ensures Good(s, nodes, At(start, k, |nodes|))
  {
    forall i | 0 <= i < |s|
      ensures Age(At(start, k, |nodes|), s[i].pos, |nodes|) == Age(start, s[i].pos, |nodes|) - k
    {
    }
  }

  /** A search finds the youngest of the entries linked to a sector, or there is none. */
  lemma SearchFindsYoungest(s: seq<Entry>, nodes: seq<int>, start: nat, d: nat)
    requires Good(s, nodes, start)
    ensures Newest(s, d).None? ==> forall q :: 0 <= q < |nodes| ==> nodes[q] != d
    ensures Newest(s, d).Some? ==>
              && Newest(s, d).value < |nodes| && nodes[Newest(s, d).value] == d
              && forall q :: 0 <= q < |nodes| && nodes[q] == d ==>
                   Age(start, q, |nodes|) <= Age(start, Newest(s, d).value, |nodes|)
  {
    if Newest(s, d).Some? {
      var i := NewestWitness(s, d);
      forall q | 0 <= q < |nodes| && nodes[q] == d
        ensures Age(start, q, |nodes|) <= Age(start, s[i].pos, |nodes|)
      {
        var j :| 0 <= j < |s| && s[j] == Entry(d, q);
      }
    } else {
      forall q | 0 <= q < |nodes|
        ensures nodes[q] != d
      {
        if nodes[q] == d {
          SomeIsNewest(s, Entry(d, q));
        }
      }
    }
  }

  lemma {:induction false} SomeIsNewest(s: seq<Entry>, e: Entry)
    requires e in s
    ensures Newest(s, e.sector).Some?
  {
    var n := |s| - 1;
    if s[n].sector != e.sector {
      assert e in s[..n];
      SomeIsNewest(s[..n], e);
    }
  }

  // ---------------------------------------------------------------- what the journal holds

  /** The writes in the entries of ages lo up to hi, counted from `start` on, in the order they were
      handed out; `data` is what each entry holds. */
  ghost function Journalled<V>(nodes: seq<int>, data: seq<V>, start: nat, lo: nat, hi: nat): seq<(nat, V)>
    requires |nodes| == |data| && start < |nodes| && lo <= hi <= |nodes|
  {
    if lo == hi then []
    else
      var p := At(start, hi - 1, |nodes|);
      Journalled(nodes, data, start, lo, hi - 1) + (if nodes[p] < 0 then [] else [(nodes[p] as nat, data[p])])
  }

  /** The newest write to a sector is that of its youngest entry. */
  lemma {:induction false} NewestIsYoungest<V>(nodes: seq<int>, data: seq<V>, start: nat, k: nat, d: nat)
    returns (y: nat)
    requires |nodes| == |data| && start < |nodes| && k <= |nodes|
    ensures var newest := Protocol.Newest(Journalled(nodes, data, start, 0, k), d);
            if newest.Some? then Youngest(nodes, start, k, d, y) && newest.value == data[y]
            else forall q :: 0 <= q < |nodes| && Age(start, q, |nodes|) < k ==> nodes[q] != d
  {
    y := 0;
    if k > 0 {
      var p := At(start, k - 1, |nodes|);
      y := NewestIsYoungest(nodes, data, start, k - 1, d);
      LastAdded(nodes, data, start, k, d);
      forall q | 0 <= q < |nodes| && Age(start, q, |nodes|) < k
        ensures q == p || Age(start, q, |nodes|) < k - 1
      {
      }
      if nodes[p] == d {
        y := p;
      }
    }
  }

  /** What the last of k entries adds. */
  lemma LastAdded<V>(nodes: seq<int>, data: seq<V>, start: nat, k: nat, d: nat)
    requires |nodes| == |data| && start < |nodes| && 0 < k <= |nodes|
    ensures var p := At(start, k - 1, |nodes|);
            && 0 <= p < |nodes| && Age(start, p, |nodes|) == k - 1
            && Protocol.Newest(Journalled(nodes, data, start, 0, k), d)
               == if nodes[p] == d then Some(data[p]) else Protocol.Newest(Journalled(nodes, data, start, 0, k - 1), d)
  {
    var p, before := At(start, k - 1, |nodes|), Journalled(nodes, data, start, 0, k - 1);
    if nodes[p] >= 0 {
      var all := before + [(nodes[p] as nat, data[p])];
      assert all[..|all| - 1] == before;
    } else {
      assert before + [] == before;
    }
  }

  ghost predicate Youngest(nodes: seq<int>, start: nat, k: nat, d: nat, p: nat) {
    && p < |nodes| && nodes[p] == d && Age(start, p, |nodes|) < k
    && forall q :: 0 <= q < |nodes| && nodes[q] == d && Age(start, q, |nodes|) < k ==>
         Age(start, q, |nodes|) <= Age(start, p, |nodes|)
  }

  /** What a read takes from the entry the tree finds is the newest write the journal holds. */
  lemma SearchIsNewest<V>(s: seq<Entry>, nodes: seq<int>, data: seq<V>, start: nat, d: nat)
    requires Good(s, nodes, start) && |nodes| == |data| && start < |nodes|
    ensures Newest(s, d).Some? ==> Newest(s, d).value < |data|
    ensures Protocol.Newest(Journalled(nodes, data, start, 0, |nodes|), d)
         == match Newest(s, d) { case Some(p) => Some(data[p]) case None => None }
  {
    SearchFindsYoungest(s, nodes, start, d);
    var y := NewestIsYoungest(nodes, data, start, |nodes|, d);
    if Newest(s, d).Some? {
      assert Age(start, Newest(s, d).value, |nodes|) < |nodes|;
      SameAge(start, y, Newest(s, d).value, |nodes|);
    }
  }

  lemma SameAge(start: nat, p: nat, q: nat, size: nat)
    requires start < size && p < size && q < size
    ensures Age(start, p, size) == Age(start, q, size) ==> p == q
  {
  }

  // ---------------------------------------------------------------- the two together

  /** The nodes once the first i of some entries have been linked to consecutive blocks. */
  ghost function Linking(nodes: seq<int>, first: nat, i: nat, logical: nat): (r: seq<int>)
    ensures |r| == |nodes|
  {
    seq(|nodes|, p requires 0 <= p < |nodes| =>
      if Age(first, p, |nodes|) < i then logical + Age(first, p, |nodes|) else nodes[p])
  }

  lemma IsLinking(nodes: seq<int>, nodes': seq<int>, first: nat, n: nat, logical: nat)
    requires |nodes'| == |nodes| && first < |nodes|
    requires forall p :: 0 <= p < |nodes| ==>
               nodes'[p] == if Dist(first, p, |nodes|) < n then logical + Dist(first, p, |nodes|) else nodes[p]
    ensures nodes' == Linking(nodes, first, n, logical)
  {
  }

  /** From `start` on the ring has entries handed out, then free ones from `first` on. */
  ghost predicate FreeFrom(nodes: seq<int>, start: nat, first: nat, free: nat) {
    && start < |nodes| && first < |nodes| && free <= |nodes|
    && (forall p :: 0 <= p < |nodes| && Age(first, p, |nodes|) < free ==> nodes[p] < 0)
    && (forall p :: 0 <= p < |nodes| ==>
          Age(start, p, |nodes|) == if Age(first, p, |nodes|) < free then |nodes| - free + Age(first, p, |nodes|)
                                    else Age(first, p, |nodes|) - free)
  }

  lemma LinkingStep(t: Tree, nodes: seq<int>, start: nat, first: nat, free: nat, i: nat, logical: nat)
    requires FreeFrom(nodes, start, first, free) && i < free &&
             Good(InOrder(t), Linking(nodes, first, i, logical), start)
    ensures var p := At(first, i, |nodes|);
            0 <= p < |nodes| && Good(InOrder(Add(t, Entry(logical + i, p))), Linking(nodes, first, i + 1, logical),
                                     start)
  {
    var p, part := At(first, i, |nodes|), Linking(nodes, first, i, logical);
    assert Age(first, p, |nodes|) == i;
    assert part[p] == nodes[p] && nodes[p] < 0;
    forall q | 0 <= q < |part| && part[q] >= 0
      ensures Age(start, q, |part|) < Age(start, p, |part|)
    {
      assert Age(first, q, |nodes|) < i || Age(first, q, |nodes|) >= free;
    }
    LinkKeeps(t, part, start, p, logical + i);
    forall q | 0 <= q < |nodes| && q != p
      ensures Age(first, q, |nodes|) != i
    {
      SameAge(first, p, q, |nodes|);
    }
    assert part[p := logical + i] == Linking(nodes, first, i + 1, logical);
  }

  /** `add_journal_node` for each of some consecutive free entries. */
  method LinkEntries(t: Tree, ghost nodes: seq<int>, ghost nodes': seq<int>, ghost start: nat, first: nat,
                     ghost free: nat,
                     n: nat, logical: nat, size: nat) returns (t': Tree)
    requires FreeFrom(nodes, start, first, free) && size == |nodes| && n <= free && Good(InOrder(t), nodes, start)
    requires nodes' == Linking(nodes, first, n, logical)
    ensures Good(InOrder(t'), nodes', start)
  {
    t' := t;
    assert Linking(nodes, first, 0, logical) == nodes;
    for i := 0 to n
      invariant Good(InOrder(t'), Linking(nodes, first, i, logical), start)
    {
      LinkingStep(t', nodes, start, first, free, i, logical);
      t' := Add(t', Entry(logical + i, At(first, i, size)));
    }
  }

  lemma EraseKeeps(t: Tree, nodes: seq<int>, start: nat, p: nat)
    requires Good(InOrder(t), nodes, start) && p < |nodes| && nodes[p] >= 0
    ensures Good(InOrder(Erase(t, Entry(nodes[p], p))), nodes[p := -1], start)
  {
    var i := WithoutIs(InOrder(t), Entry(nodes[p], p));
    UnlinkKeeps(InOrder(t), nodes, start, i);
  }

  /** An entry that is not linked has no node to erase. */
  lemma EraseIfLinked(t: Tree, nodes: seq<int>, start: nat, p: nat)
    requires Good(InOrder(t), nodes, start) && p < |nodes| && nodes[p] >= -1
    ensures var t' := if nodes[p] >= 0 then Erase(t, Entry(nodes[p], p)) else t;
            Good(InOrder(t'), nodes[p := -1], start)
  {
    if nodes[p] >= 0 {
      EraseKeeps(t, nodes, start, p);
    } else {
      assert nodes[p := -1] == nodes;
    }
  }

  class Journal {
    const ring: Ring
    var tree: Tree

    ghost predicate Valid()
      reads this, ring, ring.slots, ring.nodes
    {
      ring.Valid() && Good(InOrder(tree), ring.nodes[..], ring.CommittedPos())
    }

    constructor (sections: nat, entries: nat, provided: nat, section: nat)
      requires section < sections && 0 < entries
      ensures Valid() && fresh(ring) && fresh(ring.slots) && fresh(ring.nodes)
      ensures ring.size == sections * entries && ring.nCommitted == ring.committing == 0
      ensures forall p :: 0 <= p < ring.size ==> ring.nodes[p] == -1
    {
      ring := new Ring(sections, entries, provided, section);
      tree := Leaf;
    }

    lemma FreeZone()
      requires Valid()
      ensures FreeFrom(ring.nodes[..], ring.CommittedPos(), ring.FreePos(), ring.freeSectors)
    {
      forall p | 0 <= p < ring.size
        ensures Age(ring.FreePos(), p, ring.size) < ring.freeSectors ==> ring.nodes[p] < 0
        ensures Age(ring.CommittedPos(), p, ring.size)
             == if Age(ring.FreePos(), p, ring.size) < ring.freeSectors
                then ring.size - ring.freeSectors + Age(ring.FreePos(), p, ring.size)
                else Age(ring.FreePos(), p, ring.size) - ring.freeSectors
      {
        ring.AgeInRing(p);
      }
      ring.Zones();
    }

    /** The free entries are the youngest, and unlinked. */
    lemma FreeIsLast()
      requires Valid()
      ensures ring.CommittedPos() < ring.size && ring.freeSectors <= ring.size
      ensures NoneFrom(ring.nodes[..], ring.CommittedPos(), ring.size - ring.freeSectors)
    {
      FreeZone();
    }

    /** First half of a commit: no entry beyond its sections is linked. */
    method StartCommit() returns (start: nat, n: nat)
      requires Valid() && ring.committing == 0
      modifies ring
      ensures Valid() && ring.CommittedPos() == old(ring.CommittedPos())
      ensures ring.CommittedEntries() == old(ring.CommittedEntries())
      ensures n == ring.committing && start == ring.uncommittedSection
      ensures NoneFrom(ring.nodes[..], ring.CommittedPos(), ring.StampedEntries())
    {
      start, n := ring.StartCommit();
      FreeIsLast();
    }

    /** Second half. */
    method FinishCommit()
      requires Valid()
      requires forall p :: 0 <= p < ring.size && Dist(ring.uncommittedSection * ring.entries, p, ring.size)
                                                 < ring.committing * ring.entries ==>
                 ring.slots[p] != InProgress
      modifies ring
      ensures Valid() && ring.CommittedPos() == old(ring.CommittedPos())
      ensures ring.CommittedEntries() == ring.StampedEntries() == old(ring.StampedEntries())
    {
      ring.FinishCommit();
    }

    /** No node of the entries the writer is done with is linked. */
    lemma WriterIsUnlinked()
      requires Valid()
      ensures ring.CommittedPos() < ring.size && ring.consumed <= ring.size
      ensures NoneBefore(ring.nodes[..], ring.CommittedPos(), ring.consumed)
    {
      ring.Parts();
    }

    /** The write path: entries are handed out and their nodes linked in that order. */
    method Reserve(want: nat, logical: nat) returns (n: nat, section: nat, entry: nat)
      requires Valid() && logical + want <= ring.provided
      modifies this, ring, ring.slots, ring.nodes
      ensures Valid()
      ensures n == if want < old(ring.freeSectors) then want else old(ring.freeSectors)
      ensures section == old(ring.freeSection) && entry == old(ring.freeSectionEntry)
      ensures ring.nodes[..] == Linking(old(ring.nodes[..]), old(ring.FreePos()), n, logical)
      ensures ring.CommittedPos() == old(ring.CommittedPos())
      ensures ring.CommittedEntries() == old(ring.CommittedEntries())
      ensures ring.StampedEntries() == old(ring.StampedEntries())
    {
      FreeZone();
      ghost var nodes, start, free := ring.nodes[..], ring.CommittedPos(), ring.freeSectors;
      var first := ring.freeSection * ring.entries + ring.freeSectionEntry;
      n, section, entry := HandOut(want, logical);
      tree := LinkEntries(tree, nodes, ring.nodes[..], start, first, free, n, logical, ring.size);
    }

    method HandOut(want: nat, logical: nat) returns (n: nat, section: nat, entry: nat)
      requires ring.Valid() && logical + want <= ring.provided
      modifies ring, ring.slots, ring.nodes
      ensures ring.Valid()
      ensures n == if want < old(ring.freeSectors) then want else old(ring.freeSectors)
      ensures section == old(ring.freeSection) && entry == old(ring.freeSectionEntry)
      ensures ring.nodes[..] == Linking(old(ring.nodes[..]), old(ring.FreePos()), n, logical)
      ensures ring.CommittedPos() == old(ring.CommittedPos())
      ensures ring.CommittedEntries() == old(ring.CommittedEntries())
      ensures ring.StampedEntries() == old(ring.StampedEntries())
    {
      ghost var nodes, first := ring.nodes[..], ring.FreePos();
      ring.Zones();
      n, section, entry := ring.Reserve(want, logical);
      IsLinking(nodes, ring.nodes[..], first, n, logical);
    }

    /** The writer is done with its next entry; the node of one that holds a block leaves the tree. */
    method Consume() returns (wrote: bool)
      requires Valid() && ring.consumed < ring.writing * ring.entries
      modifies this, ring, ring.slots, ring.nodes
      ensures Valid() && ring.consumed == old(ring.consumed) + 1
      ensures var p := At(ring.CommittedPos(), old(ring.consumed), ring.size);
              && 0 <= p < ring.size && wrote == old(ring.slots[p]).Holds? && (wrote <==> old(ring.nodes[p]) >= 0)
              && ring.nodes[..] == old(ring.nodes[..])[p := -1]
      ensures unchanged(ring`committedSection, ring`nCommitted, ring`committing)
    {
      ghost var nodes, start := ring.nodes[..], ring.CommittedPos();
      var p, sector;
      wrote, p, sector := ring.Consume();
      EraseIfLinked(tree, nodes, start, p);
      if wrote {
        tree := Erase(tree, Entry(sector, p));
      }
      assert ring.CommittedPos() == start && ring.nodes[..] == nodes[p := -1];
    }

    /** The sections of the writer become free, and ages count from the next committed one on. */
    method FinishWriter() returns (wake: bool)
      requires Valid() && ring.consumed == ring.writing * ring.entries
      modifies ring
      ensures Valid() && wake == (old(ring.freeSectors) == 0)
      ensures 0 <= At(old(ring.CommittedPos()), old(ring.consumed), ring.size) == ring.CommittedPos()
      ensures ring.CommittedEntries() == old(ring.CommittedEntries()) - old(ring.consumed)
      ensures ring.StampedEntries() == old(ring.StampedEntries()) - old(ring.consumed)
    {
      ghost var k, start := ring.consumed, ring.CommittedPos();
      WriterIsUnlinked();
      wake := ring.FinishWriter();
      ring.Parts();
      ShiftKeeps(InOrder(tree), ring.nodes[..], start, k);
    }

    /** What a read finds: the youngest entry of the block, or that there is none. */
    method Search(d: nat) returns (p: Option<nat>)
      requires Valid()
      ensures p.None? ==> forall q :: 0 <= q < ring.size ==> ring.nodes[q] != d
      ensures p.Some? ==>
                && p.value < ring.size && ring.nodes[p.value] == d
                && forall q :: 0 <= q < ring.size && ring.nodes[q] == d ==>
                     Age(ring.CommittedPos(), q, ring.size) <= Age(ring.CommittedPos(), p.value, ring.size)
    {
      var next;
      p, next := Find(tree, d);
      SearchFindsYoungest(InOrder(tree), ring.nodes[..], ring.CommittedPos(), d);
    }

    /** Looking one node ahead tells the writer whether a newer copy is in a committed section. */
    lemma NewerCopyCommitted(i: nat)
      requires Valid() && i < |InOrder(tree)|
      ensures NewerCommitted(InOrder(tree), i, ring.committedSection, ring.nCommitted, ring.sections, ring.entries)
         <==> exists j :: i < j < |InOrder(tree)| && InOrder(tree)[j].sector == InOrder(tree)[i].sector
                       && Committed(InOrder(tree)[j].pos, ring.committedSection, ring.nCommitted, ring.sections,
                                    ring.entries)
    {
      NewerCommittedIsExact(InOrder(tree), i, ring.committedSection, ring.nCommitted, ring.sections, ring.entries);
    }
  }
}
