/** The journal as ring and tree hold it, against the journal of the protocol.  What the linked entries of
    the ring hold, oldest first, falls into the same three parts as the writes of the protocol that have
    not been written back, and every operation changes these parts as the step it belongs to does.
 */
module JournalStore {
  import opened Arithmetic
  import opened Sequences
  import opened Options
  import opened JournalRing
  import opened JournalTree
  import opened JournalIndex
  import Protocol = JournalProtocol
  import Replay = JournalReplay

  // ---------------------------------------------------------------- stretches of the ring

  lemma {:induction false} StretchesJoin<V>(nodes: seq<int>, data: seq<V>, start: nat, lo: nat, mid: nat, hi: nat)
    requires |nodes| == |data| && start < |nodes| && lo <= mid <= hi <= |nodes|
    ensures Journalled(nodes, data, start, lo, hi)
         == Journalled(nodes, data, start, lo, mid) + Journalled(nodes, data, start, mid, hi)
  {
    if mid < hi {
      StretchesJoin(nodes, data, start, lo, mid, hi - 1);
    }
  }

  lemma EmptyEnd<V>(nodes: seq<int>, data: seq<V>, start: nat, lo: nat, mid: nat, writes: seq<(nat, V)>)
    requires |nodes| == |data| && start < |nodes| && lo <= mid <= |nodes|
    requires Journalled(nodes, data, start, lo, mid) == writes && Journalled(nodes, data, start, mid, |nodes|) == []
    ensures Journalled(nodes, data, start, lo, |nodes|) == writes
  {
    StretchesJoin(nodes, data, start, lo, mid, |nodes|);
  }

  lemma {:induction false} SameStretch<V>(nodes: seq<int>, data: seq<V>, nodes': seq<int>, data': seq<V>, start: nat,
                                          lo: nat, hi: nat)
    requires |nodes| == |data| == |nodes'| == |data'| && start < |nodes| && lo <= hi <= |nodes|
    requires forall p :: 0 <= p < |nodes| && lo <= Age(start, p, |nodes|) < hi ==>
               nodes'[p] == nodes[p] && data'[p] == data[p]
    ensures Journalled(nodes', data', start, lo, hi) == Journalled(nodes, data, start, lo, hi)
  {
    if lo < hi {
      var p := At(start, hi - 1, |nodes|);
      assert Age(start, p, |nodes|) == hi - 1;
      SameStretch(nodes, data, nodes', data', start, lo, hi - 1);
    }
  }

  lemma {:induction false} EmptyStretch<V>(nodes: seq<int>, data: seq<V>, start: nat, lo: nat, hi: nat)
    requires |nodes| == |data| && start < |nodes| && lo <= hi <= |nodes|
    requires forall p :: 0 <= p < |nodes| && lo <= Age(start, p, |nodes|) < hi ==> nodes[p] < 0
    ensures Journalled(nodes, data, start, lo, hi) == []
  {
    if lo < hi {
      var p := At(start, hi - 1, |nodes|);
      assert Age(start, p, |nodes|) == hi - 1;
      EmptyStretch(nodes, data, start, lo, hi - 1);
    }
  }

  /** The same entries, their ages counted from a later position. */
  lemma {:induction false} LaterStretch<V>(nodes: seq<int>, data: seq<V>, start: nat, k: nat, lo: nat, hi: nat)
    requires |nodes| == |data| && start < |nodes| && lo <= hi && hi + k <= |nodes|
    requires 0 <= At(start, k, |nodes|) < |nodes|
    ensures Journalled(nodes, data, At(start, k, |nodes|), lo, hi) == Journalled(nodes, data, start, lo + k, hi + k)
  {
    if lo < hi {
      assert At(At(start, k, |nodes|), hi - 1, |nodes|) == At(start, hi + k - 1, |nodes|);
      LaterStretch(nodes, data, start, k, lo, hi - 1);
    }
  }

  /** One of the entries of a stretch is linked to a sector. */
  ghost predicate Touches(nodes: seq<int>, start: nat, lo: nat, hi: nat, d: nat) {
    exists q :: 0 <= q < |nodes| && nodes[q] == d && lo <= Age(start, q, |nodes|) < hi
  }

  lemma TouchesMore(nodes: seq<int>, start: nat, lo: nat, hi: nat, d: nat)
    requires start < |nodes| && lo < hi <= |nodes|
    ensures 0 <= At(start, hi - 1, |nodes|) < |nodes|
    ensures Touches(nodes, start, lo, hi, d)
       <==> Touches(nodes, start, lo, hi - 1, d) || nodes[At(start, hi - 1, |nodes|)] == d
  {
    var p := At(start, hi - 1, |nodes|);
    assert Age(start, p, |nodes|) == hi - 1;
    if q :| 0 <= q < |nodes| && nodes[q] == d && lo <= Age(start, q, |nodes|) < hi {
      SameAge(start, p, q, |nodes|);
    }
  }

  lemma NewestMore<V>(writes: seq<(nat, V)>, x: (nat, V), d: nat)
    ensures Protocol.Newest(writes + [x], d).Some? <==> x.0 == d || Protocol.Newest(writes, d).Some?
  {
    assert (writes + [x])[..|writes|] == writes;
  }

  /** A stretch has a write to a sector exactly when one of its entries is linked to it. */
  lemma {:induction false} StretchHas<V>(nodes: seq<int>, data: seq<V>, start: nat, lo: nat, hi: nat, d: nat)
    requires |nodes| == |data| && start < |nodes| && lo <= hi <= |nodes|
    ensures Protocol.Newest(Journalled(nodes, data, start, lo, hi), d).Some? <==> Touches(nodes, start, lo, hi, d)
  {
    if lo < hi {
      TouchesMore(nodes, start, lo, hi, d);
      StretchHas(nodes, data, start, lo, hi - 1, d);
      var p, before := At(start, hi - 1, |nodes|), Journalled(nodes, data, start, lo, hi - 1);
      if nodes[p] >= 0 {
        NewestMore(before, (nodes[p] as nat, data[p]), d);
      } else {
        assert before + [] == before;
      }
    }
  }

  // ---------------------------------------------------------------- the parts

  /** The three parts of the journal: ages below a, from a to b, and from b on. */
  ghost function PartsAt<V>(nodes: seq<int>, data: seq<V>, start: nat, a: nat, b: nat): Protocol.Parts<V>
    requires |nodes| == |data| && start < |nodes| && a <= b <= |nodes|
  {
    Protocol.Parts(Journalled(nodes, data, start, 0, a), Journalled(nodes, data, start, a, b),
                   Journalled(nodes, data, start, b, |nodes|))
  }

  lemma AllOfParts<V>(nodes: seq<int>, data: seq<V>, start: nat, a: nat, b: nat)
    requires |nodes| == |data| && start < |nodes| && a <= b <= |nodes|
    ensures Protocol.All(PartsAt(nodes, data, start, a, b)) == Journalled(nodes, data, start, 0, |nodes|)
  {
    StretchesJoin(nodes, data, start, 0, a, |nodes|);
    StretchesJoin(nodes, data, start, a, b, |nodes|);
    var x, y, z := Journalled(nodes, data, start, 0, a), Journalled(nodes, data, start, a, b),
                   Journalled(nodes, data, start, b, |nodes|);
    assert x + y + z == x + (y + z);
  }

  /** Consecutive blocks with their contents. */
  ghost function Writes<V>(logical: nat, values: seq<V>): seq<(nat, V)> {
    seq(|values|, i requires 0 <= i < |values| => (logical + i, values[i]))
  }

  /** What the entries hold once the first of some have been given contents. */
  ghost function Filling<V>(data: seq<V>, first: nat, values: seq<V>): (r: seq<V>)
    ensures |r| == |data|
  {
    seq(|data|, p requires 0 <= p < |data| =>
      if Age(first, p, |data|) < |values| then values[Age(first, p, |data|)] else data[p])
  }

  /** The entries from age `used` on were free, and the first of them have been linked to consecutive
      blocks and given contents. */
  ghost predicate HandedOut<V>(nodes: seq<int>, data: seq<V>, nodes': seq<int>, data': seq<V>, start: nat, used: nat,
                               logical: nat, values: seq<V>)
  {
    && |nodes| == |data| == |nodes'| == |data'| && start < |nodes| && used + |values| <= |nodes|
    && forall p {:trigger Age(start, p, |nodes|)} :: 0 <= p < |nodes| ==>
         var i := Age(start, p, |nodes|);
         && (i < used ==> nodes'[p] == nodes[p] && data'[p] == data[p])
         && (i >= used ==> nodes[p] < 0)
         && (used <= i < used + |values| ==> nodes'[p] == logical + (i - used) && data'[p] == values[i - used])
         && (i >= used + |values| ==> nodes'[p] < 0)
  }

  lemma IsHandedOut<V>(nodes: seq<int>, data: seq<V>, start: nat, first: nat, free: nat, logical: nat, values: seq<V>)
    requires FreeFrom(nodes, start, first, free) && |data| == |nodes| && |values| <= free
    ensures HandedOut(nodes, data, Linking(nodes, first, |values|, logical), Filling(data, first, values), start,
                      |nodes| - free, logical, values)
  {
  }

  /** The entries handed out hold what was written, in order. */
  lemma {:induction false} NewStretch<V>(nodes: seq<int>, data: seq<V>, nodes': seq<int>, data': seq<V>, start: nat,
                                         used: nat, logical: nat, values: seq<V>, i: nat)
    requires HandedOut(nodes, data, nodes', data', start, used, logical, values) && i <= |values|
    ensures Journalled(nodes', data', start, used, used + i) == Writes(logical, values[..i])
  {
    if i > 0 {
      NewStretch(nodes, data, nodes', data', start, used, logical, values, i - 1);
      var p := At(start, used + i - 1, |nodes|);
      assert Age(start, p, |nodes|) == used + i - 1;
      assert Writes(logical, values[..i]) == Writes(logical, values[..i - 1]) + [(logical + i - 1, values[i - 1])];
    }
  }

  lemma TailStretch<V>(nodes: seq<int>, data: seq<V>, nodes': seq<int>, data': seq<V>, start: nat, used: nat,
                       logical: nat, values: seq<V>)
    requires HandedOut(nodes, data, nodes', data', start, used, logical, values)
    ensures Journalled(nodes, data, start, used, |nodes|) == []
    ensures Journalled(nodes', data', start, used, |nodes|) == Writes(logical, values)
  {
    assert values[..|values|] == values;
    NewStretch(nodes, data, nodes', data', start, used, logical, values, |values|);
    EmptyStretch(nodes', data', start, used + |values|, |nodes|);
    EmptyEnd(nodes', data', start, used, used + |values|, Writes(logical, values));
    EmptyStretch(nodes, data, start, used, |nodes|);
  }

  /** The last part grows by what was written. */
  lemma LastPart<V>(nodes: seq<int>, data: seq<V>, nodes': seq<int>, data': seq<V>, start: nat, b: nat, used: nat,
                    logical: nat, values: seq<V>)
    requires HandedOut(nodes, data, nodes', data', start, used, logical, values) && b <= used
    ensures Journalled(nodes', data', start, b, |nodes|)
         == Journalled(nodes, data, start, b, |nodes|) + Writes(logical, values)
  {
    TailStretch(nodes, data, nodes', data', start, used, logical, values);
    SameStretch(nodes, data, nodes', data', start, b, used);
    StretchesJoin(nodes', data', start, b, used, |nodes|);
    EmptyEnd(nodes, data, start, b, used, Journalled(nodes, data, start, b, used));
  }

  /** Only the last part changes when entries are handed out. */
  lemma HandingOut<V>(nodes: seq<int>, data: seq<V>, nodes': seq<int>, data': seq<V>, start: nat, a: nat, b: nat,
                      used: nat, logical: nat, values: seq<V>)
    requires HandedOut(nodes, data, nodes', data', start, used, logical, values) && a <= b <= used
    ensures PartsAt(nodes', data', start, a, b)
         == Protocol.Accepted(PartsAt(nodes, data, start, a, b), Writes(logical, values))
  {
    SameStretch(nodes, data, nodes', data', start, 0, a);
    SameStretch(nodes, data, nodes', data', start, a, b);
    LastPart(nodes, data, nodes', data', start, b, used, logical, values);
  }

  lemma LinkingHandsOut<V>(nodes: seq<int>, data: seq<V>, start: nat, a: nat, b: nat, first: nat, free: nat,
                           logical: nat, values: seq<V>)
    requires FreeFrom(nodes, start, first, free) && |data| == |nodes| && |values| <= free
    requires a <= b <= |nodes| - free
    ensures PartsAt(Linking(nodes, first, |values|, logical), Filling(data, first, values), start, a, b)
         == Protocol.Accepted(PartsAt(nodes, data, start, a, b), Writes(logical, values))
  {
    IsHandedOut(nodes, data, start, first, free, logical, values);
    HandingOut(nodes, data, Linking(nodes, first, |values|, logical), Filling(data, first, values), start, a, b,
               |nodes| - free, logical, values);
  }

  /** The oldest linked entry leaves the first part. */
  lemma Consuming<V>(nodes: seq<int>, data: seq<V>, start: nat, a: nat, b: nat, c: nat)
    requires |nodes| == |data| && start < |nodes| && c < a <= b <= |nodes|
    requires NoneBefore(nodes, start, c)
    requires var p := At(start, c, |nodes|); 0 <= p < |nodes| && nodes[p] >= 0
    ensures var p, parts := At(start, c, |nodes|), PartsAt(nodes, data, start, a, b);
            && parts.committed == [(nodes[p] as nat, data[p])] + Journalled(nodes, data, start, c + 1, a)
            && PartsAt(nodes[p := -1], data, start, a, b) == Protocol.WrittenBack(parts)
  {
    var p := At(start, c, |nodes|);
    assert Age(start, p, |nodes|) == c;
    var nodes' := nodes[p := -1];
    SameStretch(nodes, data, nodes', data, start, c + 1, a);
    SameStretch(nodes, data, nodes', data, start, a, b);
    SameStretch(nodes, data, nodes', data, start, b, |nodes|);
    EmptyStretch(nodes, data, start, 0, c);
    EmptyStretch(nodes', data, start, 0, c + 1);
    StretchesJoin(nodes, data, start, 0, c, a);
    StretchesJoin(nodes, data, start, c, c + 1, a);
    StretchesJoin(nodes', data, start, 0, c + 1, a);
    assert Journalled(nodes, data, start, c, c + 1) == [(nodes[p] as nat, data[p])];
  }

  lemma EmptyFront<V>(nodes: seq<int>, data: seq<V>, start: nat, a: nat, k: nat)
    requires |nodes| == |data| && start < |nodes| && k <= a <= |nodes|
    requires NoneBefore(nodes, start, k)
    requires 0 <= At(start, k, |nodes|) < |nodes|
    ensures Journalled(nodes, data, At(start, k, |nodes|), 0, a - k) == Journalled(nodes, data, start, 0, a)
  {
    LaterStretch(nodes, data, start, k, 0, a - k);
    EmptyStretch(nodes, data, start, 0, k);
    StretchesJoin(nodes, data, start, 0, k, a);
  }

  /** Counted from a later position, what stands before it comes last. */
  lemma ComesLast<V>(nodes: seq<int>, data: seq<V>, start: nat, k: nat)
    requires |nodes| == |data| && start < |nodes| && k <= |nodes|
    requires NoneBefore(nodes, start, k)
    requires 0 <= At(start, k, |nodes|) < |nodes|
    ensures Journalled(nodes, data, At(start, k, |nodes|), |nodes| - k, |nodes|) == []
  {
    var later, size := At(start, k, |nodes|), |nodes|;
    forall p | 0 <= p < size && size - k <= Age(later, p, size)
      ensures nodes[p] < 0
    {
      assert Age(start, p, size) < k;
    }
    EmptyStretch(nodes, data, later, size - k, size);
  }

  /** No part changes when ages are counted from a later position and nothing before it is linked. */
  lemma CountingFrom<V>(nodes: seq<int>, data: seq<V>, start: nat, a: nat, b: nat, k: nat)
    requires |nodes| == |data| && start < |nodes| && k <= a <= b <= |nodes|
    requires NoneBefore(nodes, start, k)
    requires 0 <= At(start, k, |nodes|) < |nodes|
    ensures PartsAt(nodes, data, At(start, k, |nodes|), a - k, b - k) == PartsAt(nodes, data, start, a, b)
  {
    EmptyFront(nodes, data, start, a, k);
    LaterStretch(nodes, data, start, k, a - k, b - k);
    LaterStretch(nodes, data, start, k, b - k, |nodes| - k);
    ComesLast(nodes, data, start, k);
    EmptyEnd(nodes, data, At(start, k, |nodes|), b - k, |nodes| - k, Journalled(nodes, data, start, b, |nodes|));
  }

  /** What is pending becomes part of the commit once nothing beyond it is linked. */
  lemma Committing<V>(nodes: seq<int>, data: seq<V>, start: nat, a: nat, b: nat)
    requires |nodes| == |data| && start < |nodes| && a <= b <= |nodes|
    requires NoneFrom(nodes, start, b)
    ensures PartsAt(nodes, data, start, a, b) == Protocol.CommitBegun(PartsAt(nodes, data, start, a, a))
  {
    StretchesJoin(nodes, data, start, a, b, |nodes|);
    EmptyStretch(nodes, data, start, b, |nodes|);
  }

  lemma Settling<V>(nodes: seq<int>, data: seq<V>, start: nat, a: nat, b: nat)
    requires |nodes| == |data| && start < |nodes| && a <= b <= |nodes|
    ensures PartsAt(nodes, data, start, b, b) == Protocol.CommitEnded(PartsAt(nodes, data, start, a, b))
  {
    StretchesJoin(nodes, data, start, 0, a, b);
  }

  /** A newer copy of the oldest linked entry is committed exactly when one of the younger entries of the
      committed sections is linked to its sector. */
  lemma NewerInStretch(s: seq<Entry>, nodes: seq<int>, i: nat, c: nat, section: nat, n: nat, sections: nat,
                       entries: nat)
    requires entries > 0 && section < sections && n <= sections && |nodes| == sections * entries
    requires section * entries < |nodes| && Good(s, nodes, section * entries) && i < |s|
    requires s[i].pos == At(section * entries, c, |nodes|) && c < |nodes|
    requires NoneBefore(nodes, section * entries, c)
    ensures 0 <= n * entries
    ensures (exists j :: i < j < |s| && s[j].sector == s[i].sector
                      && Committed(s[j].pos, section, n, sections, entries))
       <==> Touches(nodes, section * entries, c + 1, n * entries, s[i].sector)
  {
    MulMono(0, n, entries);
    var start, d := section * entries, s[i].sector;
    assert Age(start, s[i].pos, |nodes|) == c;
    if j :| i < j < |s| && s[j].sector == d && Committed(s[j].pos, section, n, sections, entries) {
      ZoneIsAge(s[j].pos, section, n, sections, entries);
      assert nodes[s[j].pos] == d && Age(start, s[j].pos, |nodes|) > c;
    }
    if q :| 0 <= q < |nodes| && nodes[q] == d && c + 1 <= Age(start, q, |nodes|) < n * entries {
      assert Entry(nodes[q], q) in s;
      var j :| 0 <= j < |s| && s[j] == Entry(d, q);
      ZoneIsAge(q, section, n, sections, entries);
      assert i < j;
    }
  }

  lemma DropDecision<V>(s: seq<Entry>, nodes: seq<int>, data: seq<V>, i: nat, c: nat, start: nat, section: nat,
                        n: nat, sections: nat, entries: nat, a: nat, b: nat)
    requires entries > 0 && section < sections && n <= sections && |nodes| == |data| == sections * entries
    requires start == section * entries < |nodes| && Good(s, nodes, start) && i < |s|
    requires c < a == n * entries && a <= b <= |nodes| && s[i].pos == At(start, c, |nodes|)
    requires NoneBefore(nodes, start, c)
    ensures var parts := PartsAt(nodes, data, start, a, b);
            && parts.committed != [] && parts.committed[0].0 == s[i].sector
            && (NewerCommitted(s, i, section, n, sections, entries)
                <==> Protocol.Newest(parts.committed[1..], s[i].sector).Some?)
  {
    NewerCommittedIsExact(s, i, section, n, sections, entries);
    NewerInStretch(s, nodes, i, c, section, n, sections, entries);
    Consuming(nodes, data, start, a, b, c);
    StretchHas(nodes, data, start, c + 1, a, s[i].sector);
  }

  // ---------------------------------------------------------------- the journal and its contents

  class Store<V> {
    const journal: Journal
    ghost var data: seq<V>          // what each entry holds, from the time it is handed out

    ghost predicate Valid()
      reads this, journal, journal.ring, journal.ring.slots, journal.ring.nodes
    {
      journal.Valid() && |data| == journal.ring.size
    }

    /** What the journal holds, oldest first, in committed sections, in those of the commit in flight,
        and beyond. */
    ghost function Held(): Protocol.Parts<V>
      requires Valid()
      reads this, journal, journal.ring, journal.ring.slots, journal.ring.nodes
    {
      journal.ring.Parts();
      PartsAt(journal.ring.nodes[..], data, journal.ring.CommittedPos(), journal.ring.CommittedEntries(),
              journal.ring.StampedEntries())
    }

    /** The journal as replay leaves it holds nothing. */
    constructor (sections: nat, entries: nat, provided: nat, section: nat, ghost blank: V)
      requires section < sections && 0 < entries
      ensures Valid() && Held() == Protocol.Parts([], [], [])
      ensures fresh(journal) && fresh(journal.ring) && fresh(journal.ring.slots) && fresh(journal.ring.nodes)
    {
      journal := new Journal(sections, entries, provided, section);
      new;
      data := seq(journal.ring.size, _ => blank);
      journal.ring.Parts();
      MulMono(0, 0, entries);
      EmptyStretch(journal.ring.nodes[..], data, journal.ring.CommittedPos(), 0, journal.ring.size);
    }

    /** A request of consecutive blocks is handed entries for as many as are free. */
    method Reserve(want: nat, logical: nat, ghost values: seq<V>) returns (n: nat, section: nat, entry: nat)
      requires Valid() && logical + want <= journal.ring.provided && |values| == want
      modifies this, journal, journal.ring, journal.ring.slots, journal.ring.nodes
      ensures Valid() && n == if want < old(journal.ring.freeSectors) then want else old(journal.ring.freeSectors)
      ensures section == old(journal.ring.freeSection) && entry == old(journal.ring.freeSectionEntry)
      ensures Held() == Protocol.Accepted(old(Held()), Writes(logical, values[..n]))
    {
      ghost var r := journal.ring;
      ghost var a, b, first, free := r.CommittedEntries(), r.StampedEntries(), r.FreePos(), r.freeSectors;
      ghost var written := values[..if want < free then want else free];
      r.Parts();
      journal.FreeZone();
      LinkingHandsOut(r.nodes[..], data, r.CommittedPos(), a, b, first, free, logical, written);
      data := Filling(data, first, written);
      n, section, entry := journal.Reserve(want, logical);
    }

    /** First half of a commit: all that is pending becomes part of it. */
    method StartCommit() returns (start: nat, n: nat)
      requires Valid() && journal.ring.committing == 0
      modifies journal.ring
      ensures Valid() && Held() == Protocol.CommitBegun(old(Held()))
    {
      ghost var r := journal.ring;
      ghost var a := r.CommittedEntries();
      start, n := journal.StartCommit();
      r.Parts();
      Committing(r.nodes[..], data, r.CommittedPos(), a, r.StampedEntries());
    }

    /** Second half, once none of its entries is in progress and all are on disk. */
    method FinishCommit()
      requires Valid()
      requires var r := journal.ring;
               forall p :: 0 <= p < r.size && Dist(r.uncommittedSection * r.entries, p, r.size)
                           < r.committing * r.entries ==>
                 r.slots[p] != InProgress
      modifies journal.ring
      ensures Valid() && Held() == Protocol.CommitEnded(old(Held()))
    {
      ghost var r := journal.ring;
      r.Parts();
      Settling(r.nodes[..], data, r.CommittedPos(), r.CommittedEntries(), r.StampedEntries());
      journal.FinishCommit();
    }

    /** The writer is done with its next entry: nothing, if it is unused, or the oldest write there is. */
    method Consume() returns (wrote: bool)
      requires Valid() && journal.ring.consumed < journal.ring.writing * journal.ring.entries
      modifies journal, journal.ring, journal.ring.slots, journal.ring.nodes
      ensures Valid() && (wrote ==> old(Held()).committed != [])
      ensures Held() == if wrote then Protocol.WrittenBack(old(Held())) else old(Held())
    {
      ghost var r := journal.ring;
      ghost var nodes, start, c := r.nodes[..], r.CommittedPos(), r.consumed;
      ghost var a, b := r.CommittedEntries(), r.StampedEntries();
      r.Parts();
      journal.WriterIsUnlinked();
      wrote := journal.Consume();
      if wrote {
        Consuming(nodes, data, start, a, b, c);
      } else {
        assert r.nodes[..] == nodes;
      }
    }

    /** Nothing the journal holds is in the sections the writer is done with. */
    lemma HeldLater()
      requires Valid()
      ensures var r, k := journal.ring, journal.ring.consumed;
              var later, a, b := At(r.CommittedPos(), k, r.size), r.CommittedEntries() - k, r.StampedEntries() - k;
              && 0 <= later < r.size && 0 <= a <= b <= r.size
              && PartsAt(r.nodes[..], data, later, a, b) == Held()
    {
      var r := journal.ring;
      r.Parts();
      journal.WriterIsUnlinked();
      CountingFrom(r.nodes[..], data, r.CommittedPos(), r.CommittedEntries(), r.StampedEntries(), r.consumed);
    }

    /** The sections of the writer become free; nothing they held is left. */
    method FinishWriter() returns (wake: bool)
      requires Valid() && journal.ring.consumed == journal.ring.writing * journal.ring.entries
      modifies journal.ring
      ensures Valid() && Held() == old(Held()) && wake == (old(journal.ring.freeSectors) == 0)
    {
      HeldLater();
      wake := journal.FinishWriter();
    }

    /** What a read finds in the journal is the newest write it holds. */
    method Search(d: nat) returns (p: Option<nat>)
      requires Valid()
      ensures p.Some? ==> p.value < |data|
      ensures Protocol.Newest(Protocol.All(Held()), d)
           == match p { case Some(q) => Some(data[q]) case None => None }
    {
      var next;
      p, next := Find(journal.tree, d);
      journal.ring.Parts();
      SearchIsNewest(InOrder(journal.tree), journal.ring.nodes[..], data, journal.ring.CommittedPos(), d);
      AllOfParts(journal.ring.nodes[..], data, journal.ring.CommittedPos(), journal.ring.CommittedEntries(),
                 journal.ring.StampedEntries());
    }

    /** And when the journal holds the writes of a state of the protocol, it is what that state reads. */
    lemma SearchIsRead<B>(dev: Replay.Device<B, V>, s: Protocol.State<B, V>, d: nat)
      requires Valid() && Protocol.Inv(dev, s) && d < |s.base| && Held() == Protocol.PartsOf(dev, s)
      ensures var p := Newest(InOrder(journal.tree), d);
              && (p.Some? ==> p.value < |data|)
              && Protocol.Read(dev, s, d) == match p { case Some(q) => data[q] case None => s.cache[d] }
    {
      journal.ring.Parts();
      SearchIsNewest(InOrder(journal.tree), journal.ring.nodes[..], data, journal.ring.CommittedPos(), d);
      AllOfParts(journal.ring.nodes[..], data, journal.ring.CommittedPos(), journal.ring.CommittedEntries(),
                 journal.ring.StampedEntries());
    }

    /** The writer drops its next entry exactly when the protocol may: when a newer write to the sector
        is in a committed section. */
    lemma DropsWhenNewer(i: nat)
      requires Valid() && journal.ring.consumed < journal.ring.writing * journal.ring.entries
      requires i < |InOrder(journal.tree)|
      requires InOrder(journal.tree)[i].pos
            == At(journal.ring.CommittedPos(), journal.ring.consumed, journal.ring.size)
      ensures var e, r := InOrder(journal.tree)[i], journal.ring;
              && Held().committed != [] && Held().committed[0].0 == e.sector
              && (NewerCommitted(InOrder(journal.tree), i, r.committedSection, r.nCommitted, r.sections, r.entries)
                  <==> Protocol.Newest(Held().committed[1..], e.sector).Some?)
    {
      var r, s := journal.ring, InOrder(journal.tree);
      r.Parts();
      journal.WriterIsUnlinked();
      DropDecision(s, r.nodes[..], data, i, r.consumed, r.CommittedPos(), r.committedSection, r.nCommitted, r.sections,
                   r.entries, r.CommittedEntries(), r.StampedEntries());
    }
  }
}
