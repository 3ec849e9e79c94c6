/** The search tree over journal entries that dm-integrity uses to find the newest journalled
    copy of a block.

    A red-black tree is a binary search tree whose rebalancing keeps the in-order sequence, so
    every statement here is about the in-order sequence and holds for every shape of the tree.
    Sectors are in blocks.
 */
module JournalTree {
  import opened Arithmetic
  import opened Sequences
  import opened Options
  import opened JournalRing

  /** A linked journal node: the sector it indexes and its position in the journal. */
  datatype Entry = Entry(sector: nat, pos: nat)

  datatype Tree = Leaf | Node(left: Tree, entry: Entry, right: Tree)

  function InOrder(t: Tree): seq<Entry> {
    match t
    case Leaf => []
    case Node(l, e, r) => InOrder(l) + [e] + InOrder(r)
  }

  ghost predicate Sorted(s: seq<Entry>) {
    forall i, j :: 0 <= i < j < |s| ==> s[i].sector <= s[j].sector
  }

  // ---------------------------------------------------------------- what a search should find

  /** The last entry for a sector: the newest, when equal sectors stand in insertion order. */
  function Newest(s: seq<Entry>, sector: nat): Option<nat> {
    if |s| == 0 then None
    else if s[|s| - 1].sector == sector then Some(s[|s| - 1].pos)
    else Newest(s[..|s| - 1], sector)
  }

  /** The first sector above the given one. */
  function NextSector(s: seq<Entry>, sector: nat): Option<nat> {
    if |s| == 0 then None
    else if s[0].sector > sector then Some(s[0].sector)
    else NextSector(s[1..], sector)
  }

  function OrElse<T>(a: Option<T>, b: Option<T>): Option<T> {
    if a.Some? then a else b
  }

  lemma {:induction false} NewestOfConcat(a: seq<Entry>, b: seq<Entry>, sector: nat)
    ensures Newest(a + b, sector) == OrElse(Newest(b, sector), Newest(a, sector))
  {
    if |b| == 0 {
      assert a + b == a;
    } else {
      assert (a + b)[..|a + b| - 1] == a + b[..|b| - 1];
      NewestOfConcat(a, b[..|b| - 1], sector);
    }
  }

  lemma {:induction false} NextOfConcat(a: seq<Entry>, b: seq<Entry>, sector: nat)
    ensures NextSector(a + b, sector) == OrElse(NextSector(a, sector), NextSector(b, sector))
  {
    if |a| == 0 {
      assert a + b == b;
    } else {
      assert (a + b)[1..] == a[1..] + b;
      NextOfConcat(a[1..], b, sector);
    }
  }

  lemma {:induction false} NoneEqual(s: seq<Entry>, sector: nat)
    requires forall i :: 0 <= i < |s| ==> s[i].sector != sector
    ensures Newest(s, sector) == None
  {
    if |s| > 0 {
      NoneEqual(s[..|s| - 1], sector);
    }
  }

  lemma {:induction false} NoneAbove(s: seq<Entry>, sector: nat)
    requires forall i :: 0 <= i < |s| ==> s[i].sector <= sector
    ensures NextSector(s, sector) == None
  {
    if |s| > 0 {
      NoneAbove(s[1..], sector);
    }
  }

  // ---------------------------------------------------------------- the tree operations

  /** Descends right on equal sectors, so a new node comes after all older ones. */
  function Add(t: Tree, e: Entry): Tree {
    match t
    case Leaf => Node(Leaf, e, Leaf)
    case Node(l, x, r) =>
      if e.sector < x.sector then Node(Add(l, e), x, r) else Node(l, x, Add(r, e))
  }

  /** A tree with a given in-order sequence, standing for any rebalanced one. */
  function FromOrder(s: seq<Entry>): (t: Tree)
    ensures InOrder(t) == s
  {
    if |s| == 0 then Leaf else Node(Leaf, s[0], FromOrder(s[1..]))
  }

  /** `rb_erase` */
  function Erase(t: Tree, e: Entry): Tree {
    FromOrder(Without(InOrder(t), e))
  }

  /** Number of entries at or below a sector. */
  function Rank(s: seq<Entry>, sector: nat): (n: nat)
    ensures n <= |s|
  {
    if |s| == 0 then 0 else Rank(s[..|s| - 1], sector) + (if s[|s| - 1].sector <= sector then 1 else 0)
  }

  lemma {:induction false} RankIs(s: seq<Entry>, sector: nat, n: nat)
    requires n <= |s|
    requires forall i :: 0 <= i < n ==> s[i].sector <= sector
    requires forall i :: n <= i < |s| ==> s[i].sector > sector
    ensures Rank(s, sector) == n
  {
    if |s| > 0 {
      RankIs(s[..|s| - 1], sector, if n == |s| then n - 1 else n);
    }
  }

  lemma {:induction false} RankBounds(s: seq<Entry>, sector: nat)
    requires Sorted(s)
    ensures var n := Rank(s, sector);
            && (forall i :: 0 <= i < n ==> s[i].sector <= sector)
            && (forall i :: n <= i < |s| ==> s[i].sector > sector)
  {
    if |s| > 0 {
      RankBounds(s[..|s| - 1], sector);
    }
  }

  lemma SortedParts(left: seq<Entry>, x: Entry, right: seq<Entry>)
    requires Sorted(left + [x] + right)
    ensures Sorted(left) && Sorted(right)
    ensures forall i :: 0 <= i < |left| ==> left[i].sector <= x.sector
    ensures forall i :: 0 <= i < |right| ==> x.sector <= right[i].sector
  {
    var s := left + [x] + right;
    assert forall i :: 0 <= i < |left| ==> left[i] == s[i];
    assert s[|left|] == x;
    assert forall i :: 0 <= i < |right| ==> right[i] == s[|left| + 1 + i];
  }

  /** Adding to a sorted sequence at the rank of the sector keeps it sorted. */
  lemma InsertSorted(s: seq<Entry>, e: Entry)
    requires Sorted(s)
    ensures Sorted(InsertAt(s, Rank(s, e.sector), e))
  {
    RankBounds(s, e.sector);
  }

  lemma AddLeft(left: seq<Entry>, x: Entry, right: seq<Entry>, e: Entry)
    requires Sorted(left + [x] + right) && e.sector < x.sector
    ensures InsertAt(left, Rank(left, e.sector), e) + [x] + right
         == InsertAt(left + [x] + right, Rank(left + [x] + right, e.sector), e)
  {
    SortedParts(left, x, right);
    RankBounds(left, e.sector);
    RankIs(left + [x] + right, e.sector, Rank(left, e.sector));
  }

  lemma AddRight(left: seq<Entry>, x: Entry, right: seq<Entry>, e: Entry)
    requires Sorted(left + [x] + right) && e.sector >= x.sector
    ensures left + [x] + InsertAt(right, Rank(right, e.sector), e)
         == InsertAt(left + [x] + right, Rank(left + [x] + right, e.sector), e)
  {
    SortedParts(left, x, right);
    RankBounds(right, e.sector);
    RankIs(left + [x] + right, e.sector, |left| + 1 + Rank(right, e.sector));
  }

  /** Adding inserts after every entry at or below the sector and before every entry above it. */
  lemma {:induction false} AddInserts(t: Tree, e: Entry)
    requires Sorted(InOrder(t))
    ensures InOrder(Add(t, e)) == InsertAt(InOrder(t), Rank(InOrder(t), e.sector), e)
    ensures Sorted(InOrder(Add(t, e)))
  {
    match t
    case Leaf =>
    case Node(l, x, r) =>
      SortedParts(InOrder(l), x, InOrder(r));
      if e.sector < x.sector {
        AddInserts(l, e);
        AddLeft(InOrder(l), x, InOrder(r), e);
      } else {
        AddInserts(r, e);
        AddRight(InOrder(l), x, InOrder(r), e);
      }
      InsertSorted(InOrder(t), e);
  }

  /** A newly added entry is the newest for its sector; every other sector keeps its own. */
  lemma AddIsNewest(t: Tree, e: Entry, sector: nat)
    requires Sorted(InOrder(t))
    ensures Newest(InOrder(Add(t, e)), sector)
         == if sector == e.sector then Some(e.pos) else Newest(InOrder(t), sector)
  {
    var s := InOrder(t);
    var n := Rank(s, e.sector);
    AddInserts(t, e);
    RankBounds(s, e.sector);
    assert s == s[..n] + s[n..];
    NewestOfConcat(s[..n], s[n..], sector);
    NewestOfConcat(s[..n] + [e], s[n..], sector);
    NewestOfConcat(s[..n], [e], sector);
    if sector == e.sector {
      NoneEqual(s[n..], sector);
    }
  }

  /** The search loop: remembers the last match and the last turn to the left. */
  method Find(root: Tree, sector: nat) returns (found: Option<nat>, next: Option<nat>)
    requires Sorted(InOrder(root))
    ensures found == Newest(InOrder(root), sector)
    ensures next == NextSector(InOrder(root), sector)
  {
    var n := root;
    found, next := None, None;
    while n.Node?
      invariant Sorted(InOrder(n))
      invariant Newest(InOrder(root), sector) == OrElse(Newest(InOrder(n), sector), found)
      invariant NextSector(InOrder(root), sector) == OrElse(NextSector(InOrder(n), sector), next)
      decreases n
    {
      FindStep(n, sector);
      if sector == n.entry.sector {
        found := Some(n.entry.pos);
      }
      if sector < n.entry.sector {
        next := Some(n.entry.sector);
        n := n.left;
      } else {
        n := n.right;
      }
    }
  }

  lemma FindStep(n: Tree, sector: nat)
    requires n.Node? && Sorted(InOrder(n))
    ensures Sorted(InOrder(n.left)) && Sorted(InOrder(n.right))
    ensures sector < n.entry.sector ==>
              && Newest(InOrder(n), sector) == Newest(InOrder(n.left), sector)
              && NextSector(InOrder(n), sector) == OrElse(NextSector(InOrder(n.left), sector), Some(n.entry.sector))
    ensures sector >= n.entry.sector ==>
              && Newest(InOrder(n), sector)
                 == OrElse(Newest(InOrder(n.right), sector),
                           if sector == n.entry.sector then Some(n.entry.pos) else Newest(InOrder(n.left), sector))
              && (sector > n.entry.sector ==> Newest(InOrder(n.left), sector) == None)
              && NextSector(InOrder(n), sector) == NextSector(InOrder(n.right), sector)
  {
    var left, right := InOrder(n.left), InOrder(n.right);
    SortedParts(left, n.entry, right);
    NewestOfConcat(left + [n.entry], right, sector);
    NewestOfConcat(left, [n.entry], sector);
    NextOfConcat(left + [n.entry], right, sector);
    NextOfConcat(left, [n.entry], sector);
    if sector < n.entry.sector {
      NoneEqual(right, sector);
    } else {
      NoneAbove(left, sector);
      if sector > n.entry.sector {
        NoneEqual(left, sector);
      }
    }
  }

  // ---------------------------------------------------------------- the span of a read

  /** `test_journal_node`: the node at a position is linked to the sector, and the node after
      it in the tree is not. */
  predicate TestNode(s: seq<Entry>, entries: nat, pos: nat, sector: nat) {
    && pos < entries
    && exists i :: 0 <= i < |s| && s[i] == Entry(sector, pos) && (i + 1 == |s| || s[i + 1].sector != sector)
  }

  /** The newest entry is the one no other entry for the sector follows. */
  lemma {:induction false} NewestAt(s: seq<Entry>, i: nat)
    requires i < |s|
    requires forall j :: i < j < |s| ==> s[j].sector != s[i].sector
    ensures Newest(s, s[i].sector) == Some(s[i].pos)
  {
    if i + 1 < |s| {
      NewestAt(s[..|s| - 1], i);
    }
  }

  lemma {:induction false} NewestWitness(s: seq<Entry>, sector: nat) returns (i: nat)
    requires Newest(s, sector).Some?
    ensures i < |s| && s[i] == Entry(sector, Newest(s, sector).value)
    ensures forall j :: i < j < |s| ==> s[j].sector != sector
  {
    if s[|s| - 1].sector == sector {
      i := |s| - 1;
    } else {
      i := NewestWitness(s[..|s| - 1], sector);
    }
  }

  /** Looking one node ahead is enough to recognise the newest copy of a block. */
  lemma TestNodeIsNewest(s: seq<Entry>, entries: nat, pos: nat, sector: nat)
    requires Sorted(s)
    ensures TestNode(s, entries, pos, sector) <==> pos < entries && Newest(s, sector) == Some(pos)
  {
    if TestNode(s, entries, pos, sector) {
      var i :| 0 <= i < |s| && s[i] == Entry(sector, pos) && (i + 1 == |s| || s[i + 1].sector != sector);
      NewestAt(s, i);
    }
    if Newest(s, sector) == Some(pos) {
      var i := NewestWitness(s, sector);
    }
  }

  lemma {:induction false} NextBounds(s: seq<Entry>, sector: nat, other: nat)
    requires Sorted(s) && sector < other
    requires NextSector(s, sector).Some? ==> other < NextSector(s, sector).value
    ensures Newest(s, other) == None
  {
    if |s| > 0 {
      if s[0].sector > sector {
        NoneEqual(s, other);
      } else {
        NextBounds(s[1..], sector, other);
        assert s == [s[0]] + s[1..];
        NewestOfConcat([s[0]], s[1..], other);
      }
    }
  }

  /** Chooses how much of a read to serve in one go and from where: every block of the span is
      served from its newest journal copy, at consecutive positions, or has no copy at all. */
  method ReadSpan(root: Tree, entries: nat, sector: nat, want: nat) returns (pos: Option<nat>, n: nat)
    requires Sorted(InOrder(root)) && want > 0
    ensures 0 < n <= want
    ensures pos == Newest(InOrder(root), sector)
    ensures forall x :: sector <= x < sector + n ==>
              Newest(InOrder(root), x) == if pos.Some? then Some(pos.value + (x - sector)) else None
  {
    var found, next := Find(root, sector);
    pos := found;
    if pos.None? {
      n := SpanOfDevice(InOrder(root), sector, want, next);
    } else {
      n := SpanOfJournal(InOrder(root), entries, sector, want, pos.value);
    }
  }

  /** Up to the next journalled block. */
  method SpanOfDevice(ghost s: seq<Entry>, sector: nat, want: nat, next: Option<nat>) returns (n: nat)
    requires Sorted(s) && want > 0 && Newest(s, sector).None? && next == NextSector(s, sector)
    ensures 0 < n <= want && forall x :: sector <= x < sector + n ==> Newest(s, x) == None
  {
    n := want;
    NextAbove(s, sector);
    if next.Some? && n > next.value - sector {
      n := next.value - sector;
    }
    forall x | sector < x < sector + n
      ensures Newest(s, x) == None
    {
      NextBounds(s, sector, x);
    }
  }

  /** As long as the newest copies stand at consecutive positions. */
  method SpanOfJournal(s: seq<Entry>, entries: nat, sector: nat, want: nat, pos: nat) returns (n: nat)
    requires Sorted(s) && want > 0 && Newest(s, sector) == Some(pos)
    ensures 0 < n <= want && forall x :: sector <= x < sector + n ==> Newest(s, x) == Some(pos + (x - sector))
  {
    n := 1;
    while n < want && TestNode(s, entries, pos + n, sector + n)
      invariant 1 <= n <= want
      invariant forall x :: sector <= x < sector + n ==> Newest(s, x) == Some(pos + (x - sector))
    {
      TestNodeIsNewest(s, entries, pos + n, sector + n);
      n := n + 1;
    }
  }

  lemma {:induction false} NextAbove(s: seq<Entry>, sector: nat)
    ensures NextSector(s, sector).Some? ==> NextSector(s, sector).value > sector
  {
    if |s| > 0 {
      NextAbove(s[1..], sector);
    }
  }

  // ---------------------------------------------------------------- newer committed copies

  /** How many entries after position `start` of the ring a position was handed out. */
  function Age(start: nat, pos: nat, size: nat): nat {
    if start < size && pos < size then Dist(start, pos, size) else 0
  }

  /** Equal sectors stand in the order their positions were handed out. */
  ghost predicate ByAge(s: seq<Entry>, start: nat, size: nat) {
    && (forall i :: 0 <= i < |s| ==> s[i].pos < size)
    && (forall i, j :: 0 <= i < j < |s| && s[i].sector == s[j].sector ==>
          Age(start, s[i].pos, size) < Age(start, s[j].pos, size))
  }

  /** Linking a position younger than all others keeps equal sectors in order of age. */
  lemma AddKeepsAge(t: Tree, e: Entry, start: nat, size: nat)
    requires Sorted(InOrder(t)) && ByAge(InOrder(t), start, size) && e.pos < size
    requires forall i :: 0 <= i < |InOrder(t)| ==> Age(start, InOrder(t)[i].pos, size) < Age(start, e.pos, size)
    ensures ByAge(InOrder(Add(t, e)), start, size)
  {
    var s := InOrder(t);
    var n := Rank(s, e.sector);
    AddInserts(t, e);
    RankBounds(s, e.sector);
    var s' := InOrder(Add(t, e));
    forall i | 0 <= i < |s'|
      ensures s'[i].pos < size
    {
      assert i != n ==> s'[i] == s[if i < n then i else i - 1];
    }
    forall i, j | 0 <= i < j < |s'| && s'[i].sector == s'[j].sector
      ensures Age(start, s'[i].pos, size) < Age(start, s'[j].pos, size)
    {
      assert i < n ==> s'[i] == s[i];
      assert i > n ==> s'[i] == s[i - 1];
      assert j < n ==> s'[j] == s[j];
      assert j > n ==> s'[j] == s[j - 1];
    }
  }

  /** The two-part test for a section being among n committed ones starting at `start`. */
  predicate InZone(section: nat, start: nat, n: nat, sections: nat) {
    (section >= start && section < start + n) || section + sections < start + n
  }

  lemma InZoneIsExact(section: nat, start: nat, n: nat, sections: nat)
    requires section < sections && start < sections && n <= sections
    ensures InZone(section, start, n, sections)
       <==> exists k :: 0 <= k < n && section == At(start, k, sections)
  {
    if InZone(section, start, n, sections) {
      var k := if section >= start then section - start else section + sections - start;
      assert section == At(start, k, sections);
    }
  }

  /** A position is in a committed section exactly when its age, from the first committed section on,
      is less than that of the sections. */
  lemma ZoneIsAge(pos: nat, start: nat, n: nat, sections: nat, entries: nat)
    requires entries > 0 && start < sections && n <= sections && pos < sections * entries
    ensures InZone(pos / entries, start, n, sections) <==> Age(start * entries, pos, sections * entries) < n * entries
  {
    var q, r := pos / entries, pos % entries;
    DivMod(pos, entries);
    SectionFits(start, sections, entries);
    MulAdd(q - start, start, entries);
    MulAdd(q + sections - start, start, entries);
    MulAdd(q, sections, entries);
    ByWhole(q - start, r, n, entries);
    ByWhole(q + sections - start, r, n, entries);
    if q >= start {
      MulMono(start, q, entries);
    } else {
      MulMono(q + 1, start, entries);
      MulAdd(q, 1, entries);
    }
    WholeBelow(q, r, sections, entries);
  }

  /** A number of whole parts and a rest is below n parts exactly when the whole parts are. */
  lemma ByWhole(q: int, r: nat, n: nat, e: nat)
    requires r < e
    ensures q * e + r < n * e <==> q < n
  {
    if q < n {
      MulMono(q + 1, n, e);
      MulAdd(q, 1, e);
    } else {
      MulMono(n, q, e);
    }
  }

  lemma WholeBelow(q: nat, r: nat, n: nat, e: nat)
    requires r < e && q * e + r < n * e
    ensures q < n
  {
    ByWhole(q, r, n, e);
  }

  /** A position is in a committed section. */
  predicate Committed(pos: nat, start: nat, n: nat, sections: nat, entries: nat)
    requires entries > 0
  {
    InZone(pos / entries, start, n, sections)
  }

  /** Positions are committed in the order they were handed out. */
  lemma OlderIsCommitted(p: nat, q: nat, start: nat, n: nat, sections: nat, entries: nat)
    requires entries > 0 && start < sections && n <= sections && p < sections * entries && q < sections * entries
    requires Age(start * entries, p, sections * entries) <= Age(start * entries, q, sections * entries)
    requires Committed(q, start, n, sections, entries)
    ensures Committed(p, start, n, sections, entries)
  {
    ZoneIsAge(p, start, n, sections, entries);
    ZoneIsAge(q, start, n, sections, entries);
  }

  /** `find_newer_committed_node` looks one node ahead, and at the section of that node. */
  predicate NewerCommitted(s: seq<Entry>, i: nat, start: nat, n: nat, sections: nat, entries: nat)
    requires i < |s| && entries > 0
  {
    i + 1 < |s| && s[i + 1].sector == s[i].sector && Committed(s[i + 1].pos, start, n, sections, entries)
  }

  /** One node is enough: if any newer copy is in a committed section, the next one is. */
  lemma NewerCommittedIsExact(s: seq<Entry>, i: nat, start: nat, n: nat, sections: nat, entries: nat)
    requires entries > 0 && start < sections && n <= sections && i < |s|
    requires Sorted(s) && ByAge(s, start * entries, sections * entries)
    ensures NewerCommitted(s, i, start, n, sections, entries)
       <==> exists j :: i < j < |s| && s[j].sector == s[i].sector && Committed(s[j].pos, start, n, sections, entries)
  {
    if j :| i < j < |s| && s[j].sector == s[i].sector && Committed(s[j].pos, start, n, sections, entries) {
      NextIsOldest(s, i, j, start * entries, sections * entries);
      OlderIsCommitted(s[i + 1].pos, s[j].pos, start, n, sections, entries);
    }
  }

  /** Of the newer copies the next one is the oldest. */
  lemma NextIsOldest(s: seq<Entry>, i: nat, j: nat, start: nat, size: nat)
    requires Sorted(s) && ByAge(s, start, size) && i < j < |s| && s[j].sector == s[i].sector
    ensures s[i + 1].sector == s[i].sector && s[i + 1].pos < size && s[j].pos < size
    ensures Age(start, s[i + 1].pos, size) <= Age(start, s[j].pos, size)
  {
    assert s[i].sector <= s[i + 1].sector;
    assert i + 1 < j ==> s[i + 1].sector <= s[j].sector;
  }

  // ---------------------------------------------------------------- discards

  const SECTOR_MAX := 0xFFFF_FFFF_FFFF_FFFF

  /** The test a discard makes before it may bypass the journal, in 64-bit arithmetic: go ahead
      unless the first block has a copy or the next journalled sector is below start - n. */
  predicate DiscardGoesAhead(s: seq<Entry>, start: nat, n: nat) {
    var next := match NextSector(s, start) { case Some(x) => x case None => SECTOR_MAX };
    var limit := if start >= n then start - n else start - n + SECTOR_MAX + 1;
    Newest(s, start).None? && !(next < limit)
  }

  /** What the test is for. */
  ghost predicate RangeIsFree(s: seq<Entry>, start: nat, n: nat) {
    forall x :: start <= x < start + n ==> Newest(s, x).None?
  }

  /** A journalled block inside the range, not at its start, is missed. */
  lemma DiscardMissesBlock()
    ensures var s := [Entry(101, 0)];
            Sorted(s) && DiscardGoesAhead(s, 100, 8) && !RangeIsFree(s, 100, 8)
  {
    var s := [Entry(101, 0)];
    assert s[1..] == [] && s[..0] == [];
    assert Newest(s, 101) == Some(0);
  }

  /** When the test lets a discard through, the range is free of journal copies exactly when
      the next journalled sector is not inside it. */
  lemma DiscardIsSafeWhen(s: seq<Entry>, start: nat, n: nat)
    requires Sorted(s) && n > 0 && DiscardGoesAhead(s, start, n)
    ensures RangeIsFree(s, start, n)
       <==> NextSector(s, start).None? || NextSector(s, start).value >= start + n
  {
    if NextSector(s, start).Some? && NextSector(s, start).value < start + n {
      NextAbove(s, start);
      NextIsLinked(s, start);
    } else {
      forall x | start <= x < start + n
        ensures Newest(s, x).None?
      {
        if x > start {
          NextBounds(s, start, x);
        }
      }
    }
  }

  lemma {:induction false} NextIsLinked(s: seq<Entry>, sector: nat)
    requires NextSector(s, sector).Some?
    ensures Newest(s, NextSector(s, sector).value).Some?
  {
    var next := NextSector(s, sector).value;
    assert s == [s[0]] + s[1..];
    NewestOfConcat([s[0]], s[1..], next);
    if s[0].sector <= sector {
      NextIsLinked(s[1..], sector);
    }
  }
}
