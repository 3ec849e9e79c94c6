/** Replay of the dm-integrity journal after a crash.

    The journal is a ring of sections, each a row of sectors.  Replay reads the whole ring,
    finds from the commit ids alone where the newest commit ended, and re-applies the
    sections that follow in ring order until the ids stop matching.
 */
module JournalReplay {
  import opened Arithmetic
  import opened CommitIds

  /** A journal sector: its data and the commit id stamped in its last bytes. */
  datatype Sector<B> = Sector(body: B, id: Word)

  type Journal<B> = seq<seq<Sector<B>>>

  /** What replay knows about the device: the id constants, the position mask, how the bodies
      of a section decode into journalled writes, and the body of an erased sector. */
  datatype Device<!B, V> = Device(
    ids: seq<Word>,
    mask: (nat, nat) -> Word,
    decode: seq<B> -> seq<(nat, V)>,
    erased: B,
    sections: nat,
    sectors: nat)
  {
    ghost predicate Valid() {
      && Distinct(ids)
      && sections > 0
      && sectors > 0
      && decode(Blank()) == []
    }

    /** The bodies of an erased section. */
    function Blank(): seq<B> {
      seq(sectors, _ => erased)
    }

    /** A ring of erased sections. */
    function BlankLog(): seq<seq<B>> {
      seq(sections, _ => Blank())
    }

    ghost predicate Formatted(journal: Journal<B>) {
      && |journal| == sections
      && forall i :: 0 <= i < sections ==> |journal[i]| == sectors
    }

    function Id(i: nat, j: nat, s: CommitSeq): Word
      requires |ids| == N_COMMIT_IDS
    {
      CommitId(ids, mask(i, j), s)
    }
  }

  function Bodies<B>(section: seq<Sector<B>>): seq<B> {
    seq(|section|, j requires 0 <= j < |section| => section[j].body)
  }

  // ---------------------------------------------------------------- what the ids say

  /** The sequence number of every sector, -1 where the id is not one of the four. */
  ghost function Grid<B, V>(dev: Device<B, V>, journal: Journal<B>): (g: seq<seq<int>>)
    requires |dev.ids| == N_COMMIT_IDS
    ensures Reads(dev, journal, g)
  {
    seq(|journal|, i requires 0 <= i < |journal| =>
      seq(|journal[i]|, j requires 0 <= j < |journal[i]| =>
        SeqOf(dev.ids, dev.mask(i, j), journal[i][j].id)))
  }

  ghost predicate Reads<B, V>(dev: Device<B, V>, journal: Journal<B>, g: seq<seq<int>>)
    requires |dev.ids| == N_COMMIT_IDS
  {
    && |g| == |journal|
    && (forall i :: 0 <= i < |g| ==> |g[i]| == |journal[i]|)
    && (forall i, j :: 0 <= i < |g| && 0 <= j < |g[i]| ==>
          g[i][j] == SeqOf(dev.ids, dev.mask(i, j), journal[i][j].id))
  }

  /** The journal has been read, and g is what its ids say. */
  ghost predicate Loaded<B, V>(dev: Device<B, V>, journal: Journal<B>, g: seq<seq<int>>) {
    Distinct(dev.ids) && |journal| > 0 && Reads(dev, journal, g)
  }

  ghost predicate Used(g: seq<seq<int>>, k: int) {
    exists i :: 0 <= i < |g| && k in g[i]
  }

  ghost predicate Uniform(row: seq<int>, k: int) {
    forall j :: 0 <= j < |row| ==> row[j] == k
  }

  /** The last of the first n sections holding a sector stamped k; 0 when there is none. */
  ghost function LastWith(g: seq<seq<int>>, k: int, n: nat): (last: nat)
    requires n <= |g|
    ensures n > 0 ==> last < n
  {
    if n == 0 then 0 else if k in g[n - 1] then n - 1 else LastWith(g, k, n - 1)
  }

  /** The number taken as unused: above the run of used ones, or the first gap when 3 is used. */
  ghost function Unused(used: seq<bool>): nat
    requires |used| == N_COMMIT_IDS
  {
    if !used[3] then
      if used[2] then 3 else if used[1] then 2 else if used[0] then 1 else 0
    else
      if !used[0] then 0 else if !used[1] then 1 else if !used[2] then 2 else 4
  }

  /** Number of consecutive sections, starting at section i, whose sectors all carry the
      expected sequence number; the expectation is bumped when the ring wraps. */
  ghost function Run(g: seq<seq<int>>, i: nat, want: CommitSeq, budget: nat): nat
    requires i < |g|
    decreases budget
  {
    if budget == 0 || !Uniform(g[i], want) then 0
    else 1 + Run(g, Wrap(i + 1, |g|), if i + 1 >= |g| then Next(want) else want, budget - 1)
  }

  /** What replay decides to do: Damaged is the jump to clearing the journal unread. */
  datatype Plan = Damaged | Plan(start: nat, count: nat, empty: bool, last: CommitSeq, nextSeq: CommitSeq)

  ghost predicate NoEntries<B, V>(dev: Device<B, V>, journal: Journal<B>) {
    forall i :: 0 <= i < |journal| ==> dev.decode(Bodies(journal[i])) == []
  }

  ghost function UsedBits(g: seq<seq<int>>): seq<bool> {
    [Used(g, 0), Used(g, 1), Used(g, 2), Used(g, 3)]
  }

  /** The numbers that occur are two apart: what they stamp is not worth replaying. */
  ghost predicate Stale(used: seq<bool>, last: CommitSeq)
    requires |used| == N_COMMIT_IDS
  {
    !used[Prev(last)] && used[Prev(Prev(last))]
  }

  /** Where to start, how far the ids match, and the number expected after that. */
  ghost function PlanFrom(g: seq<seq<int>>, last: CommitSeq, empty: bool): Plan
    requires |g| > 0
  {
    var top := LastWith(g, last, |g|) + 1;
    var first := if top >= |g| then last else Prev(last);
    var start := Wrap(top, |g|);
    var count := Run(g, start, first, |g|);
    Plan(start, count, empty, last, if start + count >= |g| then Next(first) else first)
  }

  ghost function PlanOf(g: seq<seq<int>>, noEntries: bool): Plan {
    var used := UsedBits(g);
    var unused := Unused(used);
    if Used(g, -1) || unused == N_COMMIT_IDS || |g| == 0 then Damaged
    else
      var last := Prev(unused);
      PlanFrom(g, last, noEntries || Stale(used, last))
  }

  // ---------------------------------------------------------------- the replay code

  /** First pass over one section: records each sequence number found in it. */
  method ScanSection<B, V>(dev: Device<B, V>, journal: Journal<B>, ghost g: seq<seq<int>>, i: nat, used0: seq<bool>,
                           last0: seq<nat>)
    returns (damaged: bool, used: seq<bool>, last: seq<nat>)
    requires Loaded(dev, journal, g) && i < |journal|
    requires |used0| == |last0| == N_COMMIT_IDS
    ensures damaged == (-1 in g[i])
    ensures |used| == |last| == N_COMMIT_IDS
    ensures !damaged ==> forall k :: 0 <= k < N_COMMIT_IDS ==>
                && used[k] == (used0[k] || k in g[i])
                && last[k] == if k in g[i] then i else last0[k]
  {
    ghost var row := g[i];
    used, last := used0, last0;
    var j := 0;
    while j < |journal[i]|
      invariant 0 <= j <= |journal[i]|
      invariant |used| == |last| == N_COMMIT_IDS
      invariant forall k :: 0 <= k < N_COMMIT_IDS ==> used[k] == (used0[k] || k in row[..j])
      invariant forall k :: 0 <= k < N_COMMIT_IDS ==> last[k] == if k in row[..j] then i else last0[k]
      invariant -1 !in row[..j]
    {
      var k := FindCommitSeq(dev.ids, dev.mask(i, j), journal[i][j].id);
      assert row[..j + 1] == row[..j] + [k];
      if k < 0 {
        assert row[j] == -1;
        damaged := true;
        return;
      }
      used := used[k := true];
      last := last[k := i];
      j := j + 1;
    }
    assert row[..j] == row;
    damaged := false;
  }

  /** First pass: which sequence numbers occur, and the last section each occurs in. */
  method Scan<B, V>(dev: Device<B, V>, journal: Journal<B>, ghost g: seq<seq<int>>)
    returns (damaged: bool, used: seq<bool>, last: seq<nat>, empty: bool)
    requires Loaded(dev, journal, g)
    ensures damaged == Used(g, -1)
    ensures !damaged ==>
              && used == UsedBits(g)
              && empty == NoEntries(dev, journal)
              && |last| == N_COMMIT_IDS
              && forall k :: 0 <= k < N_COMMIT_IDS ==> last[k] == LastWith(g, k, |journal|)
  {
    used, last, empty, damaged := [false, false, false, false], [0, 0, 0, 0], true, false;
    var i := 0;
    while i < |journal|
      invariant 0 <= i <= |journal|
      invariant |used| == |last| == N_COMMIT_IDS
      invariant forall k :: 0 <= k < N_COMMIT_IDS ==> used[k] == Used(g[..i], k)
      invariant forall k :: 0 <= k < N_COMMIT_IDS ==> last[k] == LastWith(g, k, i)
      invariant !Used(g[..i], -1)
      invariant empty == NoEntries(dev, journal[..i])
    {
      damaged, used, last := ScanSection(dev, journal, g, i, used, last);
      if damaged {
        return;
      }
      if empty {
        empty := |dev.decode(Bodies(journal[i]))| == 0;
      }
      UsedExtends(g, i);
      assert journal[..i + 1] == journal[..i] + [journal[i]];
      i := i + 1;
    }
    assert g[..i] == g && journal[..i] == journal;
  }

  lemma UsedExtends(g: seq<seq<int>>, i: nat)
    requires i < |g|
    ensures forall k :: Used(g[..i + 1], k) <==> Used(g[..i], k) || k in g[i]
  {
    forall k
      ensures Used(g[..i + 1], k) <==> Used(g[..i], k) || k in g[i]
    {
      assert forall i' :: 0 <= i' < i ==> g[..i + 1][i'] == g[..i][i'];
      assert g[..i + 1][i] == g[i];
    }
  }

  /** Picks the unused number with the two search loops of the source. */
  method FindUnused(used: seq<bool>) returns (unused: nat)
    requires |used| == N_COMMIT_IDS
    ensures unused == Unused(used)
  {
    if !used[N_COMMIT_IDS - 1] {
      unused := N_COMMIT_IDS - 1;
      while unused > 0 && !used[unused - 1]
        invariant unused < N_COMMIT_IDS
        invariant forall k :: unused <= k < N_COMMIT_IDS ==> !used[k]
      {
        unused := unused - 1;
      }
    } else {
      unused := 0;
      while unused < N_COMMIT_IDS && used[unused]
        invariant unused <= N_COMMIT_IDS
        invariant forall k :: 0 <= k < unused ==> used[k]
      {
        unused := unused + 1;
      }
    }
  }

  /** Counts the sections that carry the expected ids from `start` on. */
  method CountRun<B, V>(dev: Device<B, V>, journal: Journal<B>, ghost g: seq<seq<int>>, start: nat, first: CommitSeq)
    returns (count: nat, want: CommitSeq)
    requires Loaded(dev, journal, g) && start < |journal|
    ensures count == Run(g, start, first, |journal|)
    ensures want == if start + count >= |journal| then Next(first) else first
  {
    var i := start;
    count, want := 0, first;
    while count < |journal|
      invariant 0 <= count <= |journal|
      invariant i < |journal| && i == Wrap(start + count, |journal|)
      invariant want == if start + count >= |journal| then Next(first) else first
      invariant Run(g, start, first, |journal|) == count + Run(g, i, want, |journal| - count)
    {
      var matches := SectionMatches(dev, journal, g, i, want);
      if !matches {
        break;
      }
      assert Run(g, i, want, |journal| - count)
          == 1 + Run(g, Wrap(i + 1, |g|), if i + 1 >= |g| then Next(want) else want, |journal| - count - 1);
      i := i + 1;
      if i >= |journal| {
        want := Next(want);
      }
      i := Wrap(i, |journal|);
      count := count + 1;
    }
  }

  /** Compares every commit id of a section with the one expected at its position. */
  method SectionMatches<B, V>(dev: Device<B, V>, journal: Journal<B>, ghost g: seq<seq<int>>, i: nat, want: CommitSeq)
    returns (ok: bool)
    requires Loaded(dev, journal, g) && i < |journal|
    ensures ok == Uniform(g[i], want)
  {
    var j := 0;
    while j < |journal[i]|
      invariant 0 <= j <= |journal[i]|
      invariant forall j' :: 0 <= j' < j ==> g[i][j'] == want
    {
      StampIsRecognised(dev.ids, dev.mask(i, j), want);
      if journal[i][j].id != dev.Id(i, j, want) {
        assert g[i][j] != want;
        return false;
      }
      assert g[i][j] == want;
      j := j + 1;
    }
    ok := true;
  }

  /** The second pass and the decisions around it. */
  method MakePlan<B, V>(dev: Device<B, V>, journal: Journal<B>, ghost g: seq<seq<int>>) returns (plan: Plan)
    requires Loaded(dev, journal, g)
    ensures plan == PlanOf(g, NoEntries(dev, journal))
  {
    var damaged, used, lastSection, empty := Scan(dev, journal, g);
    if damaged {
      return Damaged;
    }
    var unused := FindUnused(used);
    if unused == N_COMMIT_IDS {
      return Damaged;
    }
    var last := Prev(unused);
    var want := Prev(last);
    if !used[want] && used[Prev(want)] {
      empty := true;
    }
    var start := lastSection[last] + 1;
    if start >= |journal| {
      want := Next(want);
    }
    start := Wrap(start, |journal|);

    var count, nextSeq := CountRun(dev, journal, g, start, want);
    plan := Plan(start, count, empty, last, nextSeq);
  }
}
