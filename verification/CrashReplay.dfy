/** The journal a crash leaves on disk, what replay reads out of it, and the journal replay
    leaves behind.
 */
module CrashReplay {
  import opened Arithmetic
  import opened CommitIds
  import opened JournalReplay
  import opened ReplayWindow

  /** Sizes: the log's last S sections are `past`, the commit of `inflight` goes to ring
      position p, and `persisted` marks its sectors that have reached the disk. */
  ghost predicate Sized<B, V>(dev: Device<B, V>, p: nat, past: seq<seq<B>>, inflight: seq<seq<B>>,
                              persisted: seq<seq<bool>>)
  {
    && |dev.ids| == N_COMMIT_IDS
    && p < dev.sections == |past|
    && |inflight| == |persisted| <= dev.sections
    && (forall t :: 0 <= t < |past| ==> |past[t]| == dev.sectors)
    && (forall t :: 0 <= t < |inflight| ==> |inflight[t]| == |persisted[t]| == dev.sectors)
  }

  /** The sector at window offset t: the new one if it is on disk, else the one a pass ago. */
  ghost function SectorAt<B, V>(dev: Device<B, V>, p: nat, s: CommitSeq, past: seq<seq<B>>, inflight: seq<seq<B>>,
                                persisted: seq<seq<bool>>, t: nat, j: nat): Sector<B>
    requires Sized(dev, p, past, inflight, persisted) && t < dev.sections && j < dev.sectors
  {
    var S := dev.sections;
    if t < |inflight| && persisted[t][j]
    then Sector(inflight[t][j], dev.Id(Slot(p, t, S), j, Stamp(p, s, S + t, S)))
    else Sector(past[t][j], dev.Id(Slot(p, t, S), j, Stamp(p, s, t, S)))
  }

  /** The journal on disk in such a situation, the commit carrying number s at position p. */
  ghost function Image<B, V>(dev: Device<B, V>, p: nat, s: CommitSeq, past: seq<seq<B>>, inflight: seq<seq<B>>,
                             persisted: seq<seq<bool>>): Journal<B>
    requires Sized(dev, p, past, inflight, persisted)
  {
    seq(dev.sections, i requires 0 <= i < dev.sections =>
      seq(dev.sectors, j requires 0 <= j < dev.sectors =>
        SectorAt(dev, p, s, past, inflight, persisted, Offset(p, i, dev.sections), j)))
  }

  ghost predicate CrashJournal<B, V>(dev: Device<B, V>, journal: Journal<B>, p: nat, s: CommitSeq,
                                     past: seq<seq<B>>, inflight: seq<seq<B>>, persisted: seq<seq<bool>>)
  {
    Sized(dev, p, past, inflight, persisted) && journal == Image(dev, p, s, past, inflight, persisted)
  }

  lemma ImageAt<B, V>(dev: Device<B, V>, journal: Journal<B>, p: nat, s: CommitSeq,
                      past: seq<seq<B>>, inflight: seq<seq<B>>, persisted: seq<seq<bool>>, t: nat, j: nat)
    requires CrashJournal(dev, journal, p, s, past, inflight, persisted) && t < dev.sections && j < dev.sectors
    ensures dev.Formatted(journal)
    ensures journal[Slot(p, t, dev.sections)][j] == SectorAt(dev, p, s, past, inflight, persisted, t, j)
  {
    assert Offset(p, Slot(p, t, dev.sections), dev.sections) == t;
  }

  lemma IsImage<B, V>(dev: Device<B, V>, journal: Journal<B>, p: nat, s: CommitSeq,
                      past: seq<seq<B>>, inflight: seq<seq<B>>, persisted: seq<seq<bool>>)
    requires Sized(dev, p, past, inflight, persisted) && dev.Formatted(journal)
    requires forall t, j :: 0 <= t < dev.sections && 0 <= j < dev.sectors ==>
               journal[Slot(p, t, dev.sections)][j] == SectorAt(dev, p, s, past, inflight, persisted, t, j)
    ensures CrashJournal(dev, journal, p, s, past, inflight, persisted)
  {
    forall i | 0 <= i < dev.sections
      ensures journal[i] == Image(dev, p, s, past, inflight, persisted)[i]
    {
      var t := Offset(p, i, dev.sections);
      assert forall j :: 0 <= j < dev.sectors ==>
          journal[Slot(p, t, dev.sections)][j] == SectorAt(dev, p, s, past, inflight, persisted, t, j);
    }
  }

  /** The ids on disk read back as the numbers they were stamped with. */
  lemma CrashNumbers<B, V>(dev: Device<B, V>, journal: Journal<B>, g: seq<seq<int>>, p: nat, s: CommitSeq,
                           past: seq<seq<B>>, inflight: seq<seq<B>>, persisted: seq<seq<bool>>)
    requires dev.Valid() && Loaded(dev, journal, g)
    requires CrashJournal(dev, journal, p, s, past, inflight, persisted)
    ensures CrashGrid(g, p, s, persisted)
  {
    var S := dev.sections;
    forall t, j | 0 <= t < S && 0 <= j < dev.sectors
      ensures g[Slot(p, t, S)][j] == Stamp(p, s, if t < |persisted| && persisted[t][j] then S + t else t, S)
    {
      var i := Slot(p, t, S);
      ImageAt(dev, journal, p, s, past, inflight, persisted, t, j);
      StampIsRecognised(dev.ids, dev.mask(i, j),
                        Stamp(p, s, if t < |persisted| && persisted[t][j] then S + t else t, S));
    }
  }

  /** A section none of whose sectors was overwritten holds the past bodies; one all of whose
      sectors were holds the new ones. */
  lemma SlotBodies<B, V>(dev: Device<B, V>, journal: Journal<B>, p: nat, s: CommitSeq,
                         past: seq<seq<B>>, inflight: seq<seq<B>>, persisted: seq<seq<bool>>, t: nat)
    requires dev.Valid() && CrashJournal(dev, journal, p, s, past, inflight, persisted) && t < dev.sections
    ensures !AnyNew(persisted, t) ==> Bodies(journal[Slot(p, t, dev.sections)]) == past[t]
    ensures AllNew(persisted, t) ==> Bodies(journal[Slot(p, t, dev.sections)]) == inflight[t]
  {
    var i := Slot(p, t, dev.sections);
    forall j | 0 <= j < dev.sectors
      ensures !AnyNew(persisted, t) ==> journal[i][j].body == past[t][j]
      ensures AllNew(persisted, t) ==> journal[i][j].body == inflight[t][j]
    {
      ImageAt(dev, journal, p, s, past, inflight, persisted, t, j);
    }
  }

  /** The sections replay applies, in the order it applies them. */
  ghost function Replayed<B>(journal: Journal<B>, plan: Plan): seq<seq<B>>
    requires plan.Plan? ==> plan.start < |journal| && plan.count <= |journal|
  {
    if plan.Damaged? || plan.empty then []
    else seq(plan.count, r requires 0 <= r < plan.count => Bodies(journal[Wrap(plan.start + r, |journal|)]))
  }

  /** The sections from the frontier to the end of the complete prefix are on disk untorn. */
  lemma ReplayedSections<B, V>(dev: Device<B, V>, journal: Journal<B>, p: nat, s: CommitSeq,
                               past: seq<seq<B>>, inflight: seq<seq<B>>, persisted: seq<seq<bool>>, a: nat, full: nat,
                                   r: nat)
    requires dev.Valid() && CrashJournal(dev, journal, p, s, past, inflight, persisted)
    requires IsFrontier(persisted, a) && IsFullPrefix(persisted, full) && full <= a
    requires r < dev.sections + full - a
    ensures Bodies(journal[Wrap(Slot(p, a, dev.sections) + r, dev.sections)]) == (past + inflight)[a + r]
  {
    var S := dev.sections;
    var t := if a + r < S then a + r else a + r - S;
    assert Slot(p, t, S) == Wrap(Slot(p, a, S) + r, S);
    SlotBodies(dev, journal, p, s, past, inflight, persisted, t);
    if a + r < S {
      assert !AnyNew(persisted, t);
    } else {
      assert AllNew(persisted, t);
    }
  }

  /** The journalled writes of a run of sections, in order. */
  ghost function Entries<B, V>(dev: Device<B, V>, sections: seq<seq<B>>): seq<(nat, V)> {
    if |sections| == 0 then [] else Entries(dev, sections[..|sections| - 1]) + dev.decode(sections[|sections| - 1])
  }

  lemma NoEntriesAtAll<B, V>(dev: Device<B, V>, sections: seq<seq<B>>)
    requires forall i :: 0 <= i < |sections| ==> dev.decode(sections[i]) == []
    ensures Entries(dev, sections) == []
  {
  }

  /** Applying what the plan replays is applying the given sections one after the other. */
  ghost predicate Applies<B, V>(dev: Device<B, V>, journal: Journal<B>, plan: Plan, sections: seq<seq<B>>) {
    && plan.Plan? && plan.start < |journal| && plan.count <= |journal|
    && Entries(dev, Replayed(journal, plan)) == Entries(dev, sections)
    && (!plan.empty ==> Replayed(journal, plan) == sections)
  }

  lemma AppliesStretch<B, V>(dev: Device<B, V>, journal: Journal<B>, p: nat, s: CommitSeq,
                             past: seq<seq<B>>, inflight: seq<seq<B>>, persisted: seq<seq<bool>>,
                             a: nat, full: nat, plan: Plan)
    requires dev.Valid() && CrashJournal(dev, journal, p, s, past, inflight, persisted)
    requires IsFrontier(persisted, a) && IsFullPrefix(persisted, full) && full <= a
    requires plan.Plan? && plan.start == Slot(p, a, dev.sections) && plan.count == dev.sections + full - a
    requires plan.empty == NoEntries(dev, journal)
    ensures Applies(dev, journal, plan, (past + inflight)[a..|past| + full])
  {
    var stretch := (past + inflight)[a..|past| + full];
    forall r | 0 <= r < plan.count
      ensures Bodies(journal[Wrap(plan.start + r, |journal|)]) == stretch[r]
    {
      ReplayedSections(dev, journal, p, s, past, inflight, persisted, a, full, r);
    }
    AppliesSections(dev, journal, plan, stretch);
  }

  lemma AppliesSections<B, V>(dev: Device<B, V>, journal: Journal<B>, plan: Plan, stretch: seq<seq<B>>)
    requires plan.Plan? && plan.start < |journal| && plan.count <= |journal| && |stretch| == plan.count
    requires plan.empty == NoEntries(dev, journal)
    requires forall r :: 0 <= r < plan.count ==> Bodies(journal[Wrap(plan.start + r, |journal|)]) == stretch[r]
    ensures Applies(dev, journal, plan, stretch)
  {
    if plan.empty {
      forall r | 0 <= r < |stretch|
        ensures dev.decode(stretch[r]) == []
      {
        assert dev.decode(Bodies(journal[Wrap(plan.start + r, |journal|)])) == [];
      }
      NoEntriesAtAll(dev, stretch);
    } else {
      assert Replayed(journal, plan) == stretch;
    }
  }

  /** The plan applies the log from window index a to the end of the complete prefix; if it
      goes all the way round the ring, it also knows where the next commit goes. */
  ghost predicate Covers<B, V>(dev: Device<B, V>, journal: Journal<B>, plan: Plan, p: nat, s: CommitSeq,
                               past: seq<seq<B>>, inflight: seq<seq<B>>, persisted: seq<seq<bool>>, a: nat, full: nat)
    requires p < dev.sections && |inflight| <= dev.sections
  {
    && a <= |inflight| && full <= |inflight| && a <= |past| + full && IsFullPrefix(persisted, full)
    && Applies(dev, journal, plan, (past + inflight)[a..|past| + full])
    && (plan.count == dev.sections ==>
          && IsFrontier(persisted, a) && full == a
          && plan.start == Slot(p, a, dev.sections)
          && plan.nextSeq == Stamp(p, s, dev.sections + a, dev.sections))
  }

  lemma CoversWithoutGap<B, V>(dev: Device<B, V>, journal: Journal<B>, g: seq<seq<int>>, p: nat, s: CommitSeq,
                               past: seq<seq<B>>, inflight: seq<seq<B>>, persisted: seq<seq<bool>>)
    returns (plan: Plan, a: nat, full: nat)
    requires dev.Valid() && CrashJournal(dev, journal, p, s, past, inflight, persisted)
    requires CrashGrid(g, p, s, persisted) && !Gap(g, s) && |g| == dev.sections
    ensures plan == PlanOf(g, NoEntries(dev, journal))
    ensures Covers(dev, journal, plan, p, s, past, inflight, persisted, a, full)
  {
    a := FrontierExists(persisted, |persisted|);
    full := FullPrefixExists(persisted, 0);
    PlanWithoutGap(g, p, s, persisted, a, full, NoEntries(dev, journal));
    plan := Plan(Slot(p, a, |g|), |g| + full - a, NoEntries(dev, journal),
                 Stamp(p, s, |g| + a - 1, |g|), Stamp(p, s, |g| + full, |g|));
    AppliesStretch(dev, journal, p, s, past, inflight, persisted, a, full, plan);
  }

  lemma CoversWithGap<B, V>(dev: Device<B, V>, journal: Journal<B>, g: seq<seq<int>>, p: nat, s: CommitSeq,
                            past: seq<seq<B>>, inflight: seq<seq<B>>, persisted: seq<seq<bool>>)
    returns (plan: Plan, a: nat, full: nat)
    requires CrashGrid(g, p, s, persisted) && Gap(g, s) && |journal| == |past| == |g| == dev.sections
    requires |inflight| == |persisted|
    ensures plan == PlanOf(g, NoEntries(dev, journal))
    ensures Covers(dev, journal, plan, p, s, past, inflight, persisted, a, full)
  {
    GapMeansNothing(g, p, s, persisted);
    PlanWithGap(g, p, s, persisted, NoEntries(dev, journal));
    plan, a, full := PlanOf(g, NoEntries(dev, journal)), |past|, 0;
    assert (past + inflight)[a..|past| + full] == [];
  }

  /** Replay applies, in commit order, a stretch of the log that reaches back at least to the
      oldest section outside the in-flight commit and ends with the complete prefix of that
      commit.  No torn section is ever read. */
  lemma ReplayAppliesLog<B, V>(dev: Device<B, V>, journal: Journal<B>, g: seq<seq<int>>, p: nat, s: CommitSeq,
                               past: seq<seq<B>>, inflight: seq<seq<B>>, persisted: seq<seq<bool>>)
    returns (plan: Plan, a: nat, full: nat)
    requires dev.Valid() && Loaded(dev, journal, g)
    requires CrashJournal(dev, journal, p, s, past, inflight, persisted)
    ensures plan == PlanOf(g, NoEntries(dev, journal))
    ensures Covers(dev, journal, plan, p, s, past, inflight, persisted, a, full)
  {
    CrashNumbers(dev, journal, g, p, s, past, inflight, persisted);
    if Gap(g, s) {
      plan, a, full := CoversWithGap(dev, journal, g, p, s, past, inflight, persisted);
    } else {
      plan, a, full := CoversWithoutGap(dev, journal, g, p, s, past, inflight, persisted);
    }
  }

  // ---------------------------------------------------------------- the commit in flight

  /** Stamping the sections of a commit changes nothing on disk. */
  lemma CommitStarts<B, V>(dev: Device<B, V>, journal: Journal<B>, p: nat, s: CommitSeq,
                           past: seq<seq<B>>, inflight: seq<seq<B>>)
    requires dev.Valid() && CrashJournal(dev, journal, p, s, past, [], [])
    requires |inflight| <= dev.sections && forall t :: 0 <= t < |inflight| ==> |inflight[t]| == dev.sectors
    ensures CrashJournal(dev, journal, p, s, past, inflight, seq(|inflight|, _ => seq(dev.sectors, _ => false)))
  {
    var S := dev.sections;
    var persisted := seq(|inflight|, _ => seq(dev.sectors, _ => false));
    forall t, j | 0 <= t < S && 0 <= j < dev.sectors
      ensures journal[Slot(p, t, S)][j] == SectorAt(dev, p, s, past, inflight, persisted, t, j)
    {
      ImageAt(dev, journal, p, s, past, [], [], t, j);
    }
    IsImage(dev, journal, p, s, past, inflight, persisted);
  }

  /** One sector of the commit overwrites its predecessor one pass ago. */
  lemma SectorArrives<B, V>(dev: Device<B, V>, journal: Journal<B>, p: nat, s: CommitSeq,
                            past: seq<seq<B>>, inflight: seq<seq<B>>, persisted: seq<seq<bool>>, t: nat, j: nat)
    requires dev.Valid() && CrashJournal(dev, journal, p, s, past, inflight, persisted)
    requires t < |inflight| && j < dev.sectors
    ensures var S := dev.sections;
            var i := Slot(p, t, S);
            CrashJournal(dev, journal[i := journal[i][j := Sector(inflight[t][j],
                                                                  dev.Id(i, j, Stamp(p, s, S + t, S)))]],
                         p, s, past, inflight, persisted[t := persisted[t][j := true]])
  {
    var S := dev.sections;
    var i := Slot(p, t, S);
    var journal' := journal[i := journal[i][j := Sector(inflight[t][j], dev.Id(i, j, Stamp(p, s, S + t, S)))]];
    var persisted' := persisted[t := persisted[t][j := true]];
    forall t', j' | 0 <= t' < S && 0 <= j' < dev.sectors
      ensures journal'[Slot(p, t', S)][j'] == SectorAt(dev, p, s, past, inflight, persisted', t', j')
    {
      ImageAt(dev, journal, p, s, past, inflight, persisted, t', j');
    }
    IsImage(dev, journal', p, s, past, inflight, persisted');
  }

  // ---------------------------------------------------------------- after replay

  function ErasedSection<B, V>(dev: Device<B, V>, i: nat, s: CommitSeq): seq<Sector<B>>
    requires |dev.ids| == N_COMMIT_IDS
  {
    seq(dev.sectors, j requires 0 <= j < dev.sectors => Sector(dev.erased, dev.Id(i, j, s)))
  }

  /** `init_journal`: erases n sections from `start` on, around the ring. */
  method InitJournal<B, V>(dev: Device<B, V>, journal: Journal<B>, start: nat, n: nat, s: CommitSeq)
    returns (after: Journal<B>)
    requires |dev.ids| == N_COMMIT_IDS && n <= |journal| && start < |journal|
    ensures |after| == |journal|
    ensures forall i :: 0 <= i < |journal| ==>
              after[i] == if Offset(start, i, |journal|) < n then ErasedSection(dev, i, s) else journal[i]
  {
    after := journal;
    for m := 0 to n
      invariant |after| == |journal|
      invariant forall i :: 0 <= i < |journal| ==>
                  after[i] == if Offset(start, i, |journal|) < m then ErasedSection(dev, i, s) else journal[i]
    {
      var i := Wrap(start + m, |journal|);
      after := after[i := ErasedSection(dev, i, s)];
    }
  }

  ghost predicate Erased<B, V>(dev: Device<B, V>, journal: Journal<B>, s: CommitSeq)
    requires |dev.ids| == N_COMMIT_IDS
  {
    forall i :: 0 <= i < |journal| ==> journal[i] == ErasedSection(dev, i, s)
  }

  /** Clearing first erases the section replay would start from, then the middle, then the last. */
  method ClearJournal<B, V>(dev: Device<B, V>, journal: Journal<B>, start: nat, s: CommitSeq)
    returns (after: Journal<B>)
    requires |dev.ids| == N_COMMIT_IDS && start < |journal|
    ensures |after| == |journal| && Erased(dev, after, s)
  {
    var n := |journal|;
    after := InitJournal(dev, journal, start, 1, s);
    var i := Wrap(start + 1, n);
    if n >= 2 {
      after := InitJournal(dev, after, i, n - 2, s);
      i := Wrap(i + n - 2, n);
      after := InitJournal(dev, after, i, 1, s);
    }
  }

  /** Where the journal stands after replay: kept as it is when the ids matched all the way
      round, erased otherwise. */
  ghost predicate Restarts<B, V>(dev: Device<B, V>, journal: Journal<B>, plan: Plan, journalMode: bool,
                                 after: Journal<B>, section: nat, next: CommitSeq)
    requires |dev.ids| == N_COMMIT_IDS
  {
    if plan.Plan? && plan.count == |journal| && (journalMode || plan.empty) then
      after == journal && section == plan.start && next == plan.nextSeq
    else
      var erase := Prev(Prev(if plan.Plan? then plan.last else 0));
      |after| == |journal| && Erased(dev, after, erase) && section == 0 && next == Next(erase)
  }

  /** Collects the planned sections one by one, around the ring. */
  method CollectSections<B>(journal: Journal<B>, plan: Plan) returns (applied: seq<seq<B>>)
    requires plan.Plan? ==> plan.start < |journal| && plan.count <= |journal|
    ensures applied == Replayed(journal, plan)
  {
    applied := [];
    if plan.Plan? && !plan.empty {
      for r := 0 to plan.count
        invariant applied == Replayed(journal, plan)[..r]
      {
        applied := applied + [Bodies(journal[Wrap(plan.start + r, |journal|)])];
      }
    }
  }

  /** Keeps or clears the journal, and fixes where the next commit goes. */
  method RestartJournal<B, V>(dev: Device<B, V>, journal: Journal<B>, plan: Plan, journalMode: bool)
    returns (after: Journal<B>, section: nat, next: CommitSeq)
    requires |dev.ids| == N_COMMIT_IDS && |journal| > 0
    requires plan.Plan? ==> plan.start < |journal| && plan.count <= |journal|
    ensures Restarts(dev, journal, plan, journalMode, after, section, next)
  {
    if plan.Plan? && plan.count == |journal| && (journalMode || plan.empty) {
      after, section, next := journal, plan.start, plan.nextSeq;
    } else {
      var erase := Prev(Prev(if plan.Plan? then plan.last else 0));
      after := ClearJournal(dev, journal, if plan.Plan? then plan.start else 0, erase);
      section, next := 0, Next(erase);
    }
  }

  /** The replay of the journal: the sections to apply, then the journal to continue with. */
  method ReplayJournal<B, V>(dev: Device<B, V>, journal: Journal<B>, ghost g: seq<seq<int>>, journalMode: bool)
    returns (plan: Plan, applied: seq<seq<B>>, after: Journal<B>, section: nat, next: CommitSeq)
    requires dev.Valid() && dev.Formatted(journal) && Loaded(dev, journal, g)
    ensures plan == PlanOf(g, NoEntries(dev, journal))
    ensures plan.Plan? ==> plan.start < |journal| && plan.count <= |journal|
    ensures applied == Replayed(journal, plan)
    ensures Restarts(dev, journal, plan, journalMode, after, section, next)
  {
    plan := MakePlan(dev, journal, g);
    PlanIsBounded(g, plan, NoEntries(dev, journal));
    applied := CollectSections(journal, plan);
    after, section, next := RestartJournal(dev, journal, plan, journalMode);
  }

  lemma PlanIsBounded(g: seq<seq<int>>, plan: Plan, noEntries: bool)
    requires plan == PlanOf(g, noEntries)
    ensures plan.Plan? ==> plan.start < |g| && plan.count <= |g|
  {
    if plan.Plan? {
      RunIsBounded(g, plan.start, if plan.start == 0 then plan.last else Prev(plan.last), |g|);
    }
  }

  lemma RunIsBounded(g: seq<seq<int>>, i: nat, want: CommitSeq, budget: nat)
    requires i < |g|
    ensures Run(g, i, want, budget) <= budget
    decreases budget
  {
  }

  /** The sections the next crash would find in the ring once replay has restarted it. */
  ghost function RestartedLog<B, V>(dev: Device<B, V>, plan: Plan, journalMode: bool, window: seq<seq<B>>,
                                    a: nat): seq<seq<B>>
    requires plan.Plan? && (plan.count == dev.sections ==> a + dev.sections <= |window|)
  {
    if plan.count == dev.sections && (journalMode || plan.empty) then window[a..a + dev.sections]
    else dev.BlankLog()
  }

  /** After a crash and replay the journal is again at a commit boundary, with no commit in
      flight, so the next run starts from the same shape as any other. */
  lemma RestartIsClean<B, V>(dev: Device<B, V>, journal: Journal<B>, plan: Plan, p: nat, s: CommitSeq,
                             past: seq<seq<B>>, inflight: seq<seq<B>>, persisted: seq<seq<bool>>, a: nat, full: nat,
                             journalMode: bool, after: Journal<B>, section: nat, next: CommitSeq)
    requires dev.Valid() && CrashJournal(dev, journal, p, s, past, inflight, persisted)
    requires Covers(dev, journal, plan, p, s, past, inflight, persisted, a, full)
    requires Restarts(dev, journal, plan, journalMode, after, section, next)
    ensures CrashJournal(dev, after, section, next, RestartedLog(dev, plan, journalMode, past + inflight, a), [], [])
  {
    if plan.count == dev.sections && (journalMode || plan.empty) {
      KeptIsClean(dev, journal, p, s, past, inflight, persisted, a);
    } else {
      ErasedIsClean(dev, after, Prev(next));
    }
  }

  /** Where a sector of the kept ring was before the crash, and why it is what it should be. */
  lemma KeptSector<B, V>(dev: Device<B, V>, journal: Journal<B>, p: nat, s: CommitSeq,
                         past: seq<seq<B>>, inflight: seq<seq<B>>, persisted: seq<seq<bool>>, a: nat, t: nat, j: nat)
    requires dev.Valid() && CrashJournal(dev, journal, p, s, past, inflight, persisted)
    requires IsFrontier(persisted, a) && IsFullPrefix(persisted, a) && t < dev.sections && j < dev.sectors
    ensures var section, next := Slot(p, a, dev.sections), Stamp(p, s, dev.sections + a, dev.sections);
            journal[Slot(section, t, dev.sections)][j]
            == SectorAt(dev, section, next, (past + inflight)[a..a + dev.sections], [], [], t, j)
  {
    var S := dev.sections;
    var k := if a + t < S then a + t else a + t - S;
    assert Slot(Slot(p, a, S), t, S) == Slot(p, k, S);
    ImageAt(dev, journal, p, s, past, inflight, persisted, k, j);
    if a + t < S {
      assert !AnyNew(persisted, k);
    } else {
      assert AllNew(persisted, k);
    }
  }

  lemma KeptIsClean<B, V>(dev: Device<B, V>, journal: Journal<B>, p: nat, s: CommitSeq,
                          past: seq<seq<B>>, inflight: seq<seq<B>>, persisted: seq<seq<bool>>, a: nat)
    requires dev.Valid() && CrashJournal(dev, journal, p, s, past, inflight, persisted)
    requires IsFrontier(persisted, a) && IsFullPrefix(persisted, a)
    ensures CrashJournal(dev, journal, Slot(p, a, dev.sections), Stamp(p, s, dev.sections + a, dev.sections),
                         (past + inflight)[a..a + dev.sections], [], [])
  {
    var S := dev.sections;
    var log := (past + inflight)[a..a + S];
    var section, next := Slot(p, a, S), Stamp(p, s, S + a, S);
    forall t, j | 0 <= t < S && 0 <= j < dev.sectors
      ensures journal[Slot(section, t, S)][j] == SectorAt(dev, section, next, log, [], [], t, j)
    {
      KeptSector(dev, journal, p, s, past, inflight, persisted, a, t, j);
    }
    IsImage(dev, journal, section, next, log, [], []);
  }

  lemma ErasedIsClean<B, V>(dev: Device<B, V>, journal: Journal<B>, erase: CommitSeq)
    requires dev.Valid() && |journal| == dev.sections && Erased(dev, journal, erase)
    ensures CrashJournal(dev, journal, 0, Next(erase),
                         dev.BlankLog(), [], [])
  {
    forall i | 0 <= i < dev.sections
      ensures |journal[i]| == dev.sectors
    {
      assert journal[i] == ErasedSection(dev, i, erase);
    }
    IsImage(dev, journal, 0, Next(erase), dev.BlankLog(), [], []);
  }
}
