/** The journal as a protocol: writes enter the journal, commits put sections on disk sector
    by sector, the writer copies committed entries back to the data device, and a crash may
    come between any two of these steps.

    Locks are step boundaries.  The data device has a volatile cache in front of it: a copied
    sector reaches the medium at any later moment, at the latest when the cache is flushed.
 */
module JournalProtocol {
  import opened Options
  import opened Arithmetic
  import opened CommitIds
  import opened JournalReplay
  import opened ReplayWindow
  import opened CrashReplay

  // ---------------------------------------------------------------- journalled writes

  /** The newest value journalled for a sector. */
  function Newest<V>(writes: seq<(nat, V)>, d: nat): Option<V> {
    if |writes| == 0 then None
    else
      var e := writes[|writes| - 1];
      if e.0 == d then Some(e.1) else Newest(writes[..|writes| - 1], d)
  }

  /** The data device after the writes, in order; sectors past its end are skipped. */
  function Apply<V>(disk: seq<V>, writes: seq<(nat, V)>): (r: seq<V>)
    ensures |r| == |disk|
  {
    if |writes| == 0 then disk
    else
      var before := Apply(disk, writes[..|writes| - 1]);
      var e := writes[|writes| - 1];
      if e.0 < |disk| then before[e.0 := e.1] else before
  }

  lemma {:induction false} ApplyIsNewest<V>(disk: seq<V>, writes: seq<(nat, V)>, d: nat)
    requires d < |disk|
    ensures Apply(disk, writes)[d] == match Newest(writes, d) { case Some(v) => v case None => disk[d] }
  {
    if |writes| > 0 {
      ApplyIsNewest(disk, writes[..|writes| - 1], d);
    }
  }

  lemma {:induction false} NewestOfConcat<V>(first: seq<(nat, V)>, second: seq<(nat, V)>, d: nat)
    ensures Newest(first + second, d) == if Newest(second, d).Some? then Newest(second, d) else Newest(first, d)
  {
    if |second| == 0 {
      assert first + second == first;
    } else {
      assert (first + second)[..|first + second| - 1] == first + second[..|second| - 1];
      NewestOfConcat(first, second[..|second| - 1], d);
    }
  }

  /** The sectors the writes touch. */
  ghost function Touched<V>(writes: seq<(nat, V)>): set<nat> {
    set k | 0 <= k < |writes| :: writes[k].0
  }

  lemma {:induction false} TouchedIsSome<V>(writes: seq<(nat, V)>, d: nat)
    ensures d in Touched(writes) <==> Newest(writes, d).Some?
  {
    if |writes| > 0 {
      var n := |writes| - 1;
      TouchedIsSome(writes[..n], d);
      if k :| 0 <= k < n && writes[k].0 == d {
        assert writes[..n][k].0 == d;
      }
      if k :| 0 <= k < n && writes[..n][k].0 == d {
        assert writes[k].0 == d;
      }
      if writes[n].0 == d {
        assert d in Touched(writes);
      }
    }
  }

  /** The sectors on which a disk does not show the log applied to base. */
  ghost function Stale<V>(base: seq<V>, disk: seq<V>, log: seq<(nat, V)>): set<nat>
    requires |disk| == |base|
  {
    set d | 0 <= d < |base| && disk[d] != Apply(base, log)[d]
  }

  /** The disk may be stale only on sectors with an entry from index n of the log on. */
  ghost predicate Current<V>(base: seq<V>, disk: seq<V>, log: seq<(nat, V)>, n: nat) {
    |disk| == |base| && n <= |log| && Stale(base, disk, log) <= Touched(log[n..])
  }

  lemma CurrentAt<V>(base: seq<V>, disk: seq<V>, log: seq<(nat, V)>, n: nat, d: nat)
    requires Current(base, disk, log, n) && d < |base|
    ensures Newest(log[n..], d).None? ==> disk[d] == Apply(base, log)[d]
  {
    TouchedIsSome(log[n..], d);
    assert disk[d] != Apply(base, log)[d] ==> d in Stale(base, disk, log);
  }

  lemma IsCurrent<V>(base: seq<V>, disk: seq<V>, log: seq<(nat, V)>, n: nat)
    requires |disk| == |base| && n <= |log|
    requires forall d :: 0 <= d < |base| && Newest(log[n..], d).None? ==> disk[d] == Apply(base, log)[d]
    ensures Current(base, disk, log, n)
  {
    forall d | d in Stale(base, disk, log)
      ensures d in Touched(log[n..])
    {
      TouchedIsSome(log[n..], d);
    }
  }

  /** Appending to the log asks less of the disk. */
  lemma CurrentExtends<V>(base: seq<V>, disk: seq<V>, log: seq<(nat, V)>, more: seq<(nat, V)>, n: nat)
    requires Current(base, disk, log, n)
    ensures Current(base, disk, log + more, n)
  {
    forall d | 0 <= d < |base| && Newest((log + more)[n..], d).None?
      ensures disk[d] == Apply(base, log + more)[d]
    {
      CurrentAt(base, disk, log, n, d);
      assert (log + more)[n..] == log[n..] + more;
      NewestOfConcat(log[n..], more, d);
      NewestOfConcat(log, more, d);
      ApplyIsNewest(base, log + more, d);
      ApplyIsNewest(base, log, d);
    }
    IsCurrent(base, disk, log + more, n);
  }

  /** Copying the next entry, or dropping it in favour of a newer one, brings the disk up to
      date one entry further. */
  lemma CurrentAdvances<V>(base: seq<V>, disk: seq<V>, log: seq<(nat, V)>, n: nat, drop: bool)
    requires Current(base, disk, log, n) && n < |log|
    requires drop ==> Newest(log[n + 1..], log[n].0).Some?
    ensures Current(base, if drop then disk else Apply(disk, [log[n]]), log, n + 1)
  {
    var disk' := if drop then disk else Apply(disk, [log[n]]);
    forall d | 0 <= d < |base| && Newest(log[n + 1..], d).None?
      ensures disk'[d] == Apply(base, log)[d]
    {
      CurrentAt(base, disk, log, n, d);
      assert log[n..] == [log[n]] + log[n + 1..];
      assert log == log[..n] + log[n..];
      NewestOfConcat([log[n]], log[n + 1..], d);
      NewestOfConcat(log[..n], log[n..], d);
      ApplyIsNewest(base, log, d);
      ApplyIsNewest(disk, [log[n]], d);
    }
    IsCurrent(base, disk', log, n + 1);
  }

  /** A sector of a disk that is further along may overwrite its older copy. */
  lemma CurrentCopies<V>(base: seq<V>, disk: seq<V>, ahead: seq<V>, log: seq<(nat, V)>, m: nat, n: nat, d: nat)
    requires Current(base, disk, log, m) && Current(base, ahead, log, n) && m <= n && d < |base|
    ensures Current(base, disk[d := ahead[d]], log, m)
  {
    forall d' | d' in Stale(base, disk[d := ahead[d]], log)
      ensures d' in Touched(log[m..])
    {
      if d' == d {
        assert d in Stale(base, ahead, log);
        var k :| 0 <= k < |log[n..]| && log[n..][k].0 == d;
        assert log[m..][k + n - m].0 == d;
      } else {
        assert d' in Stale(base, disk, log);
      }
    }
  }

  lemma {:induction false} EntriesOfConcat<B, V>(dev: Device<B, V>, first: seq<seq<B>>, second: seq<seq<B>>)
    ensures Entries(dev, first + second) == Entries(dev, first) + Entries(dev, second)
  {
    if |second| == 0 {
      assert first + second == first;
    } else {
      assert (first + second)[..|first + second| - 1] == first + second[..|second| - 1];
      EntriesOfConcat(dev, first, second[..|second| - 1]);
    }
  }

  // ---------------------------------------------------------------- the state

  datatype State<!B, V> = State(
    journal: Journal<B>,          // the journal on disk
    section: nat,                 // ring position of the next or current commit
    commitSeq: CommitSeq,
    base: seq<V>,                 // the data device as it was before the log
    log: seq<seq<B>>,             // every section committed since then
    freed: nat,                   // sections of the log already written back and freed
    target: nat,                  // sections the writer is working on end here
    done: nat,                    // entries of the log the writer is done with
    inflight: seq<seq<B>>,        // sections of the commit being written
    persisted: seq<seq<bool>>,    // its sectors that have reached the disk
    pending: seq<(nat, V)>,       // writes not yet part of a commit
    cache: seq<V>,                // the data device as reads see it
    durable: seq<V>)              // the data device as a crash leaves it

  ghost function Written<B, V>(dev: Device<B, V>, s: State<B, V>, n: nat): seq<(nat, V)>
    requires n <= |s.log|
  {
    Entries(dev, s.log[..n])
  }

  ghost function Log<B, V>(dev: Device<B, V>, s: State<B, V>): seq<(nat, V)> {
    Entries(dev, s.log)
  }

  /** Every write accepted since `base`, in order. */
  ghost function History<B, V>(dev: Device<B, V>, s: State<B, V>): seq<(nat, V)> {
    Log(dev, s) + Entries(dev, s.inflight) + s.pending
  }

  ghost predicate Shape<B, V>(dev: Device<B, V>, s: State<B, V>) {
    && dev.Valid()
    && Counters(dev, s)
    && CrashJournal(dev, s.journal, s.section, s.commitSeq, s.log[|s.log| - dev.sections..], s.inflight, s.persisted)
  }

  ghost predicate Counters<B, V>(dev: Device<B, V>, s: State<B, V>) {
    && |s.log| >= dev.sections
    && s.freed <= s.target <= |s.log|
    && |s.inflight| + (|s.log| - s.freed) <= dev.sections
    && |Written(dev, s, s.freed)| <= s.done <= |Written(dev, s, s.target)|
    && |s.base| == |s.cache| == |s.durable|
  }

  /** The device as reads see it is current on every sector the writer is done with; the
      medium is current on every sector without an entry in a section not yet freed. */
  ghost predicate Inv<B, V>(dev: Device<B, V>, s: State<B, V>) {
    && Shape(dev, s)
    && Current(s.base, s.cache, Log(dev, s), s.done)
    && Current(s.base, s.durable, Log(dev, s), |Written(dev, s, s.freed)|)
  }

  /** What a read returns: the newest journal entry the writer has not consumed, else the device. */
  ghost function Read<B, V>(dev: Device<B, V>, s: State<B, V>, d: nat): V
    requires Inv(dev, s) && d < |s.base|
  {
    match Newest(Log(dev, s)[s.done..] + Entries(dev, s.inflight) + s.pending, d)
    case Some(v) => v
    case None => s.cache[d]
  }

  /** Reads see the newest accepted write, committed or not, written back or not. */
  lemma ReadsNewestWrite<B, V>(dev: Device<B, V>, s: State<B, V>, d: nat)
    requires Inv(dev, s) && d < |s.base|
    ensures Read(dev, s, d) == Apply(s.base, History(dev, s))[d]
  {
    var log := Log(dev, s);
    var rest := Entries(dev, s.inflight) + s.pending;
    assert log == log[..s.done] + log[s.done..];
    assert log[s.done..] + Entries(dev, s.inflight) + s.pending == log[s.done..] + rest;
    assert History(dev, s) == log + rest;
    NewestOfConcat(log[..s.done], log[s.done..], d);
    NewestOfConcat(log[s.done..], rest, d);
    NewestOfConcat(log, rest, d);
    CurrentAt(s.base, s.cache, log, s.done, d);
    ApplyIsNewest(s.base, History(dev, s), d);
    ApplyIsNewest(s.base, log, d);
  }

  // ---------------------------------------------------------------- the steps

  /** A write is copied into the journal's memory. */
  ghost predicate Accept<B, V>(dev: Device<B, V>, s: State<B, V>, s': State<B, V>, d: nat, v: V) {
    s' == s.(pending := s.pending + [(d, v)])
  }

  /** The uncommitted sections are padded and stamped; none of their sectors is on disk yet.
      The ring has room for them beside the committed ones. */
  ghost predicate StartCommit<B, V>(dev: Device<B, V>, s: State<B, V>, s': State<B, V>, sections: seq<seq<B>>) {
    && s.inflight == [] && |sections| > 0
    && (forall t :: 0 <= t < |sections| ==> |sections[t]| == dev.sectors)
    && Entries(dev, sections) == s.pending
    && s.freed <= |s.log|
    && |sections| + (|s.log| - s.freed) <= dev.sections
    && s' == s.(inflight := sections, pending := [],
                persisted := seq(|sections|, _ => seq(dev.sectors, _ => false)))
  }

  /** One sector of the commit reaches the disk, in any order. */
  ghost predicate PersistSector<B, V>(dev: Device<B, V>, s: State<B, V>, s': State<B, V>, t: nat, j: nat)
    requires Shape(dev, s)
  {
    var S := dev.sections;
    && t < |s.inflight| && j < dev.sectors
    && var i := Slot(s.section, t, S);
       s' == s.(persisted := s.persisted[t := s.persisted[t][j := true]],
                journal := s.journal[i := s.journal[i][j := Sector(s.inflight[t][j],
                                          dev.Id(i, j, Stamp(s.section, s.commitSeq, S + t, S)))]])
  }

  /** All sectors are on disk: the sections join the committed ones. */
  ghost predicate FinishCommit<B, V>(dev: Device<B, V>, s: State<B, V>, s': State<B, V>) {
    && |s.inflight| > 0
    && (forall t :: 0 <= t < |s.persisted| ==> false !in s.persisted[t])
    && s' == s.(log := s.log + s.inflight, inflight := [], persisted := [],
                section := Wrap(s.section + |s.inflight|, dev.sections),
                commitSeq := if s.section + |s.inflight| >= dev.sections then Next(s.commitSeq) else s.commitSeq)
  }

  /** The writer takes on all sections committed so far. */
  ghost predicate StartWriter<B, V>(dev: Device<B, V>, s: State<B, V>, s': State<B, V>) {
    s.freed == s.target && s' == s.(target := |s.log|)
  }

  /** The writer consumes the next entry: it copies it to the device, or drops it when a newer
      entry for the same sector is committed. */
  ghost predicate WriteBack<B, V>(dev: Device<B, V>, s: State<B, V>, s': State<B, V>, drop: bool)
    requires Shape(dev, s)
  {
    var log := Log(dev, s);
    && s.done < |Written(dev, s, s.target)| && s.done < |log|
    && var e := log[s.done];
       if drop then
         Newest(log[s.done + 1..], e.0).Some? && s' == s.(done := s.done + 1)
       else
         s' == s.(done := s.done + 1, cache := Apply(s.cache, [e]))
  }

  /** A copied sector reaches the medium. */
  ghost predicate PersistData<B, V>(dev: Device<B, V>, s: State<B, V>, s': State<B, V>, d: nat)
    requires Shape(dev, s)
  {
    d < |s.base| && s' == s.(durable := s.durable[d := s.cache[d]])
  }

  /** The writer flushes the device and frees its sections. */
  ghost predicate FinishWriter<B, V>(dev: Device<B, V>, s: State<B, V>, s': State<B, V>)
    requires Shape(dev, s)
  {
    s.done == |Written(dev, s, s.target)| && s' == s.(durable := s.cache, freed := s.target)
  }

  /** What replay decides on when it finds this journal. */
  ghost predicate Planned<B, V>(dev: Device<B, V>, journal: Journal<B>, plan: Plan) {
    && (exists g :: Loaded(dev, journal, g) && plan == PlanOf(g, NoEntries(dev, journal)))
    && plan.Plan? && plan.start < |journal| && plan.count <= |journal|
  }

  /** The data device once the planned sections have been applied to what the crash left. */
  ghost function Recovered<B, V>(dev: Device<B, V>, journal: Journal<B>, plan: Plan, durable: seq<V>): seq<V>
    requires plan.Plan? ==> plan.start < |journal| && plan.count <= |journal|
  {
    Apply(durable, Entries(dev, Replayed(journal, plan)))
  }

  /** A medium on which replay was cut short, any number of times: sectors that replay writes may
      hold anything. */
  ghost predicate CutShort<V>(writes: seq<(nat, V)>, durable: seq<V>, halfway: seq<V>) {
    && |halfway| == |durable|
    && forall d :: 0 <= d < |durable| && Newest(writes, d).None? ==> halfway[d] == durable[d]
  }

  /** Crash and replay: only the journal and the medium survive, and further crashes may cut
      replays of the same journal short before one gets through. */
  ghost predicate CrashAndReplay<B, V>(dev: Device<B, V>, s: State<B, V>, s': State<B, V>, journalMode: bool,
                                       plan: Plan, full: nat, halfway: seq<V>)
    requires |dev.ids| == N_COMMIT_IDS
  {
    && Planned(dev, s.journal, plan)
    && CutShort(Entries(dev, Replayed(s.journal, plan)), s.durable, halfway)
    && Restarted(dev, s, s', journalMode, plan, full, halfway)
  }

  /** The log is either continued with the complete prefix of the lost commit, or started anew. */
  ghost predicate Restarted<B, V>(dev: Device<B, V>, s: State<B, V>, s': State<B, V>, journalMode: bool, plan: Plan,
                                  full: nat, disk: seq<V>)
    requires |dev.ids| == N_COMMIT_IDS && plan.Plan? && plan.start < |s.journal| && plan.count <= |s.journal|
  {
    && IsFullPrefix(s.persisted, full) && |s.persisted| == |s.inflight|
    && Restarts(dev, s.journal, plan, journalMode, s'.journal, s'.section, s'.commitSeq)
    && s'.durable == s'.cache == Recovered(dev, s.journal, plan, disk)
    && s'.inflight == [] && s'.persisted == [] && s'.pending == []
    && s'.freed == s'.target == |s'.log| && s'.done == |Log(dev, s')|
    && if plan.count == |s.journal| && (journalMode || plan.empty) then
         s'.base == s.base && s'.log == s.log + s.inflight[..full]
       else
         s'.base == s'.durable && s'.log == dev.BlankLog()
  }

  datatype Step<B, V> =
    | AcceptStep(d: nat, v: V)
    | StartCommitStep(sections: seq<seq<B>>)
    | PersistSectorStep(t: nat, j: nat)
    | FinishCommitStep
    | StartWriterStep
    | WriteBackStep(drop: bool)
    | PersistDataStep(d: nat)
    | FinishWriterStep
    | CrashStep(journalMode: bool, plan: Plan, full: nat, halfway: seq<V>)

  ghost predicate NextStep<B, V>(dev: Device<B, V>, s: State<B, V>, s': State<B, V>, step: Step<B, V>)
    requires Shape(dev, s)
  {
    match step
    case AcceptStep(d, v) => Accept(dev, s, s', d, v)
    case StartCommitStep(sections) => StartCommit(dev, s, s', sections)
    case PersistSectorStep(t, j) => PersistSector(dev, s, s', t, j)
    case FinishCommitStep => FinishCommit(dev, s, s')
    case StartWriterStep => StartWriter(dev, s, s')
    case WriteBackStep(drop) => WriteBack(dev, s, s', drop)
    case PersistDataStep(d) => PersistData(dev, s, s', d)
    case FinishWriterStep => FinishWriter(dev, s, s')
    case CrashStep(mode, plan, full, halfway) => CrashAndReplay(dev, s, s', mode, plan, full, halfway)
  }

  // ---------------------------------------------------------------- refinement

  /** What a client may rely on: contents that survive a crash, and accepted writes that may
      still be lost, newest first. */
  datatype Spec<V> = Spec(stable: seq<V>, volatile: seq<(nat, V)>)

  ghost function Abs<B, V>(dev: Device<B, V>, s: State<B, V>): Spec<V> {
    Spec(Apply(s.base, Log(dev, s)), Entries(dev, s.inflight) + s.pending)
  }

  /** The first n volatile writes become stable. */
  ghost function Settle<V>(a: Spec<V>, n: nat): Spec<V>
    requires n <= |a.volatile|
  {
    Spec(Apply(a.stable, a.volatile[..n]), a.volatile[n..])
  }

  /** What a client can tell of a step: a write is accepted, the oldest volatile writes become
      stable, a crash keeps the oldest of them and loses the rest, or nothing. */
  datatype Effect<V> = Accepts(d: nat, v: V) | Settles(n: nat) | Crashes(n: nat) | Nothing

  predicate Legal<V>(a: Spec<V>, e: Effect<V>) {
    match e
    case Settles(n) => n <= |a.volatile|
    case Crashes(n) => n <= |a.volatile|
    case _ => true
  }

  /** The atomic disk. */
  ghost function SpecNext<V>(a: Spec<V>, e: Effect<V>): Spec<V> {
    match e
    case Accepts(d, v) => a.(volatile := a.volatile + [(d, v)])
    case Settles(n) => if Legal(a, e) then Settle(a, n) else a
    case Crashes(n) => if Legal(a, e) then Spec(Settle(a, n).stable, []) else a
    case Nothing => a
  }

  ghost predicate SpecStep<V>(a: Spec<V>, a': Spec<V>, e: Effect<V>) {
    Legal(a, e) && a' == SpecNext(a, e)
  }

  /** The effect of each step: a commit settles exactly the writes in flight, a crash keeps those
      of the sections that had reached the journal as a complete prefix of the commit. */
  ghost function EffectOf<B, V>(dev: Device<B, V>, s: State<B, V>, step: Step<B, V>): Effect<V> {
    match step
    case AcceptStep(d, v) => Accepts(d, v)
    case FinishCommitStep => Settles(|Entries(dev, s.inflight)|)
    case CrashStep(_, _, full, _) =>
      if full <= |s.inflight| then Crashes(|Entries(dev, s.inflight[..full])|) else Nothing
    case _ => Nothing
  }

  lemma {:induction false} ApplyConcat<V>(disk: seq<V>, first: seq<(nat, V)>, second: seq<(nat, V)>)
    ensures Apply(disk, first + second) == Apply(Apply(disk, first), second)
  {
    if |second| == 0 {
      assert first + second == first;
    } else {
      assert (first + second)[..|first + second| - 1] == first + second[..|second| - 1];
      ApplyConcat(disk, first, second[..|second| - 1]);
    }
  }

  /** Every read returns the newest write that no crash has lost. */
  lemma ReadsAreCurrent<B, V>(dev: Device<B, V>, s: State<B, V>, d: nat)
    requires Inv(dev, s) && d < |s.base|
    ensures Read(dev, s, d) == Apply(Abs(dev, s).stable, Abs(dev, s).volatile)[d]
  {
    ReadsNewestWrite(dev, s, d);
    ApplyConcat(s.base, Log(dev, s), Abs(dev, s).volatile);
    assert History(dev, s) == Log(dev, s) + Abs(dev, s).volatile;
  }

  /** A step a client cannot tell leaves every read as it was. */
  lemma SameReads<B, V>(dev: Device<B, V>, s: State<B, V>, s': State<B, V>)
    requires Inv(dev, s) && Inv(dev, s') && Abs(dev, s') == Abs(dev, s) && |s'.base| == |s.base|
    ensures forall d :: 0 <= d < |s.base| ==> Read(dev, s', d) == Read(dev, s, d)
  {
    forall d | 0 <= d < |s.base|
      ensures Read(dev, s', d) == Read(dev, s, d)
    {
      ReadsAreCurrent(dev, s, d);
      ReadsAreCurrent(dev, s', d);
    }
  }

  /** A step that leaves the log and the writes alone is invisible. */
  lemma QuietRefines<B, V>(dev: Device<B, V>, s: State<B, V>, s': State<B, V>)
    requires s'.base == s.base && s'.log == s.log
    requires Entries(dev, s'.inflight) + s'.pending == Entries(dev, s.inflight) + s.pending
    ensures Abs(dev, s') == Abs(dev, s)
  {
  }

  // ---------------------------------------------------------------- every step keeps the invariant

  lemma AcceptKeeps<B, V>(dev: Device<B, V>, s: State<B, V>, s': State<B, V>, d: nat, v: V)
    requires Inv(dev, s) && Accept(dev, s, s', d, v)
    ensures Inv(dev, s') && SpecStep(Abs(dev, s), Abs(dev, s'), Accepts(d, v))
  {
    assert Abs(dev, s').volatile == Abs(dev, s).volatile + [(d, v)];
  }

  lemma StartCommitKeeps<B, V>(dev: Device<B, V>, s: State<B, V>, s': State<B, V>, sections: seq<seq<B>>)
    requires Inv(dev, s) && StartCommit(dev, s, s', sections)
    ensures Inv(dev, s') && Abs(dev, s') == Abs(dev, s)
  {
    QuietRefines(dev, s, s');
    CommitStarts(dev, s.journal, s.section, s.commitSeq, s.log[|s.log| - dev.sections..], sections);
  }

  lemma PersistSectorKeeps<B, V>(dev: Device<B, V>, s: State<B, V>, s': State<B, V>, t: nat, j: nat)
    requires Inv(dev, s) && PersistSector(dev, s, s', t, j)
    ensures Inv(dev, s') && Abs(dev, s') == Abs(dev, s)
  {
    QuietRefines(dev, s, s');
    SectorArrives(dev, s.journal, s.section, s.commitSeq, s.log[|s.log| - dev.sections..], s.inflight, s.persisted, t,
                  j);
  }

  lemma PersistDataKeeps<B, V>(dev: Device<B, V>, s: State<B, V>, s': State<B, V>, d: nat)
    requires Inv(dev, s) && PersistData(dev, s, s', d)
    ensures Inv(dev, s') && Abs(dev, s') == Abs(dev, s)
  {
    QuietRefines(dev, s, s');
    CurrentCopies(s.base, s.durable, s.cache, Log(dev, s), |Written(dev, s, s.freed)|, s.done, d);
  }

  lemma AllPersisted(persisted: seq<seq<bool>>)
    requires forall t :: 0 <= t < |persisted| ==> |persisted[t]| > 0 && false !in persisted[t]
    ensures IsFrontier(persisted, |persisted|) && IsFullPrefix(persisted, |persisted|)
  {
    forall t | 0 <= t < |persisted|
      ensures AllNew(persisted, t) && AnyNew(persisted, t)
    {
      assert persisted[t][0] && persisted[t][0] in persisted[t];
    }
  }

  lemma FinishCommitShape<B, V>(dev: Device<B, V>, s: State<B, V>, s': State<B, V>)
    requires Shape(dev, s) && FinishCommit(dev, s, s')
    ensures Shape(dev, s')
    ensures Written(dev, s', s.freed) == Written(dev, s, s.freed)
  {
    CommitLands(dev, s.journal, s.section, s.commitSeq, s.log, s.inflight, s.persisted);
    PrefixOfConcat(s.log, s.inflight, s.freed);
    PrefixOfConcat(s.log, s.inflight, s.target);
  }

  lemma PrefixOfConcat<T>(s: seq<T>, t: seq<T>, n: nat)
    requires n <= |s|
    ensures (s + t)[..n] == s[..n]
  {
  }

  lemma CommitLands<B, V>(dev: Device<B, V>, journal: Journal<B>, p: nat, s: CommitSeq,
                          log: seq<seq<B>>, inflight: seq<seq<B>>, persisted: seq<seq<bool>>)
    requires dev.Valid() && |log| >= dev.sections
    requires CrashJournal(dev, journal, p, s, log[|log| - dev.sections..], inflight, persisted)
    requires forall t :: 0 <= t < |persisted| ==> false !in persisted[t]
    ensures CrashJournal(dev, journal, Wrap(p + |inflight|, dev.sections),
                         if p + |inflight| >= dev.sections then Next(s) else s,
                         (log + inflight)[|log + inflight| - dev.sections..], [], [])
  {
    var S, n := dev.sections, |inflight|;
    AllPersisted(persisted);
    KeptIsClean(dev, journal, p, s, log[|log| - S..], inflight, persisted, n);
    assert (log[|log| - S..] + inflight)[n..n + S] == (log + inflight)[|log + inflight| - S..];
  }

  lemma FinishCommitKeeps<B, V>(dev: Device<B, V>, s: State<B, V>, s': State<B, V>)
    requires Inv(dev, s) && FinishCommit(dev, s, s')
    ensures Inv(dev, s') && SpecStep(Abs(dev, s), Abs(dev, s'), Settles(|Entries(dev, s.inflight)|))
  {
    FinishCommitShape(dev, s, s');
    EntriesOfConcat(dev, s.log, s.inflight);
    CurrentExtends(s.base, s.cache, Log(dev, s), Entries(dev, s.inflight), s.done);
    CurrentExtends(s.base, s.durable, Log(dev, s), Entries(dev, s.inflight), |Written(dev, s, s.freed)|);
    CommitRefines(dev, s, s');
  }

  lemma StartWriterKeeps<B, V>(dev: Device<B, V>, s: State<B, V>, s': State<B, V>)
    requires Inv(dev, s) && StartWriter(dev, s, s')
    ensures Inv(dev, s') && Abs(dev, s') == Abs(dev, s)
  {
    QuietRefines(dev, s, s');
    assert s.log[..|s.log|] == s.log;
  }

  lemma WriteBackInv<B, V>(dev: Device<B, V>, s: State<B, V>, s': State<B, V>, drop: bool)
    requires Inv(dev, s) && WriteBack(dev, s, s', drop)
    ensures Inv(dev, s')
  {
    CurrentAdvances(s.base, s.cache, Log(dev, s), s.done, drop);
    assert Counters(dev, s') && Log(dev, s') == Log(dev, s);
  }

  /** Neither what is read nor what a crash would find changes. */
  lemma WriteBackKeeps<B, V>(dev: Device<B, V>, s: State<B, V>, s': State<B, V>, drop: bool)
    requires Inv(dev, s) && WriteBack(dev, s, s', drop)
    ensures Inv(dev, s') && Abs(dev, s') == Abs(dev, s)
    ensures |s'.base| == |s.base| && forall d :: 0 <= d < |s.base| ==> Read(dev, s', d) == Read(dev, s, d)
    ensures s'.journal == s.journal && s'.durable == s.durable
  {
    WriteBackInv(dev, s, s', drop);
    QuietRefines(dev, s, s');
    SameReads(dev, s, s');
  }

  lemma FinishWriterKeeps<B, V>(dev: Device<B, V>, s: State<B, V>, s': State<B, V>)
    requires Inv(dev, s) && FinishWriter(dev, s, s')
    ensures Inv(dev, s') && Abs(dev, s') == Abs(dev, s)
  {
    QuietRefines(dev, s, s');
  }

  // ---------------------------------------------------------------- the crash

  /** Replaying a stretch of writes that contains every write the device may lack brings the
      device to the state after all of them, whatever else it re-applies. */
  lemma RedoIsEnough<V>(base: seq<V>, durable: seq<V>, before: seq<(nat, V)>, redo: seq<(nat, V)>, more: seq<(nat, V)>,
                        n: nat)
    requires |before| <= n && Current(base, durable, before + redo, n)
    ensures Apply(durable, redo + more) == Apply(base, before + redo + more)
  {
    var log := before + redo;
    forall d | 0 <= d < |base|
      ensures Apply(durable, redo + more)[d] == Apply(base, log + more)[d]
    {
      CurrentAt(base, durable, log, n, d);
      ApplyIsNewest(durable, redo + more, d);
      ApplyIsNewest(base, log + more, d);
      ApplyIsNewest(base, log, d);
      NewestOfConcat(redo, more, d);
      NewestOfConcat(log, more, d);
      NewestOfConcat(before, redo, d);
      assert redo == redo[..n - |before|] + redo[n - |before|..];
      assert log[n..] == redo[n - |before|..];
      NewestOfConcat(redo[..n - |before|], redo[n - |before|..], d);
    }
  }

  lemma FullPrefixUnique(persisted: seq<seq<bool>>, m: nat, n: nat)
    requires IsFullPrefix(persisted, m) && IsFullPrefix(persisted, n)
    ensures m == n
  {
    assert m < n ==> AllNew(persisted, m);
    assert n < m ==> AllNew(persisted, n);
  }

  lemma RecoveredIsRedo<B, V>(dev: Device<B, V>, journal: Journal<B>, plan: Plan, p: nat, s: CommitSeq,
                              past: seq<seq<B>>, inflight: seq<seq<B>>, persisted: seq<seq<bool>>, full: nat)
    returns (a: nat)
    requires dev.Valid() && Planned(dev, journal, plan)
    requires CrashJournal(dev, journal, p, s, past, inflight, persisted) && IsFullPrefix(persisted, full)
    ensures Covers(dev, journal, plan, p, s, past, inflight, persisted, a, full)
  {
    var g :| Loaded(dev, journal, g) && plan == PlanOf(g, NoEntries(dev, journal));
    var plan', a', full' := ReplayAppliesLog(dev, journal, g, p, s, past, inflight, persisted);
    FullPrefixUnique(persisted, full, full');
    a := a';
  }

  /** The log from section m on, and what comes before and after it. */
  lemma SplitLog<B, V>(dev: Device<B, V>, log: seq<seq<B>>, m: nat, extra: seq<seq<B>>)
    requires m <= |log|
    ensures Entries(dev, log) == Entries(dev, log[..m]) + Entries(dev, log[m..])
    ensures Entries(dev, log[m..] + extra) == Entries(dev, log[m..]) + Entries(dev, extra)
    ensures Entries(dev, log + extra) == Entries(dev, log[..m]) + Entries(dev, log[m..]) + Entries(dev, extra)
  {
    assert log == log[..m] + log[m..];
    EntriesOfConcat(dev, log[..m], log[m..]);
    EntriesOfConcat(dev, log[m..], extra);
    EntriesOfConcat(dev, log, extra);
  }

  lemma EntriesGrow<B, V>(dev: Device<B, V>, log: seq<seq<B>>, m: nat, n: nat)
    requires m <= n <= |log|
    ensures |Entries(dev, log[..m])| <= |Entries(dev, log[..n])|
  {
    assert log[..n] == log[..m] + log[m..n];
    EntriesOfConcat(dev, log[..m], log[m..n]);
  }

  /** Redoing the log from any section at or before the first one not yet written back is
      enough. */
  lemma RedoReachesFreed<B, V>(dev: Device<B, V>, log: seq<seq<B>>, freed: nat, extra: seq<seq<B>>,
                               base: seq<V>, durable: seq<V>, m: nat)
    requires m <= freed <= |log| && Current(base, durable, Entries(dev, log), |Entries(dev, log[..freed])|)
    ensures Apply(durable, Entries(dev, log[m..] + extra)) == Apply(base, Entries(dev, log + extra))
  {
    SplitLog(dev, log, m, extra);
    EntriesGrow(dev, log, m, freed);
    RedoIsEnough(base, durable, Entries(dev, log[..m]), Entries(dev, log[m..]), Entries(dev, extra),
                 |Entries(dev, log[..freed])|);
  }

  lemma WindowIsLog<T>(log: seq<T>, inflight: seq<T>, S: nat, a: nat, full: nat)
    requires S <= |log| && a <= |inflight| && full <= |inflight| && a <= S
    ensures (log[|log| - S..] + inflight)[a..S + full] == log[|log| - S + a..] + inflight[..full]
  {
  }

  /** What is replayed is the end of the log, with the complete prefix of the commit in flight. */
  lemma ReplaysLog<B, V>(dev: Device<B, V>, journal: Journal<B>, plan: Plan, log: seq<seq<B>>, inflight: seq<seq<B>>,
                         a: nat, full: nat)
    requires dev.sections <= |log| && a <= |inflight| <= dev.sections && full <= |inflight|
    requires Applies(dev, journal, plan, (log[|log| - dev.sections..] + inflight)[a..dev.sections + full])
    ensures Entries(dev, Replayed(journal, plan)) == Entries(dev, log[|log| - dev.sections + a..] + inflight[..full])
  {
    WindowIsLog(log, inflight, dev.sections, a, full);
  }

  lemma RedoneContents<B, V>(dev: Device<B, V>, journal: Journal<B>, plan: Plan, log: seq<seq<B>>,
                             inflight: seq<seq<B>>, freed: nat, base: seq<V>, durable: seq<V>, a: nat, full: nat)
    requires dev.sections <= |log| && freed <= |log| && |inflight| + (|log| - freed) <= dev.sections
    requires a <= |inflight| && full <= |inflight|
    requires Current(base, durable, Entries(dev, log), |Entries(dev, log[..freed])|)
    requires Applies(dev, journal, plan, (log[|log| - dev.sections..] + inflight)[a..dev.sections + full])
    ensures Recovered(dev, journal, plan, durable) == Apply(base, Entries(dev, log + inflight[..full]))
  {
    var redone := log[|log| - dev.sections + a..] + inflight[..full];
    assert Apply(durable, Entries(dev, redone)) == Apply(base, Entries(dev, log + inflight[..full])) by {
      RedoReachesFreed(dev, log, freed, inflight[..full], base, durable, |log| - dev.sections + a);
    }
    assert Recovered(dev, journal, plan, durable) == Apply(durable, Entries(dev, redone)) by {
      ReplaysLog(dev, journal, plan, log, inflight, a, full);
    }
  }

  lemma RecoveredContents<B, V>(dev: Device<B, V>, s: State<B, V>, plan: Plan, a: nat, full: nat)
    requires Counters(dev, s) && a <= |s.inflight| && full <= |s.inflight|
    requires Current(s.base, s.durable, Log(dev, s), |Written(dev, s, s.freed)|)
    requires Applies(dev, s.journal, plan, (s.log[|s.log| - dev.sections..] + s.inflight)[a..dev.sections + full])
    ensures Recovered(dev, s.journal, plan, s.durable) == Apply(s.base, Entries(dev, s.log + s.inflight[..full]))
  {
    RedoneContents(dev, s.journal, plan, s.log, s.inflight, s.freed, s.base, s.durable, a, full);
  }

  lemma CoversApplies<B, V>(dev: Device<B, V>, s: State<B, V>, plan: Plan, a: nat, full: nat)
    requires Shape(dev, s)
    requires Covers(dev, s.journal, plan, s.section, s.commitSeq, s.log[|s.log| - dev.sections..],
                    s.inflight, s.persisted, a, full)
    ensures a <= |s.inflight| && full <= |s.inflight| && a <= dev.sections + full
    ensures Applies(dev, s.journal, plan, (s.log[|s.log| - dev.sections..] + s.inflight)[a..dev.sections + full])
  {
    assert |s.log[|s.log| - dev.sections..]| == dev.sections;
  }

  lemma ReplayedStretch<B, V>(dev: Device<B, V>, s: State<B, V>, plan: Plan, full: nat) returns (a: nat)
    requires Shape(dev, s) && Planned(dev, s.journal, plan) && IsFullPrefix(s.persisted, full)
    ensures Counters(dev, s) && a <= |s.inflight| && full <= |s.inflight|
    ensures Applies(dev, s.journal, plan, (s.log[|s.log| - dev.sections..] + s.inflight)[a..dev.sections + full])
  {
    a := RecoveredIsRedo(dev, s.journal, plan, s.section, s.commitSeq, s.log[|s.log| - dev.sections..], s.inflight,
                         s.persisted, full);
    CoversApplies(dev, s, plan, a, full);
  }

  /** After a crash at any point, replay leaves exactly the committed writes plus those of the
      sections of the lost commit that had reached the disk as a complete prefix of it. */
  lemma CrashRecovers<B, V>(dev: Device<B, V>, s: State<B, V>, plan: Plan, full: nat)
    requires Inv(dev, s) && Planned(dev, s.journal, plan) && IsFullPrefix(s.persisted, full)
    ensures full <= |s.inflight|
    ensures Recovered(dev, s.journal, plan, s.durable) == Apply(s.base, Entries(dev, s.log + s.inflight[..full]))
  {
    var a := ReplayedStretch(dev, s, plan, full);
    RecoveredContents(dev, s, plan, a, full);
  }

  /** Neither a sector reaching the medium nor the freeing of sections changes what a crash leaves:
      nothing replay would need is given up. */
  lemma SameRecovery<B, V>(dev: Device<B, V>, s: State<B, V>, s': State<B, V>, plan: Plan, full: nat)
    requires Inv(dev, s) && (FinishWriter(dev, s, s') || exists d :: PersistData(dev, s, s', d))
    requires Planned(dev, s.journal, plan) && IsFullPrefix(s.persisted, full)
    ensures Recovered(dev, s'.journal, plan, s'.durable) == Recovered(dev, s.journal, plan, s.durable)
  {
    if FinishWriter(dev, s, s') {
      FinishWriterKeeps(dev, s, s');
    } else {
      var d :| PersistData(dev, s, s', d);
      PersistDataKeeps(dev, s, s', d);
    }
    CrashRecovers(dev, s, plan, full);
    CrashRecovers(dev, s', plan, full);
  }

  /** The ring replay leaves behind holds the last sections of the continued or new log. */
  lemma CrashRestarts<B, V>(dev: Device<B, V>, journal: Journal<B>, plan: Plan, p: nat, s: CommitSeq, log: seq<seq<B>>,
                            inflight: seq<seq<B>>, persisted: seq<seq<bool>>, a: nat, full: nat,
                            mode: bool, after: Journal<B>, section: nat, next: CommitSeq, log': seq<seq<B>>)
    requires dev.Valid() && |log| >= dev.sections
    requires CrashJournal(dev, journal, p, s, log[|log| - dev.sections..], inflight, persisted)
    requires Covers(dev, journal, plan, p, s, log[|log| - dev.sections..], inflight, persisted, a, full)
    requires Restarts(dev, journal, plan, mode, after, section, next)
    requires log' == if plan.count == dev.sections && (mode || plan.empty) then log + inflight[..full]
                     else dev.BlankLog()
    ensures |log'| >= dev.sections
    ensures CrashJournal(dev, after, section, next, log'[|log'| - dev.sections..], [], [])
  {
    var S := dev.sections;
    var past := log[|log| - S..];
    RestartIsClean(dev, journal, plan, p, s, past, inflight, persisted, a, full, mode, after, section, next);
    if plan.count == S && (mode || plan.empty) {
      LastSections(log, inflight, S, full);
    } else {
      assert dev.BlankLog()[0..] == dev.BlankLog();
    }
  }

  lemma LastSections<T>(log: seq<T>, inflight: seq<T>, S: nat, full: nat)
    requires S <= |log| && full <= |inflight|
    ensures (log[|log| - S..] + inflight)[full..full + S] == (log + inflight[..full])[|log + inflight[..full]| - S..]
  {
  }

  lemma AllIsFreed<B, V>(dev: Device<B, V>, s: State<B, V>)
    requires |s.log| >= dev.sections && s.inflight == [] && s.freed == s.target == |s.log|
    requires s.done == |Log(dev, s)| && |s.base| == |s.cache| == |s.durable|
    ensures Counters(dev, s)
  {
    assert s.log[..|s.log|] == s.log;
  }

  lemma CrashShape<B, V>(dev: Device<B, V>, s: State<B, V>, s': State<B, V>, mode: bool, plan: Plan, full: nat, a: nat)
    requires Shape(dev, s)
    requires Covers(dev, s.journal, plan, s.section, s.commitSeq, s.log[|s.log| - dev.sections..],
                    s.inflight, s.persisted, a, full)
    requires Restarted(dev, s, s', mode, plan, full, s.durable) && |s'.base| == |s'.durable|
    ensures Shape(dev, s')
  {
    CrashRestarts(dev, s.journal, plan, s.section, s.commitSeq, s.log, s.inflight, s.persisted, a, full,
                  mode, s'.journal, s'.section, s'.commitSeq, s'.log);
    AllIsFreed(dev, s');
  }

  /** The restarted log, applied to its base, is what replay left on the device. */
  lemma RestartedContents<B, V>(dev: Device<B, V>, s: State<B, V>, s': State<B, V>, mode: bool, plan: Plan, full: nat)
    requires dev.Valid() && plan.Plan? && plan.start < |s.journal| && plan.count <= |s.journal|
    requires Restarted(dev, s, s', mode, plan, full, s.durable)
    requires Recovered(dev, s.journal, plan, s.durable) == Apply(s.base, Entries(dev, s.log + s.inflight[..full]))
    ensures Apply(s'.base, Log(dev, s')) == s'.durable && |s'.base| == |s'.durable|
  {
    if !(plan.count == |s.journal| && (mode || plan.empty)) {
      NothingLogged(dev, s'.log);
    }
  }

  /** Replay cut short does no harm: as long as the journal is untouched, replaying again gives
      the same contents. */
  lemma InterruptedReplay<V>(durable: seq<V>, halfway: seq<V>, writes: seq<(nat, V)>)
    requires CutShort(writes, durable, halfway)
    ensures Apply(halfway, writes) == Apply(durable, writes)
  {
    forall d | 0 <= d < |durable|
      ensures Apply(halfway, writes)[d] == Apply(durable, writes)[d]
    {
      ApplyIsNewest(halfway, writes, d);
      ApplyIsNewest(durable, writes, d);
    }
  }

  lemma CrashKeeps<B, V>(dev: Device<B, V>, s: State<B, V>, s': State<B, V>, mode: bool, plan: Plan, full: nat,
                         halfway: seq<V>)
    requires Inv(dev, s) && CrashAndReplay(dev, s, s', mode, plan, full, halfway)
    ensures Inv(dev, s') && full <= |s.inflight|
    ensures SpecStep(Abs(dev, s), Abs(dev, s'), Crashes(|Entries(dev, s.inflight[..full])|))
  {
    InterruptedReplay(s.durable, halfway, Entries(dev, Replayed(s.journal, plan)));
    var a := RecoveredIsRedo(dev, s.journal, plan, s.section, s.commitSeq, s.log[|s.log| - dev.sections..],
                             s.inflight, s.persisted, full);
    CrashOutcome(dev, s, s', mode, plan, full, a);
  }

  lemma CrashOutcome<B, V>(dev: Device<B, V>, s: State<B, V>, s': State<B, V>, mode: bool, plan: Plan, full: nat,
                           a: nat)
    requires Inv(dev, s)
    requires Covers(dev, s.journal, plan, s.section, s.commitSeq, s.log[|s.log| - dev.sections..],
                    s.inflight, s.persisted, a, full)
    requires Restarted(dev, s, s', mode, plan, full, s.durable)
    ensures Inv(dev, s')
    ensures SpecStep(Abs(dev, s), Abs(dev, s'), Crashes(|Entries(dev, s.inflight[..full])|))
  {
    CrashContents(dev, s, s', mode, plan, full, a);
    CrashShape(dev, s, s', mode, plan, full, a);
    assert Current(s'.base, s'.cache, Log(dev, s'), s'.done);
    AllWritten(dev, s');
    CrashRefines(dev, s, s', full);
  }

  lemma AllWritten<B, V>(dev: Device<B, V>, s: State<B, V>)
    requires s.freed == |s.log|
    ensures Written(dev, s, s.freed) == Log(dev, s)
  {
    assert s.log[..|s.log|] == s.log;
  }

  lemma CrashContents<B, V>(dev: Device<B, V>, s: State<B, V>, s': State<B, V>, mode: bool, plan: Plan, full: nat,
                            a: nat)
    requires Inv(dev, s)
    requires Covers(dev, s.journal, plan, s.section, s.commitSeq, s.log[|s.log| - dev.sections..],
                    s.inflight, s.persisted, a, full)
    requires Restarted(dev, s, s', mode, plan, full, s.durable)
    ensures Apply(s'.base, Log(dev, s')) == s'.durable == Apply(s.base, Entries(dev, s.log + s.inflight[..full]))
    ensures |s'.base| == |s'.durable|
  {
    CoversApplies(dev, s, plan, a, full);
    RecoveredContents(dev, s, plan, a, full);
    RestartedContents(dev, s, s', mode, plan, full);
  }

  lemma NothingLogged<B, V>(dev: Device<B, V>, log: seq<seq<B>>)
    requires dev.Valid() && log == dev.BlankLog()
    ensures Entries(dev, log) == []
  {
    NoEntriesAtAll(dev, log);
  }

  lemma CommitRefines<B, V>(dev: Device<B, V>, s: State<B, V>, s': State<B, V>)
    requires Inv(dev, s) && FinishCommit(dev, s, s')
    ensures Settle(Abs(dev, s), |Entries(dev, s.inflight)|) == Abs(dev, s')
  {
    var n := |Entries(dev, s.inflight)|;
    EntriesOfConcat(dev, s.log, s.inflight);
    ApplyConcat(s.base, Log(dev, s), Entries(dev, s.inflight));
    assert Abs(dev, s).volatile[..n] == Entries(dev, s.inflight);
    assert Abs(dev, s).volatile[n..] == s.pending == Entries(dev, s'.inflight) + s'.pending;
  }

  lemma CrashRefines<B, V>(dev: Device<B, V>, s: State<B, V>, s': State<B, V>, full: nat)
    requires full <= |s.inflight| && s'.inflight == [] && s'.pending == []
    requires Apply(s'.base, Log(dev, s')) == Apply(s.base, Entries(dev, s.log + s.inflight[..full]))
    ensures SpecStep(Abs(dev, s), Abs(dev, s'), Crashes(|Entries(dev, s.inflight[..full])|))
  {
    KeptPrefix(dev, s.base, s.log, s.inflight, s.pending, full);
    var n := |Entries(dev, s.inflight[..full])|;
    assert Abs(dev, s').volatile == [];
    assert Abs(dev, s).volatile[..n] == Entries(dev, s.inflight[..full]);
    assert Settle(Abs(dev, s), n).stable == Abs(dev, s').stable;
  }

  lemma KeptPrefix<B, V>(dev: Device<B, V>, base: seq<V>, log: seq<seq<B>>, inflight: seq<seq<B>>,
                         pending: seq<(nat, V)>,
                         full: nat)
    requires full <= |inflight|
    ensures var kept := Entries(dev, inflight[..full]);
            && kept <= Entries(dev, inflight) + pending
            && Apply(base, Entries(dev, log + inflight[..full])) == Apply(Apply(base, Entries(dev, log)), kept)
  {
    assert inflight == inflight[..full] + inflight[full..];
    EntriesOfConcat(dev, inflight[..full], inflight[full..]);
    EntriesOfConcat(dev, log, inflight[..full]);
    ApplyConcat(base, Entries(dev, log), Entries(dev, inflight[..full]));
  }

  /** Replay finds a plan in whatever a crash leaves. */
  lemma PlanExists<B, V>(dev: Device<B, V>, s: State<B, V>) returns (plan: Plan, full: nat)
    requires Shape(dev, s)
    ensures Planned(dev, s.journal, plan) && IsFullPrefix(s.persisted, full) && full <= |s.inflight|
  {
    var g := Grid(dev, s.journal);
    var a;
    plan, a, full := ReplayAppliesLog(dev, s.journal, g, s.section, s.commitSeq, s.log[|s.log| - dev.sections..],
                                      s.inflight, s.persisted);
    PlanIsBounded(g, plan, NoEntries(dev, s.journal));
  }

  /** And a journal to go on with. */
  lemma JournalRestarts<B, V>(dev: Device<B, V>, journal: Journal<B>, plan: Plan, mode: bool)
    returns (after: Journal<B>, section: nat, next: CommitSeq)
    requires |dev.ids| == N_COMMIT_IDS
    ensures Restarts(dev, journal, plan, mode, after, section, next)
  {
    if plan.Plan? && plan.count == |journal| && (mode || plan.empty) {
      after, section, next := journal, plan.start, plan.nextSeq;
    } else {
      var erase := Prev(Prev(if plan.Plan? then plan.last else 0));
      after := seq(|journal|, i requires 0 <= i < |journal| => ErasedSection(dev, i, erase));
      section, next := 0, Next(erase);
    }
  }

  lemma CrashTo<B, V>(dev: Device<B, V>, s: State<B, V>, mode: bool, plan: Plan, full: nat, halfway: seq<V>)
    returns (s': State<B, V>)
    requires Shape(dev, s) && Planned(dev, s.journal, plan) && IsFullPrefix(s.persisted, full) && full <= |s.inflight|
    requires CutShort(Entries(dev, Replayed(s.journal, plan)), s.durable, halfway)
    ensures NextStep(dev, s, s', CrashStep(mode, plan, full, halfway))
  {
    var after, section, next := JournalRestarts(dev, s.journal, plan, mode);
    var disk := Recovered(dev, s.journal, plan, halfway);
    var kept := plan.count == |s.journal| && (mode || plan.empty);
    var log := if kept then s.log + s.inflight[..full] else dev.BlankLog();
    s' := State(after, section, next, if kept then s.base else disk, log, |log|, |log|, |Entries(dev, log)|,
                [], [], [], disk, disk);
  }

  /** Recovery is never stuck: from every good state, whatever the commit in flight has left on disk,
      and from every medium on which replays have been cut short, crash and replay lead on. */
  lemma CrashIsPossible<B, V>(dev: Device<B, V>, s: State<B, V>, mode: bool)
    returns (plan: Plan, full: nat)
    requires Inv(dev, s)
    ensures Planned(dev, s.journal, plan)
    ensures forall halfway :: CutShort(Entries(dev, Replayed(s.journal, plan)), s.durable, halfway) ==>
              exists s' :: NextStep(dev, s, s', CrashStep(mode, plan, full, halfway))
  {
    plan, full := PlanExists(dev, s);
    forall halfway | CutShort(Entries(dev, Replayed(s.journal, plan)), s.durable, halfway)
      ensures exists s' :: NextStep(dev, s, s', CrashStep(mode, plan, full, halfway))
    {
      var s' := CrashTo(dev, s, mode, plan, full, halfway);
    }
  }

  /** Steps a client cannot tell. */
  predicate IsQuiet<B, V>(step: Step<B, V>) {
    !step.AcceptStep? && !step.FinishCommitStep? && !step.CrashStep?
  }

  lemma QuietKeeps<B, V>(dev: Device<B, V>, s: State<B, V>, s': State<B, V>, step: Step<B, V>)
    requires Inv(dev, s) && NextStep(dev, s, s', step) && IsQuiet(step)
    ensures Inv(dev, s') && Abs(dev, s') == Abs(dev, s)
  {
    match step
    case StartCommitStep(sections) => StartCommitKeeps(dev, s, s', sections);
    case PersistSectorStep(t, j) => PersistSectorKeeps(dev, s, s', t, j);
    case StartWriterStep => StartWriterKeeps(dev, s, s');
    case WriteBackStep(drop) => WriteBackKeeps(dev, s, s', drop);
    case PersistDataStep(d) => PersistDataKeeps(dev, s, s', d);
    case FinishWriterStep => FinishWriterKeeps(dev, s, s');
  }

  lemma CrashStepKeeps<B, V>(dev: Device<B, V>, s: State<B, V>, s': State<B, V>, step: Step<B, V>)
    requires Inv(dev, s) && NextStep(dev, s, s', step) && step.CrashStep?
    ensures Inv(dev, s') && SpecStep(Abs(dev, s), Abs(dev, s'), EffectOf(dev, s, step))
  {
    CrashKeeps(dev, s, s', step.journalMode, step.plan, step.full, step.halfway);
    assert EffectOf(dev, s, step) == Crashes(|Entries(dev, s.inflight[..step.full])|);
  }

  /** Every step of the journal is a step of the atomic disk and keeps the invariant. */
  lemma StepRefines<B, V>(dev: Device<B, V>, s: State<B, V>, s': State<B, V>, step: Step<B, V>)
    requires Inv(dev, s) && NextStep(dev, s, s', step)
    ensures Inv(dev, s') && SpecStep(Abs(dev, s), Abs(dev, s'), EffectOf(dev, s, step))
  {
    if IsQuiet(step) {
      QuietKeeps(dev, s, s', step);
    } else if step.CrashStep? {
      CrashStepKeeps(dev, s, s', step);
    } else {
      match step
      case AcceptStep(d, v) => AcceptKeeps(dev, s, s', d, v);
      case FinishCommitStep => FinishCommitKeeps(dev, s, s');
    }
  }

  // ---------------------------------------------------------------- runs

  /** A freshly formatted device. */
  ghost predicate Init<B, V>(dev: Device<B, V>, s: State<B, V>) {
    && dev.Valid()
    && |s.journal| == dev.sections && Erased(dev, s.journal, Prev(s.commitSeq))
    && s.section == 0
    && s.base == s.cache == s.durable
    && s.log == dev.BlankLog()
    && s.freed == s.target == |s.log| && s.done == 0
    && s.inflight == [] && s.persisted == [] && s.pending == []
  }

  lemma BlankLogIsEmpty<B, V>(dev: Device<B, V>)
    requires dev.Valid()
    ensures Entries(dev, dev.BlankLog()) == []
  {
    NoEntriesAtAll(dev, dev.BlankLog());
  }

  lemma InitHasShape<B, V>(dev: Device<B, V>, s: State<B, V>)
    requires Init(dev, s)
    ensures Shape(dev, s) && Log(dev, s) == [] && Written(dev, s, s.freed) == []
  {
    BlankLogIsEmpty(dev);
    AllIsFreed(dev, s);
    AllWritten(dev, s);
    ErasedIsClean(dev, s.journal, Prev(s.commitSeq));
    assert s.log[0..] == s.log;
  }

  lemma InitIsGood<B, V>(dev: Device<B, V>, s: State<B, V>)
    requires Init(dev, s)
    ensures Inv(dev, s)
  {
    InitHasShape(dev, s);
    assert Current(s.base, s.cache, [], 0);
  }

  /** A run from a formatted device, crashes included. */
  ghost predicate IsRun<B, V>(dev: Device<B, V>, run: seq<State<B, V>>, steps: seq<Step<B, V>>) {
    && |run| == |steps| + 1
    && Init(dev, run[0])
    && forall k {:trigger steps[k]} :: 0 <= k < |steps| ==>
         Shape(dev, run[k]) && NextStep(dev, run[k], run[k + 1], steps[k])
  }

  /** What a client can tell of the first k steps. */
  ghost function Effects<B, V>(dev: Device<B, V>, run: seq<State<B, V>>, steps: seq<Step<B, V>>,
                               k: nat): (r: seq<Effect<V>>)
    requires k <= |steps| <= |run|
    ensures |r| == k
  {
    seq(k, i requires 0 <= i < k => EffectOf(dev, run[i], steps[i]))
  }

  /** The atomic disk after a series of effects. */
  ghost function SpecAfter<V>(a: Spec<V>, effects: seq<Effect<V>>): Spec<V> {
    if |effects| == 0 then a else SpecNext(SpecAfter(a, effects[..|effects| - 1]), effects[|effects| - 1])
  }

  lemma StepOfRun<B, V>(dev: Device<B, V>, run: seq<State<B, V>>, steps: seq<Step<B, V>>, k: nat)
    requires IsRun(dev, run, steps) && k < |steps|
    ensures Shape(dev, run[k]) && NextStep(dev, run[k], run[k + 1], steps[k])
  {
    var step := steps[k];
    assert step == steps[k];
  }

  lemma StepKeeps<B, V>(dev: Device<B, V>, run: seq<State<B, V>>, steps: seq<Step<B, V>>, k: nat)
    requires IsRun(dev, run, steps) && k < |steps| && Inv(dev, run[k])
    ensures Inv(dev, run[k + 1])
  {
    StepOfRun(dev, run, steps, k);
    StepRefines(dev, run[k], run[k + 1], steps[k]);
  }

  lemma {:induction false} RunKeeps<B, V>(dev: Device<B, V>, run: seq<State<B, V>>, steps: seq<Step<B, V>>, k: nat)
    requires IsRun(dev, run, steps) && k <= |steps|
    ensures Inv(dev, run[k])
  {
    if k == 0 {
      InitIsGood(dev, run[0]);
    } else {
      RunKeeps(dev, run, steps, k - 1);
      StepKeeps(dev, run, steps, k - 1);
    }
  }

  lemma RunStep<B, V>(dev: Device<B, V>, run: seq<State<B, V>>, steps: seq<Step<B, V>>, k: nat)
    requires IsRun(dev, run, steps) && k < |steps|
    ensures SpecStep(Abs(dev, run[k]), Abs(dev, run[k + 1]), EffectOf(dev, run[k], steps[k]))
  {
    RunKeeps(dev, run, steps, k);
    StepOfRun(dev, run, steps, k);
    StepRefines(dev, run[k], run[k + 1], steps[k]);
  }

  lemma RunStart<B, V>(dev: Device<B, V>, run: seq<State<B, V>>, steps: seq<Step<B, V>>)
    requires IsRun(dev, run, steps)
    ensures Abs(dev, run[0]) == Spec(run[0].base, [])
  {
    NothingLogged(dev, run[0].log);
  }

  lemma EffectsGrow<B, V>(dev: Device<B, V>, run: seq<State<B, V>>, steps: seq<Step<B, V>>, k: nat, a: Spec<V>)
    requires k < |steps| <= |run|
    ensures SpecAfter(a, Effects(dev, run, steps, k + 1))
         == SpecNext(SpecAfter(a, Effects(dev, run, steps, k)), EffectOf(dev, run[k], steps[k]))
  {
    assert Effects(dev, run, steps, k + 1)[..k] == Effects(dev, run, steps, k);
  }

  /** Each step is one of the atomic disk. */
  ghost predicate Follows<B, V>(dev: Device<B, V>, run: seq<State<B, V>>, steps: seq<Step<B, V>>) {
    && |run| == |steps| + 1
    && forall i {:trigger EffectOf(dev, run[i], steps[i])} :: 0 <= i < |steps| ==>
         SpecStep(Abs(dev, run[i]), Abs(dev, run[i + 1]), EffectOf(dev, run[i], steps[i]))
  }

  lemma {:induction false} Follow<B, V>(dev: Device<B, V>, run: seq<State<B, V>>, steps: seq<Step<B, V>>, k: nat)
    requires Follows(dev, run, steps) && k <= |steps|
    ensures Abs(dev, run[k]) == SpecAfter(Abs(dev, run[0]), Effects(dev, run, steps, k))
  {
    if k > 0 {
      Follow(dev, run, steps, k - 1);
      EffectsGrow(dev, run, steps, k - 1, Abs(dev, run[0]));
    }
  }

  lemma RunFollows<B, V>(dev: Device<B, V>, run: seq<State<B, V>>, steps: seq<Step<B, V>>)
    requires IsRun(dev, run, steps)
    ensures Follows(dev, run, steps)
  {
    forall i | 0 <= i < |steps|
      ensures SpecStep(Abs(dev, run[i]), Abs(dev, run[i + 1]), EffectOf(dev, run[i], steps[i]))
    {
      RunStep(dev, run, steps, i);
    }
  }

  /** In every run, however many crashes it has, the journalled device behaves as the atomic
      disk under the same effects, each of them legal there. */
  lemma RunsRefine<B, V>(dev: Device<B, V>, run: seq<State<B, V>>, steps: seq<Step<B, V>>, k: nat)
    requires IsRun(dev, run, steps) && k <= |steps|
    ensures Abs(dev, run[k]) == SpecAfter(Spec(run[0].base, []), Effects(dev, run, steps, k))
    ensures k < |steps| ==> Legal(Abs(dev, run[k]), EffectOf(dev, run[k], steps[k]))
  {
    RunFollows(dev, run, steps);
    RunStart(dev, run, steps);
    Follow(dev, run, steps, k);
  }

  /** So in every run a read returns what the atomic disk holds. */
  lemma RunsRead<B, V>(dev: Device<B, V>, run: seq<State<B, V>>, steps: seq<Step<B, V>>, k: nat, d: nat)
    requires IsRun(dev, run, steps) && k <= |steps| && d < |run[k].base|
    ensures Inv(dev, run[k])
    ensures var disk := SpecAfter(Spec(run[0].base, []), Effects(dev, run, steps, k));
            d < |disk.stable| && Read(dev, run[k], d) == Apply(disk.stable, disk.volatile)[d]
  {
    RunKeeps(dev, run, steps, k);
    RunsRefine(dev, run, steps, k);
    ReadsAreCurrent(dev, run[k], d);
  }

  // ---------------------------------------------------------------- what the journal holds

  /** The writes in the journal that have not been written back: committed, in flight, and neither. */
  datatype Parts<V> = Parts(committed: seq<(nat, V)>, inflight: seq<(nat, V)>, pending: seq<(nat, V)>)

  ghost function PartsOf<B, V>(dev: Device<B, V>, s: State<B, V>): Parts<V>
    requires Inv(dev, s)
  {
    Parts(Log(dev, s)[s.done..], Entries(dev, s.inflight), s.pending)
  }

  function All<V>(parts: Parts<V>): seq<(nat, V)> {
    parts.committed + parts.inflight + parts.pending
  }

  function Accepted<V>(parts: Parts<V>, writes: seq<(nat, V)>): Parts<V> {
    parts.(pending := parts.pending + writes)
  }

  function CommitBegun<V>(parts: Parts<V>): Parts<V> {
    Parts(parts.committed, parts.inflight + parts.pending, [])
  }

  function CommitEnded<V>(parts: Parts<V>): Parts<V> {
    Parts(parts.committed + parts.inflight, [], parts.pending)
  }

  function WrittenBack<V>(parts: Parts<V>): Parts<V>
    requires parts.committed != []
  {
    parts.(committed := parts.committed[1..])
  }

  /** What each step does to the writes in the journal: accepting appends one, a commit takes all that
      are pending, write-back takes the oldest committed one, dropping it only if there is a newer
      committed one for its sector, a crash leaves none, and nothing else changes any. */
  ghost predicate PartsStep<B, V>(parts: Parts<V>, parts': Parts<V>, step: Step<B, V>) {
    match step
    case AcceptStep(d, v) => parts' == Accepted(parts, [(d, v)])
    case StartCommitStep(_) => parts.inflight == [] && parts' == CommitBegun(parts)
    case FinishCommitStep => parts' == CommitEnded(parts)
    case WriteBackStep(drop) =>
      && parts.committed != [] && parts' == WrittenBack(parts)
      && (drop ==> Newest(parts.committed[1..], parts.committed[0].0).Some?)
    case CrashStep(_, _, _, _) => parts' == Parts([], [], [])
    case _ => parts' == parts
  }

  lemma RestOfConcat<T>(first: seq<T>, second: seq<T>, n: nat)
    requires n <= |first|
    ensures (first + second)[n..] == first[n..] + second
  {
  }

  lemma CommitParts<B, V>(dev: Device<B, V>, s: State<B, V>, s': State<B, V>)
    requires Inv(dev, s) && FinishCommit(dev, s, s') && Inv(dev, s')
    ensures PartsOf(dev, s') == CommitEnded(PartsOf(dev, s))
  {
    EntriesOfConcat(dev, s.log, s.inflight);
    RestOfConcat(Log(dev, s), Entries(dev, s.inflight), s.done);
  }

  lemma WriteBackParts<B, V>(dev: Device<B, V>, s: State<B, V>, s': State<B, V>, drop: bool)
    requires Inv(dev, s) && WriteBack(dev, s, s', drop) && Inv(dev, s')
    ensures PartsStep(PartsOf(dev, s), PartsOf(dev, s'), Step<B, V>.WriteBackStep(drop))
  {
    var log := Log(dev, s);
    assert log[s.done..][1..] == log[s.done + 1..] && log[s.done..][0] == log[s.done];
  }

  lemma CrashParts<B, V>(dev: Device<B, V>, s: State<B, V>)
    requires Inv(dev, s) && s.inflight == [] && s.pending == [] && s.done == |Log(dev, s)|
    ensures PartsOf(dev, s) == Parts([], [], [])
  {
  }

  /** The log, what has been done of it, and what is not yet in it are as they were. */
  lemma SameParts<B, V>(dev: Device<B, V>, s: State<B, V>, s': State<B, V>)
    requires Inv(dev, s) && Inv(dev, s') && s'.log == s.log && s'.done == s.done && s'.inflight == s.inflight
    ensures PartsOf(dev, s') == PartsOf(dev, s).(pending := s'.pending)
  {
  }

  lemma StartCommitParts<B, V>(dev: Device<B, V>, s: State<B, V>, s': State<B, V>, sections: seq<seq<B>>)
    requires Inv(dev, s) && StartCommit(dev, s, s', sections) && Inv(dev, s')
    ensures PartsOf(dev, s).inflight == [] && PartsOf(dev, s') == CommitBegun(PartsOf(dev, s))
  {
    assert [] + s.pending == s.pending;
  }

  lemma StepParts<B, V>(dev: Device<B, V>, s: State<B, V>, s': State<B, V>, step: Step<B, V>)
    requires Inv(dev, s) && NextStep(dev, s, s', step) && Inv(dev, s')
    ensures PartsStep(PartsOf(dev, s), PartsOf(dev, s'), step)
  {
    match step
    case StartCommitStep(sections) => StartCommitParts(dev, s, s', sections);
    case FinishCommitStep => CommitParts(dev, s, s');
    case WriteBackStep(drop) => WriteBackParts(dev, s, s', drop);
    case CrashStep(_, _, _, _) => CrashParts(dev, s');
    case _ => SameParts(dev, s, s');
  }
}
