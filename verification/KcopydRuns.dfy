/** What every run of a split copy comes to: the client is called back once, when everything
    dispatched is over; and the copies for which that may never happen.
 */
module KcopydRuns {
  import opened Kcopyd

  // ---------------------------------------------------------------- runs

  ghost predicate IsRun(cs: seq<Copy>, es: seq<Event>) {
    && |cs| == |es| + 1
    && forall k :: 0 <= k < |es| ==> Enabled(cs[k], es[k]) && cs[k + 1] == Next(cs[k], es[k])
  }

  lemma {:induction false} RunKeeps(cs: seq<Copy>, es: seq<Event>, k: nat)
    requires IsRun(cs, es) && Inv(cs[0]) && k < |cs|
    ensures Inv(cs[k])
  {
    if k > 0 {
      RunKeeps(cs, es, k - 1);
      NextKeeps(cs[k - 1], es[k - 1]);
    }
  }

  /** Jobs of the copy are outstanding until the callback has run, and none is after it. */
  lemma NoJobsMeansCalled(c: Copy)
    requires Inv(c)
    ensures c.nrJobs == 0 <==> c.master == Called
    ensures c.master == Called ==> forall i :: 0 <= i < SPLIT ==> c.slots[i].Retired?
  {
    if c.master != Running {
      forall i: nat | i < SPLIT
        ensures c.slots[i].Retired?
      {
        NoneLive(c.slots, i);
      }
      AllRetired(c.slots);
    }
  }

  /** The callback runs when every segment dispatched is over, and nothing happens after it; without
      an error that counts, the segments cover the whole source. */
  lemma CallbackIsLast(c: Copy, e: Event)
    requires Inv(c)
    ensures c.master == Called ==> !Enabled(c, e)
    ensures Enabled(c, RunMaster) ==>
              && (forall i :: 0 <= i < SPLIT ==> c.slots[i].Retired?)
              && (c.progress == c.total || ((c.readErr || c.writeErr) && !c.ignore))
  {
    NoJobsMeansCalled(c);
    if c.master == Queued {
      forall i: nat | i < SPLIT
        ensures c.slots[i].Retired?
      {
        NoneLive(c.slots, i);
      }
      assert c.slots[0].Retired?;
    }
  }

  /** No sector of the source is copied by two segments; each one up to where the segments have
      got is copied by one. */
  lemma SectorsOnce(c: Copy, x: nat)
    requires Inv(c)
    ensures x < c.progress ==>
            exists k :: 0 <= k < |c.segs| && c.segs[k].offset <= x < c.segs[k].offset + c.segs[k].count
    ensures forall j, k :: 0 <= j < k < |c.segs| && c.segs[j].offset <= x < c.segs[j].offset + c.segs[j].count ==>
              !(c.segs[k].offset <= x < c.segs[k].offset + c.segs[k].count)
  {
    if x < c.progress {
      var k := Cover(c.segs, |c.segs|, x);
    }
    forall j, k | 0 <= j < k < |c.segs| && c.segs[j].offset <= x < c.segs[j].offset + c.segs[j].count
      ensures !(c.segs[k].offset <= x < c.segs[k].offset + c.segs[k].count)
    {
      Disjoint(c.segs, j, k);
    }
  }

  /** Sequential writes are issued at contiguous offsets from the start. */
  lemma WritesAreContiguous(c: Copy, k: nat)
    requires Inv(c) && c.sequential && k < |c.issued|
    ensures c.issued[k] < |c.segs|
    ensures c.segs[c.issued[k]].offset
         == if k == 0 then 0 else c.segs[c.issued[k - 1]].offset + c.segs[c.issued[k - 1]].count
  {
    assert c.segs[k].offset == End(c.segs, k);
  }

  // ---------------------------------------------------------------- every run is finite

  function Rank(s: Slot): nat {
    match s
    case Waiting => 1
    case Active(_, stage, _, _) =>
      (match stage
       case Pages => 6
       case ToRead => 5
       case Reading => 4
       case ToWrite => 3
       case Writing => 2
       case Finished => 1)
    case Retired => 0
  }

  function Ranks(slots: seq<Slot>): nat {
    if |slots| == 0 then 0 else Ranks(slots[..|slots| - 1]) + Rank(slots[|slots| - 1])
  }

  lemma {:induction false} RanksUpdate(slots: seq<Slot>, i: nat, s: Slot)
    requires i < |slots|
    ensures Ranks(slots[i := s]) == Ranks(slots) - Rank(slots[i]) + Rank(s)
  {
    var n := |slots| - 1;
    if i < n {
      RanksUpdate(slots[..n], i, s);
      assert slots[i := s][..n] == slots[..n][i := s] && slots[i := s][n] == slots[n];
    } else {
      assert slots[i := s][..n] == slots[..n];
    }
  }

  /** What is left to do. */
  function Left(c: Copy): nat
    requires c.progress <= c.total
  {
    6 * (c.total - c.progress) + Ranks(c.slots) + (if c.master == Called then 0 else 1)
  }

  /** A sub job takes a segment or retires: either way there is less to do. */
  lemma SlotFalls(c: Copy, d: Copy, i: nat)
    requires i < |c.slots| == |d.slots| && d.slots == c.slots[i := d.slots[i]] && Rank(c.slots[i]) == 1
    requires d.total == c.total && c.progress <= d.progress <= c.total && c.master == Running && d.master != Called
    requires d.slots[i].Retired? || (c.progress < d.progress && Rank(d.slots[i]) <= 6)
    ensures Left(d) < Left(c)
  {
    RanksUpdate(c.slots, i, d.slots[i]);
  }

  lemma SegmentFalls(c: Copy, i: nat, readErr: bool, writeErr: bool) returns (d: Copy)
    requires i < |c.slots| && c.subJobs > 0 && c.size > 0 && c.progress <= c.total && Rank(c.slots[i]) == 1
    requires c.master == Running
    ensures d == SegmentComplete(c, i, readErr, writeErr) && d.progress <= d.total && Left(d) < Left(c)
  {
    d := SegmentComplete(c, i, readErr, writeErr);
    SlotFalls(c, d, i);
  }

  lemma MoveFalls(c: Copy, i: nat, s: Slot)
    requires c.progress <= c.total && i < |c.slots| && Rank(s) < Rank(c.slots[i])
    ensures Left(c.(slots := c.slots[i := s])) < Left(c)
  {
    RanksUpdate(c.slots, i, s);
  }

  lemma PopFalls(c: Copy, i: nat)
    requires Inv(c) && Enabled(c, PopWrite(i))
    ensures var d := Next(c, PopWrite(i)); d.progress <= d.total && Left(d) < Left(c)
  {
    MoveFalls(c, i, Next(c, PopWrite(i)).slots[i]);
  }

  lemma LaunchFalls(c: Copy)
    requires Enabled(c, Launch) && c.slots[c.launched].Waiting? && c.master == Running
    requires c.size > 0 && c.progress <= c.total
    ensures var d := Next(c, Launch); d.progress <= d.total && Left(d) < Left(c)
  {
    SlotFalls(c, Next(c, Launch), c.launched);
  }

  lemma CompleteFalls(c: Copy, i: nat)
    requires Inv(c) && Enabled(c, RunComplete(i))
    ensures var d := Next(c, RunComplete(i)); d.progress <= d.total && Left(d) < Left(c)
  {
    var d := SegmentFalls(c, i, c.slots[i].readErr, c.slots[i].writeErr);
  }

  /** Every event leaves less to do, so no run is longer than what was to do at its start. */
  lemma LeftFalls(c: Copy, e: Event)
    requires Inv(c) && Enabled(c, e)
    ensures Next(c, e).progress <= Next(c, e).total && Left(Next(c, e)) < Left(c)
  {
    if IsMove(e) {
      MoveFalls(c, e.i, Stepped(c, e));
    } else {
      match e
      case Launch => LaunchFalls(c);
      case PopWrite(i) => PopFalls(c, i);
      case RunComplete(i) => CompleteFalls(c, i);
      case RunMaster =>
    }
  }

  lemma {:induction false} RunsEnd(cs: seq<Copy>, es: seq<Event>)
    requires IsRun(cs, es) && Inv(cs[0])
    ensures cs[|es|].progress <= cs[|es|].total && |es| <= Left(cs[0]) - Left(cs[|es|])
    decreases |es|
  {
    if |es| > 0 {
      var n := |es| - 1;
      assert IsRun(cs[..|es|], es[..n]);
      RunsEnd(cs[..|es|], es[..n]);
      RunKeeps(cs, es, n);
      LeftFalls(cs[n], es[n]);
    }
  }

  // ---------------------------------------------------------------- runs that never call back

  /** A sub job has a segment whose write has not been taken yet, and may still bring it there. */
  predicate Holds(s: Slot, k: nat) {
    s.Active? && s.seg == k && s.stage != Writing && s.stage != Finished
  }

  predicate Held(slots: seq<Slot>, k: nat) {
    exists i :: 0 <= i < |slots| && Holds(slots[i], k)
  }

  predicate Failing(s: Slot) {
    s.Active? && s.stage == Finished && s.readErr
  }

  predicate ReadFailed(c: Copy) {
    c.readErr || exists i :: 0 <= i < |c.slots| && Failing(c.slots[i])
  }

  /** Unless a read has failed or was refused, every sequential write to come is with a sub job. */
  ghost predicate AllHeld(c: Copy) {
    c.sequential && !ReadFailed(c) ==> forall k :: c.popped <= k < |c.segs| ==> Held(c.slots, k)
  }

  /** The next write in order is with nobody. */
  predicate Lost(c: Copy) {
    c.sequential && c.popped < |c.segs| && !Held(c.slots, c.popped)
  }

  /** A sub job waits for its turn to write, which never comes. */
  predicate Stuck(c: Copy, i: nat) {
    Lost(c) && At(c, i, ToWrite)
  }

  /** A copy gets lost only when a read has failed or was refused. */
  lemma LostMeansReadFailed(c: Copy)
    requires AllHeld(c) && Lost(c)
    ensures ReadFailed(c)
  {
  }

  /** Changing one slot, other than by losing the segment it holds, keeps the others. */
  lemma HeldElsewhere(slots: seq<Slot>, i: nat, s: Slot, k: nat)
    requires i < |slots| && Held(slots, k) && (Holds(slots[i], k) ==> Holds(s, k))
    ensures Held(slots[i := s], k)
  {
    var j :| 0 <= j < |slots| && Holds(slots[j], k);
    assert Holds(slots[i := s][j], k);
  }

  /** Unless one slot fails, the others tell whether a read has failed. */
  lemma FailsElsewhere(c: Copy, d: Copy, i: nat)
    requires i < |c.slots| && |d.slots| == |c.slots| && d.slots == c.slots[i := d.slots[i]] && !ReadFailed(d)
    requires c.readErr ==> d.readErr
    requires Failing(c.slots[i]) ==> d.readErr
    ensures !ReadFailed(c) && !Failing(d.slots[i])
  {
    forall j | 0 <= j < |c.slots|
      ensures !Failing(c.slots[j])
    {
      assert !Failing(d.slots[j]);
    }
  }

  lemma HeldMoves(c: Copy, i: nat, s: Slot)
    requires AllHeld(c) && i < |c.slots| && c.slots[i].Active? && s.Active? && s.seg == c.slots[i].seg
    requires c.slots[i].stage == Writing || s.stage != Writing
    requires s.stage == Finished ==> s.readErr || c.slots[i].stage == Writing
    requires c.slots[i].stage != Finished
    ensures AllHeld(c.(slots := c.slots[i := s]))
  {
    var d := c.(slots := c.slots[i := s]);
    if d.sequential && !ReadFailed(d) {
      FailsElsewhere(c, d, i);
      forall k | d.popped <= k < |d.segs|
        ensures Held(d.slots, k)
      {
        HeldElsewhere(c.slots, i, s, k);
      }
    }
  }

  lemma HeldPops(c: Copy, i: nat)
    requires Inv(c) && AllHeld(c) && Enabled(c, PopWrite(i))
    ensures AllHeld(Next(c, PopWrite(i)))
  {
    var d := Next(c, PopWrite(i));
    if d.sequential && !ReadFailed(d) {
      PopIsNext(c, i);
      FailsElsewhere(c, d, i);
      forall k | d.popped <= k < |d.segs|
        ensures Held(d.slots, k)
      {
        HeldElsewhere(c.slots, i, d.slots[i], k);
      }
    }
  }

  lemma HeldSegment(c: Copy, i: nat, readErr: bool, writeErr: bool)
    requires AllHeld(c) && i < |c.slots| && c.subJobs > 0 && (c.sequential ==> c.popped <= |c.segs|)
    requires c.slots[i].Waiting? || (c.slots[i].Active? && c.slots[i].stage == Finished &&
                                     readErr == c.slots[i].readErr)
    ensures AllHeld(SegmentComplete(c, i, readErr, writeErr))
  {
    var d := SegmentComplete(c, i, readErr, writeErr);
    if d.sequential && !ReadFailed(d) {
      FailsElsewhere(c, d, i);
      forall k | d.popped <= k < |d.segs|
        ensures Held(d.slots, k)
      {
        if k < |c.segs| {
          HeldElsewhere(c.slots, i, d.slots[i], k);
        } else {
          assert Holds(d.slots[i], k);
        }
      }
    }
  }

  lemma HeldKeeps(c: Copy, e: Event)
    requires Inv(c) && AllHeld(c) && Enabled(c, e)
    ensures AllHeld(Next(c, e))
  {
    if IsMove(e) {
      HeldMoves(c, e.i, Stepped(c, e));
    } else {
      match e
      case Launch => HeldSegment(c.(launched := c.launched + 1), c.launched, false, false);
      case PopWrite(i) => HeldPops(c, i);
      case RunComplete(i) => HeldSegment(c, i, c.slots[i].readErr, c.slots[i].writeErr);
      case RunMaster =>
    }
  }

  lemma PopIsHeld(c: Copy, i: nat)
    requires Inv(c) && Enabled(c, PopWrite(i)) && c.sequential
    ensures Held(c.slots, c.popped)
  {
    PopIsNext(c, i);
    assert Holds(c.slots[i], c.popped);
  }

  /** A sub job that is stuck stays where it is, whatever happens. */
  lemma StuckStays(c: Copy, e: Event, i: nat)
    requires Inv(c) && Stuck(c, i) && Enabled(c, e)
    ensures Stuck(Next(c, e), i)
  {
    var d := Next(c, e);
    if e.PopWrite? {
      PopIsHeld(c, e.i);
      assert false;
    }
    assert d.popped == c.popped && d.slots[i] == c.slots[i];
    forall j | 0 <= j < |d.slots|
      ensures !Holds(d.slots[j], d.popped)
    {
      assert !Holds(c.slots[j], c.popped);
    }
  }

  ghost predicate StuckInv(c: Copy, i: nat) {
    Inv(c) && Stuck(c, i)
  }

  lemma StuckStep(c: Copy, e: Event, i: nat)
    requires StuckInv(c, i) && Enabled(c, e)
    ensures StuckInv(Next(c, e), i)
  {
    NextKeeps(c, e);
    StuckStays(c, e, i);
  }

  lemma {:induction false} RunStuck(cs: seq<Copy>, es: seq<Event>, i: nat, k: nat)
    requires IsRun(cs, es) && StuckInv(cs[0], i) && k < |cs|
    ensures StuckInv(cs[k], i)
  {
    if k > 0 {
      RunStuck(cs, es, i, k - 1);
      StuckStep(cs[k - 1], es[k - 1], i);
    }
  }

  lemma StuckIsRunning(c: Copy, i: nat)
    requires StuckInv(c, i)
    ensures c.master == Running
  {
    if c.master != Running {
      NoneLive(c.slots, i);
      assert false;
    }
  }

  /** So the client of a copy with a stuck sub job is never called back. */
  lemma NeverCalledBack(cs: seq<Copy>, es: seq<Event>, i: nat, k: nat)
    requires IsRun(cs, es) && Inv(cs[0]) && Stuck(cs[0], i) && k < |cs|
    ensures Stuck(cs[k], i) && cs[k].master == Running
  {
    RunStuck(cs, es, i, k);
    StuckIsRunning(cs[k], i);
  }

  /** Otherwise something can always happen until the callback has run. */
  lemma CanGoOn(c: Copy) returns (e: Event)
    requires Inv(c) && c.master != Called && !exists i :: Stuck(c, i)
    ensures Enabled(c, e)
  {
    NoJobsMeansCalled(c);
    if c.master == Queued {
      e := RunMaster;
    } else if c.launched < SPLIT {
      e := Launch;
    } else {
      if forall i :: 0 <= i < SPLIT ==> c.slots[i].Retired? {
        AllRetired(c.slots);
        assert false;
      }
      var i :| 0 <= i < SPLIT && !c.slots[i].Retired?;
      e := SlotGoesOn(c, i);
    }
  }

  /** An event for a sub job, or for the one whose turn to write it awaits. */
  lemma SlotGoesOn(c: Copy, i: nat) returns (e: Event)
    requires Inv(c) && c.subJobs > 0 && c.nrJobs > 0 && i < SPLIT && c.slots[i].Active? && !Stuck(c, i)
    ensures Enabled(c, e)
  {
    match c.slots[i].stage
    case Pages => e := GetPages(i);
    case ToRead => e := StartRead(i);
    case Reading => e := ReadEnds(i, false);
    case Writing => e := WriteEnds(i, false);
    case Finished => e := RunComplete(i);
    case ToWrite =>
      if !c.sequential {
        e := PopWrite(i);
      } else {
        assert Held(c.slots, c.popped);
        var j :| 0 <= j < |c.slots| && Holds(c.slots[j], c.popped);
        assert c.segs[c.popped].offset == End(c.segs, c.popped);
        match c.slots[j].stage
        case Pages => e := GetPages(j);
        case ToRead => e := StartRead(j);
        case Reading => e := ReadEnds(j, false);
        case ToWrite => e := PopWrite(j);
    }
  }

  // ---------------------------------------------------------------- when the client is called back

  /** A run from the start that has come to its end: nothing can happen any more. */
  ghost predicate IsFullRun(cs: seq<Copy>, es: seq<Event>, start: Copy) {
    IsRun(cs, es) && cs[0] == start && forall e :: !Enabled(cs[|es|], e)
  }

  /** What the client asked for. */
  function Asked(c: Copy): (nat, bool, bool, bool) {
    (c.total, c.sequential, c.ignore, c.zero)
  }

  lemma AskedStays(c: Copy, e: Event)
    requires Enabled(c, e)
    ensures Asked(Next(c, e)) == Asked(c)
  {
  }

  lemma {:induction false} RunAsked(cs: seq<Copy>, es: seq<Event>, k: nat)
    requires IsRun(cs, es) && k < |cs|
    ensures Asked(cs[k]) == Asked(cs[0])
  {
    if k > 0 {
      RunAsked(cs, es, k - 1);
      AskedStays(cs[k - 1], es[k - 1]);
    }
  }

  ghost predicate HeldInv(c: Copy) {
    Inv(c) && AllHeld(c)
  }

  lemma HeldStep(c: Copy, e: Event)
    requires HeldInv(c) && Enabled(c, e)
    ensures HeldInv(Next(c, e))
  {
    NextKeeps(c, e);
    HeldKeeps(c, e);
  }

  lemma {:induction false} RunHolds(cs: seq<Copy>, es: seq<Event>, k: nat)
    requires IsRun(cs, es) && HeldInv(cs[0]) && k < |cs|
    ensures HeldInv(cs[k])
  {
    if k > 0 {
      RunHolds(cs, es, k - 1);
      HeldStep(cs[k - 1], es[k - 1]);
    }
  }

  /** A run at its end has called back, unless a sub job is stuck after a read that failed or was
      refused. */
  lemma EndIsCallback(cs: seq<Copy>, es: seq<Event>, total: nat, size: nat, sequential: bool, ignore: bool, zero: bool)
    requires 0 < size < total && IsFullRun(cs, es, Start(total, size, sequential, ignore, zero))
    ensures var c := cs[|es|];
            && Inv(c) && c.total == total && c.ignore == (ignore && !sequential)
            && (!sequential || !ReadFailed(c) ==> c.master == Called)
  {
    StartIsGood(total, size, sequential, ignore, zero);
    RunKeeps(cs, es, |es|);
    RunHolds(cs, es, |es|);
    RunAsked(cs, es, |es|);
    var c := cs[|es|];
    if i :| Stuck(c, i) {
      LostMeansReadFailed(c);
    } else if c.master != Called {
      var e := CanGoOn(c);
      assert false;
    }
  }

  /** A device has failed to read or write. */
  predicate IsError(e: Event) {
    (e.ReadEnds? || e.WriteEnds?) && e.error
  }

  predicate Marked(s: Slot) {
    s.Active? && (s.readErr || s.writeErr)
  }

  /** An error is on record, with the master or with a sub job under way. */
  ghost predicate Spoiled(c: Copy) {
    c.readErr || c.writeErr || exists i :: 0 <= i < |c.slots| && Marked(c.slots[i])
  }

  /** A change of one slot, and of the master, that neither loses nor invents an error. */
  lemma SpoiledMoves(c: Copy, d: Copy, i: nat, error: bool)
    requires i < |c.slots| && |d.slots| == |c.slots| && d.slots == c.slots[i := d.slots[i]]
    requires (c.readErr || c.writeErr) ==> (d.readErr || d.writeErr)
    requires (d.readErr || d.writeErr) ==> (c.readErr || c.writeErr || Marked(c.slots[i]))
    requires Marked(d.slots[i]) ==> Marked(c.slots[i]) || c.readErr || c.writeErr || error
    requires Marked(c.slots[i]) || error ==> Marked(d.slots[i]) || d.readErr || d.writeErr
    ensures Spoiled(d) <==> Spoiled(c) || error
  {
    if j :| 0 <= j < |c.slots| && Marked(c.slots[j]) {
      assert j != i ==> Marked(d.slots[j]);
      assert Spoiled(d);
    }
    if j :| 0 <= j < |d.slots| && Marked(d.slots[j]) {
      assert j != i ==> Marked(c.slots[j]);
    }
    assert Marked(d.slots[i]) ==> Spoiled(d);
  }

  /** A sub job hands its errors to the master. */
  lemma SpoiledSegment(c: Copy, i: nat, readErr: bool, writeErr: bool, d: Copy)
    requires i < |c.slots| && c.subJobs > 0 && (readErr || writeErr <==> Marked(c.slots[i]))
    requires var a := SegmentComplete(c, i, readErr, writeErr);
             d.slots == a.slots && d.readErr == a.readErr && d.writeErr == a.writeErr
    ensures Spoiled(d) <==> Spoiled(c)
  {
    SpoiledMoves(c, d, i, false);
  }

  /** Errors are on record from the moment a device reports them, and no others are. */
  lemma ErrorsStay(c: Copy, e: Event)
    requires Inv(c) && Enabled(c, e)
    ensures Spoiled(Next(c, e)) <==> Spoiled(c) || IsError(e)
  {
    if IsMove(e) {
      SpoiledMoves(c, Next(c, e), e.i, IsError(e));
    } else {
      match e
      case Launch => SpoiledSegment(c, c.launched, false, false, Next(c, Launch));
      case PopWrite(i) => SpoiledMoves(c, Next(c, e), i, false);
      case RunComplete(i) => SpoiledSegment(c, i, c.slots[i].readErr, c.slots[i].writeErr, Next(c, e));
      case RunMaster =>
    }
  }

  lemma {:induction false} RunSpoiled(cs: seq<Copy>, es: seq<Event>, k: nat)
    requires IsRun(cs, es) && Inv(cs[0]) && k < |cs| && !Spoiled(cs[0])
    ensures Spoiled(cs[k]) <==> exists j :: 0 <= j < k && IsError(es[j])
  {
    if k > 0 {
      RunSpoiled(cs, es, k - 1);
      SpoiledAt(cs, es, k - 1);
      OneMore(es, k - 1);
    }
  }

  lemma SpoiledAt(cs: seq<Copy>, es: seq<Event>, k: nat)
    requires IsRun(cs, es) && Inv(cs[0]) && k < |es|
    ensures Spoiled(cs[k + 1]) <==> Spoiled(cs[k]) || IsError(es[k])
  {
    RunKeeps(cs, es, k);
    ErrorsStay(cs[k], es[k]);
  }

  lemma OneMore(es: seq<Event>, k: nat)
    requires k < |es|
    ensures (exists j :: 0 <= j < k + 1 && IsError(es[j])) <==>
            IsError(es[k]) || exists j :: 0 <= j < k && IsError(es[j])
  {
  }

  /** With devices that do not fail, a copy of either kind calls back having copied all of the source
      without error; and a callback reports an error if and only if a device did. */
  lemma GoodDevicesCallBack(cs: seq<Copy>, es: seq<Event>, total: nat, size: nat,
                            sequential: bool, ignore: bool, zero: bool)
    requires 0 < size < total && IsFullRun(cs, es, Start(total, size, sequential, ignore, zero))
    ensures (forall k :: 0 <= k < |es| ==> !IsError(es[k])) ==>
              cs[|es|].master == Called && cs[|es|].progress == total
    ensures cs[|es|].master == Called ==>
              (cs[|es|].readErr || cs[|es|].writeErr <==> exists k :: 0 <= k < |es| && IsError(es[k]))
  {
    var c := cs[|es|];
    StartIsGood(total, size, sequential, ignore, zero);
    EndIsCallback(cs, es, total, size, sequential, ignore, zero);
    RunSpoiled(cs, es, |es|);
    if !Spoiled(c) {
      NotSpoiled(c);
    }
    if c.master == Called {
      NoJobsMeansCalled(c);
      assert c.slots[0].Retired?;
    }
  }

  lemma NotSpoiled(c: Copy)
    requires !Spoiled(c)
    ensures !ReadFailed(c)
  {
    if i :| 0 <= i < |c.slots| && Failing(c.slots[i]) {
      assert Marked(c.slots[i]);
      assert false;
    }
  }

  /** A sub job that never reads. */
  predicate WritesOnly(s: Slot) {
    s.Active? ==> !s.readErr && s.stage != Pages && s.stage != ToRead && s.stage != Reading
  }

  ghost predicate NoReads(c: Copy) {
    c.zero ==> !c.readErr && forall i :: 0 <= i < |c.slots| ==> WritesOnly(c.slots[i])
  }

  /** Zeroing a region reads nothing, so no read fails or is refused. */
  lemma NoReadsKeeps(c: Copy, e: Event)
    requires Inv(c) && NoReads(c) && Enabled(c, e)
    ensures NoReads(Next(c, e))
  {
    var d := Next(c, e);
    if c.zero {
      var i := if e.Launch? then c.launched else if e.RunMaster? then 0 else e.i;
      assert WritesOnly(c.slots[i]) && d.slots == c.slots[i := d.slots[i]];
      forall j | 0 <= j < |d.slots|
        ensures WritesOnly(d.slots[j])
      {
        assert WritesOnly(c.slots[j]);
      }
    }
  }

  lemma {:induction false} RunReadsNothing(cs: seq<Copy>, es: seq<Event>, k: nat)
    requires IsRun(cs, es) && Inv(cs[0]) && k < |cs| && NoReads(cs[0])
    ensures NoReads(cs[k])
  {
    if k > 0 {
      RunReadsNothing(cs, es, k - 1);
      RunKeeps(cs, es, k - 1);
      NoReadsKeeps(cs[k - 1], es[k - 1]);
    }
  }

  /** The safe copies: writes that need no order, and regions that are only zeroed. */
  lemma SafeCopyCallsBack(cs: seq<Copy>, es: seq<Event>, total: nat, size: nat,
                          sequential: bool, ignore: bool, zero: bool)
    requires 0 < size < total && IsFullRun(cs, es, Start(total, size, sequential, ignore, zero))
    requires !sequential || zero
    ensures cs[|es|].master == Called
  {
    var c := cs[|es|];
    StartIsGood(total, size, sequential, ignore, zero);
    EndIsCallback(cs, es, total, size, sequential, ignore, zero);
    RunAsked(cs, es, |es|);
    RunReadsNothing(cs, es, |es|);
    if zero {
      assert forall i :: 0 <= i < |c.slots| ==> WritesOnly(c.slots[i]);
      assert !ReadFailed(c);
    }
  }

  /** Any run can be brought to its end. */
  lemma {:induction false} RunOn(cs: seq<Copy>, es: seq<Event>) returns (cs': seq<Copy>, es': seq<Event>)
    requires IsRun(cs, es) && Inv(cs[|es|])
    ensures IsFullRun(cs', es', cs[0]) && |es| <= |es'| && cs'[..|cs|] == cs && es'[..|es|] == es
    decreases Left(cs[|es|])
  {
    if e :| Enabled(cs[|es|], e) {
      NextKeeps(cs[|es|], e);
      LeftFalls(cs[|es|], e);
      cs', es' := RunOn(cs + [Next(cs[|es|], e)], es + [e]);
      assert cs'[..|cs|] == cs'[..|cs| + 1][..|cs|] && es'[..|es|] == es'[..|es| + 1][..|es|];
    } else {
      cs', es' := cs, es;
    }
  }

  /** For every size of source: all copies come to their callback, whatever fails, if and only if
      writes need no order or nothing is read. */
  lemma CallsBackWhen(total: nat, size: nat, sequential: bool, ignore: bool, zero: bool)
    requires 0 < size < total
    ensures (forall cs: seq<Copy>, es: seq<Event> :: IsFullRun(cs, es, Start(total, size, sequential, ignore, zero)) ==>
               cs[|es|].master == Called)
       <==> !sequential || zero
  {
    var start := Start(total, size, sequential, ignore, zero);
    if !sequential || zero {
      forall cs: seq<Copy>, es: seq<Event> | IsFullRun(cs, es, start)
        ensures cs[|es|].master == Called
      {
        SafeCopyCallsBack(cs, es, total, size, sequential, ignore, zero);
      }
    } else {
      var cs, es := ReadErrorHangs(total, size, ignore);
      assert IsFullRun(cs, es, start);
    }
  }

  // ---------------------------------------------------------------- runs that hang

  lemma Extend(cs: seq<Copy>, es: seq<Event>, e: Event, c: Copy) returns (cs': seq<Copy>, es': seq<Event>)
    requires IsRun(cs, es) && Enabled(cs[|es|], e) && c == Next(cs[|es|], e)
    ensures IsRun(cs', es') && cs'[0] == cs[0] && cs'[|es'|] == c && es' == es + [e]
  {
    cs', es' := cs + [c], es + [e];
  }

  /** No device has failed to read. */
  ghost predicate AllRead(es: seq<Event>) {
    forall k :: 0 <= k < |es| ==> !(es[k].ReadEnds? && es[k].error)
  }

  /** A run with a stuck sub job, brought to its end, has not called back. */
  lemma StuckToTheEnd(cs: seq<Copy>, es: seq<Event>, i: nat) returns (cs': seq<Copy>, es': seq<Event>)
    requires IsRun(cs, es) && Inv(cs[0]) && Stuck(cs[|es|], i)
    ensures IsFullRun(cs', es', cs[0]) && cs'[|es'|].master == Running && Stuck(cs'[|es'|], i)
  {
    RunKeeps(cs, es, |es|);
    cs', es' := RunOn(cs, es);
    var tail, rest := cs'[|es|..], es'[|es|..];
    assert tail[0] == cs'[..|cs|][|es|] == cs[|es|];
    assert IsRun(tail, rest);
    NeverCalledBack(tail, rest, i, |rest|);
    assert tail[|rest|] == cs'[|es'|];
  }

  /** The read of a sub job's segment, from the allocation of its pages on. */
  lemma Reads(cs: seq<Copy>, es: seq<Event>, i: nat, error: bool) returns (cs': seq<Copy>, es': seq<Event>)
    requires IsRun(cs, es) && At(cs[|es|], i, Pages) && !Refuses(cs[|es|])
    ensures IsRun(cs', es') && cs'[0] == cs[0] && (AllRead(es) && !error ==> AllRead(es'))
    ensures var c := cs[|es|]; cs'[|es'|] == c.(slots := c.slots[i := ReadEnded(c, c.slots[i], error)])
  {
    var c := cs[|es|];
    var a, b, d := ReadSteps(c, i, error);
    cs', es' := Extend(cs, es, GetPages(i), a);
    cs', es' := Extend(cs', es', StartRead(i), b);
    cs', es' := Extend(cs', es', ReadEnds(i, error), d);
  }

  lemma ReadSteps(c: Copy, i: nat, error: bool) returns (a: Copy, b: Copy, d: Copy)
    requires At(c, i, Pages) && !Refuses(c)
    ensures Enabled(c, GetPages(i)) && a == Next(c, GetPages(i))
    ensures Enabled(a, StartRead(i)) && b == Next(a, StartRead(i))
    ensures Enabled(b, ReadEnds(i, error)) && d == Next(b, ReadEnds(i, error))
    ensures d == c.(slots := c.slots[i := ReadEnded(c, c.slots[i], error)])
  {
    a := c.(slots := c.slots[i := c.slots[i].(stage := ToRead)]);
    b := c.(slots := c.slots[i := c.slots[i].(stage := Reading)]);
    d := c.(slots := c.slots[i := ReadEnded(c, c.slots[i], error)]);
  }

  /** A write taken in its turn, up to the completion of the sub job. */
  lemma Writes(cs: seq<Copy>, es: seq<Event>, i: nat, error: bool, b: Copy) returns (cs': seq<Copy>, es': seq<Event>)
    requires IsRun(cs, es) && Enabled(cs[|es|], PopWrite(i)) && !Refuses(cs[|es|])
    requires cs[|es|].subJobs > 0 && cs[|es|].nrJobs > 0
    requires b == Next(Next(cs[|es|], PopWrite(i)), WriteEnds(i, error))
    ensures Enabled(b, RunComplete(i))
    ensures IsRun(cs', es') && cs'[0] == cs[0] && (AllRead(es) ==> AllRead(es'))
    ensures cs'[|es'|] == Next(b, RunComplete(i))
  {
    cs', es' := Extend(cs, es, PopWrite(i), Next(cs[|es|], PopWrite(i)));
    cs', es' := Extend(cs', es', WriteEnds(i, error), b);
    cs', es' := Extend(cs', es', RunComplete(i), Next(b, RunComplete(i)));
  }

  /** The first sub jobs have taken their segments, and that is all. */
  ghost predicate Fresh(c: Copy, n: nat) {
    && n <= SPLIT == |c.slots| && c.launched == n == |c.segs| && c.subJobs == SPLIT && c.master == Running
    && c.progress == n * c.size && c.popped == c.writeOffset == 0 && c.nrJobs == 1 + n && c.issued == []
    && !c.readErr && !c.writeErr
    && (forall i :: 0 <= i < n ==> c.slots[i] == Active(i, Pages, false, false) && c.segs[i] == Seg(i * c.size, c.size))
    && (forall i :: n <= i < SPLIT ==> c.slots[i].Waiting?)
  }

  /** Starts some sub jobs, each with a whole segment. */
  lemma {:induction false} Launches(total: nat, size: nat, n: nat) returns (cs: seq<Copy>, es: seq<Event>)
    requires 0 < size && n * size <= total && n <= SPLIT
    ensures IsRun(cs, es) && cs[0] == Start(total, size, true, false, false)
    ensures Fresh(cs[|es|], n) && Asked(cs[|es|]) == Asked(cs[0]) && cs[|es|].size == size
    ensures AllRead(es)
  {
    if n == 0 {
      cs, es := [Start(total, size, true, false, false)], [];
    } else {
      assert (n - 1) * size + size == n * size;
      cs, es := Launches(total, size, n - 1);
      var d := FreshLaunch(cs[|es|], n - 1);
      cs, es := Extend(cs, es, Launch, d);
    }
  }

  lemma FreshLaunch(c: Copy, n: nat) returns (d: Copy)
    requires Fresh(c, n) && n < SPLIT && c.sequential && !c.zero && n * c.size + c.size <= c.total && c.size > 0
    ensures Enabled(c, Launch) && d == Next(c, Launch)
    ensures Fresh(d, n + 1) && Asked(d) == Asked(c) && d.size == c.size
  {
    d := Next(c, Launch);
    assert (n + 1) * c.size == n * c.size + c.size;
  }

  /** It happens for every source that is split: the first sequential segment cannot be read, the
      second one can, and waits for its turn to be written for ever. */
  lemma ReadErrorHangs(total: nat, size: nat, ignore: bool) returns (cs: seq<Copy>, es: seq<Event>)
    requires 0 < size < total
    ensures IsFullRun(cs, es, Start(total, size, true, ignore, false)) && cs[|es|].master == Running
  {
    StartIsGood(total, size, true, false, false);
    assert Start(total, size, true, ignore, false) == Start(total, size, true, false, false);
    cs, es := Launches(total, size, 1);
    var d := SecondLaunch(cs[|es|]);
    cs, es := Extend(cs, es, Launch, d);
    cs, es := Reads(cs, es, 0, true);
    cs, es := Reads(cs, es, 1, false);
    assert forall i :: 0 <= i < SPLIT ==> !Holds(cs[|es|].slots[i], 0);
    cs, es := StuckToTheEnd(cs, es, 1);
  }

  /** The second sub job takes what is left of the source, up to a segment. */
  lemma SecondLaunch(c: Copy) returns (d: Copy)
    requires Fresh(c, 1) && c.sequential && !c.zero && 0 < c.size < c.total
    ensures Enabled(c, Launch) && d == Next(c, Launch) && d.sequential && !d.ignore == !c.ignore && !d.writeErr
    ensures |d.segs| == 2 && d.popped == 0 && |d.slots| == SPLIT
    ensures d.slots[0] == Active(0, Pages, false, false) && d.slots[1] == Active(1, Pages, false, false)
    ensures forall i :: 2 <= i < SPLIT ==> d.slots[i].Waiting?
  {
    d := Next(c, Launch);
  }

  /** Three segments are taken and the first is written, so that its sub job has a fourth; the read
      of the third has not started. */
  ghost predicate FourthRead(c: Copy, stage: Stage) {
    && |c.slots| == SPLIT && c.launched == 3 && |c.segs| == 4 && c.subJobs == SPLIT && c.nrJobs == 4
    && c.sequential && !c.ignore && !c.zero && c.size > 0 && c.segs[1] == Seg(c.size, c.size)
    && c.popped == 1 && c.writeOffset == c.size && !c.readErr && !c.writeErr && c.master == Running
    && c.slots[0] == Active(3, stage, false, false)
    && c.slots[1] == Active(1, Pages, false, false) && c.slots[2] == Active(2, Pages, false, false)
    && (forall i :: 3 <= i < SPLIT ==> c.slots[i].Waiting?)
  }

  lemma FirstWritten(c: Copy) returns (b: Copy)
    requires |c.slots| == SPLIT && c.sequential && !c.ignore && !c.zero && c.size > 0 && c.total > 3 * c.size
    requires Fresh(c.(slots := c.slots[0 := Active(0, Pages, false, false)]), 3)
    requires c.slots[0] == Active(0, ToWrite, false, false)
    ensures Enabled(c, PopWrite(0)) && !Refuses(c)
    ensures b == Next(Next(c, PopWrite(0)), WriteEnds(0, false)) && Enabled(b, RunComplete(0))
    ensures FourthRead(Next(b, RunComplete(0)), Pages)
  {
    var d := c.(slots := c.slots[0 := Active(0, Pages, false, false)]);
    assert c.slots == d.slots[0 := c.slots[0]];
    assert d.segs[0] == Seg(0 * c.size, c.size) && d.segs[1] == Seg(1 * c.size, c.size);
    b := Next(Next(c, PopWrite(0)), WriteEnds(0, false));
  }

  /** The second segment could not be written. */
  ghost predicate SecondFailed(c: Copy) {
    && |c.slots| == SPLIT && |c.segs| == 4 && c.sequential && c.popped == 2 && c.writeErr
    && c.slots[0] == Active(3, ToWrite, false, false) && c.slots[1].Retired?
    && c.slots[2] == Active(2, Pages, false, false)
    && (forall i :: 3 <= i < SPLIT ==> c.slots[i].Waiting?)
  }

  lemma SecondFails(c: Copy) returns (b: Copy)
    requires |c.slots| == SPLIT && FourthRead(c.(slots := c.slots[1 := Active(1, Pages, false, false)]), ToWrite)
    requires c.slots[1] == Active(1, ToWrite, false, false)
    ensures Enabled(c, PopWrite(1)) && !Refuses(c)
    ensures b == Next(Next(c, PopWrite(1)), WriteEnds(1, true)) && Enabled(b, RunComplete(1))
    ensures SecondFailed(Next(b, RunComplete(1)))
  {
    var d := c.(slots := c.slots[1 := Active(1, Pages, false, false)]);
    assert c.slots == d.slots[1 := c.slots[1]];
    b := Next(Next(c, PopWrite(1)), WriteEnds(1, true));
  }

  /** The read of the third is then refused, and the fourth waits for ever. */
  lemma ThirdRefused(c: Copy) returns (a: Copy, b: Copy)
    requires SecondFailed(c)
    ensures Enabled(c, GetPages(2)) && a == Next(c, GetPages(2))
    ensures Enabled(a, StartRead(2)) && b == Next(a, StartRead(2)) && Stuck(b, 0)
  {
    a := Next(c, GetPages(2));
    b := Next(a, StartRead(2));
    assert forall i :: 0 <= i < SPLIT ==> !Holds(b.slots[i], 2);
  }

  /** A failed write hangs a copy too, though every read the device gets succeeds: for every source
      of more than three segments. */
  lemma WriteErrorHangs(total: nat, size: nat, ignore: bool) returns (cs: seq<Copy>, es: seq<Event>)
    requires 0 < size && 3 * size < total
    ensures IsRun(cs, es) && cs[0] == Start(total, size, true, ignore, false) && AllRead(es) && Stuck(cs[|es|], 0)
  {
    cs, es := Launches(total, size, 3);
    cs, es := FirstGoes(cs, es);
    cs, es := SecondGoes(cs, es);
    var a, d := ThirdRefused(cs[|es|]);
    cs, es := Extend(cs, es, GetPages(2), a);
    cs, es := Extend(cs, es, StartRead(2), d);
  }

  lemma FirstGoes(cs: seq<Copy>, es: seq<Event>) returns (cs': seq<Copy>, es': seq<Event>)
    requires IsRun(cs, es) && AllRead(es) && Fresh(cs[|es|], 3)
    requires var c := cs[|es|]; c.sequential && !c.ignore && !c.zero && c.size > 0 && c.total > 3 * c.size
    ensures IsRun(cs', es') && AllRead(es') && cs'[0] == cs[0] && FourthRead(cs'[|es'|], Pages)
  {
    cs', es' := Reads(cs, es, 0, false);
    assert cs'[|es'|].slots[0 := Active(0, Pages, false, false)] == cs[|es|].slots;
    var b := FirstWritten(cs'[|es'|]);
    cs', es' := Writes(cs', es', 0, false, b);
  }

  lemma SecondGoes(cs: seq<Copy>, es: seq<Event>) returns (cs': seq<Copy>, es': seq<Event>)
    requires IsRun(cs, es) && AllRead(es) && FourthRead(cs[|es|], Pages)
    ensures IsRun(cs', es') && AllRead(es') && cs'[0] == cs[0] && SecondFailed(cs'[|es'|])
  {
    cs', es' := Reads(cs, es, 0, false);
    var c := cs'[|es'|];
    cs', es' := Reads(cs', es', 1, false);
    assert cs'[|es'|].slots[1 := Active(1, Pages, false, false)] == c.slots;
    var b := SecondFails(cs'[|es'|]);
    cs', es' := Writes(cs', es', 1, true, b);
  }
}
