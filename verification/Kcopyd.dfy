/** A copy that dm-kcopyd splits: a master job and eight sub jobs that take segments of the source
    one after the other, each going through page allocation, read, write and completion.

    Every step that holds a lock, and every completion of the device, is one event; a run is any
    sequence of enabled events.
 */
module Kcopyd {
  import opened Sequences

  const SPLIT: nat := 8             // SPLIT_COUNT

  /** Where a sub job with a segment is: about to be dispatched or waiting for pages, on the io list
      to read, reading, on the io list to write, writing, or on the list of completed jobs. */
  datatype Stage = Pages | ToRead | Reading | ToWrite | Writing | Finished

  datatype Slot = Waiting | Active(seg: nat, stage: Stage, readErr: bool, writeErr: bool) | Retired

  datatype Seg = Seg(offset: nat, count: nat)

  /** The master job: running, on the list of completed jobs, or called back. */
  datatype Master = Running | Queued | Called

  datatype Copy = Copy(total: nat, size: nat, sequential: bool, ignore: bool, zero: bool,
                       slots: seq<Slot>, launched: nat, segs: seq<Seg>, progress: nat, subJobs: nat,
                       writeOffset: nat, readErr: bool, writeErr: bool, master: Master, nrJobs: nat,
                       popped: nat,         // segments taken off the io list to be written
                       issued: seq<nat>)    // those of them whose write was issued, in that order

  /** `dm_kcopyd_copy` of a source too large for one job, up to the first sub job. */
  function Start(total: nat, size: nat, sequential: bool, ignore: bool, zero: bool): Copy {
    Copy(total, size, sequential, ignore && !sequential, zero, seq(SPLIT, _ => Waiting), 0, [], 0, SPLIT, 0,
         false, false, Running, 1, 0, [])
  }

  datatype Event =
    | Launch                        // split_job starts the next sub job
    | GetPages(i: nat)
    | StartRead(i: nat)
    | ReadEnds(i: nat, error: bool)
    | PopWrite(i: nat)
    | WriteEnds(i: nat, error: bool)
    | RunComplete(i: nat)           // the worker completes a sub job
    | RunMaster                     // the worker completes the master job: the client's callback

  predicate At(c: Copy, i: nat, stage: Stage) {
    i < |c.slots| && c.slots[i].Active? && c.slots[i].stage == stage && c.slots[i].seg < |c.segs|
  }

  predicate Enabled(c: Copy, e: Event) {
    match e
    case Launch => c.launched < SPLIT && c.launched < |c.slots| && c.subJobs > 0
    case GetPages(i) => At(c, i, Pages)
    case StartRead(i) => At(c, i, ToRead)
    case ReadEnds(i, _) => At(c, i, Reading)
    case PopWrite(i) => At(c, i, ToWrite) && (c.sequential ==> c.segs[c.slots[i].seg].offset == c.writeOffset)
    case WriteEnds(i, _) => At(c, i, Writing)
    case RunComplete(i) => At(c, i, Finished) && c.subJobs > 0 && c.nrJobs > 0
    case RunMaster => c.master == Queued && c.nrJobs > 0
  }

  function Noted(c: Copy, readErr: bool, writeErr: bool): Copy {
    c.(readErr := c.readErr || readErr, writeErr := c.writeErr || writeErr)
  }

  /** There is more to copy, and no error that counts. */
  predicate GoesOn(c: Copy) {
    (!(c.readErr || c.writeErr) || c.ignore) && c.progress < c.total
  }

  /** The sub job gets the next segment. */
  function Taken(c: Copy, i: nat): Copy
    requires i < |c.slots| && c.progress < c.total
  {
    var left := c.total - c.progress;
    var count := if left > c.size then c.size else left;
    c.(progress := c.progress + count, segs := c.segs + [Seg(c.progress, count)], nrJobs := c.nrJobs + 1,
       slots := c.slots[i := Active(|c.segs|, if c.zero then ToWrite else Pages, c.readErr, c.writeErr)])
  }

  /** The sub job is over; the last one queues the master. */
  function Retire(c: Copy, i: nat): Copy
    requires i < |c.slots| && c.subJobs > 0
  {
    c.(slots := c.slots[i := Retired], subJobs := c.subJobs - 1,
       master := if c.subJobs == 1 then Queued else c.master)
  }

  /** `segment_complete`: notes errors, and gives the sub job the next segment or retires it. */
  function SegmentComplete(c: Copy, i: nat, readErr: bool, writeErr: bool): Copy
    requires i < |c.slots| && c.subJobs > 0
  {
    var d := Noted(c, readErr, writeErr);
    if GoesOn(d) then Taken(d, i) else Retire(d, i)
  }

  /** `run_io_job` turns jobs away: a sequential copy goes no further once a write has failed. */
  predicate Refuses(c: Copy) {
    c.sequential && c.writeErr
  }

  /** A job popped to be read, or refused: then it has failed and is over. */
  function ReadStarted(c: Copy, s: Slot): Slot
    requires s.Active?
  {
    if Refuses(c) then s.(readErr := true, writeErr := true, stage := Finished) else s.(stage := Reading)
  }

  function ReadEnded(c: Copy, s: Slot, error: bool): Slot
    requires s.Active?
  {
    s.(readErr := s.readErr || error, stage := if error && !c.ignore then Finished else ToWrite)
  }

  /** A job popped to be written, or refused. */
  function WritePopped(c: Copy, s: Slot): Slot
    requires s.Active?
  {
    if Refuses(c) then s.(writeErr := true, stage := Finished) else s.(stage := Writing)
  }

  function WriteEnded(s: Slot, error: bool): Slot
    requires s.Active?
  {
    s.(writeErr := s.writeErr || error, stage := Finished)
  }

  /** Events that move one sub job from stage to stage and do nothing else. */
  predicate IsMove(e: Event) {
    e.GetPages? || e.StartRead? || e.ReadEnds? || e.WriteEnds?
  }

  function Stepped(c: Copy, e: Event): Slot
    requires IsMove(e) && e.i < |c.slots| && c.slots[e.i].Active?
  {
    var s := c.slots[e.i];
    if e.StartRead? then ReadStarted(c, s)
    else if e.ReadEnds? then ReadEnded(c, s, e.error)
    else if e.WriteEnds? then WriteEnded(s, e.error)
    else s.(stage := ToRead)
  }

  function Next(c: Copy, e: Event): Copy
    requires Enabled(c, e)
  {
    if IsMove(e) then c.(slots := c.slots[e.i := Stepped(c, e)])
    else
      match e
      case Launch => SegmentComplete(c.(launched := c.launched + 1), c.launched, false, false)
      case PopWrite(i) =>
        c.(slots := c.slots[i := WritePopped(c, c.slots[i])],
           writeOffset := if c.sequential then c.writeOffset + c.segs[c.slots[i].seg].count else c.writeOffset,
           popped := c.popped + 1,
           issued := if Refuses(c) then c.issued else c.issued + [c.slots[i].seg])
      case RunComplete(i) =>
        var d := SegmentComplete(c, i, c.slots[i].readErr, c.slots[i].writeErr);
        d.(nrJobs := d.nrJobs - 1)
      case RunMaster => c.(master := Called, nrJobs := c.nrJobs - 1)
  }

  // ---------------------------------------------------------------- counting slots

  function Live(slots: seq<Slot>): nat {
    if |slots| == 0 then 0 else Live(slots[..|slots| - 1]) + (if slots[|slots| - 1].Retired? then 0 else 1)
  }

  function Busy(slots: seq<Slot>): nat {
    if |slots| == 0 then 0 else Busy(slots[..|slots| - 1]) + (if slots[|slots| - 1].Active? then 1 else 0)
  }

  lemma {:induction false} CountsUpdate(slots: seq<Slot>, i: nat, s: Slot)
    requires i < |slots|
    ensures Live(slots[i := s]) == Live(slots) - (if slots[i].Retired? then 0 else 1) + (if s.Retired? then 0 else 1)
    ensures Busy(slots[i := s]) == Busy(slots) - (if slots[i].Active? then 1 else 0) + (if s.Active? then 1 else 0)
  {
    var n := |slots| - 1;
    if i < n {
      CountsUpdate(slots[..n], i, s);
      assert slots[i := s][..n] == slots[..n][i := s] && slots[i := s][n] == slots[n];
    } else {
      assert slots[i := s][..n] == slots[..n];
    }
  }

  lemma {:induction false} NoneLive(slots: seq<Slot>, i: nat)
    requires Live(slots) == 0 && i < |slots|
    ensures slots[i].Retired?
  {
    var n := |slots| - 1;
    if i < n {
      NoneLive(slots[..n], i);
    }
  }

  lemma {:induction false} AllRetired(slots: seq<Slot>)
    requires forall i :: 0 <= i < |slots| ==> slots[i].Retired?
    ensures Live(slots) == 0 && Busy(slots) == 0
  {
    if |slots| > 0 {
      AllRetired(slots[..|slots| - 1]);
    }
  }

  // ---------------------------------------------------------------- segments

  /** Where the k-th segment begins if segments follow each other. */
  function End(segs: seq<Seg>, k: nat): nat
    requires k <= |segs|
  {
    if k == 0 then 0 else segs[k - 1].offset + segs[k - 1].count
  }

  /** The segments follow each other without gap from the start of the source. */
  ghost predicate Contiguous(segs: seq<Seg>) {
    && (forall k :: 0 <= k < |segs| ==> segs[k].count > 0)
    && (forall k {:trigger End(segs, k)} :: 0 <= k < |segs| ==> segs[k].offset == End(segs, k))
  }

  lemma {:induction false} EndGrows(segs: seq<Seg>, j: nat, k: nat)
    requires Contiguous(segs) && j < k <= |segs|
    ensures End(segs, j) < End(segs, k)
    decreases k
  {
    assert segs[k - 1].offset == End(segs, k - 1);
    if j < k - 1 {
      EndGrows(segs, j, k - 1);
    }
  }

  /** Segments are disjoint. */
  lemma Disjoint(segs: seq<Seg>, j: nat, k: nat)
    requires Contiguous(segs) && j < k < |segs|
    ensures segs[j].offset + segs[j].count <= segs[k].offset
  {
    assert segs[k].offset == End(segs, k);
    if j + 1 < k {
      EndGrows(segs, j + 1, k);
    }
    assert End(segs, j + 1) == segs[j].offset + segs[j].count;
  }

  /** And every sector up to where they have got lies in one of them. */
  lemma {:induction false} Cover(segs: seq<Seg>, n: nat, x: nat) returns (k: nat)
    requires Contiguous(segs) && n <= |segs| && x < End(segs, n)
    ensures k < n && segs[k].offset <= x < segs[k].offset + segs[k].count
    decreases n
  {
    assert segs[n - 1].offset == End(segs, n - 1);
    if x >= segs[n - 1].offset {
      k := n - 1;
    } else {
      k := Cover(segs, n - 1, x);
    }
  }

  lemma Append(segs: seq<Seg>, s: Seg)
    requires Contiguous(segs) && s.count > 0 && s.offset == End(segs, |segs|)
    ensures Contiguous(segs + [s]) && End(segs + [s], |segs| + 1) == s.offset + s.count
    ensures forall k :: 0 <= k <= |segs| ==> End(segs + [s], k) == End(segs, k)
  {
    var t := segs + [s];
    forall k {:trigger End(t, k)} | 0 <= k < |t|
      ensures t[k].offset == End(t, k)
    {
      assert k < |segs| ==> segs[k].offset == End(segs, k);
    }
  }

  // ---------------------------------------------------------------- the invariant

  ghost predicate Shaped(c: Copy) {
    && |c.slots| == SPLIT && c.launched <= SPLIT && c.size > 0 && (c.sequential ==> !c.ignore)
    && Contiguous(c.segs) && End(c.segs, |c.segs|) == c.progress <= c.total
  }

  /** Sub jobs are launched in order. */
  ghost predicate Launched(slots: seq<Slot>, n: nat) {
    forall i :: 0 <= i < |slots| ==> (slots[i].Waiting? <==> i >= n)
  }

  /** Each dispatched sub job has a segment of its own. */
  ghost predicate Owned(slots: seq<Slot>, n: nat) {
    && (forall i :: 0 <= i < |slots| && slots[i].Active? ==> slots[i].seg < n)
    && (forall i, j :: 0 <= i < j < |slots| && slots[i].Active? && slots[j].Active? ==> slots[i].seg != slots[j].seg)
  }

  /** The counters are exact, and the master is done when its sub jobs have retired. */
  ghost predicate Counted(c: Copy) {
    && c.subJobs == Live(c.slots) && (c.subJobs == 0 <==> c.master != Running)
    && c.nrJobs == Busy(c.slots) + (if c.master == Called then 0 else 1)
  }

  /** A sub job retires when there is nothing left to do, or after an error that counts. */
  ghost predicate Excused(c: Copy) {
    (exists i :: 0 <= i < |c.slots| && c.slots[i].Retired?) ==>
        c.progress == c.total || ((c.readErr || c.writeErr) && !c.ignore)
  }

  /** Sequential writes have been taken in order: those below `popped` and no others; as long as
      no write has failed, all of them were issued. */
  ghost predicate InOrder(c: Copy) {
    c.sequential ==>
      && c.popped <= |c.segs| && c.writeOffset == End(c.segs, c.popped)
      && |c.issued| <= c.popped && (forall j :: 0 <= j < |c.issued| ==> c.issued[j] == j)
      && (!c.writeErr ==> |c.issued| == c.popped)
      && (forall i :: 0 <= i < |c.slots| && c.slots[i].Active? && c.slots[i].stage != Finished ==>
            (c.slots[i].stage == Writing <==> c.slots[i].seg < c.popped))
  }

  ghost predicate Inv(c: Copy) {
    Shaped(c) && Launched(c.slots, c.launched) && Owned(c.slots, |c.segs|) && Counted(c) && Excused(c) && InOrder(c)
  }

  lemma StartIsGood(total: nat, size: nat, sequential: bool, ignore: bool, zero: bool)
    requires 0 < size < total
    ensures Inv(Start(total, size, sequential, ignore, zero))
  {
    AllWaiting(seq(SPLIT, _ => Waiting));
  }

  lemma {:induction false} AllWaiting(slots: seq<Slot>)
    requires forall i :: 0 <= i < |slots| ==> slots[i].Waiting?
    ensures Live(slots) == |slots| && Busy(slots) == 0
  {
    if |slots| > 0 {
      AllWaiting(slots[..|slots| - 1]);
    }
  }

  /** A sub job goes on with its segment. */
  lemma Moves(c: Copy, i: nat, s: Slot)
    requires Inv(c) && i < SPLIT && c.slots[i].Active? && s.Active? && s.seg == c.slots[i].seg
    ensures Shaped(c.(slots := c.slots[i := s])) && Owned(c.slots[i := s], |c.segs|) &&
            Launched(c.slots[i := s], c.launched)
    ensures Counted(c.(slots := c.slots[i := s])) && Excused(c.(slots := c.slots[i := s]))
  {
    CountsUpdate(c.slots, i, s);
  }

  /** What holds when a sub job that is new, or has finished, asks for a segment. */
  ghost predicate Asking(c: Copy, i: nat) {
    && Shaped(c) && Owned(c.slots, |c.segs|) && Excused(c) && InOrder(c) && i < SPLIT && c.subJobs > 0
    && (c.slots[i].Waiting? || (c.slots[i].Active? && c.slots[i].stage == Finished))
  }

  /** Everything but the counters. */
  ghost predicate Settled(c: Copy) {
    Shaped(c) && Owned(c.slots, |c.segs|) && Excused(c) && InOrder(c)
  }

  lemma Takes(c: Copy, i: nat)
    requires Asking(c, i) && GoesOn(c)
    ensures Settled(Taken(c, i))
  {
    var left := c.total - c.progress;
    Append(c.segs, Seg(c.progress, if left > c.size then c.size else left));
    assert forall j :: 0 <= j < SPLIT && c.slots[j].Retired? ==>
           c.progress == c.total || ((c.readErr || c.writeErr) && !c.ignore);
  }

  lemma Retires(c: Copy, i: nat)
    requires Asking(c, i) && !GoesOn(c)
    ensures Settled(Retire(c, i))
  {
  }

  /** Noting an error keeps everything. */
  lemma Notes(c: Copy, i: nat, readErr: bool, writeErr: bool)
    requires Asking(c, i)
    ensures Asking(Noted(c, readErr, writeErr), i)
  {
  }

  lemma SegmentKeeps(c: Copy, i: nat, readErr: bool, writeErr: bool) returns (d: Copy)
    requires Asking(c, i)
    ensures d == SegmentComplete(c, i, readErr, writeErr) && Settled(d)
    ensures d.launched == c.launched && !d.slots[i].Waiting? && d.slots == c.slots[i := d.slots[i]]
  {
    var n := Noted(c, readErr, writeErr);
    Notes(c, i, readErr, writeErr);
    if GoesOn(n) {
      Takes(n, i);
      d := Taken(n, i);
    } else {
      Retires(n, i);
      d := Retire(n, i);
    }
  }

  lemma TakenCounts(c: Copy, i: nat)
    requires i < |c.slots| && !c.slots[i].Retired? && c.progress < c.total && c.subJobs == Live(c.slots)
    ensures var d := Taken(c, i);
            d.subJobs == Live(d.slots) && d.nrJobs - Busy(d.slots) == c.nrJobs - Busy(c.slots) + Bit(c.slots[i].Active?)
  {
    CountsUpdate(c.slots, i, Taken(c, i).slots[i]);
  }

  lemma RetireCounts(c: Copy, i: nat)
    requires i < |c.slots| && !c.slots[i].Retired? && c.subJobs == Live(c.slots) && c.subJobs > 0
    ensures var d := Retire(c, i);
            d.subJobs == Live(d.slots) && d.nrJobs - Busy(d.slots) == c.nrJobs - Busy(c.slots) + Bit(c.slots[i].Active?)
  {
    CountsUpdate(c.slots, i, Retired);
  }

  lemma SegmentCounts(c: Copy, i: nat, readErr: bool, writeErr: bool, d: Copy)
    requires i < |c.slots| && c.subJobs > 0 && !c.slots[i].Retired? && d == SegmentComplete(c, i, readErr, writeErr)
    requires c.subJobs == Live(c.slots) && c.master == Running && c.nrJobs == Busy(c.slots) + 1
    ensures d.subJobs == Live(d.slots) && (d.subJobs == 0 <==> d.master != Running) && d.master != Called
    ensures d.nrJobs == Busy(d.slots) + 1 + Bit(c.slots[i].Active?)
  {
    var n := Noted(c, readErr, writeErr);
    if GoesOn(n) {
      TakenCounts(n, i);
    } else {
      RetireCounts(n, i);
    }
  }

  lemma Assembled(d: Copy)
    requires Settled(d) && Launched(d.slots, d.launched)
    requires d.subJobs == Live(d.slots) && (d.subJobs == 0 <==> d.master != Running) && d.master != Called
    ensures d.nrJobs == Busy(d.slots) + 1 ==> Inv(d)
    ensures d.nrJobs == Busy(d.slots) + 2 ==> Inv(d.(nrJobs := d.nrJobs - 1))
  {
  }

  lemma LaunchKeeps(c: Copy)
    requires Inv(c) && Enabled(c, Launch)
    ensures Inv(Next(c, Launch))
  {
    var b := c.(launched := c.launched + 1);
    var d := SegmentKeeps(b, c.launched, false, false);
    SegmentCounts(b, c.launched, false, false, d);
    Assembled(d);
  }

  lemma SubJobCompletes(c: Copy, i: nat, readErr: bool, writeErr: bool) returns (d: Copy)
    requires Inv(c) && At(c, i, Finished) && c.master == Running && c.subJobs > 0
    ensures d == SegmentComplete(c, i, readErr, writeErr) && d.nrJobs > 0 && Inv(d.(nrJobs := d.nrJobs - 1))
  {
    d := SegmentKeeps(c, i, readErr, writeErr);
    SegmentCounts(c, i, readErr, writeErr, d);
    Assembled(d);
  }

  lemma CompleteKeeps(c: Copy, i: nat)
    requires Inv(c) && Enabled(c, RunComplete(i))
    ensures Inv(Next(c, RunComplete(i)))
  {
    var d := SubJobCompletes(c, i, c.slots[i].readErr, c.slots[i].writeErr);
  }

  lemma MoveKeeps(c: Copy, i: nat, s: Slot)
    requires Inv(c) && i < SPLIT && c.slots[i].Active? && s.Active? && s.seg == c.slots[i].seg
    requires s.stage == Finished || (c.slots[i].stage != Finished &&
                                     (s.stage == Writing <==> c.slots[i].stage == Writing))
    ensures Inv(c.(slots := c.slots[i := s]))
  {
    Moves(c, i, s);
  }

  /** A sequential write is taken only when it is the next one. */
  lemma PopIsNext(c: Copy, i: nat)
    requires Inv(c) && Enabled(c, PopWrite(i)) && c.sequential
    ensures c.slots[i].seg == c.popped
  {
    var k := c.slots[i].seg;
    assert c.segs[k].offset == End(c.segs, k);
    if k > c.popped {
      EndGrows(c.segs, c.popped, k);
    }
  }

  lemma PopKeeps(c: Copy, i: nat)
    requires Inv(c) && Enabled(c, PopWrite(i))
    ensures Inv(Next(c, PopWrite(i)))
  {
    var d := Next(c, PopWrite(i));
    Moves(c, i, d.slots[i]);
    if c.sequential {
      PopIsNext(c, i);
      assert End(c.segs, c.popped + 1) == c.writeOffset + c.segs[c.popped].count;
    }
  }

  /** Every event keeps the invariant. */
  lemma NextKeeps(c: Copy, e: Event)
    requires Inv(c) && Enabled(c, e)
    ensures Inv(Next(c, e))
  {
    if IsMove(e) {
      MoveKeeps(c, e.i, Stepped(c, e));
    } else {
      match e
      case Launch => LaunchKeeps(c);
      case PopWrite(i) => PopKeeps(c, i);
      case RunComplete(i) => CompleteKeeps(c, i);
      case RunMaster =>
    }
  }
}
