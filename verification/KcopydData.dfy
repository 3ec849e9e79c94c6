/** What a callback of dm-kcopyd without an error tells: every segment of the source has been read and,
    after that, written.
 */
module KcopydData {
  import opened Kcopyd
  import opened KcopydRuns

  /** A sub job is at work on a segment. */
  predicate Has(c: Copy, i: nat, s: nat) {
    i < |c.slots| && c.slots[i].Active? && c.slots[i].seg == s
  }

  predicate MayWrite(stage: Stage) {
    stage == ToWrite || stage == Writing
  }

  /** The k-th event ended a read, or a write, of a segment by a sub job. */
  ghost predicate Reads(cs: seq<Copy>, es: seq<Event>, k: nat, i: nat, s: nat) {
    k < |es| && k < |cs| && es[k].ReadEnds? && es[k].i == i && Has(cs[k], i, s)
  }

  ghost predicate Writes(cs: seq<Copy>, es: seq<Event>, k: nat, i: nat, s: nat) {
    k < |es| && k < |cs| && es[k].WriteEnds? && es[k].i == i && Has(cs[k], i, s)
  }

  /** The slot an event is about. */
  function Actor(c: Copy, e: Event): nat {
    match e
    case Launch => c.launched
    case RunMaster => |c.slots|
    case GetPages(i) => i
    case StartRead(i) => i
    case ReadEnds(i, _) => i
    case PopWrite(i) => i
    case WriteEnds(i, _) => i
    case RunComplete(i) => i
  }

  lemma SegmentSlot(c: Copy, i: nat, readErr: bool, writeErr: bool, d: Copy)
    requires i < |c.slots| && c.subJobs > 0 && d == SegmentComplete(c, i, readErr, writeErr)
    ensures |d.slots| == |c.slots| && d.slots == c.slots[i := d.slots[i]]
    ensures !d.slots[i].Waiting? && (d.slots[i].Active? ==> d.slots[i].stage == if c.zero then ToWrite else Pages)
    ensures |c.segs| <= |d.segs| <= |c.segs| + 1
    ensures |d.segs| > |c.segs| ==> d.slots[i].Active? && d.slots[i].seg == |c.segs|
    ensures d.segs == c.segs || d.segs == c.segs + [NextSeg(c)]
    ensures d.readErr == (c.readErr || readErr) && d.writeErr == (c.writeErr || writeErr)
  {
  }

  /** One slot differs. */
  ghost predicate Others(c: Copy, d: Copy, i: nat) {
    |d.slots| == |c.slots| && forall j :: 0 <= j < |c.slots| && j != i ==> d.slots[j] == c.slots[j]
  }

  /** A sub job has got the next segment, if there was one to get. */
  ghost predicate Served(c: Copy, d: Copy, i: nat) {
    && i < |c.slots| && Others(c, d, i) && |c.segs| <= |d.segs| <= |c.segs| + 1
    && (d.slots[i].Active? ==> d.slots[i].stage == if c.zero then ToWrite else Pages)
    && (|d.segs| > |c.segs| ==> d.slots[i].Active? && d.slots[i].seg == |c.segs|)
    && (d.segs == c.segs || d.segs == c.segs + [NextSeg(c)])
  }

  /** The next segment of the source: of the size asked for, or what is left. */
  function NextSeg(c: Copy): Seg {
    Seg(c.progress, if c.progress + c.size < c.total then c.size
                    else if c.progress < c.total then c.total - c.progress else 0)
  }

  lemma LaunchEffect(c: Copy, d: Copy)
    requires Enabled(c, Launch) && d == Next(c, Launch)
    ensures Served(c, d, c.launched) && d.readErr == c.readErr && d.writeErr == c.writeErr
  {
    var a := c.(launched := c.launched + 1);
    SegmentSlot(a, c.launched, false, false, d);
  }

  lemma CompleteEffect(c: Copy, i: nat, d: Copy)
    requires Enabled(c, RunComplete(i)) && d == Next(c, RunComplete(i))
    ensures Served(c, d, i)
    ensures d.readErr == (c.readErr || c.slots[i].readErr) && d.writeErr == (c.writeErr || c.slots[i].writeErr)
  {
    SegmentSlot(c, i, c.slots[i].readErr, c.slots[i].writeErr,
                SegmentComplete(c, i, c.slots[i].readErr, c.slots[i].writeErr));
  }

  lemma MoveEffect(c: Copy, e: Event, d: Copy)
    requires IsMove(e) && Enabled(c, e) && d == Next(c, e)
    ensures d == c.(slots := c.slots[e.i := Stepped(c, e)])
  {
  }

  lemma PopEffect(c: Copy, i: nat, d: Copy)
    requires Enabled(c, PopWrite(i)) && d == Next(c, PopWrite(i))
    ensures d.slots == c.slots[i := WritePopped(c, c.slots[i])]
    ensures d.segs == c.segs && d.readErr == c.readErr && d.writeErr == c.writeErr
  {
  }

  /** What an event does to the slots, the segments and the errors on record. */
  lemma Effect(c: Copy, e: Event, d: Copy)
    requires Enabled(c, e) && d == Next(c, e)
    ensures Others(c, d, Actor(c, e))
    ensures IsMove(e) ==> d.slots[e.i] == Stepped(c, e)
    ensures e.PopWrite? ==> d.slots[e.i] == WritePopped(c, c.slots[e.i])
    ensures e.Launch? || e.RunComplete? ==> Served(c, d, Actor(c, e))
    ensures !(e.Launch? || e.RunComplete?) ==> d.segs == c.segs
    ensures d.readErr == (c.readErr || (e.RunComplete? && c.slots[e.i].readErr))
    ensures d.writeErr == (c.writeErr || (e.RunComplete? && c.slots[e.i].writeErr))
  {
    if IsMove(e) {
      MoveEffect(c, e, d);
    } else if e.Launch? {
      LaunchEffect(c, d);
    } else if e.RunComplete? {
      CompleteEffect(c, e.i, d);
    } else if e.PopWrite? {
      PopEffect(c, e.i, d);
    }
  }

  /** How a sub job comes to the point of writing: it was there, or a read has ended, or nothing is read. */
  lemma ComesToWrite(c: Copy, e: Event, d: Copy, i: nat)
    requires Enabled(c, e) && d == Next(c, e) && i < |d.slots| && d.slots[i].Active?
    requires MayWrite(d.slots[i].stage) && !c.zero
    ensures Has(c, i, d.slots[i].seg)
    ensures MayWrite(c.slots[i].stage) || (e.ReadEnds? && e.i == i && (!e.error || c.ignore))
    ensures c.slots[i].readErr ==> d.slots[i].readErr
    ensures e.ReadEnds? && e.i == i && e.error ==> d.slots[i].readErr
  {
    Effect(c, e, d);
  }

  /** Whatever is written has been read before. */
  lemma {:induction false} ReadBefore(cs: seq<Copy>, es: seq<Event>, k: nat, i: nat) returns (j: nat)
    requires IsRun(cs, es) && k < |cs| && (forall i :: 0 <= i < |cs[0].slots| ==> cs[0].slots[i].Waiting?)
    requires i < |cs[k].slots| && cs[k].slots[i].Active? && MayWrite(cs[k].slots[i].stage) && !cs[0].zero
    ensures j < k && Reads(cs, es, j, i, cs[k].slots[i].seg)
    ensures !cs[k].slots[i].readErr ==> !es[j].error
    ensures es[j].error ==> cs[0].ignore
    decreases k
  {
    j := 0;
    if k > 0 {
      RunAsked(cs, es, k - 1);
      assert Enabled(cs[k - 1], es[k - 1]) && cs[k] == Next(cs[k - 1], es[k - 1]);
      ComesToWrite(cs[k - 1], es[k - 1], cs[k], i);
      if MayWrite(cs[k - 1].slots[i].stage) {
        j := ReadBefore(cs, es, k - 1, i);
      } else {
        j := k - 1;
      }
    }
  }

  /** How a sub job comes to be finished without an error: it was, or its write has ended well. */
  lemma ComesToEnd(c: Copy, e: Event, d: Copy, i: nat)
    requires Enabled(c, e) && d == Next(c, e) && i < |d.slots| && d.slots[i].Active?
    requires d.slots[i].stage == Finished && !d.slots[i].readErr && !d.slots[i].writeErr
    ensures Has(c, i, d.slots[i].seg) && !c.slots[i].readErr && !c.slots[i].writeErr
    ensures c.slots[i].stage == Finished || (e.WriteEnds? && e.i == i && !e.error && c.slots[i].stage == Writing)
  {
    Effect(c, e, d);
  }

  lemma {:induction false} WrittenBefore(cs: seq<Copy>, es: seq<Event>, k: nat, i: nat) returns (j: nat)
    requires IsRun(cs, es) && k < |cs| && (forall i :: 0 <= i < |cs[0].slots| ==> cs[0].slots[i].Waiting?)
    requires i < |cs[k].slots| && cs[k].slots[i].Active? && cs[k].slots[i].stage == Finished
    requires !cs[k].slots[i].readErr && !cs[k].slots[i].writeErr
    ensures j < k && Writes(cs, es, j, i, cs[k].slots[i].seg) && !es[j].error
    ensures cs[j].slots[i].stage == Writing && !cs[j].slots[i].readErr
    decreases k
  {
    j := 0;
    if k > 0 {
      assert Enabled(cs[k - 1], es[k - 1]) && cs[k] == Next(cs[k - 1], es[k - 1]);
      ComesToEnd(cs[k - 1], es[k - 1], cs[k], i);
      if cs[k - 1].slots[i].stage == Finished {
        j := WrittenBefore(cs, es, k - 1, i);
      } else {
        j := k - 1;
      }
    }
  }

  ghost predicate ErrorsGrow(c: Copy, d: Copy) {
    (c.readErr ==> d.readErr) && (c.writeErr ==> d.writeErr)
  }

  lemma ErrorStep(c: Copy, e: Event, d: Copy)
    requires Enabled(c, e) && d == Next(c, e)
    ensures ErrorsGrow(c, d)
  {
    Effect(c, e, d);
  }

  /** The errors of a segment completed are with the master, and stay there. */
  lemma ErrorsKept(cs: seq<Copy>, es: seq<Event>, j: nat, k: nat)
    requires IsRun(cs, es) && j <= k < |cs|
    ensures ErrorsGrow(cs[j], cs[k])
  {
    forall m | j <= m < k
      ensures ErrorsGrow(cs[m], cs[m + 1])
    {
      ErrorStep(cs[m], es[m], cs[m + 1]);
    }
    GrowThroughout(cs, j, k);
  }

  lemma {:induction false} GrowThroughout(cs: seq<Copy>, j: nat, k: nat)
    requires j <= k < |cs| && forall m :: j <= m < k ==> ErrorsGrow(cs[m], cs[m + 1])
    ensures ErrorsGrow(cs[j], cs[k])
    decreases k
  {
    if j < k {
      GrowThroughout(cs, j, k - 1);
      assert ErrorsGrow(cs[k - 1], cs[k - 1 + 1]);
    }
  }

  /** A segment stays with its sub job until that completes it. */
  lemma StaysOrCompletes(c: Copy, e: Event, d: Copy, i: nat, s: nat)
    requires Inv(c) && Enabled(c, e) && d == Next(c, e) && Has(c, i, s)
    ensures Has(d, i, s) || (e == RunComplete(i) && c.slots[i].stage == Finished)
  {
    Effect(c, e, d);
  }

  /** A new segment goes to a sub job. */
  lemma NewIsHad(c: Copy, e: Event, d: Copy, s: nat)
    requires Enabled(c, e) && d == Next(c, e) && |c.segs| <= s < |d.segs|
    ensures Has(d, Actor(c, e), s)
  {
    Effect(c, e, d);
  }

  /** Every segment handed out is with a sub job, or one has completed it. */
  lemma {:induction false} HadOrDone(cs: seq<Copy>, es: seq<Event>, k: nat, s: nat) returns (j: nat, i: nat)
    requires IsRun(cs, es) && Inv(cs[0]) && cs[0].segs == [] && k < |cs| && s < |cs[k].segs|
    ensures j <= k && Has(cs[j], i, s)
    ensures j < k ==> es[j] == RunComplete(i) && cs[j].slots[i].stage == Finished
    decreases k
  {
    j, i := 0, 0;
    if k > 0 {
      StepAt(cs, es, k - 1);
      if s < |cs[k - 1].segs| {
        j, i := HadOrDone(cs, es, k - 1, s);
        if j == k - 1 {
          StaysOrCompletes(cs[k - 1], es[k - 1], cs[k], i, s);
          if Has(cs[k], i, s) {
            j := k;
          }
        }
      } else {
        NewIsHad(cs[k - 1], es[k - 1], cs[k], s);
        j, i := k, Actor(cs[k - 1], es[k - 1]);
      }
    }
  }

  lemma StepAt(cs: seq<Copy>, es: seq<Event>, k: nat)
    requires IsRun(cs, es) && Inv(cs[0]) && k < |es|
    ensures Inv(cs[k]) && Enabled(cs[k], es[k]) && cs[k + 1] == Next(cs[k], es[k])
  {
    RunKeeps(cs, es, k);
  }

  /** A callback without an error: every segment has been written by a sub job, which had read it before
      unless it only writes zeroes. */
  lemma CopiesAll(cs: seq<Copy>, es: seq<Event>, total: nat, size: nat, sequential: bool, ignore: bool, zero: bool,
                  s: nat)
    returns (i: nat, rd: nat, wr: nat)
    requires 0 < size < total && IsRun(cs, es) && cs[0] == Start(total, size, sequential, ignore, zero)
    requires cs[|es|].master == Called && !cs[|es|].readErr && !cs[|es|].writeErr && s < |cs[|es|].segs|
    ensures Writes(cs, es, wr, i, s) && !es[wr].error
    ensures !zero ==> rd < wr && Reads(cs, es, rd, i, s) && !es[rd].error
  {
    StartIsGood(total, size, sequential, ignore, zero);
    RunKeeps(cs, es, |es|);
    NoJobsMeansCalled(cs[|es|]);
    var j;
    j, i := HadOrDone(cs, es, |es|, s);
    assert j < |es|;
    assert Enabled(cs[j], es[j]) && cs[j + 1] == Next(cs[j], es[j]);
    Effect(cs[j], es[j], cs[j + 1]);
    ErrorsKept(cs, es, j + 1, |es|);
    wr := WrittenBefore(cs, es, j, i);
    rd := 0;
    if !zero {
      rd := ReadBefore(cs, es, wr, i);
    }
  }

  /** So every sector of the source lies in a segment that has been copied. */
  lemma CopiesSector(cs: seq<Copy>, es: seq<Event>, total: nat, size: nat, sequential: bool, ignore: bool, zero: bool,
                     x: nat)
    returns (s: nat, i: nat, rd: nat, wr: nat)
    requires 0 < size < total && IsRun(cs, es) && cs[0] == Start(total, size, sequential, ignore, zero)
    requires cs[|es|].master == Called && !cs[|es|].readErr && !cs[|es|].writeErr && x < total
    ensures s < |cs[|es|].segs|
    ensures cs[|es|].segs[s].offset <= x < cs[|es|].segs[s].offset + cs[|es|].segs[s].count
    ensures Writes(cs, es, wr, i, s) && !es[wr].error
    ensures !zero ==> rd < wr && Reads(cs, es, rd, i, s) && !es[rd].error
  {
    StartIsGood(total, size, sequential, ignore, zero);
    var c := cs[|es|];
    RunKeeps(cs, es, |es|);
    RunAsked(cs, es, |es|);
    NoJobsMeansCalled(c);
    assert c.slots[0].Retired?;
    s := Cover(c.segs, |c.segs|, x);
    i, rd, wr := CopiesAll(cs, es, total, size, sequential, ignore, zero, s);
  }

  /** Every segment is of the size asked for, but for the last of the source. */
  ghost predicate Sized(c: Copy) {
    forall s :: 0 <= s < |c.segs| ==>
      c.segs[s].count == if c.segs[s].offset + c.size < c.total then c.size else c.total - c.segs[s].offset
  }

  ghost predicate SizedInv(c: Copy) {
    Inv(c) && Sized(c)
  }

  lemma SizedStep(c: Copy, e: Event, d: Copy)
    requires SizedInv(c) && Enabled(c, e) && d == Next(c, e)
    ensures SizedInv(d)
  {
    NextKeeps(c, e);
    Effect(c, e, d);
    AskedStays(c, e);
    NewSized(c, d);
  }

  lemma NewSized(c: Copy, d: Copy)
    requires Sized(c) && d.size == c.size && d.total == c.total && Shaped(d)
    requires d.segs == c.segs || d.segs == c.segs + [NextSeg(c)]
    ensures Sized(d)
  {
    forall s | 0 <= s < |d.segs|
      ensures d.segs[s].count == if d.segs[s].offset + d.size < d.total then d.size else d.total - d.segs[s].offset
    {
      assert d.segs[s].count > 0;
      assert s < |c.segs| ==> d.segs[s] == c.segs[s];
    }
  }

  /** In every run. */
  lemma {:induction false} SegmentSizes(cs: seq<Copy>, es: seq<Event>, total: nat, size: nat, sequential: bool,
                                        ignore: bool, zero: bool, k: nat)
    requires 0 < size < total && IsRun(cs, es) && cs[0] == Start(total, size, sequential, ignore, zero) && k < |cs|
    ensures SizedInv(cs[k])
  {
    StartIsGood(total, size, sequential, ignore, zero);
    if k > 0 {
      SegmentSizes(cs, es, total, size, sequential, ignore, zero, k - 1);
      assert Enabled(cs[k - 1], es[k - 1]) && cs[k] == Next(cs[k - 1], es[k - 1]);
      SizedStep(cs[k - 1], es[k - 1], cs[k]);
    }
  }
}
