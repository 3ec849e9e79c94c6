/** What a crash leaves behind, seen through the commit ids alone.

    Sections are numbered along the log rather than around the ring: window index k in
    0..S is the section that last filled the k-th slot counted from the commit position p,
    and window index S + t is the t-th section of the commit that was in flight.  Both
    occupy the same slot, one pass apart, and each sector holds one or the other.
 */
module ReplayWindow {
  import opened CommitIds
  import opened JournalReplay

  /** The ring slot of a window index. */
  function Slot(p: nat, k: nat, S: nat): nat
    requires p < S && k <= 2 * S
  {
    if p + k < S then p + k else if p + k < 2 * S then p + k - S else p + k - 2 * S
  }

  /** The sequence number stamped on a window index, when the commit position carries s. */
  function Stamp(p: nat, s: CommitSeq, k: nat, S: nat): CommitSeq
    requires p < S && k <= 2 * S
  {
    if p + k < S then Prev(s) else if p + k < 2 * S then s else Next(s)
  }

  ghost predicate AnyNew(persisted: seq<seq<bool>>, t: int) {
    0 <= t < |persisted| && true in persisted[t]
  }

  ghost predicate AllNew(persisted: seq<seq<bool>>, t: int) {
    0 <= t < |persisted| && false !in persisted[t]
  }

  /** a is one past the last section of the in-flight commit with a sector on disk. */
  ghost predicate IsFrontier(persisted: seq<seq<bool>>, a: nat) {
    && a <= |persisted|
    && (a > 0 ==> AnyNew(persisted, a - 1))
    && forall t :: a <= t ==> !AnyNew(persisted, t)
  }

  /** n leading sections of the in-flight commit are entirely on disk, and no more. */
  ghost predicate IsFullPrefix(persisted: seq<seq<bool>>, n: nat) {
    && n <= |persisted|
    && (forall t :: 0 <= t < n ==> AllNew(persisted, t))
    && !AllNew(persisted, n)
  }

  lemma FrontierExists(persisted: seq<seq<bool>>, n: nat) returns (a: nat)
    requires n <= |persisted| && forall t :: n <= t ==> !AnyNew(persisted, t)
    ensures IsFrontier(persisted, a)
  {
    if n == 0 || AnyNew(persisted, n - 1) {
      a := n;
    } else {
      a := FrontierExists(persisted, n - 1);
    }
  }

  lemma FullPrefixExists(persisted: seq<seq<bool>>, t: nat) returns (n: nat)
    requires t <= |persisted| && forall t' :: 0 <= t' < t ==> AllNew(persisted, t')
    ensures IsFullPrefix(persisted, n)
    decreases |persisted| - t
  {
    if AllNew(persisted, t) {
      n := FullPrefixExists(persisted, t + 1);
    } else {
      n := t;
    }
  }

  /** The sequence numbers found after a crash that let any subset of the in-flight commit
      reach the disk. */
  ghost predicate CrashGrid(g: seq<seq<int>>, p: nat, s: CommitSeq, persisted: seq<seq<bool>>) {
    var S := |g|;
    && p < S
    && |persisted| <= S
    && (forall t :: 0 <= t < S ==> |g[Slot(p, t, S)]| > 0)
    && (forall t :: 0 <= t < |persisted| ==> |persisted[t]| == |g[Slot(p, t, S)]|)
    && (forall t, j :: 0 <= t < S && 0 <= j < |g[Slot(p, t, S)]| ==>
          g[Slot(p, t, S)][j] == Stamp(p, s, if t < |persisted| && persisted[t][j] then S + t else t, S))
  }

  /** The window offset occupying a slot. */
  function Offset(p: nat, i: nat, S: nat): (t: nat)
    requires p < S && i < S
    ensures t < S && Slot(p, t, S) == i
  {
    if i >= p then i - p else i + S - p
  }

  /** Offset t shows number k: an old sector is left, or a new one has arrived. */
  ghost predicate Shows(p: nat, s: CommitSeq, persisted: seq<seq<bool>>, S: nat, t: nat, k: int)
    requires p < S && t < S
  {
    || (k == Stamp(p, s, t, S) && !AllNew(persisted, t))
    || (k == Stamp(p, s, S + t, S) && AnyNew(persisted, t))
  }

  lemma AllIsAny(g: seq<seq<int>>, p: nat, s: CommitSeq, persisted: seq<seq<bool>>, t: nat)
    requires CrashGrid(g, p, s, persisted) && AllNew(persisted, t)
    ensures AnyNew(persisted, t)
  {
    assert |persisted[t]| == |g[Slot(p, t, |g|)]|;
    assert persisted[t][0] in persisted[t];
  }

  lemma RowHas(g: seq<seq<int>>, p: nat, s: CommitSeq, persisted: seq<seq<bool>>, t: nat, k: int)
    requires CrashGrid(g, p, s, persisted) && t < |g|
    ensures k in g[Slot(p, t, |g|)] <==> Shows(p, s, persisted, |g|, t, k)
  {
    var S := |g|;
    var row := g[Slot(p, t, S)];
    assert row[0] in row;
    if t < |persisted| {
      if j :| 0 <= j < |row| && persisted[t][j] { assert row[j] == Stamp(p, s, S + t, S); }
      if j :| 0 <= j < |row| && !persisted[t][j] { assert row[j] == Stamp(p, s, t, S); }
    }
  }

  lemma RowUniform(g: seq<seq<int>>, p: nat, s: CommitSeq, persisted: seq<seq<bool>>, t: nat, k: int)
    requires CrashGrid(g, p, s, persisted) && t < |g|
    ensures Uniform(g[Slot(p, t, |g|)], k) <==>
            || (k == Stamp(p, s, t, |g|) && !AnyNew(persisted, t))
            || (k == Stamp(p, s, |g| + t, |g|) && AllNew(persisted, t))
  {
    var S := |g|;
    var row := g[Slot(p, t, S)];
    if Uniform(row, k) {
      assert row[0] == k;
      if t < |persisted| {
        assert forall j :: 0 <= j < |row| ==> persisted[t][j] == persisted[t][0];
      }
    }
  }

  /** A sequence number occurs on the ring exactly when some section shows it. */
  lemma UsedNumbers(g: seq<seq<int>>, p: nat, s: CommitSeq, persisted: seq<seq<bool>>, k: int)
    requires CrashGrid(g, p, s, persisted)
    ensures Used(g, k) <==> exists t :: 0 <= t < |g| && Shows(p, s, persisted, |g|, t, k)
  {
    var S := |g|;
    if Used(g, k) {
      var i :| 0 <= i < S && k in g[i];
      RowHas(g, p, s, persisted, Offset(p, i, S), k);
    }
    if t :| 0 <= t < S && Shows(p, s, persisted, S, t, k) {
      RowHas(g, p, s, persisted, t, k);
      assert k in g[Slot(p, t, S)];
    }
  }

  lemma LastWithIs(g: seq<seq<int>>, k: int, n: nat, i: nat)
    requires i < n <= |g| && k in g[i]
    requires forall i' :: i < i' < n ==> k !in g[i']
    ensures LastWith(g, k, n) == i
  {
    if n - 1 != i {
      LastWithIs(g, k, n - 1, i);
    }
  }

  /** The ring shows the old pass and the one after next but nothing in between: the whole
      ring was in flight and only its wrapped part reached the disk. */
  ghost predicate Gap(g: seq<seq<int>>, s: CommitSeq) {
    Used(g, Prev(s)) && !Used(g, s) && Used(g, Next(s))
  }

  /** A gap means nothing of the old contents is needed and nothing of the new is complete. */
  lemma GapMeansNothing(g: seq<seq<int>>, p: nat, s: CommitSeq, persisted: seq<seq<bool>>)
    requires CrashGrid(g, p, s, persisted) && Gap(g, s)
    ensures |persisted| == |g| && IsFullPrefix(persisted, 0)
  {
    var S := |g|;
    UsedNumbers(g, p, s, persisted, Next(s));
    UsedNumbers(g, p, s, persisted, s);
    assert !Shows(p, s, persisted, S, 0, s);
    assert !Shows(p, s, persisted, S, S - 1, s);
    if AllNew(persisted, 0) {
      AllIsAny(g, p, s, persisted, 0);
    }
  }

  /** Whichever of the at most three consecutive numbers occur, the choice of the unused
      number points at the newest of them, unless there is a gap. */
  lemma NewestNumber(used: seq<bool>, s: CommitSeq, top: CommitSeq)
    requires |used| == N_COMMIT_IDS && !used[Next(Next(s))] && used[top]
    requires
      || (top == Next(s) && (used[s] || !used[Prev(s)]))
      || (top == s && !used[Next(s)])
      || (top == Prev(s) && !used[s] && !used[Next(s)])
    ensures Unused(used) < N_COMMIT_IDS && Prev(Unused(used)) == top
  {
    assert s == 0 || s == 1 || s == 2 || s == 3;
  }

  lemma OnlyThreeNumbers(g: seq<seq<int>>, p: nat, s: CommitSeq, persisted: seq<seq<bool>>)
    requires CrashGrid(g, p, s, persisted)
    ensures !Used(g, -1) && !Used(g, Next(Next(s)))
  {
    UsedNumbers(g, p, s, persisted, -1);
    UsedNumbers(g, p, s, persisted, Next(Next(s)));
  }

  /** With frontier a, the newest section on disk is window index S + a - 1.  Its slot shows
      its number, no slot after it in the ring does, and no slot at all shows a later one. */
  lemma TopIsNewest(p: nat, s: CommitSeq, persisted: seq<seq<bool>>, S: nat, a: nat, t: nat)
    requires p < S && |persisted| <= S && t < S && IsFrontier(persisted, a)
    requires AllNew(persisted, S - 1) ==> AnyNew(persisted, S - 1)
    ensures var top := Stamp(p, s, S + a - 1, S);
            && Shows(p, s, persisted, S, if a == 0 then S - 1 else a - 1, top)
            && (Slot(p, t, S) > Slot(p, S + a - 1, S) ==> !Shows(p, s, persisted, S, t, top))
            && (top == s ==> !Shows(p, s, persisted, S, t, Next(s)))
            && (top == Prev(s) ==> !Shows(p, s, persisted, S, t, s) && !Shows(p, s, persisted, S, t, Next(s)))
  {
    assert t >= a ==> !AnyNew(persisted, t);
  }

  /** The newest number occurs on the ring, and no later one does. */
  lemma NewestOccurs(g: seq<seq<int>>, p: nat, s: CommitSeq, persisted: seq<seq<bool>>, a: nat)
    requires CrashGrid(g, p, s, persisted) && IsFrontier(persisted, a)
    ensures var top := Stamp(p, s, |g| + a - 1, |g|);
            && Used(g, top)
            && (top == s ==> !Used(g, Next(s)))
            && (top == Prev(s) ==> !Used(g, s) && !Used(g, Next(s)))
  {
    var S := |g|;
    var top := Stamp(p, s, S + a - 1, S);
    if AllNew(persisted, S - 1) {
      AllIsAny(g, p, s, persisted, S - 1);
    }
    forall t | 0 <= t < S
      ensures && (top == s ==> !Shows(p, s, persisted, S, t, Next(s)))
              && (top == Prev(s) ==> !Shows(p, s, persisted, S, t, s) && !Shows(p, s, persisted, S, t, Next(s)))
    {
      TopIsNewest(p, s, persisted, S, a, t);
    }
    TopIsNewest(p, s, persisted, S, a, 0);
    UsedNumbers(g, p, s, persisted, top);
    UsedNumbers(g, p, s, persisted, s);
    UsedNumbers(g, p, s, persisted, Next(s));
  }

  lemma NoneAfterNewest(g: seq<seq<int>>, p: nat, s: CommitSeq, persisted: seq<seq<bool>>, a: nat, i: nat)
    requires CrashGrid(g, p, s, persisted) && IsFrontier(persisted, a)
    requires Slot(p, |g| + a - 1, |g|) < i < |g|
    ensures Stamp(p, s, |g| + a - 1, |g|) !in g[i]
  {
    var S := |g|;
    var t := Offset(p, i, S);
    if AllNew(persisted, S - 1) {
      AllIsAny(g, p, s, persisted, S - 1);
    }
    TopIsNewest(p, s, persisted, S, a, t);
    RowHas(g, p, s, persisted, t, Stamp(p, s, S + a - 1, S));
  }

  lemma NewestCarriesIt(g: seq<seq<int>>, p: nat, s: CommitSeq, persisted: seq<seq<bool>>, a: nat)
    requires CrashGrid(g, p, s, persisted) && IsFrontier(persisted, a)
    ensures 0 <= Slot(p, |g| + a - 1, |g|) < |g|
    ensures Stamp(p, s, |g| + a - 1, |g|) in g[Slot(p, |g| + a - 1, |g|)]
  {
    var S := |g|;
    var t := if a == 0 then S - 1 else a - 1;
    if AllNew(persisted, S - 1) {
      AllIsAny(g, p, s, persisted, S - 1);
    }
    assert Slot(p, S + a - 1, S) == Slot(p, t, S);
    TopIsNewest(p, s, persisted, S, a, t);
    RowHas(g, p, s, persisted, t, Stamp(p, s, S + a - 1, S));
  }

  /** The last section carrying the newest number is the newest section. */
  lemma NewestSlot(g: seq<seq<int>>, p: nat, s: CommitSeq, persisted: seq<seq<bool>>, a: nat)
    requires CrashGrid(g, p, s, persisted) && IsFrontier(persisted, a)
    ensures LastWith(g, Stamp(p, s, |g| + a - 1, |g|), |g|) == Slot(p, |g| + a - 1, |g|)
  {
    var S := |g|;
    var top := Stamp(p, s, S + a - 1, S);
    var i := Slot(p, S + a - 1, S);
    NewestCarriesIt(g, p, s, persisted, a);
    forall i' | i < i' < S
      ensures top !in g[i']
    {
      NoneAfterNewest(g, p, s, persisted, a, i');
    }
    LastWithIs(g, top, S, i);
  }

  /** Without a gap, replay picks the newest number that occurs. */
  lemma NewestChosen(g: seq<seq<int>>, p: nat, s: CommitSeq, persisted: seq<seq<bool>>, a: nat)
    requires CrashGrid(g, p, s, persisted) && IsFrontier(persisted, a) && !Gap(g, s)
    ensures !Used(g, -1) && Unused(UsedBits(g)) < N_COMMIT_IDS
    ensures Prev(Unused(UsedBits(g))) == Stamp(p, s, |g| + a - 1, |g|)
  {
    OnlyThreeNumbers(g, p, s, persisted);
    NewestOccurs(g, p, s, persisted, a);
    var used := UsedBits(g);
    forall k: CommitSeq
      ensures used[k] == Used(g, k)
    {
      assert k == 0 || k == 1 || k == 2 || k == 3;
    }
    NewestNumber(used, s, Stamp(p, s, |g| + a - 1, |g|));
  }

  /** The section at window index k carries the number expected of it exactly when it lies before the
      end of the complete prefix of the in-flight commit. */
  lemma WindowRow(g: seq<seq<int>>, p: nat, s: CommitSeq, persisted: seq<seq<bool>>, a: nat, full: nat, k: nat)
    requires CrashGrid(g, p, s, persisted) && IsFrontier(persisted, a) && IsFullPrefix(persisted, full)
    requires full <= a <= k <= |g| + full && k < a + |g|
    ensures Uniform(g[Slot(p, k, |g|)], Stamp(p, s, k, |g|)) <==> k < |g| + full
  {
    var S := |g|;
    var t := if k < S then k else k - S;
    assert Slot(p, t, S) == Slot(p, k, S);
    RowUniform(g, p, s, persisted, t, Stamp(p, s, k, S));
  }

  /** From window index k on, the ids match up to the end of the complete prefix of the
      in-flight commit: no further, and no less. */
  lemma RunLength(g: seq<seq<int>>, p: nat, s: CommitSeq, persisted: seq<seq<bool>>, a: nat, full: nat, k: nat)
    requires CrashGrid(g, p, s, persisted) && IsFrontier(persisted, a) && IsFullPrefix(persisted, full)
    requires full <= a <= k <= |g| + full
    ensures Run(g, Slot(p, k, |g|), Stamp(p, s, k, |g|), a + |g| - k) == |g| + full - k
    decreases 2 * |g| - k
  {
    if k < a + |g| {
      WindowRow(g, p, s, persisted, a, full, k);
      if k < |g| + full {
        RunLength(g, p, s, persisted, a, full, k + 1);
      }
    }
  }

  /** Every row of a gapped ring is uniform, and none carries the number in between. */
  lemma GapRows(g: seq<seq<int>>, p: nat, s: CommitSeq, persisted: seq<seq<bool>>, i: nat)
    requires CrashGrid(g, p, s, persisted) && Gap(g, s) && i < |g|
    ensures forall k :: k in g[i] <==> k == if i < p then Next(s) else Prev(s)
  {
    var S := |g|;
    var t := Offset(p, i, S);
    UsedNumbers(g, p, s, persisted, s);
    assert !Shows(p, s, persisted, S, t, s);
    forall k
      ensures k in g[i] <==> k == if i < p then Next(s) else Prev(s)
    {
      RowHas(g, p, s, persisted, t, k);
      if AllNew(persisted, t) {
        AllIsAny(g, p, s, persisted, t);
      }
    }
  }

  /** With a gap, replay declares the journal empty and finds no matching section. */
  lemma PlanWithGap(g: seq<seq<int>>, p: nat, s: CommitSeq, persisted: seq<seq<bool>>, noEntries: bool)
    requires CrashGrid(g, p, s, persisted) && Gap(g, s)
    ensures var plan := PlanOf(g, noEntries); plan.Plan? && plan.empty && plan.count == 0
  {
    OnlyThreeNumbers(g, p, s, persisted);
    assert s == 0 || s == 1 || s == 2 || s == 3;
    var last := Prev(Unused(UsedBits(g)));
    assert (last == Next(s) || last == Prev(s)) && Stale(UsedBits(g), last);
    NoRunWithGap(g, p, s, persisted, last);
  }

  lemma NoRunWithGap(g: seq<seq<int>>, p: nat, s: CommitSeq, persisted: seq<seq<bool>>, last: CommitSeq)
    requires CrashGrid(g, p, s, persisted) && Gap(g, s)
    requires last == Next(s) || last == Prev(s)
    ensures PlanFrom(g, last, true).count == 0
  {
    forall i | 0 <= i < |g|
      ensures last in g[i] <==> (last == Next(s) <==> i < p)
      ensures |g[i]| > 0 && g[i][0] == if i < p then Next(s) else Prev(s)
    {
      GapRows(g, p, s, persisted, i);
      assert i == Slot(p, Offset(p, i, |g|), |g|);
      assert g[i][0] in g[i];
    }
    if last == Next(s) {
      UsedNumbers(g, p, s, persisted, Next(s));
      assert p > 0;
      LastWithIs(g, last, |g|, p - 1);
    } else {
      LastWithIs(g, last, |g|, |g| - 1);
      UsedNumbers(g, p, s, persisted, Next(s));
      assert p > 0;
    }
  }

  /** Without a gap, replay starts right after the newest section on disk and stops right
      after the last complete section of the in-flight commit. */
  lemma PlanWithoutGap(g: seq<seq<int>>, p: nat, s: CommitSeq, persisted: seq<seq<bool>>,
                       a: nat, full: nat, noEntries: bool)
    requires CrashGrid(g, p, s, persisted) && !Gap(g, s)
    requires IsFrontier(persisted, a) && IsFullPrefix(persisted, full)
    ensures full <= a
    ensures PlanOf(g, noEntries)
            == Plan(Slot(p, a, |g|), |g| + full - a, noEntries,
                    Stamp(p, s, |g| + a - 1, |g|), Stamp(p, s, |g| + full, |g|))
  {
    var S := |g|;
    var top := Stamp(p, s, S + a - 1, S);
    NewestChosen(g, p, s, persisted, a);
    assert !Stale(UsedBits(g), top) by {
      NewestOccurs(g, p, s, persisted, a);
      OnlyThreeNumbers(g, p, s, persisted);
      assert s == 0 || s == 1 || s == 2 || s == 3;
    }
    RunWithoutGap(g, p, s, persisted, a, full, noEntries);
  }

  lemma RunWithoutGap(g: seq<seq<int>>, p: nat, s: CommitSeq, persisted: seq<seq<bool>>,
                      a: nat, full: nat, noEntries: bool)
    requires CrashGrid(g, p, s, persisted)
    requires IsFrontier(persisted, a) && IsFullPrefix(persisted, full)
    ensures full <= a
    ensures var top := Stamp(p, s, |g| + a - 1, |g|);
            PlanFrom(g, top, noEntries)
            == Plan(Slot(p, a, |g|), |g| + full - a, noEntries, top, Stamp(p, s, |g| + full, |g|))
  {
    var S := |g|;
    var top := Stamp(p, s, S + a - 1, S);
    if full > a {
      AllIsAny(g, p, s, persisted, full - 1);
    }
    NewestSlot(g, p, s, persisted, a);
    RunLength(g, p, s, persisted, a, full, a);
  }
}
