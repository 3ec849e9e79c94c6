/** How many entries each level of a multi-level queue should have, and what becomes of them when
    the entries are handed out level by level.
 */
module SmqTargets {

  /** How many entries level l ends up with: its target, as long as entries are left. */
  ghost function Filled(target: seq<nat>, total: nat, l: nat): nat
    requires l < |target|
  {
    var left := Left(target, total, l);
    if l == |target| - 1 || left < target[l] then left else target[l]
  }

  /** Entries left for level l and above once the levels below have been filled. */
  ghost function Left(target: seq<nat>, total: nat, l: nat): nat
    requires l <= |target|
    decreases l
  {
    if l == 0 then total
    else
      var left := Left(target, total, l - 1);
      if left < target[l - 1] then 0 else left - target[l - 1]
  }

  function Sum(target: seq<nat>, l: nat): nat
    requires l <= |target|
    decreases |target| - l
  {
    if l == |target| then 0 else target[l] + Sum(target, l + 1)
  }

  lemma {:induction false} LeftIsSum(target: seq<nat>, l: nat)
    requires l <= |target|
    ensures Left(target, Sum(target, 0), l) == Sum(target, l)
    decreases l
  {
    if l > 0 {
      LeftIsSum(target, l - 1);
    }
  }

  /** When the targets add up to the number of entries, every level gets exactly its target. */
  lemma FilledIsTarget(target: seq<nat>, l: nat)
    requires l < |target|
    ensures Filled(target, Sum(target, 0), l) == target[l]
  {
    LeftIsSum(target, l);
  }

  // ---------------------------------------------------------------- targets

  function SafeDiv(n: nat, d: nat): nat {
    if d == 0 then 0 else n / d
  }

  function SafeMod(n: nat, d: nat): nat {
    if d == 0 then 0 else n % d
  }

  /** Sum of a stretch of targets. */
  function SumOf(target: seq<nat>, lo: nat, hi: nat): nat
    requires lo <= hi <= |target|
    decreases hi - lo
  {
    if lo == hi then 0 else SumOf(target, lo, hi - 1) + target[hi - 1]
  }

  /** What level i of some levels gets when a number of entries is spread evenly over them. */
  function Share(elts: nat, levels: nat, i: nat): nat {
    SafeDiv(elts, levels) + (if i < SafeMod(elts, levels) then 1 else 0)
  }

  /** Levels from lo up to hi share a number of entries. */
  ghost predicate Shared(target: seq<nat>, elts: nat, lo: nat, hi: nat) {
    lo <= hi <= |target| && forall l :: lo <= l < hi ==> target[l] == Share(elts, hi - lo, l - lo)
  }

  /** `q_set_targets_subrange_`: spreads a number of entries evenly over some levels. */
  method SetSubrange(target: seq<nat>, elts: nat, lo: nat, hi: nat) returns (target': seq<nat>)
    requires lo <= hi <= |target|
    ensures |target'| == |target| && Shared(target', elts, lo, hi)
    ensures forall l :: 0 <= l < |target| && !(lo <= l < hi) ==> target'[l] == target[l]
    ensures forall l, m :: lo <= l < hi && lo <= m < hi ==> target'[l] <= target'[m] + 1
    ensures SumOf(target', lo, hi) == if lo < hi then elts else 0
  {
    var levels := hi - lo;
    var per, rest := SafeDiv(elts, levels), SafeMod(elts, levels);
    target' := target;
    var l := lo;
    while l < hi
      invariant lo <= l <= hi && |target'| == |target|
      invariant forall m :: 0 <= m < |target| && !(lo <= m < l) ==> target'[m] == target[m]
      invariant forall m :: lo <= m < l ==> target'[m] == Share(elts, levels, m - lo)
    {
      target' := target'[l := if l < lo + rest then per + 1 else per];
      l := l + 1;
    }
    SharesAddUp(target', elts, lo, hi);
  }

  /** k levels get `per` entries each, and the first `rest` of them one more. */
  ghost function Spread(k: nat, per: nat, rest: nat): nat {
    if k == 0 then 0 else Spread(k - 1, per, rest) + per + (if k - 1 < rest then 1 else 0)
  }

  lemma {:induction false} SpreadIs(k: nat, per: nat, rest: nat)
    ensures Spread(k, per, rest) == k * per + (if k < rest then k else rest)
  {
    if k > 0 {
      SpreadIs(k - 1, per, rest);
      assert (k - 1) * per + per == k * per;
    }
  }

  lemma SpreadAll(elts: nat, levels: nat)
    requires levels > 0
    ensures Spread(levels, elts / levels, elts % levels) == elts
  {
    SpreadIs(levels, elts / levels, elts % levels);
    assert levels * (elts / levels) + elts % levels == elts;
  }

  lemma {:induction false} SumIsSpread(target: seq<nat>, elts: nat, lo: nat, hi: nat, m: nat)
    requires Shared(target, elts, lo, hi) && lo <= m <= hi
    ensures SumOf(target, lo, m) == Spread(m - lo, SafeDiv(elts, hi - lo), SafeMod(elts, hi - lo))
    decreases m
  {
    if lo < m {
      SumIsSpread(target, elts, lo, hi, m - 1);
    }
  }

  /** Nothing that is shared gets lost, unless there are no levels to share it. */
  lemma SharesAddUp(target: seq<nat>, elts: nat, lo: nat, hi: nat)
    requires Shared(target, elts, lo, hi)
    ensures SumOf(target, lo, hi) == if lo < hi then elts else 0
  {
    SumIsSpread(target, elts, lo, hi, hi);
    if lo < hi {
      SpreadAll(elts, hi - lo);
    }
  }

  lemma {:induction false} SumSplit(a: seq<nat>, lo: nat, mid: nat, hi: nat)
    requires lo <= mid <= hi <= |a|
    ensures SumOf(a, lo, hi) == SumOf(a, lo, mid) + SumOf(a, mid, hi)
    decreases hi
  {
    if mid < hi {
      SumSplit(a, lo, mid, hi - 1);
    }
  }

  lemma {:induction false} SumIsSumOf(a: seq<nat>, l: nat)
    requires l <= |a|
    ensures Sum(a, l) == SumOf(a, l, |a|)
    decreases |a| - l
  {
    if l < |a| {
      SumIsSumOf(a, l + 1);
      SumSplit(a, l, l + 1, |a|);
    }
  }

  /** The target of level l of n: some levels at the top share a fixed number, the others share
      the rest. */
  function TargetAt(n: nat, elts: nat, topLevels: nat, inTop: nat, l: nat): nat {
    if topLevels > n then Share(elts, n, l)
    else if l >= n - topLevels then Share(inTop, topLevels, l - (n - topLevels))
    else Share(if inTop < elts then elts - inTop else 0, n - topLevels, l)
  }

  ghost function LevelTargets(n: nat, elts: nat, topLevels: nat, inTop: nat): seq<nat> {
    seq(n, l requires 0 <= l < n => TargetAt(n, elts, topLevels, inTop, l))
  }

  /** `q_set_targets` for a changed number of entries. */
  method SetTargets(target: seq<nat>, elts: nat, topLevels: nat, inTop: nat) returns (target': seq<nat>)
    ensures target' == LevelTargets(|target|, elts, topLevels, inTop)
  {
    var n := |target|;
    if topLevels > n {
      target' := SetSubrange(target, elts, 0, n);
    } else {
      target' := SetSubrange(target, inTop, n - topLevels, n);
      target' := SetSubrange(target', if inTop < elts then elts - inTop else 0, 0, n - topLevels);
    }
  }

  /** What the targets add up to. */
  lemma TargetsSum(n: nat, elts: nat, topLevels: nat, inTop: nat)
    requires n > 0
    ensures Sum(LevelTargets(n, elts, topLevels, inTop), 0)
         == if topLevels > n then elts
            else (if topLevels > 0 then inTop else 0) +
                 (if topLevels < n && inTop < elts then elts - inTop else 0)
  {
    var t := LevelTargets(n, elts, topLevels, inTop);
    SumIsSumOf(t, 0);
    if topLevels > n {
      SharesAddUp(t, elts, 0, n);
    } else {
      var m := n - topLevels;
      SumSplit(t, 0, m, n);
      SharesAddUp(t, inTop, m, n);
      SharesAddUp(t, if inTop < elts then elts - inTop else 0, 0, m);
    }
  }

  /** The targets add up to the number of entries exactly when the fixed number is not too large
      and each share has levels to go to. */
  lemma TargetsAddUpWhen(n: nat, elts: nat, topLevels: nat, inTop: nat)
    requires n > 0
    ensures Sum(LevelTargets(n, elts, topLevels, inTop), 0) == elts
       <==> || topLevels > n
            || (inTop == elts && 0 < topLevels)
            || (inTop < elts && topLevels < n && (topLevels > 0 || inTop == 0))
            || (elts == 0 && topLevels == 0)
  {
    TargetsSum(n, elts, topLevels, inTop);
  }

  /** The hotspot queue has 64 levels, of which the eight at the top get a fixed number of entries:
      while it holds fewer than that, its targets add up to the fixed number. */
  lemma TargetsExceedEntries(elts: nat, inTop: nat)
    requires elts < inTop
    ensures Sum(LevelTargets(64, elts, 8, inTop), 0) == inTop != elts
  {
    TargetsSum(64, elts, 8, inTop);
  }
}
