/** The order in which entries stand on the levels of a queue, sentinels aside, and what spreading them
    over the levels does to it.
 */
module SmqOrder {
  import opened Sequences
  import opened SmqQueue

  /** The entries of a list, oldest first. */
  ghost function Line(s: seq<nat>, n: nat): seq<nat> {
    if |s| == 0 then [] else (if s[0] < n then [s[0]] else []) + Line(s[1..], n)
  }

  lemma {:induction false} LineConcat(s: seq<nat>, t: seq<nat>, n: nat)
    ensures Line(s + t, n) == Line(s, n) + Line(t, n)
  {
    if |s| == 0 {
      assert s + t == t;
    } else {
      assert (s + t)[1..] == s[1..] + t;
      LineConcat(s[1..], t, n);
    }
  }

  lemma {:induction false} LineLength(s: seq<nat>, n: nat)
    ensures |Line(s, n)| == Items(s, n)
  {
    if |s| > 0 {
      assert s == [s[0]] + s[1..];
      ItemsConcat([s[0]], s[1..], n);
      assert [s[0]][..0] == [];
      LineLength(s[1..], n);
    }
  }

  lemma {:induction false} NoLine(s: seq<nat>, n: nat)
    requires forall i :: 0 <= i < |s| ==> s[i] >= n
    ensures Line(s, n) == []
  {
    if |s| > 0 {
      NoLine(s[1..], n);
    }
  }

  lemma LineOf(x: nat, n: nat)
    ensures Line([x], n) == if x < n then [x] else []
  {
    assert [x][1..] == [];
  }

  /** Taking an entry out of a list takes it out of the line. */
  lemma LineParts(s: seq<nat>, k: nat, n: nat)
    requires k < |s| && s[k] < n
    ensures Line(s, n) == Line(s[..k], n) + [s[k]] + Line(s[k + 1..], n)
    ensures Line(RemoveAt(s, k), n) == Line(s[..k], n) + Line(s[k + 1..], n)
  {
    assert s == s[..k] + ([s[k]] + s[k + 1..]);
    LineConcat(s[..k], [s[k]] + s[k + 1..], n);
    LineConcat([s[k]], s[k + 1..], n);
    LineOf(s[k], n);
    LineConcat(s[..k], s[k + 1..], n);
  }

  lemma LineFirst(s: seq<nat>, k: nat, n: nat)
    requires k < |s| && s[k] < n && forall i :: 0 <= i < k ==> s[i] >= n
    ensures Line(s, n) == [s[k]] + Line(RemoveAt(s, k), n)
  {
    LineParts(s, k, n);
    NoLine(s[..k], n);
  }

  lemma LineLast(s: seq<nat>, k: nat, n: nat)
    requires k < |s| && s[k] < n && forall i :: k < i < |s| ==> s[i] >= n
    ensures Line(s, n) == Line(RemoveAt(s, k), n) + [s[k]]
  {
    LineParts(s, k, n);
    NoLine(s[k + 1..], n);
  }

  lemma LineAppend(s: seq<nat>, x: nat, n: nat)
    requires x < n
    ensures Line(InsertAt(s, |s|, x), n) == Line(s, n) + [x]
  {
    assert InsertAt(s, |s|, x) == s + [x];
    LineConcat(s, [x], n);
    LineOf(x, n);
  }

  /** The entries from a level upwards, in one row. */
  ghost function Row(qs: seq<seq<nat>>, n: nat, from: nat): seq<nat>
    requires from <= |qs|
    decreases |qs| - from
  {
    if from == |qs| then [] else Line(qs[from], n) + Row(qs, n, from + 1)
  }

  lemma {:induction false} TotalFalls(qs: seq<seq<nat>>, n: nat, a: nat, b: nat)
    requires a <= b <= |qs|
    ensures Total(qs, n, a) >= Total(qs, n, b)
    decreases b - a
  {
    if a < b {
      TotalFalls(qs, n, a + 1, b);
    }
  }

  /** Levels without entries add nothing to the row. */
  lemma {:induction false} RowSkips(qs: seq<seq<nat>>, n: nat, a: nat, b: nat)
    requires a <= b <= |qs| && Total(qs, n, a) == Total(qs, n, b)
    ensures Row(qs, n, a) == Row(qs, n, b)
    decreases b - a
  {
    if a < b {
      TotalFalls(qs, n, a + 1, b);
      LineLength(qs[a], n);
      RowSkips(qs, n, a + 1, b);
    }
  }

  lemma {:induction false} RowSame(qs: seq<seq<nat>>, qs': seq<seq<nat>>, n: nat, from: nat)
    requires from <= |qs| == |qs'| && forall m :: from <= m < |qs| ==> qs'[m] == qs[m]
    ensures Row(qs', n, from) == Row(qs, n, from)
    decreases |qs| - from
  {
    if from < |qs| {
      RowSame(qs, qs', n, from + 1);
    }
  }

  ghost predicate EndOf(t: seq<nat>, s: seq<nat>) {
    |t| <= |s| && t == s[|s| - |t|..]
  }

  /** Entries have come down to the back of a level: the row from there on is as it was, the levels above
      have what is left of them, and those below are untouched. */
  ghost predicate CameDown(qs: seq<seq<nat>>, qs': seq<seq<nat>>, l: nat, n: nat) {
    && l < |qs| == |qs'| && Row(qs', n, l) == Row(qs, n, l)
    && (forall m :: l < m < |qs| ==> EndOf(Line(qs'[m], n), Line(qs[m], n)))
    && (forall m :: 0 <= m < l ==> qs'[m] == qs[m])
  }

  lemma NoneCameDown(qs: seq<seq<nat>>, l: nat, n: nat)
    requires l < |qs|
    ensures CameDown(qs, qs, l, n)
  {
  }

  lemma CameDownTrans(a: seq<seq<nat>>, b: seq<seq<nat>>, c: seq<seq<nat>>, l: nat, n: nat)
    requires CameDown(a, b, l, n) && CameDown(b, c, l, n)
    ensures CameDown(a, c, l, n)
  {
    forall m | l < m < |a|
      ensures EndOf(Line(c[m], n), Line(a[m], n))
    {
      var x, y, z := Line(a[m], n), Line(b[m], n), Line(c[m], n);
      assert EndOf(y, x) && EndOf(z, y);
      assert z == x[|x| - |z|..];
    }
  }

  /** The oldest entry of the lowest level above that has one comes down. */
  lemma OneCameDown(qs: seq<seq<nat>>, qs': seq<seq<nat>>, l: nat, p: nat, at: nat, n: nat)
    requires l < p < |qs| && at < |qs[p]| && qs[p][at] < n && (forall i :: 0 <= i < at ==> qs[p][i] >= n)
    requires Total(qs, n, l + 1) == Total(qs, n, p)
    requires qs' == qs[p := RemoveAt(qs[p], at)][l := InsertAt(qs[l], |qs[l]|, qs[p][at])]
    ensures CameDown(qs, qs', l, n)
  {
    var e := qs[p][at];
    LineFirst(qs[p], at, n);
    LineAppend(qs[l], e, n);
    RowMoved(qs, qs', l, p, e, n);
    forall m | l < m < |qs|
      ensures EndOf(Line(qs'[m], n), Line(qs[m], n))
    {
      assert m != p ==> qs'[m] == qs[m];
    }
  }

  lemma RowMoved(qs: seq<seq<nat>>, qs': seq<seq<nat>>, l: nat, p: nat, e: nat, n: nat)
    requires l < p < |qs| == |qs'| && Total(qs, n, l + 1) == Total(qs, n, p)
    requires forall m :: l < m < |qs| && m != p ==> qs'[m] == qs[m]
    requires Line(qs[p], n) == [e] + Line(qs'[p], n) && Line(qs'[l], n) == Line(qs[l], n) + [e]
    ensures Row(qs', n, l) == Row(qs, n, l)
  {
    RowSame(qs, qs', n, p + 1);
    RowSkips(qs, n, l + 1, p);
    SkippedStay(qs, qs', l, p, n);
    Regrouped(Line(qs[l], n), e, Line(qs'[p], n), Row(qs, n, p + 1));
  }

  lemma Regrouped(a: seq<nat>, e: nat, b: seq<nat>, c: seq<nat>)
    ensures a + ([e] + b + c) == a + [e] + (b + c)
  {
  }

  lemma SkippedStay(qs: seq<seq<nat>>, qs': seq<seq<nat>>, l: nat, p: nat, n: nat)
    requires l < p < |qs| == |qs'| && Total(qs, n, l + 1) == Total(qs, n, p)
    requires forall m :: l < m < |qs| && m != p ==> qs'[m] == qs[m]
    ensures Row(qs', n, l + 1) == Row(qs', n, p)
  {
    TotalBetween(qs, qs', n, l + 1, p);
    RowSkips(qs', n, l + 1, p);
  }

  lemma {:induction false} TotalBetween(qs: seq<seq<nat>>, qs': seq<seq<nat>>, n: nat, a: nat, p: nat)
    requires a <= p < |qs| == |qs'| && forall m :: a <= m < p ==> qs'[m] == qs[m]
    ensures Total(qs', n, a) - Total(qs', n, p) == Total(qs, n, a) - Total(qs, n, p)
    decreases p - a
  {
    if a < p {
      TotalBetween(qs, qs', n, a + 1, p);
    }
  }

  ghost function Reversed(s: seq<nat>): seq<nat> {
    if |s| == 0 then [] else Reversed(s[1..]) + [s[0]]
  }

  /** The youngest entries of a level have gone up, one after the other, to the back of the next. */
  ghost predicate WentUp(qs: seq<seq<nat>>, qs': seq<seq<nat>>, l: nat, n: nat) {
    && l + 1 < |qs| == |qs'|
    && |Line(qs'[l], n)| <= |Line(qs[l], n)| && Line(qs'[l], n) == Line(qs[l], n)[..|Line(qs'[l], n)|]
    && Line(qs'[l + 1], n) == Line(qs[l + 1], n) + Reversed(Line(qs[l], n)[|Line(qs'[l], n)|..])
    && (forall m :: 0 <= m < |qs| && m != l && m != l + 1 ==> qs'[m] == qs[m])
  }

  lemma NoneWentUp(qs: seq<seq<nat>>, l: nat, n: nat)
    requires l + 1 < |qs|
    ensures WentUp(qs, qs, l, n)
  {
    assert Line(qs[l], n)[|Line(qs[l], n)|..] == [];
  }

  /** One more has gone up. */
  lemma OneWentUp(qs: seq<seq<nat>>, a: seq<seq<nat>>, qs': seq<seq<nat>>, l: nat, at: nat, n: nat)
    requires WentUp(qs, a, l, n) && at < |a[l]| && a[l][at] < n && forall i :: at < i < |a[l]| ==> a[l][i] >= n
    requires qs' == a[l := RemoveAt(a[l], at)][l + 1 := InsertAt(a[l + 1], |a[l + 1]|, a[l][at])]
    ensures WentUp(qs, qs', l, n)
  {
    LineLast(a[l], at, n);
    LineAppend(a[l + 1], a[l][at], n);
    OneMoreUp(Line(qs[l], n), Line(a[l], n), Line(qs[l + 1], n), Line(a[l + 1], n), Line(qs'[l], n),
              Line(qs'[l + 1], n), a[l][at]);
  }

  /** In terms of the lines of the two levels. */
  lemma OneMoreUp(was: seq<nat>, kept: seq<nat>, above: seq<nat>, above': seq<nat>, kept': seq<nat>,
                  above'': seq<nat>, x: nat)
    requires |kept| <= |was| && kept == was[..|kept|] && above' == above + Reversed(was[|kept|..])
    requires kept == kept' + [x] && above'' == above' + [x]
    ensures |kept'| <= |was| && kept' == was[..|kept'|] && above'' == above + Reversed(was[|kept'|..])
  {
    var k := |kept'|;
    assert was[k..] == [x] + was[k + 1..] by {
      assert was[k] == kept[k] == x;
    }
    assert was[k..][1..] == was[k + 1..];
  }

  /** What giving a level its target does: entries come down to it, or the surplus goes up. */
  ghost predicate Levelled(qs: seq<seq<nat>>, qs': seq<seq<nat>>, l: nat, target: nat, n: nat) {
    l < |qs| && if Items(qs[l], n) <= target then CameDown(qs, qs', l, n) else WentUp(qs, qs', l, n)
  }
}
