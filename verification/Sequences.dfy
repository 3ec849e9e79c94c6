/** Sequences without repetitions, and a member put into a sequence or taken out of it.
 */
module Sequences {

  function InsertAt<T>(s: seq<T>, k: nat, e: T): (t: seq<T>)
    requires k <= |s|
    ensures |t| == |s| + 1 && t[k] == e
    ensures forall i :: 0 <= i < k ==> t[i] == s[i]
    ensures forall i :: k < i < |t| ==> t[i] == s[i - 1]
  {
    s[..k] + [e] + s[k..]
  }

  function RemoveAt<T>(s: seq<T>, k: nat): (t: seq<T>)
    requires k < |s|
    ensures |t| == |s| - 1
    ensures forall i :: 0 <= i < k ==> t[i] == s[i]
    ensures forall i :: k <= i < |t| ==> t[i] == s[i + 1]
  {
    s[..k] + s[k + 1..]
  }

  ghost predicate NoDup<T>(s: seq<T>) {
    forall i, j :: 0 <= i < j < |s| ==> s[i] != s[j]
  }

  function Bit(b: bool): nat {
    if b then 1 else 0
  }

  lemma NoDupInsert<T>(s: seq<T>, k: nat, e: T)
    requires NoDup(s) && k <= |s| && e !in s
    ensures NoDup(InsertAt(s, k, e))
  {
    var t := InsertAt(s, k, e);
    forall i, j | 0 <= i < j < |t|
      ensures t[i] != t[j]
    {
      assert i != k ==> t[i] == s[if i < k then i else i - 1];
      assert j != k ==> t[j] == s[if j < k then j else j - 1];
    }
  }

  lemma NoDupRemove<T>(s: seq<T>, k: nat)
    requires NoDup(s) && k < |s|
    ensures NoDup(RemoveAt(s, k)) && s[k] !in RemoveAt(s, k)
  {
    var t := RemoveAt(s, k);
    forall i, j | 0 <= i < j < |t|
      ensures t[i] != t[j]
    {
      assert t[i] == s[if i < k then i else i + 1] && t[j] == s[if j < k then j else j + 1];
    }
  }

  lemma RemoveAtMembers<T>(s: seq<T>, k: nat, x: T)
    requires NoDup(s) && k < |s|
    ensures x in RemoveAt(s, k) <==> x in s && x != s[k]
  {
    var t := RemoveAt(s, k);
    if x in s && x != s[k] {
      var i :| 0 <= i < |s| && s[i] == x;
      assert t[if i < k then i else i - 1] == x;
    }
    if x in t {
      var i :| 0 <= i < |t| && t[i] == x;
      assert s[if i < k then i else i + 1] == x;
    }
  }

  lemma InsertAtMembers<T>(s: seq<T>, k: nat, e: T, x: T)
    requires k <= |s|
    ensures x in InsertAt(s, k, e) <==> x in s || x == e
  {
    var t := InsertAt(s, k, e);
    if x in s {
      var i :| 0 <= i < |s| && s[i] == x;
      assert t[if i < k then i else i + 1] == x;
    }
    assert t[k] == e;
    if i :| 0 <= i < |t| && t[i] == x && i != k {
      assert s[if i < k then i else i - 1] == x;
    }
  }

  /** The sequence without the first occurrence of a member. */
  function Without<T(==)>(s: seq<T>, x: T): seq<T> {
    if |s| == 0 then [] else if s[0] == x then s[1..] else [s[0]] + Without(s[1..], x)
  }

  lemma {:induction false} WithoutIs<T>(s: seq<T>, x: T) returns (k: nat)
    ensures x !in s ==> Without(s, x) == s
    ensures x in s ==> k < |s| && s[k] == x && Without(s, x) == RemoveAt(s, k)
  {
    k := 0;
    if |s| > 0 && s[0] != x {
      var t := s[1..];
      assert s == [s[0]] + t;
      var k' := WithoutIs(t, x);
      k := k' + 1;
      if x in t {
        assert [s[0]] + RemoveAt(t, k') == RemoveAt(s, k);
      }
    }
  }

  lemma WithoutRemoved<T>(s: seq<T>, k: nat)
    requires NoDup(s) && k < |s|
    ensures Without(s, s[k]) == RemoveAt(s, k) == Without(RemoveAt(s, k), s[k])
  {
    var i := WithoutIs(s, s[k]);
    NoDupRemove(s, k);
    var j := WithoutIs(RemoveAt(s, k), s[k]);
  }

  lemma WithoutInserted<T>(s: seq<T>, k: nat, e: T)
    requires k <= |s| && e !in s
    ensures Without(InsertAt(s, k, e), e) == s == Without(s, e)
  {
    var t := InsertAt(s, k, e);
    forall j | 0 <= j < |t| && j != k
      ensures t[j] != e
    {
      assert t[j] == s[if j < k then j else j - 1];
    }
    var i := WithoutIs(t, e);
    assert t[k] == e;
    assert RemoveAt(t, k) == s;
    var j := WithoutIs(s, e);
  }

  /** Two lists of lists are the same but for where one member stands. */
  ghost predicate SameBut<T>(a: seq<seq<T>>, b: seq<seq<T>>, e: T) {
    |a| == |b| && forall i :: 0 <= i < |a| ==> Without(a[i], e) == Without(b[i], e)
  }

  /** A member stands first or last in a list. */
  ghost predicate AtEnd<T>(s: seq<T>, e: T, front: bool) {
    |s| > 0 && e == if front then s[0] else s[|s| - 1]
  }
}
