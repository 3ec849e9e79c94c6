/** The index-linked lists of the smq cache policy: doubly linked lists threaded through one
    shared array of entries, several lists at a time.
 */
module IndexList {
  import opened Sequences

  /** `INDEXER_NULL`: 28 bits of ones. */
  const NULL: nat := 0xFFF_FFFF

  datatype Link = Link(prev: nat, next: nat)

  datatype IList = IList(nrElts: nat, head: nat, tail: nat)

  /** Number of entries in a list that are not sentinels. */
  function Count(sentinel: seq<bool>, s: seq<nat>): nat
    requires forall i :: 0 <= i < |s| ==> s[i] < |sentinel|
  {
    if |s| == 0 then 0 else Count(sentinel, s[..|s| - 1]) + Bit(!sentinel[s[|s| - 1]])
  }

  lemma {:induction false} CountConcat(sentinel: seq<bool>, s: seq<nat>, t: seq<nat>)
    requires forall i :: 0 <= i < |s| ==> s[i] < |sentinel|
    requires forall i :: 0 <= i < |t| ==> t[i] < |sentinel|
    ensures forall i :: 0 <= i < |s + t| ==> (s + t)[i] < |sentinel|
    ensures Count(sentinel, s + t) == Count(sentinel, s) + Count(sentinel, t)
  {
    if |t| == 0 {
      assert s + t == s;
    } else {
      assert (s + t)[..|s + t| - 1] == s + t[..|t| - 1];
      CountConcat(sentinel, s, t[..|t| - 1]);
    }
  }

  lemma CountInsert(sentinel: seq<bool>, s: seq<nat>, k: nat, e: nat)
    requires k <= |s| && e < |sentinel|
    requires forall i :: 0 <= i < |s| ==> s[i] < |sentinel|
    ensures forall i :: 0 <= i < |s[..k] + [e] + s[k..]| ==> (s[..k] + [e] + s[k..])[i] < |sentinel|
    ensures Count(sentinel, s[..k] + [e] + s[k..]) == Count(sentinel, s) + Bit(!sentinel[e])
  {
    assert s == s[..k] + s[k..];
    CountConcat(sentinel, s[..k], s[k..]);
    CountConcat(sentinel, s[..k], [e]);
    CountConcat(sentinel, s[..k] + [e], s[k..]);
  }

  /** The link the i-th member of a list carries. */
  function LinkAt(s: seq<nat>, i: nat): Link
    requires i < |s|
  {
    Link(if i == 0 then NULL else s[i - 1], if i == |s| - 1 then NULL else s[i + 1])
  }

  /** The links of the members spell out the sequence s. */
  ghost predicate Linked(links: seq<Link>, s: seq<nat>) {
    && (forall i :: 0 <= i < |s| ==> s[i] < |links|)
    && (forall i {:trigger LinkAt(s, i)} :: 0 <= i < |s| ==> links[s[i]] == LinkAt(s, i))
  }

  /** The list value and the links of its members spell out the sequence s. */
  ghost predicate Threads(links: seq<Link>, sentinel: seq<bool>, l: IList, s: seq<nat>) {
    && |links| == |sentinel| <= NULL
    && NoDup(s)
    && Linked(links, s)
    && l.head == (if |s| == 0 then NULL else s[0])
    && l.tail == (if |s| == 0 then NULL else s[|s| - 1])
    && l.nrElts == Count(sentinel, s)
  }

  /** A list none of whose members was touched is still there: the lists sharing the array do
      not disturb one another. */
  lemma UntouchedThreads(links: seq<Link>, links': seq<Link>, sentinel: seq<bool>, l: IList, s: seq<nat>,
                         touched: set<nat>)
    requires Threads(links, sentinel, l, s) && |links'| == |links|
    requires forall x :: 0 <= x < |links| && x !in touched ==> links'[x] == links[x]
    requires forall i :: 0 <= i < |s| ==> s[i] !in touched
    ensures Threads(links', sentinel, l, s)
  {
  }

  lemma LinkInserted(s: seq<nat>, k: nat, e: nat, i: nat)
    requires k <= |s| && i < |s|
    ensures LinkAt(InsertAt(s, k, e), if i < k then i else i + 1)
         == if i + 1 == k then LinkAt(s, i).(next := e) else if i == k then LinkAt(s, i).(prev := e) else LinkAt(s, i)
  {
  }

  lemma LinkRemoved(s: seq<nat>, k: nat, i: nat)
    requires k < |s| && i < |s| && i != k
    ensures LinkAt(RemoveAt(s, k), if i < k then i else i - 1)
         == if i + 1 == k then LinkAt(s, i).(next := LinkAt(s, k).next)
            else if i == k + 1 then LinkAt(s, i).(prev := LinkAt(s, k).prev) else LinkAt(s, i)
  {
  }

  /** The array after putting e between prev and next. */
  function InsertLinks(links: seq<Link>, prev: nat, next: nat, e: nat): (r: seq<Link>)
    ensures |r| == |links|
  {
    seq(|links|, x requires 0 <= x < |links| =>
      if x == e then Link(prev, next)
      else Link(if x == next then e else links[x].prev, if x == prev then e else links[x].next))
  }

  /** The array after taking out the member between prev and next. */
  function RemoveLinks(links: seq<Link>, prev: nat, next: nat): (r: seq<Link>)
    ensures |r| == |links|
  {
    seq(|links|, x requires 0 <= x < |links| =>
      Link(if x == next then prev else links[x].prev, if x == prev then next else links[x].next))
  }

  function PrevAt(s: seq<nat>, k: nat): nat
    requires k <= |s|
  {
    if k == 0 then NULL else s[k - 1]
  }

  function NextAt(s: seq<nat>, k: nat): nat
    requires k <= |s|
  {
    if k == |s| then NULL else s[k]
  }

  lemma InsertLinked(links: seq<Link>, s: seq<nat>, k: nat, e: nat)
    requires Linked(links, s) && NoDup(s) && |links| <= NULL && k <= |s| && e < |links| && e !in s
    ensures PrevAt(s, k) == NULL || PrevAt(s, k) < |links|
    ensures NextAt(s, k) == NULL || NextAt(s, k) < |links|
    ensures Linked(InsertLinks(links, PrevAt(s, k), NextAt(s, k), e), InsertAt(s, k, e))
  {
    var t := InsertAt(s, k, e);
    var links' := InsertLinks(links, PrevAt(s, k), NextAt(s, k), e);
    forall i | 0 <= i < |t|
      ensures t[i] < |links'| && links'[t[i]] == LinkAt(t, i)
    {
      if i == k {
        assert k > 0 ==> s[k - 1] in s;
        assert k < |s| ==> s[k] in s;
      } else {
        InsertLinkedAt(links, s, k, e, if i < k then i else i - 1);
      }
    }
  }

  lemma InsertLinkedAt(links: seq<Link>, s: seq<nat>, k: nat, e: nat, i: nat)
    requires Linked(links, s) && NoDup(s) && |links| <= NULL && k <= |s| && e < |links| && e !in s && i < |s|
    ensures InsertLinks(links, PrevAt(s, k), NextAt(s, k), e)[s[i]]
         == LinkAt(InsertAt(s, k, e), if i < k then i else i + 1)
  {
    assert links[s[i]] == LinkAt(s, i);
    assert k > 0 && i != k - 1 ==> s[i] != s[k - 1];
    assert k < |s| && i != k ==> s[i] != s[k];
    LinkInserted(s, k, e, i);
  }

  lemma RemoveLinked(links: seq<Link>, s: seq<nat>, k: nat)
    requires Linked(links, s) && NoDup(s) && |links| <= NULL && k < |s|
    ensures PrevAt(s, k) == NULL || PrevAt(s, k) < |links|
    ensures NextAt(s, k + 1) == NULL || NextAt(s, k + 1) < |links|
    ensures Linked(RemoveLinks(links, PrevAt(s, k), NextAt(s, k + 1)), RemoveAt(s, k))
  {
    var t := RemoveAt(s, k);
    var links' := RemoveLinks(links, PrevAt(s, k), NextAt(s, k + 1));
    forall i | 0 <= i < |t|
      ensures t[i] < |links'| && links'[t[i]] == LinkAt(t, i)
    {
      var i' := if i < k then i else i + 1;
      assert links[s[i']] == LinkAt(s, i');
      LinkRemoved(s, k, i');
    }
  }

  lemma CountRemove(sentinel: seq<bool>, s: seq<nat>, k: nat)
    requires k < |s| && forall i :: 0 <= i < |s| ==> s[i] < |sentinel|
    ensures Count(sentinel, s) == Count(sentinel, RemoveAt(s, k)) + Bit(!sentinel[s[k]])
  {
    assert s == s[..k] + ([s[k]] + s[k + 1..]);
    CountConcat(sentinel, s[..k], [s[k]] + s[k + 1..]);
    CountConcat(sentinel, [s[k]], s[k + 1..]);
    CountConcat(sentinel, s[..k], s[k + 1..]);
  }

  class Space {
    const links: array<Link>
    const sentinel: seq<bool>

    /** `space_init`: no entry is in a list yet. */
    constructor (sentinel: seq<bool>)
      ensures fresh(links) && links.Length == |sentinel| && this.sentinel == sentinel
    {
      links := new Link[|sentinel|](_ => Link(NULL, NULL));
      this.sentinel := sentinel;
    }

    ghost predicate Is(l: IList, s: seq<nat>)
      reads links
    {
      Threads(links[..], sentinel, l, s)
    }

    method AddHead(l: IList, e: nat, ghost s: seq<nat>) returns (l': IList)
      requires Is(l, s) && e < links.Length && e !in s
      modifies links
      ensures Is(l', InsertAt(s, 0, e))
      ensures links[..] == InsertLinks(old(links[..]), PrevAt(s, 0), NextAt(s, 0), e)
    {
      InsertLinked(links[..], s, 0, e);
      NoDupInsert(s, 0, e);
      CountInsert(sentinel, s, 0, e);
      links[e] := Link(NULL, l.head);
      if l.head != NULL {
        links[l.head] := links[l.head].(prev := e);
        l' := l.(head := e);
      } else {
        l' := l.(head := e, tail := e);
      }
      l' := if !sentinel[e] then l'.(nrElts := l'.nrElts + 1) else l';
      assert links[..] == InsertLinks(old(links[..]), PrevAt(s, 0), NextAt(s, 0), e);
    }

    method AddTail(l: IList, e: nat, ghost s: seq<nat>) returns (l': IList)
      requires Is(l, s) && e < links.Length && e !in s
      modifies links
      ensures Is(l', InsertAt(s, |s|, e))
      ensures links[..] == InsertLinks(old(links[..]), PrevAt(s, |s|), NextAt(s, |s|), e)
    {
      InsertLinked(links[..], s, |s|, e);
      NoDupInsert(s, |s|, e);
      CountInsert(sentinel, s, |s|, e);
      links[e] := Link(l.tail, NULL);
      if l.tail != NULL {
        links[l.tail] := links[l.tail].(next := e);
        l' := l.(tail := e);
      } else {
        l' := l.(head := e, tail := e);
      }
      l' := if !sentinel[e] then l'.(nrElts := l'.nrElts + 1) else l';
      assert links[..] == InsertLinks(old(links[..]), PrevAt(s, |s|), NextAt(s, |s|), e);
    }

    method AddBefore(l: IList, at: nat, e: nat, ghost s: seq<nat>, ghost k: nat) returns (l': IList)
      requires Is(l, s) && e < links.Length && e !in s && k < |s| && s[k] == at
      modifies links
      ensures Is(l', InsertAt(s, k, e))
      ensures links[..] == InsertLinks(old(links[..]), PrevAt(s, k), NextAt(s, k), e)
    {
      InsertLinked(links[..], s, k, e);
      NoDupInsert(s, k, e);
      CountInsert(sentinel, s, k, e);
      assert links[..][s[k]] == LinkAt(s, k);
      var prev := links[at].prev;
      if prev == NULL {
        l' := AddHead(l, e, s);
      } else {
        links[e] := Link(prev, at);
        links[prev] := links[prev].(next := e);
        links[at] := links[at].(prev := e);
        l' := if !sentinel[e] then l.(nrElts := l.nrElts + 1) else l;
        assert links[..] == InsertLinks(old(links[..]), PrevAt(s, k), NextAt(s, k), e);
      }
    }

    method Del(l: IList, e: nat, ghost s: seq<nat>, ghost k: nat) returns (l': IList)
      requires Is(l, s) && k < |s| && s[k] == e
      modifies links
      ensures Is(l', RemoveAt(s, k))
      ensures links[..] == RemoveLinks(old(links[..]), PrevAt(s, k), NextAt(s, k + 1))
    {
      RemoveLinked(links[..], s, k);
      NoDupRemove(s, k);
      CountRemove(sentinel, s, k);
      assert links[..][s[k]] == LinkAt(s, k);
      var prev, next := links[e].prev, links[e].next;
      assert prev == PrevAt(s, k) && next == NextAt(s, k + 1);
      l' := if !sentinel[e] then l.(nrElts := l.nrElts - 1) else l;
      if prev != NULL {
        links[prev] := links[prev].(next := next);
      } else {
        l' := l'.(head := next);
      }
      if next != NULL {
        links[next] := links[next].(prev := prev);
      } else {
        l' := l'.(tail := prev);
      }
      assert links[..] == RemoveLinks(old(links[..]), prev, next);
    }

    /** `l_pop_head`: takes out the first member that is not a sentinel. */
    method PopHead(l: IList, ghost s: seq<nat>) returns (found: bool, e: nat, l': IList, ghost k: nat)
      requires Is(l, s)
      modifies links
      ensures found <==> Count(sentinel, s) > 0
      ensures !found ==> l' == l && links[..] == old(links[..])
      ensures found ==>
                && k < |s| && s[k] == e && e < |sentinel| && !sentinel[e]
                && (forall i :: 0 <= i < k ==> sentinel[s[i]])
                && Is(l', RemoveAt(s, k))
                && links[..] == RemoveLinks(old(links[..]), PrevAt(s, k), NextAt(s, k + 1))
    {
      e, k := l.head, 0;
      while e != NULL
        invariant 0 <= k <= |s| && e == NextAt(s, k)
        invariant forall i :: 0 <= i < k ==> sentinel[s[i]]
        invariant links[..] == old(links[..])
        decreases |s| - k
      {
        if !sentinel[e] {
          CountRemove(sentinel, s, k);
          l' := Del(l, e, s, k);
          return true, e, l', k;
        }
        assert links[..][s[k]] == LinkAt(s, k);
        e := links[e].next;
        k := k + 1;
      }
      NoItems(sentinel, s);
      found, l' := false, l;
    }

    /** `l_pop_tail`: takes out the last member that is not a sentinel. */
    method PopTail(l: IList, ghost s: seq<nat>) returns (found: bool, e: nat, l': IList, ghost k: nat)
      requires Is(l, s)
      modifies links
      ensures found <==> Count(sentinel, s) > 0
      ensures !found ==> l' == l && links[..] == old(links[..])
      ensures found ==>
                && k < |s| && s[k] == e && e < |sentinel| && !sentinel[e]
                && (forall i :: k < i < |s| ==> sentinel[s[i]])
                && Is(l', RemoveAt(s, k))
                && links[..] == RemoveLinks(old(links[..]), PrevAt(s, k), NextAt(s, k + 1))
    {
      e := l.tail;
      ghost var n := |s|;
      while e != NULL
        invariant 0 <= n <= |s| && e == PrevAt(s, n)
        invariant forall i :: n <= i < |s| ==> sentinel[s[i]]
        invariant links[..] == old(links[..])
        decreases n
      {
        if !sentinel[e] {
          k := n - 1;
          CountRemove(sentinel, s, k);
          l' := Del(l, e, s, k);
          return true, e, l', k;
        }
        assert links[..][s[n - 1]] == LinkAt(s, n - 1);
        e := links[e].prev;
        n := n - 1;
      }
      NoItems(sentinel, s);
      found, l', k := false, l, 0;
    }
  }

  lemma {:induction false} NoItems(sentinel: seq<bool>, s: seq<nat>)
    requires forall i :: 0 <= i < |s| ==> s[i] < |sentinel| && sentinel[s[i]]
    ensures Count(sentinel, s) == 0
  {
    if |s| > 0 {
      NoItems(sentinel, s[..|s| - 1]);
    }
  }

  /** Putting e into one list leaves every list that shares no member with it alone. */
  lemma InsertSparesOthers(links: seq<Link>, sentinel: seq<bool>, s: seq<nat>, k: nat, e: nat, other: IList,
                           t: seq<nat>)
    requires k <= |s| && Linked(links, s) && Threads(links, sentinel, other, t)
    requires forall i :: 0 <= i < |t| ==> t[i] != e && t[i] !in s
    ensures Threads(InsertLinks(links, PrevAt(s, k), NextAt(s, k), e), sentinel, other, t)
  {
    UntouchedThreads(links, InsertLinks(links, PrevAt(s, k), NextAt(s, k), e), sentinel, other, t,
                     {e, PrevAt(s, k), NextAt(s, k)});
  }

  /** So does taking a member out. */
  lemma RemoveSparesOthers(links: seq<Link>, sentinel: seq<bool>, s: seq<nat>, k: nat, other: IList, t: seq<nat>)
    requires k < |s| && Linked(links, s) && Threads(links, sentinel, other, t)
    requires forall i :: 0 <= i < |t| ==> t[i] !in s
    ensures Threads(RemoveLinks(links, PrevAt(s, k), NextAt(s, k + 1)), sentinel, other, t)
  {
    UntouchedThreads(links, RemoveLinks(links, PrevAt(s, k), NextAt(s, k + 1)), sentinel, other, t,
                     {PrevAt(s, k), NextAt(s, k + 1)});
  }
}
