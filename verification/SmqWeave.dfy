/** All the lists of the smq cache policy together: the free list and the levels of its queues are
    threaded through one array of entries, and no entry is in two of them.
 */
module SmqWeave {
  import opened Sequences
  import opened IndexList

  ghost predicate Listed(seqs: seq<seq<nat>>, i: nat, x: nat) {
    i < |seqs| && x in seqs[i]
  }

  /** No entry is in two lists. */
  ghost predicate Apart(seqs: seq<seq<nat>>) {
    forall i: nat, j: nat, x: nat :: Listed(seqs, i, x) && Listed(seqs, j, x) ==> i == j
  }

  /** The links of one array spell out every list. */
  ghost predicate Woven(links: seq<Link>, sentinel: seq<bool>, lists: seq<IList>, seqs: seq<seq<nat>>) {
    && |lists| == |seqs| && Apart(seqs)
    && forall i {:trigger Threads(links, sentinel, lists[i], seqs[i])} ::
         0 <= i < |seqs| ==> Threads(links, sentinel, lists[i], seqs[i])
  }

  ghost predicate Nowhere(seqs: seq<seq<nat>>, e: nat) {
    forall i: nat :: !Listed(seqs, i, e)
  }

  /** Putting an entry that is in no list into one of them keeps all of them threaded. */
  lemma InsertWeaves(links: seq<Link>, sentinel: seq<bool>, lists: seq<IList>, seqs: seq<seq<nat>>,
                     i: nat, k: nat, e: nat, l: IList)
    requires Woven(links, sentinel, lists, seqs) && i < |seqs| && k <= |seqs[i]| && Nowhere(seqs, e)
    requires var s := seqs[i];
             Threads(InsertLinks(links, PrevAt(s, k), NextAt(s, k), e), sentinel, l, InsertAt(s, k, e))
    ensures var s := seqs[i];
            Woven(InsertLinks(links, PrevAt(s, k), NextAt(s, k), e), sentinel, lists[i := l],
                  seqs[i := InsertAt(s, k, e)])
  {
    var s := seqs[i];
    var seqs' := seqs[i := InsertAt(s, k, e)];
    forall j | 0 <= j < |seqs| && j != i
      ensures Threads(InsertLinks(links, PrevAt(s, k), NextAt(s, k), e), sentinel, lists[j], seqs[j])
    {
      assert Threads(links, sentinel, lists[j], seqs[j]) && Threads(links, sentinel, lists[i], s);
      forall m | 0 <= m < |seqs[j]|
        ensures seqs[j][m] != e && seqs[j][m] !in s
      {
        assert Listed(seqs, j, seqs[j][m]) && !Listed(seqs, i, seqs[j][m]) && !Listed(seqs, j, e);
      }
      InsertSparesOthers(links, sentinel, s, k, e, lists[j], seqs[j]);
    }
    forall j: nat, x: nat
      ensures Listed(seqs', j, x) <==> Listed(seqs, j, x) || (j == i && x == e)
    {
      InsertAtMembers(s, k, e, x);
    }
  }

  /** So does taking one out, which then is in no list. */
  lemma RemoveWeaves(links: seq<Link>, sentinel: seq<bool>, lists: seq<IList>, seqs: seq<seq<nat>>,
                     i: nat, k: nat, l: IList)
    requires Woven(links, sentinel, lists, seqs) && i < |seqs| && k < |seqs[i]|
    requires var s := seqs[i];
             Threads(RemoveLinks(links, PrevAt(s, k), NextAt(s, k + 1)), sentinel, l, RemoveAt(s, k))
    ensures var s := seqs[i];
            && Woven(RemoveLinks(links, PrevAt(s, k), NextAt(s, k + 1)), sentinel, lists[i := l],
                     seqs[i := RemoveAt(s, k)])
            && Nowhere(seqs[i := RemoveAt(s, k)], s[k])
  {
    var s := seqs[i];
    var seqs' := seqs[i := RemoveAt(s, k)];
    assert Listed(seqs, i, s[k]);
    forall j | 0 <= j < |seqs| && j != i
      ensures Threads(RemoveLinks(links, PrevAt(s, k), NextAt(s, k + 1)), sentinel, lists[j], seqs[j])
    {
      assert Threads(links, sentinel, lists[j], seqs[j]) && Threads(links, sentinel, lists[i], s);
      forall m | 0 <= m < |seqs[j]|
        ensures seqs[j][m] !in s
      {
        assert Listed(seqs, j, seqs[j][m]) && !Listed(seqs, i, seqs[j][m]);
      }
      RemoveSparesOthers(links, sentinel, s, k, lists[j], seqs[j]);
    }
    assert Threads(links, sentinel, lists[i], s);
    forall j: nat, x: nat
      ensures Listed(seqs', j, x) <==> Listed(seqs, j, x) && x != s[k]
    {
      RemoveAtMembers(s, k, x);
      assert Listed(seqs, j, x) && x == s[k] ==> j == i;
    }
  }

  /** Where an entry goes in a list. */
  datatype Place = Front | Back | Before(at: nat)

  ghost predicate Fits(s: seq<nat>, place: Place, k: nat) {
    match place
    case Front => k == 0
    case Back => k == |s|
    case Before(at) => k < |s| && s[k] == at
  }

  class Weave {
    const space: Space
    var lists: seq<IList>
    ghost var spelled: seq<seq<nat>>

    ghost predicate Valid()
      reads this, space.links
    {
      Woven(space.links[..], space.sentinel, lists, spelled)
    }

    /** Entries all of whose lists are still empty. */
    constructor (nr: nat, sentinel: seq<bool>)
      requires |sentinel| <= NULL
      ensures Valid() && fresh(space) && fresh(space.links)
      ensures space.sentinel == sentinel && space.links.Length == |sentinel| && spelled == seq(nr, _ => [])
    {
      space := new Space(sentinel);
      lists := seq(nr, _ => IList(0, NULL, NULL));
      spelled := seq(nr, _ => []);
    }

    /** `l_empty` */
    predicate Empty(i: nat)
      requires Valid() && i < |lists|
      reads this, space.links
      ensures Empty(i) <==> spelled[i] == []
    {
      assert Threads(space.links[..], space.sentinel, lists[i], spelled[i]);
      lists[i].head == NULL
    }

    /** Number of members that are not sentinels. */
    function Size(i: nat): (n: nat)
      requires Valid() && i < |lists|
      reads this, space.links
      ensures Threads(space.links[..], space.sentinel, lists[i], spelled[i]) && n == Count(space.sentinel, spelled[i])
    {
      assert Threads(space.links[..], space.sentinel, lists[i], spelled[i]);
      lists[i].nrElts
    }

    /** `l_add_head`, `l_add_tail` and `l_add_before` */
    method Put(i: nat, e: nat, place: Place, ghost k: nat)
      requires Valid() && i < |lists| && e < space.links.Length && Nowhere(spelled, e)
      requires k <= |spelled[i]| && Fits(spelled[i], place, k)
      modifies this, space.links
      ensures Valid() && spelled == old(spelled)[i := InsertAt(old(spelled)[i], k, e)]
    {
      ghost var links, s := space.links[..], spelled[i];
      assert Threads(links, space.sentinel, lists[i], s) && !Listed(spelled, i, e);
      var l;
      match place {
        case Front => l := space.AddHead(lists[i], e, s);
        case Back => l := space.AddTail(lists[i], e, s);
        case Before(at) => l := space.AddBefore(lists[i], at, e, s, k);
      }
      InsertWeaves(links, space.sentinel, lists, spelled, i, k, e, l);
      lists, spelled := lists[i := l], spelled[i := InsertAt(s, k, e)];
    }

    /** `l_del` */
    method Take(i: nat, e: nat, ghost k: nat)
      requires Valid() && i < |lists| && k < |spelled[i]| && spelled[i][k] == e
      modifies this, space.links
      ensures Valid() && spelled == old(spelled)[i := RemoveAt(old(spelled)[i], k)] && Nowhere(spelled, e)
    {
      ghost var links, s := space.links[..], spelled[i];
      assert Threads(links, space.sentinel, lists[i], s);
      var l := space.Del(lists[i], e, s, k);
      RemoveWeaves(links, space.sentinel, lists, spelled, i, k, l);
      lists, spelled := lists[i := l], spelled[i := RemoveAt(s, k)];
    }

    /** The first member that is no sentinel, and how many sentinels stand before it. */
    method First(i: nat) returns (found: bool, e: nat, k: nat)
      requires Valid() && i < |lists|
      ensures k <= |spelled[i]| && forall j :: 0 <= j < k ==> IsSentinel(spelled[i][j])
      ensures if found then k < |spelled[i]| && spelled[i][k] == e && IsItem(e) else k == |spelled[i]|
    {
      ghost var s := spelled[i];
      assert Threads(space.links[..], space.sentinel, lists[i], s);
      e, k := lists[i].head, 0;
      while e != NULL && space.sentinel[e]
        invariant 0 <= k <= |s| && e == NextAt(s, k)
        invariant forall j :: 0 <= j < k ==> IsSentinel(s[j])
        decreases |s| - k
      {
        assert space.links[..][s[k]] == LinkAt(s, k);
        e := space.links[e].next;
        k := k + 1;
      }
      found := e != NULL;
    }

    ghost predicate IsSentinel(e: nat) {
      e < |space.sentinel| && space.sentinel[e]
    }

    ghost predicate IsItem(e: nat) {
      e < |space.sentinel| && !space.sentinel[e]
    }

    /** `l_pop_head` and `l_pop_tail`: takes out the first or the last member that is no sentinel. */
    method Pop(i: nat, last: bool) returns (found: bool, e: nat, ghost k: nat)
      requires Valid() && i < |lists|
      modifies this, space.links
      ensures Valid() && (found <==> old(lists)[i].nrElts > 0)
      ensures !found ==> spelled == old(spelled)
      ensures found ==>
                && k < |old(spelled)[i]| && old(spelled)[i][k] == e && IsItem(e)
                && (last ==> forall j :: k < j < |old(spelled)[i]| ==> IsSentinel(old(spelled)[i][j]))
                && (!last ==> forall j :: 0 <= j < k ==> IsSentinel(old(spelled)[i][j]))
                && spelled == old(spelled)[i := RemoveAt(old(spelled)[i], k)] && Nowhere(spelled, e)
    {
      ghost var links, s := space.links[..], spelled[i];
      assert Threads(links, space.sentinel, lists[i], s);
      var l;
      if last {
        found, e, l, k := space.PopTail(lists[i], s);
      } else {
        found, e, l, k := space.PopHead(lists[i], s);
      }
      if found {
        RemoveWeaves(links, space.sentinel, lists, spelled, i, k, l);
        lists, spelled := lists[i := l], spelled[i := RemoveAt(s, k)];
      }
    }
  }
}
