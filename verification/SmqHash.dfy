/** The chained hash table of the smq cache policy: buckets hold the index of a first entry, and
    each entry the index of the next one.
 */
module SmqHash {
  import opened IndexList
  import opened Sequences

  /** The index stored after the i-th member of a chain. */
  function After(s: seq<nat>, i: nat): nat
    requires i < |s|
  {
    if i + 1 < |s| then s[i + 1] else NULL
  }

  function First(s: seq<nat>): nat {
    if |s| == 0 then NULL else s[0]
  }

  /** Following the links from a bucket spells out s. */
  ghost predicate Chain(next: seq<nat>, head: nat, s: seq<nat>) {
    && head == First(s)
    && (forall i :: 0 <= i < |s| ==> s[i] < |next|)
    && (forall i {:trigger After(s, i)} :: 0 <= i < |s| ==> next[s[i]] == After(s, i))
  }

  /** The chain of a bucket: its links, no repetitions, and only entries that hash to it. */
  ghost predicate BucketOk(next: seq<nat>, head: nat, s: seq<nat>, oblock: seq<nat>, hash: nat -> nat, b: nat) {
    && Chain(next, head, s) && NoDup(s)
    && forall x :: x in s ==> x < |oblock| && hash(oblock[x]) == b
  }

  /** Changing the link of an entry outside a chain does not disturb it. */
  lemma OtherChain(next: seq<nat>, head: nat, s: seq<nat>, e: nat, to: nat)
    requires Chain(next, head, s) && e < |next| && e !in s
    ensures Chain(next[e := to], head, s)
  {
    forall i {:trigger After(s, i)} | 0 <= i < |s|
      ensures next[e := to][s[i]] == After(s, i)
    {
      assert s[i] != e;
    }
  }

  /** `__h_insert` puts an entry at the head of a chain. */
  lemma InsertChain(next: seq<nat>, head: nat, s: seq<nat>, e: nat)
    requires Chain(next, head, s) && NoDup(s) && e < |next| && e !in s
    ensures Chain(next[e := head], e, [e] + s) && NoDup([e] + s)
  {
    var t := [e] + s;
    assert forall i :: 0 <= i < |t| ==> t[i] < |next|;
    forall i {:trigger After(t, i)} | 0 <= i < |t|
      ensures next[e := head][t[i]] == After(t, i)
    {
      if i > 0 { assert After(s, i - 1) == After(t, i) && s[i - 1] == t[i]; }
    }
  }

  /** `__h_unlink` of a chain's first member needs no change of links. */
  lemma UnlinkFirst(next: seq<nat>, head: nat, s: seq<nat>)
    requires Chain(next, head, s) && NoDup(s) && |s| > 0
    ensures head < |next| && Chain(next, next[head], RemoveAt(s, 0))
  {
    var t := RemoveAt(s, 0);
    assert After(s, 0) == First(t);
    forall i {:trigger After(t, i)} | 0 <= i < |t|
      ensures next[t[i]] == After(t, i)
    {
      assert t[i] == s[i + 1] && After(t, i) == After(s, i + 1);
    }
  }

  /** `__h_unlink` of a later member redirects the link before it. */
  lemma UnlinkLater(next: seq<nat>, head: nat, s: seq<nat>, k: nat)
    requires Chain(next, head, s) && NoDup(s) && 0 < k < |s|
    ensures s[k - 1] < |next| && s[k] < |next|
    ensures Chain(next[s[k - 1] := next[s[k]]], head, RemoveAt(s, k))
  {
    var t := RemoveAt(s, k);
    assert After(s, k) == next[s[k]];
    assert After(s, k - 1) == s[k];
    forall i {:trigger After(t, i)} | 0 <= i < |t|
      ensures next[s[k - 1] := next[s[k]]][t[i]] == After(t, i)
    {
      if i < k {
        assert t[i] == s[i] && After(s, i) == next[s[i]];
      } else {
        assert t[i] == s[i + 1] && After(s, i + 1) == next[s[i + 1]];
      }
    }
  }

  ghost function AllOf(chains: seq<seq<nat>>): set<nat> {
    set b, i | 0 <= b < |chains| && 0 <= i < |chains[b]| :: chains[b][i]
  }

  /** Replacing one chain by one with a member more or less. */
  lemma AllOfUpdate(chains: seq<seq<nat>>, h: nat, t: seq<nat>, e: nat, add: bool)
    requires h < |chains|
    requires forall x :: x in t <==> if add then x in chains[h] || x == e else x in chains[h] && x != e
    requires !add ==> forall b :: 0 <= b < |chains| && b != h ==> e !in chains[b]
    ensures AllOf(chains[h := t]) == if add then AllOf(chains) + {e} else AllOf(chains) - {e}
  {
    var c := chains[h := t];
    forall x
      ensures x in AllOf(c) <==> if add then x in AllOf(chains) || x == e else x in AllOf(chains) && x != e
    {
      if b, i :| 0 <= b < |c| && 0 <= i < |c[b]| && c[b][i] == x {
        assert x in c[b];
        if b != h || x in chains[h] {
          var j :| 0 <= j < |chains[b]| && chains[b][j] == x;
        }
      }
      if b, i :| 0 <= b < |chains| && 0 <= i < |chains[b]| && chains[b][i] == x && (add || x != e) {
        assert x in chains[b];
        assert x in c[b];
        var j :| 0 <= j < |c[b]| && c[b][j] == x;
      }
      if add {
        assert e in c[h];
        var j :| 0 <= j < |c[h]| && c[h][j] == e;
      }
    }
  }

  class HashTable {
    const hash: nat -> nat          // hash_64, reduced to the number of buckets
    var oblock: seq<nat>            // the block each entry maps
    var buckets: seq<nat>
    var next: seq<nat>              // hash_next of each entry
    ghost var chains: seq<seq<nat>>

    ghost predicate Valid()
      reads this
    {
      && |chains| == |buckets| && |next| == |oblock| <= NULL
      && (forall o :: hash(o) < |buckets|)
      && (forall b :: 0 <= b < |buckets| ==> BucketOk(next, buckets[b], chains[b], oblock, hash, b))
    }

    /** The entries in the table. */
    ghost function Contents(): set<nat>
      reads this
    {
      AllOf(chains)
    }

    /** No two entries in the table map the same block. */
    ghost predicate Distinct()
      reads this
    {
      forall x, y ::
        x in Contents() && y in Contents() && x < |oblock| && y < |oblock| && oblock[x] == oblock[y] ==> x == y
    }

    /** `h_init` */
    constructor (hash: nat -> nat, nrEntries: nat, nrBuckets: nat)
      requires nrEntries <= NULL && forall o :: hash(o) < nrBuckets
      ensures Valid() && Contents() == {} && this.hash == hash && oblock == seq(nrEntries, _ => 0)
    {
      this.hash, oblock := hash, seq(nrEntries, _ => 0);
      buckets := seq(nrBuckets, _ => NULL);
      next := seq(nrEntries, _ => NULL);
      chains := seq(nrBuckets, _ => []);
    }

    /** Only entries that hash to a bucket are in its chain. */
    lemma InItsBucket(x: nat)
      requires Valid()
      ensures x in Contents() <==> x < |oblock| && x in chains[hash(oblock[x])]
    {
      if x in Contents() {
        var b, i :| 0 <= b < |chains| && 0 <= i < |chains[b]| && chains[b][i] == x;
        assert x in chains[b];
      }
    }

    /** An entry that is not in the table may be given another block. */
    method SetBlock(e: nat, o: nat)
      requires Valid() && e < |oblock| && e !in Contents()
      modifies `oblock
      ensures Valid() && oblock == old(oblock)[e := o]
    {
      forall b | 0 <= b < |buckets|
        ensures e !in chains[b]
      {
      }
      oblock := oblock[e := o];
    }

    /** `__h_lookup`: the first entry of the chain that maps the block, and the one before it. */
    method Find(h: nat, o: nat) returns (found: bool, e: nat, prev: nat, ghost k: nat)
      requires Valid() && h == hash(o)
      ensures found ==>
                && k < |chains[h]| && e == chains[h][k] && e < |oblock| && oblock[e] == o
                && prev == if k == 0 then NULL else chains[h][k - 1]
      ensures found <==> exists x :: x in Contents() && x < |oblock| && oblock[x] == o
    {
      ghost var s := chains[h];
      e, prev, k := buckets[h], NULL, 0;
      while e != NULL
        invariant 0 <= k <= |s| && e == if k < |s| then s[k] else NULL
        invariant prev == if k == 0 then NULL else s[k - 1]
        invariant forall i :: 0 <= i < k ==> oblock[s[i]] != o
        decreases |s| - k
      {
        assert s[k] in s;
        if oblock[e] == o {
          InItsBucket(e);
          return true, e, prev, k;
        }
        assert After(s, k) == next[e];
        prev, e, k := e, next[e], k + 1;
      }
      assert k == |s|;
      found := false;
      forall x | x in Contents()
        ensures x < |oblock| && oblock[x] != o
      {
        InItsBucket(x);
      }
    }

    /** `__h_insert` */
    method Insert(h: nat, e: nat)
      requires Valid() && e < |oblock| && h == hash(oblock[e]) && e !in Contents()
      modifies this
      ensures Valid() && Contents() == old(Contents()) + {e}
      ensures chains == old(chains)[h := [e] + old(chains)[h]] && oblock == old(oblock)
    {
      InItsBucket(e);
      ghost var s := chains[h];
      InsertChain(next, buckets[h], s, e);
      forall b | 0 <= b < |chains| && b != h
        ensures Chain(next[e := buckets[h]], buckets[b], chains[b])
      {
        assert e !in chains[b];
        OtherChain(next, buckets[b], chains[b], e, buckets[h]);
      }
      AllOfUpdate(chains, h, [e] + s, e, true);
      next := next[e := buckets[h]];
      buckets := buckets[h := e];
      chains := chains[h := [e] + s];
    }

    /** `__h_unlink` */
    method Unlink(h: nat, e: nat, prev: nat, ghost k: nat)
      requires Valid() && h < |buckets| && k < |chains[h]| && e == chains[h][k]
      requires prev == if k == 0 then NULL else chains[h][k - 1]
      modifies this
      ensures Valid() && Contents() == old(Contents()) - {e} && e !in Contents()
      ensures chains == old(chains)[h := RemoveAt(old(chains)[h], k)] && oblock == old(oblock)
    {
      ghost var s := chains[h];
      NoDupRemove(s, k);
      ghost var t := RemoveAt(s, k);
      forall x
        ensures x in t <==> x in s && x != e
      {
        RemoveAtMembers(s, k, x);
      }
      assert e in s;
      AllOfUpdate(chains, h, t, e, false);
      if prev != NULL {
        assert prev in s;
        UnlinkLater(next, buckets[h], s, k);
        forall b | 0 <= b < |chains| && b != h
          ensures Chain(next[prev := next[e]], buckets[b], chains[b])
        {
          assert prev !in chains[b];
          OtherChain(next, buckets[b], chains[b], prev, next[e]);
        }
        next := next[prev := next[e]];
      } else {
        UnlinkFirst(next, buckets[h], s);
        buckets := buckets[h := next[e]];
      }
      chains := chains[h := t];
    }

    /** `h_lookup`: moves what it finds to the front of its chain. */
    method Lookup(o: nat) returns (found: bool, e: nat)
      requires Valid()
      modifies this
      ensures Valid() && Contents() == old(Contents()) && oblock == old(oblock)
      ensures found ==> e in Contents() && e < |oblock| && oblock[e] == o && chains[hash(o)][0] == e
      ensures found <==> exists x :: x in Contents() && x < |oblock| && oblock[x] == o
    {
      var prev;
      ghost var k;
      found, e, prev, k := Find(hash(o), o);
      if found {
        InItsBucket(e);
        if prev != NULL {
          Unlink(hash(o), e, prev, k);
          Insert(hash(o), e);
        }
      }
    }

    /** `h_remove`, which finds the entry by its block: right when blocks are distinct. */
    method Remove(e: nat)
      requires Valid() && Distinct() && e in Contents() && e < |oblock|
      modifies this
      ensures Valid() && Contents() == old(Contents()) - {e} && oblock == old(oblock)
    {
      var h := hash(oblock[e]);
      var found, e', prev;
      ghost var k;
      found, e', prev, k := Find(h, oblock[e]);
      InItsBucket(e');
      if found {
        Unlink(h, e', prev, k);
      }
    }
  }
}
