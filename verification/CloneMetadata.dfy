/** The metadata of dm-clone: which regions of the destination device are hydrated, kept in core,
    in two dirty maps, in a working bitset, and in the bitset last committed to disk.

    The persistent-data library is an array of bits with an atomic commit.  The destination
    device has a volatile cache: data is `written` when a copy or overwrite has completed, and
    `durable` once a flush has followed.
 */
module CloneMetadata {

  const BITS: nat := 64             // BITS_PER_LONG

  function Words(n: nat): nat {
    (n + BITS - 1) / BITS
  }

  datatype DirtyMap = DirtyMap(words: seq<bool>, regions: seq<bool>, changed: bool)

  /** Every dirty region lies in a dirty word, and an unchanged map has none. */
  ghost predicate MapOk(d: DirtyMap, n: nat) {
    && |d.regions| == n && |d.words| == Words(n)
    && (forall r :: 0 <= r < n && d.regions[r] ==> InDirtyWord(d.words, r))
    && (!d.changed ==> forall r :: 0 <= r < n ==> !d.regions[r])
  }

  ghost predicate InDirtyWord(words: seq<bool>, r: nat) {
    r / BITS < |words| && words[r / BITS]
  }

  lemma WordInRange(r: nat, n: nat)
    requires r < n
    ensures r / BITS < Words(n)
  {
  }

  function Zeroes(n: nat): seq<bool> {
    seq(n, _ => false)
  }

  /** Marks one region in a dirty map. */
  function MarkRegion(d: DirtyMap, r: nat): DirtyMap
    requires r < |d.regions| && r / BITS < |d.words|
  {
    DirtyMap(d.words[r / BITS := true], d.regions[r := true], true)
  }

  lemma MarkKeeps(d: DirtyMap, n: nat, r: nat)
    requires MapOk(d, n) && r < n
    ensures r / BITS < |d.words| && MapOk(MarkRegion(d, r), n)
  {
    WordInRange(r, n);
    forall q | 0 <= q < n && MarkRegion(d, r).regions[q]
      ensures InDirtyWord(MarkRegion(d, r).words, q)
    {
      if q != r { assert InDirtyWord(d.words, q); }
    }
  }

  /** Bits are moved from a dirty map to a bitset: none is lost and none appears. */
  ghost predicate Moved(bits: seq<bool>, regions: seq<bool>, bits': seq<bool>, regions': seq<bool>) {
    && |bits| == |regions| == |bits'| == |regions'|
    && (forall r :: 0 <= r < |bits| ==> ((bits'[r] || regions'[r]) <==> (bits[r] || regions[r])))
    && (forall r :: 0 <= r < |bits| && bits[r] ==> bits'[r])
    && (forall r :: 0 <= r < |bits| && regions'[r] ==> regions[r])
  }

  /** A region whose bit cannot be set keeps its bit and stays as dirty as it was. */
  ghost predicate Kept(bits: seq<bool>, regions: seq<bool>, bits': seq<bool>, regions': seq<bool>, failing: set<nat>) {
    && |bits| == |regions| == |bits'| == |regions'|
    && (forall r :: 0 <= r < |bits| && r in failing ==> bits'[r] == bits[r] && regions'[r] == regions[r])
  }

  /** `__update_metadata_word`: sets in the bitset the dirty regions of one word, stopping at a
      region whose bit cannot be set. */
  method UpdateMetadataWord(bits: seq<bool>, regions: seq<bool>, word: nat, failing: set<nat>)
    returns (ok: bool, bits': seq<bool>, regions': seq<bool>)
    requires |bits| == |regions|
    ensures Moved(bits, regions, bits', regions') && Kept(bits, regions, bits', regions', failing)
    ensures forall r :: 0 <= r < |bits| && !(word * BITS <= r < (word + 1) * BITS) ==>
              bits'[r] == bits[r] && regions'[r] == regions[r]
    ensures !ok ==> exists r :: 0 <= r < |bits| && r in failing && regions[r]
    ensures ok ==> forall r {:trigger regions'[r]} :: 0 <= r < |bits| && r / BITS == word ==> !regions'[r]
  {
    var index := word * BITS;
    var max := if |bits| < (word + 1) * BITS then |bits| else (word + 1) * BITS;
    bits', regions' := bits, regions;
    while index < max
      invariant word * BITS <= index <= (word + 1) * BITS
      invariant Moved(bits, regions, bits', regions') && Kept(bits, regions, bits', regions', failing)
      invariant forall r :: 0 <= r < |bits| && !(word * BITS <= r < index) ==>
                  bits'[r] == bits[r] && regions'[r] == regions[r]
      invariant forall r :: word * BITS <= r < index && r < |bits| ==> !regions'[r]
    {
      if regions'[index] {
        if index in failing {
          return false, bits', regions';
        }
        bits', regions' := bits'[index := true], regions'[index := false];
      }
      index := index + 1;
    }
    ok := true;
  }

  /** The scan of `__flush_dmap`: every dirty word is written out and cleared. */
  method FlushWords(bits: seq<bool>, d: DirtyMap, failing: set<nat>) returns (ok: bool, bits': seq<bool>, d': DirtyMap)
    requires MapOk(d, |bits|)
    ensures MapOk(d', |bits|) && Moved(bits, d.regions, bits', d'.regions) && d'.changed == d.changed
    ensures Kept(bits, d.regions, bits', d'.regions, failing)
    ensures ok <==> Marked(d.regions) !! failing
    ensures ok ==> forall r :: 0 <= r < |bits| ==> !d'.regions[r]
  {
    bits', d' := bits, d;
    var word := 0;
    while word < |d.words|
      invariant word <= |d.words|
      invariant MapOk(d', |bits|) && Moved(bits, d.regions, bits', d'.regions) && d'.changed == d.changed
      invariant Kept(bits, d.regions, bits', d'.regions, failing)
      invariant forall w :: 0 <= w < word ==> !d'.words[w]
    {
      if d'.words[word] {
        var b, rs;
        ok, b, rs := UpdateMetadataWord(bits', d'.regions, word, failing);
        MovedTrans(bits, d.regions, bits', d'.regions, b, rs);
        ShrinkKeeps(d', |bits|, rs);
        bits', d' := b, d'.(regions := rs);
        if !ok {
          return;
        }
        ClearWord(d', |bits|, word);
        d' := d'.(words := d'.words[word := false]);
      }
      word := word + 1;
    }
    ok := true;
    forall r | 0 <= r < |bits|
      ensures !d'.regions[r]
    {
      WordInRange(r, |bits|);
      assert !InDirtyWord(d'.words, r);
    }
  }

  lemma MovedTrans(a: seq<bool>, b: seq<bool>, a': seq<bool>, b': seq<bool>, a'': seq<bool>, b'': seq<bool>)
    requires Moved(a, b, a', b') && Moved(a', b', a'', b'')
    ensures Moved(a, b, a'', b'')
  {
  }

  lemma ShrinkKeeps(d: DirtyMap, n: nat, regions: seq<bool>)
    requires MapOk(d, n) && |regions| == n && forall r :: 0 <= r < n && regions[r] ==> d.regions[r]
    ensures MapOk(d.(regions := regions), n)
  {
  }

  lemma ClearWord(d: DirtyMap, n: nat, word: nat)
    requires MapOk(d, n) && word < |d.words|
    requires forall r {:trigger d.regions[r]} :: 0 <= r < n && r / BITS == word ==> !d.regions[r]
    ensures MapOk(d.(words := d.words[word := false]), n)
  {
    var d' := d.(words := d.words[word := false]);
    forall r | 0 <= r < n && d'.regions[r]
      ensures InDirtyWord(d'.words, r)
    {
      assert InDirtyWord(d.words, r);
      assert r / BITS != word;
    }
  }

  function Ones(n: nat): seq<bool> {
    seq(n, _ => true)
  }

  ghost function Marked(bits: seq<bool>): set<nat> {
    set r | 0 <= r < |bits| && bits[r]
  }

  lemma MarkedAdd(bits: seq<bool>, r: nat)
    requires r < |bits|
    ensures Marked(bits[r := true]) == Marked(bits) + {r}
  {
  }

  lemma MarkedMoved(bits: seq<bool>, regions: seq<bool>, bits': seq<bool>, regions': seq<bool>)
    requires Moved(bits, regions, bits', regions')
    ensures Marked(bits') + Marked(regions') == Marked(bits) + Marked(regions)
    ensures Marked(regions') <= Marked(regions)
  {
  }
}
