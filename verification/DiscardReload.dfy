/** Reloading the discard bits of dm-cache when the size of a discard block may have changed: the
    bits on disk, one per old block, become bits of new blocks that lie wholly in discarded ones.
 */
module DiscardReload {
  import opened Arithmetic

  /** Sectors and the blocks they lie in. */
  lemma InBlock(s: nat, size: nat, k: nat)
    requires size > 0
    ensures s / size < k <==> s < k * size
  {
    var q := s / size;
    assert q * size <= s < q * size + size;
    assert (q + 1) * size == q * size + size;
    if q < k {
      MulMono(q + 1, k, size);
    } else {
      MulMono(k, q, size);
    }
  }

  function DivUp(s: nat, size: nat): nat
    requires size > 0
  {
    (s + size - 1) / size
  }

  /** Rounding up, and down, to whole blocks. */
  lemma RoundUp(s: nat, size: nat, b: nat)
    requires size > 0
    ensures DivUp(s, size) <= b <==> s <= b * size
  {
    InBlock(s + size - 1, size, b + 1);
    assert (b + 1) * size == b * size + size;
  }

  lemma RoundDown(s: nat, size: nat, b: nat)
    requires size > 0
    ensures b < s / size <==> (b + 1) * size <= s
  {
    InBlock(s, size, b + 1);
  }

  function BlockOf(s: nat, size: nat): nat
    requires size > 0
  {
    s / size
  }

  /** The sector lies in an old block, among the first k, that is discarded. */
  ghost predicate Discarded(bits: seq<bool>, size: nat, s: nat, k: nat)
    requires size > 0 && k <= |bits|
  {
    BlockOf(s, size) < k && bits[BlockOf(s, size)]
  }

  ghost predicate AllDiscarded(bits: seq<bool>, size: nat, lo: nat, hi: nat, k: nat)
    requires size > 0 && k <= |bits|
  {
    forall s: nat :: lo <= s < hi ==> Discarded(bits, size, s, k)
  }

  /** Every sector of a new block is discarded. */
  ghost predicate Covered(bits: seq<bool>, oldSize: nat, newSize: nat, b: nat, k: nat)
    requires oldSize > 0 && k <= |bits|
  {
    AllDiscarded(bits, oldSize, b * newSize, (b + 1) * newSize, k)
  }

  /** Old blocks of a run of discards are all discarded, and the one before it is not. */
  ghost predicate IsRun(bits: seq<bool>, begin: nat, end: nat) {
    && begin <= end <= |bits|
    && (forall j :: begin <= j < end ==> bits[j])
    && (begin > 0 ==> !bits[begin - 1])
  }

  /** A stretch of discarded sectors that starts before a run does not reach into it. */
  lemma RunIsSeparate(bits: seq<bool>, size: nat, lo: nat, hi: nat, begin: nat, end: nat)
    requires size > 0 && IsRun(bits, begin, end) && lo < begin * size && AllDiscarded(bits, size, lo, hi, end)
    ensures AllDiscarded(bits, size, lo, hi, begin)
  {
    var last := begin * size - 1;
    assert begin * size == (begin - 1) * size + size;
    InBlock(last, size, begin);
    InBlock(last, size, begin - 1);
    assert !Discarded(bits, size, last, end);
    forall s: nat | lo <= s < hi
      ensures Discarded(bits, size, s, begin)
    {
      InBlock(s, size, begin);
      assert Discarded(bits, size, s, end);
    }
  }

  /** The sectors of a run are discarded. */
  lemma RunIsDiscarded(bits: seq<bool>, size: nat, lo: nat, hi: nat, begin: nat, end: nat)
    requires size > 0 && IsRun(bits, begin, end) && begin * size <= lo && hi <= end * size
    ensures AllDiscarded(bits, size, lo, hi, end)
  {
    forall s: nat | lo <= s < hi
      ensures Discarded(bits, size, s, end)
    {
      InBlock(s, size, end);
      InBlock(s, size, begin);
    }
  }

  lemma More(bits: seq<bool>, size: nat, lo: nat, hi: nat, k: nat, l: nat)
    requires size > 0 && k <= l <= |bits|
    ensures AllDiscarded(bits, size, lo, hi, k) ==> AllDiscarded(bits, size, lo, hi, l)
  {
    forall s: nat | Discarded(bits, size, s, k)
      ensures Discarded(bits, size, s, l)
    {
    }
  }

  /** A run adds the new blocks between its ends to what is covered. */
  lemma RunAdds(bits: seq<bool>, size: nat, lo: nat, hi: nat, begin: nat, end: nat)
    requires size > 0 && IsRun(bits, begin, end) && lo < hi
    ensures AllDiscarded(bits, size, lo, hi, end)
       <==> AllDiscarded(bits, size, lo, hi, begin) || (begin * size <= lo && hi <= end * size)
  {
    if AllDiscarded(bits, size, lo, hi, end) {
      assert Discarded(bits, size, hi - 1, end);
      InBlock(hi - 1, size, end);
      if lo < begin * size {
        RunIsSeparate(bits, size, lo, hi, begin, end);
      }
    }
    More(bits, size, lo, hi, begin, end);
    if begin * size <= lo && hi <= end * size {
      RunIsDiscarded(bits, size, lo, hi, begin, end);
    }
  }

  /** A block that is not discarded covers nothing. */
  lemma GapAdds(bits: seq<bool>, size: nat, lo: nat, hi: nat, k: nat)
    requires size > 0 && k < |bits| && !bits[k]
    ensures AllDiscarded(bits, size, lo, hi, k + 1) <==> AllDiscarded(bits, size, lo, hi, k)
  {
    More(bits, size, lo, hi, k, k + 1);
    if AllDiscarded(bits, size, lo, hi, k + 1) {
      forall s: nat | lo <= s < hi
        ensures Discarded(bits, size, s, k)
      {
        assert Discarded(bits, size, s, k + 1);
      }
    }
  }

  lemma NothingYet(bits: seq<bool>, size: nat, lo: nat, hi: nat)
    requires size > 0 && lo < hi
    ensures !AllDiscarded(bits, size, lo, hi, 0)
  {
    assert !Discarded(bits, size, lo, 0);
  }

  class Loader {
    const bits: seq<bool>           // the discard bits on disk
    const oldSize: nat              // sectors of an old discard block
    const newSize: nat              // sectors of a new one
    const nr: nat                   // discard_nr_blocks
    var begin: nat
    var end: nat
    var bitset: seq<bool>

    /** With the first k bits seen, the bitset has what they cover before the run in progress. */
    ghost predicate Loaded(k: nat)
      reads this
    {
      && oldSize > 0 && newSize > 0 && |bitset| == nr && k <= |bits|
      && (if begin < end then end == k && IsRun(bits, begin, end) else begin == end == 0 && (k > 0 ==> !bits[k - 1]))
      && forall b :: 0 <= b < nr ==>
           (bitset[b] <==> Covered(bits, oldSize, newSize, b, if begin < end then begin else k))
    }

    constructor (bits: seq<bool>, oldSize: nat, newSize: nat, nr: nat)
      requires oldSize > 0 && newSize > 0
      ensures Loaded(0) && this.bits == bits && this.oldSize == oldSize && this.newSize == newSize && this.nr == nr
    {
      this.bits, this.oldSize, this.newSize, this.nr := bits, oldSize, newSize, nr;
      begin, end := 0, 0;
      bitset := seq(nr, _ => false);
      new;
      forall b | 0 <= b < nr
        ensures !Covered(bits, oldSize, newSize, b, 0)
      {
        assert (b + 1) * newSize == b * newSize + newSize;
        NothingYet(bits, oldSize, b * newSize, (b + 1) * newSize);
      }
    }

    /** `set_discard_range`: closes the run in progress, setting the new blocks inside it. */
    method SetDiscardRange(ghost k: nat)
      requires Loaded(k)
      modifies this
      ensures |bitset| == nr && begin == old(begin) && end == old(end)
      ensures forall b :: 0 <= b < nr ==> (bitset[b] <==> Covered(bits, oldSize, newSize, b, k))
    {
      if begin == end {
        return;
      }
      var lo, hi := begin * oldSize, end * oldSize;
      var b, e := DivUp(lo, newSize), hi / newSize;
      if e > nr {
        e := nr;
      }
      ghost var first, before := b, bitset;
      while b < e
        invariant first <= b && (b <= e || b == first) && |bitset| == nr && begin == old(begin) && end == old(end)
        invariant forall c :: 0 <= c < nr ==> (bitset[c] <==> before[c] || first <= c < b)
      {
        bitset := bitset[b := true];
        b := b + 1;
      }
      forall c | 0 <= c < nr
        ensures bitset[c] <==> Covered(bits, oldSize, newSize, c, k)
      {
        RoundUp(lo, newSize, c);
        RoundDown(hi, newSize, c);
        assert (c + 1) * newSize == c * newSize + newSize;
        RunAdds(bits, oldSize, c * newSize, (c + 1) * newSize, begin, end);
      }
    }

    /** `load_discard` of one old block. */
    method LoadDiscard(dblock: nat, discard: bool)
      requires Loaded(dblock) && dblock < |bits| && discard == bits[dblock]
      modifies this
      ensures Loaded(dblock + 1)
    {
      if discard {
        if dblock == end {
          end := end + 1;
        } else {
          SetDiscardRange(dblock);
          begin, end := dblock, dblock + 1;
        }
      } else {
        SetDiscardRange(dblock);
        begin, end := 0, 0;
        forall b | 0 <= b < nr
          ensures Covered(bits, oldSize, newSize, b, dblock + 1) <==> Covered(bits, oldSize, newSize, b, dblock)
        {
          GapAdds(bits, oldSize, b * newSize, (b + 1) * newSize, dblock);
        }
      }
    }

    /** The reload in `cache_preresume`: a new block is discarded exactly when all its sectors lie
        in old blocks that are. */
    method Reload()
      requires Loaded(0)
      modifies this
      ensures |bitset| == nr && forall b :: 0 <= b < nr ==> (bitset[b] <==> Covered(bits, oldSize, newSize, b, |bits|))
    {
      var k := 0;
      while k < |bits|
        invariant 0 <= k <= |bits| && Loaded(k)
      {
        LoadDiscard(k, bits[k]);
        k := k + 1;
      }
      SetDiscardRange(k);
    }
  }
}
