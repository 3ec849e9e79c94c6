/** Commit sequence numbers and the ids that stamp every journal sector.

    Each journal sector ends in a 64-bit commit id.  The id is one of four per-device
    constants, selected by a sequence number modulo four and xor-ed with a mask made from
    the position of the sector, so that replay can tell which pass over the ring wrote it.
    A 64-bit word is the sequence of its bits.
 */
module CommitIds {

  const N_COMMIT_IDS := 4

  type CommitSeq = s: nat | s < N_COMMIT_IDS

  /** One step back modulo four. */
  function Prev(s: CommitSeq): CommitSeq {
    if s == 0 then N_COMMIT_IDS - 1 else s - 1
  }

  /** One step forward modulo four. */
  function Next(s: CommitSeq): CommitSeq {
    if s == N_COMMIT_IDS - 1 then 0 else s + 1
  }

  type Word = w: seq<bool> | |w| == 64 witness seq(64, _ => false)

  function Xor(a: Word, b: Word): Word {
    seq(64, i requires 0 <= i < 64 => a[i] != b[i])
  }

  /** Xor with a mask is injective. */
  lemma XorCancels(a: Word, b: Word, mask: Word)
    requires Xor(a, mask) == Xor(b, mask)
    ensures a == b
  {
    forall i | 0 <= i < 64
      ensures a[i] == b[i]
    {
      assert Xor(a, mask)[i] == Xor(b, mask)[i];
    }
  }

  /** The four constants are pairwise different; journal creation bumps them until they are. */
  predicate Distinct(ids: seq<Word>) {
    && |ids| == N_COMMIT_IDS
    && forall a, b :: 0 <= a < b < N_COMMIT_IDS ==> ids[a] != ids[b]
  }

  function CommitId(ids: seq<Word>, mask: Word, s: CommitSeq): Word
    requires |ids| == N_COMMIT_IDS
  {
    Xor(ids[s], mask)
  }

  /** The sequence number an id stands for under a mask, or -1 for none. */
  ghost function SeqOf(ids: seq<Word>, mask: Word, id: Word): (k: int)
    requires |ids| == N_COMMIT_IDS
    ensures k == -1 || (0 <= k < N_COMMIT_IDS && CommitId(ids, mask, k) == id)
  {
    if k: CommitSeq :| CommitId(ids, mask, k) == id then k else -1
  }

  /** A stamp is read back as the sequence number it was made from, and only that one. */
  lemma StampIsRecognised(ids: seq<Word>, mask: Word, s: CommitSeq)
    requires Distinct(ids)
    ensures SeqOf(ids, mask, CommitId(ids, mask, s)) == s
  {
    var k := SeqOf(ids, mask, CommitId(ids, mask, s));
    XorCancels(ids[k], ids[s], mask);
  }

  /** Looks an id up among the four ids valid at a position; -1 is the error return. */
  method FindCommitSeq(ids: seq<Word>, mask: Word, id: Word) returns (k: int)
    requires Distinct(ids)
    ensures k == SeqOf(ids, mask, id)
  {
    var n := 0;
    while n < N_COMMIT_IDS
      invariant 0 <= n <= N_COMMIT_IDS
      invariant forall m: CommitSeq :: m < n ==> CommitId(ids, mask, m) != id
    {
      if CommitId(ids, mask, n) == id {
        StampIsRecognised(ids, mask, n);
        return n;
      }
      n := n + 1;
    }
    k := -1;
  }
}
