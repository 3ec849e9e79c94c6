/** The metadata of dm-era: for each block the era that last wrote it, kept partly in the write sets
    of archived eras and partly in an array into which a coroutine digests them.

    The tree of archived write sets is a map from eras to bits.  The device keeps its size.
 */
module Era {

  const INSERTS_PER_STEP: nat := 100

  datatype Step = Nothing | LookUp | Transcribe | RemoveSet

  datatype Digest = Digest(step: Step, era: nat, bits: seq<bool>, nrBits: nat, bit: nat)

  datatype Metadata = Metadata(nr: nat,                    // nr_blocks
                               current: nat,               // current_era
                               live: bool,                 // whether the current write set has a root
                               writes: seq<bool>,          // the current write set
                               tree: map<nat, seq<bool>>,  // archived write sets
                               eras: seq<nat>,             // the era array
                               digest: Digest)

  function Min(a: nat, b: nat): nat {
    if a < b then a else b
  }

  ghost predicate Marks(tree: map<nat, seq<bool>>, k: nat, b: nat) {
    k in tree && b < |tree[k]| && tree[k][b]
  }

  /** The last archived era that wrote a block: the latest one whose write set has it, else what
      the array says. */
  ghost predicate LastWrote(m: Metadata, b: nat, era: nat)
    requires b < |m.eras|
  {
    if exists k: nat :: Marks(m.tree, k, b)
    then Marks(m.tree, era, b) && forall k: nat :: Marks(m.tree, k, b) ==> k <= era
    else era == m.eras[b]
  }

  /** Write sets have a bit for every block and belong to past eras; the array knows of no later
      era than any of them. */
  ghost predicate Ordered(m: Metadata) {
    && |m.eras| == m.nr && |m.writes| == m.nr
    && (forall k :: k in m.tree ==> |m.tree[k]| == m.nr && k <= m.current && (m.live ==> k < m.current))
    && (forall k, b :: k in m.tree && 0 <= b < m.nr ==> m.eras[b] <= k)
    && (forall b :: 0 <= b < m.nr ==> m.eras[b] <= m.current)
  }

  /** The write set being digested is the earliest one, and the array has its bits so far. */
  ghost predicate Digesting(m: Metadata) {
    var d := m.digest;
    d.step == Transcribe || d.step == RemoveSet ==>
      && d.era in m.tree && d.bits == m.tree[d.era] && d.nrBits == m.nr == |m.eras| && d.bit <= d.nrBits
      && (forall k :: k in m.tree ==> d.era <= k)
      && |d.bits| == m.nr
      && (forall b :: 0 <= b < (if d.step == RemoveSet then m.nr else d.bit) && d.bits[b] ==> m.eras[b] == d.era)
  }

  ghost predicate Sound(m: Metadata) {
    Ordered(m) && Digesting(m)
  }

  /** The answer is the same for every block. */
  ghost predicate SameAnswers(m: Metadata, m': Metadata) {
    && |m'.eras| == |m.eras|
    && forall b, era :: 0 <= b < |m.eras| ==> (LastWrote(m', b, era) <==> LastWrote(m, b, era))
  }

  /** `metadata_digest_start` */
  method DigestStart(m: Metadata) returns (m': Metadata)
    requires Sound(m)
    ensures Sound(m') && SameAnswers(m, m') && m' == m.(digest := m'.digest)
    ensures if m.digest.step == Nothing then m'.digest.step == LookUp else m' == m
  {
    m' := if m.digest.step != Nothing then m else m.(digest := Digest(LookUp, 0, [], 0, 0));
  }

  /** `dm_btree_find_lowest_key` */
  method LowestKey(tree: map<nat, seq<bool>>) returns (found: bool, key: nat)
    ensures found <==> tree != map[]
    ensures found ==> key in tree && forall k :: k in tree ==> key <= k
  {
    var left := tree.Keys;
    found, key := false, 0;
    while left != {}
      invariant left <= tree.Keys
      invariant found <==> tree.Keys - left != {}
      invariant found ==> key in tree && forall k :: k in tree && k !in left ==> key <= k
      decreases |left|
    {
      var k :| k in left;
      left := left - {k};
      if !found || k < key {
        found, key := true, k;
      }
    }
  }

  /** `metadata_digest_lookup_writeset`: takes up the earliest write set, or stops. */
  method DigestLookUp(m: Metadata) returns (m': Metadata)
    requires Sound(m) && m.digest.step == LookUp
    ensures Sound(m') && SameAnswers(m, m') && m' == m.(digest := m'.digest)
    ensures m'.digest.step == Transcribe ==> m'.digest.bit == 0
    ensures m'.digest.step == if m.tree == map[] then Nothing else Transcribe
  {
    var found, key := LowestKey(m.tree);
    if found {
      m' := m.(digest := Digest(Transcribe, key, m.tree[key], Min(|m.tree[key]|, m.nr), 0));
    } else {
      m' := m.(digest := m.digest.(step := Nothing));
    }
  }

  /** Setting one entry of the array to an era whose write set has the block changes no answer. */
  lemma Transcribed(m: Metadata, b: nat)
    requires Sound(m) && m.digest.step == Transcribe && b < m.nr && m.digest.bits[b]
    ensures SameAnswers(m, m.(eras := m.eras[b := m.digest.era]))
  {
    var m' := m.(eras := m.eras[b := m.digest.era]);
    assert Marks(m.tree, m.digest.era, b);
    forall c, era | 0 <= c < |m.eras|
      ensures LastWrote(m', c, era) <==> LastWrote(m, c, era)
    {
    }
  }

  /** One bit of the write set goes into the array. */
  method TranscribeBit(m: Metadata) returns (m': Metadata)
    requires Sound(m) && m.digest.step == Transcribe && m.digest.bit < m.digest.nrBits
    ensures Sound(m') && SameAnswers(m, m')
    ensures m' == m.(eras := m'.eras, digest := m.digest.(bit := m.digest.bit + 1))
  {
    var b := m.digest.bit;
    m' := m;
    if m.digest.bits[b] {
      Transcribed(m, b);
      m' := m.(eras := m.eras[b := m.digest.era]);
    }
    m' := m'.(digest := m'.digest.(bit := b + 1));
  }

  lemma AnswersTrans(a: Metadata, b: Metadata, c: Metadata)
    requires SameAnswers(a, b) && SameAnswers(b, c)
    ensures SameAnswers(a, c)
  {
  }

  /** `metadata_digest_transcribe_writeset`: a hundred bits of the write set go into the array.
      An entry that cannot be set stops the digestion. */
  method DigestTranscribe(m: Metadata, failing: set<nat>) returns (m': Metadata)
    requires Sound(m) && m.digest.step == Transcribe
    ensures Sound(m') && SameAnswers(m, m') && m' == m.(eras := m'.eras, digest := m'.digest)
    ensures
      var e := Min(m.digest.bit + INSERTS_PER_STEP, m.digest.nrBits);
      if exists b :: m.digest.bit <= b < e && m.digest.bits[b] && b in failing then m'.digest.step == Nothing
      else m'.digest == m.digest.(bit := e, step := if e == m.digest.nrBits then RemoveSet else Transcribe)
  {
    m' := m;
    var e := Min(m.digest.bit + INSERTS_PER_STEP, m.digest.nrBits);
    while m'.digest.bit < e
      invariant m.digest.bit <= m'.digest.bit <= e
      invariant m' == m.(eras := m'.eras, digest := m.digest.(bit := m'.digest.bit))
      invariant Sound(m') && SameAnswers(m, m')
      invariant forall b :: m.digest.bit <= b < m'.digest.bit && m.digest.bits[b] ==> b !in failing
    {
      ghost var before := m';
      if m'.digest.bits[m'.digest.bit] && m'.digest.bit in failing {
        m' := m'.(digest := m'.digest.(step := Nothing));
        return;
      }
      m' := TranscribeBit(m');
      AnswersTrans(m, before, m');
    }
    if m'.digest.bit == m'.digest.nrBits {
      m' := m'.(digest := m'.digest.(step := RemoveSet));
    }
  }

  /** `metadata_digest_remove_writeset`: the write set has been transcribed and goes. */
  method DigestRemove(m: Metadata) returns (m': Metadata)
    requires Sound(m) && m.digest.step == RemoveSet
    ensures Sound(m') && SameAnswers(m, m')
    ensures m' == m.(tree := m.tree - {m.digest.era}, digest := m.digest.(step := LookUp))
  {
    m' := m.(tree := m.tree - {m.digest.era}, digest := m.digest.(step := LookUp));
    forall b, era | 0 <= b < |m.eras|
      ensures LastWrote(m', b, era) <==> LastWrote(m, b, era)
    {
      RemovedSet(m, m', b, era);
    }
  }

  lemma RemovedSet(m: Metadata, m': Metadata, b: nat, era: nat)
    requires Sound(m) && m.digest.step == RemoveSet && b < m.nr
    requires m' == m.(tree := m.tree - {m.digest.era}, digest := m.digest.(step := LookUp))
    ensures LastWrote(m', b, era) <==> LastWrote(m, b, era)
  {
    var d := m.digest.era;
    assert forall k: nat :: Marks(m'.tree, k, b) <==> Marks(m.tree, k, b) && k != d;
    if exists k: nat :: Marks(m'.tree, k, b) {
      var k: nat :| Marks(m'.tree, k, b);
      assert Marks(m.tree, k, b) && d < k;
    } else if Marks(m.tree, d, b) {
      assert m.eras[b] == d;
    }
  }

  /** When digestion has drained, the array alone gives the answer. */
  lemma Drained(m: Metadata, b: nat)
    requires Sound(m) && m.tree == map[] && b < m.nr
    ensures LastWrote(m, b, m.eras[b])
  {
  }

  /** There is one answer for each block. */
  lemma OneAnswer(m: Metadata, b: nat, x: nat, y: nat)
    requires b < |m.eras| && LastWrote(m, b, x) && LastWrote(m, b, y)
    ensures x == y
  {
  }

  /** A block is written in the current era. */
  method MarkBlock(m: Metadata, b: nat) returns (m': Metadata)
    requires Sound(m) && b < m.nr
    ensures Sound(m') && SameAnswers(m, m') && m' == m.(writes := m.writes[b := true])
  {
    m' := m.(writes := m.writes[b := true]);
  }

  /** `metadata_era_archive`: the blocks of the current write set were last written in this era, all
      others as before. */
  method Archive(m: Metadata) returns (m': Metadata)
    requires Sound(m) && m.live
    ensures Sound(m') && m' == m.(tree := m.tree[m.current := m.writes], live := false)
    ensures forall b, era :: 0 <= b < m.nr ==>
            (LastWrote(m', b, era) <==> if m.writes[b] then era == m.current else LastWrote(m, b, era))
  {
    m' := m.(tree := m.tree[m.current := m.writes], live := false);
    forall b, era | 0 <= b < m.nr
      ensures LastWrote(m', b, era) <==> if m.writes[b] then era == m.current else LastWrote(m, b, era)
    {
      Archived(m, m', b, era);
    }
  }

  lemma Archived(m: Metadata, m': Metadata, b: nat, era: nat)
    requires Sound(m) && m.live && b < m.nr && m' == m.(tree := m.tree[m.current := m.writes], live := false)
    ensures LastWrote(m', b, era) <==> if m.writes[b] then era == m.current else LastWrote(m, b, era)
  {
    assert forall k: nat :: Marks(m'.tree, k, b) <==> Marks(m.tree, k, b) || (k == m.current && m.writes[b]);
    if m.writes[b] {
      assert Marks(m'.tree, m.current, b);
    }
  }

  /** `metadata_new_era` */
  method NewEra(m: Metadata) returns (m': Metadata)
    requires Sound(m) && !m.live
    ensures Sound(m') && SameAnswers(m, m')
    ensures m' == m.(writes := seq(m.nr, _ => false), live := true, current := m.current + 1)
  {
    m' := m.(writes := seq(m.nr, _ => false), live := true, current := m.current + 1);
  }

  /** Every block was last written in the era that `seen` has for it: the current one if the current write
      set has the block, else the one the metadata answers with. */
  ghost predicate Records(m: Metadata, seen: seq<nat>) {
    && |seen| == m.nr == |m.eras| == |m.writes|
    && forall b :: 0 <= b < m.nr ==> if m.live && m.writes[b] then seen[b] == m.current else LastWrote(m, b, seen[b])
  }

  lemma RecordsKept(m: Metadata, m': Metadata, seen: seq<nat>)
    requires Records(m, seen) && SameAnswers(m, m') && m'.nr == m.nr
    requires m'.live == m.live && m'.writes == m.writes && m'.current == m.current
    ensures Records(m', seen)
  {
  }

  /** How far a digestion is from removing a write set. */
  ghost function Distance(d: Digest): nat {
    match d.step
    case LookUp => 2
    case Transcribe => 1
    case _ => 0
  }

  class EraDevice {
    var md: Metadata
    ghost var seen: seq<nat>    // for each block the era that last wrote it

    ghost predicate Valid()
      reads this
    {
      Sound(md) && Records(md, seen)
    }

    constructor (nr: nat)
      ensures Valid() && md.nr == nr && md.tree == map[] && !md.live && seen == seq(nr, _ => 0)
    {
      md := Metadata(nr, 0, false, seq(nr, _ => false), map[], seq(nr, _ => 0), Digest(Nothing, 0, [], 0, 0));
      seen := seq(nr, _ => 0);
    }

    /** `metadata_era_rollover`: every block written in the era has that era as its answer then. */
    method Rollover()
      requires Valid()
      modifies `md
      ensures Valid() && md.live && md.writes == seq(md.nr, _ => false) && md.digest == old(md.digest)
      ensures md.current == old(md.current) + 1 && md.nr == old(md.nr) && md.eras == old(md.eras)
      ensures forall b :: 0 <= b < md.nr ==> LastWrote(md, b, seen[b])
      ensures forall b, era :: 0 <= b < md.nr ==>
                (LastWrote(md, b, era) <==>
                 if old(md.live && md.writes[b]) then era == old(md.current) else LastWrote(old(md), b, era))
    {
      if md.live {
        md := Archive(md);
      }
      md := NewEra(md);
    }

    /** A write to a block of a live era; without one there is no write set to note it in. */
    method Write(b: nat)
      requires Valid() && b < md.nr
      modifies this
      ensures Valid() && SameAnswers(old(md), md) && md == old(md).(writes := old(md.writes)[b := true])
      ensures seen == if md.live then old(seen)[b := md.current] else old(seen)
    {
      md := MarkBlock(md, b);
      if md.live {
        seen := seen[b := md.current];
      }
    }

    /** `process_old_eras`, or the start of a digestion: no answer changes. */
    method DigestStep(failing: set<nat>)
      requires Valid()
      modifies `md
      ensures Valid() && SameAnswers(old(md), md)
      ensures md == old(md).(tree := md.tree, eras := md.eras, digest := md.digest)
      ensures md.tree == if old(md.digest.step) == RemoveSet then old(md.tree) - {old(md.digest.era)} else old(md.tree)
      ensures old(md.digest.step) != Transcribe ==> md.eras == old(md.eras)
      ensures failing == {} ==>
                match old(md.digest.step)
                case Nothing => md.digest.step == LookUp
                case LookUp => md.digest.step == if md.tree == map[] then Nothing else Transcribe
                case Transcribe =>
                  md.digest.step == RemoveSet || (md.digest.step == Transcribe && md.digest.bit > old(md.digest.bit))
                case RemoveSet => md.digest.step == LookUp
    {
      ghost var before := md;
      match md.digest.step {
        case Nothing => md := DigestStart(md);
        case LookUp => md := DigestLookUp(md);
        case Transcribe => md := DigestTranscribe(md, failing);
        case RemoveSet => md := DigestRemove(md);
      }
      RecordsKept(before, md, seen);
    }

    /** A digestion that meets no error ends, with no write set left and the answers in the array. */
    method DigestAll()
      requires Valid()
      modifies `md
      ensures Valid() && md.digest.step == Nothing && md.tree == map[]
      ensures md == old(md).(tree := map[], eras := md.eras, digest := md.digest)
      ensures forall b :: 0 <= b < md.nr && !(md.live && md.writes[b]) ==> md.eras[b] == seen[b]
    {
      DigestStep({});
      while md.digest.step != Nothing
        invariant Valid() && md == old(md).(tree := md.tree, eras := md.eras, digest := md.digest)
        invariant md.digest.step == Nothing ==> md.tree == map[]
        decreases |md.tree|, Distance(md.digest), if md.digest.bit <= md.nr then md.nr - md.digest.bit else 0
      {
        DigestStep({});
      }
    }
  }
}
