/** What the blocks of a cached device hold while bios and migrations work on them: a migration copies
    a block between the origin and the cache and changes which of the two is read, and the device still
    reads as the array of what was last stored.  The cache is in write-back mode.

    One sector stands for each block: a bio stores it or not, and an overwriting bio covers it or not.
 */
module CacheData {
  import opened Options
  import opened BioPrison
  import opened Migration

  /** A sector on the origin and in the cache block that maps its block, or is being filled for it;
      whether the cache maps the block, and has it as dirty; whether the block is marked as discarded.
      `known` tells that the sector has been stored since it was last discarded, and `covers` that the
      bio that overwrites the block instead of a copy stores it. */
  datatype Sector = Sector(origin: int, cache: int, mapped: bool, dirty: bool, discarded: bool,
                           known: bool, covers: bool)

  /** What a bio reads that is let through. */
  function Content(s: Sector): int {
    if s.mapped then s.cache else s.origin
  }

  /** What the device promises to read. */
  function Shown(s: Sector): Option<int> {
    if s.known then Some(Content(s)) else None
  }

  /** What a migration relies on: before it is over the block is where it was found; what is copied back
      is dirty; after a copy both places agree, and after an overwrite nothing known is missing. */
  ghost predicate MoveOk(m: Mg, s: Sector) {
    && (m.op == PromoteOp <==> !s.mapped)
    && (m.overwrite ==> m.op == PromoteOp)
    && (m.stage == Copying && m.op != PromoteOp ==> s.dirty)
    && (Done(m.stage) && !m.overwrite ==> (s.known ==> s.cache == s.origin))
    && ((m.stage == Copying || Done(m.stage)) && m.overwrite ==> s.covers || !s.known)
  }

  /** A clean sector in the cache is as on the origin; a discarded one is not promised; a bio that may
      store has cleared the discard mark and set the dirty one. */
  ghost predicate SectorOk(s: Sector, holders: multiset<Bio>) {
    && (s.discarded ==> !s.known)
    && (s.known && s.mapped && !s.dirty ==> s.cache == s.origin)
    && (!NoWrites(holders) ==> !s.discarded && (s.mapped ==> s.dirty))
  }

  ghost predicate BlockOk(cells: Cells, mgs: map<nat, Mg>, k: nat, s: Sector) {
    SectorOk(s, Holders(cells, k)) && (k in mgs ==> MoveOk(mgs[k], s))
  }

  ghost predicate AllOk(cells: Cells, mgs: map<nat, Mg>, blocks: seq<Sector>, seen: seq<Option<int>>) {
    && |seen| == |blocks|
    && (forall k :: 0 <= k < |blocks| ==> BlockOk(cells, mgs, k, blocks[k]))
    && (forall k :: 0 <= k < |blocks| ==> seen[k] == Shown(blocks[k]))
  }

  /** Changing one block with its cell and its migration. */
  lemma OneChanged(cells: Cells, mgs: map<nat, Mg>, blocks: seq<Sector>, seen: seq<Option<int>>,
                   cells': Cells, mgs': map<nat, Mg>, k: nat, s: Sector)
    requires AllOk(cells, mgs, blocks, seen) && k < |blocks|
    requires Only(cells, cells', k) && mgs' - {k} == mgs - {k} && BlockOk(cells', mgs', k, s)
    ensures AllOk(cells', mgs', blocks[k := s], seen[k := Shown(s)])
  {
    forall j | 0 <= j < |blocks| && j != k
      ensures BlockOk(cells', mgs', j, blocks[j])
    {
      assert BlockOk(cells, mgs, j, blocks[j]);
      assert j in mgs' <==> j in mgs' - {k};
      assert j in mgs <==> j in mgs - {k};
      if j in mgs { assert (mgs' - {k})[j] == (mgs - {k})[j]; }
    }
  }

  /** A migration goes on, perhaps with its sector changed in a way the device does not show. */
  lemma GoesOn(cells: Cells, mgs: map<nat, Mg>, blocks: seq<Sector>, seen: seq<Option<int>>,
               cells': Cells, k: nat, m: Mg, s: Sector)
    requires AllOk(cells, mgs, blocks, seen) && k < |blocks| && Only(cells, cells', k)
    requires SectorOk(s, Holders(cells', k)) && MoveOk(m, s) && Shown(s) == Shown(blocks[k])
    ensures AllOk(cells', mgs[k := m], blocks[k := s], seen)
    ensures s == blocks[k] ==> AllOk(cells', mgs[k := m], blocks, seen)
  {
    assert mgs[k := m] - {k} == mgs - {k};
    OneChanged(cells, mgs, blocks, seen, cells', mgs[k := m], k, s);
    assert seen[k := Shown(s)] == seen;
    assert s == blocks[k] ==> blocks[k := s] == blocks;
  }

  /** A migration is over. */
  lemma Ends(cells: Cells, mgs: map<nat, Mg>, blocks: seq<Sector>, seen: seq<Option<int>>,
             cells': Cells, k: nat, s: Sector)
    requires AllOk(cells, mgs, blocks, seen) && k < |blocks| && Only(cells, cells', k)
    requires SectorOk(s, Holders(cells', k))
    ensures AllOk(cells', mgs - {k}, blocks[k := s], seen[k := Shown(s)])
    ensures Shown(s) == Shown(blocks[k]) ==> AllOk(cells', mgs - {k}, blocks[k := s], seen)
  {
    OneChanged(cells, mgs, blocks, seen, cells', mgs - {k}, k, s);
    assert Shown(s) == Shown(blocks[k]) ==> seen[k := Shown(s)] == seen;
  }

  lemma BioGone(cells: Cells, mgs: map<nat, Mg>, blocks: seq<Sector>, seen: seq<Option<int>>,
                cells': Cells, mgs': map<nat, Mg>, k: nat, b: Bio)
    requires AllOk(cells, mgs, blocks, seen) && k < |blocks| && Only(cells, cells', k)
    requires Holders(cells', k) == Holders(cells, k) - multiset{b}
    requires mgs' == mgs || (k in mgs && mgs' == mgs[k := Woken(mgs[k])])
    ensures AllOk(cells', mgs', blocks, seen)
  {
    assert BlockOk(cells, mgs, k, blocks[k]);
    if k in mgs && mgs' == mgs[k := Woken(mgs[k])] {
      GoesOn(cells, mgs, blocks, seen, cells', k, Woken(mgs[k]), blocks[k]);
    } else {
      OneChanged(cells, mgs, blocks, seen, cells', mgs, k, blocks[k]);
      assert blocks[k := blocks[k]] == blocks && seen[k := seen[k]] == seen;
    }
  }

  /** A migration that fails leaves the block as it was, though a promotion drops the discard mark. */
  function Failed(s: Sector, op: Op): Sector {
    if op == PromoteOp then s.(discarded := false) else s
  }

  /** What a copy, or the bio that stores x instead, leaves behind; a failed one leaves anything. */
  function CopyEnded(m: Mg, s: Sector, error: bool, x: int, junk: int): Sector {
    if m.overwrite then s.(cache := if error then junk else if s.covers then x else s.cache)
    else if m.op == PromoteOp then s.(cache := if error then junk else s.origin)
    else s.(origin := if error then junk else s.cache)
  }

  /** The copy shows in nothing that is read, and a good one makes both places agree. */
  lemma CopyEndedOk(m: Mg, s: Sector, holders: multiset<Bio>, error: bool, x: int, junk: int)
    requires MoveOk(m, s) && SectorOk(s, holders) && m.stage == Copying
    ensures
      var s' := CopyEnded(m, s, error, x, junk);
      MoveOk(m.(stage := Copied(error)), s') && SectorOk(s', holders) && Shown(s') == Shown(s)
  {
  }

  /** Whether a copy is needed: not of a block that is clean in the cache, nor of a discarded one. */
  predicate Needed(m: Mg, s: Sector) {
    (m.op == PromoteOp || s.dirty) && !s.discarded
  }

  /** Whether a bio may overwrite the block instead. */
  predicate Overwrites(m: Mg, s: Sector, whole: bool) {
    m.overwrite && (whole || s.discarded)
  }

  /** Skipping the copy then, or leaving it to the bio, loses nothing that is known. */
  lemma CopyStartedOk(m: Mg, s: Sector, holders: multiset<Bio>, m': Mg, whole: bool, covers: bool)
    requires MoveOk(m, s) && SectorOk(s, holders) && m.stage == ReadyCopy && (whole ==> covers)
    requires m' == Mg(m.op, Overwrites(m, s, whole),
                      if Overwrites(m, s, whole) || Needed(m, s) then Copying else Copied(false))
    ensures MoveOk(m', s.(covers := covers)) && SectorOk(s.(covers := covers), holders)
  {
  }

  class CachedDevice {
    const target: CacheTarget
    var blocks: seq<Sector>
    ghost var seen: seq<Option<int>>    // the sectors as they were last stored

    ghost predicate Valid()
      reads this, target
    {
      target.Good() && AllOk(target.cells, target.mgs, blocks, seen)
    }

    /** Nothing is cached and all of the origin counts as stored. */
    constructor (origin: seq<int>)
      ensures Valid() && fresh(target) && |seen| == |origin|
      ensures forall k :: 0 <= k < |origin| ==> seen[k] == Some(origin[k])
    {
      target := new CacheTarget();
      blocks := seq(|origin|, k requires 0 <= k < |origin| => Sector(origin[k], 0, false, false, false, true, false));
      seen := seq(|origin|, k requires 0 <= k < |origin| => Some(origin[k]));
    }

    /** `map_bio` of a bio that shares the lock: a store marks its block dirty in the cache and no longer
        discarded. */
    method BioArrives(k: nat, b: Bio) returns (got: bool)
      requires Valid() && k < |blocks|
      modifies this, target
      ensures Valid() && seen == old(seen)
      ensures Holders(target.cells, k) == old(Holders(target.cells, k)) + if got then multiset{b} else multiset{}
      ensures target.mgs == old(target.mgs) && (!got ==> k in target.mgs)
    {
      ghost var cells, mgs := target.cells, target.mgs;
      got := target.BioArrives(k, b);
      var s := blocks[k];
      if got && b.write {
        s := s.(discarded := false, dirty := s.dirty || s.mapped);
      }
      OneChanged(cells, mgs, blocks, seen, target.cells, target.mgs, k, s);
      blocks := blocks[k := s];
    }

    /** A bio that shares the lock reads the sector. */
    method Load(k: nat, b: Bio) returns (x: int)
      requires Valid() && k < |blocks| && b in Holders(target.cells, k)
      ensures k < |seen| && (seen[k].Some? ==> x == seen[k].value)
    {
      x := Content(blocks[k]);
    }

    /** A bio that shares the lock stores the sector. */
    method Store(k: nat, b: Bio, x: int)
      requires Valid() && k < |blocks| && b in Holders(target.cells, k) && b.write
      modifies this
      ensures Valid() && k < |old(seen)| && seen == old(seen)[k := Some(x)]
    {
      var s := blocks[k];
      s := if s.mapped then s.(cache := x, known := true) else s.(origin := x, known := true);
      OneChanged(target.cells, target.mgs, blocks, seen, target.cells, target.mgs, k, s);
      blocks := blocks[k := s];
      seen := seen[k := Some(x)];
    }

    method BioEnds(k: nat, b: Bio)
      requires Valid() && k < |blocks| && b in Holders(target.cells, k)
      modifies target
      ensures Valid()
      ensures Holders(target.cells, k) == old(Holders(target.cells, k)) - multiset{b}
    {
      ghost var cells, mgs := target.cells, target.mgs;
      target.BioEnds(k, b);
      BioGone(cells, mgs, blocks, seen, target.cells, target.mgs, k, b);
    }

    /** `mg_start`: a block that is not mapped is promoted, one that is mapped demoted or written back; only
        a promotion overwrites. */
    method Start(k: nat, op: Op, overwrite: bool) returns (started: bool)
      requires Valid() && k < |blocks| && (op == PromoteOp <==> !blocks[k].mapped) && (overwrite ==> op == PromoteOp)
      modifies target
      ensures Valid() && started == (k !in old(target.mgs))
      ensures started ==> k in target.mgs && target.mgs[k].op == op && target.mgs[k].overwrite == overwrite
    {
      ghost var cells, mgs := target.cells, target.mgs;
      started := target.Start(k, op, overwrite);
      if started {
        GoesOn(cells, mgs, blocks, seen, target.cells, k, target.mgs[k], blocks[k]);
      }
    }

    /** `mg_copy` and `mg_full_copy`: no copy is needed of a block that is clean in the cache, or discarded;
        a bio may overwrite a block instead if it covers all of it, or if the block is discarded. */
    method StartCopy(k: nat, bio: Bio, whole: bool, covers: bool)
      requires Valid() && k < |blocks| && k in target.mgs && target.mgs[k].stage == ReadyCopy
      requires (target.mgs[k].overwrite ==> bio.write) && (whole ==> covers)
      modifies this, target
      ensures Valid() && seen == old(seen) && k in target.mgs && |blocks| == |old(blocks)|
      ensures
        var m, overwrite := old(target.mgs[k]), Overwrites(old(target.mgs[k]), old(blocks[k]), whole);
        target.mgs[k] == Mg(m.op, overwrite, if overwrite || Needed(m, old(blocks[k])) then Copying else Copied(false))
    {
      ghost var cells, mgs := target.cells, target.mgs;
      var s := blocks[k];
      assert BlockOk(cells, mgs, k, s);
      target.StartCopy(k, whole || s.discarded, bio, Needed(target.mgs[k], s));
      CopyStartedOk(mgs[k], s, Holders(cells, k), target.mgs[k], whole, covers);
      s := s.(covers := covers);
      GoesOn(cells, mgs, blocks, seen, target.cells, k, target.mgs[k], s);
      blocks := blocks[k := s];
    }

    /** The copy has ended, or the bio instead of it, which stored x; a failed one may leave anything. */
    method CopyEnds(k: nat, error: bool, x: int, junk: int)
      requires Valid() && k < |blocks| && k in target.mgs && target.mgs[k].stage == Copying
      modifies this, target
      ensures Valid() && seen == old(seen)
      ensures |blocks| == |old(blocks)|
      ensures !error && old(target.mgs[k].overwrite) && blocks[k].covers ==> blocks[k].cache == x
    {
      ghost var cells, mgs := target.cells, target.mgs;
      var s := CopyEnded(target.mgs[k], blocks[k], error, x, junk);
      CopyEndedOk(target.mgs[k], blocks[k], Holders(target.cells, k), error, x, junk);
      target.CopyEnds(k, error);
      GoesOn(cells, mgs, blocks, seen, target.cells, k, target.mgs[k], s);
      blocks := blocks[k := s];
    }

    method AskToBeWoken(k: nat)
      requires Valid() && k < |blocks| && k in target.mgs
      requires target.mgs[k].stage == Locked || target.mgs[k].stage == Upgraded
      modifies target
      ensures Valid() && k in target.mgs
    {
      ghost var cells, mgs := target.cells, target.mgs;
      target.AskToBeWoken(k);
      assert MoveOk(mgs[k], blocks[k]) by {
        assert BlockOk(cells, mgs, k, blocks[k]);
      }
      GoesOn(cells, mgs, blocks, seen, target.cells, k, target.mgs[k], blocks[k]);
    }

    /** `mg_upgrade_lock` and `mg_update_metadata_after_copy`: a failed copy ends the migration. */
    method AfterCopy(k: nat)
      requires Valid() && k < |blocks| && k in target.mgs && target.mgs[k].stage.Copied?
      modifies this, target
      ensures Valid() && seen == old(seen)
      ensures k in target.mgs <==> !old(target.mgs[k].stage.error)
    {
      ghost var cells, mgs := target.cells, target.mgs;
      var error, s := target.mgs[k].stage.error, Failed(blocks[k], target.mgs[k].op);
      target.AfterCopy(k);
      if error {
        Ends(cells, mgs, blocks, seen, target.cells, k, s);
        blocks := blocks[k := s];
      } else {
        GoesOn(cells, mgs, blocks, seen, target.cells, k, target.mgs[k], blocks[k]);
      }
    }

    /** `mg_update_metadata` and `mg_complete`: a promoted block is read from the cache, where only an
        overwriting bio has changed it; a block written back is clean. */
    method UpdateMetadata(k: nat, error: bool)
      requires Valid() && k < |blocks| && k in target.mgs && target.mgs[k].stage == ReadyUpdate
      modifies this, target
      ensures Valid() && |blocks| == |old(blocks)| && k < |old(seen)|
      ensures seen == if !error && old(target.mgs[k].overwrite) && old(blocks[k].covers)
                      then old(seen)[k := Some(old(blocks[k].cache))] else old(seen)
      ensures !error && old(target.mgs[k].op) == PromoteOp ==>
                blocks[k].mapped && blocks[k].dirty == old(target.mgs[k].overwrite)
      ensures !error && old(target.mgs[k].op) == WritebackOp ==> blocks[k].mapped && !blocks[k].dirty
    {
      ghost var cells, mgs := target.cells, target.mgs;
      var s, m := blocks[k], target.mgs[k];
      target.UpdateMetadata(k, error);
      if error {
        s := Failed(s, m.op);
        Ends(cells, mgs, blocks, seen, target.cells, k, s);
      } else if m.op == PromoteOp {
        s := s.(mapped := true, discarded := false, dirty := m.overwrite,
                known := if m.overwrite then s.covers else s.known);
        Ends(cells, mgs, blocks, seen, target.cells, k, s);
        seen := seen[k := Shown(s)];
      } else if m.op == WritebackOp {
        s := s.(dirty := false);
        Ends(cells, mgs, blocks, seen, target.cells, k, s);
      } else {
        GoesOn(cells, mgs, blocks, seen, target.cells, k, target.mgs[k], s);
      }
      blocks := blocks[k := s];
    }

    /** `mg_success`, after the commit: a demoted block is read from the origin. */
    method Committed(k: nat, error: bool)
      requires Valid() && k < |blocks| && k in target.mgs && target.mgs[k].stage == Committing
      modifies this, target
      ensures Valid() && seen == old(seen) && |blocks| == |old(blocks)|
      ensures blocks[k].mapped == (error && old(blocks[k].mapped))
    {
      ghost var cells, mgs := target.cells, target.mgs;
      var s := blocks[k];
      if !error {
        s := s.(mapped := false, dirty := false);
      }
      target.Committed(k);
      Ends(cells, mgs, blocks, seen, target.cells, k, s);
      blocks := blocks[k := s];
    }

    /** `process_discard_bio`, of a block that nobody stores into meanwhile. */
    method Discard(k: nat)
      requires Valid() && k < |blocks| && NoWrites(Holders(target.cells, k))
      requires k in target.mgs ==> !target.mgs[k].overwrite
      modifies this
      ensures Valid() && k < |old(seen)| && seen == old(seen)[k := None]
    {
      var s := blocks[k].(discarded := true, known := false);
      OneChanged(target.cells, target.mgs, blocks, seen, target.cells, target.mgs, k, s);
      blocks := blocks[k := s];
      seen := seen[k := None];
    }
  }
}
