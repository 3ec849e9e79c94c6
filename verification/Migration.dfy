/** The migrations of dm-cache as clients of the bio prison: promotions, demotions and writebacks
    lock a block against writes, copy it, lock it against all bios and update the metadata.

    Each method is one step: a bio arriving or finishing, or a continuation of a migration.
 */
module Migration {
  import opened BioPrison

  datatype Op = PromoteOp | DemoteOp | WritebackOp

  /** How far a migration is.  `Locked` and `Upgraded` have found bios sharing the lock and are
      about to ask to be woken; `WaitCopy` and `WaitUpdate` have asked. */
  datatype Stage = Locked | WaitCopy | ReadyCopy | Copying | Copied(error: bool)
                 | Upgraded | WaitUpdate | ReadyUpdate | Committing

  datatype Mg = Mg(op: Op, overwrite: bool, stage: Stage)

  predicate NoWrites(holders: multiset<Bio>) {
    forall b :: b in holders ==> !b.write
  }

  /** The stages after the copy. */
  predicate Done(s: Stage) {
    s == Copied(false) || s == Upgraded || s == WaitUpdate || s == ReadyUpdate || s == Committing
  }

  /** A migration in its copy is noted, and one past its copy has made it or needed none. */
  predicate PastCopy(s: Stage, copied: bool, spared: bool) {
    (s == Copying ==> copied) && (Done(s) ==> copied || spared)
  }

  /** What the lock of a migration guarantees at each stage. */
  ghost predicate StageOk(m: Mg, c: Cell) {
    && c.exclusive && (c.level == WRITE_LEVEL || c.level == READ_WRITE_LEVEL)
    && (c.waiting <==> m.stage == WaitCopy || m.stage == WaitUpdate)
    && (m.overwrite ==> c.level == READ_WRITE_LEVEL)
    && (m.stage == ReadyCopy || m.stage == Copying || m.stage.Copied? ==>
          NoWrites(c.holders) && (c.level == READ_WRITE_LEVEL ==> c.holders == multiset{}))
    && (m.stage == Upgraded || m.stage == WaitUpdate || m.stage == ReadyUpdate || m.stage == Committing ==>
          c.level == READ_WRITE_LEVEL && NoWrites(c.holders))
    && (m.stage == ReadyUpdate || m.stage == Committing ==> c.holders == multiset{})
  }

  ghost predicate Inv(cells: Cells, mgs: map<nat, Mg>, copied: set<nat>, spared: set<nat>) {
    && Valid(cells)
    && (forall k :: k in mgs <==> k in cells && cells[k].exclusive)
    && (forall k :: k in mgs && k in cells ==> StageOk(mgs[k], cells[k]))
    && (forall k :: k in mgs ==> PastCopy(mgs[k].stage, k in copied, k in spared))
  }

  /** Changing one block's cell and migration. */
  lemma Changed(cells: Cells, mgs: map<nat, Mg>, cells': Cells, mgs': map<nat, Mg>, k: nat,
                copied: set<nat>, spared: set<nat>, copied': set<nat>, spared': set<nat>)
    requires Inv(cells, mgs, copied, spared) && Valid(cells') && Only(cells, cells', k)
    requires mgs' - {k} == mgs - {k} && copied' - {k} == copied - {k} && spared' - {k} == spared - {k}
    requires k in mgs' <==> k in cells' && cells'[k].exclusive
    requires k in mgs' && k in cells' ==> StageOk(mgs'[k], cells'[k])
    requires k in mgs' ==> PastCopy(mgs'[k].stage, k in copied', k in spared')
    ensures Inv(cells', mgs', copied', spared')
  {
    forall j | j != k
      ensures (j in mgs' <==> j in mgs) && (j in mgs ==> mgs'[j] == mgs[j])
      ensures (j in copied' <==> j in copied) && (j in spared' <==> j in spared)
    {
      assert j in mgs' <==> j in mgs' - {k};
      assert j in mgs <==> j in mgs - {k};
      assert j in copied' <==> j in copied' - {k};
      assert j in spared' <==> j in spared' - {k};
      if j in mgs { assert (mgs' - {k})[j] == (mgs - {k})[j]; }
    }
  }

  /** The bios of a block change while its migration, if it has one, stays as it is. */
  lemma BiosChanged(cells: Cells, mgs: map<nat, Mg>, cells': Cells, k: nat, copied: set<nat>, spared: set<nat>)
    requires Inv(cells, mgs, copied, spared) && Valid(cells') && Only(cells, cells', k)
    requires k in mgs <==> k in cells' && cells'[k].exclusive
    requires k in mgs && k in cells' ==> StageOk(mgs[k], cells'[k])
    ensures Inv(cells', mgs, copied, spared)
  {
    Changed(cells, mgs, cells', mgs, k, copied, spared, copied, spared);
  }

  /** Where a migration starts: it may copy at once unless bios share its block. */
  ghost function FirstStage(holders: multiset<Bio>): Stage {
    if holders == multiset{} then ReadyCopy else Locked
  }

  /** A migration after the last bio has left its block: one that waits for that goes on, to its copy
      or to its update; any other stays. */
  function Woken(m: Mg): Mg {
    match m.stage
    case WaitCopy => m.(stage := ReadyCopy)
    case WaitUpdate => m.(stage := ReadyUpdate)
    case _ => m
  }

  lemma Noted(cells: Cells, mgs: map<nat, Mg>, copied: set<nat>, spared: set<nat>, k: nat) returns (copied': set<nat>)
    requires Inv(cells, mgs, copied, spared)
    ensures copied' == copied + {k} && Inv(cells, mgs, copied', spared)
  {
    copied' := copied + {k};
  }

  lemma Spared(cells: Cells, mgs: map<nat, Mg>, copied: set<nat>, spared: set<nat>, k: nat) returns (spared': set<nat>)
    requires Inv(cells, mgs, copied, spared)
    ensures spared' == spared + {k} && Inv(cells, mgs, copied, spared')
  {
    spared' := spared + {k};
  }

  lemma UpdatedSame(mgs: map<nat, Mg>, k: nat)
    ensures k in mgs ==> mgs[k := mgs[k]] == mgs
  {
  }

  /** Somebody waits for a block to become quiet exactly when its migration does. */
  lemma WaitsWhen(cells: Cells, mgs: map<nat, Mg>, copied: set<nat>, spared: set<nat>, k: nat)
    requires Inv(cells, mgs, copied, spared) && k in cells
    ensures cells[k].waiting ==> k in mgs && (mgs[k].stage == WaitCopy || mgs[k].stage == WaitUpdate)
    ensures k in mgs && !cells[k].waiting ==> Woken(mgs[k]) == mgs[k]
  {
    assert CellOk(cells[k]);
  }

  lemma LastOne(holders: multiset<Bio>, b: Bio)
    requires b in holders
    ensures holders - multiset{b} == multiset{} <==> holders == multiset{b}
  {
    assert holders == holders - multiset{b} + multiset{b};
  }

  /** A migration is over: its block is unlocked, and every bio it had detained is deferred, in order. */
  ghost predicate Finished(cells: Cells, cells': Cells, mgs: map<nat, Mg>, mgs': map<nat, Mg>,
                           deferred: seq<Bio>, deferred': seq<Bio>, k: nat) {
    && mgs' == mgs - {k} && deferred' == deferred + Detained(cells, k)
    && Detained(cells', k) == [] && Holders(cells', k) == Holders(cells, k) && Only(cells, cells', k)
  }

  /** The part of `__put` that concerns a migration: the last holder sets one that waits going. */
  method EndBio(cells: Cells, mgs: map<nat, Mg>, k: nat, b: Bio, ghost copied: set<nat>, ghost spared: set<nat>)
    returns (cells': Cells, mgs': map<nat, Mg>)
    requires Inv(cells, mgs, copied, spared) && b in Holders(cells, k)
    ensures Inv(cells', mgs', copied, spared) && Only(cells, cells', k)
    ensures mgs' == if k in mgs && Holders(cells, k) == multiset{b} then mgs[k := Woken(mgs[k])] else mgs
    ensures Holders(cells', k) == Holders(cells, k) - multiset{b} && Detained(cells', k) == Detained(cells, k)
  {
    var woken, erased;
    cells', woken, erased := Put(cells, k, b);
    mgs' := mgs;
    LastOne(Holders(cells, k), b);
    WaitsWhen(cells, mgs, copied, spared, k);
    if woken {
      mgs' := mgs[k := mgs[k].(stage := if mgs[k].stage == WaitCopy then ReadyCopy else ReadyUpdate)];
      Changed(cells, mgs, cells', mgs', k, copied, spared, copied, spared);
    } else {
      BiosChanged(cells, mgs, cells', k, copied, spared);
      UpdatedSame(mgs, k);
    }
  }

  /** A migration has taken the lock of its block. */
  method NewMigration(ghost cells: Cells, mgs: map<nat, Mg>, ghost cells': Cells, k: nat, m: Mg,
                      ghost copied: set<nat>, ghost spared: set<nat>)
    returns (mgs': map<nat, Mg>)
    requires Inv(cells, mgs, copied, spared) && Valid(cells') && Only(cells, cells', k) && !Done(m.stage)
    requires k in cells' && cells'[k].exclusive && StageOk(m, cells'[k]) && m.stage != Copying
    ensures mgs' == mgs[k := m] && Inv(cells', mgs', copied - {k}, spared - {k})
  {
    mgs' := mgs[k := m];
    Changed(cells, mgs, cells', mgs', k, copied, spared, copied - {k}, spared - {k});
  }

  /** A migration goes on with its lock changed. */
  method Advance(ghost cells: Cells, mgs: map<nat, Mg>, ghost cells': Cells, k: nat, stage: Stage,
                 ghost copied: set<nat>, ghost spared: set<nat>)
    returns (mgs': map<nat, Mg>)
    requires Inv(cells, mgs, copied, spared) && k in mgs && Valid(cells') && Only(cells, cells', k)
    requires k in cells' && cells'[k].exclusive && StageOk(mgs[k].(stage := stage), cells'[k])
    requires PastCopy(stage, k in copied, k in spared)
    ensures mgs' == mgs[k := mgs[k].(stage := stage)] && Inv(cells', mgs', copied, spared)
  {
    mgs' := mgs[k := mgs[k].(stage := stage)];
    Changed(cells, mgs, cells', mgs', k, copied, spared, copied, spared);
  }

  class CacheTarget {
    var cells: Cells
    var mgs: map<nat, Mg>
    var deferred: seq<Bio>
    ghost var copied: set<nat>    // blocks whose migration has been in `Copying` since its start
    ghost var spared: set<nat>    // blocks whose migration found that no copy is needed

    ghost predicate Good()
      reads this
    {
      Inv(cells, mgs, copied, spared)
    }

    constructor ()
      ensures Good() && mgs == map[] && cells == map[] && deferred == []
    {
      cells, mgs, deferred, copied, spared := map[], map[], [], {}, {};
    }

    /** No migration gets past its copy without having made one, unless it needed none. */
    lemma CopiedFirst(k: nat)
      requires Good() && k in mgs && k !in spared
      ensures mgs[k].stage == ReadyUpdate || mgs[k].stage == Committing ==> k in copied
    {
    }

    /** While a block is being copied no write holds it, and while its metadata is being updated
        no bio does. */
    lemma Exclusion(k: nat)
      requires Good() && k in mgs
      ensures mgs[k].stage == Copying ==> NoWrites(Holders(cells, k))
      ensures mgs[k].stage == Copying && mgs[k].overwrite ==> Holders(cells, k) == multiset{}
      ensures mgs[k].stage == ReadyUpdate || mgs[k].stage == Committing ==> Holders(cells, k) == multiset{}
    {
    }

    /** A block without a migration detains no bio. */
    lemma NobodyForgotten(k: nat)
      requires Good() && k !in mgs
      ensures Detained(cells, k) == []
    {
    }

    /** `bio_detain_shared` */
    method BioArrives(k: nat, b: Bio) returns (got: bool)
      requires Good()
      modifies `cells
      ensures Good()
      ensures Holders(cells, k) == old(Holders(cells, k)) + if got then multiset{b} else multiset{}
      ensures Detained(cells, k) == old(Detained(cells, k)) + if got then [] else [b]
      ensures got <==> !(k in mgs && (b.write || old(cells[k].level) == READ_WRITE_LEVEL))
      ensures Only(old(cells), cells, k)
    {
      var cells';
      cells', got := Get(cells, k, b);
      BiosChanged(cells, mgs, cells', k, copied, spared);
      cells := cells';
    }

    /** A bio that shares a lock ends; the last one may set a waiting migration going. */
    method BioEnds(k: nat, b: Bio)
      requires Good() && b in Holders(cells, k)
      modifies `cells, `mgs
      ensures Good()
      ensures mgs == if k in old(mgs) && old(Holders(cells, k)) == multiset{b} then old(mgs)[k := Woken(old(mgs)[k])]
                     else old(mgs)
      ensures Holders(cells, k) == old(Holders(cells, k)) - multiset{b} && Detained(cells, k) == old(Detained(cells, k))
      ensures Only(old(cells), cells, k)
    {
      cells, mgs := EndBio(cells, mgs, k, b, copied, spared);
    }

    /** `mg_start` and `mg_lock_writes`: fails when the block is locked already. */
    method Start(k: nat, op: Op, overwrite: bool) returns (started: bool)
      requires Good()
      modifies `cells, `mgs, `copied, `spared
      ensures Good() && started == (k !in old(mgs)) && Only(old(cells), cells, k)
      ensures Holders(cells, k) == old(Holders(cells, k)) && Detained(cells, k) == old(Detained(cells, k))
      ensures started ==>
                && mgs == old(mgs)[k := Mg(op, overwrite, FirstStage(old(Holders(cells, k))))]
                && cells[k].level == (if overwrite then READ_WRITE_LEVEL else WRITE_LEVEL)
                && copied == old(copied) - {k} && spared == old(spared) - {k}
      ensures !started ==> cells == old(cells) && mgs == old(mgs) && copied == old(copied) && spared == old(spared)
    {
      var cells', busy, shared := Lock(cells, k, if overwrite then READ_WRITE_LEVEL else WRITE_LEVEL);
      if busy {
        return false;
      }
      started := true;
      var m := Mg(op, overwrite, if shared then Locked else ReadyCopy);
      mgs := NewMigration(cells, mgs, cells', k, m, copied, spared);
      cells := cells';
      copied, spared := copied - {k}, spared - {k};
    }

    /** `quiesce`, after the lock was taken or upgraded with bios still sharing it. */
    method AskToBeWoken(k: nat)
      requires Good() && k in mgs && (mgs[k].stage == Locked || mgs[k].stage == Upgraded)
      modifies `cells, `mgs
      ensures Good() && k in mgs && mgs == old(mgs)[k := old(mgs)[k].(stage := mgs[k].stage)]
      ensures Holders(cells, k) == old(Holders(cells, k)) && Detained(cells, k) == old(Detained(cells, k))
      ensures Only(old(cells), cells, k)
      ensures mgs[k].stage == if old(mgs[k].stage) == Locked
              then (if old(Holders(cells, k)) == multiset{} then ReadyCopy else WaitCopy)
                              else (if old(Holders(cells, k)) == multiset{} then ReadyUpdate else WaitUpdate)
    {
      var cells', now := Quiesce(cells, k);
      var stage := if mgs[k].stage == Locked then (if now then ReadyCopy else WaitCopy)
                   else (if now then ReadyUpdate else WaitUpdate);
      mgs := Advance(cells, mgs, cells', k, stage, copied, spared);
      cells := cells';
    }

    /** `mg_copy` and `mg_full_copy`.  An overwriting bio that no longer fits is detained as an
        ordinary one, and a full copy made instead; a copy nobody needs is skipped. */
    method StartCopy(k: nat, optimisable: bool, bio: Bio, needed: bool)
      requires Good() && k in mgs && mgs[k].stage == ReadyCopy && (mgs[k].overwrite ==> bio.write)
      modifies `cells, `mgs, `copied, `spared
      ensures Good() && k in mgs && mgs == old(mgs)[k := mgs[k]]
      ensures
        var overwrite := old(mgs[k].overwrite) && optimisable;
        mgs[k] == Mg(old(mgs[k].op), overwrite, if overwrite || needed then Copying else Copied(false))
      ensures if mgs[k].stage == Copying then copied == old(copied) + {k} && spared == old(spared)
              else copied == old(copied) && spared == old(spared) + {k}
      ensures Holders(cells, k) == old(Holders(cells, k)) && Only(old(cells), cells, k)
      ensures Detained(cells, k) == old(Detained(cells, k)) + if old(mgs[k].overwrite) && !optimisable then [bio]
              else []
    {
      var overwrite := mgs[k].overwrite && optimisable;
      if mgs[k].overwrite && !optimisable {
        var got := BioArrives(k, bio);
        assert !got;
      }
      if overwrite || needed {
        copied := Noted(cells, mgs, copied, spared, k);
        SetStage(k, overwrite, Copying);
      } else {
        spared := Spared(cells, mgs, copied, spared, k);
        SetStage(k, overwrite, Copied(false));
      }
    }

    /** A migration moves on while its lock stays as it is. */
    method SetStage(k: nat, overwrite: bool, stage: Stage)
      requires Good() && k in mgs && StageOk(mgs[k].(overwrite := overwrite, stage := stage), cells[k])
      requires PastCopy(stage, k in copied, k in spared)
      modifies `mgs
      ensures Good() && mgs == old(mgs)[k := old(mgs)[k].(overwrite := overwrite, stage := stage)]
    {
      var mgs' := mgs[k := mgs[k].(overwrite := overwrite, stage := stage)];
      Changed(cells, mgs, cells, mgs', k, copied, spared, copied, spared);
      mgs := mgs';
    }

    /** The copy, or the overwriting bio, has finished. */
    method CopyEnds(k: nat, error: bool)
      requires Good() && k in mgs && mgs[k].stage == Copying
      modifies `mgs
      ensures Good() && mgs == old(mgs)[k := old(mgs)[k].(stage := Copied(error))]
    {
      SetStage(k, mgs[k].overwrite, Copied(error));
    }

    /** `mg_upgrade_lock`, or after an overwrite `mg_update_metadata_after_copy`. */
    method AfterCopy(k: nat)
      requires Good() && k in mgs && mgs[k].stage.Copied?
      modifies this
      ensures Good() && Holders(cells, k) == old(Holders(cells, k)) && Only(old(cells), cells, k)
      ensures copied == old(copied) && spared == old(spared)
      ensures old(mgs[k].stage.error) ==>
                && mgs == old(mgs) - {k} && deferred == old(deferred) + old(Detained(cells, k))
                && Detained(cells, k) == []
      ensures !old(mgs[k].stage.error) ==>
                && deferred == old(deferred) && Detained(cells, k) == old(Detained(cells, k))
                && mgs == old(mgs)[k := old(mgs)[k].(stage := if old(Holders(cells, k)) == multiset{} then ReadyUpdate
                                                              else Upgraded)]
    {
      if mgs[k].stage.error {
        Complete(k);
      } else if mgs[k].overwrite {
        SetStage(k, true, ReadyUpdate);
      } else {
        var cells', shared := Promote(cells, k, READ_WRITE_LEVEL);
        mgs := Advance(cells, mgs, cells', k, if shared then Upgraded else ReadyUpdate, copied, spared);
        cells := cells';
      }
    }

    /** `mg_update_metadata`: no bio holds the block.  A demotion waits for the commit. */
    method UpdateMetadata(k: nat, error: bool)
      requires Good() && k in mgs && mgs[k].stage == ReadyUpdate
      modifies this
      ensures Good() && copied == old(copied) && spared == old(spared)
      ensures if old(mgs[k].op) == DemoteOp && !error
              then && mgs == old(mgs)[k := old(mgs)[k].(stage := Committing)]
                   && cells == old(cells) && deferred == old(deferred)
              else Finished(old(cells), cells, old(mgs), mgs, old(deferred), deferred, k)
    {
      assert Holders(cells, k) == multiset{};
      if mgs[k].op == DemoteOp && !error {
        SetStage(k, mgs[k].overwrite, Committing);
      } else {
        Complete(k);
      }
    }

    /** `mg_success`, after the commit. */
    method Committed(k: nat)
      requires Good() && k in mgs && mgs[k].stage == Committing
      modifies this
      ensures Good() && copied == old(copied) && spared == old(spared)
      ensures Finished(old(cells), cells, old(mgs), mgs, old(deferred), deferred, k)
    {
      Complete(k);
    }

    /** `mg_complete`: unlocks, and defers every bio the lock had detained. */
    method Complete(k: nat)
      requires Good() && k in mgs && mgs[k].stage != WaitCopy && mgs[k].stage != WaitUpdate
      modifies this
      ensures Good() && copied == old(copied) && spared == old(spared)
      ensures Finished(old(cells), cells, old(mgs), mgs, old(deferred), deferred, k)
    {
      var cells', bios := Unlock(cells, k);
      Changed(cells, mgs, cells', mgs - {k}, k, copied, spared, copied, spared);
      cells, mgs, deferred := cells', mgs - {k}, deferred + bios;
    }
  }
}
