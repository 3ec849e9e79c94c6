/** The cells of bio-prison v2: shared locks that bios take on a block, and an exclusive lock
    that detains bios up to its level.

    The cell tree is a map from blocks to cells.  A cell also records which bios hold it, where
    the source only counts them.
 */
module BioPrison {

  datatype Bio = Bio(id: nat, write: bool)

  /** `WRITE_LOCK_LEVEL` and `READ_WRITE_LOCK_LEVEL` */
  const WRITE_LEVEL: nat := 0
  const READ_WRITE_LEVEL: nat := 1

  function Level(b: Bio): nat {
    if b.write then WRITE_LEVEL else READ_WRITE_LEVEL
  }

  datatype Cell = Cell(shared: nat, exclusive: bool, level: nat, bios: seq<Bio>, waiting: bool, holders: multiset<Bio>)

  type Cells = map<nat, Cell>

  ghost predicate CellOk(c: Cell) {
    && c.shared == |c.holders|
    && (c.exclusive || c.shared > 0)
    && (!c.exclusive ==> c.bios == [] && !c.waiting)
    && (c.waiting ==> c.shared > 0)
  }

  /** Every cell in the tree is locked; without an exclusive lock it detains no bio and nobody
      waits for it to become quiet; a waiter waits for somebody. */
  ghost predicate Valid(cells: Cells) {
    forall k :: k in cells ==> CellOk(cells[k])
  }

  ghost function Detained(cells: Cells, k: nat): seq<Bio> {
    if k in cells then cells[k].bios else []
  }

  ghost function Holders(cells: Cells, k: nat): multiset<Bio> {
    if k in cells then cells[k].holders else multiset{}
  }

  /** Nothing but one block's cell differs. */
  ghost predicate Only(cells: Cells, cells': Cells, k: nat) {
    forall j :: j != k ==> (j in cells' <==> j in cells) && (j in cells ==> cells'[j] == cells[j])
  }

  /** `__get`: a bio shares the lock, unless an exclusive lock of its level or above detains it. */
  method Get(cells: Cells, k: nat, b: Bio) returns (cells': Cells, got: bool)
    requires Valid(cells)
    ensures Valid(cells') && Only(cells, cells', k) && k in cells'
    ensures got <==> !(k in cells && cells[k].exclusive && Level(b) <= cells[k].level)
    ensures Holders(cells', k) == Holders(cells, k) + if got then multiset{b} else multiset{}
    ensures Detained(cells', k) == Detained(cells, k) + if got then [] else [b]
    ensures k in cells ==>
              && cells'[k].exclusive == cells[k].exclusive && cells'[k].level == cells[k].level
              && cells'[k].waiting == cells[k].waiting
    ensures k !in cells ==> !cells'[k].exclusive
  {
    if k in cells {
      var c := cells[k];
      if c.exclusive && Level(b) <= c.level {
        return cells[k := c.(bios := c.bios + [b])], false;
      }
      cells' := cells[k := c.(shared := c.shared + 1, holders := c.holders + multiset{b})];
    } else {
      cells' := cells[k := Cell(1, false, 0, [], false, multiset{b})];
    }
    got := true;
  }

  /** `__put`: a holder lets go.  The last one wakes whoever waits, or erases a cell nobody has
      locked; such a cell detains no bio. */
  method Put(cells: Cells, k: nat, b: Bio) returns (cells': Cells, woken: bool, erased: bool)
    requires Valid(cells) && b in Holders(cells, k)
    ensures Valid(cells') && Only(cells, cells', k)
    ensures Holders(cells', k) == Holders(cells, k) - multiset{b}
    ensures Detained(cells', k) == Detained(cells, k)
    ensures erased <==> k !in cells'
    ensures erased <==> !cells[k].exclusive && Holders(cells, k) == multiset{b}
    ensures woken <==> cells[k].waiting && Holders(cells', k) == multiset{}
    ensures !erased ==>
              && cells'[k].exclusive == cells[k].exclusive && cells'[k].level == cells[k].level
              && cells'[k].waiting == (cells[k].waiting && !woken)
  {
    var c := cells[k];
    c := c.(shared := c.shared - 1, holders := c.holders - multiset{b});
    woken, erased := false, false;
    if c.shared == 0 {
      assert c.holders == multiset{};
      if c.exclusive {
        woken := c.waiting;
        c := c.(waiting := false);
      } else {
        assert cells[k].holders == multiset{b};
        return cells - {k}, false, true;
      }
    }
    cells' := cells[k := c];
  }

  /** `__lock`: takes the exclusive lock unless somebody has it, and says whether bios share it. */
  method Lock(cells: Cells, k: nat, level: nat) returns (cells': Cells, busy: bool, shared: bool)
    requires Valid(cells)
    ensures busy <==> k in cells && cells[k].exclusive
    ensures busy ==> cells' == cells
    ensures !busy ==>
              && Valid(cells') && Only(cells, cells', k)
              && k in cells' && cells'[k].exclusive && cells'[k].level == level
              && Holders(cells', k) == Holders(cells, k) && Detained(cells', k) == [] == Detained(cells, k)
              && !cells'[k].waiting && (shared <==> Holders(cells, k) != multiset{})
  {
    if k in cells {
      var c := cells[k];
      if c.exclusive {
        return cells, true, false;
      }
      return cells[k := c.(exclusive := true, level := level)], false, c.shared > 0;
    }
    cells', busy, shared := cells[k := Cell(0, true, level, [], false, multiset{})], false, false;
  }

  /** `__quiesce`: runs the continuation when no bio shares the lock, now or later. */
  method Quiesce(cells: Cells, k: nat) returns (cells': Cells, now: bool)
    requires Valid(cells) && k in cells && cells[k].exclusive
    ensures Valid(cells') && now == (Holders(cells, k) == multiset{})
    ensures cells' == if now then cells else cells[k := cells[k].(waiting := true)]
  {
    now := cells[k].shared == 0;
    cells' := if now then cells else cells[k := cells[k].(waiting := true)];
  }

  /** `__promote`: changes the level of a lock and says whether bios still share it. */
  method Promote(cells: Cells, k: nat, level: nat) returns (cells': Cells, shared: bool)
    requires Valid(cells) && k in cells && cells[k].exclusive
    ensures Valid(cells') && cells' == cells[k := cells[k].(level := level)]
    ensures shared <==> Holders(cells, k) != multiset{}
  {
    cells' := cells[k := cells[k].(level := level)];
    shared := cells[k].shared > 0;
  }

  /** `__unlock`: hands back every detained bio, and erases the cell if no bio shares it. */
  method Unlock(cells: Cells, k: nat) returns (cells': Cells, bios: seq<Bio>)
    requires Valid(cells) && k in cells && cells[k].exclusive && !cells[k].waiting
    ensures Valid(cells') && Only(cells, cells', k)
    ensures bios == Detained(cells, k) && Detained(cells', k) == []
    ensures Holders(cells', k) == Holders(cells, k)
    ensures k in cells' <==> Holders(cells, k) != multiset{}
    ensures k in cells' ==> !cells'[k].exclusive
  {
    var c := cells[k];
    bios := c.bios;
    if c.shared > 0 {
      cells' := cells[k := c.(bios := [], exclusive := false)];
    } else {
      cells' := cells - {k};
    }
  }
}
