/** The in-memory side of the dm-integrity journal: a ring of sections with a committed, an
    uncommitted and a free zone, and the accounting that keeps the three apart.

    Each method is one critical section of the source; between two of them any other may run.
    Sizes and sector numbers are in blocks, one journal entry per block.
 */
module JournalRing {
  import opened Arithmetic

  /** A journal entry: free, handed to a writer that is still copying, or holding a sector. */
  datatype Slot = Unused | InProgress | Holds(sector: nat)

  /** An entry and its tree node, -1 when unlinked: exactly the entries in use have linked nodes, for
      a block of the device, and an entry holds the block of its node. */
  predicate Matched(slot: Slot, node: int, provided: nat) {
    && (slot == Unused <==> node == -1)
    && (slot != Unused ==> 0 <= node < provided)
    && (slot.Holds? ==> node == slot.sector)
  }

  /** Position k entries after position p in a ring of the given size. */
  function At(p: nat, k: nat, size: nat): int {
    if p + k < size then p + k else p + k - size
  }

  /** How many entries position p lies after position p0. */
  function Dist(p0: nat, p: nat, size: nat): (d: int)
    ensures p0 < size && p < size ==> 0 <= d < size && At(p0, d, size) == p
  {
    if p >= p0 then p - p0 else p + size - p0
  }

  /** A section number times the section size is a position with a whole section after it. */
  lemma SectionFits(i: nat, sections: nat, e: nat)
    requires i < sections
    ensures i * e + e <= sections * e
  {
    MulMono(i + 1, sections, e);
    MulAdd(i, 1, e);
  }

  /** Moving forward by n sections with one wrap-around. */
  lemma WrapScales(i: nat, n: nat, sections: nat, e: nat)
    requires i < sections && n <= sections
    ensures Wrap(i + n, sections) < sections
    ensures Wrap(i + n, sections) * e == i * e + n * e - (if i + n >= sections then sections * e else 0)
  {
    MulAdd(i, n, e);
    MulAdd(i + n - sections, sections, e);
  }

  lemma MulCancel(a: int, b: int, e: nat)
    requires e > 0 && a * e <= b * e
    ensures a <= b
  {
    if a > b {
      MulMono(b + 1, a, e);
      MulAdd(b, 1, e);
    }
  }

  /** Taking n entries moves the free pointer n places and keeps the books balanced, with at
      most one wrap-around. */
  lemma TakeEntries(sections: nat, e: nat, free: nat, entry: nat, avail: nat, used: nat, n: nat)
    requires e > 0 && free < sections && entry < e && used <= sections && n <= avail
    requires sections * e == used * e + entry + avail
    ensures var q, r := (entry + n) / e, (entry + n) % e;
            && 0 <= q && used + q <= sections
            && Wrap(free + q, sections) < sections && r < e
            && Wrap(free + q, sections) * e + r == At(free * e + entry, n, sections * e)
            && sections * e == (used + q) * e + r + (avail - n)
  {
    var q, r := (entry + n) / e, (entry + n) % e;
    DivMod(entry + n, e);
    MulAdd(sections - used, used, e);
    MulCancel(q, sections - used, e);
    MulAdd(used, q, e);
    WrapScales(free, q, sections, e);
    MulAdd(free, q, e);
    SectionFits(free, sections, e);
    if free + q < sections {
      SectionFits(free + q, sections, e);
    } else {
      MulMono(sections, free + q, e);
    }
  }

  /** Giving up the rest of a started section: there is room for it, and the books balance. */
  lemma TakeRest(sections: nat, e: nat, free: nat, entry: nat, avail: nat, used: nat)
    requires free < sections && 0 < entry < e && used <= sections
    requires sections * e == used * e + entry + avail
    ensures e - entry <= avail <= sections * e && used < sections && free * e + entry < sections * e
    ensures Wrap(free + 1, sections) * e == At(free * e + entry, e - entry, sections * e)
    ensures sections * e == (used + 1) * e + (avail - (e - entry))
  {
    var size, taken, start := sections * e, used * e, free * e;
    assert used < sections;
    SectionFits(used, sections, e);
    SectionFits(free, sections, e);
    MulMono(0, used, e);
    assert (used + 1) * e == taken + e by { MulAdd(used, 1, e); }
    assert (free + 1) * e == start + e by { MulAdd(free, 1, e); }
    if free + 1 < sections {
      SectionFits(free + 1, sections, e);
    }
  }

  class Ring {
    const sections: nat             // journal_sections
    const entries: nat              // journal_section_entries
    const size: nat                 // journal_entries
    const provided: nat             // provided_data_sectors
    const slots: array<Slot>
    const nodes: array<int>         // sector of the tree node of each slot, -1 when unlinked

    var committedSection: nat
    var nCommitted: nat
    var uncommittedSection: nat
    var nUncommitted: nat
    var freeSection: nat
    var freeSectionEntry: nat
    var freeSectors: nat

    var committing: nat             // commit_sections of the commit in progress
    var writing: nat                // write_sections of the writer in progress
    var consumed: nat               // entries the writer is done with

    /** The ring as replay leaves it: everything free, continuing at the given section. */
    constructor (sections: nat, entries: nat, provided: nat, section: nat)
      requires section < sections && 0 < entries
      ensures Valid() && fresh(slots) && fresh(nodes)
      ensures this.sections == sections && this.entries == entries && this.provided == provided
      ensures freeSection == section && freeSectors == sections * entries && nCommitted == committing == 0
      ensures forall p :: 0 <= p < nodes.Length ==> nodes[p] == -1
    {
      this.sections, this.entries, this.size, this.provided := sections, entries, sections * entries, provided;
      slots := new Slot[sections * entries](_ => Unused);
      nodes := new int[sections * entries](_ => -1);
      committedSection, uncommittedSection, freeSection := section, section, section;
      nCommitted, nUncommitted, freeSectionEntry, freeSectors := 0, 0, 0, sections * entries;
      committing, writing, consumed := 0, 0, 0;
      new;
      MulMono(0, 0, entries);
      assert Pointers() && Accounted();
      assert forall p :: 0 <= p < size ==> IsFree(p);
    }

    ghost function FreePos(): nat
      reads this
    {
      freeSection * entries + freeSectionEntry
    }

    ghost function CommittedPos(): nat
      reads this
    {
      committedSection * entries
    }

    /** Entries in committed sections, and those of the commit in flight as well. */
    ghost function CommittedEntries(): int
      reads this
    {
      nCommitted * entries
    }

    ghost function StampedEntries(): int
      reads this
    {
      (nCommitted + committing) * entries
    }

    ghost predicate IsFree(p: nat)
      reads slots, nodes
    {
      p < slots.Length && p < nodes.Length && slots[p] == Unused && nodes[p] == -1
    }

    ghost predicate Pointers()
      reads this
    {
      && 0 < sections && 0 < entries
      && size == sections * entries
      && slots.Length == size && nodes.Length == size
      && committedSection < sections && uncommittedSection < sections && freeSection < sections
      && freeSectionEntry < entries
      && nUncommitted + nCommitted <= sections
      && uncommittedSection == Wrap(committedSection + nCommitted, sections)
      && freeSection == Wrap(uncommittedSection + nUncommitted, sections)
      && committing <= nUncommitted && writing <= nCommitted
      && consumed <= writing * entries
    }

    /** Every entry is in exactly one zone. */
    ghost predicate Accounted()
      reads this
    {
      size == (nUncommitted + nCommitted) * entries + freeSectionEntry + freeSectors
    }

    ghost predicate Valid()
      reads this, slots, nodes
    {
      && Pointers()
      && Accounted()
      && (forall p :: 0 <= p < size ==> Matched(slots[p], nodes[p], provided))
      && (forall p :: 0 <= p < size && Dist(FreePos(), p, size) < freeSectors ==> IsFree(p))
      && (forall p :: 0 <= p < size && Dist(CommittedPos(), p, size) < consumed ==> IsFree(p))
      && (forall p :: 0 <= p < size && Dist(CommittedPos(), p, size) < nCommitted * entries ==> slots[p] != InProgress)
    }

    /** The pointers in entries: the zones follow one another around the ring. */
    lemma Zones()
      requires Pointers() && Accounted()
      ensures freeSectors + freeSectionEntry <= size
      ensures FreePos() + (entries - freeSectionEntry) <= size && CommittedPos() + entries <= size
      ensures var used := (nUncommitted + nCommitted) * entries;
              && size == used + freeSectionEntry + freeSectors
              && FreePos() == CommittedPos() + used + freeSectionEntry
                              - (if CommittedPos() + used >= size then size else 0)
    {
      var n := nUncommitted + nCommitted;
      MulMono(0, n, entries);
      SectionFits(freeSection, sections, entries);
      SectionFits(committedSection, sections, entries);
      assert freeSection == Wrap(committedSection + n, sections);
      WrapScales(committedSection, n, sections, entries);
    }

    lemma Parts()
      requires Pointers() && Accounted()
      ensures CommittedPos() < size
      ensures 0 <= CommittedEntries() <= StampedEntries() <= size - freeSectors
      ensures consumed <= writing * entries <= CommittedEntries()
      ensures committing == nUncommitted && freeSectionEntry == 0 ==> StampedEntries() == size - freeSectors
    {
      Zones();
      MulMono(0, nCommitted, entries);
      MulMono(writing, nCommitted, entries);
      MulMono(nCommitted, nCommitted + committing, entries);
      MulMono(nCommitted + committing, nUncommitted + nCommitted, entries);
    }

    /** Next position, and the same position as section and entry. */
    method Advance(pos: nat, ws: nat, we: nat) returns (pos': nat, ws': nat, we': nat)
      requires ws < sections && we < entries && pos == ws * entries + we && size == sections * entries
      ensures ws' < sections && we' < entries && pos' == ws' * entries + we'
      ensures pos' == At(pos, 1, size) < size
    {
      SectionFits(ws, sections, entries);
      MulAdd(ws, 1, entries);
      pos' := pos + 1;
      if pos' >= size {
        pos' := 0;
      }
      we' := we + 1;
      ws' := ws;
      if we' == entries {
        we' := 0;
        ws' := Wrap(ws + 1, sections);
      }
      if ws + 1 < sections {
        SectionFits(ws + 1, sections, entries);
      }
    }

    /** Marks n entries in progress from a position on and links their nodes to consecutive
        blocks.  No entry is in use and no node is linked before. */
    method MarkEntries(section: nat, entry: nat, ghost start: nat, n: nat, logical: nat)
      requires section < sections && entry < entries && size == sections * entries
      requires start == section * entries + entry < size
      requires slots.Length == size && nodes.Length == size && n <= size
      requires forall p :: 0 <= p < size && Dist(start, p, size) < n ==> IsFree(p)
      modifies slots, nodes
      ensures forall p :: 0 <= p < size ==>
                var k := Dist(start, p, size);
                && slots[p] == (if k < n then InProgress else old(slots[p]))
                && nodes[p] == if k < n then logical + k else old(nodes[p])
    {
      var pos: nat, ws: nat, we: nat := section * entries + entry, section, entry;
      var i := 0;
      while i < n
        invariant 0 <= i <= n
        invariant ws < sections && we < entries && pos == ws * entries + we && pos < size
        invariant i < size ==> Dist(start, pos, size) == i
        invariant forall p :: 0 <= p < size ==>
                    var m := Dist(start, p, size);
                    && slots[p] == (if m < i then InProgress else old(slots[p]))
                    && nodes[p] == if m < i then logical + m else old(nodes[p])
      {
        assert old(IsFree(pos));
        nodes[pos] := logical + i;
        slots[pos] := InProgress;
        pos, ws, we := Advance(pos, ws, we);
        i := i + 1;
      }
    }

    /** The write path: takes as many free entries as it can get, marks them in progress and
        links their tree nodes to consecutive blocks.  Every entry taken was free.  The map function
        lets no request past the end of the device through. */
    method Reserve(want: nat, logical: nat) returns (n: nat, section: nat, entry: nat)
      requires Valid() && logical + want <= provided
      modifies `freeSectors, `freeSection, `freeSectionEntry, `nUncommitted, slots, nodes
      ensures Valid()
      ensures n == if want < old(freeSectors) then want else old(freeSectors)
      ensures section == old(freeSection) && entry == old(freeSectionEntry)
      ensures freeSectors == old(freeSectors) - n && FreePos() == At(old(FreePos()), n, size)
      ensures forall p :: 0 <= p < size ==>
                var k := Dist(old(FreePos()), p, size);
                && (k < n ==> old(IsFree(p)))
                && slots[p] == (if k < n then InProgress else old(slots[p]))
                && nodes[p] == if k < n then logical + k else old(nodes[p])
    {
      n := if want < freeSectors then want else freeSectors;
      section, entry := freeSection, freeSectionEntry;
      Zones();
      CommittedIsNotFree();
      ghost var start := FreePos();
      TakePointers(n);
      MarkTaken(section, entry, start, n, logical);
    }

    /** The entries of the write path, once the pointers have moved past them. */
    method MarkTaken(section: nat, entry: nat, ghost start: nat, n: nat, logical: nat)
      requires Pointers() && Accounted() && section < sections && entry < entries && logical + n <= provided
      requires start == section * entries + entry < size && n + freeSectors <= size && FreePos() == At(start, n, size)
      requires forall p :: 0 <= p < size ==> Matched(slots[p], nodes[p], provided)
      requires forall p :: 0 <= p < size && Dist(start, p, size) < n + freeSectors ==> IsFree(p)
      requires forall p :: 0 <= p < size && Dist(CommittedPos(), p, size) < consumed ==> IsFree(p)
      requires forall p :: 0 <= p < size && Dist(CommittedPos(), p, size) < nCommitted * entries ==>
               slots[p] != InProgress
      requires forall p :: 0 <= p < size && Dist(CommittedPos(), p, size) < nCommitted * entries ==>
               Dist(start, p, size) >= n
      requires consumed <= nCommitted * entries
      modifies slots, nodes
      ensures Valid()
      ensures forall p :: 0 <= p < size ==>
                var k := Dist(start, p, size);
                && slots[p] == (if k < n then InProgress else old(slots[p]))
                && nodes[p] == if k < n then logical + k else old(nodes[p])
    {
      MarkEntries(section, entry, start, n, logical);
      forall p | 0 <= p < size && Dist(FreePos(), p, size) < freeSectors
        ensures IsFree(p)
      {
        ZoneShrinks(start, n, freeSectors + n, p, size);
      }
    }

    /** The pointer arithmetic of the write path. */
    method TakePointers(n: nat)
      requires Pointers() && Accounted() && n <= freeSectors
      modifies `freeSectors, `freeSection, `freeSectionEntry, `nUncommitted
      ensures Pointers() && Accounted()
      ensures freeSectors == old(freeSectors) - n && FreePos() == At(old(FreePos()), n, size)
    {
      ghost var f, e, used := freeSection, freeSectionEntry, nUncommitted + nCommitted;
      TakeEntries(sections, entries, f, e, freeSectors, used, n);
      ghost var q := (e + n) / entries;
      freeSectors := freeSectors - n;
      var next := freeSectionEntry + n;
      freeSectionEntry := next % entries;
      var advance := next / entries;
      assert advance == q;
      freeSection := Wrap(freeSection + advance, sections);
      nUncommitted := nUncommitted + advance;
      assert nUncommitted + nCommitted == used + q;
      assert freeSection == Wrap(f + q, sections);
    }

    /** The committed zone starts where the free zone ends. */
    lemma CommittedIsNotFree()
      requires Pointers() && Accounted()
      ensures consumed <= nCommitted * entries && freeSectors + nCommitted * entries <= size
      ensures forall p :: 0 <= p < size && Dist(CommittedPos(), p, size) < nCommitted * entries ==>
                Dist(FreePos(), p, size) == freeSectors + Dist(CommittedPos(), p, size)
      ensures forall p ::
                0 <= p < size && freeSectors <= Dist(FreePos(), p, size) < freeSectors + nCommitted * entries ==>
                  Dist(FreePos(), p, size) == freeSectors + Dist(CommittedPos(), p, size)
    {
      Zones();
      var used := (nUncommitted + nCommitted) * entries;
      MulMono(nCommitted, nUncommitted + nCommitted, entries);
      MulMono(writing, nCommitted, entries);
      forall p | 0 <= p < size && Dist(CommittedPos(), p, size) < nCommitted * entries
        ensures Dist(FreePos(), p, size) == freeSectors + Dist(CommittedPos(), p, size)
      {
        ZonesMeet(size, CommittedPos(), used, freeSectionEntry, freeSectors, FreePos(), p);
      }
      forall p | 0 <= p < size && freeSectors <= Dist(FreePos(), p, size) < freeSectors + nCommitted * entries
        ensures Dist(FreePos(), p, size) == freeSectors + Dist(CommittedPos(), p, size)
      {
        ZonesMeetAgain(size, CommittedPos(), used, freeSectionEntry, freeSectors, FreePos(), p);
      }
    }

    /** Entries in order of age from the first committed one on: those handed out, then the free ones. */
    lemma AgeInRing(p: nat)
      requires Pointers() && Accounted() && p < size
      ensures FreePos() < size && CommittedPos() < size && freeSectors <= size
      ensures var d := Dist(FreePos(), p, size);
              Dist(CommittedPos(), p, size) == if d < freeSectors then size - freeSectors + d else d - freeSectors
    {
      Zones();
    }

    /** A request has copied its data for a block into the entry it was handed for it. */
    method Fill(p: nat, sector: nat)
      requires Valid() && p < size && slots[p] == InProgress && nodes[p] == sector
      modifies slots
      ensures Valid()
      ensures slots[..] == old(slots[..])[p := Holds(sector)]
    {
      slots[p] := Holds(sector);
    }

    /** Gives up the rest of a partly used section; what is given up was free.  The check that
        follows in the source never fails. */
    method PadUncommitted()
      requires Valid()
      modifies `freeSectors, `freeSection, `freeSectionEntry, `nUncommitted
      ensures Valid() && freeSectionEntry == 0
      ensures old(freeSectionEntry) == 0 ==> unchanged(this)
      ensures old(freeSectionEntry) > 0 ==>
                && nUncommitted == old(nUncommitted) + 1
                && old(freeSectors) >= entries - old(freeSectionEntry)
                && freeSectors == old(freeSectors) - (entries - old(freeSectionEntry))
      ensures size == (nUncommitted + nCommitted) * entries + freeSectors
    {
      if freeSectionEntry > 0 {
        ghost var start, n, free, used := FreePos(), entries - freeSectionEntry, freeSectors, nUncommitted + nCommitted;
        TakeRest(sections, entries, freeSection, freeSectionEntry, freeSectors, used);
        freeSectors := freeSectors - (entries - freeSectionEntry);
        freeSectionEntry := 0;
        freeSection := Wrap(freeSection + 1, sections);
        nUncommitted := nUncommitted + 1;
        assert nUncommitted + nCommitted == used + 1;
        forall p | 0 <= p < size && Dist(FreePos(), p, size) < freeSectors
          ensures IsFree(p)
        {
          ZoneShrinks(start, n, free, p, size);
        }
      }
    }

    /** First half of a commit: pads, then fixes which sections it covers. */
    method StartCommit() returns (start: nat, n: nat)
      requires Valid() && committing == 0
      modifies `freeSectors, `freeSection, `freeSectionEntry, `nUncommitted, `committing
      ensures Valid() && committing == nUncommitted == n && start == uncommittedSection
      ensures n + nCommitted <= sections && StampedEntries() == size - freeSectors
    {
      PadUncommitted();
      start, n := uncommittedSection, nUncommitted;
      committing := n;
      Parts();
    }

    /** Second half of a commit, once no entry of its sections is in progress and all are on
        disk: the sections move to the committed zone. */
    method FinishCommit()
      requires Valid()
      requires forall p :: 0 <= p < size && Dist(uncommittedSection * entries, p, size) < committing * entries ==>
                 slots[p] != InProgress
      modifies `uncommittedSection, `nUncommitted, `nCommitted, `committing
      ensures Valid() && committing == 0
      ensures nCommitted == old(nCommitted) + old(committing) && nUncommitted == old(nUncommitted) - old(committing)
      ensures freeSectors == old(freeSectors)
      ensures CommittedEntries() == StampedEntries() == old(StampedEntries())
    {
      CommittedGrows();
      uncommittedSection := Wrap(uncommittedSection + committing, sections);
      nUncommitted := nUncommitted - committing;
      nCommitted := nCommitted + committing;
      committing := 0;
    }

    lemma CommittedGrows()
      requires Valid()
      requires forall p :: 0 <= p < size && Dist(uncommittedSection * entries, p, size) < committing * entries ==>
                 slots[p] != InProgress
      ensures forall p :: 0 <= p < size && Dist(CommittedPos(), p, size) < (nCommitted + committing) * entries ==>
                slots[p] != InProgress
    {
      var committed, more := nCommitted * entries, committing * entries;
      MulMono(nCommitted + committing, sections, entries);
      MulAdd(nCommitted, committing, entries);
      MulMono(0, nCommitted, entries);
      MulMono(0, committing, entries);
      var start, middle := CommittedPos(), uncommittedSection * entries;
      JoinPoint(start, committed, middle, size, sections, entries, committedSection, nCommitted);
      forall p | 0 <= p < size && Dist(start, p, size) < committed + more
        ensures slots[p] != InProgress
      {
        ZoneJoins(start, committed, middle, more, p, size);
      }
    }

    /** The writer takes on everything committed so far. */
    method StartWriter() returns (start: nat, n: nat)
      requires Valid() && writing == 0
      modifies `writing, `consumed
      ensures Valid() && writing == n == nCommitted && start == committedSection && consumed == 0
    {
      start, n := committedSection, nCommitted;
      writing, consumed := n, 0;
      MulMono(0, n, entries);
    }

    /** The writer is done with its next entry.  An entry that holds a block is marked unused and its
        node, which was linked, leaves the tree; an unused one is passed over.  No entry is in
        progress or beyond the device. */
    method Consume() returns (wrote: bool, p: nat, sector: nat)
      requires Valid() && consumed < writing * entries
      modifies `consumed, slots, nodes
      ensures Valid() && consumed == old(consumed) + 1
      ensures p == At(CommittedPos(), old(consumed), size) < size && old(slots[p]) != InProgress
      ensures wrote == old(slots[p]).Holds?
      ensures wrote ==> old(nodes[p]) == sector == old(slots[p]).sector < provided
      ensures !wrote ==> old(nodes[p]) == -1
      ensures slots[..] == old(slots[..])[p := Unused] && nodes[..] == old(nodes[..])[p := -1]
    {
      ConsumePosition();
      p, sector := committedSection * entries + consumed, 0;
      if p >= size {
        p := p - size;
      }
      assert Matched(slots[p], nodes[p], provided);
      wrote := slots[p].Holds? && slots[p].sector < provided;
      if wrote {
        sector := slots[p].sector;
        Clear(p);
      }
      PassOver(p);
    }

    /** The writer goes on to the entry after a cleared or unused one. */
    method PassOver(p: nat)
      requires Valid() && consumed < writing * entries
      requires p == At(CommittedPos(), consumed, size) < size && IsFree(p)
      modifies `consumed
      ensures Valid() && consumed == old(consumed) + 1
    {
      ConsumePosition();
      consumed := consumed + 1;
    }

    /** `journal_entry_set_unused` and `remove_journal_node` */
    method Clear(p: nat)
      requires Valid() && p < size && nodes[p] != -1
      modifies slots, nodes
      ensures Valid() && IsFree(p)
      ensures slots[..] == old(slots[..])[p := Unused] && nodes[..] == old(nodes[..])[p := -1]
    {
      slots[p] := Unused;
      nodes[p] := -1;
    }

    lemma ConsumePosition()
      requires Valid() && consumed < writing * entries
      ensures var p := At(CommittedPos(), consumed, size);
              && 0 <= p < size && slots[p] != InProgress
              && consumed + 1 <= size
              && (forall p' :: 0 <= p' < size && Dist(CommittedPos(), p', size) < consumed + 1 ==>
                    p' == p || Dist(CommittedPos(), p', size) < consumed)
    {
      Zones();
      CommittedIsNotFree();
      MulMono(writing, nCommitted, entries);
      var p := At(CommittedPos(), consumed, size);
      assert Dist(CommittedPos(), p, size) == consumed;
    }

    /** The writer has consumed all its sections: they become free. */
    method FinishWriter() returns (wake: bool)
      requires Valid() && consumed == writing * entries
      modifies `committedSection, `nCommitted, `freeSectors, `writing, `consumed
      ensures Valid() && writing == 0
      ensures committedSection == Wrap(old(committedSection) + old(writing), sections)
      ensures nCommitted == old(nCommitted) - old(writing)
      ensures freeSectors == old(freeSectors) + old(consumed)
      ensures CommittedPos() == At(old(CommittedPos()), old(consumed), size)
      ensures CommittedEntries() == old(CommittedEntries()) - old(consumed)
      ensures StampedEntries() == old(StampedEntries()) - old(consumed)
      ensures wake == (old(freeSectors) == 0)
    {
      var freed := writing * entries;
      FewerEntries();
      FreeGrows(freed);
      CommittedShrinks(freed);
      ghost var used := nUncommitted + nCommitted;
      committedSection := Wrap(committedSection + writing, sections);
      nCommitted := nCommitted - writing;
      assert nUncommitted + nCommitted == used - writing;
      wake := freeSectors == 0;
      freeSectors := freeSectors + freed;
      writing, consumed := 0, 0;
      assert writing * entries == 0;
    }

    lemma FewerEntries()
      requires Valid() && consumed == writing * entries
      ensures (nCommitted - writing) * entries == CommittedEntries() - consumed
      ensures (nCommitted - writing + committing) * entries == StampedEntries() - consumed
      ensures Wrap(committedSection + writing, sections) * entries == At(CommittedPos(), consumed, size)
    {
      MulAdd(nCommitted - writing, writing, entries);
      MulAdd(nCommitted - writing + committing, writing, entries);
      JoinPoint(CommittedPos(), consumed, Wrap(committedSection + writing, sections) * entries, size, sections, entries,
                committedSection, writing);
    }

    lemma FreeGrows(freed: nat)
      requires Valid() && consumed == freed == writing * entries
      ensures size == (nUncommitted + nCommitted - writing) * entries + freeSectionEntry + (freeSectors + freed)
      ensures forall p :: 0 <= p < size && Dist(FreePos(), p, size) < freeSectors + freed ==> IsFree(p)
    {
      CommittedIsNotFree();
      MulMono(writing, nCommitted, entries);
      MulAdd(nUncommitted + nCommitted - writing, writing, entries);
    }

    lemma CommittedShrinks(freed: nat)
      requires Valid() && consumed == freed == writing * entries
      ensures Wrap(committedSection + writing, sections) * entries < size
      ensures forall p ::
                0 <= p < size &&
                (nCommitted - writing) * entries
                > Dist(Wrap(committedSection + writing, sections) * entries, p, size) ==>
                slots[p] != InProgress
    {
      var start, committed := CommittedPos(), nCommitted * entries;
      MulAdd(nCommitted - writing, writing, entries);
      MulMono(nCommitted, sections, entries);
      MulMono(0, nCommitted - writing, entries);
      var start' := Wrap(committedSection + writing, sections) * entries;
      JoinPoint(start, freed, start', size, sections, entries, committedSection, writing);
      forall p | 0 <= p < size && Dist(start', p, size) < committed - freed
        ensures slots[p] != InProgress
      {
        ZoneShrinks(start, freed, committed, p, size);
      }
    }
  }

  /** n sections after section i, in entries. */
  lemma JoinPoint(start: nat, len: nat, middle: nat, size: nat, sections: nat, e: nat, i: nat, n: nat)
    requires e > 0 && i < sections && n <= sections && size == sections * e
    requires start == i * e && len == n * e && middle == Wrap(i + n, sections) * e
    ensures middle == At(start, len, size) && middle < size && start < size
  {
    WrapScales(i, n, sections, e);
    SectionFits(i, sections, e);
    SectionFits(Wrap(i + n, sections), sections, e);
    MulAdd(i, n, e);
    if i + n < sections {
      SectionFits(i + n, sections, e);
    } else {
      MulMono(sections, i + n, e);
    }
  }

  /** A zone followed by another. */
  lemma ZoneJoins(start: nat, len: nat, middle: nat, more: nat, p: nat, size: nat)
    requires start < size && middle < size && p < size && len + more <= size
    requires middle == At(start, len, size)
    requires len <= Dist(start, p, size) < len + more || Dist(start, p, size) < len
    ensures Dist(start, p, size) < len || Dist(middle, p, size) < more
  {
  }

  /** Moving the start of a zone forward drops its first entries and no others. */
  lemma ZoneShrinks(start: nat, n: nat, len: nat, p: nat, size: nat)
    requires start < size && n <= len <= size && p < size
    requires Dist(At(start, n, size), p, size) < len - n
    ensures n <= Dist(start, p, size) < len
  {
  }

  lemma ZonesMeetAgain(size: nat, committed: nat, used: nat, freeEntry: nat, free: nat, freePos: nat, p: nat)
    requires size == used + freeEntry + free && committed < size && freePos < size && p < size
    requires freePos == committed + used + freeEntry - (if committed + used >= size then size else 0)
    requires free <= Dist(freePos, p, size) < free + used
    ensures Dist(freePos, p, size) == free + Dist(committed, p, size)
  {
  }

  /** The committed zone starts where the free zone ends. */
  lemma ZonesMeet(size: nat, committed: nat, used: nat, freeEntry: nat, free: nat, freePos: nat, p: nat)
    requires size == used + freeEntry + free && committed < size && freePos < size && p < size
    requires freePos == committed + used + freeEntry - (if committed + used >= size then size else 0)
    requires Dist(committed, p, size) < used
    ensures Dist(freePos, p, size) == free + Dist(committed, p, size)
  {
  }
}
