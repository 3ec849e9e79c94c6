# Device-mapper targets: a verified model

This project models the hard parts of the Linux device-mapper targets beside which SwornDisk is built,
and proves what they promise.  It is self-contained Dafny; `dafny verify dfyconfig.toml` checks it.

What is modelled, by component:

- **dm-integrity journal** (`CommitIds`, `JournalReplay`, `ReplayWindow`, `CrashReplay`, `JournalProtocol`,
  `JournalRing`, `JournalTree`, `JournalIndex`, `JournalStore`, `RangeLock`, `Layout`, `LayoutSetUp`).
  Commit ids and the replay scan; the journalled device as a state machine that refines an atomic disk over
  runs with any number of crashes; the ring of sections with its free, uncommitted and committed zones; the
  tree that finds the newest copy of a sector; ring and tree kept together, and what they hold against what
  the state machine has in its journal; the first-come range lock; the addresses of data and tags, and the
  layouts that set-up arrives at.
- **smq cache policy** (`IndexList`, `SmqWeave`, `SmqQueue`, `SmqOrder`, `SmqQueueOps`, `SmqTargets`,
  `SmqHash`, `BackgroundTracker`, `SmqLifecycle`, `SmqState`, `SmqSetUp`, `SmqPolicy`).  Index-linked lists
  woven through one array, multi-level queues with sentinels and the order of entries in them, the chained
  hash table, the background tracker, and the policy running on those links and chains with its invariant.
- **dm-bufio** (`BufioBuffer`, `BufioCache`, `Bufio`, `BufioClient`).  A write-back cache with partial dirty
  ranges and writes in flight, against a plain array of blocks.
- **dm-clone** (`CloneMetadata`, `CloneCommit`, `Clone`).  Two dirty maps, the two-phase commit with a flush
  of the destination between, its failures, and crash safety of the bitmap on disk.
- **dm-cache migrations on bio-prison v2** (`BioPrison`, `Migration`, `CacheData`), with what the blocks of
  the cached device hold meanwhile against a plain array, and the **deferred set of bio-prison v1**
  (`DeferredSet`).
- **dm-kcopyd** (`Kcopyd`, `KcopydRuns`, `KcopydData`).  Splitting, in-order writes and the callback, and
  what a callback without an error tells, over all runs.
- **dm-era** digestion (`Era`), **dm-cache** discard reload (`DiscardReload`) and the **Elephant** diffusers
  of dm-crypt (`Diffuser`, `Elephant`).
- `Arithmetic`, `Sequences` and `Options` hold the few helpers these share.

Conventions.  A lock held makes one step; whatever can happen between two locks is a separate method or
event, so that every interleaving is a sequence of them.  A wait for I/O is the device doing the rest of
that I/O.  Red-black trees are ordered sequences or maps, the persistent-data library is a map or array
with an atomic commit, a device has a volatile and a durable part.  Where many fields change together the
state is a record that one class field holds; its invariant is a predicate on the record, and the methods
on the record are called by the methods of the class.  Numbers the source only counts (which reads are in
flight, which bios hold a cell) are recorded in full so that they can be talked about.

Seven promises do not hold of the code as it stands.  Each has an input that shows it and the exact
condition under which the promise holds:

- a discard in dm-integrity may pass over a journalled block (`JournalTree.DiscardMissesBlock`,
  `JournalTree.DiscardIsSafeWhen`): the test compares the next journalled sector with the start of the
  range minus its length;
- dm-integrity tags may overwrite data (`LayoutSetUp.SmallAreasCollide`, `LayoutSetUp.SetUpIsSafeWhen`):
  with the old padding and areas of less than 256 sectors the tag run is longer than the area, and the
  metadata buffer may then be larger than it;
- the head of the range lock's wait list may overlap nothing in progress (`RangeLock.HeadOverlapsNothing`,
  `RangeLock.HeadOverlapsWhen`): a read that is refused waits with its first block only.  It is woken all
  the same (`RangeLock.EveryRun`, `RangeLock.LastOneWakes`);
- a sequential dm-kcopyd copy may never call its client back after an I/O error
  (`KcopydRuns.ReadErrorHangs`, `KcopydRuns.WriteErrorHangs`, `KcopydRuns.CallsBackWhen`): later segments
  wait for a turn to write that only the failed segment could pass on;
- the level targets of an smq queue need not add up to its entries (`SmqTargets.TargetsExceedEntries`,
  `SmqTargets.TargetsAddUpWhen`);
- invalidating an smq mapping on which work is pending leaves no good state
  (`SmqState.PendingHasNoOutcome`, `SmqState.InvalidateWhen`);
- moving a dm-bufio buffer that others hold need not copy all of it (`Bufio.SharedMoveCopiesPart`,
  `Bufio.SharedMoveCopiesWhen`): the range written is that of an earlier write.

## Model

| member | source | states |
|---|---|---|
| `CommitIds.StampIsRecognised` | src/c/dm-integrity.c:412-420 | a commit id made for a sequence number at a position is read back as that number and no other |
| `CommitIds.FindCommitSeq` | src/c/dm-integrity.c:2888-2897 | finds the number an id stands for at its position, or reports that there is none |
| `JournalReplay.Scan` | src/c/dm-integrity.c:2938-2958 | the first pass finds exactly the numbers that occur, the last section each occurs in, whether any entry is in use, and any id that stands for no number |
| `JournalReplay.FindUnused` | src/c/dm-integrity.c:2961-2973 | the two search loops pick the unused number as specified |
| `JournalReplay.CountRun` | src/c/dm-integrity.c:2990-3009 | the second pass counts the sections that carry the expected ids from the start on, with the expectation bumped where the ring wraps |
| `JournalReplay.MakePlan` | src/c/dm-integrity.c:2936-3009 | the whole scan decides start, length and next number as a function of the ids found alone |
| `ReplayWindow.NewestChosen` | src/c/dm-integrity.c:2961-2989 | for every crash image without a gap every id is recognised, some number is unused, and the number chosen as the newest is the one of the newest section on disk |
| `ReplayWindow.PlanWithGap` | src/c/dm-integrity.c:2961-3009 | when the whole ring was in flight and nothing with its first number arrived, so that a number is missing in between, replay declares the journal empty and replays nothing |
| `ReplayWindow.PlanWithoutGap` | src/c/dm-integrity.c:2961-3009 | for every other crash image: replay starts right after the newest section on disk, goes up to the last section of the complete prefix of the commit in flight, and the journal goes on with the number after it |
| `CrashReplay.ReplayAppliesLog` | src/c/dm-integrity.c:2899-3010 | for any ring at a commit boundary and any subset of the sectors of one commit persisted, also when it wraps, replay applies in commit order every section outside that commit and then exactly its complete prefix; no torn section is read |
| `CrashReplay.SectorArrives` | src/c/dm-integrity.c:2378-2394 | one sector of the commit in flight reaching the disk leads from crash image to crash image |
| `CrashReplay.InitJournal` | src/c/dm-integrity.c:2862-2886 | erases exactly the given stretch of the ring, with wrap-around, and nothing else |
| `CrashReplay.ClearJournal` | src/c/dm-integrity.c:3023-3038 | the three calls together erase every section once |
| `CrashReplay.ReplayJournal` | src/c/dm-integrity.c:2899-3042 | the whole of replay: the sections applied and the journal left behind are those of the plan |
| `CrashReplay.RestartIsClean` | src/c/dm-integrity.c:3012-3042 | after crash and replay, kept or cleared, the ring is again at a commit boundary with nothing in flight |
| `JournalProtocol.ReadsNewestWrite` | src/c/dm-integrity.c:2131-2195 | a read returns the newest accepted write of its sector, committed or not, written back or not |
| `JournalProtocol.StartCommitKeeps` | src/c/dm-integrity.c:2353-2377 | fixing the sections of a commit keeps the invariant and changes nothing of the disk the device stands for |
| `JournalProtocol.PersistSectorKeeps` | src/c/dm-integrity.c:2378-2394 | nor does any journal sector of the commit becoming durable, in any order |
| `JournalProtocol.FinishCommitKeeps` | src/c/dm-integrity.c:2395-2416 | the end of a commit settles exactly the writes it had in flight, in their order |
| `JournalProtocol.WriteBackKeeps` | src/c/dm-integrity.c:2440-2583 | writing a journal entry to its place, or skipping it for a newer committed copy, changes no read, nothing on the medium and nothing of the disk the device stands for |
| `JournalProtocol.FinishWriterKeeps` | src/c/dm-integrity.c:2585-2618 | freeing sections changes nothing of the disk the device stands for |
| `JournalProtocol.SameRecovery` | src/c/dm-integrity.c:2585-2618 | neither data reaching the medium nor the freeing of sections changes what crash and replay would leave, so sections are freed only when what they hold is durable in place |
| `JournalProtocol.CrashRecovers` | src/c/dm-integrity.c:2899-3010 | a crash at any point followed by replay leaves the committed writes and those of a complete prefix of the commit in flight |
| `JournalProtocol.CrashKeeps` | src/c/dm-integrity.c:2899-3057 | a crash at any point, and replay after any number of replays cut short by further crashes, is one step of the atomic disk that keeps exactly the writes of the complete prefix of the commit in flight and loses the later ones; the device runs on from it |
| `JournalProtocol.StepRefines` | src/c/dm-integrity.c:2353-2618 | every step has on the atomic disk exactly its own effect: a write accepted is that write and no other, a commit settles what it had in flight, a crash drops a suffix of what was not settled, and all else changes nothing |
| `JournalProtocol.RunsRefine` | src/c/dm-integrity.c:2353-3057 | after every run, with any number of crashes, the device stands for the atomic disk that has undergone the same effects, each of which was legal there |
| `JournalProtocol.ReadsAreCurrent` | src/c/dm-integrity.c:2131-2195 | a read gives the newest write that no crash has lost |
| `JournalProtocol.RunsRead` | src/c/dm-integrity.c:2131-2195 | at every point of every run a read returns what the atomic disk of the same effects holds |
| `JournalProtocol.InterruptedReplay` | src/c/dm-integrity.c:2899-3010 | a replay that was cut short after any part of its writes had reached the medium, and is done again from the untouched journal, gives the same contents; every crash step goes through such a half-done medium |
| `JournalProtocol.CrashIsPossible` | src/c/dm-integrity.c:2899-3057 | recovery is never stuck: for every good state replay finds a plan, and from every medium on which replays of it were cut short there is a state it leads to |
| `JournalProtocol.StepParts` | src/c/dm-integrity.c:2353-2618 | what each step does to the committed, in-flight and pending writes of the journal, which is what the operations on the ring do to what it holds |
| `JournalRing.Ring.constructor` | src/c/dm-integrity.c:3043-3057 | the ring as replay leaves it: all entries unused with unlinked nodes |
| `JournalRing.Ring.Zones` | src/c/dm-integrity.c:2399-2404 | free, uncommitted and committed zone follow each other around the ring and add up to its size |
| `JournalRing.TakeEntries` | src/c/dm-integrity.c:2137-2153 | taking entries keeps sections * entries = used * entries + entry in section + free, with one subtraction enough to wrap |
| `JournalRing.Ring.Reserve` | src/c/dm-integrity.c:2131-2176 | hands out as many entries as asked for or free; each was unused with an unlinked node and is linked to its block now; all others are untouched |
| `JournalRing.Ring.Fill` | src/c/dm-integrity.c:2053-2063 | an entry in progress gets the sector its node is linked to; an entry is linked exactly while it is in use, always to a sector of the device |
| `JournalRing.Ring.PadUncommitted` | src/c/dm-integrity.c:2332-2351 | gives up the rest of a started section without underflow; the check after it cannot fail |
| `JournalRing.Ring.StartCommit` | src/c/dm-integrity.c:2353-2377 | a commit covers the padded uncommitted zone and fits the ring |
| `JournalRing.Ring.FinishCommit` | src/c/dm-integrity.c:2399-2404 | its sections move to the committed zone, nothing else moves |
| `JournalRing.Ring.StartWriter` | src/c/dm-integrity.c:2585-2600 | the writer takes all committed sections |
| `JournalRing.Ring.Consume` | src/c/dm-integrity.c:2466-2572 | an entry the writer passes is not in progress; it is skipped exactly when unused, and then its node was unlinked already; else its sector lies within the device, its node was linked to that sector, and both are cleared |
| `JournalRing.Ring.FinishWriter` | src/c/dm-integrity.c:2604-2618 | its sections become free and waiters are woken exactly when nothing was free |
| `JournalTree.AddInserts` | src/c/dm-integrity.c:1305-1328 | a node goes behind all of its sector and before all above it, so equal sectors stay in insertion order |
| `JournalTree.AddIsNewest` | src/c/dm-integrity.c:1305-1328 | the entry added becomes the newest of its sector and no other sector changes |
| `JournalTree.Find` | src/c/dm-integrity.c:1339-1358 | returns the newest entry of the sector and the least larger sector in the tree |
| `JournalTree.TestNodeIsNewest` | src/c/dm-integrity.c:1360-1379 | looking at one neighbour recognises the newest copy, both ways |
| `JournalTree.ReadSpan` | src/c/dm-integrity.c:2181-2195 | every block of the span chosen is absent from the journal, or served from its newest entry at consecutive positions |
| `JournalTree.NewerCommittedIsExact` | src/c/dm-integrity.c:1381-1406 | comparing the section of the next node with the committed sections, wrapped or not, tells whether any newer copy is in a committed section |
| `JournalTree.InZoneIsExact` | src/c/dm-integrity.c:1398-1404 | the three comparisons decide membership of the ring zone, wrapped or not |
| `JournalTree.ZoneIsAge` | src/c/dm-integrity.c:1398-1404 | a position is in a committed section exactly when it is young enough counted from the first one, so the zone test is a test of age |
| `JournalTree.DiscardMissesBlock` | src/c/dm-integrity.c:2227-2231 | the test before a discard lets one through that covers a journalled block not at its start |
| `JournalTree.DiscardIsSafeWhen` | src/c/dm-integrity.c:2227-2231 | a discard let through is free of journal copies if and only if the next journalled sector is not inside it |
| `JournalTree.AddKeepsAge` | src/c/dm-integrity.c:1305-1328 | linking the entry handed out last keeps equal sectors in order of age |
| `JournalIndex.LinkKeeps` | src/c/dm-integrity.c:1305-1328 | linking the node of an entry younger than all linked ones: the tree holds exactly the linked nodes of the ring, by sector and then by age |
| `JournalIndex.UnlinkKeeps` | src/c/dm-integrity.c:1331-1336 | so does unlinking one |
| `JournalIndex.ShiftKeeps` | src/c/dm-integrity.c:2604-2618 | and so it is with ages counted from a later section, once nothing before it is linked |
| `JournalIndex.SearchFindsYoungest` | src/c/dm-integrity.c:1339-1358 | a search finds the youngest entry linked to a sector, or there is none |
| `JournalIndex.SearchIsNewest` | src/c/dm-integrity.c:2181-2195 | what the tree finds for a sector is the newest write to it among all entries of the ring in the order they were handed out |
| `JournalIndex.Journal.Reserve` | src/c/dm-integrity.c:2137-2176 | ring and tree stay together when entries are handed out and linked one after the other |
| `JournalIndex.Journal.Consume` | src/c/dm-integrity.c:2466-2572 | and when the writer is done with an entry |
| `JournalIndex.Journal.FinishWriter` | src/c/dm-integrity.c:2604-2618 | and when its sections become free, ages then counting from the next committed one on |
| `JournalIndex.Journal.Search` | src/c/dm-integrity.c:1339-1358 | so in every state a search finds the youngest entry of the ring for a block |
| `JournalIndex.Journal.NewerCopyCommitted` | src/c/dm-integrity.c:1381-1406 | and one look ahead decides whether a newer copy is in a committed section of the ring |
| `JournalStore.Store.constructor` | src/c/dm-integrity.c:3043-3057 | the journal as replay leaves it holds no write, as the state machine after a crash |
| `JournalStore.Store.Reserve` | src/c/dm-integrity.c:2137-2176 | what the ring holds, oldest first, gains exactly the writes accepted, as pending ones; committed and in-flight ones stay |
| `JournalStore.Store.StartCommit` | src/c/dm-integrity.c:2353-2377 | all that is pending, and nothing else, becomes part of the commit |
| `JournalStore.Store.FinishCommit` | src/c/dm-integrity.c:2399-2404 | exactly the writes of the commit become committed, behind those that were |
| `JournalStore.Store.Consume` | src/c/dm-integrity.c:2466-2572 | exactly the oldest committed write leaves, or none when the entry is unused |
| `JournalStore.Store.FinishWriter` | src/c/dm-integrity.c:2604-2618 | freeing the sections loses nothing that is held |
| `JournalStore.Store.Search` | src/c/dm-integrity.c:1339-1358 | a search finds the newest of all writes held |
| `JournalStore.Store.SearchIsRead` | src/c/dm-integrity.c:2181-2195 | when the ring holds the writes a state of the protocol has in its journal, what the tree search gives, or else the device, is what that state reads |
| `JournalStore.Store.DropsWhenNewer` | src/c/dm-integrity.c:2505-2524 | the look ahead tells the writer to drop its next entry exactly when there is a newer committed write to its sector |
| `RangeLock.LinkDecides` | src/c/dm-integrity.c:1216-1250 | the descent along one path fails if and only if some range in progress overlaps, else it links the range in order |
| `RangeLock.RangeLocker.AddNewRange` | src/c/dm-integrity.c:1216-1250 | granted exactly when no waiter that counts and no range in progress overlaps; then it is linked in order |
| `RangeLock.RangeLocker.AddNewRangeAndWait` | src/c/dm-integrity.c:2197-2212 | granted exactly when nothing overlaps the range tried, and then in progress beside those that were; or queued behind everybody with the front of it that the caller chose to wait with |
| `RangeLock.RangeLocker.RemoveRange` | src/c/dm-integrity.c:1252-1278 | exactly that range goes: every other range in progress still is, counted as often as before; waiters join it from the head of the list, which keeps its order, until the head overlaps a range in progress |
| `RangeLock.DrainKeeps` | src/c/dm-integrity.c:1252-1269 | it stops with the list empty or its head overlapping a range in progress |
| `RangeLock.EveryRun` | src/c/dm-integrity.c:1210-1297 | in every run, also with waiters that shortened their range: ranges in progress are disjoint, no range overtakes an overlapping waiter, and nobody waits while nothing is in progress |
| `RangeLock.OnePlace` | src/c/dm-integrity.c:1210-1297 | in every run in which only ranges in progress end, each request waits, is in progress or has left, at one of these places only and once; nothing else is at any of them |
| `RangeLock.HoldersAreApart` | src/c/dm-integrity.c:1210-1297 | so two requests that have been granted their ranges and have not left never overlap |
| `RangeLock.LastOneWakes` | src/c/dm-integrity.c:1252-1278 | the end of the last range in progress lets the head of the wait list in, so no wake-up is lost |
| `RangeLock.HeadOverlapsNothing` | src/c/dm-integrity.c:2197-2212 | a read of sixteen sectors refused for eight in progress waits with its first block, which overlaps none of them |
| `RangeLock.HeadOverlapsWhen` | src/c/dm-integrity.c:2197-2212 | after any run the head of the wait list overlaps a range in progress if and only if no arrival since the last departure queued, as the first, a front that missed all of them |
| `RangeLock.WholeIsSuited` | src/c/dm-integrity.c:1280-1297 | in particular it does in every run in which each arrival that shortened its range was followed by a departure |
| `Layout.RunHoldsTags` | src/c/dm-integrity.c:3400-3412 | the tag run computed for an area is a whole number of paddings, holds the tags of all its blocks, and with one padding less would not |
| `Layout.DataIsInjective` | src/c/dm-integrity.c:422-433 | distinct logical sectors have distinct data sectors, all past superblock and journal |
| `Layout.DataIsContiguous` | src/c/dm-integrity.c:422-433 | data starts after the first tag run, and the sector after a sector is the next one on the device, with the tag run of the next area between the last of an area and the first of the next |
| `Layout.TagsAreDisjoint` | src/c/dm-integrity.c:441-465 | tags of distinct blocks share no byte |
| `Layout.TagsAreContiguous` | src/c/dm-integrity.c:441-465 | tags start right after the journal, the tag of the next block follows at once, and after the last block of an area comes the start of the next area |
| `Layout.TagsAvoidData` | src/c/dm-integrity.c:441-484 | no tag touches data, journal or superblock |
| `Layout.LargeBufferCollides` | src/c/dm-integrity.c:4363-4364 | in any layout with a buffer larger than the interleave the first tag of the second area lies on the first data sector |
| `Layout.LayoutIsSafeWhen` | src/c/dm-integrity.c:4363-4364 | tags and data are apart if and only if the buffer is no larger than the interleave |
| `LayoutSetUp.SetUpIsValid` | src/c/dm-integrity.c:3400-3412 | every request the constructor accepts leads to a layout the address functions work with |
| `LayoutSetUp.BufferFits` | src/c/dm-integrity.c:4363-4364 | the buffer is no larger than the interleave exactly with the fixed padding, or areas of 256 sectors and more, or when no larger one was asked for |
| `LayoutSetUp.SetUpIsSafeWhen` | src/c/dm-integrity.c:4363-4364 | for every accepted request: tags and data of two areas are apart if and only if one of these holds, so the fixed padding is always safe |
| `LayoutSetUp.SmallAreasCollide` | src/c/dm-integrity.c:3400-3412 | with the old padding, areas of eight sectors, tags of four bytes and the default buffer, a tag lies on data |
| `IndexList.Space.AddHead` | src/c/dm-cache-policy-smq.c:147-161 | the list spells the member followed by what it spelled before, and the count of non-sentinels is exact |
| `IndexList.Space.AddTail` | src/c/dm-cache-policy-smq.c:163-177 | the same at the end |
| `IndexList.Space.AddBefore` | src/c/dm-cache-policy-smq.c:179-195 | the same before a given member |
| `IndexList.Space.Del` | src/c/dm-cache-policy-smq.c:197-214 | the list spells what it spelled without the member |
| `IndexList.Space.PopHead` | src/c/dm-cache-policy-smq.c:216-227 | takes the first member that is no sentinel, if there is one |
| `IndexList.Space.PopTail` | src/c/dm-cache-policy-smq.c:229-240 | takes the last member that is no sentinel, if there is one |
| `IndexList.InsertSparesOthers` | src/c/dm-cache-policy-smq.c:147-195 | other lists threaded through the same array stay as they are |
| `IndexList.RemoveSparesOthers` | src/c/dm-cache-policy-smq.c:197-214 | also on removal |
| `SmqWeave.InsertWeaves` | src/c/dm-cache-policy-smq.c:147-195 | all lists stay threaded through the one array, no entry being in two, when an entry in none of them joins one |
| `SmqWeave.RemoveWeaves` | src/c/dm-cache-policy-smq.c:197-214 | and when one is taken out, which then is in no list |
| `SmqWeave.Weave.Put` | src/c/dm-cache-policy-smq.c:147-195 | exactly one list changes, by that entry at that place |
| `SmqWeave.Weave.Take` | src/c/dm-cache-policy-smq.c:197-214 | likewise for removal |
| `SmqWeave.Weave.Pop` | src/c/dm-cache-policy-smq.c:216-240 | takes the first or the last entry that is no sentinel, if the count says there is one |
| `SmqQueueOps.FindFrom` | src/c/dm-cache-policy-smq.c:372-384 | the oldest entry of the lowest level at or above a bound that has one |
| `SmqOrder.OneCameDown` | src/c/dm-cache-policy-smq.c:440-451 | the oldest entry of the lowest level above that has one, put at the back of a level, leaves the order of all entries from that level up as it was |
| `SmqOrder.OneWentUp` | src/c/dm-cache-policy-smq.c:453-466 | the youngest entries of a level stand, youngest first, at the back of the next |
| `SmqQueueOps.FillLevel` | src/c/dm-cache-policy-smq.c:437-467 | a level ends with its target, or with all there is above it; entries that come down keep the order of the whole row of levels and leave each level above the youngest of its own; a surplus goes up youngest first; lower levels and sentinels stay |
| `SmqQueueOps.Redistribute` | src/c/dm-cache-policy-smq.c:427-468 | on the links: no entry is lost or doubled, sentinels stay, each level has what the targets give it, and the way there is one such filling per level, lowest first |
| `SmqTargets.FilledIsTarget` | src/c/dm-cache-policy-smq.c:427-468 | when targets add up to the number of entries every level has exactly its target |
| `SmqTargets.SetSubrange` | src/c/dm-cache-policy-smq.c:386-399 | levels share a number evenly to within one and lose none of it |
| `SmqTargets.SetTargets` | src/c/dm-cache-policy-smq.c:405-425 | the targets are an even share of the fixed number for each level at the top and of the rest for each level below |
| `SmqTargets.TargetsAddUpWhen` | src/c/dm-cache-policy-smq.c:405-425 | the targets add up to the number of entries if and only if the fixed number fits and each share has levels to go to |
| `SmqTargets.TargetsExceedEntries` | src/c/dm-cache-policy-smq.c:1782-1785 | whenever the hotspot queue holds fewer entries than its eight top levels are to have, its 64 targets add up to the latter |
| `SmqQueueOps.Requeue` | src/c/dm-cache-policy-smq.c:470-506 | on the links: if the entry can go up, the oldest entry of its new level comes down for it; then it goes to the back of its level raised by the given number, capped at the top; members and counts stay |
| `SmqQueueOps.Swap` | src/c/dm-cache-policy-smq.c:477-500 | on the links: the oldest entry of the new level, if it has one, comes down before the first or the second sentinel, by the number of sentinels it stood behind, or else to the back; nothing else moves |
| `SmqQueueOps.MoveTo` | src/c/dm-cache-policy-smq.c:295-330 | exactly one entry moves, to that place; all lists stay threaded |
| `SmqQueueOps.Peek` | src/c/dm-cache-policy-smq.c:335-355 | the oldest entry of the lowest level below a bound that has one to offer, sentinels stopping the search unless they may be crossed; when it fails there is none |
| `SmqState.Delete` | src/c/dm-cache-policy-smq.c:325-330 | exactly that entry leaves and is in no list then; the counter stays exact, sentinels stay, and all lists stay threaded |
| `SmqState.Push` | src/c/dm-cache-policy-smq.c:295-313 | exactly that entry joins the list of the level it records, at the back or at the front as asked; all lists stay threaded |
| `SmqHash.HashTable.Find` | src/c/dm-cache-policy-smq.c:628-642 | finds an entry for the block if and only if the table has one, and the entry before it in the chain |
| `SmqHash.HashTable.Insert` | src/c/dm-cache-policy-smq.c:616-626 | the entry is in the table, at the head of its chain; other chains stay |
| `SmqHash.HashTable.Unlink` | src/c/dm-cache-policy-smq.c:644-651 | the entry leaves its chain, which stays well formed |
| `SmqHash.HashTable.Lookup` | src/c/dm-cache-policy-smq.c:656-672 | the table holds the same entries and the one found heads its chain |
| `SmqHash.HashTable.Remove` | src/c/dm-cache-policy-smq.c:674-686 | removes that entry, given that blocks in the table are distinct |
| `SmqHash.HashTable.SetBlock` | src/c/dm-cache-policy-smq.c:1466-1468 | an entry outside the table may get another block without harm to any chain |
| `BackgroundTracker.Tracker.CountersAddUp` | src/c/dm-cache-background-tracker.c:133-167 | the three counters add up to issued plus queued, which is the size of the tree and at most the limit |
| `BackgroundTracker.Tracker.QueueWork` | src/c/dm-cache-background-tracker.c:177-209 | refuses exactly when full or when the block has work, else the work is queued |
| `BackgroundTracker.Tracker.IssueWork` | src/c/dm-cache-background-tracker.c:215-227 | moves the most recently queued item to the issued list |
| `BackgroundTracker.Tracker.CompleteWork` | src/c/dm-cache-background-tracker.c:230-239 | forgets exactly that item |
| `SmqState.Initially` | src/c/dm-cache-policy-smq.c:918-946 | an empty cache with its sentinels satisfies the invariant |
| `SmqSetUp.InitLists` | src/c/dm-cache-policy-smq.c:698-712 | all entries are linked into the free list in order and both sentinels into every level of both queues |
| `SmqState.WorkStarted` | src/c/dm-cache-policy-smq.c:1174-1224 | an entry taken out for work keeps the invariant and the mapping |
| `SmqState.PromotionStarted` | src/c/dm-cache-policy-smq.c:1226-1262 | a reserved entry is neither queued nor hashed |
| `SmqState.PromotionFinished` | src/c/dm-cache-policy-smq.c:1466-1477 | the promoted block is mapped once; no mapping or pending promotion has it besides |
| `SmqState.EntryReleased` | src/c/dm-cache-policy-smq.c:1478-1489 | a released entry is on the free list once and nowhere else |
| `SmqState.EntryReturned` | src/c/dm-cache-policy-smq.c:1490-1499 | a returned entry is in the queue its dirty bit names at that time |
| `SmqState.DirtyMoved` | src/c/dm-cache-policy-smq.c:1517-1528 | a changed dirty bit moves a queued entry between queues, also onto itself |
| `SmqState.EntryLoaded` | src/c/dm-cache-policy-smq.c:1555-1575 | a loaded mapping keeps the mapping injective |
| `SmqState.EntryInvalidated` | src/c/dm-cache-policy-smq.c:1577-1590 | an invalidated entry is free and unmapped |
| `SmqState.InvalidateWhen` | src/c/dm-cache-policy-smq.c:1577-1590 | of a sound state and an allocated entry: some sound state has that entry free and unmapped and its work as it was if and only if no work on it is pending |
| `SmqState.PendingHasNoOutcome` | src/c/dm-cache-policy-smq.c:1577-1590 | a cache of one entry whose demotion is queued: no sound state has it freed |
| `SmqPolicy.Policy.constructor` | src/c/dm-cache-policy-smq.c:1719-1827 | the policy starts empty and valid, with its links and chains set up |
| `SmqPolicy.Policy.EveryEntryHasOnePlace` | src/c/dm-cache-policy-smq.c:728-766 | in every reachable state an entry is free and linked into the free list only, or linked into exactly the level it records of the queue of its dirty bit, or linked nowhere with exactly one work item; and it is hashed unless free or being promoted |
| `SmqPolicy.Policy.MappingIsInjective` | src/c/dm-cache-policy-smq.c:1226-1262 | no two cache blocks map one origin block, and none that is mapped has a promotion pending |
| `SmqPolicy.Policy.QueueWriteback` | src/c/dm-cache-policy-smq.c:1174-1195 | the oldest dirty entry is offered: pending and in no list, with its work queued, exactly when the tracker has room for its block, else at the front of its level; no other entry changes |
| `SmqPolicy.Policy.QueueDemotion` | src/c/dm-cache-policy-smq.c:1197-1224 | the oldest clean entry of the lower half is offered for demotion, or, if there is none and something is dirty, the oldest dirty one for writeback; nothing when migrations are off |
| `SmqPolicy.Policy.QueuePromotion` | src/c/dm-cache-policy-smq.c:1226-1262 | the first free entry is set up, reserved if the tracker has room and sent to the back of the free list if it has not; with none free, a demotion is offered exactly when fewer than a quarter of the cache is being demoted; nothing is mapped yet and no other entry changes |
| `SmqPolicy.Policy.Reserve` | src/c/dm-cache-policy-smq.c:1247-1261 | the first free entry is set up pending and at the bottom level: reserved, or last of the free list when the tracker refuses; no other entry changes |
| `SmqPolicy.Policy.Lookup` | src/c/dm-cache-policy-smq.c:1365-1398 | hits exactly the mapped blocks and returns their cache block; on the first hit of a period, with no work pending, the entry is re-queued one level up in the queue of its dirty bit and nothing else changes; a miss that asks for a promotion comes to what asking for one comes to |
| `SmqPolicy.Policy.Touch` | src/c/dm-cache-policy-smq.c:991-1009 | the entry is re-queued one level up in the queue of its dirty bit, around the sentinels of its old level; nothing else changes |
| `SmqPolicy.Policy.GetBackgroundWork` | src/c/dm-cache-policy-smq.c:1434-1452 | issues the item queued last; with none queued, and only when idle with something dirty, the oldest dirty entry is offered for writeback and issued exactly when the tracker takes it; otherwise nothing is found and nothing changes |
| `SmqPolicy.Policy.Complete` | src/c/dm-cache-policy-smq.c:1458-1502 | exactly that work is forgotten; the mapping gains a successful promotion, loses a successful demotion, and stays otherwise.  A promoted entry is last of the top level, an entry released last of the free list, and any other last of the level it had in the queue of its dirty bit; no dirty bit changes, and no other entry, level or place does |
| `SmqPolicy.Policy.SetClearDirty` | src/c/dm-cache-policy-smq.c:1517-1528 | sets the bit; with work pending nothing else changes, and otherwise the entry goes to the back of its level in the queue the bit names, all others staying where they are |
| `SmqPolicy.Policy.LoadMapping` | src/c/dm-cache-policy-smq.c:1555-1575 | adds one mapping, its entry first of the level given in the queue of its dirty bit; all others stay |
| `SmqPolicy.Policy.Invalidate` | src/c/dm-cache-policy-smq.c:1577-1590 | removes one mapping, its entry going to the back of the free list and all others staying, or reports that there was none, for an entry without pending work |
| `SmqPolicy.Policy.UpdateSentinels` | src/c/dm-cache-policy-smq.c:877-916 | the other sentinel of every level ends up last in its list, the other members keep their order, and nothing outside that queue changes |
| `SmqPolicy.Policy.EndCachePeriod` | src/c/dm-cache-policy-smq.c:1104-1115 | every level of the queue ends with an even share of the entries, those at the bottom with one more where they do not divide evenly, filled level by level in the order the source gives; nothing outside that queue changes |
| `BufioBuffer.WriteCovers` | src/c/dm-bufio.c:673-705 | the rounded write covers the dirty range, stays in the block and is a whole number of sectors |
| `BufioBuffer.MarkKeeps` | src/c/dm-bufio.c:1214-1238 | merging dirty ranges keeps every difference between buffer and disk accounted for |
| `BufioBuffer.StartWriteKeeps` | src/c/dm-bufio.c:745-761 | so does turning the dirty range into a write in flight |
| `BufioBuffer.TransferKeeps` | src/c/dm-bufio.c:717-734 | and a byte reaching the disk, even if the holder changes it meanwhile |
| `BufioBuffer.CleanIsDisk` | src/c/dm-bufio.c:782-792 | a clean and quiet buffer equals its block |
| `BufioCache.RelinkLru` | src/c/dm-bufio.c:536-549 | the buffer is on exactly the list asked for, first, the others in their order; what the client sees stays |
| `BufioCache.UnlinkBuffer` | src/c/dm-bufio.c:520-531 | dropping a clean buffer shows the client the same data; the lists lose it and keep their order |
| `Bufio.WriteDirtyBuffer` | src/c/dm-bufio.c:745-761 | the dirty range, if there is one, is in flight after any earlier write; no other buffer changes and the client sees no change |
| `Bufio.MakeBufferClean` | src/c/dm-bufio.c:782-792 | the buffer is clean and quiet |
| `Bufio.GetUnclaimedBuffer` | src/c/dm-bufio.c:798-826 | finds one exactly when some buffer is held by nobody, and evicts the last such one of the clean list or, if all of those are held, of the dirty list; the client sees no change and the checks on the lists cannot fail |
| `Bufio.WriteDirtyBuffersAsync` | src/c/dm-bufio.c:947-967 | from the end of the dirty list down, to its front or, if told not to wait, to the first buffer still being written, every dirty range is in flight and every quiet clean buffer has left the list; no other buffer changes |
| `Bufio.WriteDirtyBuffers` | src/c/dm-bufio.c:1267-1336 | every dirty range has been written and every write is over, no buffer is on the dirty list and, when all changes had been marked, the disk is what the client sees |
| `Bufio.BufioNew` | src/c/dm-bufio.c:985-1049 | a block with a buffer gets one more holder, unless it is prefetched or asked for while being read; a block without one gets one exactly unless only a present one was asked for, or memory is short and it is a prefetch or every buffer is held; for lack of memory exactly the buffer to give up goes; only a fresh buffer of an uncached block changes what is seen; a new buffer keeps the range last written from its memory |
| `Bufio.ReleaseMove` | src/c/dm-bufio.c:1399-1460 | by the only holder: the new block reads as the old one did, and is dirty from end to end; with other holders: it gets the old block over the range written, which is the dirty range or that of the last write; the old block reads as before; no other buffer changes; if the new block is held, nothing does |
| `Bufio.SharedMoveCopiesWhen` | src/c/dm-bufio.c:1428-1455 | with other holders all of the block is copied, whatever the blocks hold, if and only if the range written is the whole block |
| `Bufio.SharedMoveCopiesPart` | src/c/dm-bufio.c:1428-1455 | a clean buffer of two pages whose last write was of the first sector moves its first page only |
| `Bufio.Forget` | src/c/dm-bufio.c:1463-1488 | drops the buffer exactly when it is neither held nor busy nor dirty, and changes nothing seen |
| `Bufio.MarkDirty` | src/c/dm-bufio.c:1214-1238 | the range is merged and the buffer is on the dirty list |
| `Bufio.Release` | src/c/dm-bufio.c:1184-1211 | one holder less |
| `Bufio.Transfer` | src/c/dm-bufio.c:573-658 | a byte of a write in flight reaching the disk is invisible |
| `Bufio.ReadEnd` | src/c/dm-bufio.c:1055-1066 | the buffer holds its block |
| `BufioClient.Client.Load` | src/c/dm-bufio.c:1074-1111 | a byte read through a held buffer is the byte of a plain array of blocks, in every reachable state |
| `BufioClient.Client.Store` | src/c/dm-bufio.c:1214-1238 | a store changes that byte of the plain array and no other |
| `BufioClient.Client.NewRead` | src/c/dm-bufio.c:1074-1135 | getting a buffer leaves the plain array as it is, but for fresh buffers; it fails in exactly the cases in which the source returns none, and then changes nothing |
| `BufioClient.Client.ReleaseMove` | src/c/dm-bufio.c:1399-1460 | a move by the only holder copies a block of the plain array; with other holders it copies the range written |
| `BufioClient.Client.WriteDirtyBuffers` | src/c/dm-bufio.c:1267-1336 | after writing back, nothing is dirty and, when all changes had been marked, the disk is the plain array |
| `BufioClient.Client.Device` | src/c/dm-bufio.c:717-734 | the end of a read, a byte stored and the end of a write each change that buffer only, and not the plain array |
| `CloneMetadata.UpdateMetadataWord` | src/c/dm-clone-metadata.c:664-686 | moves the bits of one word from the dirty map to the bitset, losing and inventing none; it fails only at a dirty region whose bit cannot be set, which stays dirty, and leaves other words alone |
| `CloneMetadata.FlushWords` | src/c/dm-clone-metadata.c:742-761 | the scan over dirty words misses no dirty region, and succeeds if and only if the bit of every dirty region can be set |
| `CloneCommit.SetRegionHydrated` | src/c/dm-clone-metadata.c:841-873 | marks exactly that region, in core and in the dirty map in use, or refuses out of range or read-only and changes nothing |
| `CloneCommit.CondSetRange` | src/c/dm-clone-metadata.c:875-910 | marks exactly the regions of the range not marked before, in core and in the dirty map in use, or refuses out of range or read-only and changes nothing |
| `CloneCommit.PreCommit` | src/c/dm-clone-metadata.c:776-814 | in a healthy state the spare dirty map is clean, so the swap never fails |
| `CloneCommit.IssueFlush` | src/c/dm-clone-target.c:1152-1156 | the flush covers what had been written when it was issued |
| `CloneCommit.FlushDone` | src/c/dm-clone-target.c:1152-1159 | and makes that durable |
| `CloneCommit.Commit` | src/c/dm-clone-metadata.c:816-839 | succeeds if and only if the bits of all regions swapped away can be set and the commit does not fail; then the disk gains exactly those regions and their map is empty; otherwise they are in the open transaction or still in their map, and the disk has gained none or, where the commit reached it, all of them |
| `CloneCommit.NothingToCommit` | src/c/dm-clone-metadata.c:938-948 | with no change flagged the disk says what the core says |
| `CloneCommit.Abort` | src/c/dm-clone-metadata.c:950-970 | throws the open transaction away, or can no longer read or write metadata |
| `CloneCommit.Reload` | src/c/dm-clone-metadata.c:922-936 | after a failure the in-core map is what is on disk, read-only |
| `CloneCommit.IsRegionHydrated` | src/c/dm-clone-metadata.c:635-638 | a region reported as hydrated has been written or discarded, also once hydration counts as done; until then exactly the regions of the bitset and of the dirty maps are reported, and after a failure those on disk |
| `CloneCommit.CrashSafe` | src/c/dm-clone-metadata.c:688-740 | a region the disk has as hydrated, and that was not discarded, is durable |
| `Clone.CloneDevice.CompleteHydration` | src/c/dm-clone-target.c:699-721 | between any steps of a commit: the region counts as written, and is marked exactly when it is in range and the metadata is writable |
| `Clone.CloneDevice.Discard` | src/c/dm-clone-target.c:1175-1211 | between any steps of a commit: the regions of the range not marked before are marked, exactly when the range fits and the metadata is writable |
| `Clone.CloneDevice.Step` | src/c/dm-clone-target.c:1129-1173 | every step of a commit and of its failure handling, with crash safety kept: only a flush that succeeds makes data durable, a failed flush leads to failure, the commit succeeds exactly when neither it nor a bit it needs fails, and after a failure come abort, read-only and the reload of the map on disk |
| `Clone.CloneDevice.CommitMetadata` | src/c/dm-clone-target.c:1129-1173 | a commit nothing falls into succeeds exactly when the flush, the commit and the bits it needs do; then the disk has all the core has, and all data written is durable; otherwise the core is read-only and has what is on disk, which is what was there or, where the commit reached it, all of it |
| `BioPrison.Get` | src/c/dm-bio-prison-v2.c:149-170 | shared unless an exclusive lock of that level detains the bio; the bio is a holder or detained, never both or neither |
| `BioPrison.Put` | src/c/dm-bio-prison-v2.c:189-209 | the last holder wakes the waiter, or erases the cell exactly when nobody has it locked; detained bios are untouched |
| `BioPrison.Lock` | src/c/dm-bio-prison-v2.c:225-254 | fails exactly when locked exclusively |
| `BioPrison.Quiesce` | src/c/dm-bio-prison-v2.c:272-280 | runs now exactly when nobody shares the lock |
| `BioPrison.Promote` | src/c/dm-bio-prison-v2.c:292-301 | raises the level and says whether somebody shares the lock |
| `BioPrison.Unlock` | src/c/dm-bio-prison-v2.c:317-333 | hands back every detained bio in order; the cell goes exactly when nobody shares it |
| `Migration.CacheTarget.Exclusion` | src/c/dm-cache-target.c:1231-1439 | during a copy no write holds the block, during an overwrite no bio does, and none while metadata is updated or committed |
| `Migration.CacheTarget.NobodyForgotten` | src/c/dm-bio-prison-v2.c:189-209 | a block without a migration detains no bio |
| `Migration.CacheTarget.CopiedFirst` | src/c/dm-cache-target.c:1334-1384 | in every reachable state a migration about to update its metadata has been through its copy since it started, unless it found that none is needed |
| `Migration.CacheTarget.BioArrives` | src/c/dm-cache-target.c:573-600 | a bio is let in, unless a migration has locked its block against it; then it is detained |
| `Migration.CacheTarget.BioEnds` | src/c/dm-cache-target.c:1109-1116 | the last holder, and no other, sets a migration that waits for its block going, to its copy or to its update; no other migration changes |
| `Migration.CacheTarget.Start` | src/c/dm-cache-target.c:1386-1439 | locks against writes, or against all for an overwrite; fails exactly when locked, and then changes nothing; no other migration changes |
| `Migration.CacheTarget.AskToBeWoken` | src/c/dm-cache-target.c:1067-1072 | holders may have gone between lock and quiesce: then the migration goes on at once, else it waits; no other changes |
| `Migration.CacheTarget.StartCopy` | src/c/dm-cache-target.c:1334-1384 | an overwriting bio that no longer fits is detained and a full copy made; without an overwrite the copy is skipped exactly when it is not needed |
| `Migration.CacheTarget.CopyEnds` | src/c/dm-cache-target.c:1080-1130 | the copy or the overwriting bio has ended; the lock stays as it was |
| `Migration.CacheTarget.AfterCopy` | src/c/dm-cache-target.c:1293-1332 | upgrades the lock, going on at once exactly when nobody holds the block, or gives all detained bios back after an error |
| `Migration.CacheTarget.UpdateMetadata` | src/c/dm-cache-target.c:1231-1291 | a demotion goes on to commit, all else completes |
| `Migration.CacheTarget.Committed` | src/c/dm-cache-target.c:1225-1229 | a demotion completes after its commit |
| `Migration.CacheTarget.Complete` | src/c/dm-cache-target.c:1164-1223 | every detained bio is deferred, in order |
| `CacheData.CopyStartedOk` | src/c/dm-cache-target.c:1334-1384 | skipping the copy of a clean or discarded block, or leaving it to a bio that covers the block, loses nothing that was stored |
| `CacheData.CopyEndedOk` | src/c/dm-cache-target.c:1080-1108 | a copy, good or failed, shows in nothing that is read, and a good one makes origin and cache agree |
| `CacheData.CachedDevice.Load` | src/c/dm-cache-target.c:1599-1682 | in every reachable state, at any stage of a migration, a bio that is let through reads what was last stored in the sector |
| `CacheData.CachedDevice.Store` | src/c/dm-cache-target.c:764-773 | a store changes that sector of a plain array and no other |
| `CacheData.CachedDevice.BioArrives` | src/c/dm-cache-target.c:747-773 | letting a bio in changes nothing stored; one that may store has cleared the discard mark, and set the dirty one of a cached block |
| `CacheData.CachedDevice.BioEnds` | src/c/dm-cache-target.c:1109-1116 | nor does a bio that ends, even if a migration goes on for it |
| `CacheData.CachedDevice.Start` | src/c/dm-cache-target.c:1386-1439 | nor the start of a promotion, demotion or writeback |
| `CacheData.CachedDevice.StartCopy` | src/c/dm-cache-target.c:1334-1384 | copies exactly unless the block is clean in the cache or discarded, and lets a bio overwrite exactly if it covers the block or the block is discarded; nothing stored changes |
| `CacheData.CachedDevice.CopyEnds` | src/c/dm-cache-target.c:1080-1130 | the end of a copy changes nothing stored, even if it failed and left anything behind |
| `CacheData.CachedDevice.AfterCopy` | src/c/dm-cache-target.c:1293-1332 | nor does the upgrade of the lock, or giving up after an error |
| `CacheData.CachedDevice.UpdateMetadata` | src/c/dm-cache-target.c:1164-1291 | a promoted block is read from the cache and reads as before, or as the bio has overwritten it; one written back is clean |
| `CacheData.CachedDevice.Committed` | src/c/dm-cache-target.c:1192-1229 | a demoted block is read from the origin and reads as before |
| `CacheData.CachedDevice.Discard` | src/c/dm-cache-target.c:1770-1790 | only the block discarded is no longer promised |
| `DeferredSet.OldestIsFree` | src/c/dm-bio-prison-v1.c:346-356 | work in the oldest entry without reads is blocked by no read in flight |
| `DeferredSet.Sweep` | src/c/dm-bio-prison-v1.c:346-356 | hands over only unblocked work, loses none, and all of it when no read is left |
| `DeferredSet.Set.Inc` | src/c/dm-bio-prison-v1.c:327-338 | one more read in flight, in the current entry |
| `DeferredSet.Set.Dec` | src/c/dm-bio-prison-v1.c:358-367 | all reads in flight when a work item it returns was added are over, also when the ring has wrapped; work that stays has a read in flight in the oldest entry, and when the last read ends no work is left |
| `DeferredSet.Set.AddWork` | src/c/dm-bio-prison-v1.c:373-391 | declines if and only if no read is in flight; otherwise the work joins the current entry, and reads from then on go to the next one if that is free |
| `Kcopyd.NextKeeps` | src/c/dm-kcopyd.c:411-769 | every event, also a read or write refused after an earlier write error, keeps: segments contiguous, one owner each, counters exact, retirement only when done or after an error, sequential writes in order |
| `Kcopyd.PopIsNext` | src/c/dm-kcopyd.c:411-434 | a sequential write is taken only in its turn |
| `KcopydRuns.SectorsOnce` | src/c/dm-kcopyd.c:686-753 | each sector up to the progress mark is in exactly one segment |
| `KcopydRuns.WritesAreContiguous` | src/c/dm-kcopyd.c:411-434 | sequential writes are issued at contiguous offsets from the start |
| `KcopydRuns.NoJobsMeansCalled` | src/c/dm-kcopyd.c:485-511 | the job count is zero if and only if the client has been called back, and then every sub job has retired |
| `KcopydRuns.CallbackIsLast` | src/c/dm-kcopyd.c:485-511 | the callback runs after all segments dispatched are over, nothing follows it, and without an error that counts the whole source is covered |
| `KcopydRuns.RunsEnd` | src/c/dm-kcopyd.c:605-769 | no run is longer than a number known at its start |
| `KcopydRuns.GoodDevicesCallBack` | src/c/dm-kcopyd.c:411-769 | without an I/O error every run at its end has called back having covered all of the source, and a callback reports an error if and only if a device had one |
| `KcopydData.ReadBefore` | src/c/dm-kcopyd.c:513-603 | in every run, whatever is about to be written, or being written, has been read before by the same sub job, without an error unless errors are ignored |
| `KcopydData.CopiesAll` | src/c/dm-kcopyd.c:411-769 | a callback without an error: every segment was written without an error by a sub job that, unless it writes zeroes, had read it before without one |
| `KcopydData.CopiesSector` | src/c/dm-kcopyd.c:411-769 | so every sector of the source was read and then written |
| `KcopydData.SegmentSizes` | src/c/dm-kcopyd.c:686-753 | in every run, every segment is of the size asked for, but for the last of the source |
| `KcopydRuns.CallsBackWhen` | src/c/dm-kcopyd.c:411-769 | for every source that is split: all runs at their end have called back, whatever fails, if and only if writes need no order or nothing is read |
| `KcopydRuns.NeverCalledBack` | src/c/dm-kcopyd.c:411-434 | once a sub job is stuck the client is never called back |
| `KcopydRuns.ReadErrorHangs` | src/c/dm-kcopyd.c:513-542 | for every source that is split: a run at its end in which a failed read of the first sequential segment leaves the second one stuck |
| `KcopydRuns.WriteErrorHangs` | src/c/dm-kcopyd.c:562-570 | for every source of more than three segments: a run in which every read succeeds, one write fails, the read refused for it takes the turn away, and a segment is stuck for ever |
| `Era.DigestLookUp` | src/c/dm-era-target.c:734-774 | takes up the earliest archived write set from its first bit, or stops when there is none |
| `Era.DigestTranscribe` | src/c/dm-era-target.c:700-732 | up to a hundred bits go into the array, and for every block the last archived era that wrote it stays; it stops exactly at an entry that cannot be set, and goes on to removal exactly at the last bit |
| `Era.DigestRemove` | src/c/dm-era-target.c:681-696 | removing the digested write set changes no answer |
| `Era.Archive` | src/c/dm-era-target.c:878-907 | exactly the blocks of the current write set get the current era as their answer |
| `Era.NewEra` | src/c/dm-era-target.c:915-930 | changes no answer |
| `Era.Drained` | src/c/dm-era-target.c:681-785 | with no write set left the array alone gives every answer |
| `Era.OneAnswer` | src/c/dm-era-target.c:681-785 | there is one answer for each block |
| `Era.EraDevice.Rollover` | src/c/dm-era-target.c:932-953 | archiving and starting an era in the middle of a digestion: every block written in the era has that era as its answer, all others the one they had |
| `Era.EraDevice.Write` | src/c/dm-era-target.c:1261-1275 | the block is in the current write set and has the current era as the one that last wrote it; nothing else changes |
| `Era.EraDevice.DigestStep` | src/c/dm-era-target.c:1226-1240 | no step of the coroutine changes an answer, the current write set or the era |
| `Era.EraDevice.DigestAll` | src/c/dm-era-target.c:1226-1240 | a digestion that meets no error ends, with no write set left and every answer in the array |
| `Diffuser.StepUndone` | src/c/dm-crypt.c:816-938 | adding undoes subtracting at one word, since its operands are other words |
| `Diffuser.WordA` | src/c/dm-crypt.c:816-845 | a decrypting pass adds to every word the word two before it xor the word five before it turned by 9, 0, 13 or 0 bits, those before it as the pass has left them |
| `Diffuser.WordB` | src/c/dm-crypt.c:878-907 | likewise with the words two and five behind it and turns by 0, 10, 0 or 25 bits |
| `Diffuser.DecryptEncrypt` | src/c/dm-crypt.c:816-938 | for both diffusers, any number of rounds and any words of which subtraction undoes addition, decryption undoes encryption |
| `Diffuser.EncryptDecrypt` | src/c/dm-crypt.c:816-938 | and the other way round |
| `Diffuser.ADecryptPass` | src/c/dm-crypt.c:816-845 | the loop with three wrapping indices stays in bounds and is the pass specified |
| `Diffuser.AEncryptPass` | src/c/dm-crypt.c:847-876 | likewise downwards |
| `Diffuser.BDecryptPass` | src/c/dm-crypt.c:878-907 | likewise for diffuser B |
| `Diffuser.BEncryptPass` | src/c/dm-crypt.c:909-938 | likewise for diffuser B, downwards |
| `Elephant.XorIsBitwise` | src/c/dm-crypt.c:826-840 | a bit of the exclusive or is set when it is set in exactly one of the words |
| `Elephant.RotateIsBitwise` | src/c/dm-crypt.c:826-840 | rotation takes every bit that many places up, going round the 32 bits |
| `Elephant.SpreadsA` | src/c/dm-crypt.c:816-845 | one decrypting pass of diffuser A takes a single word of any sector two and four words on, and five words on with its bits turned |
| `Elephant.SpreadsB` | src/c/dm-crypt.c:878-907 | one of diffuser B takes it two words back, and five words back with its bits turned |
| `Elephant.RoundsAre` | src/c/dm-crypt.c:816-938 | a sector is written in five rounds of A and three of B, and read in three of B and five of A |
| `Elephant.FiveAndThree` | src/c/dm-crypt.c:816-938 | and that many rounds are that many passes |
| `Elephant.WriteSector` | src/c/dm-crypt.c:988-1003 | xor key, A, B in place |
| `Elephant.ReadSector` | src/c/dm-crypt.c:988-1003 | B, A, xor key in place |
| `Elephant.ReadUndoesWrite` | src/c/dm-crypt.c:988-1003 | the read pipeline undoes the write pipeline for every sector and key |
| `Elephant.WriteUndoesRead` | src/c/dm-crypt.c:988-1003 | and the other way round |
| `DiscardReload.RunAdds` | src/c/dm-cache-target.c:2808-2836 | a run of discarded old blocks adds exactly the new blocks between its ends |
| `DiscardReload.Loader.SetDiscardRange` | src/c/dm-cache-target.c:2808-2836 | closing a run sets exactly those; no index is out of bounds |
| `DiscardReload.Loader.LoadDiscard` | src/c/dm-cache-target.c:2838-2866 | one old block read |
| `DiscardReload.Loader.Reload` | src/c/dm-cache-target.c:2954-2974 | a new block is discarded if and only if all its sectors lie in discarded old blocks, for any two block sizes |

## Left out

- Kernel plumbing: bio submission, workqueues, timers, memory pools, module set-up, argument parsing and status output carry no hard property.
- Cryptographic calls, authentication codes and journal encryption: a sector is a body and a commit id.
- Red-black balancing and the persistent-data library: the source files are not part of this model.
- Widths of machine integers: counters and sector numbers are unbounded, except the words of the diffusers, which wrap at 32 bits, and the four-valued commit numbers.
- JournalProtocol.CrashKeeps: a further crash may cut replay short any number of times, but not the clearing of the journal after it.
- I/O errors of the journal and of dm-bufio, and the bitmap mode of dm-integrity.
- dm_integrity_rw_tag and tag sizes that are not a power of two in its compare mode.
- JournalTree.Add: the tree is not rebalanced; balancing keeps the in-order sequence, which is all the lemmas use.
- JournalProtocol.RunsRefine: sections and their numbering are those of the log; the ring, its arithmetic and the tree are `JournalStore.Store`, whose operations change what is held as the steps do (`JournalProtocol.StepParts`).
- JournalRing.Ring.Consume: unlinking the node of an entry and marking the entry unused are one step; the source drops the lock between the two, so that an entry the writer is at may hold a sector while its node is unlinked.
- JournalStore.Store.Reserve: an entry holds its data from the time it is handed out; the source copies the data in afterwards, while the range of the request is locked.
- The hotspot queue of smq, its statistics and the periods that trigger a tick: whether to promote, and whether a hit is the first of its period, are parameters.
- SmqPolicy.Policy.Invalidate: only for an entry without pending work; with pending work the source goes on to unlink an entry that is in no list, and by `SmqState.InvalidateWhen` no state it could reach is good.
- SmqPolicy.Policy.EndCachePeriod: targets are computed anew each time; the source keeps those computed for the same number of entries, which are the same.
- Bufio.WriteDirtyBuffers: nobody else marks buffers meanwhile; with others doing so the source gives no guarantee either.
- Bufio.BufioNew: the wait for memory when every buffer is held is the caller trying again, and reserved buffers count as memory.
- Clone discards that race with a hydration of the same region, and the hydration hash table of dm-clone.
- Migration.CacheTarget.Start: invalidations, which lock in the same way, and passthrough mode.
- CacheData.CachedDevice.BioArrives: write-back mode; writethrough writes to both devices, and passthrough mode, are not modelled.  A discard mark belongs to one cache block, while in the source it may cover several, whose marks are then cleared together.
- CacheData.CachedDevice.Discard: requires that no store to the block is under way, which the source leaves to its user.
- Kcopyd.NextKeeps: one split copy at a time; copies small enough not to be split, throttling, page pool limits and the order of jobs within a list are not modelled.
- KcopydRuns.WriteErrorHangs: gives a run that ends with a stuck sub job, not with the last event; by `KcopydRuns.NeverCalledBack` nothing after it helps.
- LayoutSetUp.SetUpIsSafeWhen: for tags kept on the data device; with a separate metadata device there are no areas.
- Era.DigestTranscribe: the device keeps its size; the superblock, snapshots and the rollback of uncommitted metadata after a crash are not modelled.
- DiscardReload.Loader.Reload: after an unclean shutdown the source reads every bit as not discarded; that is the case of all bits clear.
- dm-linear, dm-delay, dm-flakey, dm-dust, dm-init and the path selectors would only add easy members.
