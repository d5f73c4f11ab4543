# Disk images, a FAT volume, AES and a buffered stream

A model of the block layer of an old QEMU (the directory `qemu-NP`), with proofs. The main part is
the qcow2 image engine; six smaller components of the same repository stand beside it.

**The qcow2 engine** (`Layout` to `Session`, `TableSizes`, `Limits`, `Reopening`). An image file is a sparse map
from cluster numbers to clusters of 64-bit words; a word of a table holds a cluster number and the COPIED and
COMPRESSED flags, and a data cluster holds sectors. `Qcow2.Image` is the driver's state: the file, the reference
counts, the active L1 table and the size of it that the header in the file states, the 16-slot L2 cache, the
snapshot list, `freeClusterIndex`, `freeByteOffset`. Its methods follow the functions of `block-qcow2.c`. The
invariant (`Image.Valid`, made of `State.SoundCore`) is what the repository's own consistency check looks for:
each count is exactly the number of references; every entry reached from the active L1 table carries COPIED if
and only if the count of its target is one; cached tables are those in the file. It is proved of a new image and
kept by every operation. Guest data is a ghost view, sector by sector: the sector in the file, else that of the
backing disk, else zeros; in an encrypted image the file holds `enc(s, x)` where the guest sees `x` in sector `s`,
and this too is an invariant over runs (`Session.SealedImage`). `Session.Execute` then shows that *every run* of writes and snapshot operations, of
any length, does to an image what it does to a disk with full copies for snapshots, and `Session.TakeAndReturn`
that going back to a snapshot restores the disk exactly. It also says which runs leak clusters: exactly those
with a switch for which the grown L1 table takes more clusters than that of the snapshot. The consistency check
itself is a method too (`Check.CheckRefcounts`), proved to accept exactly the clean images; so it finds nothing
after any run on a new image with a header of one cluster whose writes stay inside the disk
(`Session.CreateAndExecute`).

**The others.** `Qcow1` is the append-only allocator of `block-qcow.c`; `FatCheck`, `FatTable`, `Mappings` and
`LongNames` are parts of the virtual FAT volume; `Boxes`, `Aes`, `Field`, `AesKey`, `Cbc` and `Sectors` are AES
with its tables, key schedules and chaining, up to the sector encryption of images; `Fips` ties the block function
to sections 5.1 and 5.2 of FIPS 197 byte by byte; and `Encryption` puts them
under the images: a run on an image encrypted under a password shows the guest what plain disks show, and leaves
the AES text of it in the file (`Encryption.CreateAndExecute`); `ByteAccess` and `Cow` are byte access, the copy-on-write overlay and its
commit; `Buffered` is the rate-limited output buffer.

## What turned out not to hold

- A read that leaves the span of one L2 table can return wrong data: `get_cluster_offset` does not limit the
  clusters it asks for to the table at hand (`block-qcow2.c` lines 668-709). Inside a span reads are exact
  (`Qcow2.Image.QcowRead`); for *every* request outside one `Overrun.ReadBeyond` builds a valid image on which it fails.
- A switch to a snapshot leaks clusters if and only if the table that `grow_l1_table` builds for it takes more
  clusters than the table of the snapshot (`Qcow2.Image.SnapshotGoto`, `block-qcow2.c` lines 2059-2062): the
  active table was longer, or growth by half overshoots a cluster (`Limits.GrowthOvershoots`). The consistency
  check then reports an error, and in no other case (`Check.CheckValid`). `Limits.SwitchLeaks` shows it on every
  new disk; `Session.Execute` gives the exact condition for whole runs.
- Closing an image and opening it again can break it. A switch to a snapshot sets the number of L1 entries in
  memory and never writes it to the header (`block-qcow2.c` lines 2062-2070), while `qcow_open` takes the number
  from the header (line 247). `Reopening.Reopen`: nothing is lost if and only if the entries that the header
  covers behind the active table are unused, as they are when the header states the size of the active table;
  clusters that leaked only because growth overshot belong to the table again. Else a cluster has more
  references than its count says. `Reopening.ReopenBreaks` does it on every new disk; `Reopening.Execute` gives
  the exact condition for whole runs that close and open the image any number of times, and
  `Reopening.CreateAndExecute` shows that it always holds while writes stay inside the disk.
- `alloc_bytes` ignores a failed count (`block-qcow2.c` lines 2275-2283). `Qcow2.Image.AllocBytes` gives the
  exact condition, on the state before the call, under which the accounts of compressed chunks survive: the open
  cluster is not at its maximum, or the chunk neither fits into it nor can go on into the next cluster. Only
  clusters of 64 KB can fail (`Chunks.NeverSaturated`); `Limits.FillCluster` fills one with chunks of one byte
  until the next chunk breaks the accounts.
- A write to a qcow1 image shows zeros in the rest of a cluster it has to allocate, whatever the backing disk
  holds there. `Qcow1.CoversUp` shows it for every geometry with larger clusters over a backing disk, which
  images opened from elsewhere may have; `Qcow1.FlatExactly` gives the exact condition under which a write acts
  as on a flat disk, which always holds without a backing disk and with one-sector clusters.
- A buffered file that fails while older bytes are flushed may still send newer ones. Order is kept exactly
  while no such call occurs: the flush fails and the backend then takes bytes of the call itself
  (`Buffered.BufferedFile.PutBuffer` for one call, `Buffered.Feed` for whole runs, both in terms of the answers
  of the backend); `Buffered.OrderLostAfterError` is such a run.
- Whether an empty file that names a cluster is accepted depends on the order of the walk (`block-vvfat.c` lines
  1706-1719): a volume is accepted if and only if its tree is sane and each such file names a cluster that the
  walk has been at before (`FatCheck.IsConsistent`). `FatCheck.OrderMatters` has two volumes with the same table
  and the same files, the one accepted and the other refused. An accepted volume has no mark outside its tree in
  any case.

## Model

| member | source | states |
|---|---|---|
| `Layout.ClustersIsCeiling` | qemu-NP/block-qcow2.c:612-615 | size_to_clusters is the least number of clusters that hold a table |
| `Layout.ReadWriteTable` | qemu-NP/block-qcow2.c:452-465 | a table written to a run of clusters reads back as it was |
| `Layout.TableWord` | qemu-NP/block-qcow2.c:452-465 | word r of the q-th cluster of a table is its entry q * l2_size + r |
| `Layout.ReadWriteEntry` | qemu-NP/block-qcow2.c:586-590 | rewriting one entry of an L1 table that spans clusters changes this entry alone |
| `Layout.RestWrite` | qemu-NP/block-qcow2.c:1758-1771 | writing a table leaves the words behind it in its last cluster alone |
| `Counting.EntryRefsTwice` | qemu-NP/block-qcow2.c:2500-2545 | two entries naming one cluster make it count twice |
| `Counting.DataRefsTwice` | qemu-NP/block-qcow2.c:2500-2545 | two different L1 entries whose L2 tables name one cluster make it count twice |
| `Counting.ReplaceEntry` | qemu-NP/block-qcow2.c:905-926 | replacing one entry moves exactly one reference: the old entry is set aside to be freed, the new cluster is counted |
| `Forest.AlikeConsistent` | qemu-NP/block-qcow2.c:1720-1766 | rewriting COPIED flags anywhere leaves every count right |
| `Forest.SnapsFrame` | qemu-NP/block-qcow2.c:1674-1787 | a file that agrees on the clusters a snapshot uses as tables has the same snapshot |
| `Guest.AddressInRun` | qemu-NP/block-qcow2.c:664-681 | inside one L2 table, p sectors after a cluster boundary is the entry p / cluster_sectors further on |
| `Guest.AddressIs` | qemu-NP/block-qcow2.c:664-681 | L1 index, L2 index and place in the cluster are the digits of the sector number, and determine it |
| `Guest.GrownView` | qemu-NP/block-qcow2.c:434-484 | a longer L1 table with unused entries shows the same disk |
| `Steps.AllocKeeps` | qemu-NP/block-qcow2.c:2244-2253 | taking unreferenced clusters keeps counts exact and all flags right |
| `Steps.FreeKeeps` | qemu-NP/block-qcow2.c:2293-2297 | giving metadata clusters back keeps counts exact and all flags right, and never underflows |
| `Steps.CowL2Keeps` | qemu-NP/block-qcow2.c:561-610 | giving the active disk its own copy of an L2 table keeps every count exact, shared tables included |
| `Steps.CowL2Flags` | qemu-NP/block-qcow2.c:561-610 | after the active disk got its own copy of an L2 table each flag says whether the count is one, although no data entry was rewritten |
| `Steps.CowL2View` | qemu-NP/block-qcow2.c:561-610 | neither the active disk nor any snapshot shows a difference |
| `Steps.LinkAlone` | qemu-NP/block-qcow2.c:905-926 | a table with COPIED set is reached by the active disk alone: no snapshot and no second path |
| `Steps.LinkKeeps` | qemu-NP/block-qcow2.c:905-932 | linking new clusters and freeing the replaced ones keeps every count exact |
| `Steps.LinkFlags` | qemu-NP/block-qcow2.c:905-932 | linking new clusters leaves every flag right, those of clusters shared with snapshots included |
| `Steps.RelocateKeeps` | qemu-NP/block-qcow2.c:434-484 | moving a table to new clusters and freeing the old ones keeps the whole invariant |
| `Steps.CountBound` | qemu-NP/block-qcow2.c:2407-2420 | no count exceeds the number of snapshots plus one, so 16 bits suffice below 0xffff snapshots |
| `Qcow2.GrownTwice` | qemu-NP/block-qcow2.c:444-447 | growing an L1 table by halves for a small index and then for a larger one ends as growing for the larger one at once |
| `Qcow2.Image.GrownSize` | qemu-NP/block-qcow2.c:442-447 | the size comes from steps of half as much again, rounded up, each from a size that was too small |
| `State.GrownSound` | qemu-NP/block-qcow2.c:434-484 | L1 growth keeps the invariant and what every guest sees |
| `State.CopiedSound` | qemu-NP/block-qcow2.c:561-610 | l2_allocate on an entry without COPIED keeps the invariant, cache included, and what every guest sees |
| `State.SharedEntry` | qemu-NP/block-qcow2.c:795-802 | an entry in use without COPIED has a count of two at least, so releasing it frees nothing that is in use |
| `Transfer.WriteSectorsAt` | qemu-NP/block-qcow2.c:1154-1165 | what a run of sectors leaves in the file, sector by sector |
| `Transfer.SpanAddress` | qemu-NP/block-qcow2.c:664-681 | the table, entry and offset of each sector of a request inside one L2 span |
| `Transfer.TableRun` | qemu-NP/block-qcow2.c:695-724 | entries naming consecutive clusters map the sectors of that many clusters |
| `Transfer.WindowView` | qemu-NP/block-qcow2.c:878-932 | a disk shows what is wanted if it does outside a window and the window is mapped to clusters that hold it |
| `Writing.TwoPaths` | qemu-NP/block-qcow2.c:57-60 | a cluster reached along two paths of one root counts twice |
| `Writing.PrivatePath` | qemu-NP/block-qcow2.c:57-60 | no other guest sector is stored in a cluster that is reached with COPIED set |
| `Writing.InPlaceSound` | qemu-NP/block-qcow2.c:960-972 | overwriting clusters under COPIED keeps the invariant and all snapshots and changes the active disk only there |
| `Writing.ExtraWriteSound` | qemu-NP/block-qcow2.c:878-900 | filling clusters that are allocated but not linked yet is invisible to every guest |
| `Writing.LinkSound` | qemu-NP/block-qcow2.c:905-932 | the whole invariant after the cached table and its changed entries were written |
| `Writing.LinkView` | qemu-NP/block-qcow2.c:905-932 | the active disk then shows the new clusters in their window and what it showed everywhere else |
| `Writing.CopyFills` | qemu-NP/block-qcow2.c:376-399 | copying what the disk shows around a write extends the part of the new clusters that is in place |
| `Walking.MovedEnd` | qemu-NP/block-qcow2.c:1674-1787 | once all references of a root are moved, each count has changed by the number of references to it |
| `Walking.WalkFlags` | qemu-NP/block-qcow2.c:1720-1766 | after the walk every flag below the root says whether the final count is one |
| `Walking.WalkFinish` | qemu-NP/block-qcow2.c:1674-1787 | the whole walk: counts moved, tables changed in flags only, flags right |
| `Snapshots.StaleKept` | qemu-NP/block-qcow2.c:1758-1771 | a walk leaves what the file has behind the table alone |
| `Snapshots.AddSnap` | qemu-NP/block-qcow2.c:1998-2025 | the active table stored once more, with every reference counted once more, keeps counts exact |
| `Snapshots.DropSnap` | qemu-NP/block-qcow2.c:2097-2104 | without a snapshot counts are exact again once its references were taken out; none underflows |
| `Snapshots.SnapRunsApart` | qemu-NP/block-qcow2.c:2098-2107 | the L1 tables of two snapshots share no cluster |
| `Snapshots.WalkedActive` | qemu-NP/block-qcow2.c:1674-1787 | a walk over the active table changes no guest data |
| `Snapshots.WalkedSnapshot` | qemu-NP/block-qcow2.c:1674-1787 | a walk over the table of a snapshot changes no guest data |
| `Snapshots.TakeSound` | qemu-NP/block-qcow2.c:1998-2036 | after a snapshot is taken the invariant holds, and the snapshot shows what the active disk shows |
| `Snapshots.DropSound` | qemu-NP/block-qcow2.c:2095-2113 | after one is deleted and the flags were recomputed the invariant holds, and all others show what they showed |
| `Switching.ActiveReleased` | qemu-NP/block-qcow2.c:2056-2057 | letting the old disk go leaves the snapshots and their counts exact |
| `Switching.Adopted` | qemu-NP/block-qcow2.c:2062-2076 | counting the references of the copied table makes it the active disk: the invariant holds, the view is that of the snapshot |
| `Switching.NothingUnused` | qemu-NP/block-qcow2.c:2059-2062 | nothing leaks exactly when both tables take the same number of clusters |
| `Qcow2.FiniteRefs` | qemu-NP/block-qcow2.c:2224-2242 | from some index on no cluster is referenced, so the search for free clusters ends |
| `Qcow2.NewImageSound` | qemu-NP/block-qcow2.c:1472-1562 | the layout of a new image satisfies the invariant |
| `Qcow2.Image.Create` | qemu-NP/block-qcow2.c:1472-1562 | a new image is valid, shows the backing disk, counts each of its clusters once and leaks nothing; its L1 table has the least number of entries that maps all sectors |
| `Qcow2.Image.CreateRefcountUpdate` | qemu-NP/block-qcow2.c:1454-1470 | counts a stretch of the new image |
| `Qcow2.Image.Open` | qemu-NP/block-qcow2.c:186-307 | the state in memory is that of the file, the L1 table as long as the header states; it is valid exactly when that table fits the counts, whatever the cache memory holds |
| `Qcow2.Image.UpdateClusterRefcount` | qemu-NP/block-qcow2.c:2367-2428 | changes one count, or fails and changes nothing when it would leave 0..0xffff; remembers the lowest cluster freed |
| `Qcow2.Image.UpdateRefcount` | qemu-NP/block-qcow2.c:2430-2450 | changes the count of every cluster of a range, and of no other; remembers the lowest one freed |
| `Qcow2.Image.FreeClusters` | qemu-NP/block-qcow2.c:2293-2297 | each count of the range goes down by one where it can, no other count changes; the search position moves down to the lowest cluster freed |
| `Qcow2.Image.AllocClustersNoref` | qemu-NP/block-qcow2.c:2224-2242 | first fit: the least run of unreferenced clusters at or after the search position; the search ends |
| `Qcow2.Image.AllocClusters` | qemu-NP/block-qcow2.c:2244-2253 | the least free run at or after the search position, each cluster now counted once and no other count changed |
| `Qcow2.Image.AllocBytes` | qemu-NP/block-qcow2.c:2255-2291 | where the chunk goes; the accounts of compressed chunks are kept if and only if the open cluster was not at its maximum, or the chunk neither fits into it nor goes on behind it |
| `Qcow2.Image.L2CacheReset` | qemu-NP/block-qcow2.c:401-408 | afterwards the cache agrees with any file |
| `Qcow2.Image.L2CacheNewEntry` | qemu-NP/block-qcow2.c:410-426 | the victim is the first slot with the least hit count |
| `Qcow2.Image.SeekL2Table` | qemu-NP/block-qcow2.c:498-515 | finds the first slot with this table; hit counters stay below 0xffffffff through halving |
| `Qcow2.Image.L2Load` | qemu-NP/block-qcow2.c:526-550 | the cached table is that of the file, no table is cached twice |
| `Qcow2.Image.GrowL1Table` | qemu-NP/block-qcow2.c:434-484 | the new table has the old entries, then unused ones; it lies in clusters that were free; the old ones are given back; the header states the new size |
| `Qcow2.Image.L2Allocate` | qemu-NP/block-qcow2.c:561-610 | a cluster with count 0 becomes a copy of the old table or an empty one, named with COPIED in memory and file, cached |
| `Qcow2.Image.CopyL2` | qemu-NP/block-qcow2.c:788-804 | the invariant is kept, nobody sees a difference, and the entry now carries COPIED |
| `Qcow2.Image.GetClusterTable` | qemu-NP/block-qcow2.c:769-814 | returns a cached table that belongs to the active disk alone; nothing changes when it did so before |
| `Qcow2.Image.CountContiguousClusters` | qemu-NP/block-qcow2.c:617-631 | how far the run of clusters of an entry goes, exactly |
| `Qcow2.Image.CountContiguousFreeClusters` | qemu-NP/block-qcow2.c:633-643 | how far unused entries go, exactly |
| `Qcow2.Image.GetClusterOffset` | qemu-NP/block-qcow2.c:659-728 | for requests inside one span: the sectors counted are all unmapped, or all mapped to consecutive clusters from the one returned |
| `Qcow2.Image.QcowRead` | qemu-NP/block-qcow2.c:1097-1138 | inside one L2 span a read returns exactly the guest view: the stored sector, decrypted with its number in an encrypted image, else the sector of the backing disk with that number, else zeros |
| `Qcow2.Image.CopySectors` | qemu-NP/block-qcow2.c:376-399 | copies what the guest sees, re-encrypted, and touches the target clusters only |
| `Qcow2.Image.PrivateStretch` | qemu-NP/block-qcow2.c:955-972 | the run returned for a write in place is reached by the active disk alone |
| `Qcow2.Image.AllocClusterOffset` | qemu-NP/block-qcow2.c:947-1019 | either a run that may be overwritten, or new clusters with the stretch they replace; nobody sees a difference yet |
| `Qcow2.Image.FreeAnyClusters` | qemu-NP/block-qcow2.c:737-755 | takes one reference from n whole clusters, or for a compressed entry from exactly the clusters under its sectors; no other count changes |
| `Qcow2.Image.LinkEntries` | qemu-NP/block-qcow2.c:905-919 | the table with the new entries, and the list of exactly the entries that were in use there |
| `Qcow2.Image.CopyHead` | qemu-NP/block-qcow2.c:885-892 | the guest sectors in front of the write are in place in the new clusters |
| `Qcow2.Image.CopyTail` | qemu-NP/block-qcow2.c:894-900 | the guest sectors behind the write are in place in the new clusters |
| `Qcow2.Image.FinishLink` | qemu-NP/block-qcow2.c:905-932 | links the filled clusters: the invariant holds and the disk shows the wanted contents |
| `Qcow2.Image.AllocClusterLinkL2` | qemu-NP/block-qcow2.c:878-932 | completes and links clusters that hold only the new sectors: the invariant holds, the disk shows the wanted contents, no snapshot changes |
| `Qcow2.Image.WriteInPlace` | qemu-NP/block-qcow2.c:960-972 | the write replaces exactly its sectors; no snapshot changes |
| `Qcow2.Image.WriteNew` | qemu-NP/block-qcow2.c:1140-1177 | a write through new clusters replaces exactly its sectors; no snapshot changes |
| `Qcow2.Image.QcowWrite` | qemu-NP/block-qcow2.c:1140-1177 | any write, of any length at any place: exactly the written sectors change, snapshots do not, the invariant is kept; each sector written, or copied around the write, is in the file as it was given, or encrypted with its number in an encrypted image; the L1 table grows as far as growth by halves takes it; exactly the entries of the written sectors come into use |
| `Qcow2.Image.WalkTable` | qemu-NP/block-qcow2.c:1720-1757 | the references of one L2 table moved, its flags recomputed |
| `Qcow2.Image.WalkRoot` | qemu-NP/block-qcow2.c:1700-1775 | all references made through one L1 table moved |
| `Qcow2.Image.UpdateSnapshotRefcount` | qemu-NP/block-qcow2.c:1674-1787 | every count changed by addend times the references of this root, tables changed in flags only, flags right |
| `Qcow2.Image.WriteSnapshots` | qemu-NP/block-qcow2.c:1859-1925 | moving the snapshot table keeps the invariant; each header of 40 bytes, with id and name behind it, has its place at a multiple of 8, and the size is where the last one ends |
| `Qcow2.Image.StoreSnapshot` | qemu-NP/block-qcow2.c:1995-2025 | the stored table shows the active disk |
| `Qcow2.Image.SnapshotCreate` | qemu-NP/block-qcow2.c:1972-2042 | fails with -2 exactly when the id is in use; else one snapshot more, which shows the disk as it is now; nobody sees another difference |
| `Qcow2.Image.ReleaseSnapshot` | qemu-NP/block-qcow2.c:2095-2104 | the references of one snapshot are out of the counts; all others show what they showed |
| `Qcow2.Image.SnapshotDelete` | qemu-NP/block-qcow2.c:2086-2119 | fails with -2 exactly when no id and no name is the key; else the first snapshot with that id, or when there is none the first with that name, is gone, the others stay in order, and nobody else sees a difference |
| `Qcow2.Image.LetGo` | qemu-NP/block-qcow2.c:2056-2057 | the active disk is out of the counts; no snapshot changes |
| `Qcow2.Image.Adopt` | qemu-NP/block-qcow2.c:2062-2076 | the snapshot becomes the active disk |
| `Qcow2.Image.SnapshotGoto` | qemu-NP/block-qcow2.c:2044-2084 | the disk shows what the first snapshot with that id shows, or when there is none the first with that name; no snapshot changes; what leaks is stated exactly, and nothing does if and only if the grown table takes as many clusters as that of the snapshot; the header keeps its size unless the table grows, and the file keeps the entries behind the new table |
| `Session.KeepSnapshot` | qemu-NP/block-qcow2.c:1140-2119 | over any run that does not delete it, a snapshot stays in the image and shows the disk it showed |
| `Library.WriteMeans` | qemu-NP/block-qcow2.c:1140-2119 | a write to the disk with full copies replaces exactly its sectors |
| `Library.CreateMeans` | qemu-NP/block-qcow2.c:1987-1989 | a copy is added unless its id is in use |
| `Library.DeleteMeans` | qemu-NP/block-qcow2.c:1956-1970 | the first copy with that id goes, or when there is none the first with that name; the others stay in order |
| `Library.GotoMeans` | qemu-NP/block-qcow2.c:1956-1970 | the disk becomes the first copy with that id, or when there is none the first with that name |
| `Session.TakeAndReturn` | qemu-NP/block-qcow2.c:1972-2084 | take a snapshot, do anything but delete it, go back: the image shows exactly the disk it showed |
| `Session.Perform` | qemu-NP/block-qcow2.c:1140-2119 | one operation does to the image what it does to a disk with full copies; it leaks exactly when it is a wasteful switch |
| `Session.Execute` | qemu-NP/block-qcow2.c:1140-2119 | every run of operations does to the image what it does to a disk with full copies; the invariant holds at its end; in an encrypted image every sector the file has for a guest stays encrypted with its number; sizes and entries in use of all L1 tables, and the number of clusters that leaked, are a function of the run; nothing leaks if and only if no switch wastes clusters |
| `Session.CreateAndExecute` | qemu-NP/block-qcow2.c:1472-2119 | every run on a new image; if all writes stay inside the disk nothing leaks, switches included; the consistency check finds nothing if and only if nothing leaked |
| `TableSizes.InsideThrifty` | qemu-NP/block-qcow2.c:434-484 | while writes stay inside the disk all L1 tables keep one size, and no switch wastes clusters |
| `TableSizes.WrittenSpans` | qemu-NP/block-qcow2.c:434-484 | what the file has behind the active table stays while it does not grow, and goes when it grows |
| `Reopening.Reopen` | qemu-NP/block-qcow2.c:186-307 | closing and opening loses nothing if and only if the entries that the header covers behind the active table are unused; else a count is too low; what had leaked behind the table belongs to it again |
| `Reopening.OpenedShort` | qemu-NP/block-qcow2.c:247-268 | an entry in use behind the active table becomes a reference that no count has |
| `Reopening.OpenedSound` | qemu-NP/block-qcow2.c:247-268 | when those entries are unused the longer table keeps the invariant and shows the same disk |
| `Reopening.Execute` | qemu-NP/block-qcow2.c:186-2119 | every run of operations and openings: the image is valid at its end and stands for a disk with full copies if and only if nothing in use lies behind the active table at any opening |
| `Reopening.InsideDurable` | qemu-NP/block-qcow2.c:2062-2070 | while writes stay inside the disk that is always so, and nothing leaks |
| `Reopening.StaysLarge` | qemu-NP/block-qcow2.c:249-257 | over every run the header states at least as many entries as the disk needs, so opening is never refused for that |
| `Reopening.CreateAndExecute` | qemu-NP/block-qcow2.c:186-2119 | every run on a new disk, openings included; if writes stay inside the disk the image is valid at its end and the consistency check finds nothing |
| `Reopening.ReopenBreaks` | qemu-NP/block-qcow2.c:2044-2084 | on every new disk a snapshot, a write far outside and the switch back end in a valid image that opening breaks |
| `Session.Serve` | qemu-NP/block-qcow2.c:2244-2291 | over every run of chunk and cluster allocations chunks do not overlap and each count is the number of chunks there plus other references |
| `Bytes.TouchedBy` | qemu-NP/block-qcow2.c:2430-2450 | a cluster is counted for a stretch of bytes exactly when a byte of it is used |
| `Bytes.TableBytes` | qemu-NP/block-qcow2.c:434-484 | a table of n entries of eight bytes takes size_to_clusters of them |
| `Bytes.PackRoundTrip` | qemu-NP/block-qcow2.c:849-854 | the entry is the offset plus the sectors that are crossed, shifted above it; both come back; the sectors contain the whole chunk and touch exactly its clusters |
| `Bytes.SameClusters` | qemu-NP/block-qcow2.c:744-750 | rounding a chunk to whole sectors touches no other cluster |
| `Bytes.PlainEntry` | qemu-NP/block-qcow2.c:752-755 | an entry for a whole cluster counts that cluster once |
| `Chunks.PlaceInside` | qemu-NP/block-qcow2.c:2266-2276 | a chunk behind its predecessor in the open cluster keeps the accounts |
| `Chunks.PlaceNew` | qemu-NP/block-qcow2.c:2262-2276 | a chunk at the start of a new cluster keeps the accounts |
| `Chunks.PlaceAcross` | qemu-NP/block-qcow2.c:2277-2284 | a chunk that goes on into the adjacent new cluster keeps the accounts |
| `Chunks.Uncounted` | qemu-NP/block-qcow2.c:2275-2283 | a chunk that is not counted in its cluster breaks the accounts |
| `Chunks.NeverSaturated` | qemu-NP/block-qcow2.c:2407-2420 | a count can be at its maximum only with clusters of 64 KB and one byte left |
| `Chunks.PlacedBooks` | qemu-NP/block-qcow2.c:2255-2291 | the accounts survive an allocation if and only if the open cluster is not crowded, a condition on the state before |
| `Chunks.PlacedSparse` | qemu-NP/block-qcow2.c:2255-2291 | with chunks of two bytes and more a count stays at about half of the bytes in use, so it never reaches its maximum |
| `Limits.FillCluster` | qemu-NP/block-qcow2.c:2255-2291 | a cluster of 64 KB filled byte by byte: its count is at the maximum with sound accounts, and the next chunk breaks them |
| `Chunks.FreeUndoes` | qemu-NP/block-qcow2.c:737-750 | freeing the packed entry of a chunk takes exactly that chunk out of the accounts |
| `Check.IncRefcount` | qemu-NP/block-qcow2.c:2452-2477 | an error exactly when a cluster is outside the file or a 16-bit counter wraps |
| `Check.CheckEntry` | qemu-NP/block-qcow2.c:2518-2549 | counts what an entry names; an error when COPIED disagrees with the count being one, or a compressed entry carries it |
| `Check.CheckRefcountsL1` | qemu-NP/block-qcow2.c:2479-2565 | counts all references below one L1 table |
| `Check.CheckRefcounts` | qemu-NP/block-qcow2.c:2567-2619 | finds no error if and only if the image is clean; then COPIED says for every L1 entry and every plain L2 entry of the active disk whether the count is one, and no compressed entry, active or in a snapshot, carries it |
| `Check.CleanMeans` | qemu-NP/block-qcow2.c:2511-2619 | clean means: every count is the number of references, none lies outside the file, COPIED says for each entry of the active disk whether the count is one, compressed entries do not carry it |
| `Check.CopiedRightPlain` | qemu-NP/block-qcow2.c:2511-2543 | on tables of plain entries that is exactly what the invariant of the engine asks of flags |
| `Check.ReferencedIs` | qemu-NP/block-qcow2.c:2567-2619 | on a valid image counts are the references the check sees plus what has leaked |
| `Check.ValidFlags` | qemu-NP/block-qcow2.c:2511-2543 | the invariant implies every flag the check looks at |
| `Check.ValidClean` | qemu-NP/block-qcow2.c:2567-2619 | a valid image is clean if and only if nothing has leaked |
| `Check.CheckValid` | qemu-NP/block-qcow2.c:2567-2619 | on a valid image the check finds no error if and only if nothing has leaked |
| `Check.NewMeta` | qemu-NP/block-qcow2.c:1500-1562 | a new image is laid out as the check expects |
| `Overrun.LeavesSpan` | qemu-NP/block-qcow2.c:668-681 | a request not inside one span covers the first sector behind it |
| `Overrun.ReadBeyond` | qemu-NP/block-qcow2.c:1097-1138 | for every request that leaves its span there is a valid image on which the read returns something else than the guest view |
| `Limits.SwitchLeaks` | qemu-NP/block-qcow2.c:2044-2084 | on every new disk a snapshot, a write far outside and the switch back end in a valid image that has leaked and that the check reports |
| `Limits.GrowthOvershoots` | qemu-NP/block-qcow2.c:444-447 | with 4 KB clusters a switch from 1025 to 1026 table entries grows to 1538 and wastes a cluster |
| `Qcow1.TableSound` | qemu-NP/block-qcow.c:268-311 | appending an L2 table keeps all tables and clusters apart and inside the file |
| `Qcow1.AddressIs` | qemu-NP/block-qcow.c:265-321 | L1 index, L2 index and place in the cluster are the digits of the sector number, and determine it |
| `Qcow1.NewGeometryFlat` | qemu-NP/block-qcow.c:738-794 | a new image has the least L1 table that maps all sectors, with clusters of eight sectors, or of one over a backing disk |
| `Qcow1.ClusterSound` | qemu-NP/block-qcow.c:322-376 | appending a data cluster keeps all tables and clusters apart and inside the file |
| `Qcow1.WordsSound` | qemu-NP/block-qcow.c:505-515 | writing inside a mapped cluster leaves every table as it is |
| `Qcow1.ClusterView` | qemu-NP/block-qcow.c:322-376 | the guest sees the new cluster, and everything else as before |
| `Qcow1.WordsView` | qemu-NP/block-qcow.c:505-515 | the guest sees the new words where they were written, and everything else as before |
| `Qcow1.Driver.Create` | qemu-NP/block-qcow.c:738-794 | a new image is sound and shows the backing disk |
| `Qcow1.Driver.MakeEmpty` | qemu-NP/block-qcow.c:796-815 | afterwards the image is sound and shows the backing disk again |
| `Qcow1.Driver.LeastUsed` | qemu-NP/block-qcow.c:296-304 | the first slot with the least hit count |
| `Qcow1.Driver.AddTable` | qemu-NP/block-qcow.c:268-318 | a new table, cached; nothing the guest sees changes |
| `Qcow1.Driver.InitSectors` | qemu-NP/block-qcow.c:347-365 | the sectors of a new encrypted cluster outside the write decrypt to zeros |
| `Qcow1.Driver.NewCluster` | qemu-NP/block-qcow.c:322-376 | a new cluster, named in cache and file; outside the write it shows zeros, everything else is as before |
| `Qcow1.Driver.GetClusterOffset` | qemu-NP/block-qcow.c:255-379 | the cluster of a sector; none is added unless asked for; a mapped one is returned without any change |
| `Qcow1.Driver.QcowWrite` | qemu-NP/block-qcow.c:490-523 | its sectors are in the file as given, or encrypted with their numbers in an encrypted image; the rest of clusters it had to allocate shows zeros, nothing else has changed |
| `Qcow1.WroteView` | qemu-NP/block-qcow.c:490-523 | so the guest sees the data, zeros in the rest of new clusters, and what it saw elsewhere |
| `Qcow1.Driver.QcowRead` | qemu-NP/block-qcow.c:536-614 | returns exactly what the guest sees: the stored sector, decrypted in an encrypted image, else that of the backing disk, else zeros |
| `Qcow1.FlatExactly` | qemu-NP/block-qcow.c:322-376 | a write acts as on a flat disk if and only if the clusters it allocates cover nothing but zeros of the backing disk outside the write |
| `Qcow1.FlatCases` | qemu-NP/block-qcow.c:738-794 | without a backing disk, or with clusters of one sector, allocation covers nothing up |
| `Qcow1.CoversUp` | qemu-NP/block-qcow.c:322-376 | on every empty image with clusters of several sectors over a backing disk, a write to one sector makes another sector show zeros |
| `Qcow1.Execute` | qemu-NP/block-qcow.c:490-815 | every run of writes and emptyings on a new image, encrypted or not: each sector shows what the last write to it put there since, and the file has it encrypted in an encrypted image |
| `FatCheck.ChainUnique` | qemu-NP/block-vvfat.c:1706-1719 | a cluster chain is determined by its first cluster |
| `FatCheck.TreeUnique` | qemu-NP/block-vvfat.c:1727-1849 | the whole directory tree is determined by its first cluster |
| `FatCheck.TreeMeans` | qemu-NP/block-vvfat.c:1727-1849 | a tree, in numbers: chains follow the table up to its end mark; each entry for a subdirectory or a file with bytes has one node, in order, with the first cluster the entry names; n clusters of a file of s bytes satisfy (n - 1) * cluster_size < s and s at most n * cluster_size; and all that has these properties is a tree |
| `FatCheck.ChainMeans` | qemu-NP/block-vvfat.c:1513-1533 | a chain: the clusters of the root directory in order, elsewhere as the table says, up to a value above max_fat_value - 8 |
| `FatCheck.KidsMean` | qemu-NP/block-vvfat.c:1780-1838 | the nodes of a directory: exactly its subdirectories and files that take clusters, in order, and no malformed name |
| `FatCheck.NeedIs` | qemu-NP/block-vvfat.c:1831-1833 | the 32-bit expression for the cluster count is the least number of clusters that holds the file, or 0 |
| `FatCheck.RootChain` | qemu-NP/block-vvfat.c:1513-1533 | the chain of the root directory is its clusters in order |
| `FatCheck.GetClusterCount` | qemu-NP/block-vvfat.c:1580-1722 | a positive result is the length of a chain of clusters that were unmarked, now marked, and no others; it finds every such chain; nothing is marked exactly when the first cluster is 0 or marked; the walk ends on cyclic tables |
| `FatCheck.CheckEntry` | qemu-NP/block-vvfat.c:1780-1838 | an entry is accepted with the clusters of its subtree or file; a file of 1 to 2^32 less a cluster bytes only with the least number of clusters that holds it, any other only without; nothing else is marked if and only if all empty files there are hosted |
| `FatCheck.CheckDirectory` | qemu-NP/block-vvfat.c:1727-1849 | a positive result is the number of clusters of a tree whose clusters are different and newly marked; nothing else is marked if and only if all empty files below are hosted; it ends on every table |
| `FatCheck.IsConsistent` | qemu-NP/block-vvfat.c:1851-1922 | nonzero if and only if the chains of all directories and files are disjoint and are together exactly the clusters in use, and each empty file that names a cluster names one the walk has been at; then exactly these clusters are marked |
| `FatCheck.HostedAppend` | qemu-NP/block-vvfat.c:1780-1838 | the entries of a directory are walked in order: what the earlier ones cover counts for the later ones |
| `FatCheck.UnplacedAcceptable` | qemu-NP/block-vvfat.c:1706-1719 | where no empty file names a cluster, a volume is accepted if and only if its tree is sane |
| `FatCheck.OrderMatters` | qemu-NP/block-vvfat.c:1706-1719 | two sane volumes with the same table and the same files, an empty one naming the cluster of the other: accepted where it comes later, refused where it comes first |
| `FatTable.DigitsMake` | qemu-NP/block-vvfat.c:534-556 | the half bytes of a number make up the number |
| `FatTable.StoredEntry` | qemu-NP/block-vvfat.c:534-556 | storing one entry changes it alone, whatever bytes it shares |
| `FatTable.WriteOdd` | qemu-NP/block-vvfat.c:547-555 | the twelve bits of an odd entry are replaced and the neighbour keeps its half of the shared byte |
| `FatTable.WriteEven` | qemu-NP/block-vvfat.c:547-555 | the twelve bits of an even entry are replaced and the neighbour keeps its half of the shared byte |
| `FatTable.ReadOdd` | qemu-NP/block-vvfat.c:566-569 | two bytes shifted and masked are the three half bytes of an odd entry |
| `FatTable.Table.Get` | qemu-NP/block-vvfat.c:558-570 | the entry as a number in the stream of half bytes, for 12, 16 and 32 bits |
| `FatTable.Table.Set` | qemu-NP/block-vvfat.c:534-556 | the entry becomes the value cut to its width; no other entry changes |
| `Mappings.MappingArray.Insert` | qemu-NP/block-vvfat.c:127-142 | everything before stays, everything from the index on moves by one |
| `Mappings.MappingArray.Roll` | qemu-NP/block-vvfat.c:144-175 | one element moves, those between close up; -1 exactly for an index outside |
| `Mappings.MappingArray.Remove` | qemu-NP/block-vvfat.c:177-191 | exactly one element goes |
| `Mappings.MappingArray.FindMappingForClusterAux` | qemu-NP/block-vvfat.c:1098-1123 | the binary search ends with the least index whose mapping ends behind the cluster |
| `Mappings.MappingArray.FindMappingForCluster` | qemu-NP/block-vvfat.c:1125-1139 | the mapping that contains the cluster, or none if there is none |
| `Mappings.MappingArray.AdjustMappingIndices` | qemu-NP/block-vvfat.c:1925-1942 | every reference moved as its target moved |
| `Mappings.MappingArray.InsertMapping` | qemu-NP/block-vvfat.c:1944-1983 | the array stays sorted and disjoint; references denote the same mappings; an existing mapping only gets a new end |
| `Mappings.MappingArray.RemoveMapping` | qemu-NP/block-vvfat.c:1985-2005 | the array stays sorted and disjoint; references to other mappings denote the same ones |
| `Mappings.RemovedReference` | qemu-NP/block-vvfat.c:1985-2005 | references after a removal, to the first mapping of a file and to the parent of a directory, denote the same mappings unless these are gone |
| `Mappings.InsertedReference` | qemu-NP/block-vvfat.c:1944-1983 | references after an insertion, to the first mapping of a file and to the parent of a directory, denote the same mappings, cut if they contained the new begin |
| `LongNames.Short2LongName` | qemu-NP/block-vvfat.c:413-426 | a name widened to 16 bits, terminated, padded with 0xff up to a multiple of 26 bytes |
| `LongNames.Directory.CreateLongFilename` | qemu-NP/block-vvfat.c:428-451 | appends the parts of the name, the last one first, each with its characters at bytes 1, 3, 5, 7, 9, 14, 16, 18, 20, 22, 24, 28 and 30, zero and 0xffff behind the end |
| `LongNames.PartSpelled` | qemu-NP/block-vvfat.c:428-451 | the 26 bytes of a part are the thirteen characters at those places |
| `LongNames.Directory.SetChecksum` | qemu-NP/block-vvfat.c:672-682 | the checksum byte of the new entries |
| `LongNames.LongName.ParseLongName` | qemu-NP/block-vvfat.c:1432-1472 | 1 exactly for other entries, the right error for a wrong start or a character that is none, else the thirteen characters from bytes 1 to 9, 14 to 24 and 28 to 30 at their place in the name, the terminator and the length |
| `LongNames.ParseParts` | qemu-NP/block-vvfat.c:1432-1472 | parts in the order of the directory are all accepted and give name and length |
| `LongNames.RoundTrip` | qemu-NP/block-vvfat.c:413-1472 | writing any name that fits the buffer and reading the entries back gives the same name |
| `ByteAccess.SectorDevice.Pread` | qemu-NP/block.c:585-627 | exactly the bytes asked for, for every offset and count |
| `ByteAccess.SectorDevice.Pwrite` | qemu-NP/block.c:629-675 | exactly these bytes change, through read-modify-write of partial sectors |
| `ByteAccess.ReplacedJoin` | qemu-NP/block.c:629-675 | writing two adjacent pieces is writing both |
| `Cow.SetOneBit` | qemu-NP/block-cow.c:112-120 | setting a bit sets this one and no other |
| `Cow.Overlay.SetBit` | qemu-NP/block-cow.c:112-115 | bit i % 8 of byte i / 8 behind the header is set, no other bit and no other byte changes |
| `Cow.Overlay.IsChanged` | qemu-NP/block-cow.c:126-144 | the longest run of sectors in the state of the first one, up to the limit |
| `Cow.Overlay.CowRead` | qemu-NP/block-cow.c:153-180 | exactly what the guest sees: where the bit of a sector is set the data in the file, which begin at the first sector boundary behind header and bitmap, else the backing disk, else zeros |
| `Cow.Overlay.CowWrite` | qemu-NP/block-cow.c:182-195 | the data are in the file at their place behind header and bitmap, exactly the bits of the written sectors come in, nothing else changes |
| `Cow.DataBehind` | qemu-NP/block-cow.c:97-105 | the data begin at the first multiple of 512 that leaves room for the header and one bit for each sector |
| `Cow.Overlay.Commit` | qemu-NP/block.c:484-524 | the backing disk ends up as the view before, beyond the overlay untouched; the view of the overlay does not change; -95 without a backing disk |
| `Buffered.BufferedFile.Append` | qemu-NP/buffered_file.c:49-71 | the bytes follow the pending ones |
| `Buffered.BufferedFile.SendPending` | qemu-NP/buffered_file.c:80-99 | the backend got exactly the bytes taken off, up to a refusal or a failure |
| `Buffered.BufferedFile.Flush` | qemu-NP/buffered_file.c:73-108 | what the backend got and what is still pending are together what was pending |
| `Buffered.BufferedFile.PutBuffer` | qemu-NP/buffered_file.c:110-160 | what one call does to every state; bytes stay behind only if the backend refuses or the limit is exceeded, and no new ones go when it was; order is kept if and only if it was and not both the flush fails and the backend then takes new bytes; without an error all bytes are accepted |
| `Buffered.BufferedFile.RateTick` | qemu-NP/buffered_file.c:201-219 | a frozen or failed file stays as it is; else the transferred bytes are zero again and pending bytes go out until the backend refuses or fails, none lost; the order never changes |
| `Buffered.BufferedFile.Close` | qemu-NP/buffered_file.c:162-183 | without an error everything passed in has reached the backend, in order; the loop ends if the backend does not refuse for ever |
| `Buffered.NewTaken` | qemu-NP/buffered_file.c:110-160 | when a failed flush is followed by new bytes that are taken: the limit is not reached and the backend accepts some |
| `Buffered.Feed` | qemu-NP/buffered_file.c:110-219 | over every run of calls and ticks order is kept if and only if no call reorders; while it is, the backend has a prefix of everything passed in |
| `Buffered.OrderLostAfterError` | qemu-NP/buffered_file.c:110-160 | a run after which newer bytes were sent though older ones failed |
| `Boxes.SubstitutionInverse` | qemu-NP/aes.c:331-396 | the inverse box undoes the box, for every byte |
| `Field.BoxMeans` | qemu-NP/aes.c:331-396 | the box is what section 5.1.1 of FIPS 197 defines: the affine image of the inverse in GF(2^8), for every byte |
| `Field.Multiples` | qemu-NP/aes.c:53-64 | the multiples in the tables are products in GF(2^8) |
| `Aes.RowInverse` | qemu-NP/aes.c:53-64 | one row of the product of the MixColumns matrix and its inverse is one of the unit matrix |
| `Aes.UnmixMix` | qemu-NP/aes.c:53-64 | the inverse matrix undoes the matrix on every column |
| `Aes.UnmixLinear` | qemu-NP/aes.c:838-884 | it distributes over the addition of a round key |
| `Aes.RoundsUndone` | qemu-NP/aes.c:1082-1267 | r rounds of decryption undo the last r rounds of encryption |
| `Aes.DecryptEncrypt` | qemu-NP/aes.c:891-1267 | the equivalent inverse cipher of section 5.3.5 of FIPS 197 undoes the cipher of section 5.1 |
| `AesKey.EncryptionTables` | qemu-NP/aes.c:53-64 | four table words add up to MixColumns of the substituted column |
| `AesKey.DecryptionTables` | qemu-NP/aes.c:53-64 | four inverse table words add up to InvMixColumns of the substituted column |
| `AesKey.KeyTables` | qemu-NP/aes.c:858-882 | inverse tables indexed through the box leave the bare InvMixColumns |
| `AesKey.RconPower` | qemu-NP/aes.c:728-732 | the round constants are the powers of x |
| `AesKey.EncryptRound` | qemu-NP/aes.c:986-1042 | one half of the loop body is one plain round |
| `AesKey.LastRound` | qemu-NP/aes.c:1045-1075 | the masked tables are the last round, which mixes no columns |
| `AesKey.Key.SetEncryptKey` | qemu-NP/aes.c:737-833 | the schedule of section 5.2 of FIPS 197 for 128, 192 and 256 bits, byte by byte: for n key words and i a multiple of n, byte a of word i is that of word i - n plus the substituted byte b of word i - 1 plus x^(i/n - 1), b with c, c with d, d with a; for n = 8 and i = 4 modulo 8 the substituted word; else the sum of two words; -1 and -2 exactly as documented, with the key untouched |
| `AesKey.Key.SetDecryptKey` | qemu-NP/aes.c:838-884 | the keys of the encryption schedule in reverse order, the inner ones through InvMixColumns |
| `AesKey.Key.Reverse` | qemu-NP/aes.c:851-857 | the swaps in place reverse the order of the round keys |
| `AesKey.Key.Encrypt` | qemu-NP/aes.c:891-1076 | two rounds per iteration over tables equal Nr plain rounds; buffers may overlap |
| `Fips.CipherBytes` | qemu-NP/aes.c:891-1076 | the plain rounds are the cipher of section 5.1 of FIPS 197 byte by byte: a key is added, then each round substitutes every byte, moves row r by r columns, multiplies columns by 3x^3 + x^2 + x + 2 in GF(2^8) except in the last, and adds its key |
| `AesKey.Key.Decrypt` | qemu-NP/aes.c:1082-1267 | two rounds per iteration over tables equal Nr plain rounds of the equivalent inverse cipher; buffers may overlap |
| `AesKey.SchedulesInvert` | qemu-NP/aes.c:737-884 | the two schedules of one key undo each other |
| `AesKey.BlockRoundTrip` | qemu-NP/aes.c:737-1267 | for every key of the three sizes decryption gives back every block |
| `Cbc.RoundTrip` | qemu-NP/aes.c:1271-1320 | decryption gives back every text of every length |
| `Cbc.BlockOf` | qemu-NP/aes.c:1271-1298 | each cipher block is the encryption of its plain block plus the cipher block before it (section 6.2 of NIST SP 800-38A) |
| `Cbc.BlockBytes` | qemu-NP/aes.c:1271-1298 | the same byte by byte, with the text filled up by zeros and the vector in front |
| `Cbc.EncryptSplit` | qemu-NP/aes.c:1271-1298 | two calls that split a text at a block boundary, the vector passed on, equal one call |
| `Cbc.DecryptSplit` | qemu-NP/aes.c:1299-1320 | two decryptions that split a text at a block boundary equal one |
| `Sectors.CbcEncrypt` | qemu-NP/aes.c:1271-1320 | output and final vector for both directions, every length, in place or not |
| `Sectors.VectorMeans` | qemu-NP/block-qcow2.c:362-363 | the vector of a sector: eight bytes, lowest first, that make up its number modulo 2^64, and eight zeros |
| `Sectors.SectorOfRun` | qemu-NP/block-qcow2.c:354-374 | each sector of an encrypted run is chained on its own from the vector of its own number |
| `Sectors.VectorsDiffer` | qemu-NP/block-qcow2.c:362-363 | different numbers below 2^64 have different vectors |
| `Sectors.SubRun` | qemu-NP/block-qcow2.c:354-374 | any run of sectors out of encrypted ones decrypts on its own |
| `Sectors.EncryptSectors` | qemu-NP/block-qcow2.c:354-374 | each sector chained on its own from its number, in place or not; bytes outside are untouched |
| `Sectors.KeySubRun` | qemu-NP/block-qcow2.c:354-374 | any run of sectors encrypted under a 128, 192 or 256-bit AES key decrypts on its own under the same key |
| `Encryption.BytesBack` | qemu-NP/block-qcow2.c:914-926 | eight bytes are the big-endian form of one number |
| `Encryption.WordBack` | qemu-NP/block-qcow2.c:57-60 | the fields of a table entry come back from the 64-bit number they make up, for every cluster size |
| `Encryption.NumberOfWord` | qemu-NP/block-qcow2.c:57-60 | every 64-bit number is made up of such fields |
| `Encryption.NumberCipherValid` | qemu-NP/block-qcow.c:220-239 | AES by sectors is a cipher with an inverse on the words of a version 1 image |
| `Encryption.KeyMediumValid` | qemu-NP/block-qcow2.c:354-374 | AES by sectors is a cipher with an inverse on the words of a qcow2 image |
| `Encryption.SetKey` | qemu-NP/block-qcow2.c:309-349 | the two schedules of the key whose bytes are the first sixteen of the password, and zeros behind a shorter one |
| `Encryption.SealedCiphered` | qemu-NP/block-qcow2.c:1154-1165 | a sector encrypted with its number is its AES text |
| `Encryption.CreateAndExecute` | qemu-NP/block-qcow2.c:309-2119 | every run on a new image encrypted under a password: the guest sees what it would see on plain disks with full copies, and every sector that the file has for the active disk or a snapshot is the AES text, under the schedule of the password, of what the guest sees there |

## Left out

- Compressed clusters in the invariant of the engine: placement, packing, freeing and accounting of chunks are modelled (`Bytes`, `Chunks`, `Image.AllocBytes`), but images on which writes and snapshots are run contain plain entries only.
- Growth of the refcount table and creation of refcount blocks (`block-qcow2.c` lines 2299-2363, 2385-2405): counts are one map from clusters to numbers, with room for every cluster.
- Bytes of the snapshot table: its size and clusters are modelled, its contents are the snapshot list.
- The image header, compression itself (zlib), file opening and backing file names.
- I/O errors, out of memory, and the interleaving of asynchronous requests: each request runs to completion.
- Integer widths other than those of counters and of the packed fields: offsets do not overflow, shifts by cluster sizes are divisions. Bit operations of AES, of FAT entries and of bitmaps are on bit vectors.
- Byte order of table words: table entries are decoded values (`block-qcow2.c` lines 914 and 926 pass the raw word on, so this is the code where the conversion is the identity).
- Generation of snapshot ids, times and VM state sizes.
- Session.Execute: a new snapshot is taken only below 0xfffe snapshots (`Library.Fits`), since line 2417 of `block-qcow2.c` refuses a larger count.
- Session.Serve: with clusters of 64 KB chunks have at least two bytes; `Limits.FillCluster` shows what chunks of one byte do there.
- Qcow2.Image.Create: a disk of at least one sector; an L1 table of no entries never grows (line 446 of `block-qcow2.c` loops for ever).
- Qcow2.Image.Open: the checks of magic number, version, disk size, cluster size and encryption method, and the bytes of the snapshot table, are not part of this model; that of line 256 never fails (`Reopening.StaysLarge`).
- Qcow2.Image.GetClusterOffset: says nothing of the run for requests beyond the span of one L2 table, where the code counts past the table.
- Qcow2.Image.LinkEntries: the replaced entries are decoded values, where the source passes raw words on.
- Qcow2.Image.FinishLink: is about the code where the byte-order conversion is the identity.
- Qcow2.Image.AllocClusterLinkL2: is about the code where the byte-order conversion is the identity.
- Qcow2.Image.WalkTable: the branch for compressed entries is left out.
- Qcow2.Image.WalkRoot: the branch for compressed entries is left out.
- Qcow2.Image.UpdateSnapshotRefcount: the branch for compressed entries is left out.
- Qcow2.Image.WriteSnapshots: the size and the place of the snapshot table, not its bytes.
- Qcow2.Image.SnapshotCreate: the id is given; dates and VM state are left out, and the number of snapshots stays below 0xffff.
- Qcow2.Image.QcowRead: says nothing of the data read beyond the span of one L2 table, where the code is wrong (`Overrun.ReadBeyond`).
- Check.CheckRefcountsL1: L1 entries are whole clusters, as in every image the engine writes.
- Check.CheckRefcounts: L1 entries are whole clusters, as in every image the engine writes.
- Fips.CipherBytes: the cipher only; the inverse cipher is tied to it by the round trip.
- FatCheck.IsConsistent: a cluster has 512 bytes to below 2^32; table entries lie inside the volume or end a chain, and a directory entry is what the check looks at (kind, first cluster, size); names, paths and the scheduling of renames and commits are not part of this model. The entries of a cluster are a function of that cluster, so a long name does not go on into the next cluster of a directory.
- Mappings.MappingArray.InsertMapping: the new begin is not strictly inside the last mapping, and the fields a new mapping takes over from its slot are unspecified; the pointer to the current mapping is left out.
- Mappings.MappingArray.Roll: one element at a time, as everywhere in the source.
- LongNames.LongName.ParseLongName: asks for a sequence number of at least one; the source computes a negative offset for zero.
- LongNames.RoundTrip: names of up to 116 bytes, which are those that fit the 258-byte buffer with their padding.
- LongNames.Short2LongName: names of up to 116 bytes, for the same reason.
- LongNames.Directory.CreateLongFilename: names of up to 116 bytes, for the same reason.
- Mappings.MappingArray.RemoveMapping: the pointer to the current mapping is left out.
- Cow.Overlay.CowRead: bits behind the bitmap count as clear; the header of the overlay is a constant number of bytes.
- Buffered.BufferedFile.RateTick: the timer is its caller, and the callback that asks for more data is left out; so is `buffered_rate_limit`, which only reads two fields.
- Qcow1.CoversUp: creation gives images over a backing disk clusters of one sector; the failing geometries are those of other images. Sectors behind the end of the backing disk are zeros.
- Qcow1.Driver.NewCluster: the branch for compressed clusters is left out.
- Qcow1.Driver.GetClusterOffset: the branch for compressed clusters is left out; requests do not overlap in time.
- Encryption.KeyMedium: words whose fields do not fit 64 bits, which no file has, stay as they are under encryption.
- AES: the tables Te0 to Te3 and Td0 to Td3 are products of the boxes Te4 and Td4, as the comment in `aes.c` lines 53-64 says; words are four bytes, most significant first.
- Sectors.CbcEncrypt: buffers are the same one at the same place, or different ones; other overlaps are not described.
- The rest of the repository: other image formats, directory import and commit of the FAT volume, AIO, devices and disassemblers.
