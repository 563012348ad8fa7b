# Verified models of the Xen 3.3 storage and mini-os cores

This project models, in Dafny, the parts of the Xen tree whose correctness rests
on invariants that no single function shows: the QCOW2 image driver of the device
model, its AES code, the mini-os page allocator, and four small concurrent
machines of mini-os and its file-system backend.  `dafny verify dfyconfig.toml`
verifies all of it.

- **QCOW2** (`Qcow*.dfy`): the host file as a map of clusters, the driver as a
  class with its L1 table, counts, L2 cache and snapshots.  The specification is a
  flat disk with a list of frozen copies (`QcowFlat`); what the image must satisfy
  is what the driver's own checker demands (`QcowSpec`, `QcowChecker`).  L1 growth
  and gotos between L1 tables of different lengths are part of the model.
- **AES and CBC** (`Aes*.dfy`, `QcowCrypt.dfy`): the ciphers of FIPS-197 on bytes,
  the table code on words, key expansion, CBC of NIST SP 800-38A with the program's
  treatment of a partial last block.  The S-box is any box with an inverse, and the
  tables are given by their identities.
- **Page allocator** (`Buddy*.dfy`): bitmap words, intrusive free lists, greedy
  initialisation, splitting and merging.  The lists hold exactly the maximal
  aligned blocks of free memory.
- **Shared ring** (`FsRing.dfy`), **event channels** (`EventChannels.dfy`,
  `EventDelivery.dfy`), **block responses** (`BlkPoll.dfy`, `BlkSegments.dfy`) and
  the **scheduler** (`Scheduler.dfy`): state machines over the steps of all
  parties, and the loops as they run.

Hypotheses, where they matter: no I/O error; refcount blocks exist for all
clusters a run uses, so that counting never needs a new one; in whole runs, at
most 65533 snapshots when an operation starts, so that no 16-bit count is at its
limit (single operations are treated without this); the kernel of mini-os is linked at address zero, so that virtual and physical page
numbers agree.

## Model

| member | source | states |
|---|---|---|
| `QcowSession.Session` | tools/ioemu-qemu-xen/block-qcow2.c:1057-1147 | from a new image, every run of reads, writes and snapshot operations gives the replies of a flat disk with frozen copies, and check_refcounts complains afterwards if and only if some goto of the run left part of an L1 area behind |
| `QcowDriver.QcowDisk.Run` | tools/ioemu-qemu-xen/block-qcow2.c:496-1701 | every run refines the flat disk: same replies, same final disk and copies, L1 lengths as predicted; the image stays sound (counts exact root by root, COPIED exactly where the count is one, cache coherent), and no cluster is lost if and only if `KeepsAll` holds of the run, which is computable beforehand |
| `QcowDriver.QcowDisk.Perform` | tools/ioemu-qemu-xen/block-qcow2.c:714-1701 | one operation: reply and effect of the flat disk in any case; the image stays sound if and only if the 16-bit counts have room for the operation, and if it does not the counts are what is wrong |
| `QcowSession.CleanUnlessLost` | tools/ioemu-qemu-xen/block-qcow2.c:2160-2211 | a sound image passes the checker if and only if no cluster was lost |
| `QcowChecker.CheckRefcounts` | tools/ioemu-qemu-xen/block-qcow2.c:2160-2211 | the counting loops over 16-bit counters report nothing if and only if every reference is inside the file, no counter wraps, every stored count equals the references counted root by root, and every COPIED flag of the active root is right |
| `QcowChecker.CheckL1` | tools/ioemu-qemu-xen/block-qcow2.c:2072-2158 | one root adds its L1 area, its L2 tables and what they list to the tally; flags are checked at both levels |
| `QcowChecker.IncRefcounts` | tools/ioemu-qemu-xen/block-qcow2.c:2045-2070 | exactly the clusters of the range gain one; the verdict turns bad exactly when a cluster is outside the file or its 16-bit counter wraps |
| `QcowDriver.QcowDisk.constructor` | tools/ioemu-qemu-xen/block-qcow2.c:1057-1147 | a new image is sound, has no lost cluster and reads as its backing file everywhere |
| `QcowBlank.BlankSound` | tools/ioemu-qemu-xen/block-qcow2.c:1057-1147 | the counts that creation writes are the references of the new image |
| `QcowDriver.QcowDisk.Read` | tools/ioemu-qemu-xen/block-qcow2.c:714-757 | returns the sectors of the active disk: last written, else backing file, else zeros |
| `QcowDriver.QcowDisk.Write` | tools/ioemu-qemu-xen/block-qcow2.c:759-792 | the sectors written change to the given ones, all other sectors of the active disk and all snapshots stay, and the L1 table has the predicted length |
| `QcowDriver.QcowDisk.WritePart` | tools/ioemu-qemu-xen/block-qcow2.c:771-783 | a write inside one cluster keeps the rest of the cluster |
| `QcowDriver.QcowDisk.WriteOwned` | tools/ioemu-qemu-xen/block-qcow2.c:774-783 | an in-place write through a COPIED entry changes no snapshot |
| `QcowDriver.QcowDisk.AllocCluster` | tools/ioemu-qemu-xen/block-qcow2.c:496-631 | afterwards the active root alone owns the guest cluster; no snapshot changes, and on the active disk at most the window about to be written |
| `QcowDriver.QcowDisk.EnsureTable` | tools/ioemu-qemu-xen/block-qcow2.c:517-574 | the active root gets an L2 table of its own, in the cache; no disk changes |
| `QcowDriver.QcowDisk.MakeTable` | tools/ioemu-qemu-xen/block-qcow2.c:523-547 | a shared L2 table is copied, an absent one made empty: entry and count swap over, all disks stay |
| `QcowDriver.QcowDisk.MakeData` | tools/ioemu-qemu-xen/block-qcow2.c:578-629 | a data cluster of its own for the active root, filled outside the write window with what was readable before |
| `QcowDriver.QcowDisk.CopySectors` | tools/ioemu-qemu-xen/block-qcow2.c:369-392 | copied sectors read back as before; the L2 table in use keeps its cache slot across the nested read |
| `QcowDriver.QcowDisk.FindCluster` | tools/ioemu-qemu-xen/block-qcow2.c:496-580 | the lookup through the cache gives the cluster that the tables on disk give |
| `QcowDriver.QcowDisk.CacheLoad` | tools/ioemu-qemu-xen/block-qcow2.c:548-572 | the slot returned holds the table at that offset; every slot agrees with the disk and no offset is cached twice, across eviction and count halving |
| `QcowDriver.QcowDisk.CacheNewEntry` | tools/ioemu-qemu-xen/block-qcow2.c:403-419 | the first slot with the least count |
| `QcowDriver.QcowDisk.CacheReset` | tools/ioemu-qemu-xen/block-qcow2.c:394-401 | an empty cache |
| `QcowDriver.QcowDisk.GrowL1` | tools/ioemu-qemu-xen/block-qcow2.c:427-481 | the L1 table moves to a fresh area of the grown size; old entries keep their place |
| `QcowDriver.QcowDisk.ReachEntry` | tools/ioemu-qemu-xen/block-qcow2.c:512-516 | growing the L1 table changes no disk and keeps the counts exact |
| `QcowDriver.QcowDisk.AllocClustersNoref` | tools/ioemu-qemu-xen/block-qcow2.c:1806-1831 | the first run of count-zero clusters at or after the free index, and no earlier one |
| `QcowDriver.QcowDisk.AllocClusters` | tools/ioemu-qemu-xen/block-qcow2.c:1833-1840 | a free run whose counts become one; no other count changes |
| `QcowDriver.QcowDisk.UpdateClusterRefcount` | tools/ioemu-qemu-xen/block-qcow2.c:1960-2021 | adds to one count inside 16 bits, refuses otherwise, and lowers the free index when the count drops to zero |
| `QcowDriver.QcowDisk.UpdateRefcount` | tools/ioemu-qemu-xen/block-qcow2.c:2023-2042 | the counts of the range move by one as far as they stay in 16 bits, and no other count moves |
| `QcowDriver.QcowDisk.UpdateSnapshotRefcount` | tools/ioemu-qemu-xen/block-qcow2.c:1257-1370 | a pass over one root moves every count by the references of that root as far as 16 bits go, exactly if all have room, and sets each COPIED flag of the root from the new count; all references and all disks stay |
| `QcowPass.PassStep` | tools/ioemu-qemu-xen/block-qcow2.c:1298-1352 | one L1 entry further in a pass: flags set earlier stay right, entries ahead are untouched, counts are those of the prefix |
| `QcowPass.PassStored` | tools/ioemu-qemu-xen/block-qcow2.c:1353-1362 | writing the L1 table back stores exactly the passed entries, and all flags of the root are right |
| `QcowDriver.QcowDisk.Create` | tools/ioemu-qemu-xen/block-qcow2.c:1555-1623 | taking a snapshot appends a frozen copy of the active disk under the id asked for, or under a made-up one; refused exactly when the id is taken; the image stays sound if and only if no cluster of the active root was at count 65535 |
| `QcowDriver.QcowDisk.FewLeaveRoom` | tools/ioemu-qemu-xen/block-qcow2.c:2008-2011 | with at most 65533 snapshots there is room for every operation |
| `QcowDriver.QcowDisk.FindNewSnapshotId` | tools/ioemu-qemu-xen/block-qcow2.c:1511-1525 | one more than the largest id read as an int |
| `QcowIds.NewIdIsNew` | tools/ioemu-qemu-xen/block-qcow2.c:1511-1525 | as long as the largest number is below INT_MAX, the made-up id is its successor and nobody has it |
| `QcowIds.NewIdTaken` | tools/ioemu-qemu-xen/block-qcow2.c:1511-1525 | the made-up id is in use if and only if INT_MAX is reached and the wrapped number is an id already |
| `QcowIds.ReadBack` | tools/ioemu-qemu-xen/block-qcow2.c:1520-1524 | a printed non-negative int is read back as itself |
| `QcowLimits.ClampedSound` | tools/ioemu-qemu-xen/block-qcow2.c:2008-2011 | next to the counts that unlimited numbers would give, the stored ones make a sound image if and only if none was cut off |
| `QcowLimits.AdoptedRoom` | tools/ioemu-qemu-xen/block-qcow2.c:1635-1655 | replacing the active root by a snapshot's leaves the room in the counts as it was |
| `QcowSession.ExhaustCounts` | tools/ioemu-qemu-xen/block-qcow2.c:1555-1623 | a concrete run: one written sector and 65535 snapshots leave an image whose counts are wrong |
| `QcowFlat.UnnamedRefused` | tools/ioemu-qemu-xen/block-qcow2.c:1565-1572 | a snapshot without an id is refused in that one case only |
| `QcowFlat.NumbersRunOut` | tools/ioemu-qemu-xen/block-qcow2.c:1511-1525 | a concrete run whose last snapshot, taken without an id, is refused |
| `QcowFlat.UnnamedCount` | tools/ioemu-qemu-xen/block-qcow2.c:1565-1568 | snapshots taken one after the other without ids all succeed, with ids 1, 2, 3 |
| `QcowDriver.QcowDisk.Goto` | tools/ioemu-qemu-xen/block-qcow2.c:1626-1666 | the active disk becomes the snapshot's; no snapshot changes; the image stays sound if and only if the counts have room for the snapshot's root in place of the active one; clusters are lost exactly when the snapshot's L1 table fills fewer clusters than the active one has by then |
| `QcowDriver.QcowDisk.Delete` | tools/ioemu-qemu-xen/block-qcow2.c:1668-1701 | the snapshot leaves the list; the active disk and all other snapshots stay |
| `QcowDriver.QcowDisk.WriteSnapshots` | tools/ioemu-qemu-xen/block-qcow2.c:1442-1509 | moving the snapshot directory keeps the image sound and every disk |
| `QcowDriver.QcowDisk.FindSnapshot` | tools/ioemu-qemu-xen/block-qcow2.c:1539-1552 | by id first, then by name, the first match |
| `QcowSpec.FreeIsUnused` | tools/ioemu-qemu-xen/block-qcow2.c:1806-1831 | why a count of zero is the right test for a free cluster: when the counts are the references, no root, table or directory uses it (that the search returns a whole run of such clusters is `AllocClustersNoref`) |
| `QcowSpec.SoleOwner` | tools/ioemu-qemu-xen/block-qcow2.c:543-594 | a cluster that the active root lists with count one is out of reach of every snapshot, so COPIED permits in-place writes |
| `QcowSpec.UnflaggedIsShared` | tools/ioemu-qemu-xen/block-qcow2.c:578-594 | a cluster listed without COPIED has a count above one |
| `QcowSteps.TableStep` | tools/ioemu-qemu-xen/block-qcow2.c:517-547 | giving the active root a private L2 table keeps the image sound and every disk |
| `QcowSteps.PutStep` | tools/ioemu-qemu-xen/block-qcow2.c:575-629 | putting sectors into a private cluster keeps the image sound and all snapshots, and changes the active disk at that guest cluster only |
| `QcowSnapshots.CreateStep` | tools/ioemu-qemu-xen/block-qcow2.c:1585-1612 | storing the L1 table again under a root of its own: counts exact, new disk equals the active one, no disk changes |
| `QcowSnapshots.GotoStep` | tools/ioemu-qemu-xen/block-qcow2.c:1635-1655 | after a goto the counts leave out the active root only, and snapshots keep their disks |
| `QcowSnapshots.DeleteStep` | tools/ioemu-qemu-xen/block-qcow2.c:1668-1697 | dropping a root whose references are out of the counts leaves a sound image |
| `QcowSnapshots.GrowStep` | tools/ioemu-qemu-xen/block-qcow2.c:427-481 | moving and lengthening the active L1 table leaves a sound image and every disk |
| `QcowSnapshots.DirectoryStep` | tools/ioemu-qemu-xen/block-qcow2.c:1442-1509 | moving the directory leaves a sound image and every disk |
| `QcowSnapshots.RetagImage` | tools/ioemu-qemu-xen/block-qcow2.c:1257-1370 | changing COPIED flags changes no reference, no count and no disk |
| `QcowFlat.GrownEnough` | tools/ioemu-qemu-xen/block-qcow2.c:439-441 | the growth loop reaches the size asked for |
| `QcowFlat.ClustersGetLost` | tools/ioemu-qemu-xen/block-qcow2.c:1640-1650 | a concrete run on 4096-byte clusters that leaves a cluster of the L1 area behind |
| `QcowBytes.ByteAllocator.AllocBytes` | tools/ioemu-qemu-xen/block-qcow2.c:1844-1880 | where the blob goes and where free bytes begin afterwards; blobs never overlap and every cluster counts the blobs that touch it, if and only if not both the open cluster's count is at 65535 and the bytes stay there (they fit, or the first free cluster is the next one), which a caller can tell beforehand |
| `QcowBytes.FillCluster` | tools/ioemu-qemu-xen/block-qcow2.c:1844-1880 | 65535 requests of one byte lead a fresh allocator with 64 KB clusters to that case |
| `QcowBytes.OverfillCluster` | tools/ioemu-qemu-xen/block-qcow2.c:1844-1880 | one more request, and a cluster holds a blob that it does not count |
| `QcowBytes.RoomToCount` | tools/ioemu-qemu-xen/block-qcow2.c:1844-1880 | a count at the limit needs 64 KB clusters filled with single bytes |
| `QcowDescriptor.DescriptorRoundTrip` | tools/ioemu-qemu-xen/block-qcow2.c:616-623 | for every cluster size from 2^9 to 2^16, a compressed entry decodes to the same offset and to whole sectors that hold all data and less than a sector more; COMPRESSED set, COPIED clear |
| `QcowDescriptor.CrossingsBound` | tools/ioemu-qemu-xen/block-qcow2.c:230-232 | the sector count always fits its field |
| `QcowCrypt.EncryptSectors` | tools/ioemu-qemu-xen/block-qcow2.c:347-367 | each sector is CBC under its own number, in place, towards the start of the buffer or from buffer to buffer; nothing else in the buffer changes |
| `QcowCrypt.SectorsRoundTrip` | tools/ioemu-qemu-xen/block-qcow2.c:347-367 | decrypting any run of encrypted sectors gives the sectors back |
| `QcowCrypt.SectorCipherInverts` | tools/ioemu-qemu-xen/block-qcow2.c:347-367 | so the AES cipher meets the disk model's only demand on ciphers |
| `AesSpec.DecryptEncrypt` | tools/ioemu-qemu-xen/aes.c:838-883 | for all round keys and any number of rounds, the equivalent inverse cipher under reversed, inverse-mixed keys undoes the cipher |
| `AesSpec.MeetInMiddle` | tools/ioemu-qemu-xen/aes.c:1166-1220 | after r rounds of decryption the state is what encryption had r rounds before its end |
| `AesSpec.Unmix` | tools/ioemu-qemu-xen/aes.c:53-63 | the inverse column matrix undoes the column matrix in GF(2^8) |
| `AesTables.EncWordMeans` | tools/ioemu-qemu-xen/aes.c:986-1015 | four table lookups are SubBytes, ShiftRows and MixColumns of one column |
| `AesTables.DecWordMeans` | tools/ioemu-qemu-xen/aes.c:1177-1206 | likewise for decryption |
| `AesTables.EncLastMeans` | tools/ioemu-qemu-xen/aes.c:1047-1075 | masked lookups are SubBytes and ShiftRows |
| `AesTables.DecLastMeans` | tools/ioemu-qemu-xen/aes.c:1238-1266 | likewise for decryption |
| `AesTables.MixedWordMeans` | tools/ioemu-qemu-xen/aes.c:860-882 | Td of Te4 is InvMixColumns, the S-boxes cancel |
| `AesCipher.Encrypt` | tools/ioemu-qemu-xen/aes.c:891-1076 | two rounds per iteration on four words compute the cipher of section 5.1 of FIPS-197, also when input and output overlap; other bytes stay |
| `AesCipher.Decrypt` | tools/ioemu-qemu-xen/aes.c:1082-1267 | likewise for the equivalent inverse cipher of section 5.3.5 |
| `AesCipher.InvertSchedule` | tools/ioemu-qemu-xen/aes.c:850-882 | the in-place reversal and mixing turns an encryption schedule into the decryption schedule |
| `AesCipher.BlockRoundTrip` | tools/ioemu-qemu-xen/aes.c:891-1267 | decryption undoes encryption for every block and all round keys |
| `AesKeys.SetEncryptKey` | tools/ioemu-qemu-xen/aes.c:737-833 | the three loops fill the schedule of section 5.2 of FIPS-197 for 128, 192 and 256 bits; other sizes are refused and nothing is written |
| `AesKeys.Expand256` | tools/ioemu-qemu-xen/aes.c:803-831 | the 256-bit loop, with its extra substitution in the middle of each group |
| `AesKeys.SetDecryptKey` | tools/ioemu-qemu-xen/aes.c:838-883 | the decryption schedule of the expanded key |
| `AesKeys.RconListed` | tools/ioemu-qemu-xen/aes.c:728-732 | the listed round constants are the powers of x |
| `AesKeys.SetKey` | tools/ioemu-qemu-xen/block-qcow2.c:302-322 | a password of any length gives matching schedules |
| `AesCbc.CbcEncrypt` | tools/ioemu-qemu-xen/aes.c:1282-1300 | the loop computes CBC for every length, also when the output overlaps the input at or before its place, and leaves the last ciphertext block as chaining value |
| `AesCbc.CbcDecrypt` | tools/ioemu-qemu-xen/aes.c:1301-1318 | the loop computes CBC decryption for every length, with the same overlaps; after a block that is not full the chaining value is the decrypted block |
| `AesCbc.CbcRoundTrip` | tools/ioemu-qemu-xen/aes.c:1271-1320 | decryption undoes encryption for every length, a partial last block included, and every initial value |
| `BuddyBitmap.MapAlloc` | extras/mini-os/mm.c:72-91 | exactly the bits of the run are set, for every start, length and word boundary |
| `BuddyBitmap.MapFree` | extras/mini-os/mm.c:94-113 | exactly the bits of the run are cleared |
| `BuddyBitmap.AllocatedInMap` | extras/mini-os/mm.c:60-61 | the mask test reads the page's bit |
| `BuddyBlocks.AddMaximal` | extras/mini-os/mm.c:281-296 | freeing a block whose sibling is not free adds that block, and only it, to the maximal free blocks; backwards, allocating a maximal block removes only it |
| `BuddyBlocks.MaximalDisjoint` | extras/mini-os/mm.c:200-254 | maximal free blocks do not overlap |
| `BuddyBlocks.Climb` | extras/mini-os/mm.c:258-275 | every free block lies in a maximal one |
| `BuddyLists.PushedLinked` | extras/mini-os/mm.c:285-297 | linking a chunk at a head keeps all lists well linked |
| `BuddyLists.DroppedLinked` | extras/mini-os/mm.c:344-347 | unlinking through pprev removes exactly that chunk |
| `BuddyAllocator.HeadOfChunk` | extras/mini-os/mm.c:324-342 | when the sibling's first page is free it is the head of a real chunk, so its level can be trusted |
| `BuddyAllocator.MergeTest` | extras/mini-os/mm.c:324-342 | bit clear and level equal if and only if the sibling is a free chunk of that order, if and only if the sibling block is free |
| `BuddyAllocator.FamilyDetermined` | extras/mini-os/mm.c:200-362 | the chunks on the lists are determined by the set of free pages |
| `BuddyAllocator.LargestChunk` | extras/mini-os/mm.c:235-237 | the largest order that alignment and the remaining range allow |
| `BuddyAllocator.GreedyStep` | extras/mini-os/mm.c:229-253 | handing over chunks greedily never completes a sibling pair |
| `BuddyAllocator.MapReaches` | extras/mini-os/mm.c:215-218 | the bitmap has the word that the initial map_free touches last if and only if the page count modulo 32768 is at least 8 |
| `BuddyAllocator.MapTooShort` | extras/mini-os/mm.c:215-226 | with 32768 pages, 128 MB, it does not |
| `BuddyAllocator.PageAllocator.constructor` | extras/mini-os/mm.c:200-254 | the greedy decomposition is the family of maximal blocks of the memory taken over, whatever the pages hold |
| `BuddyAllocator.PageAllocator.AllocPages` | extras/mini-os/mm.c:258-306 | fails if and only if no aligned run of 2^order free pages exists; otherwise takes a run out of the smallest sufficient chunk, and exactly its pages are no longer free |
| `BuddyAllocator.PageAllocator.FreePages` | extras/mini-os/mm.c:308-362 | exactly the pages given back become free, and the lists are again the maximal blocks |
| `BuddyAllocator.PageAllocator.Scribble` | extras/mini-os/mm.c:308-342 | writing anything over allocated pages, forged headers included, does no harm |
| `BuddyAllocator.PageAllocator.SanityCheck` | extras/mini-os/mm.c:428-443 | the self-check passes in every valid state |
| `BuddyRuns.Run` | extras/mini-os/mm.c:258-362 | over every run of requests, returns and writes: runs handed out are aligned and disjoint, free pages are the initial ones less those, and once all is returned, in any order, the chunks are the initial ones |
| `FsRing.AlwaysHolds` | extras/mini-os/fs-front.c:83-138 | in every interleaving of frontend threads, handler and backend: indices ordered and inside one window of the ring size, tokens conserved, each reserved index owned once, unread requests and untaken responses intact, every recognised request answered once or under way |
| `FsRing.StepKeeps` | extras/mini-os/fs-front.c:107-138 | each single step keeps all of that |
| `FsRing.OrderedKept` | tools/fs-back/fs-backend.c:134-184 | rsp_cons <= rsp_prod <= rsp_prod_pvt <= req_cons <= req_prod <= req_prod_pvt, within the ring size of what was taken |
| `FsRing.RespondIntact` | tools/fs-back/fs-ops.c:83-93 | a response overwrites neither an unread request nor an untaken response |
| `FsRing.FillIntact` | extras/mini-os/fs-front.c:83-105 | a request overwrites neither |
| `FsRing.FreeIdExists` | tools/fs-back/fs-ops.c:26-35 | when the backend faces a request its free list is not empty, and the slot holds the committed request |
| `FsRing.CompleteAccounted` | tools/fs-back/fs-backend.c:19-42 | a completed request is answered once, and its id is free again |
| `FsRing.DeferAccounted` | tools/fs-back/fs-ops.c:26-35 | a deferred request takes a free id and is under way once |
| `FsRing.AssertHolds` | extras/mini-os/fs-front.c:113-118 | while the handler is not in the middle of its loop the free-slot assertion holds, even for a stale index |
| `FsRing.AssertExactly` | extras/mini-os/fs-front.c:113-118 | for the index that a thread has looked at, stale or not, it holds unless the tokens given back ahead of rsp_cons are exactly as many as those not yet turned into indices plus the indices reserved since |
| `FsRing.AssertCanFail` | extras/mini-os/fs-front.c:844-867 | a run in which a thread runs in the middle of the handler and the assertion fails |
| `FsRing.AddId` | tools/fs-back/fs-backend.h:78-82 | pushes an id onto the chain kept inside the array |
| `FsRing.GetId` | tools/fs-back/fs-backend.h:84-89 | pops the head of the chain |
| `FsRing.AllocateRequestArray` | tools/fs-back/fs-backend.c:106-123 | chains all ids, for every table size |
| `FsRing.Mount` | extras/mini-os/fs-front.c:1040-1051 | both ends start in a state from which the invariant holds |
| `FsRing.WindowsAgree` | extras/mini-os/fs-front.c:117-118 | 32-bit index comparisons inside the window agree with unbounded ones |
| `EventChannels.NoLostEvent` | extras/mini-os/hypervisor.c:38-115 | under every interleaving of notifications, masking, unmasking and the callback, split at each shared access: once quiet, no unmasked port is pending and every notification has had its own handler run or was dropped by unbinding |
| `EventChannels.StepKeeps` | xen/common/event_channel.c:534-553 | each single step keeps: an unmasked pending port is led to by selector, callback or somebody under way; a selector bit by the flag or somebody under way |
| `EventChannels.CountedKept` | extras/mini-os/events.c:68-87 | notifications are pending, handled or dropped, none twice |
| `EventChannels.ZeroedExactly` | extras/mini-os/events.c:61-62 | zeroing selector and flag loses no event if and only if no unmasked port is pending |
| `EventChannels.ZeroedLoses` | extras/mini-os/events.c:46-62 | a reachable state in which it loses one |
| `EventDelivery.SharedInfo.DoHypervisorCallback` | extras/mini-os/hypervisor.c:38-71 | with remote parties taking steps between any two accesses, and handlers masking, unmasking and clearing: no event is lost, the loops end, and if nothing else happens the flag is down |
| `EventDelivery.SharedInfo.ForceEvtchnCallback` | extras/mini-os/hypervisor.c:73-88 | ends for finitely many happenings; at the moment when the flag is found down every due port is in the care of a remote party under way, and if nothing else happens no unmasked port is pending; the upcall mask is restored |
| `EventDelivery.SharedInfo.UnmaskEvtchn` | extras/mini-os/hypervisor.c:96-115 | no event is lost whatever happens between its accesses; if nothing else happens, callbacks are not held off and no flag was outstanding, nothing is due afterwards |
| `EventDelivery.SharedInfo.DoEvent` | extras/mini-os/events.c:68-87 | the bit is cleared before the handler runs, the run is counted, and a notification in between is kept |
| `EventDelivery.SharedInfo.Meanwhile` | xen/common/event_channel.c:534-570 | steps of remote notifications, split at each access, only raise bits and the flag and lose no event |
| `EventDelivery.SharedInfo.UnbindAllPorts` | extras/mini-os/events.c:39-63 | no event is lost if and only if every unmasked pending port is one of those unbound or in the care of a party under way |
| `BlkPoll.Ring.AioPoll` | extras/mini-os/blkfront.c:428-495 | every response is processed exactly once and in order, rsp_cons never moves back, and all responses that were there are taken, though callbacks re-enter the poll to any depth and the backend moves between any two accesses; a response left unread has its event sent or about to be sent |
| `BlkPoll.Ring.Pass` | extras/mini-os/blkfront.c:443-487 | one pass stops when a nested poll has gone further, and takes something if there was something |
| `BlkPoll.Ring.FinalCheck` | xen/include/public/io/ring.h:289-295 | either there are responses, or the event is asked for and none that comes later stays unannounced |
| `BlkSegments.Segments` | extras/mini-os/blkfront.c:300-334 | the segments of a request cover exactly the sectors of its buffer, also for an empty request off a page boundary |
| `BlkSegments.SomeSegment` | extras/mini-os/blkfront.c:300-305 | a request has a segment if and only if it has a sector or does not start on a page boundary |
| `BlkSegments.NoSegment` | extras/mini-os/blkfront.c:300-334 | an empty request on a page boundary has no segment whose end could be set |
| `Scheduler.BoundedWaiting` | extras/mini-os/sched.c:75-125 | a thread that stays ready at place p is picked within p + 1 calls, whatever others do |
| `Scheduler.StepForward` | extras/mini-os/sched.c:93-125 | no operation of others moves a ready thread back; each call picks it or moves it up |
| `Scheduler.OpKeepsValid` | extras/mini-os/sched.c:143-222 | threads stay on the list once, and an exited thread is never picked |
| `Scheduler.RunQueue.Scan` | extras/mini-os/sched.c:93-120 | picks the first runnable or expired thread and puts it last; if there is none, the wait ends no later than the next timeout |
| `Scheduler.RunQueue.Pick` | extras/mini-os/sched.c:93-141 | with a ready thread on the list, one scan picks the first one; the picked thread is runnable and goes to the end, the others keep their order, and exited threads are freed unless the picked one has never run |

## Findings

Where the code does not meet a property on all inputs, the model keeps the code
and states exactly when it does.

| property | source | exact condition | failing input |
|---|---|---|---|
| no cluster stays counted without a reference | tools/ioemu-qemu-xen/block-qcow2.c:1640-1650 | `QcowFlat.KeepsAll`: no goto leaves part of the L1 area behind | `QcowFlat.ClustersGetLost`; its write lies past the end of a disk as qcow_create sizes it, where the block layer refuses it (tools/ioemu-qemu-xen/block.c:614) and qcow_write itself does not; an image opened with snapshots of other L1 lengths gets there without it |
| counts stay exact when a snapshot is taken or gone to | tools/ioemu-qemu-xen/block-qcow2.c:1316-1350 | `QcowDriver.QcowDisk.Perform`: `RoomFor`, that is `ActiveRoom` for `Create` and `SwapRoom` for `Goto`; a refused count is ignored by the pass | `QcowSession.ExhaustCounts` |
| the bitmap has a word for the end of memory | extras/mini-os/mm.c:215-226 | `BuddyAllocator.MapReaches`: pages modulo 32768 at least 8 | `BuddyAllocator.MapTooShort` |
| the free-slot assertion of the ring | extras/mini-os/fs-front.c:113-118 | `FsRing.AssertExactly`; it always holds while the handler is atomic (`AssertHolds`) | `FsRing.AssertCanFail` |
| shutting down all ports loses no event | extras/mini-os/events.c:39-63 | `EventDelivery.SharedInfo.UnbindAllPorts`, `EventChannels.ZeroedExactly` | `EventChannels.ZeroedLoses` |
| a snapshot without an id is never refused | tools/ioemu-qemu-xen/block-qcow2.c:1511-1525 | `QcowFlat.UnnamedRefused` | `QcowFlat.NumbersRunOut` |
| every cluster counts its compressed blobs | tools/ioemu-qemu-xen/block-qcow2.c:1844-1880 | `QcowBytes.ByteAllocator.AllocBytes` | `QcowBytes.OverfillCluster` |
| a block request has a last segment | extras/mini-os/blkfront.c:300-334 | `BlkSegments.SomeSegment`: a sector, or a start off a page boundary | `BlkSegments.NoSegment` |

The growth loop of grow_l1_table does not end for an L1 table of length 0
(tools/ioemu-qemu-xen/block-qcow2.c:439-441); opening
refuses such an image (tools/ioemu-qemu-xen/block-qcow2.c:214-247), so the model
starts from tables that are not empty.  The result of blkfront_aio_poll
counts its last pass only (extras/mini-os/blkfront.c:449-494).

## Left out

- Refcount table and refcount block growth: counts are a map without bound, so that a run never needs a new block.
- Compressed clusters inside the disk model: `QcowBytes` and `QcowDescriptor` treat their allocation and their entries apart, reads and writes of them are not in the refinement.
- zlib compression and decompression: foreign code.
- I/O errors and out-of-memory paths of the QCOW2 driver: the host file is a total map.
- The asynchronous QCOW2 callbacks: the same logic as the synchronous path, cut into pieces by the AIO library.
- Reopening an image: what a later open reads back after a goto that changed the L1 length is not modelled.
- Snapshot directory bytes: the directory keeps its contents and its size in clusters, not its serialisation; dates, clocks and VM state sizes are absent.
- The L2 cache as a flat array: slots are sequences that are reassigned.
- QcowDriver.QcowDisk.Run: there are at most 65533 snapshots when an operation starts (`FewCopies`), for beyond it a run may reach an image with wrong counts, of which nothing is said; the exact condition, for one operation at a time, is in `Perform`, and `ExhaustCounts` shows that the bound cannot be raised.
- QcowSession.Session: likewise, and the run stays within the one refcount block of a new image.
- QcowIds.NewId: the sum INT_MAX + 1 wraps around, as compilers of the time made it; the C standard leaves it undefined.
- AES table literals: the tables are defined by the identities in the source's comment.
- AES_set_encrypt_key and AES_set_decrypt_key given null pointers.
- AesCbc.CbcEncrypt: the chaining vector is a buffer of its own, and the output does not begin inside the input behind its start, where it would overwrite what is still to be read.
- AesCbc.CbcDecrypt: likewise.
- QcowCrypt.EncryptSectors: likewise for the output.
- The `level` word at the end of each free chunk: it is written and never read.
- QcowDriver.QcowDisk.constructor: an L1 table of length 0, which qcow_open refuses.
- BuddyAllocator.PageAllocator.constructor: memory whose page count modulo 32768 is below 8, for the code then writes past its bitmap; memory too small to hold its bitmap.
- BuddyAllocator.PageAllocator.AllocPages: orders above 52, for the code then indexes past its list heads.
- The frontend's private request ids and what the file operations do: only ring indices, slots and the backend's table are modelled.
- Memory ordering: steps are interleaved, barriers are taken to do their work.
- Event channels on several virtual CPUs, polling vCPUs and bind operations: mini-os runs on one.
- Context switching, stacks and the freeing of exited threads' memory: exited threads are reaped as a list.
- create_thread, exit_thread and msleep as methods of the run queue: they appear as operations of `Scheduler.Do`.
- lwip mailboxes, grant tables, netfront, xenbus, console and the other image formats: plumbing or standard free lists.
