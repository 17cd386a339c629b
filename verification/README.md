# A model of the default pager, the boot file systems and the Minix image builder

This project models three parts of the MK microkernel source tree and proves properties of the models.

**The default pager.** Paging segments with a bitmap, a search hint and a reserve-then-commit free count
(`Segment.dfy`, `PagingSpace.dfy`); cluster maps in their direct and two-level layout, page in, page unmapping,
allocation and write completion (`ClusterMap.dfy`, `Vstruct.dfy`, `MapOwnership.dfy`, `Pagein.dfy`); the request
protocol with sequence numbers, condition waits and asynchronous completions (`Protocol.dfy`); one memory object end
to end with the kernel and the device (`PageStore.dfy`, `PageStoreProof.dfy`), any number of objects
(`PagerSystem.dfy`), what the kernel hears from them (`Replies.dfy`) and how soon they come to rest
(`StoreDrain.dfy`); who owns a cluster when writes can fail (`Ownership.dfy`) and what a failed write does to the
other pages of its cluster (`FailedWrites.dfy`, `FailedRuns.dfy`); where a page lies on the device (`Physical.dfy`);
and the pager's `kalloc` (`Kalloc.dfy`).

**The readers for ext2 and Minix.** The index tree with its caches (`BlockMap.dfy`, `FileReader.dfy`) and as it is
laid out in bytes on a disk (`IndexTree.dfy`), symbolic links and the name buffer (`PathWalk.dfy`), Minix inodes,
directories and paths (`Minix.dfy`).

**`tools/mkminix.py`.** The image, the allocators, files and directories (`ImageBytes.dfy`, `MinixLayout.dfy`,
`MinixDirs.dfy`, `MkMinix.dfy`, `MinixBuild.dfy`) and the lines of bootstrap.conf (`BootConf.dfy`), up to the theorem
that the reader gives back what the builder was given.

Code that updates state in place is modelled by classes and methods proved against functions of the old state.
What several threads do at once (the request protocol, the page store, cluster ownership, `kalloc`) is modelled as a
state machine whose actions are the critical sections of the source; a run is an arbitrary interleaving.

`dafny verify dfyconfig.toml` checks the whole project.

## Conventions

- Offsets and sizes inside a memory object are counted in pages. A bit field of a map entry is the set of its one bits.
- Memory from `kalloc` has arbitrary contents (`garbage`), and whether an allocation succeeds is a parameter.
- `ps_clunmap` and `ps_vstruct_dealloc` give a cluster back before they clear the entry that names it, under the map
  lock. In module Ownership these are separate steps; an entry in between is stale, and an entry of another object can
  name the same cluster by then (`Ownership.StaleRun`). In module PageStore unmapping is one step.
- A comment in `ps_clmap` says that a failed write gives the cluster back only if it holds no valid pages. The code
  gives it back whatever pages are valid, and the model follows the code. `FailedRuns.FailedWriteRun` is a run in
  which a cluster with a valid page goes to another object while a third write still goes to it.
  `FailedWrites.ValidGivenBack` says exactly when a cluster is given back with a valid page.
- The kernel gets the pages of a failed write back before the failure is recorded, with no lock held in between, and
  may send them out again at once. `FailedRuns.ResentRun` is a run in which a write that is alone in its cluster fails
  and still another write goes to that cluster afterwards. `FailedWrites.UsedGivenBack` says exactly when a cluster is
  given back with a page that is valid or has an outstanding write, and `FailedWrites.LateExactly` exactly when an
  outstanding write names a cluster that its entry no longer owns. Module PageStore has no failed writes, and
  `PagerSystem.StepSlotSafe` depends on that.
- These theorems are over tidy runs: a page given to `ps_clmap` is not valid, and the only writes of it under way are
  ones that have failed and given it back; a page is unmapped only if it is valid and has no outstanding write; an
  object is destroyed when its writes are done. `FailedWrites.KernelRunsTidy` derives the first condition, failed writes
  included, from the kernel paging out only pages it holds. The other two are what `Protocol.NoStaleReads` gives:
  reads and terminations wait for earlier writes.
- `ps_clunmap` does not look whether an entry is in error. A reader that has found a page valid gives up the map lock
  while it reads the device, and meanwhile a failed write can put the entry in error; `ps_clunmap` then takes the error
  number for a cluster number. `FailedRuns.ErrorUnmapExact` says exactly when this does harm, and
  `FailedRuns.ErrorUnmapRun` is a run that leads to it. The other theorems exclude such calls.
- The segment scan skips only priorities without segments. Started from a cursor that says "full" it looks in front of
  the table and cannot give up (`PagingSpaces.FullScan`). With several segments a selection therefore requires
  `ScanReady`: every full priority has room at a higher one. `PagingSpaces.ScanReadyExact` shows that this is exactly
  when the search never comes to a full cursor; `PagingSpaces.NothingLeft` and `PagingSpaces.UseUp` show that a
  selection that finds nothing leaves the table in a state without it, and `PagingSpaces.FreeMakesReady` and
  `PagingSpaces.AddMakesReady` when giving a cluster back or adding a segment leads out of it.
- The kernel asks only for pages it does not hold and has not asked for, and pages out only pages it holds.
- Device reads and writes are whole, and the device record size divides the block size.
- A component may have one character more than the limit of the file system, because the length is compared before it
  is counted (`PathWalk.BadNameExact`); in Minix such a name is looked for and never found (`MinixFs.LongComponent`).
  An ext2 link with an empty text, followed by more path, continues at the root (`PathWalk.EmptyLinkBreaks`).
- Reading straight into the caller's buffer, the Minix reader does not recognise holes and would deliver block 0
  (`FileReaders.DirectIsFile`); mkminix never makes holes.
- mkminix keeps each directory in one zone and does not check that it fits, which it does for at most 61 files; with
  more it writes over the first data zone (`MinixBuild.DirectoryOverruns`, `MinixBuild.OverrunUnreadable`).

## Model

| member | source | states |
|---|---|---|
| Protocol.NoStaleReads | osfmk/src/default_pager/dp_memory_object.c:89-235 | in every interleaving, once a data_request or terminate with number r is admitted, every write with a smaller number has finished and has no device write outstanding; a terminate has also outlasted earlier reads |
| Protocol.CountersExact | osfmk/src/default_pager/dp_memory_object.c:107-235 | vs_readers, vs_writers and vs_async_pending equal the reads and writes in progress and the bytes outstanding, in every reachable state |
| Protocol.AdmittedInOrder | osfmk/src/default_pager/dp_memory_object.c:135-150 | a request passes its waits only when its number is vs_seqno, and vs_seqno moves only by that, one at a time |
| Protocol.Progress | osfmk/src/default_pager/dp_memory_object.c:135-235 | a reachable state with unfinished work always has an action that can happen without a new request |
| Protocol.MaximalRunsQuiesce | osfmk/src/default_pager/dp_memory_object.c:534-598 | a run that cannot go on without a new request has answered every request, accounted for every device write and delivered every wake-up |
| Protocol.Drains | osfmk/src/default_pager/dp_memory_object.c:135-235 | without new requests at most Bound(s) actions can happen, whatever the scheduler does |
| Protocol.StepKeeps | osfmk/src/default_pager/dp_memory_object.c:658-689 | every critical section of read, write, terminate, completion and wake-up keeps the protocol invariant |
| Protocol.Shrinks | osfmk/src/default_pager/dp_memory_object.c:842-889 | every action but an arrival lowers the measure (work left, wake-ups pending, threads awake) |
| PageStoreProof.StepKeeps | osfmk/src/default_pager/dp_backing_store.c:1371-1649 | every step of pageout, completion and pagein keeps the invariant that ties kernel, requests, map bits, clusters and device contents together |
| PageStoreProof.LandElsewhere | osfmk/src/default_pager/dp_backing_store.c:2261-2347 | a device write changes no slot of a page outside its own chunk |
| PageStoreProof.UnmapKeeps | osfmk/src/default_pager/dp_backing_store.c:1583-1649 | unmapping supplied pages never gives back a cluster with a valid page or a write in flight, and disturbs no other request |
| PageStoreProof.MarkKeeps | osfmk/src/default_pager/dp_backing_store.c:1654-1676 | setting the valid bits of a completed write makes exactly its pages readable, with the data that landed |
| PageStoreProof.IssueEnabled | osfmk/src/default_pager/dp_backing_store.c:2294-2334 | the protocol always lets a write body issue the chunk it has mapped |
| PageStoreProof.ReaderSees | osfmk/src/default_pager/dp_backing_store.c:2051-2110 | a page the reader finds valid, or finds missing, is stored, or absent, in the plain page map |
| PageStoreProof.FetchPage | osfmk/src/default_pager/dp_backing_store.c:2160-2170 | reading the slots of a found run gives the stored contents of its pages |
| PageStoreProof.MapsNewPages | osfmk/src/default_pager/dp_backing_store.c:2289-2298 | the pages a write is about to map are neither valid nor being written |
| PageStoreProof.UnmapsValidPages | osfmk/src/default_pager/dp_backing_store.c:2040-2042 | only valid pages are unmapped |
| PageStoreProof.StoreProgress | osfmk/src/default_pager/dp_backing_store.c:2051-2347 | an object with unfinished requests or device writes has a step of the pager or the device that can happen, as long as a cluster is free |
| PagerSystem.EnvKeeps | osfmk/src/default_pager/dp_backing_store.c:1094-1197 | what other objects do to clusters and slots an object does not own keeps the invariant of that object |
| PagerSystem.StepHarmless | osfmk/src/default_pager/dp_backing_store.c:1094-1197 | a step of an object takes only free clusters and releases only its own |
| PagerSystem.StepSlotSafe | osfmk/src/default_pager/dp_backing_store.c:1927-2010 | a step of an object writes only device slots of clusters it owns |
| PagerSystem.RunKeeps | osfmk/src/default_pager/dp_backing_store.c:1214-1257 | over every run of creations, destructions and steps of any number of objects the invariants hold and no cluster is owned twice |
| PagerSystem.UsedIsOwned | osfmk/src/default_pager/dp_backing_store.c:1094-1257 | over every run: a cluster is allocated exactly if the map of some object names it, so none is lost by page in, page out or the end of an object |
| PagerSystem.PageBitDiscipline | osfmk/src/default_pager/dp_backing_store.c:1617-1646 | over every run: valid pages are allocated pages, and unmapping gives a cluster back exactly when its last allocated page goes, never with a write to it in flight |
| PagerSystem.StoreIsLatest | osfmk/src/default_pager/dp_backing_store.c:2017-2048 | the page map of an object is, page by page, what the history of data_returns and supplies says |
| PagerSystem.SuppliesLatest | osfmk/src/default_pager/dp_backing_store.c:2017-2048 | in every run of any number of objects, the data supplied for a page is that of the latest data_return of the page |
| PagerSystem.UnavailableIsAbsent | osfmk/src/default_pager/dp_backing_store.c:2078-2150 | a page is reported unavailable only if it was never paged out or was supplied back since |
| PagerReplies.AllAnswered | osfmk/src/default_pager/dp_backing_store.c:2051-2257 | over every run: when a data_request finishes, the pages named by the replies to it are lo, lo + 1, ..., hi - 1 of the range it asked for, in this order and each once |
| PagerReplies.NamedSoFar | osfmk/src/default_pager/dp_backing_store.c:2078-2257 | over every run: a data_request that is under way has been told about exactly the pages in front of the one it is at |
| PagerReplies.KernelSees | osfmk/src/default_pager/dp_backing_store.c:2017-2048 | over every run: the kernel holds exactly the pages it was created with or was last told about in a reply, and has not paged out or dropped since, and waits for exactly those it asked for since |
| PagerReplies.KernelMayAct | osfmk/src/default_pager/dp_backing_store.c:2017-2347 | over every run: the kernel can page out exactly the pages it holds by that history, and ask exactly for those it neither holds nor waits for |
| PagerReplies.RunsAreLongest | osfmk/src/default_pager/dp_backing_store.c:2115-2140 | over every run: a lookup takes all pages up to the end of the request, the end of the cluster or the first page whose valid bit differs |
| PagerSystem.NeverStuck | osfmk/src/default_pager/dp_backing_store.c:2051-2347 | in every run of any number of objects, an object with unfinished work can go on without the kernel while a cluster is free |
| StoreDrain.StoreShrinks | osfmk/src/default_pager/dp_backing_store.c:2051-2347 | every step of the pager or the device lowers the bound on the steps of an object |
| StoreDrain.SysDrains | osfmk/src/default_pager/dp_backing_store.c:2051-2347 | in every run of any number of objects, whatever the scheduler does, the steps that can happen in a row without the kernel are bounded |
| StoreDrain.SysSettles | osfmk/src/default_pager/dp_backing_store.c:2051-2347 | when they are over and a cluster is free, every request of every object has finished and no device write is outstanding; a data_request that finishes has been answered page by page (PagerReplies.AllAnswered) |
| Ownership.ClusterOwnership | osfmk/src/default_pager/dp_backing_store.c:1461-1649 | in every reachable state, with write errors and with the steps of ps_clunmap and ps_vstruct_dealloc apart: two entries that are not stale never name one cluster, the bit of a cluster they name is set and no thread is about to store or free it; every entry with an allocated page of an object not being destroyed is of this kind, and so is every live entry of an unlocked map |
| Ownership.StaleRun | osfmk/src/default_pager/dp_backing_store.c:1641-1645 | from every initial state with a usable segment a run leads to two live entries that name one cluster, one of them stale |
| Ownership.Accounts | osfmk/src/default_pager/dp_backing_store.c:1021-1186 | in every reachable state clusters_committed is the total size of the live objects, and free count and reservations of a segment add up to its clear bits |
| Ownership.LostExactly | osfmk/src/default_pager/dp_backing_store.c:1541-1563 | a set bit belongs to no entry that is not stale and to no allocation or release in flight if and only if a write failed before on an entry naming that cluster and its number is 0 |
| Ownership.LostRun | osfmk/src/default_pager/dp_backing_store.c:1541-1563 | from every initial state with a usable segment a run leads to such a cluster |
| Ownership.DestroyOwn | osfmk/src/default_pager/dp_backing_store.c:1201-1211 | a step of ps_dealloc_vsmap clears the bit of exactly the cluster its entry owns and changes no map |
| Ownership.DestroyAll | osfmk/src/default_pager/dp_backing_store.c:1214-1257 | until a map is freed nobody else touches it, and by then every entry has had its step |
| Ownership.StepMoves | osfmk/src/default_pager/dp_backing_store.c:1371-1649 | every step hands a cluster from at most one owner to at most one other, setting or clearing its bit accordingly |
| Ownership.StepKeeps | osfmk/src/default_pager/dp_backing_store.c:1021-1186 | every step keeps bitmaps, counts, reservations, ownership, entry bits and the commit total |
| FailedRuns.FailedWriteRun | osfmk/src/default_pager/dp_backing_store.c:1541-1563 | from every initial state with a segment of two clusters a run leads to an entry in error with a valid bit set whose cluster belongs to another object, and to which a third write is still going |
| FailedRuns.ResentRun | osfmk/src/default_pager/dp_backing_store.c:1699-1721 | from every such state a run in which a write fails whose pages are all that is allocated, after its page was sent out again, and the second write goes to a cluster of another object |
| FailedWrites.ValidGivenBack | osfmk/src/default_pager/dp_backing_store.c:1541-1563 | in every run: a failed write gives back a cluster with a valid page, the bit staying set, if and only if its entry names a cluster other than 0 and has a valid page |
| FailedWrites.UsedGivenBack | osfmk/src/default_pager/dp_backing_store.c:1541-1563 | in every tidy run: the cluster given back still has a valid page or a page of another outstanding write if and only if it is not cluster 0 and either not all allocated pages are those of the failed write or one of its pages was also sent out in another write while it was outstanding |
| FailedWrites.ResentExactly | osfmk/src/default_pager/dp_backing_store.c:1699-1721 | in every tidy run: a page of an outstanding write is valid, or has another outstanding write, if and only if it was sent out twice while the write was outstanding |
| FailedWrites.LateExactly | osfmk/src/default_pager/dp_backing_store.c:1541-1563 | in every tidy run: an outstanding write names a cluster that its entry no longer owns, other than a dropped cluster 0, if and only if a failed write of the entry gave the cluster back meanwhile |
| FailedWrites.NotLateIsSafe | osfmk/src/default_pager/dp_backing_store.c:1541-1563 | any other outstanding write goes to a cluster that no other entry owns |
| FailedWrites.LoneFailuresSafe | osfmk/src/default_pager/dp_backing_store.c:1541-1563 | in every tidy run: if every failed write is alone in its cluster with none of its pages sent out twice, or the cluster is cluster 0, no outstanding write names a cluster its entry does not own |
| FailedWrites.WritesKept | osfmk/src/default_pager/dp_backing_store.c:1371-1649 | in every tidy run: while its entry is not in error a write goes to the cluster of the entry and its pages are allocated; those of a write not sent back are not valid and in no other such write; every allocated page is valid or has an outstanding write |
| FailedWrites.KernelRunsTidy | osfmk/src/default_pager/dp_backing_store.c:1699-1721 | runs in which the kernel pages out only pages it holds, and gets pages from failed writes and from replies that hand out only pages neither valid nor being written, give ps_clmap only new pages |
| FailedRuns.ErrorUnmapExact | osfmk/src/default_pager/dp_backing_store.c:1608-1645 | unmapping pages of an entry in error keeps ownership and counts sound if and only if an allocated page is left |
| FailedRuns.ErrorUnmapClears | osfmk/src/default_pager/dp_backing_store.c:1641-1645 | it clears the bit of a cluster exactly if no allocated page is left and the error number is the number of that cluster, and changes no owner |
| FailedRuns.ErrorUnmapRun | osfmk/src/default_pager/dp_backing_store.c:2340-2345 | from every initial state with a segment of two clusters a run leads to an unmapping that clears the bit of a cluster of another object |
| Segments.ReserveThenCommit | osfmk/src/default_pager/dp_backing_store.c:1021-1156 | in every interleaving clear bits = free count + reservations, bytes below the hint are full, and a reservation guarantees a free cluster |
| Segments.FindCluster | osfmk/src/default_pager/dp_backing_store.c:1130-1152 | the scan from the hint finds the lowest clear cluster of the whole bitmap, below ps_ncls in spite of undefined tail bits |
| Segments.ReservedIsThere | osfmk/src/default_pager/dp_backing_store.c:1021-1033 | while a reservation is held there is a lowest clear cluster |
| Segments.ClearBitmap | osfmk/src/default_pager/dp_backing_store.c:731-739 | exactly the bits of the clusters are cleared, the tail is left as it was |
| Segments.CommitKeeps | osfmk/src/default_pager/dp_backing_store.c:1135-1152 | taking the lowest clear bit moves the hint soundly and uses up one reservation |
| Segments.ReleaseKeeps | osfmk/src/default_pager/dp_backing_store.c:1160-1186 | giving a cluster back keeps the count and the hint sound |
| Segments.HintLargest | osfmk/src/default_pager/dp_backing_store.c:1135-1186 | the hint is as large as it can soundly be: after taking a cluster, and, up to the old hint, after giving one back |
| Segments.SetBit | osfmk/src/default_pager/default_pager_internal.h:234-239 | sets one bit of a byte and no other |
| Segments.ClrBit | osfmk/src/default_pager/default_pager_internal.h:234-239 | clears one bit of a byte and no other |
| PagingSpaces.PagingSpace.Scan | osfmk/src/default_pager/dp_backing_store.c:1050-1080 | the circular scan finds the first available slot behind the cursor, and none exactly if there is none |
| PagingSpaces.PagingSpace.SelectSegment | osfmk/src/default_pager/dp_backing_store.c:1002-1090 | whenever no full cursor is scanned: the highest priority with room is used, round robin, with exactly one reservation taken; a priority is marked full only if it has no available segment |
| PagingSpaces.SelectsHighest | osfmk/src/default_pager/dp_backing_store.c:1040-1090 | among several segments the one selected is not going away, has room and large enough clusters, and has the highest priority of those; nothing is selected only if there is none |
| PagingSpaces.FairRun | osfmk/src/default_pager/dp_backing_store.c:1043-1197 | over every run of selections, bits set, bits cleared and cursors reset, each a move of its own: while a segment has room, fewer selections than the probes it has to wait (at most the number of segments) pick another segment of its priority |
| PagingSpaces.ProbeCovers | osfmk/src/default_pager/dp_backing_store.c:1048-1084 | from a slot index the probes visit every slot once and come back to the start last, where the scan gives up |
| PagingSpaces.FullScan | osfmk/src/default_pager/dp_backing_store.c:1046-1084 | from a full cursor the first probe is slot -1, and no probe ever comes back to the start |
| PagingSpaces.ScanReadyExact | osfmk/src/default_pager/dp_backing_store.c:1040-1084 | every scan the search comes to starts inside the table if and only if a priority above each full one has room |
| PagingSpaces.NothingLeft | osfmk/src/default_pager/dp_backing_store.c:1075-1084 | a selection that finds nothing leaves every priority in use full, so the next one would start at slot -1 |
| PagingSpaces.FreeMakesReady | osfmk/src/default_pager/dp_backing_store.c:1188-1195 | after that, giving a cluster back makes selection safe if and only if no higher priority is in use |
| PagingSpaces.AddMakesReady | osfmk/src/default_pager/dp_backing_store.c:653-662 | after that, adding a segment makes selection safe if and only if its priority had no segments and no higher priority is in use |
| PagingSpaces.UseUp | osfmk/src/default_pager/dp_backing_store.c:1094-1156 | allocating from two segments of one priority until nothing is left uses every cluster with safe selections and ends with a full cursor |
| PagingSpaces.PagingSpace.AllocateCluster | osfmk/src/default_pager/dp_backing_store.c:1094-1156 | exactly one cluster, the lowest free one of the selected segment, becomes taken, and the cursors move as in the selection; failure changes no bit |
| PagingSpaces.PagingSpace.DeallocateCluster | osfmk/src/default_pager/dp_backing_store.c:1161-1197 | exactly that cluster becomes free, and a full priority is reset |
| PagingSpaces.PagingSpace.AddSegment | osfmk/src/default_pager/dp_backing_store.c:644-760 | as one step: succeeds exactly if memory is found, there is a slot and no overlap on the device; the new segment is all free |
| PagingSpaces.EnterBoth | osfmk/src/default_pager/dp_backing_store.c:691-748 | two segments that both passed the overlap check on one table, as they can because the list lock is dropped in between, can be entered if and only if they do not overlap each other |
| PagingSpaces.UpdateKeeps | osfmk/src/default_pager/dp_backing_store.c:1002-1197 | changing bitmap, count and hint of one segment keeps the table sound |
| PagingSpaces.EnterKeeps | osfmk/src/default_pager/dp_backing_store.c:644-670 | entering a segment keeps slots, cursors and disjointness |
| Physical.RecordsDisjoint | osfmk/src/default_pager/dp_backing_store.c:1871-1872 | no device record belongs to two (segment, cluster, page) triples, and every record of a page lies inside its segment |
| Physical.InsideSegment | osfmk/src/default_pager/dp_backing_store.c:1943-1944 | the records of a page lie inside its segment |
| Physical.AllClusters | osfmk/src/default_pager/dp_backing_store.c:720-727 | a segment has exactly as many clusters as whole clusters fit in its records |
| Physical.RecordOfPage | osfmk/src/default_pager/dp_backing_store.c:1500-1506 | the shifts for pages, clusters and records compose to page number times records per page |
| Physical.AddrBytes | osfmk/src/default_pager/dp_backing_store.c:1505-1506 | the page address of a page of a cluster, times the page size, is the byte offset ps_clmap returns for it |
| Physical.AddrInjective | osfmk/src/default_pager/dp_backing_store.c:1500-1506 | two pages of a segment have the same address only if cluster and page are the same |
| Physical.SuppliedRecords | osfmk/src/default_pager/dp_backing_store.c:1865-1925 | every record of a supplied page is one of that page of its cluster in the sense of RecordsDisjoint |
| ClusterMaps.UnmapPages | osfmk/src/default_pager/dp_backing_store.c:1598-1646 | unmapping a range clears valid and allocated bits of exactly its pages, and an entry keeps its cluster exactly while a page is allocated |
| ClusterMaps.UnmapSplit | osfmk/src/default_pager/dp_backing_store.c:1598-1646 | pages of one cluster may be unmapped first, whether as a chunk or one by one |
| ClusterMaps.ChunkPages | osfmk/src/default_pager/dp_backing_store.c:1389-1389 | consecutive pages inside a cluster are exactly consecutive bits of one entry |
| Arith.QuotRem | osfmk/src/default_pager/dp_backing_store.c:1602-1602 | cluster number and page index are quotient and remainder |
| ClusterMaps.RunLength | osfmk/src/default_pager/dp_backing_store.c:2120-2140 | the longest prefix of pages that agree with the first one |
| ClusterMaps.Extended | osfmk/src/default_pager/dp_backing_store.c:1261-1368 | growing a map keeps every entry and makes the new ones clear |
| Vstructs.Vstruct.constructor | osfmk/src/default_pager/dp_backing_store.c:918-997 | a new object has clusters of 2^clshift pages and a clear map of the right size, and commits that many clusters |
| Vstructs.Layout | osfmk/src/default_pager/default_pager_internal.h:420-426 | maps of up to 64 clusters are direct, larger ones have just enough blocks |
| Vstructs.Create | osfmk/src/default_pager/dp_backing_store.c:918-997 | there is an object exactly if both allocations succeed, and otherwise nothing is committed |
| Vstructs.Vstruct.MapExtend | osfmk/src/default_pager/dp_backing_store.c:1261-1368 | direct to direct, direct to indirect and indirect to larger all act as growing the flat map; failure changes nothing; the commit total follows the size |
| Vstructs.Vstruct.NewTable | osfmk/src/default_pager/dp_backing_store.c:1275-1330 | the new table holds every old entry, direct or indirect |
| Vstructs.Vstruct.SetEntry | osfmk/src/default_pager/dp_backing_store.c:1449-1474 | storing through the entry pointer changes one entry of the flat map in either layout |
| Vstructs.Vstruct.Find | osfmk/src/default_pager/dp_backing_store.c:1371-1530 | lookup in either layout gives what the flat map says: the segment and the byte offset of the page in it, the pages up to the end of the cluster, and the valid bits shifted to the page asked for |
| Vstructs.Vstruct.Allocate | osfmk/src/default_pager/dp_backing_store.c:1371-1519 | CL_ALLOC grows the map, gives the entry the cluster it had or one that was free, marks exactly the pages in the cluster, and on failure takes no cluster; the cursors move exactly if the entry had no cluster; what it returns locates the page by its byte offset as Find does |
| Vstructs.Vstruct.Assign | osfmk/src/default_pager/dp_backing_store.c:1449-1519 | the entry part of CL_ALLOC with its error and no-space cases; what it returns locates the page by its byte offset |
| Vstructs.HereLocates | osfmk/src/default_pager/dp_backing_store.c:1500-1519 | a lookup result names the segment of the entry, the byte offset of the page in it, the pages up to the end of the cluster, and their valid bits |
| Vstructs.Vstruct.Reach | osfmk/src/default_pager/dp_backing_store.c:1396-1447 | the entry exists afterwards with its block, everything else unchanged, or an allocation failed |
| Vstructs.Vstruct.Finish | osfmk/src/default_pager/dp_backing_store.c:1532-1566 | a completed write makes its pages valid; a failed one puts the entry in error and gives the cluster back unless it is cluster 0; nothing is recorded in a missing block; ownership and page bits stay sound if and only if the pages of a successful write were allocated |
| Vstructs.FinishedAnswers | osfmk/src/default_pager/dp_backing_store.c:1541-1566 | after a successful write its pages are supplied from the cluster of the entry, after a failed one every page of the entry is answered with an error, and nothing else changes for readers |
| Vstructs.Vstruct.Clunmap | osfmk/src/default_pager/dp_backing_store.c:1583-1649 | the flat map is unmapped up to the end or the first missing block, and exactly the clusters no longer named are given back |
| Vstructs.Vstruct.UnmapCluster | osfmk/src/default_pager/dp_backing_store.c:1617-1646 | the pages of one cluster are unmapped and the cluster is given back exactly with its last allocated page |
| Vstructs.Vstruct.ClusterRead | osfmk/src/default_pager/dp_backing_store.c:2051-2257 | the replies cover every page once and in order, each as the map stood at the start; valid pages are gone afterwards, others untouched, and exactly the emptied clusters are given back |
| Vstructs.Vstruct.NextReply | osfmk/src/default_pager/dp_backing_store.c:2078-2160 | one reply tells the truth about a run of pages of one cluster, and the run is as long as it can be |
| Vstructs.Vstruct.CountRun | osfmk/src/default_pager/dp_backing_store.c:2115-2140 | counts the available or unavailable pages at the head of the range |
| Vstructs.Vstruct.Provide | osfmk/src/default_pager/dp_backing_store.c:2017-2048 | supplying valid pages of one cluster unmaps exactly them |
| Vstructs.Vstruct.Dealloc | osfmk/src/default_pager/dp_backing_store.c:1214-1257 | exactly the clusters the map names are given back, in either layout, and the commit is undone |
| Vstructs.DeallocMap | osfmk/src/default_pager/dp_backing_store.c:1199-1211 | exactly the clusters named by these entries are given back |
| Pageins.StillExpected | osfmk/src/default_pager/dp_backing_store.c:2078-2254 | although supplying a run unmaps pages and may free the cluster, the map keeps its original answers for the pages to come |
| Pageins.SupplyPages | osfmk/src/default_pager/dp_backing_store.c:2040-2042 | unmapping a supplied run removes exactly its pages |
| MapOwnership.DropOwned | osfmk/src/default_pager/dp_backing_store.c:1641-1645 | dropping an entry and freeing its cluster keeps ownership exact |
| MapOwnership.TakeOwned | osfmk/src/default_pager/dp_backing_store.c:1474-1488 | giving an entry a free cluster keeps ownership exact |
| Kalloc.ClassOf | osfmk/src/default_pager/kalloc.c:268-286 | the rounding loop finds the smallest block size that fits, inside the list array, and vm_allocate is used exactly otherwise |
| Kalloc.StepKeeps | osfmk/src/default_pager/kalloc.c:196-332 | every critical section keeps all invariants |
| Kalloc.LiveBlocksSafe | osfmk/src/default_pager/kalloc.c:196-332 | in every interleaving a live block overlaps no other live block, no free block and no unused space |
| Kalloc.FreeListsSound | osfmk/src/default_pager/kalloc.c:284-331 | free lists are acyclic, hold one size class, share no block, and their links survive whatever owners write into live blocks |
| Kalloc.SpaceConserved | osfmk/src/default_pager/kalloc.c:196-256 | incorporated space = live + free-listed + wasted + remaining |
| Kalloc.AllocatedIs | osfmk/src/default_pager/kalloc.c:196-332 | in every interleaving the blocks in use are those handed out and not freed since, and the threads in kget_space those that went there for want of room and have not come back |
| Kalloc.RoundPageExact | osfmk/src/default_pager/kalloc.c:207-207 | the space added is the smallest multiple of the page size that holds the request |
| Kalloc.GrowKeeps | osfmk/src/default_pager/kalloc.c:228-244 | taking in a region mapped without the lock, contiguous or not, is sound |
| Kalloc.RoomAfterGrow | osfmk/src/default_pager/kalloc.c:204-245 | after a region is taken in the loop of kget_space ends |
| Kalloc.PortRoundTrip | osfmk/src/default_pager/default_pager_internal.h:574-576 | port_to_vs undoes vs_to_port on kalloc results, and for an arbitrary address if and only if it is a multiple of 4 |
| BlockMaps.PathThere | osfmk/src/file_systems/ext2fs/ext2fs.c:331-382 | exactly the blocks below ND + N + N^2 + ... have a path, and it leads back to them |
| BlockMaps.PathBack | osfmk/src/file_systems/ext2fs/ext2fs.c:450-462 | every level and index sequence is the path of exactly the block it leads to |
| BlockMaps.Capacities | osfmk/src/file_systems/ext2fs/ext2fs.c:331-355 | an inode maps ND + N + N^2 + N^3 blocks in ext2 and ND + N + N^2 in Minix |
| BlockMaps.DigitsInRange | osfmk/src/file_systems/ext2fs/ext2fs.c:450-462 | the indices are the digits of the block number in base N |
| IndexTrees.EntryReads | osfmk/src/file_systems/ext2fs/ext2fs.c:456-462 | entry i of a block of packed little-endian numbers, 32 bits wide or 16, reads back as the i-th number |
| IndexTrees.IndexBytes | osfmk/src/file_systems/ext2fs/ext2fs.c:456-462 | ext2 reads four bytes and Minix two, least significant first; a hole read directly is zeros in ext2 and block 0 in Minix |
| IndexTrees.TreeReads | osfmk/src/file_systems/ext2fs/ext2fs.c:384-477 | following the index digits through a tree of such blocks, of any depth, leads to the number stored at that leaf; an absent subtree is a hole |
| IndexTrees.LaidOutReads | osfmk/src/file_systems/ext2fs/ext2fs.c:311-477 | for an inode whose direct, single, double and triple indirect numbers are laid out on the disk, the block map gives back exactly the numbers stored, and nothing beyond the capacity |
| IndexTrees.LaidOutBytes | osfmk/src/file_systems/ext2fs/ext2fs.c:484-589 | every byte of such a file is that of its block on the disk, or 0 in a hole |
| FileReaders.FileReader.constructor | osfmk/src/file_systems/ext2fs/ext2fs.c:766-778 | f_nindir holds the powers of N, and the caches are empty |
| FileReaders.FileReader.FindLevel | osfmk/src/file_systems/ext2fs/ext2fs.c:365-382 | the level loop finds the tree that holds the block, or that none does |
| FileReaders.FileReader.BlockMap | osfmk/src/file_systems/ext2fs/ext2fs.c:311-477 | whatever earlier calls left in the caches, the result is that of an uncached walk of the index tree, 0 if a pointer on the way is 0; for numbers laid out on a disk that is the number stored (IndexTrees.LaidOutReads) |
| FileReaders.FileReader.SetInode | osfmk/src/file_systems/ext2fs/ext2fs.c:198-232 | a new inode leaves nothing of the old one in the caches |
| FileReaders.FileReader.BufRead | osfmk/src/file_systems/ext2fs/ext2fs.c:484-589 | which of the two paths is taken, and what bytes it delivers |
| FileReaders.FileReader.ReadFile | osfmk/src/file_systems/ext2fs/ext2fs.c:1049-1091 | the caller gets exactly that slice of the logical file, holes as zeros, whatever was read before, and no byte outside its buffer changes; it succeeds if and only if nothing is asked for, or all of it is mapped and lies in the file, or it reaches past the end only in a hole of the last block that is cleared directly |
| FileReaders.SucceedsOn | osfmk/src/file_systems/ext2fs/ext2fs.c:1058-1088 | one turn of the read loop changes nothing about whether the request succeeds |
| FileReaders.DirectIsFile | osfmk/src/file_systems/minixfs/minixfs.c:444-462 | the direct path agrees with the file if and only if holes are recognised, or the block is no hole, or block 0 is blank |
| FileReaders.Store | osfmk/src/file_systems/ext2fs/ext2fs.c:1079-1080 | a copy into the caller's buffer changes exactly its range |
| PathWalk.OpenFile | osfmk/src/file_systems/ext2fs/ext2fs.c:800-1003 | for every directory graph, cyclic links included, the result is that of the recursive resolution limited to MAXSYMLINKS expansions, which WalkEnds, StepInto and FollowLink determine |
| PathWalk.FollowLink | osfmk/src/file_systems/ext2fs/ext2fs.c:897-960 | a link is replaced by its text in front of the rest of the path: text that begins with a slash is resolved from the root, other text from the directory of the link; too long a path and too many links are errors |
| PathWalk.StepInto | osfmk/src/file_systems/ext2fs/ext2fs.c:876-892 | a component that is no link leads to its inode, where the rest of the path goes on; a missing one is an error |
| PathWalk.WalkEnds | osfmk/src/file_systems/ext2fs/ext2fs.c:845-857 | the walk ends with the path, goes on only in a directory, and ignores slashes in front of a component |
| PathWalk.Ovbcopy | osfmk/src/file_systems/file_system.c:288-302 | the destination gets the old contents of the source also when the ranges overlap |
| PathWalk.Expand | osfmk/src/file_systems/ext2fs/ext2fs.c:897-942 | after an expansion the buffer holds the link text followed by the unread rest |
| PathWalk.BadNameExact | osfmk/src/file_systems/ext2fs/ext2fs.c:863-876 | a component passes if and only if it has at most one character more than the limit and all are below 128; NameTooLong exactly if it is longer and the characters up to there are |
| PathWalk.ScanComponent | osfmk/src/file_systems/ext2fs/ext2fs.c:860-876 | the component ends at the first slash or the end, and its characters are checked in order |
| PathWalk.SkipSeparators | osfmk/src/file_systems/ext2fs/ext2fs.c:853-858 | all leading slashes are skipped |
| PathWalk.ResolveCompose | osfmk/src/file_systems/ext2fs/ext2fs.c:845-992 | if the walk of a is clean (no empty component, no link behind which nothing is left), resolving a/b is resolving a and then /b from there with the links that are left if the longer path fits at every link, and NameTooLong otherwise |
| PathWalk.WellFormedClean | osfmk/src/file_systems/ext2fs/ext2fs.c:845-992 | without empty entry names and link texts every walk that arrives is clean |
| PathWalk.EmptyLinkBreaks | osfmk/src/file_systems/ext2fs/ext2fs.c:944-960 | with an empty link text the walk is not clean and that law fails: the rest is taken from the root |
| MinixFs.ReadInode | osfmk/src/file_systems/minixfs/minixfs.c:145-191 | the reader is set to the inode decoded at its place in the inode table, with no stale buffers |
| MinixFs.SearchDirectory | osfmk/src/file_systems/minixfs/minixfs.c:477-520 | gives the inode of the first used entry with that name |
| MinixFs.SearchStops | osfmk/src/file_systems/minixfs/minixfs.c:477-520 | past entries that are unused or have another name, the first entry that is not such decides: end of the directory, not mapped, or the inode of the entry |
| MinixFs.CNameStops | osfmk/src/file_systems/minixfs/minixfs.c:506-511 | the name of an entry ends at the first 0 |
| MinixFs.OpenFile | osfmk/src/file_systems/minixfs/minixfs.c:613-716 | gives the outcome of the recursive walk, and leaves the reader at the inode found |
| MinixFs.WalkInto | osfmk/src/file_systems/minixfs/minixfs.c:687-703 | a component leads to the inode of its entry, where the rest of the path goes on, or to the error of the search |
| MinixFs.WalkLaws | osfmk/src/file_systems/minixfs/minixfs.c:657-668 | the walk ends with the path, goes on only in a directory, and ignores slashes in front of a component |
| MinixFs.LongComponent | osfmk/src/file_systems/minixfs/minixfs.c:655-694 | a component of 15 characters passes the length check and is never found; from 16 on it is NameTooLong |
| MinixLayout.StoredReads | osfmk/src/file_systems/minixfs/minixfs.c:198-366 | a file laid out with direct, single and double indirect zones reads back byte for byte, from no hole |
| MinixLayout.InodeIs | osfmk/src/file_systems/minixfs/minix_ffs_compat.c:45-68 | block and offset of an inode number lead to its place in the table |
| MinixLayout.StoredStays | tools/mkminix.py:120-140 | a stored file stays while its inode and zones are left alone |
| MinixDirs.DirFinds | osfmk/src/file_systems/minixfs/minixfs.c:477-520 | searching a stored directory for the name of an entry gives its inode |
| MinixDirs.DirentIs | tools/mkminix.py:114-118 | an entry is found under its name and no other |
| ImageBytes.Put32 | tools/mkminix.py:62-62 | a packed 32-bit word reads back |
| ImageBytes.MarkIs | tools/mkminix.py:69-70 | setting a map bit sets that bit and no other |
| MkMinix.Image.constructor | tools/mkminix.py:54-72 | a blank image with a super block the reader accepts and bit 0 of both maps set |
| MkMinix.Image.AllocZone | tools/mkminix.py:80-84 | zones come in sequence, and exactly when the map is used up it exits |
| MkMinix.Image.AllocIno | tools/mkminix.py:74-78 | inodes come in sequence, and exactly when the map is used up it exits |
| MkMinix.Image.SetInode | tools/mkminix.py:94-103 | the inode slot decodes to these values and nothing else changes |
| MkMinix.Image.WriteIndirect | tools/mkminix.py:105-112 | a fresh zone holds these zone numbers |
| MkMinix.Image.WriteFile | tools/mkminix.py:120-140 | the file is stored, with exactly the zones its size needs, earlier files are untouched, and it fails exactly if they do not fit |
| MkMinix.Image.WriteDir | tools/mkminix.py:213-219 | the directory is stored in one zone, and only its zone and inode change |
| MinixBuild.Build | tools/mkminix.py:29-219 | succeeds exactly if every name fits in 14 bytes and the zones suffice; then the image holds every file, bootstrap.conf with the lines of BootConf.ConfExact and both directories |
| MinixBuild.WriteDirs | tools/mkminix.py:211-219 | writing the directories last leaves every file in place |
| MinixBuild.DirectoryOverruns | tools/mkminix.py:203-216 | mach_servers fits in its zone if and only if there are at most 61 files; with more, its 65th entry is written over the start of the zone behind, which holds bootstrap.conf |
| MinixBuild.OverrunUnreadable | tools/mkminix.py:213-215 | with more than 61 files bootstrap.conf is no longer stored in the image |
| MinixBuild.OpenFinds | osfmk/src/file_systems/minixfs/minixfs.c:649-694 | opening a path of two components leads to the inode of the entry |
| MinixBuild.WholeImage | tools/mkminix.py:29-219 | opening /mach_servers/<name> in a built image gives an inode through which exactly the original bytes are read |
| MinixBuild.ReadBack | osfmk/src/file_systems/minixfs/minixfs.c:752-793 | opening and reading a whole file gives its slice of the image |
| MinixBuild.RoundTrip | tools/mkminix.py:29-219 | for distinct legal names and contents that fit, building and reading /mach_servers/<name> back returns the contents, and reading bootstrap.conf gives a text that parses to exactly the names and arguments; it builds exactly if they fit |
| BootConf.ConfExact | tools/mkminix.py:182-203 | read by lines and fields, bootstrap.conf lists every file once, in order, with its name as symbol table name and as path and with its arguments, if and only if no name or argument contains a separator; without files it lists default_pager |
| MinixBuild.DotsOpen | tools/mkminix.py:148-219 | "." and ".." of the root lead to the root, those of mach_servers to mach_servers and the root, and both directories read as their entries |
| MinixBuild.FileIsLeaf | tools/mkminix.py:204-209 | a file in the image has the type and permissions it was given, is no directory, and a path that goes on behind it is an error |
| MinixBuild.Sizes | tools/mkminix.py:29-60 | how many zones an image has and a file of n blocks needs, in closed form |
| MinixBuild.Spelled | tools/mkminix.py:148-217 | the fixed names, character by character |

## Left out

- vs_cluster_write as one method: its loop is modelled step by step in PageStore, with one chunk per cluster.
- The retry of partial device transfers and device read errors: device behaviour is outside the source.
- seqnos_memory_object_data_initialize, the monitoring calls and the statistics counters.
- Backing store creation and information calls, and deletion, which always fails.
- The `/dev/` links of ext2fs_open_file, which are compiled out, and ext2 inode and directory bytes: PathWalk works on a directory graph.
- The bext2fs and ufs readers, which repeat the same design.
- Mach IPC, ports, threads, wiring and scheduling.
- Inode owners, link counts and time stamps, the super block fields no reader looks at, and printing in mkminix, and parsing of its command line: a file comes with its name, arguments and contents.
- PagerSystem.StepSlotSafe: failed writes are not part of PageStore; after one, an outstanding write can go to a cluster that was given back (FailedWrites.LateExactly).
- PagingSpaces.PagingSpace.DeallocateCluster: clearing the bit, under the segment lock, and resetting the cursor, under the list lock, are two critical sections in the source and one method call here; FairRun has them as two moves.
- Ownership.Accounts: bs_commit is a critical section of its own in the source; here creating, growing and destroying a map change the commit total in the same step.
- PathWalk.OpenFile: requires a path of at most PATH_MAX characters, because the source copies the path into its buffer without looking at the length.
- Vstructs.Vstruct.Clunmap: requires that no entry of the range is in error or outside the map; Provide meets this because lookup and unmapping are one step there, in the source an entry can be in error by then (FailedRuns.ErrorUnmapExact).
- Ownership.ClusterOwnership: runs in which ps_clunmap meets an entry in error are excluded; FailedRuns.ErrorUnmapExact states when such a call breaks ownership.
- PageStoreProof.MapsNewPages: failed writes are not part of PageStore; FailedWrites.KernelRunsTidy states what holds with them.
- PageStoreProof.UnmapsValidPages: failed writes are not part of PageStore, so the entry is never in error.
- PagingSpaces.PagingSpace.SelectSegment: with several segments requires ScanReady, because otherwise the source reads slot -1 of the table (ScanReadyExact); AllocateCluster, Assign and Allocate pass that on.
- PagingSpaces.PagingSpace.AddSegment: is one step; what can go wrong between the overlap check and the entry is stated by EnterBoth, not by this contract.
- MinixFs.SearchDirectory: the 16-bit type of Minix block numbers inside a file is not modelled; a file of an image of at most 65535 zones never exceeds it.
- Vstructs.Vstruct.Finish: the pages of a successful write are required to lie in one cluster, as the source asserts.
- MkMinix.Image.WriteDir: requires that the directory fits in its zone, as do WriteDirs, Build and RoundTrip by their limits of 64 entries and 61 files; DirectoryOverruns states what the source does beyond.
