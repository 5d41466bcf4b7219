# A verified model of the yfs file system

yfs keeps files in inodes on a simulated disk, directories as text, and coherence through a caching
lock service; an HDFS front end writes files block by block through a chain of data nodes. This
project models the parts of it whose correctness is not obvious from reading one function, in Dafny
4.11, and proves what they do. `dafny verify dfyconfig.toml` checks all of it.

Where the code departs from what it evidently means to do, the model follows the code. Each such
place has an exact theorem: the condition under which the intended property holds, both directions,
and a concrete case in which it fails.

| departure | where | it does no harm if and only if | a case where it does |
|---|---|---|---|
| the server reads the owner after giving up the mutex | `yfs/lock_server_cache.cc:83-85` | fewer than three clients (`FaultIffThreeClients`) | `ThreeClientsFault` |
| the table loop of `write_file` zeroes the wrong blocks | `yfs/inode_manager.cc:560` | the blocks it zeroes were zero (`WriteThenRead`) | `WriteLosesData` |
| growing from exactly NDIRECT blocks allocates no table | `yfs/inode_manager.cc:580-591` | the table's slot names a marked block that nobody owns (`GrownSoundIff`) | `GrowthHurts` |
| a full disk still hands out block ids | `yfs/inode_manager.cc:53-57` | the disk has the blocks that the operation takes (`WriteFile`, `AppendBlock`) | `FullDiskHurts` |
| `remove_file` counts blocks the wrong way round, and so frees ids left over in slots | `yfs/inode_manager.cc:764` | no leftover id is a block of another file's, and none has a set bit in the home of another inode or in another file's block (`RemoveHarmlessIff`) | `RemovalHurts`, `LeftoverBites` |
| `complete` takes any size | `yfs/inode_manager.cc:923-938` | it uncovers no ids, or only different marked blocks that nobody owns (`CompleteSoundIff`) | `CompleteHurts` |
| `unlink` looks for the name anywhere in the text | `yfs/yfs_client.cc:730` | the name occurs nowhere before its entry (`UnlinkPlaceIff`), or the text repeats (`UnlinkIff`) | `UnlinkHurts` |
| the parent of `/` is looked up as an empty path | `yfs/namenode_base.cc:189-196` | the path has a component (`ParentAgrees`) | `RootHasNoParent` |
| a recursive delete asks for locks on its way down, whatever their numbers | `yfs/namenode_base.cc:551-552` | for asking in ascending order, as `DualLock` does: the inode numbers climb on every way down (`DeleteInOrderIff`) | `DeletesCross` |
| an early error exit answers with one reply | `yfs/datanode_base.cc:404-422` | it is taken by the last node of the chain (`AckLength`) | `AckTooShort` |
| a transfer looks at the first reply only | `yfs/datanode_base.cc:496-512` | the first packet reached every target, or those it did not reach held the block before (`TransferBlock`) | `TransferMisses` |

## What is modelled

**The caching lock protocol** (`LockRecords`, `LockProtocol`, `LockInvariant`, `LockLiveness`,
`LockTheorems`, `LockProgress`, `LockFault`, `LockWitness`, `LockService`). One lock, any number of
clients, any number of threads on each. All calls are synchronous, so the program counter of an
application thread says where the whole chain of nested calls is, and a run is a schedule of threads.
A thread's step is one critical section or one message; condition waits may return spuriously.
Assumed: every call is delivered exactly once (at-most-once is the promise of
`yfs/rpc/rpc.h:297-300`), client ids are distinct, there are enough server threads, the owner string
is read in one piece, and a thread calls release only after its acquire has returned
(`ReleaseFaultsIff` says what any other call does). `LockService` has the server and the client
caches as objects with maps of records for all locks, runs the critical sections on them, and shows
that every step on the objects is a step of this protocol for its lock and none for any other lock.

**The block store** (`DiskLayout`, `BlockLayer`, `InodeCodec`, the `File*` modules, `InodeLayer`,
`StoreRefinement`, `DiskWitness`). The disk is an array of blocks of bytes; bitmap, inode table,
direct blocks and table of indirect blocks are read from and written to those bytes. `Sound` says that every live
file's blocks are distinct, in the data area, marked and owned by nobody else. A run is a sequence of
operations from any sound disk, such as the one the constructor leaves; each step is what the methods
of the inode layer promise.

**The namespace** (`DirText`, `DirErase`, `PathWalk`, `LockOrder`, `Namespace`). Directories as
`name;inum;...`, the scanners as character loops, edits as string surgery, recursive delete under locks, with reads
that may fail.

**The HDFS front end** (`WriteSession`, `Pipeline`) and **the queue between its threads**
(`FifoMonitor`), the latter as a monitor whose waits may return spuriously.

## Model

| member | source | states |
|---|---|---|
| LockRecords.Begin | yfs/lock_server_cache.cc:141 | the client the retry goes to is the least of the wait list |
| LockService.Service.constructor | yfs/lock_client_cache.cc:21-38 | without records every lock is in the protocol's initial state |
| LockService.Service.RunCallAcquire | yfs/lock_client_cache.cc:46-61 | making sure of the record, on the client's map of all locks, is the protocol's first step of acquire for that lock, and every other lock is as before |
| LockService.Service.RunEnter | yfs/lock_client_cache.cc:65-139 | likewise for the five-way switch: ask, take the cached lock, or wait |
| LockService.Service.RunCheckRetry | yfs/lock_client_cache.cc:98-113 | likewise for the wait that ends exactly when the retry flag is up, and consumes it |
| LockService.Service.RunCallRelease | yfs/lock_client_cache.cc:149-189 | likewise for the client's release, its two failures included |
| LockService.Service.RunServeAcquire | yfs/lock_server_cache.cc:29-107 | likewise for the server's acquire on its map of all locks: granted, queued, or the owner to be revoked |
| LockService.Service.RunServeRelease | yfs/lock_server_cache.cc:117-141 | likewise for the server's release up to its first call |
| LockService.Service.RunDeliverRevoke | yfs/lock_client_cache.cc:222-278 | likewise for a revoke arriving at a client |
| LockService.Service.RunDeliverRetry | yfs/lock_client_cache.cc:292-318 | likewise for a retry arriving at a client |
| LockService.Service.RunReleaseReply | yfs/lock_client_cache.cc:191-216 | likewise for the end of release, when the server has the lock back |
| LockService.Service.Advance | yfs/lock_client_cache.cc:40-318 | from any state the objects can get into: one step of one thread at one lock is the protocol's step for that lock and leaves every other lock's state as it was, and every lock's state is again one the protocol can reach |
| LockService.Service.OneHolder | yfs/lock_server_cache.cc:52-64 | so on the objects at most one thread holds a lock, its client's record is Locked and the server's record names that client |
| LockInvariant.StepCore | yfs/lock_server_cache.cc:52-170 | every step of every thread keeps the safety invariant, and the only step that can fail is reading the owner after the mutex was given up |
| LockInvariant.DeliverNestedRevokeCore | yfs/lock_server_cache.cc:157-166 | the revoke sent under the server's mutex finds its client Acquiring |
| LockLiveness.StepLive | yfs/lock_client_cache.cc:98-113 | every step keeps: no lost wakeup, no lost revoke, no thread asleep through what it waits for, no revoke flag in a Free record |
| LockTheorems.MutualExclusion | yfs/lock_server_cache.cc:52-64 | in every reachable state the client that has the lock, cached, held, granted in flight or being returned, is exactly the server's owner; at most one thread holds it; only the owner's release is ever in flight |
| LockTheorems.RefinesPlainLock | yfs/lock_client_cache.cc:65-140 | every step of every run takes, gives up or leaves one plain lock |
| LockTheorems.ReleaseFaultsIff | yfs/lock_client_cache.cc:149-173 | in every reachable state without a failure, a call of release by any thread fails its check if and only if no thread of that client holds the lock |
| LockTheorems.RevokeNeverLost | yfs/lock_server_cache.cc:66-103 | while the lock is owned and wanted, the owner has been or will be told, or a waiter will ask again |
| LockTheorems.WakeupNeverLost | yfs/lock_server_cache.cc:131-154 | while the lock is free, wanted and no release is at work, some waiter will ask again, even if the retry overtook the RETRY reply |
| LockTheorems.NoCallbackDeadlock | yfs/lock_server_cache.cc:129-170 | every waiter is Acquiring, so no client ever calls release back into a release that holds the mutex |
| LockTheorems.NoDeadlock | yfs/lock_client_cache.cc:98-136 | if nothing in the protocol can move and a thread waits, some thread holds the lock, and knows it is wanted if a client queues at the server |
| LockProgress.NoLivelock | yfs/lock_client_cache.cc:66-139 | from every reachable state, any schedule of protocol steps alone ends within a stated number of steps |
| LockProgress.Progress | yfs/lock_client_cache.cc:66-139 | from every reachable state the protocol comes to rest by itself, and unless the run has failed whoever still waits then waits for a holder |
| LockFault.RunDuo | yfs/lock_server_cache.cc:83-99 | no run of at most two clients ever fails |
| LockWitness.ThreeClientsFault | yfs/lock_server_cache.cc:83-99 | a run of three clients in which the owner is gone when it is read |
| LockWitness.FaultIffThreeClients | yfs/lock_server_cache.cc:83-99 | for every set of clients: some run fails if and only if they are at least three |
| LockWitness.OnlyFault | yfs/lock_client_cache.cc:151-173 | in every run in which threads release only what they hold, the only check that can fail is that one: no missing record, no release in a wrong state |
| DiskLayout.LayoutDisjoint | yfs/inode_manager.h:49-66 | for all numbers of blocks and inodes: bitmap, inode table and data area are disjoint, and no two inodes share a block |
| DiskLayout.SetBitAt | yfs/inode_manager.cc:60-77 | setting a bit by its 7 - k shift sets that bit and no other |
| DiskLayout.ClearBitAt | yfs/inode_manager.cc:107-114 | clearing likewise |
| BlockLayer.ScanBlock | yfs/inode_manager.cc:56-83 | finds the first clear bit from a place on, or the end |
| BlockLayer.BlockManager.constructor | yfs/inode_manager.cc:124-133 | a disk of zero blocks |
| BlockLayer.BlockManager.ReadBlock | yfs/inode_manager.cc:10-17 | an id beyond the disk leaves the buffer as it was |
| BlockLayer.BlockManager.WriteBlock | yfs/inode_manager.cc:19-26 | an id beyond the disk writes nothing |
| BlockLayer.BlockManager.AllocBlock | yfs/inode_manager.cc:31-90 | the least unmarked bit at or above the first data block, and only its mark changes; 0 exactly when every bit scanned is marked |
| BlockLayer.BlockManager.FreeBlock | yfs/inode_manager.cc:92-120 | only the mark of the block changes |
| BlockLayer.FreeUndoesAlloc | yfs/inode_manager.cc:92-120 | freeing what was just allocated restores the disk |
| BlockLayer.MarkedMark | yfs/inode_manager.cc:73-81 | after allocating b exactly b is marked in addition, across bitmap blocks and bytes |
| BlockLayer.MarkedUnmark | yfs/inode_manager.cc:99-115 | after freeing b exactly b is unmarked |
| FilePlan.AllocWithoutRoom | yfs/inode_manager.cc:53-57 | the id found is beyond the disk if and only if no data block is free |
| InodeCodec.TableRoundTrip | yfs/inode_manager.cc:343-352 | a table of ids written as bytes reads back as the same ids |
| InodeCodec.InodeRoundTrip | yfs/inode_manager.cc:270-284 | an inode stored in its block reads back, and the rest of the block is kept |
| InodeLayer.InodeManager.constructor | yfs/inode_manager.cc:149-157 | a sound empty disk whose only live inode is 1, an empty directory |
| InodeLayer.InodeManager.GetInode | yfs/inode_manager.cc:242-268 | the stored inode; none exactly when out of range or free |
| InodeLayer.InodeManager.PutInode | yfs/inode_manager.cc:270-284 | the inode is stored and no other block changes |
| InodeLayer.InodeManager.AllocInode | yfs/inode_manager.cc:161-198 | the first free inode from 1 becomes an empty file; 0 exactly when there is none; a sound disk stays sound and other files untouched |
| InodeLayer.InodeManager.FreeInode | yfs/inode_manager.cc:200-236 | the inode is cleared; a free one changes nothing |
| InodeLayer.InodeManager.Alloc | yfs/inode_manager.cc:31-90 | with room the least unused data block, and only its mark changes; without room an id that is no data block, and no data block's mark changes |
| FilePlan.FreeEachMarked | yfs/inode_manager.cc:92-120 | after freeing any list of ids exactly their bits are clear in addition, wherever on the disk free_block takes them to be |
| FilePlan.FreeEachBlock | yfs/inode_manager.cc:92-120 | freeing any list of ids changes a block if and only if one of them has a set bit in it |
| InodeLayer.InodeManager.ReadFile | yfs/inode_manager.cc:290-366 | exactly the file's bytes across direct and indirect blocks; only the access time changes |
| InodeLayer.InodeManager.WriteFile | yfs/inode_manager.cc:369-709 | all eight cases, with room and without: the image is sound afterwards if and only if there was room and the file did not grow from NDIRECT blocks into a slot in use; then the written bytes with the blocks the code loses zeroed, other files untouched, the marks the old ones less the file's old blocks plus its new ones; slots in front of the old and behind the new last block kept |
| InodeLayer.InodeManager.WriteRun | yfs/inode_manager.cc:424-434 | the loop over direct blocks leaves consecutive chunks and touches nothing else |
| InodeLayer.InodeManager.WriteTable | yfs/inode_manager.cc:558-564 | the loop over indirect blocks, zeroing direct ones, exactly as written |
| InodeLayer.InodeManager.ReshapeDirect | yfs/inode_manager.cc:408-526 | cases 1-1 to 1-4: with room the marks show the file's new blocks instead of its old ones; without, one of its slots holds an id that is no data block |
| InodeLayer.InodeManager.ReshapeIndirect | yfs/inode_manager.cc:527-700 | cases 2-1 to 2-4 likewise |
| InodeLayer.InodeManager.WriteFromFull | yfs/inode_manager.cc:580-620 | growth from exactly NDIRECT blocks: sound if and only if there is room and the table's slot names a marked block of nobody's, and then like any other growth |
| StoreRefinement.WriteThenRead | yfs/inode_manager.cc:290-709 | write_file followed by read_file, wherever the write is sound: what is read is what was written if and only if the leading blocks the code zeroes were zero; always so up to NDIRECT blocks |
| DiskWitness.WriteLosesData | yfs/inode_manager.cc:557-564 | a new disk, a new file, 101 blocks of ones: they do not read back |
| FileGrow.GrownSoundIff | yfs/inode_manager.cc:580-613 | both directions for every image |
| DiskWitness.GrowthHurts | yfs/inode_manager.cc:580-613 | a new disk, a new file written with 100 blocks and then with 101: there was room, and the disk is not sound afterwards |
| DiskWitness.FullDiskHurts | yfs/inode_manager.cc:802-862 | a new disk, one file appended to until no block is left and once more: the disk is not sound afterwards |
| InodeLayer.InodeManager.GetBlockIds | yfs/inode_manager.cc:864-901 | the ids of the data blocks in file order across the table |
| InodeLayer.InodeManager.AppendBlock | yfs/inode_manager.cc:802-862 | the image is sound afterwards if and only if there was room; then the list of ids grows by one id at the end, the least unused block, at every index, the first of the table included; other files, data and marks kept; room used exactly |
| FileAppend.CountBound | yfs/inode_manager.cc:830-834 | a sound disk has fewer blocks than a file may list, so the guard is never met |
| InodeLayer.InodeManager.Complete | yfs/inode_manager.cc:923-938 | for any size: the size is set and other files are untouched; the image is sound afterwards if and only if the ids uncovered, if any, are different marked blocks that nobody owns; then the file keeps the first of its blocks, or all of them |
| FileAppend.CompleteSoundIff | yfs/inode_manager.cc:923-938 | that condition, both directions, for every sound image and every size |
| DiskWitness.CompleteHurts | yfs/inode_manager.cc:923-938 | a new disk, a new file, completed with the size of one block: the disk is not sound |
| InodeLayer.InodeManager.RemoveFile | yfs/inode_manager.cc:746-800 | whatever the slots hold: the inode is gone, exactly which marks go, and the other files' inodes, blocks and marks are as they were if and only if the leftover ids are harmless; then the disk is sound |
| FileRemove.ReleasedIs | yfs/inode_manager.cc:764-795 | what is freed is all the file owns, without its last block when the size is no block multiple, with the leftovers when it is one |
| FileRemove.RemoveHarmlessIff | yfs/inode_manager.cc:764-795 | that condition, both directions, for every sound image and all leftover ids: none is another file's block, none has a set bit in another inode's home or another file's block; when all have their bit in the bitmap, also soundness alone: if and only if none is another file's block |
| DiskWitness.RemovalHurts | yfs/inode_manager.cc:764-772 | a new disk, file a grown to two blocks and cut to one, file b given the block that a gave up, a removed: b is live and the disk is not sound |
| DiskWitness.LeftoverBites | yfs/inode_manager.cc:161-198 | a new disk, a file with one block of ones, a new file whose unset slots hold an id beyond the bitmap, removed while empty: no leftover is the first file's block, and its block has changed |
| FileView.OtherKept | yfs/inode_manager.cc:290-366 | what leaves a file untouched leaves its inode, its blocks and its contents as they were |
| StoreRefinement.StepCleanIff | yfs/inode_manager.cc:161-938 | for every operation on every sound disk: the disk is sound afterwards and what belongs to the other files is as it was, if and only if the operation fits: room, a spare slot for a new table, only blocks of nobody's uncovered, harmless leftovers |
| StoreRefinement.StepAllowed | yfs/inode_manager.cc:161-938 | and then it does to the map from inode numbers to kinds and bytes what a plain store would |
| StoreRefinement.Perform | yfs/inode_manager.cc:161-938 | running an operation on the disk object is such a step; a read returns the plain store's bytes |
| StoreRefinement.PerformAll | yfs/inode_manager.cc:161-938 | running a list of operations on one disk object is a run of the disk and of the plain store, if each fits when its turn comes, whatever numbers and ids the code picks |
| StoreRefinement.RunCleanIff | yfs/inode_manager.cc:161-938 | over every run from a sound disk: every step leaves the disk sound and the other files alone if and only if each operation fits when its turn comes |
| StoreRefinement.RunRefines | yfs/inode_manager.cc:161-938 | and then the run on the disk is a run of the plain store, which from a new disk begins with the root directory alone |
| StoreRefinement.UnnamedKept | yfs/inode_manager.cc:161-938 | over every such run on the disk, a file no operation names is live if it was and has the same kind and bytes |
| StoreRefinement.LastWriteHolds | yfs/inode_manager.cc:290-709 | over every such run on the disk, the blocks of a file hold at the end what was last written to it |
| StoreRefinement.ViewSet | yfs/inode_manager.cc:369-709 | an operation that leaves the other files untouched changes one entry of the map |
| StoreRefinement.AppendView | yfs/inode_manager.cc:802-862 | append keeps the bytes and adds a block's worth |
| StoreRefinement.CompleteView | yfs/inode_manager.cc:923-938 | complete cuts the bytes, or keeps them and adds what its blocks and those uncovered hold |
| WriteSession.NameNode.Create | yfs/namenode_base.cc:461-466 | a new empty file with count 0, which had none before; without an inode left the count goes to number 0, where an old one is kept; writes stay pending on live files only |
| WriteSession.NameNode.AddBlock | yfs/namenode_base.cc:492-502 | refused exactly without a pending write; otherwise the count is raised and, if the file exists, append_block's outcome with and without room, offered at the old size |
| WriteSession.NameNode.PutBlock | yfs/inode_manager.cc:913-921 | writing a block of the file changes that block and no other file |
| WriteSession.NameNode.Complete | yfs/namenode_base.cc:470-490 | refused exactly without a pending write; otherwise the write is no longer pending and the size is set from the 32-bit count, whatever size the file had; sound with the first of its blocks kept if that needs no more blocks |
| WriteSession.NameNode.Session | yfs/namenode_base.cc:435-502 | create, any number of blocks added and written, complete with the length of the last, read_file and GetBlockLocations: the bytes read are the blocks one after the other cut to the size, the locations tile the file and name blocks that hold them, across the table boundary; no other file and no other pending write changes; with no inode left nothing changes |
| WriteSession.NameNode.GetBlockLocations | yfs/namenode.cc:37-77 | one entry per block in order, tiling the file from 0 to its size without gap or overlap |
| WriteSession.Locate | yfs/namenode.cc:49-76 | the loop's offsets and sizes for any list of ids |
| WriteSession.DraftKept | yfs/namenode_base.cc:435-502 | whatever others do to their files leaves a file under construction as it was |
| DirText.NumberRoundTrip | yfs/yfs_client.cc:34-49 | a number printed and read back is the same |
| DirText.ReadDir | yfs/yfs_client.cc:500-577 | the character loop yields, for any text, names and numbers by turns |
| DirText.Lookup | yfs/yfs_client.cc:389-459 | the first entry of that name; nothing exactly when there is none |
| DirText.CodecRoundTrip | yfs/yfs_client.cc:481-587 | scanning what was printed gives the same entries, for all names without a separator |
| DirText.PrintSnoc | yfs/yfs_client.cc:268-285 | inserting an entry into the text prints the list with it at the end |
| DirErase.FindFrom | yfs/yfs_client.cc:730 | the first place where the name occurs, none if it occurs nowhere |
| DirErase.UnlinkIff | yfs/yfs_client.cc:728-757 | for every directory and entry: the text left is the other entries in order if and only if the text from the name's first occurrence to the entry repeats one entry length on |
| DirErase.UnlinkPlaceIff | yfs/yfs_client.cc:728-757 | for a name that is not a number and a neighbour with another inode: if and only if the first occurrence is the entry's own |
| DirErase.UnlinkHurts | yfs/yfs_client.cc:728-757 | unlinking `a` next to `ab` |
| PathWalk.RecursiveLookup | yfs/namenode_base.cc:150-182 | for any path, the fold of lookup over its components, whatever slashes repeat or trail |
| PathWalk.RecursiveLookupParent | yfs/namenode_base.cc:189-196 | the lookup of the path cut behind its last slash |
| PathWalk.ParentParts | yfs/namenode_base.cc:189-196 | the cut path has all components but the last |
| PathWalk.RootHasNoParent | yfs/namenode_base.cc:189-196 | `/` and `//` resolve to the root, and their parent is not found |
| PathWalk.ParentAgrees | yfs/namenode_base.cc:150-196 | the parent found by cutting is the `last` of the walk if and only if the path has a component |
| Namespace.FoundOccurs | yfs/yfs_client.cc:717-730 | the search never fails on a name that lookup has found |
| Namespace.LookupListed | yfs/yfs_client.cc:364-469 | lookup in a listed directory is the first entry of that name, not found exactly if there is none |
| Namespace.InsertListed | yfs/yfs_client.cc:252-290 | after a failed lookup, adding an entry keeps names distinct and appends exactly one |
| Namespace.UnlinkFront | yfs/yfs_client.cc:728-757 | unlinking the front entry always leaves exactly the rest |
| Namespace.UnlinkListed | yfs/yfs_client.cc:706-776 | unlinking an entry found at its own place, in any position |
| Namespace.Client.Lookup | yfs/yfs_client.cc:364-469 | found, not found, unreadable and not a directory told apart as in the code |
| Namespace.Client.Create | yfs/yfs_client.cc:243-294 | EXIST exactly if the name is there; otherwise the new node, one entry more, nothing else changed; with a failed read the node without an entry |
| Namespace.Client.Unlink | yfs/yfs_client.cc:706-776 | the edited text and the freed node, or nothing changed; succeeds exactly if the name is found when reads do not fail |
| Namespace.Client.ReadDir | yfs/yfs_client.cc:481-577 | every entry of the directory; on anything else an empty listing, and the lock is given up |
| Namespace.Client.RecursiveDelete | yfs/namenode_base.cc:543-566 | on every tree it ends; success leaves the directory empty, every descendant freed and nothing else changed; the locks asked for, and what is held at each request, are those of the walk down the tree, all of it on success and a front part on failure; every one is given back; without failing reads it succeeds |
| LockOrder.BelowOnce | yfs/namenode_base.cc:551-564 | that walk asks for no lock twice and for none but those below |
| LockOrder.BelowAll | yfs/namenode_base.cc:551-564 | and for all of those |
| LockOrder.DeleteInOrderIff | yfs/namenode_base.cc:551-575 | a delete asks for every lock while it holds smaller numbers only, if and only if it is not recursive or the numbers climb on every way down the tree |
| LockOrder.NoWaitCycle | yfs/namenode_base.cc:523-532 | clients that ask so never wait for one another in a circle, however many they are |
| LockOrder.DeletesCross | yfs/namenode_base.cc:551-575 | directory 9 holding file 4: one client deletes 9 with what is below, another 4, and each waits for the other |
| Namespace.Client.DualLock | yfs/namenode_base.cc:523-532 | both locks, each asked for once, the smaller number first |
| Namespace.Client.DualUnlock | yfs/namenode_base.cc:534-541 | both given back |
| Namespace.Client.Delete | yfs/namenode_base.cc:568-602 | locks balanced on every way out, and asked for in the stated order; what success leaves; when it succeeds |
| Pipeline.DataNode.ReadBlock | yfs/datanode.cc:57-80 | the slice, shorter at the end of the block, empty beyond it |
| Pipeline.DataNode.WriteBlock | yfs/datanode.cc:82-100 | the data in place, every other byte and block unchanged, the length kept; throws exactly if the packet reaches beyond the block |
| Pipeline.AckLength | yfs/datanode_base.cc:402-452 | one reply per node if and only if no node but the last took its error exit unhidden |
| Pipeline.SuccessMeansApplied | yfs/datanode_base.cc:413-447 | reply k is success only if node k has the packet in its block |
| Pipeline.DeliveredTo | yfs/datanode_base.cc:401-447 | what every node holds after a packet: the packet in its block if every node down to it could read and every node above it send, otherwise what it held |
| Pipeline.AllWellIff | yfs/datanode_base.cc:423-447 | all replies are success if and only if every link and node was in order |
| Pipeline.AckTooShort | yfs/datanode_base.cc:404-422 | three nodes, the second cannot read the packet: two replies |
| Pipeline.SetUpIff | yfs/datanode_base.cc:261-300 | the set-up of a chain of any length succeeds if and only if every link is up |
| Pipeline.ServeBlock | yfs/datanode_base.cc:353-457 | nothing is written unless the set-up succeeds; acknowledgements that begin with a success carry the packet's number; if every acknowledgement is all success, the replicas end equal, with all packets in them |
| Pipeline.ConsecutiveBlock | yfs/datanode.cc:93-97 | consecutive packets leave their data at the front and the rest of the block as it was |
| Pipeline.SendPackets | yfs/datanode_base.cc:236-257 | the packets join to what was read, in sequence, the last one empty and alone marked last; none at all for nothing read |
| Pipeline.Replicate | yfs/datanode_base.cc:353-457 | a block sent in these packets and served along a chain: all acknowledged, every replica holds the data in front and its old rest behind |
| Pipeline.TransferBlock | yfs/datanode_base.cc:459-520 | success is reported if and only if the links are up and the first target answers both packets well; then each target holds the block if the first packet reached it, and otherwise what it held; so all have it if and only if those not reached had it |
| Pipeline.TransferMisses | yfs/datanode_base.cc:491-512 | a transfer to two targets that reports success although the second has nothing of the block |
| FifoMonitor.Fifo.EnqPass | yfs/rpc/fifo.h:59-70 | pushes exactly if there is space, at the end |
| FifoMonitor.Fifo.DeqPass | yfs/rpc/fifo.h:77-88 | takes the front exactly if there is one; signals producers exactly if the queue is bounded |
| FifoMonitor.Monitor.Act | yfs/rpc/fifo.h:56-92 | any pass, call or wakeup on the queue object with its threads is the step of the state machine |
| FifoMonitor.StepInv | yfs/rpc/fifo.h:56-92 | every pass, call and spurious wakeup keeps order, bound and signals |
| FifoMonitor.QueueSafe | yfs/rpc/fifo.h:56-92 | over every run: what was taken followed by what is queued is what was put in, within the bound, and never a sleeper with fewer threads on their way than items or slots |
| FifoMonitor.QuietQueue | yfs/rpc/fifo.h:56-92 | when no thread is on its way, a sleeping consumer means empty, a sleeping producer means full |

## Left out

- LockWitness.OnlyFault: threads that release what they do not hold are left out of the runs, because the lock client's contract with its callers forbids it; ReleaseFaultsIff says which such calls fail.
- InodeLayer.InodeManager.WriteFile: requires at most NDIRECT + 1 indirect blocks, because beyond that the loop reads past the array of direct ids; sizes are non-negative.
- InodeLayer.InodeManager.GetBlockIds: requires the inode to exist, because the code dereferences null otherwise.
- InodeLayer.InodeManager.Complete: likewise.
- StoreRefinement.StepCleanIff: writes of more than NDIRECT + 1 indirect blocks and completion of a file that does not exist are outside, for the same reasons; so they are outside StepAllowed, Perform, PerformAll and the run theorems.
- StoreRefinement.WriteThenRead: requires room and a spare slot for a new table, because without them the disk is not sound and what is read depends on what else is on it.
- WriteSession.NameNode.Complete: requires the inode to exist, because the code dereferences null otherwise.
- WriteSession.NameNode.Session: requires room for the blocks, because without it AddBlock leaves the disk unsound; the file's lock, held from create to complete, and the directory entry are not in this contract; the locations of the data nodes are left out.
- Namespace.Client.RecursiveDelete: reading an extent may fail, reading attributes may not; node contents are strings, not blocks on the disk of `InodeLayer`.
- Namespace.Client.ReadDir: on anything but a directory requires its lock to be held, because the lock client's release fails otherwise.
- Namespace.Client.Create: the inode number is given, and 0 stands for none left.
- Pipeline.DataNode.WriteBlock: offset and length are unbounded here; the 64-bit sum of the code can wrap around, so that a packet far beyond the block does not throw.
- Pipeline.ServeBlock: a request that cannot be parsed is left out; it is answered with an error before anything else.
- DirText.NumberRoundTrip: numbers below 2^64; leading blanks and signs, which are never printed, are not read.
- The model is of one disk size: 2048 blocks of 16384 bytes, 1024 inodes; only the layout and the allocator are stated for all numbers.
- Over-reads past the caller's buffer and mismatched allocation calls: bytes behind the end of the data are arbitrary.
- Fairness of the lock: the retry always goes to the least client id, so none is claimed.
- `Rename`: its erase lengths are right only for the last entry.
- Parents created on the way by `PBCreate` and `PBMkdirs`: a missing name makes the lookup fail first.
- Byte ranges in `yfs_client::read` and `write`, `setattr`, `readlink`, attributes and times.
- The plain lock server, the RPC library, marshalling, connections, thread pool, FUSE, heartbeats, registration and recovery of data nodes.
