# Proofs about RecoverOS

RecoverOS is a small kernel for x86-64. This project models the parts of it in which one data structure has to
agree with a simpler one, or in which an invariant has to survive every interleaving, and proves that they do, or
exactly when they do.

| files | what they model |
|---|---|
| `bitmap.dfy`, `list.dfy`, `basics.dfy` | packed bitmaps, the intrusive list, shared definitions |
| `fs_format.dfy`, `fs_volume.dfy`, `fs_store.dfy`, `fs_inode.dfy` | the disk format, files as byte sequences, the store as an invariant, and the operations of `fs/inode.c` on a disk that changes sector by sector |
| `fs_entries.dfy`, `fs_dir.dfy`, `fs_path.dfy`, `fs_tree.dfy` | directories as finite maps, linking, unlinking, listing, the path search, and the tree under creating and deleting by path |
| `paging.dfy`, `paging_spaces.dfy`, `paging_heap.dfy`, `paging_boot.dfy` | the recursive page tables, many address spaces that share the kernel half, the functions of `kernel/memory.c` and `create_pml4` on them, and the boot tables |
| `arena.dfy`, `arena_steps.dfy`, `arena_heap.dfy`, `arena_effects.dfy` | the block allocator: sizes and addresses, its invariant step by step, `sys_malloc` and `sys_free`, and what they leave in every list and header |
| `sched.dfy`, `sync.dfy`, `sched_runs.dfy`, `sched_effects.dfy`, `sched_kernel.dfy`, `sched_fair.dfy` | threads, semaphores and reentrant locks as a step system with preemption, what each step leaves in every field and the order in which sleepers wake, the kernel's own functions, and how long a ready thread waits |
| `lifecycle.dfy`, `lifecycle_calls.dfy` | fork, exit and wait |
| `pipe_refs.dfy`, `pipe_table.dfy`, `pipe_effects.dfy`, `ring.dfy` | who refers to a pipe, what each call leaves in the descriptors, and the ring of bytes inside it |
| `game_rows.dfy`, `game_board.dfy`, `game_2048.dfy`, `game_score.dfy` | the game 2048 on its array, and the sum of its tiles over a whole game |
| `runs.dfy`, `runs_memory.dfy`, `runs_heap.dfy`, `runs_processes.dfy`, `runs_files.dfy` | arbitrary sequences of calls: the states met, what each call does, the invariant in every state, and where exactly a run ends |

The method of most files is the same. The state is a value; an invariant says how its parts hang together; small
lemmas show that each operation keeps it; and a class with the kernel's own fields, loops and assertions is proved to
perform exactly those operations. Ghost parameters of methods (`d0`, `files0`, `H`, `S`, ...) name the state at entry.
`hide` statements keep definitions out of proofs that do not need them.

## What does not hold

Some promises of the source hold only under a condition. The code is modelled as it is and the condition is proved.

- A write over several blocks that ends on a block boundary leaves its last block as it was (`FsVolume.StoredExact`).
- The block bitmap has as many bits as the partition has sectors, not as its data area has: the last ones stand for
  sectors behind the partition (`FsFormat.BlockInPartitionExactly`, `FsFormat.LastBitsAreOutside`).
- `inode_free` never gives the indirect block back (`FsStore.IndirectLeaks`).
- An `inode_write` that runs out of blocks keeps those it took (fs/inode.c:223-229): an indirect block stays in the
  in-core inode until that is closed, the others belong to no file (`FsStore.WriteBits`, `FsStore.OnlyIndirect`).
- `inode_alloc` loses the number it took when there is no memory for the inode (`FsInode.FileStore.InodeAlloc`), and
  `inode_free` clears a number in memory only: it does not write the inode bitmap to disk (fs/inode.c:291-311).
- Creating a path that ends with a slash makes a file without a name, and the tree is no longer in order, iff the
  directory has no free slot and everything else is there (`FsTree.Nameless`, `FsTree.CreateFileOrDirectory`).
- Deleting a path that ends with a slash is about the root, and panics, iff the directory has a free entry
  (`FsTree.Named`, `FsTree.DeleteFileOrDirectory`).
- `bitmap_alloc` reads past the bitmap when no run fits and the last bit is clear (the clause for
  `Overrun` of `Bitmaps.Bitmap.Alloc`; `Bitmaps.OverrunHappens` is such a bitmap).
- In the boot address space a page is mapped a second time, in the low half, iff it lies under PML4 entry 256
  (`BootTables.AliasSeesMapping`).
- A frame can back both a page and a table: exactly the frame of a PML4, which create_pml4 takes from the kernel heap
  (`AddressSpaces.PageIsTable`).
- A page's virtual bit is set iff map_stat is 4 as long as the free frames suffice for every page and its missing
  tables; else exactly `Served` pages are mapped and the rest of the run stays marked (`KernelHeap.Memory.AllocPages`).
- A large `sys_malloc` gets enough pages iff rounding its size does not wrap round 64 bits (`Arenas.PagesEnoughExactly`);
  an allocation that runs out of frames loses the pages it had marked (`ArenaSteps.LeakKeeps`).
- `thread_exit` takes its victim off the wrong list (`Synchronisation.RemoveExactly`).
- `alloc_pid` yields 0 when every pid is taken (`Lifecycle.ForkWithoutPid`).
- `sys_fd_redirect` keeps the counts of pipes only in the cases of `PipeRefs.RedirectExactly`, `sys_fork` only without
  open regular files (`PipeRefs.ForkExactly`), `sys_pipe` only with two closed descriptors (`PipeTable.PipedExactly`).
- `pipe_write` waits for ever iff the bytes do not fit into 2047 places (`Rings.IoQueue.PipeWrite`).
- `dir_unlink` reports success although its write failed (`FsDirectory.DirUnlink`), so a deletion leaves the tree in
  order iff that write had its buffer (`FsTree.DeleteFileOrDirectory`).
- Creating and deleting by path never give back the reference to the parent directory (the last clause of
  `FsTree.Created` and of `FsTree.Removed`), so that directory can then not be deleted (`FsTree.CreatedPinsParent`);
  deleting a file that somebody holds panics.
- Deleting a directory that is not empty leaves its files without a name (`FsTree.OrphansLeft`).
- `sys_readdir` returns the entry of the call before when `inode_read` fails (`FsPaths.SysReadDir`).
- `rmv` reads the cell behind the row, for the last row the one behind the grid (command/2048.c:124); the array of
  `Game2048.Rmv` has that cell.

## Model

| member | source | states |
|---|---|---|
| `Bitmaps.BitsAfterSet` | lib/kernel/bitmap.c:15-24 | Setting or clearing one bit of one byte changes exactly that bit of the bitmap read as booleans. |
| `Bitmaps.Bitmap.AllocABit` | lib/kernel/bitmap.c:26-34 | The least clear bit is taken and nothing else changes; -1 exactly when every bit is set. |
| `Bitmaps.TakeFirstCount` | lib/kernel/bitmap.c:26-34 | Taking the least clear bit n times leaves n clear bits fewer, or none. |
| `Bitmaps.TakeTwice` | lib/kernel/bitmap.c:26-34 | Taking n and then m is taking n + m. |
| `Bitmaps.Bitmap.Alloc` | lib/kernel/bitmap.c:36-56 | First fit: the least start of a run of clear bits, exactly that run becomes set; the exact conditions for success, for failure and for a scan that reads past the last byte. |
| `Bitmaps.SkipMissesNothing` | lib/kernel/bitmap.c:43-51 | The jump by `j` after a set bit passes over no candidate. |
| `Bitmaps.OverrunHappens` | lib/kernel/bitmap.c:39-43 | A bitmap on which the scan reads past the last byte. |
| `Bitmaps.FreeUndoesAlloc` | lib/kernel/bitmap.c:58-63 | Clearing a freshly taken run gives the bitmap back. |
| `IntrusiveLists.List.Insert` | lib/kernel/list.c:11-18 | The relinked elements form the old sequence with the new element at its place, doubly linked and without repetition. |
| `IntrusiveLists.List.Remove` | lib/kernel/list.c:20-25 | The list is the old sequence without that element; only the links of its neighbours change. |
| `IntrusiveLists.List.Pop` | lib/kernel/list.c:46-50 | The first element is returned and the rest is left. |
| `IntrusiveLists.List.Find` | lib/kernel/list.c:27-36 | The walk over the links answers membership in the sequence. |
| `IntrusiveLists.List.Empty` | lib/kernel/list.c:52-54 | Comparing the two sentinels tells whether the sequence is empty. |
| `IntrusiveLists.List.Len` | lib/kernel/list.c:67-76 | The walk counts the elements. |
| `FsFormat.SbInitWf` | fs/fs.c:291-319 | The block bitmap starts two sectors into the partition and has a bit for every sector of it and no sector too many; inode bitmap, a table for 4096 inodes of 160 bytes, and data area follow one behind the other. |
| `FsFormat.BlockInPartitionExactly` | fs/fs.c:297-319 | Which bits of the block bitmap stand for sectors inside the partition: all but those at the end that make up for the zones before the data area and for the rounding. |
| `FsFormat.LastBitsAreOutside` | fs/inode.c:162-174 | On the partition of the default disk bit 16824 of 20480 stands for the first sector behind it. |
| `FsFormat.InodeLayout` | fs/inode.h:12-20 | Where size, type and block numbers lie in the 160 bytes, lowest byte first; every other byte is copied. |
| `FsFormat.SlotIsFlat` | fs/inode.c:14-23 | Slot n is the 160 bytes from 160 n on of the table taken as one run of bytes. |
| `FsFormat.PtrBlockRoundTrip` | fs/inode.c:256-261 | 128 block numbers written as an indirect block are read back. |
| `FsFormat.DecodeEncode` | fs/inode.c:25-39 | An inode written to its slot is read back, whatever the uninterpreted bytes around its fields hold. |
| `FsFormat.SyncedOwnSlot` | fs/inode.c:25-39 | After inode_sync the slot holds the inode, also when it straddles two sectors. |
| `FsFormat.SyncedOtherSlot` | fs/inode.c:25-39 | inode_sync leaves every other slot as it was. |
| `FsFormat.SyncedOutsideTable` | fs/inode.c:14-39 | inode_sync changes no byte outside the table, even for the last slot, whose window reaches the data area. |
| `FsVolume.FirstBlock` | fs/inode.c:232-243 | The read-modify-write of the first block stores the bytes that belong there and keeps the others. |
| `FsVolume.LastBlock` | fs/inode.c:244-249 | The last block of several gets the remaining bytes, and none when the write ends on a block boundary. |
| `FsVolume.ProgressStep` | fs/inode.c:220-252 | One turn of the write loop: the block is stored, blocks of this and other files stay apart, everything else is untouched. |
| `FsVolume.WrittenContent` | fs/inode.c:191-265 | The file after a finished write is the old byte sequence with what the loop stores spliced in at `pos`, across direct and indirect blocks. |
| `FsVolume.FailedContent` | fs/inode.c:223-229 | After running out of blocks the file has its old size, and its old bytes up to the end except for those already overwritten. |
| `FsVolume.StoredExact` | fs/inode.c:219-249 | A write stores exactly its data iff it does not span several blocks and end on a block boundary, or the block it skips held those bytes already. |
| `FsVolume.SkipHappens` | fs/inode.c:244-247 | A concrete write whose last block keeps its old bytes. |
| `FsVolume.OtherFileKeeps` | fs/inode.c:191-265 | A write touches only blocks of its own file and fresh ones, so every other file keeps its bytes. |
| `FsVolume.GrewPtrsOk` | fs/inode.c:202-231 | Blocks taken by a write, finished or not, keep all block numbers of all files distinct and marked in the bitmap. |
| `FsVolume.RemovePtrsOk` | fs/inode.c:291-301 | Giving a file's blocks back keeps those of all other files distinct and marked. |
| `FsStore.AfterSuccess` | fs/inode.c:253-264 | A finished write leaves the store consistent: pointers, bitmap, in-core inode and slot agree. |
| `FsStore.AfterFailure` | fs/inode.c:204-229 | A write that fails on the way leaves the store consistent; only an empty indirect block may be in core and not yet in the slot. |
| `FsStore.HoleMeansGrowth` | fs/inode.c:222-229 | A write meets a missing block only beyond the end of the file, so overwriting never fails for want of blocks. |
| `FsStore.OpenedConsistent` | fs/inode.c:66-92 | Opening keeps one in-core inode a number, equal to the current version of the file. |
| `FsStore.CloseKeeps` | fs/inode.c:94-108 | Closing keeps the store consistent and every file's size, type and bytes; the root inode stays open. |
| `FsStore.AllocConsistent` | fs/inode.c:267-289 | A new inode is empty, in core once, and its slot agrees. |
| `FsStore.FreeConsistent` | fs/inode.c:291-311 | Freeing an inode keeps the store of the remaining files consistent. |
| `FsStore.FreedPtrsOk` | fs/inode.c:295-301 | The blocks freed are marked free and no other file uses them. |
| `FsStore.FreedBits` | fs/inode.c:294-301 | The block bitmap afterwards: clear is what was clear and what the file lists. |
| `FsStore.EmptyFrees` | fs/inode.c:294-301 | Freeing an empty file gives no block back. |
| `FsStore.IndirectLeaks` | fs/inode.c:295-301 | The indirect block is not among the blocks freed: its bit stays set after the file is gone. |
| `FsStore.FormatConsistent` | fs/fs.c:321-362 | A freshly formatted partition satisfies the invariant. |
| `FsInode.FileStore.Format` | fs/fs.c:321-427 | partition_format and mounting establish the invariant, with the root directory as the only file, zeros in every other slot, the inode bitmap on disk, and a block bitmap with a bit for every sector of the partition. |
| `FsInode.FileStore.BlockAlloc` | fs/inode.c:162-174 | The first free block is taken, -1 exactly when there is none, and the bitmap on disk is again the one in memory. |
| `FsInode.FileStore.BlockFree` | fs/inode.c:176-188 | The block is zeroed, its bit cleared in memory and on disk, nothing else in the data area changes. |
| `FsInode.FileStore.InodeSync` | fs/inode.c:25-39 | The two-sector read, patch and write is the abstract update of one slot. |
| `FsInode.FileStore.InodeWrite` | fs/inode.c:191-265 | Returns the count and stores the bytes, or -1; -1 exactly when the file would be too large, there is no buffer, or fewer blocks are free before the call than it takes: the missing ones of the range, and the indirect block if that is missing. The block bitmap afterwards is exact, a failed call keeps what it took; only this file changes, and the invariant holds either way. |
| `FsStore.NeedSplits` | fs/inode.c:204-229 | What a write takes is its indirect block and then its data blocks: the free blocks suffice for the whole iff they suffice for the one and then for the others, and the same bits are taken. |
| `FsStore.PresentBlocks` | fs/inode.c:215-231 | A block of the list is missing iff it lies beyond the end of the file. |
| `FsInode.FileStore.InodeRead` | fs/inode.c:123-160 | Returns exactly the slice of the file's byte sequence, cut at its end, or -1 exactly when nothing is there or no buffer can be had. |
| `FsInode.FileStore.InodeOpen` | fs/inode.c:66-92 | The inode is in the list once, with one reference more, as the slot or the list had it. |
| `FsInode.FileStore.InodeClose` | fs/inode.c:94-108 | One reference less; the last one takes the inode out of the list, after which the version is the one in its slot; no file changes for a reader. |
| `FsInode.FileStore.InodeAlloc` | fs/inode.c:267-289 | A number no file has, an empty inode at the head of the list; -1 exactly without a number or memory; the first clear bit of the inode bitmap is taken even without memory; all bytes of all files kept. |
| `FsInode.FileStore.InodeFree` | fs/inode.c:291-311 | The file goes with its number, exactly the blocks of its list are given back, every other file keeps its bytes. |
| `FsEntries.EntryRoundTrip` | fs/dir.h:8-12 | A directory entry written is read back, whatever its padding. |
| `FsEntries.EntryLayout` | fs/dir.h:8-12 | Where name, number, type and padding of an entry lie in its 32 bytes. |
| `FsEntries.ViewExactly` | fs/dir.c:10-27 | A name is in the directory's map iff a live entry holds it. |
| `FsEntries.NameMeansLive` | fs/dir.c:20-23 | Comparing names alone finds exactly the live entry, because free slots have empty names. |
| `FsEntries.EntriesAfterStore` | fs/dir.c:50-58 | 32 bytes written at an entry's offset change that entry only. |
| `FsEntries.PutView` | fs/dir.c:40-62 | Linking into a free slot or behind the last adds exactly that name to the map. |
| `FsEntries.ClearView` | fs/dir.c:72-74 | Clearing the slot removes exactly that name. |
| `FsEntries.ListedOnce` | fs/fs.c:243-254 | No name is listed twice. |
| `FsEntries.ListingIsView` | fs/fs.c:243-254 | An entry is listed iff the map binds its name to its number and type. |
| `FsDirectory.DirLookUp` | fs/dir.c:10-27 | The scan ends, finds a name iff the map has it, and opens the inode of that entry; an empty name finds the first free entry, that is the root, iff there is one. |
| `FsDirectory.DirLink` | fs/dir.c:29-63 | The map gains exactly the new name, in the first free slot before growing, or stays as it was; exactly when, in terms of the entries and the blocks that are free before the call; which blocks it takes, also in vain. An empty name counts as present iff a slot is free. All other files are the same versions and keep their bytes, and all reference counts their values. |
| `FsDirectory.EntryNeed` | fs/dir.c:53-62 | An entry takes blocks only behind the last one and at a block boundary: one, or two where the indirect block is missing. |
| `FsDirectory.DirUnlink` | fs/dir.c:65-76 | The map loses exactly that name; when the write cannot have a buffer the entry stays although success is reported. An empty name finds a free entry, and nothing changes. No block is taken, all other files are the same versions. |
| `FsDirectory.OpenedCount` | fs/inode.c:66-92 | Opening raises the count of its inode by one and no other. |
| `FsDirectory.ClosedCount` | fs/inode.c:94-108 | Closing lowers the count of its inode by one, except for the root, and no other. |
| `FsPaths.PathParse` | fs/fs.c:19-32 | The next name after any slashes, and where the path goes on. |
| `FsPaths.SplitJoined` | fs/fs.c:19-32 | Names joined with any number of slashes, and any number in front, come back when the path is taken apart; a slash at the end makes the last name empty. |
| `FsPaths.SearchFile` | fs/fs.c:53-86 | Finds exactly what following the names through the directories' maps gives; afterwards the returned inode has one reference more, every other but the root as many as before, and every file is the same version. |
| `FsPaths.SysReadDir` | fs/fs.c:243-254 | The next live entry from a position, or nothing at the end; when it cannot read, the entry of the call before again, or nothing. |
| `FsPaths.ListDir` | command/ls.c:9-29 | Reading on to the end lists every live entry exactly once, as the map has it. |
| `FsTree.LastIsSplit` | fs/inode.c:321-323 | The name strrchr cuts off a path is the one path_parse ends with. |
| `FsTree.CreateFileOrDirectory` | fs/inode.c:313-338 | An inode exactly when a number and memory are there, the parent exists, does not have the name, and has a free slot or can grow by the blocks that are free before the call. Then the directory gains exactly the name with a new empty file, all other files and names are what they were, and the tree stays one. A null result leaves all files and names as they were. Both bitmaps afterwards are exact. A path that ends with a slash makes a file without a name, where the directory has no free slot. |
| `FsTree.IsNameless` | fs/inode.c:322-339 | A live entry with an empty name is then the last of the directory, and the tree is no longer in order. |
| `FsTree.DeleteFileOrDirectory` | fs/inode.c:340-363 | The file, its number, its blocks and its name go and nothing else changes, exactly when it exists, is not the root and nobody holds it; otherwise false or a panic. A path that ends with a slash names the root if the directory has a free entry. The tree is in order afterwards iff the entry could be written. |
| `FsTree.VictimIsLookup` | fs/inode.c:340-349 | What is deleted is what the path leads to, unless it ends with a slash. |
| `FsTree.UnlinkFreed` | fs/inode.c:357-359 | dir_unlink of a number that has just been freed touches only the one entry. |
| `FsInode.FileStore.TouchFreed` | fs/dir.c:65-72 | Opening and closing a freed number leaves the list of open inodes as it was. |
| `FsTree.LinkTree` | fs/dir.c:29-63 | A new file with one entry keeps all directories finite maps, no name without a file, and no file with two names. |
| `FsTree.UnlinkTree` | fs/dir.c:65-76 | Removing a file and its entry keeps them too. |
| `FsTree.StaleTree` | fs/dir.c:73-75 | An entry left behind by a failed write is a name without a file. |
| `FsTree.CreatedIsFound` | fs/inode.c:313-338 | After a creation the path leads to the new inode, and every path that led somewhere still leads there. |
| `FsTree.DeletedIsGone` | fs/inode.c:340-363 | After a deletion the name is found no more, other names are found as before. |
| `FsTree.DeleteUndoesCreate` | fs/inode.c:313-363 | Creating and deleting gives back the files and names there were. |
| `FsTree.FormattedTree` | fs/fs.c:354-362 | A volume that holds the entries . and .. of the root alone is a tree. |
| `FsTree.MakeVolume` | fs/fs.c:322-422 | Formatting and mounting give a store in order whose directories are a tree, whatever the disk held; the bitmap has a bit for every sector of the partition and starts two sectors into it; one block and one number are taken, and any further name can be linked into the root. |
| `FsTree.FreshHolds` | fs/fs.c:351-360 | The fresh root has room for any name but its two, whatever blocks are free. |
| `FsTree.WithEntryReads` | fs/fs.c:354-361 | An entry written with strcpy over anything is read back. |
| `FsTree.OrphansLeft` | fs/inode.c:340-363 | The files of a directory that is deleted exist on, and no entry refers to them. |
| `FsTree.CreatedPinsParent` | fs/inode.c:313-338 | A directory in which a file has been created cannot be deleted while nobody gives that reference back. |
| `Paging.FuIndices` | kernel/memory.c:10-51 | The address that level `l` computes takes the self-entry 4 - l times and then the upper indices of the argument. |
| `Paging.RecursiveWalk` | kernel/memory.c:10-51 | Walking the four entry addresses through self-entry 511 lands on the argument's own entry at every level. |
| `Paging.InstallEffect` | kernel/memory.c:91-105 | Installing an unused frame in an absent entry adds exactly that path and changes no other. |
| `Paging.InstallKeeps` | kernel/memory.c:91-105 | It keeps the tables a tree: no frame is reached by two paths. |
| `Paging.ClearEffect` | kernel/memory.c:179-181 | Clearing a present bit removes exactly that translation. |
| `Paging.ClearKeeps` | kernel/memory.c:172-188 | The tables stay a tree afterwards. |
| `Paging.StatIs` | kernel/memory.c:82-89 | map_stat is the first level at which the entry is absent, 4 iff the page is mapped. |
| `KernelHeap.Memory.AddrV2P` | kernel/memory.c:53-55 | The translation of a mapped page plus the offset. |
| `KernelHeap.Memory.MapStat` | kernel/memory.c:82-89 | The loop over the four entry addresses computes map_stat through the recursive window. |
| `KernelHeap.Memory.Palloc` | kernel/memory.c:67-79 | The first free frame, or none exactly when every frame is taken. |
| `KernelHeap.Memory.PageMap` | kernel/memory.c:91-105 | Adds exactly the one translation and the tables that were missing for it, as steps in this address space; the first free frames are taken, one a missing table; a failed assertion exactly on a mapped page, or when fewer frames are free than tables are missing. |
| `KernelHeap.Memory.AllocPages` | kernel/memory.c:138-162 | A first-fit run of pages of the kernel or of a process. As many of them get mapped, to frames that were free, as there are frames for with their tables; the pages are returned iff that is all, the rest stays marked and unmapped; virtual bits and mappings agree iff none was missing. Exactly the first free frames are taken, one a page and one a missing table. |
| `KernelHeap.ServedIs` | kernel/memory.c:149-162 | The number of pages mapped is the greatest for which the free frames are enough, with the tables missing for them. |
| `KernelHeap.AbsentStep` | kernel/memory.c:91-105 | The tables missing for one page more are those that the page still lacks when its turn comes. |
| `KernelHeap.Verdict` | kernel/memory.c:149-162 | Exactly when alloc_pages succeeds, returns NULL for want of a page frame, and fails an assertion for want of a table frame. |
| `KernelHeap.Memory.FreePages` | kernel/memory.c:172-194 | Exactly those pages are unmapped and their virtual bits cleared, in all spaces that share them; the frames stay marked used. |
| `KernelHeap.Memory.GetPage` | kernel/memory.c:196-206 | One page of the low half: exactly when it is mapped, when NULL is returned and when an assertion fails, and the frames it takes. |
| `KernelHeap.Memory.CreatePml4` | userprog/process.c:39-49 | The page of the kernel heap becomes the PML4 of a space that shares exactly the kernel half; all spaces stay in order. |
| `KernelHeap.HeapEverywhere` | userprog/process.c:39-49 | The kernel's pool is in order in one space iff it is in all. |
| `KernelHeap.HeapPathsApart` | kernel/memory.c:127-150 | Different heap pages have different paths through the tables. |
| `BootTables.AliasSeesMapping` | boot/boot.asm:119-120 | In the boot space mapping a page adds a second translation, through the low alias, iff the page lies under PML4 entry 256. |
| `BootTables.RunKeepsAlias` | boot/boot.asm:119-120 | No run changes the boot PML4, so the alias stays. |
| `BootTables.BootIsAliased` | boot/boot.asm:119-120 | The boot tables have the alias. |
| `BootTables.BootShared` | boot/boot.asm:115-133 | The boot tables over a free pool satisfy the invariant of the address spaces, with no heap page mapped. |
| `AddressSpaces.CreateShared` | userprog/process.c:39-49 | Making a space of a frame that is mapped as a heap page keeps the invariant. |
| `AddressSpaces.PageIsTable` | kernel/memory.c:91-105 | A frame mapped as a page is a table of a space exactly when it is that space's PML4. |
| `AddressSpaces.PagesApart` | kernel/memory.c:91-105 | No frame backs two pages of a space, and none a page in two spaces but one and the same kernel page. |
| `AddressSpaces.UserHalfPrivate` | kernel/memory.c:91-105 | What happens in one space changes no page of the low half of another. |
| `AddressSpaces.RunPrivate` | kernel/memory.c:91-105 | A run of steps in one space changes no page of the low half of another. |
| `AddressSpaces.InstallShared` | kernel/memory.c:91-105 | Mapping kernel pages in any space and user pages in created ones keeps the sharing invariant. |
| `AddressSpaces.UnmapShared` | kernel/memory.c:172-188 | So does unmapping. |
| `AddressSpaces.KernelHalfAgrees` | userprog/process.c:39-49 | All spaces translate every kernel-half page alike. |
| `AddressSpaces.RunAgrees` | userprog/process.c:39-49 | After any run of mapping, unmapping and creating, all spaces agree on the kernel half. |
| `Arenas.Sizes` | kernel/memory.c:115-124 | The seven classes and the blocks an arena of each holds. |
| `Arenas.MaskUndoes` | kernel/memory.c:237-244 | On 64-bit addresses block2arena inverts arena2block. |
| `Arenas.BlockFacts` | kernel/memory.c:237-244 | Every block lies behind the header of its own page. |
| `Arenas.BlocksApart` | kernel/memory.c:241-244 | Blocks of an arena do not overlap. |
| `Arenas.PagesEnoughExactly` | kernel/memory.c:264-271 | The pages of a large allocation hold header and bytes iff the rounding does not wrap round 64 bits, and one page less would not. |
| `Arenas.LiveInPages` | kernel/memory.c:259-297 | A live allocation lies behind the 16 bytes of its own header, within its own pages, and has the room asked for, unless the rounding wrapped. |
| `Arenas.LiveBehindHeaders` | kernel/memory.c:276-289 | The bytes of a live allocation, small or large, touch no header, neither its own nor that of another page. |
| `Arenas.LiveApart` | kernel/memory.c:259-297 | Live allocations do not overlap. |
| `Arenas.CountAll` | kernel/memory.c:310-312 | An arena's count is full iff all its blocks are on the free list. |
| `Arenas.AllFreedRestores` | kernel/memory.c:299-325 | When nothing is live no arena is left and the page bitmap is what it was before. |
| `ArenaSteps.PopKeeps` | kernel/memory.c:285-289 | Taking a block off its list keeps lists, counts and live allocations in agreement. |
| `ArenaSteps.NewArenaKeeps` | kernel/memory.c:246-257 | A new arena puts all its blocks on the list of its class. |
| `ArenaSteps.PushKeeps` | kernel/memory.c:307-310 | Giving a block back keeps them in agreement. |
| `ArenaSteps.DropKeeps` | kernel/memory.c:310-320 | A fully free arena leaves its list and gives its page back; no live allocation is in it. |
| `ArenaSteps.AllBlocksFree` | kernel/memory.c:313-318 | The assertion of sys_free on a full count: every block is on the list. |
| `ArenaSteps.LeakKeeps` | kernel/memory.c:149-162 | Pages marked before frames run out are lost, and nothing else is. |
| `ArenaHeap.Allocator.SysMalloc` | kernel/memory.c:259-297 | The oldest free block of the least class that fits, from a new arena in the first clear page if that class has none, or the first run of pages that is long enough; the exact new state, an address not live before, behind its header and with the room asked for unless the rounding wrapped, the invariant kept. Exactly when it returns an address, NULL, or does not return, in terms of the lists, the bitmap and the free frames. The pages it marks are mapped, to the first free frames, and nothing else in the space changes. |
| `ArenaHeap.Allocator.SysFree` | kernel/memory.c:299-325 | Exactly this allocation ends: its run of pages is given back, or its block joins the end of its list and a fully free arena is dissolved. The pages given back are unmapped, their frames stay taken, and nothing else in the space changes. |
| `ArenaHeap.Allocator.AllFreed` | kernel/memory.c:299-325 | With everything freed the pool marks only the pages of others. |
| `HeapEffects.FreedRun` | kernel/memory.c:304-306 | Freeing a large allocation clears exactly its pages in the bitmap and drops its header. |
| `HeapEffects.FreedBlock` | kernel/memory.c:307-321 | A freed block is last on the list of its class and counted; with the last one of an arena all its blocks leave the list, the rest in order, and the page is given back. |
| `HeapEffects.TookPagesLeaves` | kernel/memory.c:264-276 | A large allocation is 16 bytes into the first run of clear pages that is long enough. |
| `HeapEffects.TookOldest` | kernel/memory.c:285-289 | A small request gets the first block of the list of the least class that fits, and the rest of the list stays in order. |
| `HeapEffects.TookFresh` | kernel/memory.c:246-257 | With an empty list it gets the first block of the first free page, whose other blocks are on the list by address. |
| `ArenaHeap.MemDescInit` | kernel/memory.c:115-124 | The loop computes the class sizes and counts. |
| `Scheduling.Sched` | thread/thread.c:209-232 | From any state of the lists schedule ends with one running thread, lists exact again and locks untouched. |
| `Scheduling.IdleIsBlocked` | thread/thread.c:219-221 | When schedule finds no ready thread the idle thread is BLOCKED and on no list, so its unblocking cannot fail. |
| `Interleavings.StepKeeps` | thread/thread.c:209-268 | Every step of every thread and interrupt keeps the invariant of lists, locks and wakeups. |
| `Interleavings.RunKeeps` | thread/thread.c:209-268 | So every state of every interleaving satisfies it. |
| `Interleavings.BootInv` | thread/thread.c:271-293 | It holds when thread_init is done. |
| `Interleavings.OneListPerTag` | thread/thread.c:209-268 | A thread's tag is on at most one list, once: READY threads on the ready list, semaphore sleepers on exactly that list of waiters, the running thread on none. |
| `Interleavings.MutualExclusion` | thread/sync.c:46-65 | At most one thread is inside a lock, and holder and count are that thread and its nesting depth. |
| `Interleavings.HolderOwns` | thread/sync.c:46-65 | Outside the lock code a thread is the holder iff its depth is positive, and the count is its depth. |
| `Interleavings.NoLostWakeup` | thread/sync.c:19-44 | A semaphore with value 1 and waiters has a woken thread that is running or ready and about to try again. |
| `Interleavings.AssertsHold` | thread/sync.c:19-65 | No assertion of schedule, thread_unblock, thread_yield, sema_down, sema_up, lock_acquire and lock_release fails for balanced callers. |
| `Interleavings.PidStays` | thread/thread.c:65-76 | No step of a thread that may be preempted touches the pid lock, so it stays free. |
| `Interleavings.RunPidFree` | thread/thread.c:65-76 | In every state of every interleaving the pid lock is free. |
| `Interleavings.PidTrip` | thread/thread.c:65-76 | Taking the free pid lock and releasing it with interrupts off waits for nobody and leaves the whole state as it was. |
| `Interleavings.BootPidFree` | thread/thread.c:55-63 | The pid lock is free when thread_init is done. |
| `Synchronisation.RemoveExactly` | thread/thread.c:83-85 | Because thread_exit searches the wrong list, the ready list stays exact iff the victim was not READY. |
| `Synchronisation.FirstWaiterSleeps` | thread/sync.c:35-40 | The waiter that sema_up pops is BLOCKED and on no other list. |
| `ThreadKernel.Kernel.Schedule` | thread/thread.c:209-232 | The statements of schedule, assertions included, do what the step system says. |
| `ThreadKernel.Kernel.SemaDown` | thread/sync.c:19-30 | One turn of sema_down, with its assertions, is the step; the invariant holds after it. |
| `ThreadKernel.Kernel.SemaUp` | thread/sync.c:32-44 | sema_up, with its assertions, wakes the first waiter and sets the value to 1. |
| `ThreadKernel.Kernel.LockRelease` | thread/sync.c:55-62 | The assertions at the head of lock_release hold for a thread that has the lock. |
| `ThreadKernel.Kernel.Continue` | thread/sync.c:46-65 | Every statement inside lock_acquire and lock_release is the step and keeps the invariant. |
| `ThreadKernel.Kernel.IntrTimeHdl` | device/timer.c:40-49 | A timer interrupt takes one tick off the running thread, or puts it last on the ready list with a quantum that is exactly its priority. |
| `ThreadKernel.Kernel.ThreadBlock` | thread/thread.c:235-246 | For every status: the caller has that status and every other field it had, is off the ready list and off the processor, the first of the list runs; the invariant is kept. |
| `ThreadKernel.Kernel.ThreadYield` | thread/thread.c:259-268 | The caller is READY and last on the list and the first of the list runs; alone it runs on. |
| `ThreadKernel.Kernel.ThreadStart` | thread/thread.c:192-206 | thread_start, from the ready list on, is the step and keeps the invariant. |
| `ThreadKernel.Kernel.PassPidLock` | thread/thread.c:65-76 | The eight statements on the pid lock, assertions included, on the kernel's own fields. |
| `ThreadKernel.Kernel.ThreadExit` | thread/thread.c:79-102 | The victim is in no table and on no list any more, nobody else changes but the thread that is dispatched; release_pid included. |
| `StepEffects.BlockLeaves` | thread/thread.c:235-246 | What thread_block leaves in every field, for every status, the idle thread included. |
| `StepEffects.YieldLeaves` | thread/thread.c:259-268 | What thread_yield leaves: READY, last on the list, the same ticks. |
| `StepEffects.TimerLeaves` | device/timer.c:40-49 | What a timer interrupt leaves: one tick less, or READY and last with as many ticks as the priority says. |
| `StepEffects.ExitLeaves` | thread/thread.c:79-102 | What the exit of the running thread leaves: everything but that thread and who runs. |
| `StepEffects.ReapLeaves` | thread/thread.c:79-102 | thread_exit of a HANGING thread takes that thread away and nothing else. |
| `StepEffects.SpawnLeaves` | thread/thread.c:192-206 | One new READY thread, last on the list, its ticks equal to its priority. |
| `StepEffects.UnblockLeaves` | thread/thread.c:247-257 | The thread is READY and first on the list, nobody else changes. |
| `StepEffects.DownSleeps` | thread/sync.c:21-26 | sema_down at 0: the caller is BLOCKED, last of the waiters, and tests the value again before anything else; the value stays 0. |
| `StepEffects.DownTakes` | thread/sync.c:27-29 | sema_down at 1: the value is 0, the caller runs on, a lock has it for its owner. |
| `StepEffects.UpLeaves` | thread/sync.c:32-44 | sema_up: the first waiter is READY and first on the ready list, the others wait in order, the value is 1, the caller runs on. |
| `StepEffects.EnterLeaves` | thread/sync.c:46-60 | lock_acquire goes past the semaphore iff the caller has the lock, lock_release counts down iff it has it more than once. |
| `StepEffects.StatementLeaves` | thread/sync.c:46-65 | Holder and count after every statement on a lock, in terms of how often the thread has it; nothing else is written. |
| `StepEffects.WaitersMove` | thread/sync.c:19-44 | Every step leaves the waiters of a semaphore as they are, takes the first off, or adds the caller at the end. |
| `StepEffects.SleeperPlace` | thread/sync.c:19-44 | Over every run a sleeper at position k of the waiters stays BLOCKED, one place further with each sema_up, while there have been at most k. |
| `StepEffects.WokenInOrder` | thread/sync.c:19-44 | It is woken by exactly the sema_up number k + 1, and is then first on the ready list. |
| `Fairness.StepMoves` | thread/thread.c:209-268 | schedule moves a ready thread one place forward, thread_unblock one place back, nothing else moves it. |
| `Fairness.RunsByCall` | thread/thread.c:209-268 | A thread at position k runs no later than schedule call k + 1 + u, with u the calls of thread_unblock meanwhile. |
| `Fairness.RunsByTick` | device/timer.c:40-49 | Without such calls it waits at most the sum of priority + 1 timer interrupts over the running thread and those ahead. |
| `Lifecycle.ForkKeeps` | userprog/fork.c:12-30 | fork keeps pids distinct, parents listed and not HANGING, and the conditions on WAITING and HANGING processes. |
| `Lifecycle.ForkWithoutPid` | thread/thread.c:65-70 | With no pid left the child gets pid 0 and the invariant is lost. |
| `Lifecycle.LoseKeeps` | userprog/fork.c:94-108 | A fork that fails after alloc_pid loses the pid and nothing else. |
| `Lifecycle.ParentAfterAdoption` | userprog/wait_exit.c:83-97 | The search for the parent's pid in sys_exit finds one thread, which is not HANGING. |
| `Lifecycle.ExitKeeps` | userprog/wait_exit.c:83-99 | exit keeps the invariant: init adopts the children, a waiting parent is woken. |
| `Lifecycle.ExitFields` | userprog/wait_exit.c:83-99 | Every field of every process after exit. |
| `Lifecycle.ReapKeeps` | userprog/wait_exit.c:60-72 | wait delivers the status that was passed to exit, cut to 8 bits, for a process that has delivered none, and keeps the invariant. |
| `Lifecycle.SleepKeeps` | userprog/wait_exit.c:73-78 | wait sleeps only with a child and without a HANGING one, so a WAITING process other than init is always in that state. |
| `Lifecycle.HangingIsChildless` | userprog/wait_exit.c:83-99 | A HANGING process has no children. |
| `LifecycleCalls.Processes.SysFork` | userprog/fork.c:127-147 | One new process, last on the list, with the least free pid, its parent's number and status, and nothing else changed; failures leave the list as it was. |
| `LifecycleCalls.Processes.SysExit` | userprog/wait_exit.c:83-99 | The adoption loop, the search and the wakeup: the caller is HANGING with its status cut to 8 bits, its children have parent 1, a WAITING parent runs; the parent is never missing. |
| `LifecycleCalls.Processes.SysWait` | userprog/wait_exit.c:57-80 | One turn of sys_wait reaps the first HANGING child, which goes with its pid and nothing else, reports that there is none at all, or sleeps. |
| `LifecycleCalls.AllocPid` | thread/thread.c:65-70 | The least free pid, or 0 exactly when all are taken. |
| `PipeRefs.CloseKeeps` | fs/fs.c:109-128 | Closing keeps every pipe's count equal to its descriptors, and its page goes exactly with the last one. |
| `PipeRefs.NewPipeKeeps` | pipe/pipe.c:13-26 | A pipe with its two descriptors counts 2. |
| `PipeRefs.RedirectExactly` | pipe/pipe.c:62-70 | Redirection keeps the counts iff it is of a standard descriptor, changes nothing, or drops a regular file for a closed one. |
| `PipeTable.FileTables.SysFdRedirect` | pipe/pipe.c:62-70 | The descriptor then refers to the entry the other one referred to, or to the standard entry when that one is below 3; every other descriptor, process and entry is as it was. |
| `DescriptorEffects.RedirectUndone` | shell/shell.c:154-174 | Redirecting a standard descriptor to an end of a pipe keeps all counts, and redirecting it to itself afterwards gives the tables back. |
| `DescriptorEffects.CloseLeaves` | fs/fs.c:109-128 | Closing closes that descriptor alone; the count of a pipe goes down by one, and the entry is given up with the last one or with a file. |
| `DescriptorEffects.PipedLeaves` | pipe/pipe.c:13-26 | The reading end is the first closed descriptor, the writing end the next one, both refer to the new entry, which counts 2. |
| `DescriptorEffects.ForkLeaves` | userprog/fork.c:48-62 | The child has the parent's descriptors, the standard ones included; every pipe's count rises by the descriptors that refer to it, and nothing else changes. |
| `DescriptorEffects.ReleaseLeaves` | userprog/wait_exit.c:35-55 | After exit the process has its standard descriptors only; other processes, and entries it did not refer to, stay as they are. |
| `PipeRefs.ForkExactly` | userprog/fork.c:48-62 | fork keeps the tables consistent iff the parent holds no regular file. |
| `PipeTable.PipedExactly` | pipe/pipe.c:13-26 | The count of 2 is right iff the process had two closed descriptors. |
| `PipeTable.FileTables.GetFreeSlotInGlobal` | fs/file.c:8-16 | The first unused entry from 3 on, or -1 exactly when there is none. |
| `PipeTable.FileTables.SysClose` | fs/fs.c:109-128 | The effect on both tables, and 0 exactly when the entry is given up. |
| `PipeTable.FileTables.SysFork` | userprog/fork.c:48-62 | The loop over the descriptors raises the count of every pipe once a descriptor. |
| `PipeTable.FileTables.ReleaseAll` | userprog/wait_exit.c:35-55 | exit closes every descriptor in turn and drops the process, so the counts are right without it. |
| `Rings.FullExactly` | device/ioqueue.c:12-24 | Full means 2047 bytes, empty means none, under wrap-around. |
| `Rings.PutAppends` | device/ioqueue.c:61-62 | Storing at head and advancing it appends to the queue. |
| `Rings.GetRemoves` | device/ioqueue.c:45-46 | Advancing tail removes the oldest byte. |
| `Rings.IoQueue.IoqLength` | device/ioqueue.c:68-76 | The computed length is the length of the queue. |
| `Rings.IoQueue.GetChar` | device/ioqueue.c:38-52 | The oldest byte, waking a waiting producer; it waits exactly on an empty queue. |
| `Rings.IoQueue.PutChar` | device/ioqueue.c:54-66 | Appends the byte, waking a waiting consumer; it waits exactly on 2047 bytes. |
| `Rings.IoQueue.PipeRead` | pipe/pipe.c:28-43 | The oldest min(length, count) bytes, never waiting. |
| `Rings.IoQueue.PipeWrite` | pipe/pipe.c:45-60 | Appends in order and gets stuck iff length + count exceeds 2047. |
| `Rings.IoQueue.ReadIsPrefix` | device/ioqueue.c:38-66 | What has been read is a prefix of what has been written. |
| `Game2048.Rmv` | command/2048.c:122-127 | The cell goes, the rest of the row moves up, a blank comes last, although the cell behind the row is read. |
| `Game2048.DropBlanks` | command/2048.c:132-136 | The first loop leaves the tiles in order, padded with blanks. |
| `Game2048.MergeTiles` | command/2048.c:137-142 | The second loop merges equal neighbours once, left to right. |
| `GameRows.MergeGroups` | command/2048.c:137-142 | What merging means without a recursion: the row falls into groups of two equal tiles or of one that differs from the next, and each group leaves one tile. |
| `Game2048.MvLeft` | command/2048.c:129-145 | Every row becomes its compacted, merged and padded form; nothing else changes. |
| `Game2048.Trans` | command/2048.c:148-154 | The nested loops transpose. |
| `Game2048.TOver` | command/2048.c:156-162 | The nested loops mirror. |
| `GameBoards.UpColumns` | command/2048.c:169-175 | Up does to every column what left does to a row. |
| `GameBoards.RightRows` | command/2048.c:177-183 | Right does it to every row read backwards. |
| `GameBoards.DownColumns` | command/2048.c:185-194 | Down does it to every column read backwards. |
| `GameBoards.TotalKept` | command/2048.c:164-194 | Each move conserves the sum of the tiles. |
| `GameBoards.TilesKept` | command/2048.c:129-145 | A move at most doubles the greatest tile and makes only powers of two. |
| `Game2048.BAdd` | command/2048.c:102-120 | Exactly the chosen blank becomes 2 or 4; -1 exactly on a full board. |
| `Game2048.RandExactly` | command/2048.c:93-100 | The next number is 6807 times the last, less what wraps round 32 bits, modulo 2 to the 31 less 1. |
| `Game2048.Num2Idx` | command/2048.c:51-58 | Ends, below 12, on every power of two up to 2048, with its exponent. |
| `Game2048.Move` | command/2048.c:164-197 | The chosen move, its sum kept, cells still powers of two up to 2048. |
| `Game2048.Play` | command/2048.c:199-221 | The boards that are drawn: the first is the blank grid after two badd, each later one is badd on the move that the key names; the game is won with the first board that shows 2048, over exactly when a move leaves no blank, and stops at QUIT or without keys; all cells are powers of two up to 2048. |
| `GameScores.DrawnScore` | command/2048.c:199-221 | The tiles of the board drawn after n keys add up to between 2 (n + 2) and 4 (n + 2). |
| `GameScores.WonLate` | command/2048.c:199-221 | So nobody wins before 511 boards have been drawn. |
| `MemoryRuns.RunPages` | kernel/memory.c:138-194 | Over every run of allocations, frees, create_pml4, switches of the address space and user pages: what each call does to mappings and frames, the invariant of all spaces and of the kernel's pool in every state, and that the run ends exactly where the frames are too few or an assertion fails. |
| `MemoryRuns.BootPages` | boot/boot.asm:115-133 | The boot tables are a state such a run starts from. |
| `HeapRuns.RunHeap` | kernel/memory.c:259-325 | Over every run of sys_malloc and sys_free: what each call does to the allocator, the mappings and the frames, the invariant in every state, the bitmap back where it was whenever everything is freed and no run was lost, and the exact end of a run. |
| `ProcessRuns.RunProcesses` | userprog/wait_exit.c:57-99 | Over every run of fork, exit and wait: what each call does, the invariant in every state, and that a run ends exactly at a fork without a pid. |
| `DescriptorRuns.RunDescriptors` | pipe/pipe.c:13-70 | Over every run on descriptors: what each call does, the counts of the pipes right in every state, and that a run ends exactly at a pipe without an entry or two descriptors. |
| `StoreRuns.RunStore` | fs/inode.c:66-311 | Over every run on inodes, failed calls included: the result of each call and exactly when it is -1, what it does to files, open inodes and both bitmaps, the store consistent in every state, and that a run ends exactly at a free of an inode open more than once. |
| `PathRuns.RunPaths` | fs/inode.c:313-363 | Over every run by path, in any working directory: the result of each call and exactly when it fails, what it does to files, names and both bitmaps, directories finite maps of files that exist, each with one name, over a consistent store in every state, and the exact panics. |

## Left out

What a contract does not say:

- FsInode.FileStore.InodeWrite: `pos` is at most the file's size, which `sys_lseek` sees to (fs/fs.c:211-214); `pos + count` is not cut to 64 bits; block numbers and sizes are below 2 to the 32.
- FsInode.FileStore.InodeRead: `pos + count` is not cut to 64 bits.
- FsInode.FileStore.InodeFree: covers an inode with one reference that is not the root; the source panics for any other count.
- FsInode.FileStore.InodeOpen: the number must belong to a file, and is taken from the argument: the field i_no of a slot, which always holds the number of the slot, is among the uninterpreted bytes; memory for the in-core inode is there, as the source asserts.
- FsInode.FileStore.Format: the disk reaches as far as the block bitmap counts, beyond the end of the partition; the writes of formatting are one update of the disk.
- FsDirectory.DirLink: names are shorter than 16 bytes; longer ones overrun the entry in the source. One Boolean stands for the buffers of all reads and one for that of the write.
- FsDirectory.DirUnlink: the entry refers to an existing file; `FsTree.UnlinkFreed` is the case in which it has just been freed.
- FsTree.CreateFileOrDirectory: the last name of the path is shorter than 16 bytes; longer ones overrun the entry in the source.
- FsTree.DeleteFileOrDirectory: the second close of the inode that is already freed is left out.
- FsPaths.SearchFile: names in a path are shorter than 16 bytes; the root's own count, which only grows, is not told.
- KernelHeap.Memory.CreatePml4: memset and memcpy act on a page at once.
- KernelHeap.Memory.GetPage: one turn of the loop of `get_pages`.
- KernelHeap.Memory.FreePages: frames are marked used and never handed out again, so nothing is said about recycling them.
- AddressSpaces.RunAgrees: the unit of a run is one table entry or one frame, which is finer than a call; `MemoryRuns.RunPages` is about calls.
- ArenaHeap.Allocator.SysFree: the address must be live; the memory behind headers is a map from pages to headers.
- ArenaHeap.Allocator.SysMalloc: one pool at a time, the kernel's or that of the process whose space is loaded; addresses are counted from the start of the pool.
- Interleavings.StepKeeps: `thread_start` joins both lists in one step, `thread_unblock` is one step, since its callers have interrupts off; releases balance acquires, `sema_up` follows a `sema_down`, only `sema_up` wakes a semaphore's sleepers, and threads die without locks. alloc_pid and release_pid are part of the steps that call them, since interrupts are off there (`Interleavings.PidTrip`).
- Interleavings.AssertsHold: the assertions on stack magic, on the interrupt flag and inside `thread_exit`'s page handling are not part of the state.
- Lifecycle.ForkKeeps: a system call is one step because it has interrupts off; the pid lock is free there (`Interleavings.RunPidFree`). Threads of the kernel have parent 0, which holds for memory that starts as zeros.
- Lifecycle.SleepKeeps: the condition on WAITING processes leaves init out, which adoption does not wake.
- PipeRefs.CloseKeeps: descriptors 0 to 2 are not counted, so a pipe they alone refer to is gone, as in the source.
- Rings.IoQueue.PutChar: the call ends where it would wait; what happens with several waiting threads is not modelled.
- Game2048.Play: keys and clock readings are parameters and drawing is reduced to its index computation; getting an unknown key only asks again.
- Fairness.RunsByTick: the bound is for stretches without `thread_unblock`, as the claim is.
- StoreRuns.RunStore: a write starts inside the file or at its end, and the root is not freed. The slot of an inode that is open is told through the version that closing it leaves.
- PathRuns.RunPaths: `WriteFile` does not write directories, and the last name of `CreateAt` is shorter than 16 bytes.

What is not modelled at all:

- Boot code except the boot page tables, interrupt entry and exit, `switch_to`, TSS, PIC and MSR set-up, and system call stubs; a context switch is a change of `current`.
- Port input and output of the disk and busy waiting: the disk is a sequence of sectors, `ide_read` and `ide_write` are atomic.
- Console, keyboard tables, `printf`, the shell and the other commands.
- The translation cache, `flush_tlb_force`, and `release_prog_mem`, which frees table frames that are still linked.
- fork's copying of memory, stacks and free lists; ELF loading and `execv`; `snake.c`.
- File positions of regular descriptors after failed reads and writes, and regular descriptors shared by fork beyond `PipeRefs.ForkExactly`.
- The inode lock: operations on one inode are taken one at a time.
- The global tick counter and `mtime_sleep`.
- Errors of one memory allocation inside an operation other than the Boolean parameters `memOk`, `writeOk`, `pageOk`, `room` and `mem`.
