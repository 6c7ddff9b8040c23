# tCore in Dafny

tCore is a teaching operating system for 64-bit RISC-V with a small file system, easy-fs. This project models the parts
of it where correctness is hardest to see, and proves what they promise:

- **easy-fs** (`Bytes`, `IndexTree`, `FileData`, `Layout`, `Bitmap`, `DiskFormat`, `FsState`, `FsSteps`, `Directory`,
  `OnDisk`, `FsSpec`, `Paths`, `Mount`, `Vfs`, `Format`, `FsHistory`): bytes on a block device, with inodes whose index
  tree has direct, indirect and double-indirect blocks, bitmaps, directories and a super block. The main theorem,
  `Format.Run`, says that every run of operations behaves like a table of byte sequences and directories; `FsHistory`
  says what that means to a caller: a read returns what was last written, a listing the names that were made, and a path
  once there leads to the same node for good. The link is a ghost map that names for each data block the inode and the
  slot it serves; one map serves for "no block is shared", "none is leaked" and "the bitmap is exact".
- **The block cache** (`BlockCache`, `CacheRun`, `CacheUse`): sixteen cached blocks with shared handles and write-back,
  shown to be indistinguishable from plain blocks up to the lookup that panics. The file operations are shown never to
  make that lookup, and never to lock a block that they hold.
- **Virtual memory** (`Sv39`, `PageTable`, `Areas`, `MemorySet`, `Load`, `Fork`, `Isolation`, `Spaces`, `Kernel`,
  `KernelRun`): the three-level page table in physical memory refines a finite map, agrees with the hardware walk,
  survives map and unmap, is copied by fork, and gives back every frame, over whole runs of all address spaces, in which
  areas and trampolines are what some event made them. A ghost map names the use of each frame handed out.
- **Scheduling and blocking** (`Ids`, `Counting`, `Sched`, `Threads`, `Purge`, `Scheduler`, `SchedRun`, `SyncRun`,
  `ThreadRun`, `Steal`): the processor, the ready queue, the timers and the wait queues of semaphores, mutexes and
  condition variables. The kernel runs on one processor and does not switch threads while in the kernel, so what a
  thread does between two schedule points is one step, and runs are sequences of steps.
- **Two programs on top of it** (`Phases`, `Mpsc`, `MpscRun`, `Barrier`): the bounded buffer and the barrier of the user
  programs, for any number of threads and every interleaving of their memory accesses and system calls. The semaphores
  of the bounded buffer change by the same functions that `SyncRun.ObjectAfter` proves of the kernel's.
- **Processes** (`ProcTree`, `Processes`, `WaitRun`): fork, exit and waitpid over the tree of processes and the pid
  table, and the references to a process that threads keep on their kernel stacks while they are inside a system call.
- **Byte transports** (`Pipe`, `Argv`, `Exec`): the pipe's ring buffer under interleaved reads and writes, and the
  argument image that exec writes through a page table and the start-up code of a program reads back.

State that the kernel updates in place is a class here, with methods that modify it; pure computations are functions.
Where the code panics (an exhausted allocator, a failed assertion) the model either returns the failure, or asks of the
caller what the code asks. Three promises turn out to be false, and each has a lemma with its exact condition:

- `waitpid` asserts that a child it reaps has no other reference. `Processes.WaitCanPanic` gives a run in which the
  assertion fails, and `Processes.AssertionExactly` says when: if a thread of the child was inside down, wait, read or
  write when the child's main thread exited.
- Unlocking a mutex does not check who calls. `Steal.TwoHolders` gives a run that ends with two holders, and
  `SyncRun.UnlockExact` says when exclusion is kept.
- An empty write may look up a block that the file does not have. `Vfs.WriteExactly` says when that lookup goes wrong.

`dafny verify dfyconfig.toml` checks everything.

## Model

| member | source | states |
|---|---|---|
| `Format.Run` | easy-fs/src/vfs.rs:95-226 | Every admissible run of read, write, clear, create, find and ls on a formatted device shows the caller exactly what a table of byte sequences and directories predicts, and leaves the predicted table on the device. |
| `Format.Perform` | easy-fs/src/vfs.rs:48-226 | One operation, whichever it is, maps the table to the predicted next table, and answers in terms of the nodes: the bytes read, one by one; the node a chain of entries leads to; the names in order; a new number exactly if no entry had the name. |
| `Format.CreateFs` | easy-fs/src/efs.rs:28-87 | Formatting any device the areas fit on yields a mounted file system whose table is the empty root directory. |
| `Format.Open` | easy-fs/src/efs.rs:89-111 | Opening a mounted device recovers from the super block exactly the areas it was formatted with, and the same table. |
| `Format.NextIsTree` | easy-fs/src/vfs.rs:112-170 | Every operation keeps the directories a tree: unique names in each directory, every node but the root in exactly one directory. |
| `FsHistory.FileIsHistory` | easy-fs/src/vfs.rs:195-226 | After any run a file has the size its writes reached since its last clear, and each of its bytes is from the last write that covered it, else from the start, else 0. |
| `FsHistory.ReadSeesWrites` | easy-fs/src/vfs.rs:195-211 | A read at the end of any run returns, byte by byte, what was last written there, and as many bytes as were asked for or the file has. |
| `FsHistory.DirIsHistory` | easy-fs/src/vfs.rs:112-161 | After any run a directory holds the names that were made in it, each once, in the order they were first made. |
| `FsHistory.ListSeesMade` | easy-fs/src/vfs.rs:173-193 | A listing at the end of any run shows exactly those names in that order. |
| `FsHistory.MakeAnswers` | easy-fs/src/vfs.rs:112-161 | At the end of any run, making a node fails exactly when the name was made before; otherwise the answer is the next number, and the node is empty and of the kind asked for. |
| `FsHistory.PathsLast` | easy-fs/src/vfs.rs:67-93 | Whatever is done, a path that leads to a node goes on leading to it. |
| `FsHistory.MadeIsFound` | easy-fs/src/vfs.rs:67-161 | A node is found under every spelling of its path, in every run from the moment it was made. |
| `FsSpec.OverwriteBytes` | easy-fs/src/layout.rs:390-426 | Byte by byte, a write leaves the buffer where it was laid, the old bytes elsewhere, and zeros in a gap. |
| `FsSpec.ReadOfBytes` | easy-fs/src/layout.rs:348-387 | A read delivers the bytes from the offset on, up to the length asked for or the end of the file. |
| `Paths.SplitSpelling` | easy-fs/src/vfs.rs:67-93 | Splitting any spelling of a list of names, with any number of slashes before, between and after them, gives these names, once each and in order. |
| `Paths.EveryPathSpells` | easy-fs/src/vfs.rs:67-93 | Every path is such a spelling of its parts. |
| `Paths.WalkExactly` | easy-fs/src/vfs.rs:67-93 | Following names ends at a node if and only if a chain of directory entries with these names leads there. |
| `FsSpec.EveryNodeReachable` | easy-fs/src/vfs.rs:67-93 | In a tree every node is reached from the root by some path. |
| `FsSpec.PathsAreUnique` | easy-fs/src/vfs.rs:67-93 | In a tree no node is reached by two different paths. |
| `FsSpec.CreateKeepsTree` | easy-fs/src/vfs.rs:112-161 | Adding an entry for a new node under a name that is not taken keeps the tree a tree. |
| `FsSpec.CreateKeepsPaths` | easy-fs/src/vfs.rs:112-161 | Creation leaves every path that led somewhere leading to the same node. |
| `FsSpec.CreatedIsFound` | easy-fs/src/vfs.rs:112-161 | The new node is found below every path to its directory, under its name. |
| `Vfs.EasyFileSystem.WriteAt` | easy-fs/src/vfs.rs:200-211 | A write changes the file, byte by byte, to the buffer where it was laid, the old bytes elsewhere and zeros in a gap past the old end, and changes no other file, directory, super block or area; an empty write changes nothing but the size. |
| `Vfs.EasyFileSystem.ReadAt` | easy-fs/src/vfs.rs:195-198 | A read returns the smaller of the length asked for and what the file has from the offset on, 0 at or past the end; byte k of the buffer is byte offset + k of the file, and the rest of the buffer is untouched. |
| `Vfs.EasyFileSystem.Clear` | easy-fs/src/vfs.rs:213-226 | Clearing empties one file and gives back exactly its blocks; the assertion that each bit was set never fires. |
| `Vfs.EasyFileSystem.CreateInode` | easy-fs/src/vfs.rs:112-161 | Creating a name that is taken changes nothing and returns none; otherwise the directory gets an entry with that name and the next number behind its others, a new, empty node of the kind asked for is added, and no other node changes. |
| `Vfs.EasyFileSystem.Find` | easy-fs/src/vfs.rs:67-93 | For every list of names the path spells, the answer is a node if and only if a chain of entries with these names leads to it from the start. |
| `Vfs.EasyFileSystem.FindInodeId` | easy-fs/src/vfs.rs:48-65 | Scanning a directory finds the entry with the name before which there is no other with it, or none if there is none. |
| `Vfs.EasyFileSystem.Ls` | easy-fs/src/vfs.rs:173-193 | Listing returns the names in the order of their creation, and nothing for a file. |
| `Vfs.EasyFileSystem.IncreaseSize` | easy-fs/src/vfs.rs:95-110 | Growing a file appends zeros to what it reads as, allocating exactly the blocks that takes; a smaller size changes nothing. |
| `Vfs.EasyFileSystem.AllocData` | easy-fs/src/efs.rs:139-141 | Allocation hands out the lowest data block not in use, and marks that block and no other. |
| `Vfs.EasyFileSystem.DeallocData` | easy-fs/src/efs.rs:143-157 | A block given back is zeroed and its bit cleared; every other bit and block stays. |
| `Vfs.EasyFileSystem.AllocInode` | easy-fs/src/efs.rs:135-137 | The inode number handed out is the lowest free one, which is the number of inodes in use. |
| `Vfs.AllocOnDevice` | easy-fs/src/bitmap.rs:33-60 | The block behind the lowest clear bit lies on the device if and only if the data area is not full. |
| `Vfs.FreeBlockExists` | easy-fs/src/bitmap.rs:33-60 | As long as fewer blocks are owned than the data area has, some block of it is free. |
| `Vfs.WriteExactly` | easy-fs/src/layout.rs:162-185 | On a formatted device of at most 0x3b800001 blocks a write finds its block if and only if it is not an empty one at or past the end where an index block would start: block 28, 156 + 128r or the end of the largest file. |
| `FileData.NextIsFound` | easy-fs/src/layout.rs:162-185 | The lookup of the block after the last one finds the unfilled entry 0 if the index blocks on the way are there. |
| `FileData.NextIsLost` | easy-fs/src/layout.rs:162-185 | Where they are not, block 0 is read as an index block, and its first word, the magic number, is taken for a block id. |
| `IndexTree.PutNodeLeavesRest` | easy-fs/src/layout.rs:187-270 | Hanging a block into the tree fills no other entry, and a fresh index block comes with empty entries only. |
| `FsSteps.GrowStep` | easy-fs/src/vfs.rs:95-110 | Reserving blocks in the bitmap and hanging them into one file's tree keeps the set bits exactly the disjoint union of all files' data and index blocks. |
| `FsSteps.WriteStep` | easy-fs/src/layout.rs:390-426 | Writing bytes of one file keeps ownership, the bitmap, the zero tails and every other file's bytes. |
| `FsSteps.ClearStep` | easy-fs/src/vfs.rs:213-226 | Releasing one file's blocks keeps ownership and leaves every free block zero. |
| `FsSteps.InodeStep` | easy-fs/src/vfs.rs:35-46 | Writes to the super block, the inode bitmap and the inode area change no file's bytes and no ownership. |
| `FsState.GrowthContent` | easy-fs/src/vfs.rs:95-110 | A grown file reads as before followed by zeros, on recycled blocks too. |
| `Layout.DiskInode.IncreaseSize` | easy-fs/src/layout.rs:187-270 | Growth consumes exactly the ids it is given, in order: the blocks the inode owns become the old ones followed by the new ones, whatever the earlier splits, and no block outside the tree is written; with zeroed ids, no entry past the last block is filled. |
| `Layout.DiskInode.ClearSize` | easy-fs/src/layout.rs:272-346 | Clearing returns every block the inode owned, data and index blocks, in the order they were handed in, and leaves an empty inode. |
| `Layout.DiskInode.ReadAt` | easy-fs/src/layout.rs:348-387 | The loop over blocks fills the buffer with the file's bytes from the offset on and returns how many that were. |
| `Layout.DiskInode.WriteAt` | easy-fs/src/layout.rs:390-426 | The loop over blocks rewrites exactly the given bytes of the file and no block the file does not own. |
| `Layout.DiskInode.FillIndirect2` | easy-fs/src/layout.rs:234-268 | The walk over rows and columns hangs each id into the slot that is next in allocation order, allocating a row's index block before its first column. |
| `IndexTree.BlockIdIsDataSlot` | easy-fs/src/layout.rs:162-185 | Looking up data block k finds the id handed in for the k-th data slot, never one of the index slots. |
| `IndexTree.DataSlotMonotone` | easy-fs/src/layout.rs:162-185 | Data slots are strictly increasing, so different data blocks have different ids. |
| `IndexTree.SlotCountMonotone` | easy-fs/src/layout.rs:136-160 | The number of blocks a file needs, index blocks included, does not shrink as the file grows. |
| `IndexTree.GrowCell` | easy-fs/src/layout.rs:234-268 | Filling one cell of the double-indirect area extends the list of owned blocks by one and keeps all earlier ones. |
| `FileData.BlocksDiffer` | easy-fs/src/layout.rs:162-185 | The data blocks of one file are distinct from each other. |
| `FileData.FileFrame` | easy-fs/src/layout.rs:348-387 | A file's bytes are unaffected by writes to blocks it does not own. |
| `FileData.WriteChunk` | easy-fs/src/layout.rs:405-417 | Writing a chunk inside one block changes exactly those bytes of the file. |
| `Bitmap.Bitmap.Alloc` | easy-fs/src/bitmap.rs:33-60 | Allocation sets the lowest clear bit and no other, and fails if and only if every bit is set. |
| `Bitmap.Bitmap.Dealloc` | easy-fs/src/bitmap.rs:62-70 | Deallocation clears the given set bit and no other. |
| `Bitmap.Decomposition` | easy-fs/src/bitmap.rs:18-22 | The block, word and bit of a bit number recompose to it and lie in range. |
| `Bitmap.AddBit` | easy-fs/src/bitmap.rs:46-48 | Or-ing in a clear bit sets that bit and leaves every other bit. |
| `Bitmap.SubtractBit` | easy-fs/src/bitmap.rs:62-70 | Subtracting a set bit clears that bit and leaves every other bit. |
| `Bitmap.FullWord` | easy-fs/src/bitmap.rs:41-45 | A 64-bit word has a clear bit if and only if it is not the largest one. |
| `DiskFormat.PlanPartitions` | easy-fs/src/efs.rs:28-52 | The areas planned by formatting partition the device, and the data bitmap covers the data area with at most a block of bits to spare. |
| `DiskFormat.InodeRoundTrip` | easy-fs/src/layout.rs:105-111 | An inode stored in a quarter of a block is read back unchanged. |
| `DiskFormat.InodeFrame` | easy-fs/src/efs.rs:121-129 | Storing one inode leaves the other inodes of its block unchanged. |
| `DiskFormat.SuperRoundTrip` | easy-fs/src/layout.rs:25-90 | A super block written to a block is read back unchanged. |
| `DiskFormat.Geometry.StoreInodeStores` | easy-fs/src/efs.rs:121-129 | Writing an inode in place changes that inode, no other inode and no other block. |
| `Directory.EntryNameRoundTrip` | easy-fs/src/layout.rs:447-467 | The name of an entry is read back if and only if it has at most 27 bytes and contains no NUL. |
| `Directory.EntryIdRoundTrip` | easy-fs/src/layout.rs:447-472 | The inode number of an entry is read back unchanged. |
| `Directory.DirBytesAppend` | easy-fs/src/vfs.rs:139-148 | Writing an entry behind the last one appends it to the directory's entries. |
| `OnDisk.InodeBytesAt` | easy-fs/src/layout.rs:105-111 | An inode on disk has its size at byte 0, the direct ids from byte 4 on, the indirect ids at 116 and 120 and its type at 124, little-endian. |
| `OnDisk.InodePlace` | easy-fs/src/efs.rs:121-129 | Inode i is the quarter i mod 4 of block i / 4 of the inode area. |
| `OnDisk.SuperBytesAt` | easy-fs/src/layout.rs:25-90 | The super block is six little-endian words, the magic number first. |
| `OnDisk.EntryBytesAt` | easy-fs/src/layout.rs:447-472 | A directory entry is its name, ended by a NUL, and its inode number at byte 28. |
| `OnDisk.DataBlockAt` | easy-fs/src/layout.rs:162-185 | The id of data block k is the direct one, the word at 4 (k - 28) of the indirect block, or the word at 4 ((k - 156) mod 128) of the block that word (k - 156) / 128 of the double-indirect block names. |
| `OnDisk.BitAt` | easy-fs/src/bitmap.rs:18-22 | Bit k of a bitmap block is bit k mod 8 of its byte k / 8. |
| `CacheRun.Run` | easy-fs/src/block_cache.rs:94-148 | Every run of lookups, modifications, handle drops and sync-alls through the cache, with any number of handles, shows its user what plain blocks would show, to its end or to the lookup that panics. |
| `CacheRun.User.Perform` | easy-fs/src/block_cache.rs:94-148 | One step through the cache reads and changes the plain blocks as written out for each operation, and fails if and only if it looks up a block not held while sixteen different blocks are held; after a sync-all the device holds the plain blocks. |
| `CacheRun.User.RefusesExactly` | easy-fs/src/block_cache.rs:99-115 | Sixteen different blocks other than the one asked for are held if and only if the queue is full, lacks the block, and every block in it has a handle. |
| `CacheUse.SessionNeverPanics` | easy-fs/src/vfs.rs:67-226 | However many file operations follow one another, none runs out of cached blocks, none locks a block that it holds already, and none leaves a handle behind. |
| `CacheUse.ActIsCalm` | easy-fs/src/vfs.rs:35-46 | Reading, growing and writing, clearing and creating hold at most three blocks at a time: an inode's, the double-indirect one and a row of it; and these are three different blocks. |
| `CacheUse.CalmIsHarmless` | easy-fs/src/block_cache.rs:94-131 | Nested uses of different blocks, no deeper than the cache has room for, neither panic nor wait for their own lock, and return every handle. |
| `BlockCache.BlockCacheManager.GetBlockCache` | easy-fs/src/block_cache.rs:94-131 | A lookup returns the only live copy of the block, with the logical contents; a cached block leaves the queue as it is, another is loaded at the tail, in a full queue in place of the first entry only the queue holds; it panics if and only if the block is not cached and all sixteen cached blocks are held elsewhere. |
| `BlockCache.BlockCacheManager.Victim` | easy-fs/src/block_cache.rs:105-110 | The victim is the first entry from the front that only the queue holds. |
| `BlockCache.BlockCacheManager.MakeRoom` | easy-fs/src/block_cache.rs:103-115 | Eviction happens only when the queue is full, takes out the first entry that only the queue holds, writes it back and loses nothing. |
| `BlockCache.BlockCacheManager.Modify` | easy-fs/src/block_cache.rs:62-64 | A modification through one handle is what every holder of the block sees. |
| `BlockCache.BlockCacheManager.SyncAll` | easy-fs/src/block_cache.rs:143-148 | After syncing, the device holds the logical contents of every block. |
| `BlockCache.BlockCache.Sync` | easy-fs/src/block_cache.rs:66-72 | Syncing writes a dirty block back once and leaves it clean. |
| `Sv39.PteRoundTrip` | os/src/mm/page_table.rs:31-47 | An entry gives back the frame number and the flags it was made of. |
| `Sv39.Indexes` | os/src/mm/address.rs:163-171 | The three indexes are the nine-bit digits of the page number, highest first. |
| `Sv39.IndexesInjective` | os/src/mm/address.rs:163-171 | Different 27-bit page numbers have different indexes. |
| `Sv39.HwAgrees` | os/src/mm/page_table.rs:102-133 | The hardware walk of section 4.3.2 of the RISC-V privileged specification, which takes entries, page number fields and flag bits from memory by its own arithmetic, translates a page exactly as the software walk does when the leaf flags are ones the hardware accepts as a leaf, and faults otherwise; its third step is complete, reserved bits included. |
| `Sv39.AddTable` | os/src/mm/page_table.rs:82-100 | Hanging a fresh, zeroed table into an empty upper-level entry changes no translation. |
| `Sv39.WriteLeaf` | os/src/mm/page_table.rs:120-130 | Writing a last-level entry changes the translation of its page and of no other page. |
| `PageTable.PageTable.FindPteCreate` | os/src/mm/page_table.rs:82-100 | Creating the path to a page finds its last-level entry, changes no translation, and fails only for want of a frame. |
| `PageTable.PageTable.Map` | os/src/mm/page_table.rs:120-125 | Mapping adds exactly one page to the finite map the table refines. |
| `PageTable.PageTable.Unmap` | os/src/mm/page_table.rs:126-130 | Unmapping removes exactly one page from that map. |
| `PageTable.PageTable.Translate` | os/src/mm/page_table.rs:131-133 | Translation returns a valid entry exactly for the mapped pages, with their frame and flags. |
| `PageTable.FrameMemory.FrameAlloc` | os/src/mm/frame_allocator.rs:79-88 | A frame handed out is zeroed and not in use, the one given back last if there is one, else the next; none is handed out if and only if none is left. |
| `PageTable.FrameMemory.FrameDealloc` | os/src/mm/frame_allocator.rs:89-102 | Giving back a frame in use passes the check for frames not allocated or already recycled. |
| `MemorySet.MemorySet.MapOne` | os/src/mm/memory_set.rs:336-353 | Mapping the next page of an area keeps the areas, the page table and the frames in step, for identical and framed areas. |
| `MemorySet.MemorySet.Push` | os/src/mm/memory_set.rs:90-96 | Pushing an area maps exactly its pages, each framed one to a zeroed frame of its own. |
| `Load.PushData` | os/src/mm/memory_set.rs:90-96 | Pushing an area with data maps its pages to frames that hold the data followed by zeros; no other byte of memory in use changes. |
| `Load.CopyData` | os/src/mm/memory_set.rs:382-401 | The copy loop writes the data page by page from the start of the area, and leaves the rest zero. |
| `MemorySet.MemorySet.RemoveAreaWithStartVpn` | os/src/mm/memory_set.rs:78-89 | Removal takes out the first area with that start, its pages and its frames, and nothing else; with no such area nothing changes. |
| `Areas.ExtendLast` | os/src/mm/memory_set.rs:336-353 | One more page at the end of the last area keeps the areas disjoint and their frames exactly the data frames of the space. |
| `Areas.ShrinkFirst` | os/src/mm/memory_set.rs:355-360 | Unmapping the first page of an area keeps the areas disjoint and their frames exactly the data frames of the space. |
| `Fork.FromExistedUser` | os/src/mm/memory_set.rs:263-281 | The child has the same areas as the parent, in frames of its own that hold the bytes the parent's frames held, and its trampoline page is the given frame, readable and executable; the parent and its bytes are unchanged. |
| `Fork.CopyArea` | os/src/mm/memory_set.rs:272-279 | Copying an area page by page through both page tables copies every page and writes only to the child's frames. |
| `Fork.MapTrampoline` | os/src/mm/memory_set.rs:102-112 | Mapping the trampoline adds that one page, to the given frame, readable and executable, outside the areas. |
| `Isolation.ForkReadsSame` | os/src/mm/memory_set.rs:263-281 | After fork every byte of every area reads the same through the child's page table as it did through the parent's. |
| `Isolation.LoadedReads` | os/src/mm/memory_set.rs:382-401 | Through the page table a loaded area reads as its data, byte by byte from its start, followed by zeros. |
| `Isolation.WritesAreIsolated` | os/src/mm/memory_set.rs:263-281 | A write through one space is seen there and changes no translation and no byte of another space. |
| `Isolation.WriteChangesOneByte` | os/src/mm/page_table.rs:203-212 | A write through the page table changes that byte of the space and no other. |
| `Spaces.RecycleDataPages` | os/src/mm/memory_set.rs:294-296 | Recycling gives back exactly the data frames of the space and leaves its page table readable. |
| `Kernel.Kernel.ForkSpace` | os/src/task/process.rs:237-256 | Fork adds a copy of the space, with the given trampoline, and keeps the conservation invariant of all spaces. |
| `Kernel.Kernel.Exit` | os/src/task/mod.rs:150-156 | Exit gives back the data frames of the space, keeps its tables, and keeps the conservation invariant. |
| `Kernel.Kernel.Reap` | os/src/syscall/process.rs:117-126 | Dropping an exited space gives back exactly its remaining frames and keeps the invariant. |
| `Kernel.Kernel.NewUser` | os/src/mm/memory_set.rs:49-55 | A bare space with only the trampoline mapped joins the others and keeps the conservation invariant. |
| `Kernel.Kernel.LoadArea` | os/src/mm/memory_set.rs:222-251 | Loading a segment into a space gives it an area that holds the segment's bytes followed by zeros, changes no data of any space, and keeps the conservation invariant. |
| `Kernel.Kernel.DropLive` | os/src/task/process.rs:148-155 | Replacing a space in exec gives back all frames of the old one, data and tables, and no other. |
| `KernelRun.RunAll` | os/src/mm/frame_allocator.rs:79-102 | Over any run of creating, growing, loading, shrinking, forking, exiting, replacing and reaping spaces, the frames handed out are in every state exactly the frames held, each by one tracker, and every space has the trampoline it was made with; the only failure is running out of frames. |
| `KernelRun.Perform` | os/src/mm/memory_set.rs:49-296 | Every such event changes the list of spaces, their areas and their trampolines as predicted, or runs out of frames. |
| `KernelRun.TrampIs` | os/src/mm/memory_set.rs:102-112 | The page table in memory of each space translates the trampoline page to the frame and flags recorded for it. |
| `KernelRun.TrampsAreGiven` | os/src/mm/memory_set.rs:102-112 | In every state of any run the trampoline of each space is one that the event which made a space gave it, readable and executable but not writable. |
| `KernelRun.AreasAreGiven` | os/src/mm/memory_set.rs:60-96 | In every state of any run each area of each space has the bounds and permissions with which some event of the run mapped it. |
| `KernelRun.AreaStays` | os/src/mm/memory_set.rs:60-96 | An area that was mapped is there, with its bounds and permissions, until it is removed or its space exits or goes. |
| `Kernel.Kernel.InsertFramedArea` | os/src/mm/memory_set.rs:60-77 | Inserting a framed area maps exactly its pages to frames of its own and keeps the conservation invariant. |
| `Kernel.Kernel.RemoveArea` | os/src/mm/memory_set.rs:78-89 | Removing an area takes out the first one with that start and no other, leaves the trampoline mapped, and keeps the conservation invariant. |
| `Kernel.DropTables` | os/src/mm/page_table.rs:61-66 | Dropping a page table gives each of its frames back once. |
| `Kernel.HandedOutIsHeld` | os/src/mm/frame_allocator.rs:37-43 | The frames handed out and not recycled are exactly the frames some page table or area holds. |
| `Kernel.OneTracker` | os/src/mm/frame_allocator.rs:37-43 | No two trackers hold the same frame, so the double-free panic is unreachable. |
| `Kernel.AllReturned` | os/src/mm/frame_allocator.rs:89-102 | Once every space has been dropped, every frame is back. |
| `Sched.DispatchKeeps` | os/src/task/processor.rs:44-64 | The thread that gets the processor has not exited and its process is not gone; every thread stays in one place. |
| `Sched.SuspendKeeps` | os/src/task/mod.rs:48-63 | Yielding moves the current thread to the end of the ready queue and keeps the invariant. |
| `Sched.EnqueueKeeps` | os/src/task/mod.rs:66-78 | Joining a wait queue and blocking keeps the invariant. |
| `Sched.WakeFrontKeeps` | os/src/task/manager.rs:52-57 | Waking the front of a queue moves that thread, and no other, to the ready queue. |
| `Sched.ExpireKeeps` | os/src/timer.rs:81-103 | A timer that goes off belongs to a thread that has not exited, so the lookup of its tid does not panic. |
| `Purge.PurgeOneKeeps` | os/src/task/mod.rs:130-143 | Treating one slot of the thread table takes that thread out of the ready queue and the timers and gives its tid back. |
| `Purge.BuryKeeps` | os/src/task/mod.rs:126-156 | When every slot has been treated, no thread of the process is ready or asleep. |
| `Scheduler.Scheduler.Exit` | os/src/task/mod.rs:81-163 | A thread's exit records its code; one that is not the main thread gives back its tid, and its slot and the queues stay as they are; a main thread's exit takes all threads of its process out of the ready queue and the timers, takes back the tids of those that have not exited, empties the slots and leaves the other threads in their order. |
| `Scheduler.Scheduler.Tick` | os/src/timer.rs:81-103 | A timer check wakes exactly the timers that are due, earliest first. |
| `Scheduler.Scheduler.SleepUntil` | os/src/syscall/sync.rs:7-13 | Sleeping adds a timer with that time for the current thread, which blocks and leaves the processor; nothing else changes. |
| `ThreadRun.SleepsUntil` | os/src/timer.rs:58-103 | Over any run a sleeping thread is neither running, ready nor in a queue until a clock shows its time or its process ends, and the first such clock makes it ready. |
| `Scheduler.Scheduler.Peek` | os/src/timer.rs:37-50 | The timer on top expires no later than any other. |
| `Scheduler.Scheduler.RemoveTask` | os/src/task/manager.rs:29-38 | Removal takes out the first occurrence and keeps the order of the rest. |
| `Scheduler.Scheduler.RemoveTimer` | os/src/timer.rs:68-79 | Removal takes out the timers of one thread and keeps the others. |
| `Scheduler.Scheduler.CreateThread` | os/src/syscall/thread.rs:8-46 | A new thread gets a tid no living thread of the process has, its slot, and the end of the ready queue. |
| `Scheduler.Scheduler.WaitTid` | os/src/syscall/thread.rs:61-89 | Waiting returns -1 for itself or an empty slot, -2 for a living thread, else the exit code, and empties the slot. |
| `Scheduler.Scheduler.Down` | os/src/sync/semaphore.rs:40-48 | The caller goes on if the count was positive and else waits at the end of the queue; the queue is as long as the count is below zero. |
| `Scheduler.Scheduler.Up` | os/src/sync/semaphore.rs:30-38 | The count goes up and the thread that waited longest, if any, becomes ready. |
| `Scheduler.Scheduler.Lock` | os/src/sync/mutex.rs:79-98 | An open mutex is locked; otherwise the caller waits at the end of the queue. |
| `Scheduler.Scheduler.Unlock` | os/src/sync/mutex.rs:100-110 | The mutex passes to the thread that waited longest and opens only if none waits. |
| `Scheduler.Scheduler.SignalAll` | os/src/sync/condvar.rs:33-38 | Every waiter becomes ready in the order they came. |
| `Scheduler.Scheduler.CondWait` | os/src/sync/condvar.rs:40-47 | Releasing the mutex, joining the queue and blocking are one step. |
| `SchedRun.OnePlace` | os/src/task/mod.rs:48-163 | In every reachable state each unexited thread of a process that is not gone is in exactly one of processor, ready queue, timers and wait queues, with the matching status; any other thread is neither running, ready nor asleep. |
| `SchedRun.RunAll` | os/src/task/mod.rs:48-163 | Over any run of scheduler events the invariant holds in every state, what is seen from outside, answers of waits for threads included, is what the states say, and after the end of a process none of its threads ever runs again. |
| `ThreadRun.JoinReturns` | os/src/syscall/thread.rs:61-89 | Over any run, as long as no new thread has its tid, the first wait for an exited thread by its process returns its exit code, and every later one -1. |
| `ThreadRun.NoOvertaking` | os/src/task/manager.rs:15-28 | Over any run, of two threads in the ready queue the one ahead has had the processor before the other gets it, or its process has ended. |
| `SyncRun.SemaphoreGrants` | os/src/sync/semaphore.rs:30-48 | Over any run a semaphore lets threads through in the order of their calls, exactly as many as its initial count and the up calls allow, and the rest wait in order. |
| `SyncRun.MutexHolder` | os/src/sync/mutex.rs:78-110 | Over any run a mutex lets threads through in the order of their calls; if only holders release it, it has at most one holder and is open exactly when it has none. |
| `SyncRun.UnlockExact` | os/src/sync/mutex.rs:100-110 | Unlocking keeps exclusion if and only if the caller is the holder, which the code does not check. |
| `Steal.TwoHolders` | os/src/sync/mutex.rs:100-110 | There is a run from boot, with three threads, in which a thread that does not hold the mutex unlocks it and two threads hold it. |
| `SyncRun.ObjectRun` | os/src/sync/semaphore.rs:30-48 | Over any run the count of a semaphore is its initial count plus ups minus downs, and its queue has as many threads as the count is below zero. |
| `Ids.RecycleAllocator.Alloc` | os/src/task/id.rs:25-32 | A number handed out is one nobody has. |
| `Ids.RecycleAllocator.Dealloc` | os/src/task/id.rs:33-41 | A number given back is no longer out, and every other one is as before. |
| `Ids.LastBackFirstOut` | os/src/task/id.rs:25-41 | Allocating right after giving a number back hands out that number and restores the allocator. |
| `Ids.NextNumber` | os/src/task/id.rs:25-32 | While every number is out, the numbers come in order. |
| `MpscRun.RunSafe` | user/src/bin/mpsc_sem.rs:24-48 | For any number of producers and rounds and any interleaving, the output is a prefix of what was put in and at most eight items wait. |
| `MpscRun.NoOverwrite` | user/src/bin/mpsc_sem.rs:29-30 | A producer's store never hits a slot that is still to be read. |
| `MpscRun.ReadsNext` | user/src/bin/mpsc_sem.rs:41-42 | The consumer's load finds the next item that was put in. |
| `MpscRun.AllDelivered` | user/src/bin/mpsc_sem.rs:24-48 | When all threads are done, every item of every producer came out exactly once, each producer's in its order. |
| `MpscRun.NeverStuck` | user/src/bin/mpsc_sem.rs:24-48 | If no thread can take a step, all are done: the semaphores cause no deadlock. |
| `Mpsc.Exclusion` | user/src/bin/mpsc_sem.rs:28-31 | At most one thread is between its two calls on the mutex semaphore. |
| `Barrier.NobodyLeavesEarly` | user/src/bin/barrier_condvar.rs:30-45 | For any number of threads and any interleaving, when one thread is past the wait all have entered, and nobody is queued. |
| `Barrier.StepSignal` | user/src/bin/barrier_condvar.rs:37-38 | The last thread's signal empties the queue and keeps the invariant. |
| `Barrier.NeverStuck` | user/src/bin/barrier_condvar.rs:30-45 | If no thread can go on, all are through the barrier. |
| `Barrier.SplitWaitLosesSignal` | os/src/sync/condvar.rs:40-47 | If releasing the mutex and joining the queue were two steps, two threads could lose the signal: a run leads to a state where one is out and the other waits for ever. |
| `Barrier.Exclusion` | user/src/bin/barrier_condvar.rs:31-36 | At most one thread is in the part of the barrier the mutex protects. |
| `Processes.AssertionExactly` | os/src/syscall/process.rs:117-120 | Over any run, the assertion on the strong count of a reaped child holds if and only if no thread of the child was inside down, wait, read or write when its main thread exited. |
| `Processes.WaitCanPanic` | os/src/syscall/sync.rs:91-98 | There is a run from boot in which it fails: a child forks off, its second thread waits in down, its main thread exits, the parent waits. |
| `ProcTree.References` | os/src/syscall/process.rs:117-120 | The strong count of an unreaped process is one for its parent's list, one for the pid table until it exits, and one for each thread inside such a call. |
| `Processes.RunAll` | os/src/syscall/process.rs:98-131 | Over any run of fork, calls, exit and waitpid, to its end or to the failed assertion, every answer of waitpid is recorded, the processes form a tree, pids of unreaped processes differ, the pid table holds exactly the processes that have not exited, and each exit code is handed out at most once, as it was set. |
| `Processes.ProcessTable.ExitOf` | os/src/task/mod.rs:110-124 | Exit takes the process out of the pid table, where it always is, and hands its children, in order, to the first process. |
| `Processes.ProcessTable.WaitPid` | os/src/syscall/process.rs:98-131 | Waiting returns -1 exactly when no child matches and -2 exactly when one matches and none that matches has exited; else it takes the first one that has, and reaps it, with its pid and code, or panics as its strong count is 1 or not; only a reaped child and its parent's list change, and the pid goes back. |
| `WaitRun.WaitForChild` | os/src/syscall/process.rs:98-131 | Over any run, a parent that waits for a child it forked and has not waited for is never told that there is no such child; for the child's pid it is told -2 until the child exits, and then the pid and the code the child exited with. |
| `WaitRun.CodeOnce` | os/src/syscall/process.rs:98-131 | Over any run each exit code is handed out by at most one wait, and is the one the process exited with. |
| `Processes.ProcessTable.FindZombie` | os/src/syscall/process.rs:112-116 | The search finds the first child that has exited and that the pid names. |
| `Processes.ProcessTable.ForkBy` | os/src/task/process.rs:237-316 | The child gets a pid no unreaped process has and is last in its parent's list. |
| `ProcTree.ForkKeeps` | os/src/task/process.rs:237-316 | Fork keeps the tree, the pids and the pid table consistent. |
| `ProcTree.GoneKeeps` | os/src/task/mod.rs:110-157 | Exit keeps the tree, the pids and the pid table consistent: every child of the process has a living parent again. |
| `ProcTree.ReapKeeps` | os/src/syscall/process.rs:117-126 | Reaping keeps the tree, the pids and the pid table consistent. |
| `Pipe.RunAll` | os/src/fs/pipe.rs:134-227 | Over any interleaving of reads and writes, what came out followed by what is in the ring is what went in, in order, with at most 32 bytes waiting; each read has the bytes that came out for it, each write put in a prefix of its data, all of it when it returned, and a read returns short only when the pipe is closed and empty. |
| `Pipe.TurnsDeliver` | os/src/fs/pipe.rs:134-227 | When one write and one read of the same length take turns, both return, and the read has the data. |
| `Pipe.Pipe.ReadStep` | os/src/fs/pipe.rs:134-189 | A read takes the oldest bytes of the ring until it has what it wants or the ring is empty, and returns exactly if it has it all or the ring is empty and no write end is open. |
| `Pipe.Pipe.WriteStep` | os/src/fs/pipe.rs:191-227 | A write appends its next bytes until all are in or the ring is full, and returns exactly when they are all in and the ring was not full. |
| `Pipe.PipeRingBuffer.WriteByte` | os/src/fs/pipe.rs:67-74 | A byte written is appended to the contents of the ring. |
| `Pipe.PipeRingBuffer.ReadByte` | os/src/fs/pipe.rs:76-84 | The byte read is the oldest one, and the rest stays in order. |
| `Pipe.PipeRingBuffer.AvailableRead` | os/src/fs/pipe.rs:86-94 | The number of readable bytes is the distance from head to tail, 0 exactly when empty and 32 exactly when full. |
| `Pipe.EverythingDelivered` | os/src/fs/pipe.rs:154-159 | After a short read every byte ever accepted has been delivered. |
| `Pipe.SoleReader` | os/src/fs/pipe.rs:166-185 | With one reader, what it has is a prefix of what was written. |
| `Exec.ExecThenStart` | os/src/task/process.rs:174-226 | The arguments reach the program: all of them, each up to its first NUL, hence unchanged if and only if none contains a NUL; the stack pointer is 8-byte aligned and below them. |
| `Exec.UserStack.PushArgs` | os/src/task/process.rs:174-216 | Through the page table, the pointer array ends at the top of the stack with a null, and its j-th word is the address of the bytes of argument j followed by a NUL. |
| `Exec.UserStack.Start` | user/src/lib.rs:47-61 | The reader returns for each pointer the bytes at that address up to the first NUL. |
| `Exec.ImageWrite` | os/src/mm/page_table.rs:203-212 | A byte stored through translation changes that byte of the stack as the program sees it, and no other. |
| `Exec.ImageWord` | os/src/mm/page_table.rs:203-212 | A word stored through one translation at an aligned address changes exactly those eight bytes of the stack as the program sees it. |
| `Argv.RoundTrip` | user/src/lib.rs:47-61 | Reading back a finished image gives each argument up to its first NUL. |
| `Argv.PushMore` | os/src/task/process.rs:193-203 | Pushing the next argument disturbs neither the pointer array nor the strings already there. |

## Left out

- Format.Run: runs stay within what the code can carry out without panicking: enough free blocks and inodes, files up to the size the index tree can hold, names of at most 27 bytes without NUL.
- Vfs.EasyFileSystem.WriteAt: asks that an empty write at or past the end not be where an index block would start (`Vfs.WriteExactly` shows that the code fails there); on a device of more than 0x3b800001 blocks such a write may succeed.
- CacheUse.SessionNeverPanics: which blocks an operation uses is stated beside the file system's methods, which work on the logical blocks that the cache is proved to present, and not read off them.
- An open inode is identified by its number; the position of its record is recomputed from the number and not stored.
- Load.PushData: data longer than its area, and an area without pages, where the code would panic or write past it.
- Kernel.Kernel.NewUser: an executable's headers are not parsed; the space starts bare, and segments, stack and trap context are areas loaded or inserted next.
- Kernel spaces, identity-mapped kernel areas at boot, framebuffer areas that own no frames, and frames given to devices by number.
- TLB effects, address-space activation, trap and context-switch assembly.
- SchedRun.RunAll: wait queues are those of semaphores, blocking mutexes and condition variables of a process; kernel-wide condition variables in drivers and event files are not modelled.
- Processes.AssertionExactly: the calls counted are down, condition-variable wait, read and write; other calls of a thread are taken to end before another thread runs.
- The exit of the first process, which shuts the machine down.
- Scheduler.Scheduler.WaitTid: a tid that is reused before its first owner was waited for overwrites that owner's slot, as in the code; no promise is made about the lost exit code.
- Mpsc.Exclusion: the interleaving lets any thread that is not waiting take the next step, which includes what the scheduler does but does not use its order.
- Exec.ExecThenStart: arguments that do not fit on the user stack, where the code would write below it, and UTF-8 validation of the strings.
- Pipe.RunAll: closing the read end, which the code does not look at when writing.
- Signals, event files, files other than pipes as byte streams, drivers, the console, the shell and the remaining user programs.
- Spin mutexes outside the barrier, where they are a flag tested and set in one step.
- Fairness: `ThreadRun.NoOvertaking` keeps the order of the ready queue; that the processor is asked for again and again, so that a ready thread is eventually run, is not stated.
