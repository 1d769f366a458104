# uwufs, verified

A model of uwufs, a Unix-style block file system, and proofs about it. The device is a
sequence of 4096-byte blocks behind `ReadBlk` and `WriteBlk`; everything else is code over
that device, in five layers, each proved against the one below.

1. **Block pointers.** An inode names its data blocks `B` through ten direct pointers and
   trees of height 1, 2 and 3 with 512 entries a node. `PointerTree.Tree` says what a tree
   on the device holds: the data blocks in order, and its nodes `N` in the order in which
   appending allocates them. Append, remove, bulk remove and lookup are four algorithms
   over the same trees; all are proved against `B` and `N`. The arithmetic is done for any
   fan-out (`Radix`).
2. **Free list.** `Device.Chain(D, F)` says that `F` is the chain threaded through the free
   blocks; its last block is a sentinel that the counter leaves out.
3. **Contents.** A file is a byte sequence. `write_file` is one splice, `read_file` a slice,
   `truncate_file` the empty sequence; blocks are padded with zeros.
4. **Directories.** A packed list of entries. Adding appends; removing moves the last entry
   into the hole.
5. **Names.** `Store.Stored(D, st)` ties the whole device to an abstract state `st`: the
   free list, and for each inode number what it is (`Node`). It contains the ownership
   equation: the free list and the blocks of all inodes are, together, the data region,
   each block once. `Namespace.Sound` says that link counts, entries and free inode numbers
   agree. `Steps` defines each operation as a relation between states, `Syscalls` has the
   code and shows that it performs that step or, on an error, nothing.

A device is *in order* if it stores a sound state; it stores at most one
(`Lifecycle.StateUnique`). Main results: every system call takes a device in order to one in
order, by one step or none, except where the next list says, and there if and only if the
condition named holds; so does every run (`Runs.RunKeeps`), which accounts for every block
(`Runs.RunAccounts`); from formatting on, the same holds of the devices themselves through
any number of calls, none of them such an exception (`Sessions.FromFormatting`); names and
contents behave as two maps that each operation changes in one place (`Runs.DoesRefines`);
the directories form a tree (`Reachability.DirectoryTree`); remove undoes append exactly,
down to the order of the free list (`INode.RemoveUndoesAppend`); `rmdir` undoes `mkdir`, and
`unlink` undoes `create` and `link`, just as exactly (`Undo`); each call succeeds, and reports
each of its errors, if and only if a condition on paths and free counter holds (`Syscalls`;
`Answers` has instances); both ways of freeing a file free the same blocks; growing a file
costs exactly what a closed formula says (`FileContents.GrowthClosed`,
`FileContents.WriteFile`, in numbers `INode.IndirectBlocksOf`, `Answers.ExactFit`); path
lookup is compositional.

Where the code does not do what it is meant to, a lemma says exactly when it does, and
`Departures` has an input at which it does not, most of them a freshly formatted device and
the calls that lead there:

- `append_dblk` returns the block number whether or not the indirect blocks could be
  allocated: `INode.AppendDblk` succeeds if and only if the free counter covers them
  (`Departures.AppendSilentlyFails`).
- `write_file` without room uses the free list up and reports ENOSPC, or nothing when it is
  the last append that runs out (`FileContents.GrowFile`). After ENOSPC the device is in
  order if and only if there was no free block to begin with (`Syscalls.Write`,
  `Lifecycle.BlocksLost`, `Departures.LostMidway`, `Departures.LostAtTheEnd`).
- A lookup past the last block finds 0 if and only if there is an indirect block for the
  index; otherwise it reads the superblock as one (`DataBlockIterator.DescendDigits`,
  `Departures.LookupReadsSuperblock`).
- `remove_dblks` is documented as a loop over `remove_dblk` (`src/uwufs/cpp/c_api.h:70-80`,
  ascending, though `remove_dblk` asks for the last index). It frees the same nodes as the
  descending loop, but leaves the inode and the kept nodes pointing at them
  (`BulkRemove.RemoveDblksLeavesStale`, `Departures.RemoveDblksForgets`).
- `namei` finds a file under a path one component too long (`Path.WalkIsStrict`,
  `Departures.FileTakenForDirectory`).
- Link counts are 16 bits wide: `link`, `mkdir` and `rename` keep counts right if and only
  if the count they raise has room, and `mkdir` only if the name is free, for it does not
  look (`Steps.LinkKeepsSound`, `Steps.MkdirKeepsSound`, `Steps.RenameKeepsSound`;
  `Departures.LinkOverflows`, `Departures.MkdirOverflows`, `Departures.RenameOverflows`,
  `Departures.MkdirTwice`).
- `create` on an existing file overwrites its inode with a record that it never initialised:
  create leaves a device in order, whatever that record holds, if and only if the path does
  not resolve (`Syscalls.CreateInOrder`, `Departures.CreateTwice`).
- `rename` leaves ".." alone, so it is right after a move if and only if no directory
  changed parents (`Runs.ParentsKept`, `Departures.DotDotLeftBehind`).
- `rename` does not look where it moves something: it keeps everything reachable if and only
  if the target is not below what moves (`Reachability.RenameRooted`,
  `Departures.DirectoryDetached`).

`dafny verify dfyconfig.toml` checks the project. Files, bottom up: `Layout`, `Disk`
(module `Device`), `Radix`, `PointerTree`, `IndirectBlocks`, `INode`, `DataBlockIterator`,
`BulkRemove`, `FreeFile`, `InodeTable`, `Store`, `Editing`, `FileContents`, `Directory`,
`EntryRemoval`, `Namespace`, `Steps`, `Runs`, `Undo`, `Path`, `Lifecycle`, `NameOps`, `Syscalls`,
`Mkfs`, `Reachability`, `Sessions`, `Scenarios`, `Answers`, `Departures`.

Every method that the source runs on the device takes the abstract value of the part it
works on (`B`, `N`, the free list `F`, or the state `st`) as a ghost argument and returns
the new one.

## Model

| member | source | states |
|---|---|---|
| Device.MallocBlk | src/uwufs/low_level_operations.c:130-182 | succeeds iff the counter is not 0, that is iff the chain has more than its sentinel; then takes the head and changes nothing but the superblock |
| Device.FreeBlock | src/uwufs/low_level_operations.c:184-240 | the block becomes the head of the chain; only it and the superblock change |
| Device.ChainUnique | src/uwufs/low_level_operations.c:130-182 | the device determines its free list |
| Radix.IndStep | src/uwufs/cpp/INode.cpp:37-62 | one more block needs exactly the nodes that the recursion allocates, one per level whose remaining index is 0 |
| Radix.IndClosed | src/uwufs/cpp/INode.cpp:37-62 | closed form of the number of indirect blocks of a tree: the sum over levels j of n / 512^j rounded up |
| IndirectBlocks.PowFanout | src/uwufs/cpp/INode.cpp:55-58 | the stride of level k is the number of data blocks below one of its entries |
| IndirectBlocks.RecursiveAppendDblk | src/uwufs/cpp/INode.cpp:37-62 | the tree then holds B + [blk], its new nodes being the blocks taken off the free list, in that order; this iff the counter covers them, and otherwise no tree holds B + [blk] and the list is used up |
| IndirectBlocks.RecursiveRemoveDblk | src/uwufs/cpp/INode.cpp:87-131 | returns the last block; the tree holds the rest, and the nodes that only it needed are back on the free list in the order in which append took them |
| PointerTree.TreeFrame | src/uwufs/cpp/INode.cpp:37-62 | a tree depends on its node blocks only |
| INode.AppendDblk | src/uwufs/cpp/INode.cpp:64-85 | the inode holds B + [blk] iff the free counter covers the indirect blocks needed, which come off the free list; nothing else on the device changes; an index beyond the triple tree changes nothing |
| INode.OverheadStep | src/uwufs/cpp/INode.cpp:64-85 | appending at index n allocates exactly Overhead(n + 1) - Overhead(n) indirect blocks |
| INode.OverheadClosed | src/uwufs/cpp/INode.cpp:64-85 | closed form of the indirect blocks of a whole inode: per tree and level, the data blocks of that tree by 512^j, rounded up |
| INode.Sizes | src/uwufs/cpp/INode.h:20-23 | numbers, directory entries and inodes fill their 4096-byte blocks exactly; the trees begin at the indices 10, 522 and 262666, and end at 134480394 |
| INode.IndirectBlocksOf | src/uwufs/cpp/INode.cpp:37-85 | the indirect blocks of n data blocks as six quotients of numbers, rounded up |
| INode.OverheadSamples | src/uwufs/cpp/INode.cpp:37-85 | none up to 10 blocks, 1 up to 522, 3 up to 1034, 4 for 1035, 263171 for the largest file |
| INode.NewNodes | src/uwufs/cpp/INode.cpp:64-85 | one append never needs more than 3 indirect blocks |
| INode.RemoveDblk | src/uwufs/cpp/INode.cpp:133-167 | returns the last block; the inode holds the others; exactly the indirect blocks that only the last index needed are freed |
| INode.HoldsDetermined | src/uwufs/cpp/INode.cpp:64-85 | the blocks and nodes of an inode determine its pointers and the contents of its nodes |
| INode.HoldsUnique | src/uwufs/cpp/INode.cpp:64-85 | an inode holds, of a given number of blocks, one sequence of blocks and one of nodes |
| INode.RemoveUndoesAppend | src/uwufs/cpp/INode.cpp:64-167 | removing what was appended gives back the same device, block for block, and the same inode |
| INode.AppendThenRemove | src/uwufs/cpp/INode.cpp:64-167 | the two calls in a row restore device and inode and return the block |
| DataBlockIterator.DigitsInRadix | src/uwufs/cpp/INode.cpp:55-59 | the entries that append walks through are base-512 digits of the index |
| DataBlockIterator.UndigitsInCap | src/uwufs/cpp/INode.cpp:55-59 | every path of entries belongs to exactly one index: with DigitsInRadix a bijection |
| DataBlockIterator.DoubleDigits | src/uwufs/cpp/DataBlockIterator.cpp:161-172 | the lookup's quotient and remainder are the digits of the recursion in the double tree |
| DataBlockIterator.TripleDigits | src/uwufs/cpp/DataBlockIterator.cpp:173-188 | the same in the triple tree |
| DataBlockIterator.DescendDigits | src/uwufs/cpp/DataBlockIterator.cpp:146-190 | following the digits of n from the root leads to B[n]; past the last block it finds 0 iff there is an indirect block of height 1 for n, and otherwise comes to read block 0, the superblock, as an indirect block |
| DataBlockIterator.DataBlockIterator.Next | src/uwufs/cpp/DataBlockIterator.cpp:146-190 | returns B at the current index and moves one on, through all four regions; 0 past the last block wherever the walk stays in the tree, and beyond every tree |
| DataBlockIterator.NextBlocks | src/uwufs/cpp/DataBlockIterator.cpp:146-190 | k calls from index start yield B[start..start + k] |
| DataBlockIterator.IndexHasSlot | src/uwufs/cpp/INode.h:20-23 | each index below LEVEL_3_BLOCKS has a slot in one of the four regions, from which it is recovered |
| DataBlockIterator.SlotHasIndex | src/uwufs/cpp/INode.h:20-23 | each slot of the four regions belongs to an index below LEVEL_3_BLOCKS: with IndexHasSlot a bijection |
| DataBlockIterator.SlotHolds | src/uwufs/cpp/DataBlockIterator.cpp:146-190 | the slot of n, direct or at the end of a path of entries, holds B[n] |
| DataBlockIterator.GetDblk | src/uwufs/cpp/INode.cpp:29-31 | returns B[index] |
| BulkRemove.RecursiveRemoveDblks | src/uwufs/cpp/INode.cpp:186-215 | frees exactly the nodes whose first index is at least start, each once |
| BulkRemove.RemoveDblks | src/uwufs/cpp/INode.cpp:169-184 | frees exactly the nodes that appending from start on had allocated, each once, and touches nothing else |
| BulkRemove.RemoveOneByOne | src/uwufs/cpp/c_api.h:70-80 | the loop it stands for, run downwards: frees the same nodes, and the inode holds the first start blocks |
| BulkRemove.RemoveDblksLeavesStale | src/uwufs/cpp/INode.cpp:169-184 | after remove_dblks the inode holds the first start blocks iff start was the block count |
| FreeFile.FreeIndirectBlk | src/uwufs/file_operations.c:510-567 | the structural walk at level 0, 1 or 2 frees every data block and every node below, each once |
| FreeFile.RemoveFile | src/uwufs/file_operations.c:572-626 | frees exactly the data blocks and the indirect blocks of the inode, each once, and marks it free |
| FreeFile.FreeByIndex | src/uwufs/file_operations.c:831-852 | truncation's walk by index frees the same blocks, each once |
| FreeFile.TailHolds | src/uwufs/file_operations.c:831-852 | when the data blocks from any index on have been freed, the inode still holds its tree, and no indirect block, which is all that a lookup reads, is free |
| InodeTable.ByteOffsets | src/uwufs/low_level_operations.c:72-89 | byte-offset arithmetic gives block and slot of an inode number |
| InodeTable.SlotBijection | src/uwufs/low_level_operations.c:94-128 | inode numbers and slots correspond one to one |
| InodeTable.ReadInode | src/uwufs/low_level_operations.c:68-92 | returns record i |
| InodeTable.WriteInode | src/uwufs/low_level_operations.c:94-128 | changes record i and nothing else on the device |
| InodeTable.FindFreeInode | src/uwufs/low_level_operations.c:243-301 | the least free number that is not reserved, or EDQUOT iff there is none |
| Store.OneOwner | src/uwufs/low_level_operations.c:130-240 | an owned block is in the data region, not free, and has one owner, which has it once |
| Store.SpaceAccounted | src/uwufs/mkfs_uwu.c:107 | free_blks_left + 1 + all owned blocks = freelist_total_size |
| FileContents.SpliceStep | src/uwufs/file_operations.c:755-802 | writing one chunk patches one block of the spliced bytes and no other |
| FileContents.GrowFile | src/uwufs/file_operations.c:704-728 | with room, grows the file one zeroed block at a time, its bytes unchanged, at the exact cost GrowthCost; without, uses the free list up, with status ENOSPC, or OK when the last append is what failed, the inode then not holding the blocks |
| FileContents.GrowthClosed | src/uwufs/file_operations.c:704-728 | the cost in closed form |
| FileContents.WriteFile | src/uwufs/file_operations.c:685-819 | ENOSPC iff the cost n - m + ind(n) - ind(m) is more than the free counter; otherwise the file's bytes become its old ones with buf written at offset and zeros in any gap, and exactly that many blocks come off the free list and become the file's; on a full disk nothing changes |
| FileContents.ZeroTail | src/uwufs/file_operations.c:702-728 | in every stored state the bytes of a file's last block beyond its end are zero |
| FileContents.ReadFile | src/uwufs/file_operations.c:630-681 | the bytes from offset on, across all tree levels, up to the end of the last block, zeros after the end of the file |
| FileContents.TruncateFile | src/uwufs/file_operations.c:821-864 | no bytes, no blocks; every block that the file had is at the front of the free list once |
| Directory.Packed | src/uwufs/file_operations.c:190-193 | in every stored state a directory of k entries has them in the first k slots of exactly k / 16 blocks rounded up |
| Directory.NextInodeInPath | src/uwufs/low_level_operations.c:304-353 | the inode of the first entry with that name, ENOENT iff there is none |
| Directory.IsDirectoryEmpty | src/uwufs/file_operations.c:194-209 | reading one block tells whether the whole directory has at most two entries |
| Directory.PutDirectoryFileEntry | src/uwufs/file_operations.c:31-51 | the entry goes into the first free slot; ENOSPC iff there is none |
| Directory.FullBlock | src/uwufs/file_operations.c:91-112 | in a packed table the last block is full iff the entries fill all blocks |
| Directory.AddDirectoryFileEntry | src/uwufs/file_operations.c:54-154 | the entry is appended, packed; a block and its indirect blocks are taken iff the last block was full; the link count changes modulo 2^16 |
| EntryRemoval.SwapRemoveKeepsOthers | src/uwufs/file_operations.c:265-285 | only the removed entry is lost, and nothing is added |
| EntryRemoval.RemovedBlock | src/uwufs/file_operations.c:265-285 | block by block, what the code writes is the packed table without the entry, also when hole and last entry share a block |
| EntryRemoval.RemoveEntryFromDirDataBlk | src/uwufs/file_operations.c:243-285 | finds the first slot with that name and inode, fills it with the last entry, clears the last slot |
| EntryRemoval.UnlinkEntry | src/uwufs/file_operations.c:385-507 | removes the first entry (name, inode) or reports ENOENT iff there is none; the last block is detached, freed and taken off the size iff its only entry goes |
| Namespace.FreeIffUnnamed | src/uwufs/syscalls.c:214-226 | an inode number is free iff no ordinary entry names it |
| Namespace.EmptyHasTwoLinks | src/uwufs/syscalls.c:276-284 | an empty directory has link count 2, so the second check of rmdir never fails |
| Namespace.LosesEffect | src/uwufs/file_operations.c:243-285 | removing an entry lowers the count of names and of subdirectories by exactly that entry |
| Steps.CreateKeepsSound | src/uwufs/syscalls.c:586-669 | create keeps link counts and free numbers right |
| Steps.MkdirKeepsSound | src/uwufs/syscalls.c:90-195 | mkdir does iff the parent's 16-bit count has room and the name is free |
| Steps.LinkKeepsSound | src/uwufs/file_operations.c:287-349 | link does iff the file's 16-bit count has room |
| Steps.UnlinkKeepsSound | src/uwufs/syscalls.c:197-238 | unlink does, whether or not the last name goes |
| Steps.RmdirKeepsSound | src/uwufs/syscalls.c:241-303 | rmdir does |
| Steps.RenameKeepsSound | src/uwufs/syscalls.c:366-379 | rename does iff a directory that changes parents finds room in the new parent's count |
| Runs.DoesKeeps | src/uwufs/syscalls.c:90-489 | every operation keeps soundness, and the multiset of all blocks, free and owned |
| Runs.RunKeeps | src/uwufs/syscalls.c:90-489 | so does every run, of any length |
| Runs.RunAccounts | src/uwufs/low_level_operations.c:130-240 | after any run every block of the data region is free once or owned by one inode once, never both |
| Runs.DoesRefines | src/uwufs/syscalls.c:90-489 | each operation changes the map from (directory, name) to inode, and the bytes of files, in the one place that it should |
| Runs.RenameRefines | src/uwufs/syscalls.c:352-379 | the old name was bound, the new one was not; the binding moves; all other bindings and all files stay |
| Runs.ParentsKept | src/uwufs/syscalls.c:366-379 | ".." stays right under every operation, under rename iff no directory changes parents |
| Runs.RootDotKept | src/uwufs/syscalls.c:90-489 | the root stays its own parent |
| Undo.RmdirUndoesMkdir | src/uwufs/syscalls.c:90-303 | mkdir of a free name with room in the count, then rmdir of it: the state before, down to the order of the free list, also when the parent took a block |
| Undo.UnlinkUndoesCreate | src/uwufs/syscalls.c:197-238 | create, then unlink: the state before |
| Undo.UnlinkUndoesLink | src/uwufs/syscalls.c:197-238 | link, then unlink of the new name: the state before |
| Path.SegmentsAfterSlash | src/uwufs/low_level_operations.c:375-383 | the tokens of a/b are those of a and those of b, for all strings and repeated slashes |
| Path.SplitPathParentChild | src/uwufs/file_operations.c:211-241 | cuts at the last slash; ENOENT iff there is none, ENAMETOOLONG iff the child does not fit |
| Path.CutOnce | src/uwufs/file_operations.c:211-241 | parent and child are determined by the path |
| Path.WalkIsStrict | src/uwufs/low_level_operations.c:384-440 | namei is component-wise lookup in directories, except iff the path goes one short component beyond a file; then it finds the file |
| Path.WalkFails | src/uwufs/low_level_operations.c:384-440 | a lookup fails with ENOENT, or with ENAMETOOLONG and then some component is too long |
| Path.ResolveSplit | src/uwufs/low_level_operations.c:356-440 | resolving a path is looking up its child where its parent resolves, unless the parent is a file |
| Path.WalkExtends | src/uwufs/low_level_operations.c:356-440 | new names do not change where old paths lead |
| Path.Namei | src/uwufs/low_level_operations.c:356-440 | returns what the path resolves to, with the same error, always an inode in use |
| Lifecycle.SameRecord | src/uwufs/file_operations.c:316-340 | an inode record read before another inode changed is still the one on disk |
| Lifecycle.StateUnique | src/uwufs/low_level_operations.c:130-240 | a device stores one state |
| Lifecycle.InOrderIsSound | src/uwufs/syscalls.c:90-303 | a device is in order iff the state that it stores is sound |
| Lifecycle.ListDeterminesFree | src/uwufs/low_level_operations.c:130-240 | two devices in order with the same inode list have as many free blocks |
| Lifecycle.BlocksLost | src/uwufs/file_operations.c:704-728 | after a write ended in ENOSPC the device is in order iff no block was free to begin with |
| NameOps.GuardEnough | src/uwufs/file_operations.c:305-312 | more than four free blocks are enough for adding an entry, so the guards of create, link and mkdir suffice |
| NameOps.LinkFile | src/uwufs/file_operations.c:287-349 | succeeds iff the counter is above 5, the old path leads to something that may be linked, and the new one ends in a short name that is missing in a directory that is found; every error iff its own condition; on success the link step, or for rename the new entry with the parent's count |
| NameOps.UnlinkFile | src/uwufs/file_operations.c:354-508 | its failures exactly; on success the named entry has gone from the parent |
| Syscalls.CreateRegularFile | src/uwufs/syscalls.c:586-669 | succeeds iff the counter is above 5, the last component is short and after a '/', and the path resolves or fails with ENOENT while its parent resolves and a number is unused; ENOSPC, EDQUOT, ENAMETOOLONG, ENOENT iff their own conditions; then a create step with the least unused number, or nothing; for an existing file its record alone is overwritten, with an arbitrary one |
| Syscalls.CreateInOrder | src/uwufs/syscalls.c:618-668 | what a successful create leaves is in order, over all contents of the uninitialised record, iff the path does not resolve |
| Syscalls.Mkdir | src/uwufs/syscalls.c:90-195 | succeeds iff the counter is above 7, the last component is short and after a '/', the parent resolves and a number is unused; each error iff its own condition; a mkdir step with the least unused number, or nothing; the device is in order afterwards iff the path did not resolve and the parent's count has room |
| Syscalls.Link | src/uwufs/syscalls.c:386-391 | succeeds iff the counter is above 5, the old path names a file and the new one a short missing name in a directory that is found; EISDIR, EEXIST and the other errors iff their own conditions; a link step or nothing; the device is in order afterwards iff the file's count has room |
| Syscalls.Unlink | src/uwufs/syscalls.c:197-238 | succeeds iff the path has a '/' and leads to a regular file, whatever its size and link count; EINVAL iff it leads to a directory; ENOENT otherwise; an unlink step for the entry that the path names, or nothing |
| Syscalls.Rmdir | src/uwufs/syscalls.c:241-303 | succeeds iff the path leads to a directory with two entries and ends in a short name other than "." and ".." (it is then not the root); EPERM iff the path is "/", EINVAL iff it ends in ".", ENOTEMPTY, ENOTDIR, EIO, ENAMETOOLONG, ENOENT iff their own conditions; an rmdir step or nothing |
| Syscalls.Rename | src/uwufs/syscalls.c:305-384 | RENAME_NOREPLACE: succeeds iff the old path is found, the new one fails with ENOENT, its parent is found, its last component is short and the counter is above 5; EEXIST iff both paths are found; ENOSPC, ENAMETOOLONG, ENOENT iff their own conditions; a rename step or nothing; the device is in order afterwards iff a directory that changes parents finds room |
| Syscalls.Write | src/uwufs/syscalls.c:452-489 | ENOENT iff nothing is found, EINVAL iff a directory is, ENOSPC iff the blocks and indirect blocks needed exceed the free counter, OK otherwise; on success a write step; after ENOSPC the device is in order iff there was no free block to begin with, and then nothing has changed |
| Syscalls.Read | src/uwufs/syscalls.c:410-449 | ENOENT iff nothing is found, EISDIR iff a directory is, OK otherwise; the bytes of the file that the path names |
| Syscalls.Open | src/uwufs/syscalls.c:393-407 | with O_TRUNC a truncate step, otherwise nothing |
| Reachability.DirectoryTree | src/uwufs/syscalls.c:90-303 | in a sound state with everything reachable there is exactly one route from the root to each directory |
| Reachability.RenameRooted | src/uwufs/syscalls.c:366-379 | rename keeps every inode in use reachable iff the target directory is not what moves or below it |
| Reachability.DoesRooted | src/uwufs/syscalls.c:90-489 | every other operation keeps it |
| Reachability.RunRooted | src/uwufs/syscalls.c:90-489 | so does every run without such a rename |
| Mkfs.InitFreelist | src/uwufs/mkfs_uwu.c:32-82 | links the blocks of the data region in order, the last one to 0, and touches no other |
| Mkfs.InitInodes | src/uwufs/mkfs_uwu.c:122-144 | clears the inode list and touches nothing else |
| Mkfs.InitRootDirectory | src/uwufs/mkfs_uwu.c:184-242 | the root directory with "." and "..", in the first free block |
| Mkfs.InitUwufs | src/uwufs/mkfs_uwu.c:253-279 | any device large enough then stores a sound state with one empty directory and all other blocks free |
| Sessions.FromFormatting | src/uwufs/mkfs_uwu.c:253-279 | devices that served calls make one from the other, from formatting on, are in order: counts right, free counter, sentinel and owned blocks make up the data region, no block with two owners |
| Sessions.TreeFromFormatting | src/uwufs/mkfs_uwu.c:253-279 | ... and everything in use can be reached from the root, while no rename moves a directory below itself |
| Sessions.DotsFromFormatting | src/uwufs/mkfs_uwu.c:253-279 | ... and every ".." is right and names an inode in use, while no directory changes parents |
| Answers.RmdirAfterMkdir | src/uwufs/syscalls.c:241-303 | format, mkdir /a, rmdir /a: OK, no /a, and the device stores what it stored before, 48 blocks free |
| Answers.CreateBelow | src/uwufs/syscalls.c:586-669 | format, mkdir /a, create /a/f: OK, and /a/f is the empty file 4 |
| Answers.WriteReadUnlink | src/uwufs/syscalls.c:197-238 | format, create /f, write the byte 7, read it back, unlink /f: OK each time; no /f, its number and its block are free |
| Answers.ExactFit | src/uwufs/file_operations.c:685-785 | a file of 277 blocks fits into 278 free ones, 522 into 523, 523 into 526, 262667 into 263184: OK, and the counter is 0 |
| Answers.OneShort | src/uwufs/file_operations.c:704-717 | a file of 277 blocks with 277 free: ENOSPC, and the device is not in order |
| Answers.RefusedNames | src/uwufs/syscalls.c:305-391 | rename to a taken name EEXIST, of a missing one ENOENT; unlink and write of a directory EINVAL, link of one EISDIR; create without a '/' ENOENT; the device is as it was |
| Answers.RefusedRmdirs | src/uwufs/syscalls.c:241-303 | rmdir of a full directory ENOTEMPTY, of / EPERM, /b/. EINVAL, /b/.. ENOTEMPTY, /b/ EIO, a missing one ENOENT; the device is as it was |
| Answers.RefusedForFile | src/uwufs/syscalls.c:241-391 | rmdir of a file ENOTDIR, link and rename of it to itself EEXIST; the device is as it was |
| Answers.NameLengths | src/uwufs/file_operations.c:211-241 | create with a name of 248 letters ENAMETOOLONG, with one of 247 OK |
| Answers.MkdirGuard | src/uwufs/syscalls.c:102-110 | with eight free blocks mkdir succeeds, with seven it reports ENOSPC |
| Departures.AppendSilentlyFails | src/uwufs/cpp/INode.cpp:37-85 | on a full device the eleventh block is returned and not held |
| Departures.RemoveDblksForgets | src/uwufs/cpp/INode.cpp:169-184 | a file of one block keeps its pointer |
| Departures.CreateTwice | src/uwufs/syscalls.c:618-668 | format, create /f twice: a device that the second create may leave and that is not in order; nor is the one left, if the record on the stack was of a kind in use with link count 0 |
| Departures.LookupReadsSuperblock | src/uwufs/cpp/DataBlockIterator.cpp:153-160 | format, create /f: looking up its block 10 reads block 0 as an indirect block |
| Departures.LostMidway | src/uwufs/file_operations.c:704-717 | format, create /f, write nine blocks with eight free: ENOSPC, and the device is not in order |
| Departures.LostAtTheEnd | src/uwufs/file_operations.c:704-728 | format, create /f, write ten blocks, grow by one with one block free: no error, and the inode does not hold the eleven blocks |
| Departures.FileTakenForDirectory | src/uwufs/low_level_operations.c:392-398 | format, create /f: /f/x resolves to /f |
| Departures.DotDotLeftBehind | src/uwufs/syscalls.c:366-379 | format, mkdir /a, /b and /a/d, rename /a/d to /b/d: its ".." is still /a |
| Departures.DirectoryDetached | src/uwufs/syscalls.c:366-379 | the same directories, rename /a to /a/d/c: in order, in use, and out of reach |
| Departures.LinkOverflows | src/uwufs/file_operations.c:338-342 | format, create /f, give it 65535 links: in order; one more: not |
| Departures.MkdirOverflows | src/uwufs/syscalls.c:141-142 | format, 65533 times mkdir: in order; one more: not |
| Departures.MkdirTwice | src/uwufs/syscalls.c:118-142 | format, mkdir /a: in order; mkdir /a again: no error, and not in order |
| Departures.RenameOverflows | src/uwufs/syscalls.c:366-379 | format, 65533 times mkdir, and one below the first: in order; move that one to the root: not |

## Left out

- Raw bytes: a block is a typed value, read back with the type it was written with. That a
  block freed and reused is not read through its old type is part of what is proved.
- Device: its contents are one field of type `seq<Block>` that `WriteBlk` reassigns, not an
  array of byte buffers; reads and writes succeed, so error branches after them are gone.
- Threads: one, as uwufs is meant to be mounted. No crash, no recovery.
- Kernel: a directory is not moved directly into itself; `O_TRUNC` is not given for a
  directory; a write is not empty. The kernel sees to these before it calls, and they are
  preconditions here. It also refuses to move a directory anywhere below itself, which
  `rename` would do: that is not a precondition, `Reachability.RenameRooted` says what comes
  of it.
- Paths with "..": allowed while every ".." names an inode in use, which holds until a
  directory changes parents (`Sessions.DotsFromFormatting`). After that a ".." may name an
  inode that is free, which `namei` would take for a symbolic link.
- FileContents.WriteFile: requires that the room does not end with the very last append,
  because `append_dblk` then fails silently and the second half of `write_file` reads the
  superblock as an indirect block; and that the write ends within the largest size of a
  file, because beyond it `append_dblk` returns 0 for every block, and the second half
  writes to block 0.
- FileContents.ReadFile: requires an offset at a block boundary, because with another one
  the code adds a byte count to a pointer to a 4096-byte struct and copies from outside
  its buffer; and that the walk does not leave the tree before it finds a 0.
- FileContents.TruncateFile: the order in which the blocks go onto the free list is not
  stated, only which ones.
- Directory.AddDirectoryFileEntry: requires at least one block in the directory, which "."
  and ".." guarantee; the branch for an empty directory reads the new block over the buffer
  it has just cleared. It also requires room, as its callers' guards do.
- Syscalls.CreateRegularFile, Syscalls.Mkdir, Syscalls.Link and Syscalls.Rename require that
  the parent path does not lead to a regular file, because `namei` would accept it and the
  entry would go into that file's data, and that a full directory has not reached the
  largest size of an inode.
- Syscalls.CreateRegularFile: what the device stores after a create on an existing file is
  left open, for it depends on what was on the stack.
- Syscalls.Unlink: requires that the parent path does not lead to a regular file, for the
  same reason, and that the path does not end in "..".
- Syscalls.Rename: RENAME_NOREPLACE only; the old path ends in a name. A directory moved
  directly into itself is excluded because `link_file` would write back a stale inode.
- FreeFile.FreeIndirectBlk: one method with a level, for three functions that differ in
  their depth only.
- BulkRemove.RemoveDblks: the interval ends at the block count, as in its only call.
- Permissions, owners, times, `getattr`, `readdir`, `utimens`, `chmod`, `chown`.
- Symbolic links: nothing creates one; `namei` would follow them without a bound.
- `uwufs_mknod`, `create_file`, `count_directory_file_entries`, `init_inodes2`: not called.
- `free_inodes_left`: set by mkfs, never maintained.
- 64-bit wrap-around of block numbers and sizes: all are bounded by the device or the
  largest file.
- Mkfs.InitUwufs: the size of the inode list is a parameter, not computed from a float.
